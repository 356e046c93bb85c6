/** Text as sequences of runes: the whitespace classes the splitter uses, the trims
    of Go's `strings` package, and erasure of whitespace. */
module Runes {

  /** The four characters the splitter itself treats as blank. */
  predicate IsBlank(c: char) {
    c == ' ' || c == '\t' || c == '\n' || c == '\r'
  }

  /** Unicode White_Space, the class trimmed by `strings.TrimSpace`. */
  predicate IsSpace(c: char) {
    || IsBlank(c) || c == '\U{000B}' || c == '\U{000C}' || c == '\U{0085}' || c == '\U{00A0}'
    || c == '\U{1680}' || '\U{2000}' <= c <= '\U{200A}' || c == '\U{2028}' || c == '\U{2029}'
    || c == '\U{202F}' || c == '\U{205F}' || c == '\U{3000}'
  }

  predicate IsNewline(c: char) { c == '\n' }

  predicate IsSpaceOrTab(c: char) { c == ' ' || c == '\t' }

  function TrimLeft(s: string, p: char -> bool): (r: string)
    ensures |r| <= |s|
  {
    if s != [] && p(s[0]) then TrimLeft(s[1..], p) else s
  }

  function TrimRight(s: string, p: char -> bool): (r: string)
    ensures |r| <= |s|
  {
    if s != [] && p(s[|s| - 1]) then TrimRight(s[..|s| - 1], p) else s
  }

  /** `TrimRight` removes exactly the longest tail of runes that satisfy `p`. */
  lemma {:induction false} TrimRightIsTail(s: string, p: char -> bool)
    ensures var r := TrimRight(s, p);
            && r <= s
            && (forall i | |r| <= i < |s| :: p(s[i]))
            && (r == [] || !p(r[|r| - 1]))
  {
    if s != [] && p(s[|s| - 1]) {
      TrimRightIsTail(s[..|s| - 1], p);
    }
  }

  function TrimSpace(s: string): string {
    TrimRight(TrimLeft(s, IsSpace), IsSpace)
  }

  /** Text that starts with a visible rune only loses trailing whitespace. */
  lemma TrimSpaceKeepsFront(s: string)
    requires s != [] && !IsSpace(s[0])
    ensures TrimSpace(s) <= s && TrimSpace(s) != []
    ensures forall i | |TrimSpace(s)| <= i < |s| :: IsSpace(s[i])
    ensures !IsSpace(s[|s| - 1]) ==> TrimSpace(s) == s
  {
    var left := TrimLeft(s, IsSpace);
    assert left == s;
    TrimRightIsTail(s, IsSpace);
  }

  /** The text with every whitespace rune deleted. */
  function Erase(s: string): string {
    if s == [] then [] else (if IsSpace(s[0]) then [] else [s[0]]) + Erase(s[1..])
  }

  lemma {:induction false} EraseAppend(a: string, b: string)
    ensures Erase(a + b) == Erase(a) + Erase(b)
  {
    if a == [] {
      assert a + b == b;
    } else {
      assert (a + b)[1..] == a[1..] + b;
      EraseAppend(a[1..], b);
    }
  }

  lemma {:induction false} EraseSpaces(s: string)
    requires forall i | 0 <= i < |s| :: IsSpace(s[i])
    ensures Erase(s) == []
  {
    if s != [] {
      EraseSpaces(s[1..]);
    }
  }

  /** Dropping a whitespace-only stretch `[i, j)` does not change the erasure. */
  lemma EraseSkips(s: string, i: nat, j: nat)
    requires i <= j <= |s|
    requires forall k | i <= k < j :: IsSpace(s[k])
    ensures Erase(s[i..]) == Erase(s[j..])
  {
    assert s[i..] == s[i..j] + s[j..];
    EraseAppend(s[i..j], s[j..]);
    EraseSpaces(s[i..j]);
  }

  lemma EraseSplits(s: string, i: nat, j: nat)
    requires i <= j <= |s|
    ensures Erase(s[i..]) == Erase(s[i..j]) + Erase(s[j..])
  {
    assert s[i..] == s[i..j] + s[j..];
    EraseAppend(s[i..j], s[j..]);
  }
}
