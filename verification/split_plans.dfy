/** Where the splitter cuts, told by what stands in the text: the breaks around the limit, the
    fences read so far and the fence that would close them. */
module SplitPlans {
  import opened Numbers
  import opened Runes
  import opened Search
  import opened Split

  // ---- Breaks --------------------------------------------------------------

  /** `r` is the last rune of `(start, end)` that satisfies `p`, not more than `window` back. */
  predicate IsLastBreak(t: string, p: char -> bool, start: int, end: int, window: nat, r: int) {
    0 <= start && end <= |t| && Max(end - window, start + 1) <= r < end && p(t[r])
    && forall j | r < j < end :: !p(t[j])
  }

  predicate NoBreak(t: string, p: char -> bool, start: int, end: int, window: nat) {
    0 <= start && end <= |t| && forall j | Max(end - window, start + 1) <= j < end :: !p(t[j])
  }

  /** A search that starts at or before `floor`, read as a search after it. */
  lemma LastInIsBreak(t: string, p: char -> bool, start: int, end: int, window: nat, floor: int)
    requires 0 <= start <= floor && end <= |t|
    ensures var r := LastIn(t, p, start, end, window);
            && (r > floor ==> IsLastBreak(t, p, floor, end, window, r))
            && (r <= floor ==> NoBreak(t, p, floor, end, window))
  {
    LastInIsLast(t, p, start, end, window);
    hide LastIn;
  }

  /** `r` is the best place to break before `end`: after the last line, else the last word. */
  predicate IsBestBreak(t: string, start: int, end: int, r: int) {
    || IsLastBreak(t, IsNewline, start, end, 200, r)
    || (NoBreak(t, IsNewline, start, end, 200) && IsLastBreak(t, IsSpaceOrTab, start, end, 100, r))
  }

  /** There is no line or word to break after. */
  predicate NothingToBreak(t: string, start: int, end: int) {
    NoBreak(t, IsNewline, start, end, 200) && NoBreak(t, IsSpaceOrTab, start, end, 100)
  }

  /** The natural end is the best break before `end`, and `end` itself only if there is none. */
  lemma NaturalEndIsBest(t: string, start: nat, end: int)
    requires start < end <= |t|
    ensures var r := NaturalEnd(t, start, end);
            IsBestBreak(t, start, end, r) || (NothingToBreak(t, start, end) && r == end)
  {
    LastInIsBreak(t, IsNewline, start, end, 200, start);
    LastInIsBreak(t, IsSpaceOrTab, start, end, 100, start);
    hide LastIn, IsLastBreak, NoBreak;
  }

  /** What the limit leaves for closing a block: a tenth, at least 50 runes, at most half. */
  lemma EffectiveLimitIs(maxLen: int)
    requires maxLen > 0
    ensures maxLen >= 500 ==> EffectiveLimit(maxLen) == maxLen - maxLen / 10
    ensures 100 <= maxLen < 500 ==> EffectiveLimit(maxLen) == maxLen - 50
    ensures maxLen < 100 ==> EffectiveLimit(maxLen) == maxLen - maxLen / 2
  {
  }

  // ---- Headers -------------------------------------------------------------

  /** The header of a fence is its line up to the next newline without trailing whitespace, or
      the bare fence when no newline follows. */
  lemma HeaderIsLine(t: string, u: nat)
    requires FenceAt(t, u)
    ensures var h, e := Header(t, u), HeaderEnd(t, u);
            && FENCE <= h && u + |h| <= e <= |t| && t[u..u + |h|] == h && !IsSpace(h[|h| - 1])
            && (forall k | u <= k < e :: t[k] != '\n')
            && (e < |t| && t[e] == '\n' ==> forall k | u + |h| <= k < e :: IsSpace(t[k]))
            && (!(e < |t| && t[e] == '\n') ==> h == FENCE && e == u + 3 && forall k | u <= k < |t| :: t[k] != '\n')
  {
    var e := FirstNewline(t, u);
    FirstNewlineIsFirst(t, u);
    assert e != -1 ==> e >= u + 3;
    LineTrimmed(t, u, if e == -1 then 3 else e - u);
    hide TrimSpace, FirstNewline, IsSpace, FenceAt;
  }

  /** The first `n` runes from a fence on, trimmed. */
  lemma LineTrimmed(t: string, u: nat, n: nat)
    requires FenceAt(t, u) && n >= 3 && u + n <= |t|
    ensures var h := TrimSpace(t[u..u + n]);
            && FENCE <= h && |h| <= n && t[u..u + |h|] == h && !IsSpace(h[|h| - 1])
            && (forall k | u + |h| <= k < u + n :: IsSpace(t[k]))
            && (n == 3 ==> h == FENCE)
  {
    var line := t[u..u + n];
    assert line[0] == line[1] == line[2] == '`' && !IsSpace('`');
    TrimSpaceKeepsFront(line);
    TrimSpaceEnds(line);
    hide TrimSpace, IsSpace;
    var h := TrimSpace(line);
    assert forall k | 0 <= k < n :: line[k] == t[u + k];
    assert |h| >= 3;
    assert h[..3] == FENCE && h == line[..|h|] == t[u..u + |h|];
  }

  lemma TrimSpaceEnds(s: string)
    requires s != [] && !IsSpace(s[0])
    ensures TrimSpace(s) != [] && !IsSpace(TrimSpace(s)[|TrimSpace(s)| - 1])
  {
    TrimSpaceKeepsFront(s);
    TrimRightIsTail(TrimLeft(s, IsSpace), IsSpace);
  }

  // ---- Plans ---------------------------------------------------------------

  /** No fence starts in `[e, stop)`. */
  predicate FenceFree(t: string, e: int, stop: int) { forall i | e <= i < stop :: !FenceAt(t, i) }

  /** Up to the natural end an even number of fences leaves no block open, and the chunk ends
      there. After an odd number the chunk is extended to the end of the next fence if that is
      within `maxLen`; only a block that cannot be closed in time is split or put off. */
  lemma PlanFollowsFences(t: string, start: nat, maxLen: int, ps: seq<nat>)
    requires |t| - start > maxLen > 0
    requires Fences(t, ps, start, NaturalEnd(t, start, start + EffectiveLimit(maxLen)))
    ensures var e := NaturalEnd(t, start, start + EffectiveLimit(maxLen));
            && (|ps| % 2 == 0 ==> Decide(t, start, maxLen) == Cut(e))
            && (|ps| % 2 == 1 ==>
                  && (forall f | e <= f && f + 3 - start <= maxLen && FenceAt(t, f) && FenceFree(t, e, f) ::
                        Decide(t, start, maxLen) == Cut(f + 3))
                  && (FenceFree(t, e, start + maxLen - 2) ==>
                        && maxLen >= 5 && FenceAt(t, ps[|ps| - 1])
                        && Decide(t, start, maxLen) == DecideInBlock(t, start, maxLen, e, ps[|ps| - 1])))
  {
    var e := NaturalEnd(t, start, start + EffectiveLimit(maxLen));
    OpenFenceIsParity(t, ps, start, e);
    hide NaturalEnd, EffectiveLimit, OpenFence, FenceEnd, DecideInBlock, FenceAt, FenceFree;
    if |ps| % 2 == 1 {
      LastIsFence(t, ps, start, e);
      forall f | e <= f && f + 3 - start <= maxLen && FenceAt(t, f) && FenceFree(t, e, f)
        ensures Decide(t, start, maxLen) == Cut(f + 3)
      {
        NextFence(t, e, f);
      }
      if FenceFree(t, e, start + maxLen - 2) {
        NoFenceInReach(t, e, start + maxLen - 2);
      }
    }
  }

  lemma LastIsFence(t: string, ps: seq<nat>, lo: int, hi: int)
    requires Fences(t, ps, lo, hi) && ps != []
    ensures FenceAt(t, ps[|ps| - 1]) && ps[|ps| - 1] + 2 < hi && lo <= ps[|ps| - 1]
  {
    hide FenceAt, Covered;
  }

  lemma NextFence(t: string, e: nat, f: nat)
    requires e <= f && FenceAt(t, f) && FenceFree(t, e, f)
    ensures FenceEnd(t, e) == f + 3
  {
    FenceEndIsFirst(t, e);
    assert f < |t|;
    hide FenceAt;
  }

  lemma NoFenceInReach(t: string, e: nat, stop: int)
    requires FenceFree(t, e, stop)
    ensures FenceEnd(t, e) == -1 || FenceEnd(t, e) >= stop + 3
  {
    hide FenceAt;
  }

  /** Inside a block that is far enough along, the chunk ends after a line of the block or at
      the limit, and the block goes on in the next chunk. Otherwise the chunk ends before the
      block; only a block that starts within the first 20 runes with no break before it is split
      at the limit all the same. */
  lemma PlanInOpenBlock(t: string, start: nat, maxLen: int, e: nat, u: nat)
    requires start <= u && u + 2 < e && e - start <= maxLen && FenceAt(t, u)
    requires |t| - start > maxLen >= 5
    ensures var p, inner, h := DecideInBlock(t, start, maxLen, e, u), start + maxLen - 5, HeaderEnd(t, u);
            && (e > h + 20 ==>
                  && p.Reopen? && p.header == Header(t, u)
                  && (IsLastBreak(t, IsNewline, h, inner, 200, p.at)
                      || (NoBreak(t, IsNewline, h, inner, 200) && p.at == inner)))
            && (e <= h + 20 ==>
                  || (p.Cut? && IsBestBreak(t, start, u, p.at))
                  || (NothingToBreak(t, start, u) && p == if u - start > 20 then Cut(u) else Reopen(inner, Header(t, u))))
  {
    var inner := start + maxLen - 5;
    LastInIsBreak(t, IsNewline, start, inner, 200, HeaderEnd(t, u));
    LastInIsBreak(t, IsNewline, start, u, 200, start);
    LastInIsBreak(t, IsSpaceOrTab, start, u, 100, start);
    hide LastIn, IsLastBreak, NoBreak, Header, HeaderEnd;
  }

  // ---- What a plan emits ---------------------------------------------------

  /** A cut emits what was read, unchanged, and goes on at the next rune that is no blank. */
  lemma CutEmits(s: Loop, at: nat, maxLen: int)
    requires s.Valid() && InBounds(Cut(at), s.text, s.start, maxLen)
    ensures var next := Apply(s, Cut(at), maxLen);
            && |next.out| == |s.out| + 1 && next.out[..|s.out|] == s.out
            && next.out[|s.out|].text == s.text[s.start..at] && next.out[|s.out|].closed == 0
            && next.text == s.text && at <= next.start <= |s.text|
            && (forall k | at <= k < next.start :: s.text[k] in " \t\n\r")
            && (next.start < |s.text| ==> s.text[next.start] !in " \t\n\r")
  {
    SkipBlanksSkips(s.text, at);
    hide SkipBlanks;
  }

  /** Closing a block emits what was read without trailing blanks, then a fence on a line of its
      own; what is left starts with the header on a line of its own. */
  lemma ReopenEmits(s: Loop, at: nat, header: string, maxLen: int) returns (stop: nat)
    requires s.Valid() && InBounds(Reopen(at, header), s.text, s.start, maxLen)
    ensures s.start <= stop <= at
    ensures forall k | stop <= k < at :: s.text[k] in " \t\n\r"
    ensures stop > s.start ==> s.text[stop - 1] !in " \t\n\r"
    ensures var next := Apply(s, Reopen(at, header), maxLen);
            var whole := header + "\n" + s.text[at..];
            && |next.out| == |s.out| + 1 && next.out[..|s.out|] == s.out
            && next.out[|s.out|].text == s.text[s.start..stop] + "\n```" && next.out[|s.out|].closed == 4
            && next.start == 0 && next.text <= whole
            && forall k | |next.text| <= k < |whole| :: IsSpace(whole[k])
  {
    stop := KeptIsRead(s.text, s.start, at);
    RebuiltIsWhole(s.text, at, header);
    hide TrimSpace, TrimRight, IsSpace;
  }

  lemma KeptIsRead(t: string, start: nat, at: nat) returns (stop: nat)
    requires start <= at <= |t|
    ensures start <= stop <= at && TrimRight(t[start..at], IsBlank) == t[start..stop]
    ensures (forall k | stop <= k < at :: IsBlank(t[k])) && (stop > start ==> !IsBlank(t[stop - 1]))
  {
    var read := t[start..at];
    var kept := TrimRight(read, IsBlank);
    TrimRightIsTail(read, IsBlank);
    stop := start + |kept|;
    hide TrimRight, IsBlank;
    assert kept == read[..|kept|] == t[start..stop];
    assert forall k | 0 <= k < |read| :: read[k] == t[start + k];
  }

  lemma RebuiltIsWhole(t: string, at: nat, header: string)
    requires at <= |t| && FENCE <= header
    ensures var whole := header + "\n" + t[at..];
            TrimSpace(whole) <= whole && forall k | |TrimSpace(whole)| <= k < |whole| :: IsSpace(whole[k])
  {
    var whole := header + "\n" + t[at..];
    assert whole[0] == header[0] == '`';
    TrimSpaceKeepsFront(whole);
  }
}
