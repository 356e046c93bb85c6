/** The sanitizer only deletes: its output is an order-preserving subsequence of the input,
    and the plain messages survive untouched. */
module SanitizeOrder {
  import opened Sanitize

  /** `f` lists, in increasing order, where in `b` the messages of `a` come from. */
  ghost predicate Picks(f: seq<nat>, a: seq<Message>, b: seq<Message>) {
    && |f| == |a|
    && (forall i | 0 <= i < |f| :: f[i] < |b| && a[i] == b[f[i]])
    && (forall i, j | 0 <= i < j < |f| :: f[i] < f[j])
  }

  ghost predicate IsSubsequence(a: seq<Message>, b: seq<Message>) {
    exists f :: Picks(f, a, b)
  }

  lemma SubsequenceOfPrefix(a: seq<Message>, b: seq<Message>, m: Message)
    requires IsSubsequence(a, b)
    ensures IsSubsequence(a, b + [m]) && IsSubsequence(a + [m], b + [m])
  {
    var f: seq<nat> :| Picks(f, a, b);
    assert Picks(f, a, b + [m]);
    assert Picks(f + [|b|], a + [m], b + [m]);
  }

  lemma PicksJoin(f: seq<nat>, a: seq<Message>, h: seq<nat>, c: seq<Message>, whole: seq<Message>)
    requires Picks(f, a, whole) && Picks(h, c, whole)
    requires forall i, j | 0 <= i < |f| && 0 <= j < |h| :: f[i] < h[j]
    ensures Picks(f + h, a + c, whole)
  {
    forall i | 0 <= i < |f + h|
      ensures (f + h)[i] < |whole| && (a + c)[i] == whole[(f + h)[i]]
    {
      if i >= |f| {
        assert (f + h)[i] == h[i - |f|] && (a + c)[i] == c[i - |f|];
      }
    }
  }

  lemma PicksShifted(g: seq<nat>, c: seq<Message>, b: seq<Message>, d: seq<Message>) returns (h: seq<nat>)
    requires Picks(g, c, d)
    ensures Picks(h, c, b + d) && forall i | 0 <= i < |h| :: h[i] >= |b|
  {
    h := seq(|g|, i requires 0 <= i < |g| => g[i] + |b|);
  }

  lemma PicksPrefix(f: seq<nat>, a: seq<Message>, b: seq<Message>, d: seq<Message>)
    requires Picks(f, a, b)
    ensures Picks(f, a, b + d) && forall i | 0 <= i < |f| :: f[i] < |b|
  {
  }

  lemma SubsequenceConcat(a: seq<Message>, b: seq<Message>, c: seq<Message>, d: seq<Message>)
    requires IsSubsequence(a, b) && IsSubsequence(c, d)
    ensures IsSubsequence(a + c, b + d)
  {
    hide Picks;
    var f: seq<nat> :| Picks(f, a, b);
    var g: seq<nat> :| Picks(g, c, d);
    PicksPrefix(f, a, b, d);
    var h := PicksShifted(g, c, b, d);
    PicksJoin(f, a, h, c, b + d);
  }

  lemma SubsequenceTransitive(a: seq<Message>, b: seq<Message>, c: seq<Message>)
    requires IsSubsequence(a, b) && IsSubsequence(b, c)
    ensures IsSubsequence(a, c)
  {
    var f: seq<nat> :| Picks(f, a, b);
    var g: seq<nat> :| Picks(g, b, c);
    var h: seq<nat> := seq(|f|, i requires 0 <= i < |f| => g[f[i]]);
    assert Picks(h, a, c);
  }

  lemma EmptySubsequence(b: seq<Message>)
    ensures IsSubsequence([], b) && (b != [] ==> IsSubsequence([b[0]], [b[0]]))
  {
    assert Picks([], [], b);
    if b != [] {
      assert Picks([0], [b[0]], [b[0]]);
    }
  }

  lemma {:induction false} Pass1Deletes(h: seq<Message>)
    ensures IsSubsequence(Pass1(h), h)
  {
    if h == [] {
      EmptySubsequence(h);
    } else {
      var init, m := h[..|h| - 1], h[|h| - 1];
      Pass1Deletes(init);
      hide IsSubsequence;
      SubsequenceOfPrefix(Pass1(init), init, m);
      assert h == init + [m];
    }
  }

  lemma {:induction false} DedupDeletes(run: seq<Message>)
    ensures IsSubsequence(Dedup(run), run)
  {
    if run == [] {
      EmptySubsequence(run);
    } else {
      var init, m := run[..|run| - 1], run[|run| - 1];
      DedupDeletes(init);
      hide IsSubsequence;
      SubsequenceOfPrefix(Dedup(init), init, m);
      assert run == init + [m];
    }
  }

  lemma GroupDeletes(s: seq<Message>, n: nat)
    requires s != [] && 1 + n <= |s|
    ensures IsSubsequence([s[0]] + Dedup(s[1..1 + n]), s[..1 + n]) && IsSubsequence([], s[..1 + n])
  {
    EmptySubsequence(s);
    EmptySubsequence(s[..1 + n]);
    DedupDeletes(s[1..1 + n]);
    hide IsSubsequence, Dedup;
    SubsequenceConcat([s[0]], [s[0]], Dedup(s[1..1 + n]), s[1..1 + n]);
    assert s[..1 + n] == [s[0]] + s[1..1 + n];
  }

  lemma {:induction false} Pass2Deletes(s: seq<Message>)
    ensures IsSubsequence(Pass2(s), s)
  {
    hide IsSubsequence, Dedup, Complete;
    EmptySubsequence(s);
    if s != [] {
      var n := if IsCall(s[0]) then RunLength(s[1..]) else 0;
      var kept := if !IsCall(s[0]) then [s[0]]
                  else if Complete(s[0], s[1..1 + n]) then [s[0]] + Dedup(s[1..1 + n]) else [];
      GroupDeletes(s, n);
      Pass2Deletes(s[1 + n..]);
      assert s[..1] == [s[0]];
      assert s == s[..1 + n] + s[1 + n..];
      SubsequenceConcat(kept, s[..1 + n], Pass2(s[1 + n..]), s[1 + n..]);
    }
  }

  /** Sanitizing deletes messages and neither reorders nor changes any. */
  lemma SanitizingOnlyDeletes(h: seq<Message>)
    ensures IsSubsequence(Sanitized(h), h)
  {
    Pass1Deletes(h);
    Pass2Deletes(Pass1(h));
    hide IsSubsequence;
    SubsequenceTransitive(Sanitized(h), Pass1(h), h);
  }

  // ---- Plain messages ------------------------------------------------------

  /** The user messages, assistant messages without calls and messages of other roles. */
  function Plains(s: seq<Message>): seq<Message> {
    if s == [] then [] else (if IsPlain(s[0]) then [s[0]] else []) + Plains(s[1..])
  }

  lemma PlainsOfFirst(m: Message, rest: seq<Message>, more: seq<Message>)
    ensures Plains([m] + rest) + more == (if IsPlain(m) then [m] else []) + (Plains(rest) + more)
  {
    assert ([m] + rest)[1..] == rest;
  }

  lemma {:induction false} PlainsAppend(a: seq<Message>, b: seq<Message>)
    ensures Plains(a + b) == Plains(a) + Plains(b)
  {
    if a == [] {
      assert a + b == b;
    } else {
      hide *;
      PlainsAppend(a[1..], b);
      PlainsOfFirst(a[0], a[1..] + b, []);
      PlainsOfFirst(a[0], a[1..], Plains(b));
      assert a + b == [a[0]] + (a[1..] + b) && a == [a[0]] + a[1..];
      assert Plains(a + b) + [] == Plains(a + b) && Plains(a[1..] + b) + [] == Plains(a[1..] + b);
    }
  }

  lemma {:induction false} NoPlains(s: seq<Message>)
    requires forall i | 0 <= i < |s| :: !IsPlain(s[i])
    ensures Plains(s) == []
  {
    if s != [] {
      NoPlains(s[1..]);
    }
  }

  lemma {:induction false} Pass1KeepsPlains(h: seq<Message>)
    ensures Plains(Pass1(h)) == Plains(h)
  {
    if h != [] {
      var init, m := h[..|h| - 1], h[|h| - 1];
      assert h == init + [m];
      Pass1KeepsPlains(init);
      PlainsAppend(init, [m]);
      PlainsAppend(Pass1(init), [m]);
      assert Plains([m]) == if IsPlain(m) then [m] else [];
    }
  }

  lemma {:induction false} DedupTools(run: seq<Message>)
    requires forall i | 0 <= i < |run| :: IsTool(run[i])
    ensures forall i | 0 <= i < |Dedup(run)| :: IsTool(Dedup(run)[i])
  {
    if run != [] {
      DedupTools(run[..|run| - 1]);
    }
  }

  lemma GroupHasNoPlains(s: seq<Message>, n: nat)
    requires s != [] && IsCall(s[0]) && n == RunLength(s[1..])
    ensures Plains(KeptOf(s[0], s[1..1 + n])) == [] == Plains(s[..1 + n])
  {
    var run := s[1..1 + n];
    assert forall i | 0 <= i < n :: run[i] == s[1..][i];
    DedupTools(run);
    hide RunLength, Complete;
    NoPlains(KeptOf(s[0], run));
    assert s[..1 + n] == [s[0]] + run;
    NoPlains(s[..1 + n]);
  }

  /** The second pass replaces the first `n` messages by some with the same plain ones. */
  lemma UnfoldPass2(s: seq<Message>) returns (kept: seq<Message>, n: nat)
    requires s != []
    ensures 1 <= n <= |s| && Pass2(s) == kept + Pass2(s[n..])
    ensures Plains(kept) == Plains(s[..n])
  {
    if IsCall(s[0]) {
      n := 1 + RunLength(s[1..]);
      kept := KeptOf(s[0], s[1..n]);
      GroupHasNoPlains(s, n - 1);
    } else {
      n, kept := 1, [s[0]];
      assert s[..1] == [s[0]];
    }
    hide KeptOf, RunLength, Plains, IsCall;
  }

  lemma {:induction false} Pass2KeepsPlains(s: seq<Message>)
    ensures Plains(Pass2(s)) == Plains(s)
  {
    if s != [] {
      hide *;
      var kept, n := UnfoldPass2(s);
      Pass2KeepsPlains(s[n..]);
      PlainsAppend(kept, Pass2(s[n..]));
      PlainsAppend(s[..n], s[n..]);
      assert s == s[..n] + s[n..];
    }
  }

  /** Every user message, every assistant message without calls and every message of an
      unknown role survives, in order. */
  lemma PlainMessagesSurvive(h: seq<Message>)
    ensures Plains(Sanitized(h)) == Plains(h)
  {
    Pass1KeepsPlains(h);
    Pass2KeepsPlains(Pass1(h));
  }
}
