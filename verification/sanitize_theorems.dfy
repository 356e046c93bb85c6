/** The histories the sanitizer produces: exactly the well-formed ones, each a subsequence of
    its input that keeps every plain message. */
module SanitizeTheorems {
  import opened Sanitize

  // ---- Well-formed histories, by index -------------------------------------

  /** The messages after `c` up to and including `i` are all tool messages. */
  predicate ToolsUpTo(h: seq<Message>, c: int, i: int) {
    forall k | c < k <= i && 0 <= k < |h| :: IsTool(h[k])
  }

  /** `c` is the call whose tool run contains `i`. */
  predicate CallOf(h: seq<Message>, c: int, i: int) {
    0 <= c < i < |h| && IsCall(h[c]) && ToolsUpTo(h, c, i)
  }

  /** No system message, every tool message in the run of a call, every call right after a
      user or tool message. */
  ghost predicate Chained(h: seq<Message>) {
    && (forall i | 0 <= i < |h| :: !h[i].role.System?)
    && (forall i | 0 <= i < |h| && IsTool(h[i]) :: exists c :: CallOf(h, c, i))
    && (forall i | 0 <= i < |h| && IsCall(h[i]) :: i > 0 && UserOrTool(h[i - 1]))
  }

  /** `id` is answered in the run of the call at `c`. */
  ghost predicate AnsweredAt(h: seq<Message>, c: int, id: string) {
    exists i :: CallOf(h, c, i) && h[i].toolCallId == id
  }

  /** Every called id is answered in the call's run. */
  ghost predicate Answered(h: seq<Message>) {
    forall c, id | 0 <= c < |h| && IsCall(h[c]) && id in h[c].toolCalls :: AnsweredAt(h, c, id)
  }

  /** No two messages of one run carry the same id. */
  ghost predicate Unrepeated(h: seq<Message>) {
    forall i, j | 0 <= i < j < |h| && IsTool(h[i]) && ToolsUpTo(h, i, j) :: h[i].toolCallId != h[j].toolCallId
  }

  ghost predicate WellFormed(h: seq<Message>) {
    Chained(h) && Answered(h) && Unrepeated(h)
  }

  // ---- First pass ----------------------------------------------------------

  lemma ToolsUpToLast(s: seq<Message>, c: int)
    requires 0 <= c < |s| - 1
    ensures ToolsUpTo(s, c, |s| - 1) <==> ToolsUpTo(s[..|s| - 1], c, |s| - 2) && IsTool(s[|s| - 1])
  {
    var t := s[..|s| - 1];
    assert forall k | 0 <= k < |t| :: t[k] == s[k];
    if ToolsUpTo(s, c, |s| - 1) {
      forall k | c < k <= |s| - 2 && 0 <= k < |t|
        ensures IsTool(t[k])
      {
        assert IsTool(s[k]);
      }
    }
  }

  lemma {:induction false} InsideRunIff(s: seq<Message>)
    ensures InsideRun(s) <==> exists c :: 0 <= c < |s| && IsCall(s[c]) && ToolsUpTo(s, c, |s| - 1)
  {
    if s != [] && IsTool(s[|s| - 1]) {
      var t := s[..|s| - 1];
      InsideRunIff(t);
      hide ToolsUpTo;
      if InsideRun(t) {
        var c :| 0 <= c < |t| && IsCall(t[c]) && ToolsUpTo(t, c, |t| - 1);
        ToolsUpToLast(s, c);
        assert s[c] == t[c] && ToolsUpTo(s, c, |s| - 1);
      }
      if c :| 0 <= c < |s| && IsCall(s[c]) && ToolsUpTo(s, c, |s| - 1) {
        assert c < |t|;
        ToolsUpToLast(s, c);
        assert t[c] == s[c] && ToolsUpTo(t, c, |t| - 1);
      }
    } else if s != [] {
      assert IsCall(s[|s| - 1]) ==> ToolsUpTo(s, |s| - 1, |s| - 1);
    }
  }

  /** `m` may follow a chained history. */
  ghost predicate MayFollow(s: seq<Message>, m: Message) {
    && !m.role.System?
    && (IsTool(m) ==> InsideRun(s))
    && (IsCall(m) ==> s != [] && UserOrTool(s[|s| - 1]))
  }

  lemma AdmitIff(s: seq<Message>, m: Message)
    ensures Admit(s, m) == if MayFollow(s, m) then s + [m] else s
  {
  }

  lemma ChainedExtends(s: seq<Message>, m: Message)
    requires Chained(s) && MayFollow(s, m)
    ensures Chained(s + [m])
  {
    var h := s + [m];
    forall i | 0 <= i < |h| && IsTool(h[i])
      ensures exists c :: CallOf(h, c, i)
    {
      if i < |s| {
        var c :| CallOf(s, c, i);
        assert CallOf(h, c, i);
      } else {
        InsideRunIff(s);
        var c :| 0 <= c < |s| && IsCall(s[c]) && ToolsUpTo(s, c, |s| - 1);
        assert CallOf(h, c, i);
      }
    }
  }

  lemma ChainedShrinks(s: seq<Message>, m: Message)
    requires Chained(s + [m])
    ensures Chained(s) && MayFollow(s, m)
  {
    var h := s + [m];
    assert forall k | 0 <= k < |s| :: s[k] == h[k];
    forall i | 0 <= i < |s| && IsTool(s[i])
      ensures exists c :: CallOf(s, c, i)
    {
      var c :| CallOf(h, c, i);
      assert IsCall(s[c]) && ToolsUpTo(s, c, i);
      assert CallOf(s, c, i);
    }
    forall i | 0 <= i < |s| && IsCall(s[i])
      ensures i > 0 && UserOrTool(s[i - 1])
    {
      assert IsCall(h[i]);
    }
    assert h[|s|] == m;
    if IsTool(m) {
      var c :| CallOf(h, c, |s|);
      assert IsCall(s[c]) && ToolsUpTo(s, c, |s| - 1);
      InsideRunIff(s);
    }
  }

  lemma {:induction false} Pass1Chains(h: seq<Message>)
    ensures Chained(Pass1(h))
  {
    if h != [] {
      var s, m := Pass1(h[..|h| - 1]), h[|h| - 1];
      Pass1Chains(h[..|h| - 1]);
      AdmitIff(s, m);
      hide Chained, MayFollow, Admit;
      if MayFollow(s, m) {
        ChainedExtends(s, m);
      }
    }
  }

  lemma {:induction false} Pass1Keeps(h: seq<Message>)
    requires Chained(h)
    ensures Pass1(h) == h
  {
    if h != [] {
      var s, m := h[..|h| - 1], h[|h| - 1];
      assert h == s + [m];
      ChainedShrinks(s, m);
      hide Chained, Admit;
      Pass1Keeps(s);
      AdmitIff(s, m);
    }
  }

  // ---- Deduplicated runs ---------------------------------------------------

  predicate Distinct(run: seq<Message>) {
    forall i, j | 0 <= i < j < |run| :: run[i].toolCallId != run[j].toolCallId
  }

  predicate AllTools(run: seq<Message>) {
    forall i | 0 <= i < |run| :: IsTool(run[i])
  }

  lemma {:induction false} DedupRun(run: seq<Message>, id: string)
    requires AllTools(run)
    ensures AllTools(Dedup(run)) && Distinct(Dedup(run))
    ensures Answers(Dedup(run), id) <==> Answers(run, id)
  {
    if run != [] {
      var init, last := run[..|run| - 1], run[|run| - 1];
      assert run == init + [last];
      DedupRun(init, id);
      DedupRun(init, last.toolCallId);
      AnswersSnoc(init, last, id);
      AnswersSnoc(Dedup(init), last, id);
    }
  }

  lemma {:induction false} DedupDistinct(run: seq<Message>)
    requires Distinct(run)
    ensures Dedup(run) == run
  {
    if run != [] {
      var init, last := run[..|run| - 1], run[|run| - 1];
      assert run == init + [last];
      DedupDistinct(init);
    }
  }

  // ---- Well-formed histories grow by plain messages and whole groups -------

  lemma AnsweredExtends(s: seq<Message>, t: seq<Message>, c: nat)
    requires Answered(s) && c < |s| && IsCall(s[c])
    ensures forall id | id in s[c].toolCalls :: AnsweredAt(s + t, c, id)
  {
    forall id | id in s[c].toolCalls
      ensures AnsweredAt(s + t, c, id)
    {
      assert AnsweredAt(s, c, id);
      var i :| CallOf(s, c, i) && s[i].toolCallId == id;
      assert CallOf(s + t, c, i);
    }
  }

  lemma PlainExtends(s: seq<Message>, m: Message)
    requires WellFormed(s) && IsPlain(m)
    ensures WellFormed(s + [m])
  {
    ChainedExtends(s, m);
    var h := s + [m];
    assert Answered(h) by {
      forall c, id | 0 <= c < |h| && IsCall(h[c]) && id in h[c].toolCalls
        ensures AnsweredAt(h, c, id)
      {
        AnsweredExtends(s, [m], c);
      }
    }
    assert Unrepeated(h) by {
      forall i, j | 0 <= i < j < |h| && IsTool(h[i]) && ToolsUpTo(h, i, j)
        ensures h[i].toolCallId != h[j].toolCallId
      {
        assert IsTool(h[j]);
        assert ToolsUpTo(s, i, j) by {
          assert forall k | 0 <= k < |s| :: s[k] == h[k];
        }
      }
    }
  }

  lemma {:induction false} ToolsExtend(s: seq<Message>, run: seq<Message>)
    requires Chained(s) && InsideRun(s) && AllTools(run)
    ensures Chained(s + run)
    decreases |run|
  {
    if run == [] {
      assert s + run == s;
    } else {
      ChainedExtends(s, run[0]);
      assert (s + [run[0]])[..|s|] == s;
      hide Chained;
      ToolsExtend(s + [run[0]], run[1..]);
      assert s + run == (s + [run[0]]) + run[1..];
    }
  }

  lemma GroupAnswered(s: seq<Message>, call: Message, run: seq<Message>)
    requires Answered(s) && IsCall(call) && AllTools(run) && Complete(call, run)
    ensures Answered(s + [call] + run)
  {
    var h := s + [call] + run;
    assert forall k | |s| < k < |h| :: h[k] == run[k - |s| - 1];
    forall c, id | 0 <= c < |h| && IsCall(h[c]) && id in h[c].toolCalls
      ensures AnsweredAt(h, c, id)
    {
      assert c <= |s|;
      if c < |s| {
        AnsweredExtends(s, [call] + run, c);
        assert s + ([call] + run) == h;
      } else {
        var q :| 0 <= q < |call.toolCalls| && call.toolCalls[q] == id;
        assert Answers(run, call.toolCalls[q]);
        var k :| 0 <= k < |run| && run[k].toolCallId == id;
        assert CallOf(h, c, |s| + 1 + k);
      }
    }
  }

  lemma GroupUnrepeated(s: seq<Message>, call: Message, run: seq<Message>)
    requires Unrepeated(s) && IsCall(call) && Distinct(run)
    ensures Unrepeated(s + [call] + run)
  {
    var h := s + [call] + run;
    assert forall k | 0 <= k < |s| :: s[k] == h[k];
    assert forall k | |s| < k < |h| :: h[k] == run[k - |s| - 1];
    assert h[|s|] == call && !IsTool(call);
    forall i, j | 0 <= i < j < |h| && IsTool(h[i]) && ToolsUpTo(h, i, j)
      ensures h[i].toolCallId != h[j].toolCallId
    {
      assert j < |s| || |s| < i;
      if j < |s| {
        assert ToolsUpTo(s, i, j);
      }
    }
  }

  lemma GroupExtends(s: seq<Message>, call: Message, run: seq<Message>)
    requires WellFormed(s) && s != [] && UserOrTool(s[|s| - 1])
    requires IsCall(call) && AllTools(run) && Distinct(run) && Complete(call, run)
    ensures WellFormed(s + [call] + run)
  {
    ChainedExtends(s, call);
    assert InsideRun(s + [call]);
    hide Chained, Answered, Unrepeated;
    ToolsExtend(s + [call], run);
    GroupAnswered(s, call, run);
    GroupUnrepeated(s, call, run);
  }

  // ---- Second pass ---------------------------------------------------------

  /** `Chained` for a remainder that may start with a call. */
  ghost predicate Follows(t: seq<Message>) {
    && (forall i | 0 <= i < |t| :: !t[i].role.System?)
    && (forall i | 0 <= i < |t| && IsTool(t[i]) :: exists c :: CallOf(t, c, i))
    && (forall i | 0 < i < |t| && IsCall(t[i]) :: UserOrTool(t[i - 1]))
  }

  lemma CallOfDrop(t: seq<Message>, n: nat, c: int, i: int)
    requires n <= |t| && n <= c
    ensures CallOf(t[n..], c - n, i - n) <==> CallOf(t, c, i)
  {
    var r := t[n..];
    assert forall k | 0 <= k < |r| :: r[k] == t[k + n];
    if ToolsUpTo(r, c - n, i - n) && i < |t| {
      assert forall k | c < k <= i :: r[k - n] == t[k];
    }
  }

  lemma FollowsDrop(t: seq<Message>, n: nat)
    requires Follows(t) && n <= |t| && (n < |t| ==> !IsTool(t[n]))
    ensures Follows(t[n..])
  {
    var r := t[n..];
    assert forall k | 0 <= k < |r| :: r[k] == t[k + n];
    forall i | 0 <= i < |r| && IsTool(r[i])
      ensures exists c :: CallOf(r, c, i)
    {
      assert IsTool(t[i + n]);
      var c :| CallOf(t, c, i + n);
      assert n <= c;
      CallOfDrop(t, n, c, i + n);
    }
    forall i | 0 < i < |r| && IsCall(r[i])
      ensures UserOrTool(r[i - 1])
    {
      assert IsCall(t[i + n]);
    }
  }

  /** The remainder `t` may be put after the output `out`. */
  predicate Joins(out: seq<Message>, t: seq<Message>) {
    t != [] && IsCall(t[0]) ==> out != [] && UserOrTool(out[|out| - 1])
  }

  /** A call's run is not empty when it answers the call, and the next call never follows a
      call directly, so dropping a group leaves a valid predecessor. */
  lemma GroupBoundary(t: seq<Message>)
    requires Follows(t) && t != [] && IsCall(t[0])
    ensures var n := RunLength(t[1..]);
            && Follows(t[1 + n..])
            && (1 + n < |t| && IsCall(t[1 + n]) ==> n > 0)
            && (Complete(t[0], t[1..1 + n]) ==> n > 0)
  {
    var n := RunLength(t[1..]);
    assert 1 + n < |t| ==> t[1 + n] == t[1..][n];
    FollowsDrop(t, 1 + n);
    if Complete(t[0], t[1..1 + n]) {
      assert Answers(t[1..1 + n], t[0].toolCalls[0]);
    }
  }

  lemma DedupGroup(call: Message, run: seq<Message>)
    requires IsCall(call) && AllTools(run) && Complete(call, run)
    ensures AllTools(Dedup(run)) && Distinct(Dedup(run)) && Complete(call, Dedup(run)) && Dedup(run) != []
  {
    DedupRun(run, "");
    forall i | 0 <= i < |call.toolCalls|
      ensures Answers(Dedup(run), call.toolCalls[i])
    {
      DedupRun(run, call.toolCalls[i]);
    }
    assert Answers(Dedup(run), call.toolCalls[0]);
  }

  lemma {:induction false} Pass2WellFormed(out: seq<Message>, t: seq<Message>)
    requires WellFormed(out) && Follows(t) && Joins(out, t)
    ensures WellFormed(out + Pass2(t))
    decreases |t|
  {
    hide WellFormed, Follows, Complete, RunLength;
    if t == [] {
      assert out + [] == out;
    } else if IsCall(t[0]) {
      var n := RunLength(t[1..]);
      var run, rest := t[1..1 + n], t[1 + n..];
      GroupBoundary(t);
      if Complete(t[0], run) {
        Pass2Group(out, t, run, rest);
      } else {
        UnfoldIncomplete(t);
        assert Joins(out, rest);
        Pass2WellFormed(out, rest);
      }
    } else {
      FirstIsPlain(t);
      PlainExtends(out, t[0]);
      UnfoldPlain(out, t);
      Pass2WellFormed(out + [t[0]], t[1..]);
    }
  }

  lemma UnfoldPlain(out: seq<Message>, t: seq<Message>)
    requires t != [] && !IsCall(t[0])
    ensures out + Pass2(t) == (out + [t[0]]) + Pass2(t[1..])
  {
  }

  lemma UnfoldGroup(t: seq<Message>)
    requires t != [] && IsCall(t[0])
    ensures Pass2(t) == KeptOf(t[0], t[1..1 + RunLength(t[1..])]) + Pass2(t[1 + RunLength(t[1..])..])
  {
  }

  lemma UnfoldIncomplete(t: seq<Message>)
    requires t != [] && IsCall(t[0]) && !Complete(t[0], t[1..1 + RunLength(t[1..])])
    ensures Pass2(t) == Pass2(t[1 + RunLength(t[1..])..])
  {
    UnfoldGroup(t);
    hide Pass2, Complete, RunLength;
    assert [] + Pass2(t[1 + RunLength(t[1..])..]) == Pass2(t[1 + RunLength(t[1..])..]);
  }

  lemma FirstIsPlain(t: seq<Message>)
    requires Follows(t) && t != [] && !IsCall(t[0])
    ensures IsPlain(t[0]) && Follows(t[1..])
    ensures forall out: seq<Message> :: Joins(out + [t[0]], t[1..])
  {
    assert forall c :: !CallOf(t, c, 0) && !CallOf(t, c, 1);
    FollowsDrop(t, 1);
  }

  /** The second pass on a remainder whose first group is complete. */
  lemma UnfoldComplete(t: seq<Message>)
    requires t != [] && IsCall(t[0]) && Complete(t[0], t[1..1 + RunLength(t[1..])])
    ensures var n := RunLength(t[1..]);
            Pass2(t) == [t[0]] + Dedup(t[1..1 + n]) + Pass2(t[1 + n..])
  {
    UnfoldGroup(t);
    hide Pass2, Complete, RunLength;
  }

  lemma Regroup(out: seq<Message>, a: seq<Message>, b: seq<Message>, c: seq<Message>)
    ensures out + (a + b + c) == (out + a + b) + c
  {
  }

  lemma Reassemble(t: seq<Message>, n: nat)
    requires 1 + n <= |t|
    ensures [t[0]] + t[1..1 + n] + t[1 + n..] == t
  {
  }

  lemma TakenRun(t: seq<Message>)
    requires t != []
    ensures AllTools(t[1..1 + RunLength(t[1..])])
  {
    var n := RunLength(t[1..]);
    assert t[1..1 + n] == t[1..][..n];
  }

  lemma Pass2Group(out: seq<Message>, t: seq<Message>, run: seq<Message>, rest: seq<Message>)
    requires WellFormed(out) && Follows(t) && Joins(out, t) && t != [] && IsCall(t[0])
    requires run == t[1..1 + RunLength(t[1..])] && rest == t[1 + |run|..] && Complete(t[0], run)
    requires Follows(rest)
    ensures WellFormed(out + Pass2(t))
    decreases |t|, 0
  {
    TakenRun(t);
    UnfoldComplete(t);
    var kept := Dedup(run);
    DedupGroup(t[0], run);
    JoinsMore(out, t, kept, rest);
    hide *;
    GroupExtends(out, t[0], kept);
    Pass2WellFormed(out + [t[0]] + kept, rest);
    Regroup(out, [t[0]], kept, Pass2(rest));
  }

  lemma JoinsMore(out: seq<Message>, t: seq<Message>, kept: seq<Message>, rest: seq<Message>)
    requires Joins(out, t) && t != [] && IsCall(t[0]) && kept != [] && AllTools(kept)
    ensures out != [] && UserOrTool(out[|out| - 1]) && Joins(out + [t[0]] + kept, rest)
  {
    assert (out + [t[0]] + kept)[|out| + |kept|] == kept[|kept| - 1];
  }

  lemma AnsweredDrop(t: seq<Message>, n: nat)
    requires n <= |t| && Answered(t)
    ensures Answered(t[n..])
  {
    var r := t[n..];
    forall c, id | 0 <= c < |r| && IsCall(r[c]) && id in r[c].toolCalls
      ensures AnsweredAt(r, c, id)
    {
      assert r[c] == t[c + n];
      assert AnsweredAt(t, c + n, id);
      var i :| CallOf(t, c + n, i) && t[i].toolCallId == id;
      CallOfDrop(t, n, c + n, i);
      assert r[i - n] == t[i];
    }
  }

  lemma UnrepeatedDrop(t: seq<Message>, n: nat)
    requires n <= |t| && Unrepeated(t)
    ensures Unrepeated(t[n..])
  {
    var r := t[n..];
    forall i, j | 0 <= i < j < |r| && IsTool(r[i]) && ToolsUpTo(r, i, j)
      ensures r[i].toolCallId != r[j].toolCallId
    {
      assert ToolsUpTo(t, i + n, j + n) by {
        assert forall k | n <= k < |t| :: t[k] == r[k - n];
      }
    }
  }

  lemma FirstGroupComplete(t: seq<Message>)
    requires Answered(t) && Unrepeated(t) && t != [] && IsCall(t[0])
    ensures var run := t[1..1 + RunLength(t[1..])]; Complete(t[0], run) && Distinct(run)
  {
    var n := RunLength(t[1..]);
    var run := t[1..1 + n];
    assert forall k | 0 < k <= n :: t[k] == t[1..][k - 1] == run[k - 1];
    assert n + 1 < |t| ==> t[n + 1] == t[1..][n] && !IsTool(t[n + 1]);
    forall q | 0 <= q < |t[0].toolCalls|
      ensures Answers(run, t[0].toolCalls[q])
    {
      assert AnsweredAt(t, 0, t[0].toolCalls[q]);
      var i :| CallOf(t, 0, i) && t[i].toolCallId == t[0].toolCalls[q];
      assert i <= n;
      assert run[i - 1].toolCallId == t[0].toolCalls[q];
    }
    forall i, j | 0 <= i < j < |run|
      ensures run[i].toolCallId != run[j].toolCallId
    {
      assert IsTool(t[i + 1]) && ToolsUpTo(t, i + 1, j + 1);
    }
  }

  /** What `WellFormed` leaves of a remainder. */
  ghost predicate Settled(t: seq<Message>) { Follows(t) && Answered(t) && Unrepeated(t) }

  lemma SettledGroup(t: seq<Message>)
    requires Settled(t) && t != [] && IsCall(t[0])
    ensures var n := RunLength(t[1..]);
            && Settled(t[1 + n..])
            && Pass2(t) == [t[0]] + t[1..1 + n] + Pass2(t[1 + n..])
  {
    var n := RunLength(t[1..]);
    GroupBoundary(t);
    FirstGroupComplete(t);
    DedupDistinct(t[1..1 + n]);
    UnfoldComplete(t);
    hide Pass2, RunLength, Complete, Dedup;
    AnsweredDrop(t, 1 + n);
    UnrepeatedDrop(t, 1 + n);
  }

  lemma SettledPlain(t: seq<Message>)
    requires Settled(t) && t != [] && !IsCall(t[0])
    ensures Settled(t[1..]) && Pass2(t) == [t[0]] + Pass2(t[1..])
  {
    FirstIsPlain(t);
    AnsweredDrop(t, 1);
    UnrepeatedDrop(t, 1);
  }

  lemma {:induction false} Pass2Keeps(t: seq<Message>)
    requires Settled(t)
    ensures Pass2(t) == t
    decreases |t|
  {
    if t != [] {
      hide Settled, Pass2, RunLength;
      if IsCall(t[0]) {
        var n := RunLength(t[1..]);
        SettledGroup(t);
        Pass2Keeps(t[1 + n..]);
        Reassemble(t, n);
      } else {
        SettledPlain(t);
        Pass2Keeps(t[1..]);
      }
    }
  }

  // ---- Main results --------------------------------------------------------

  lemma ChainedFollows(h: seq<Message>)
    ensures Chained(h) <==> Follows(h) && (h != [] ==> !IsCall(h[0]))
  {
  }

  /** Every sanitized history is well-formed. */
  lemma SanitizedIsWellFormed(h: seq<Message>)
    ensures WellFormed(Sanitized(h))
  {
    Pass1Chains(h);
    ChainedFollows(Pass1(h));
    hide Follows;
    Pass2WellFormed([], Pass1(h));
    assert [] + Pass2(Pass1(h)) == Pass2(Pass1(h));
  }

  /** The histories the sanitizer leaves alone are exactly the well-formed ones. */
  lemma FixpointsAreWellFormed(h: seq<Message>)
    ensures Sanitized(h) == h <==> WellFormed(h)
  {
    SanitizedIsWellFormed(h);
    if WellFormed(h) {
      ChainedFollows(h);
      hide Follows;
      Pass1Keeps(h);
      Pass2Keeps(h);
    }
  }

  lemma SanitizingIsIdempotent(h: seq<Message>)
    ensures Sanitized(Sanitized(h)) == Sanitized(h)
  {
    SanitizedIsWellFormed(h);
    FixpointsAreWellFormed(Sanitized(h));
  }
}
