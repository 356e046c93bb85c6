/** Exactly which messages the sanitizer keeps: the first pass keeps whatever may follow what it
    has kept so far, the second keeps every answered call with the first result for each id. */
module SanitizeExact {
  import opened Sanitize
  import opened SanitizeTheorems

  // ---- First pass ----------------------------------------------------------

  /** The first pass takes the messages one by one and keeps each exactly when the history kept
      so far is still chained with it: it never drops a message that could stay. */
  lemma Pass1IsGreedy(h: seq<Message>, m: Message)
    ensures Pass1(h + [m]) == if Chained(Pass1(h) + [m]) then Pass1(h) + [m] else Pass1(h)
  {
    var s := Pass1(h);
    assert (h + [m])[..|h|] == h;
    assert Pass1(h + [m]) == Admit(s, m);
    AdmitIff(s, m);
    Pass1Chains(h);
    hide Pass1, Admit, MayFollow, Chained;
    if MayFollow(s, m) {
      ChainedExtends(s, m);
    } else if Chained(s + [m]) {
      ChainedShrinks(s, m);
    }
  }

  // ---- Messages at chosen places -------------------------------------------

  /** The messages of `b`, which stands at place `from`, whose places are in `keep`, in order. */
  function Chosen(b: seq<Message>, from: nat, keep: set<int>): seq<Message> {
    if b == [] then [] else
    Chosen(b[..|b| - 1], from, keep) + if from + |b| - 1 in keep then [b[|b| - 1]] else []
  }

  lemma {:induction false} ChosenAppend(a: seq<Message>, b: seq<Message>, from: nat, keep: set<int>)
    ensures Chosen(a + b, from, keep) == Chosen(a, from, keep) + Chosen(b, from + |a|, keep)
  {
    if b == [] {
      assert a + b == a;
    } else {
      assert (a + b)[..|a + b| - 1] == a + b[..|b| - 1];
      ChosenAppend(a, b[..|b| - 1], from, keep);
    }
  }

  lemma {:induction false} NoneChosen(b: seq<Message>, from: nat, keep: set<int>)
    requires forall i | from <= i < from + |b| :: i !in keep
    ensures Chosen(b, from, keep) == []
  {
    if b != [] {
      NoneChosen(b[..|b| - 1], from, keep);
    }
  }

  lemma ChosenOne(m: Message, from: nat, keep: set<int>)
    ensures Chosen([m], from, keep) == if from in keep then [m] else []
  {
    assert [m][..0] == [];
  }

  // ---- Repeated results ----------------------------------------------------

  /** No earlier message of the run answers the same id. */
  predicate IsFirst(run: seq<Message>, k: nat)
    requires k < |run|
  {
    forall j | 0 <= j < k :: run[j].toolCallId != run[k].toolCallId
  }

  /** Of the results for one id the first is kept and no other. */
  lemma {:induction false} DedupKeepsFirst(run: seq<Message>, from: nat, keep: set<int>)
    requires forall k: nat | k < |run| :: from + k in keep <==> IsFirst(run, k)
    ensures Dedup(run) == Chosen(run, from, keep)
  {
    if run != [] {
      var init, n := run[..|run| - 1], |run| - 1;
      forall k: nat | k < |init|
        ensures from + k in keep <==> IsFirst(init, k)
      {
        assert IsFirst(init, k) <==> IsFirst(run, k);
      }
      DedupKeepsFirst(init, from, keep);
      LastIsFirst(run);
      hide Dedup, Chosen, IsFirst, Answers;
      DedupLast(run);
      ChosenLast(run, from, keep);
    }
  }

  lemma LastIsFirst(run: seq<Message>)
    requires run != []
    ensures IsFirst(run, |run| - 1) <==> !Answers(run[..|run| - 1], run[|run| - 1].toolCallId)
  {
  }

  lemma DedupLast(run: seq<Message>)
    requires run != []
    ensures var init, last := run[..|run| - 1], run[|run| - 1];
            Dedup(run) == Dedup(init) + if Answers(init, last.toolCallId) then [] else [last]
  {
  }

  lemma ChosenLast(b: seq<Message>, from: nat, keep: set<int>)
    requires b != []
    ensures Chosen(b, from, keep)
              == Chosen(b[..|b| - 1], from, keep) + if from + |b| - 1 in keep then [b[|b| - 1]] else []
  {
  }

  // ---- Second pass ---------------------------------------------------------

  /** Every id that the message at `c` calls is answered in its run. */
  ghost predicate CallAnswered(t: seq<Message>, c: int)
    requires 0 <= c < |t|
  {
    forall id | id in t[c].toolCalls :: AnsweredAt(t, c, id)
  }

  /** A call stays when all its ids are answered in its run; a tool message stays when its call
      does and it is the first of the run with its id; other messages always stay. */
  ghost predicate Survives(t: seq<Message>, i: int)
    requires 0 <= i < |t|
  {
    if IsCall(t[i]) then CallAnswered(t, i)
    else if IsTool(t[i]) then exists c :: SurvivesWith(t, c, i)
    else true
  }

  ghost predicate SurvivesWith(t: seq<Message>, c: int, i: int) {
    CallOf(t, c, i) && CallAnswered(t, c) && forall j | c < j < i :: t[j].toolCallId != t[i].toolCallId
  }

  ghost function Survivors(t: seq<Message>): set<int> {
    set i | 0 <= i < |t| && Survives(t, i)
  }

  /** The tool run after a call. */
  predicate RunOf(t: seq<Message>, c: nat, n: nat) {
    && c + 1 + n <= |t| && IsCall(t[c]) && (c + 1 + n < |t| ==> !IsTool(t[c + 1 + n]))
    && forall k | c < k <= c + n :: IsTool(t[k])
  }

  lemma RunLengthIsRun(t: seq<Message>, c: nat)
    requires c < |t| && IsCall(t[c])
    ensures RunOf(t, c, RunLength(t[c + 1..]))
  {
    var rest := t[c + 1..];
    var n := RunLength(rest);
    hide RunLength;
    forall k | c < k <= c + n
      ensures IsTool(t[k])
    {
      assert rest[k - c - 1] == t[k];
    }
    assert n < |rest| ==> rest[n] == t[c + 1 + n];
  }

  lemma RunIsCallsRun(t: seq<Message>, c: nat, n: nat, i: int)
    requires RunOf(t, c, n)
    ensures CallOf(t, c, i) <==> c < i <= c + n
  {
    if c + n < i < |t| {
      assert !IsTool(t[c + 1 + n]);
    }
  }

  lemma OnlyCallOf(t: seq<Message>, c: nat, n: nat, i: int, d: int)
    requires RunOf(t, c, n) && c < i <= c + n && CallOf(t, d, i)
    ensures d == c
  {
    assert d < c ==> ToolsUpTo(t, d, i) && d < c <= i;
  }

  lemma CompleteIsAnswered(t: seq<Message>, c: nat, n: nat)
    requires RunOf(t, c, n)
    ensures Complete(t[c], t[c + 1..c + 1 + n]) <==> CallAnswered(t, c)
  {
    var run := t[c + 1..c + 1 + n];
    assert forall k | 0 <= k < n :: run[k] == t[c + 1 + k];
    if CallAnswered(t, c) {
      forall q | 0 <= q < |t[c].toolCalls|
        ensures Answers(run, t[c].toolCalls[q])
      {
        assert AnsweredAt(t, c, t[c].toolCalls[q]);
        var i :| CallOf(t, c, i) && t[i].toolCallId == t[c].toolCalls[q];
        RunIsCallsRun(t, c, n, i);
        assert run[i - c - 1].toolCallId == t[c].toolCalls[q];
      }
    }
    if Complete(t[c], run) {
      forall id | id in t[c].toolCalls
        ensures AnsweredAt(t, c, id)
      {
        var q :| 0 <= q < |t[c].toolCalls| && t[c].toolCalls[q] == id;
        assert Answers(run, t[c].toolCalls[q]);
        var k :| 0 <= k < n && run[k].toolCallId == id;
        RunIsCallsRun(t, c, n, c + 1 + k);
        assert CallOf(t, c, c + 1 + k) && t[c + 1 + k].toolCallId == id;
      }
    }
  }

  lemma ResultSurvives(t: seq<Message>, c: nat, n: nat, k: nat)
    requires RunOf(t, c, n) && k < n
    ensures Survives(t, c + 1 + k) <==> CallAnswered(t, c) && IsFirst(t[c + 1..c + 1 + n], k)
  {
    var i, run := c + 1 + k, t[c + 1..c + 1 + n];
    assert forall j | 0 <= j < n :: run[j] == t[c + 1 + j];
    RunIsCallsRun(t, c, n, i);
    assert IsTool(t[i]) && !IsCall(t[i]);
    hide CallAnswered;
    if Survives(t, i) {
      var d :| SurvivesWith(t, d, i);
      OnlyCallOf(t, c, n, i, d);
      forall j | 0 <= j < k
        ensures run[j].toolCallId != run[k].toolCallId
      {
        assert t[c + 1 + j].toolCallId != t[i].toolCallId;
      }
    }
    if CallAnswered(t, c) && IsFirst(run, k) {
      forall j | c < j < i
        ensures t[j].toolCallId != t[i].toolCallId
      {
        assert run[j - c - 1].toolCallId != run[k].toolCallId;
      }
      assert SurvivesWith(t, c, i);
    }
  }

  lemma RunSurvivors(t: seq<Message>, c: nat, n: nat)
    requires RunOf(t, c, n)
    ensures var run := t[c + 1..c + 1 + n];
            Chosen(run, c + 1, Survivors(t)) == if CallAnswered(t, c) then Dedup(run) else []
  {
    var run, keep := t[c + 1..c + 1 + n], Survivors(t);
    forall k: nat | k < n
      ensures c + 1 + k in keep <==> CallAnswered(t, c) && IsFirst(run, k)
    {
      ResultSurvives(t, c, n, k);
    }
    hide Survivors, CallAnswered, IsFirst, Dedup, Chosen, RunOf;
    if CallAnswered(t, c) {
      DedupKeepsFirst(run, c + 1, keep);
    } else {
      forall i | c + 1 <= i < c + 1 + n
        ensures i !in keep
      {
        assert c + 1 + (i - c - 1) !in keep;
      }
      NoneChosen(run, c + 1, keep);
    }
  }

  lemma CallSurvives(t: seq<Message>, c: nat)
    requires c < |t| && IsCall(t[c])
    ensures c in Survivors(t) <==> CallAnswered(t, c)
  {
    hide CallAnswered;
  }

  /** The second pass keeps of one group exactly its survivors. */
  lemma GroupSurvivors(t: seq<Message>, c: nat, n: nat)
    requires RunOf(t, c, n)
    ensures KeptOf(t[c], t[c + 1..c + 1 + n]) == Chosen([t[c]] + t[c + 1..c + 1 + n], c, Survivors(t))
  {
    var run := t[c + 1..c + 1 + n];
    CompleteIsAnswered(t, c, n);
    CallSurvives(t, c);
    RunSurvivors(t, c, n);
    hide Survivors, CallAnswered, Complete, Dedup, Chosen;
    ChosenAppend([t[c]], run, c, Survivors(t));
    ChosenOne(t[c], c, Survivors(t));
  }

  /** After a message that is neither a call nor a tool message comes no tool message. */
  lemma PlainSurvives(t: seq<Message>, i: nat)
    requires Follows(t) && i < |t| && !IsCall(t[i]) && !IsTool(t[i])
    ensures i in Survivors(t) && (i + 1 < |t| ==> !IsTool(t[i + 1]))
  {
  }

  lemma {:induction false} Pass2FromHere(t: seq<Message>, i: nat)
    requires Follows(t) && i <= |t| && (i < |t| ==> !IsTool(t[i]))
    ensures Pass2(t[i..]) == Chosen(t[i..], i, Survivors(t))
    decreases |t| - i
  {
    hide *;
    if i == |t| {
      NothingLeft(t, i);
    } else if IsCall(t[i]) {
      var n := RunLength(t[i + 1..]);
      RunLengthIsRun(t, i);
      RunEndsAt(t, i, n);
      PassGroup(t, i, n);
      GroupSurvivors(t, i, n);
      Pass2FromHere(t, i + 1 + n);
      assert t[i..] == ([t[i]] + t[i + 1..i + 1 + n]) + t[i + 1 + n..];
      ChosenAppend([t[i]] + t[i + 1..i + 1 + n], t[i + 1 + n..], i, Survivors(t));
    } else {
      PlainSurvives(t, i);
      PassPlain(t, i);
      Pass2FromHere(t, i + 1);
      assert t[i..] == [t[i]] + t[i + 1..];
      ChosenAppend([t[i]], t[i + 1..], i, Survivors(t));
      ChosenOne(t[i], i, Survivors(t));
    }
  }

  lemma NothingLeft(t: seq<Message>, i: nat)
    requires i == |t|
    ensures Pass2(t[i..]) == Chosen(t[i..], i, Survivors(t))
  {
    assert t[i..] == [];
  }

  lemma RunEndsAt(t: seq<Message>, c: nat, n: nat)
    requires RunOf(t, c, n)
    ensures c + 1 + n <= |t| && (c + 1 + n < |t| ==> !IsTool(t[c + 1 + n]))
  {
  }

  /** Of what the first pass kept, the sanitized history is exactly the survivors, in order:
      nothing that satisfies the grammar's demands is dropped, and nothing else is kept. */
  lemma SanitizedIsSurvivors(h: seq<Message>)
    ensures Sanitized(h) == Chosen(Pass1(h), 0, Survivors(Pass1(h)))
  {
    var t := Pass1(h);
    Pass1Chains(h);
    ChainedFollows(t);
    assert forall c :: !CallOf(t, c, 0);
    hide Pass1, Pass2, Follows, Chained, Survivors, Chosen;
    Pass2FromHere(t, 0);
    assert t[0..] == t;
  }
}
