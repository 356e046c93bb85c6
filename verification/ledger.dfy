/** The two append-only tables of the action ledger, the three writes on them with their
    constraint checks, and the query for unfinalized intents. */
module Ledger {
  datatype Intent = Intent(
    intentId: string, traceId: string, toolName: string, argsHash: string, principal: string, effectClass: string)

  datatype IntentRow = IntentRow(intent: Intent, preparedAt: int)

  datatype Status = Committed | Aborted

  /** `detail` is the result hash of a commit or the error message of an abort. */
  datatype CommitRow = CommitRow(commitId: string, intentId: string, status: Status, detail: string, completedAt: int)

  datatype Tables = Tables(intents: seq<IntentRow>, commits: seq<CommitRow>)

  const NO_ROWS := Tables([], [])

  /** One write. `generated` is the identifier the writer draws when the caller gives none,
      `at` the clock, `fault` whether the storage fails for reasons of its own. */
  datatype Op =
    | Prepare(intent: Intent, generated: string, at: int, fault: bool)
    | Finalize(status: Status, commitId: string, intentId: string, detail: string, generated: string, at: int, fault: bool)

  datatype Error = FieldRequired | InsertFailed | AlreadyFinalized | IntentNotFound

  datatype Result = Ok(id: string) | Err(error: Error)

  predicate HasIntent(t: Tables, id: string) { exists i | 0 <= i < |t.intents| :: t.intents[i].intent.intentId == id }

  predicate HasFinal(t: Tables, intentId: string) { exists i | 0 <= i < |t.commits| :: t.commits[i].intentId == intentId }

  predicate HasCommitId(t: Tables, id: string) { exists i | 0 <= i < |t.commits| :: t.commits[i].commitId == id }

  predicate FieldsPresent(i: Intent) {
    i.traceId != "" && i.toolName != "" && i.argsHash != "" && i.principal != "" && i.effectClass != ""
  }

  function Chosen(given: string, generated: string): string { if given == "" then generated else given }

  function Handle(t: Tables, op: Op): (Tables, Result) {
    match op
    case Prepare(intent, generated, at, fault) =>
      var id := Chosen(intent.intentId, generated);
      if !FieldsPresent(intent) then (t, Err(FieldRequired))
      else if fault || HasIntent(t, id) then (t, Err(InsertFailed))
      else (t.(intents := t.intents + [IntentRow(intent.(intentId := id), at)]), Ok(id))
    case Finalize(status, commitId, intentId, detail, generated, at, fault) =>
      var id := Chosen(commitId, generated);
      if intentId == "" then (t, Err(FieldRequired))
      else if fault then (t, Err(InsertFailed))
      else if HasCommitId(t, id) || HasFinal(t, intentId) then (t, Err(AlreadyFinalized))
      else if !HasIntent(t, intentId) then (t, Err(IntentNotFound))
      else (t.(commits := t.commits + [CommitRow(id, intentId, status, detail, at)]), Ok(id))
  }

  class LedgerDB {
    var intents: seq<IntentRow>
    var commits: seq<CommitRow>

    function Contents(): Tables
      reads this
    {
      Tables(intents, commits)
    }

    constructor ()
      ensures Contents() == NO_ROWS
    {
      intents, commits := [], [];
    }

    method DoPrepare(intent: Intent, generated: string, at: int, fault: bool) returns (r: Result)
      modifies this`intents
      ensures (Contents(), r) == Handle(old(Contents()), Prepare(intent, generated, at, fault))
    {
      if intent.traceId == "" || intent.toolName == "" || intent.argsHash == ""
         || intent.principal == "" || intent.effectClass == "" {
        return Err(FieldRequired);
      }
      var id := intent.intentId;
      if id == "" {
        id := generated;
      }
      if fault || HasIntent(Contents(), id) {
        return Err(InsertFailed);
      }
      intents := intents + [IntentRow(intent.(intentId := id), at)];
      return Ok(id);
    }

    method DoCommit(commitId: string, intentId: string, resultHash: string, generated: string, at: int, fault: bool)
      returns (r: Result)
      modifies this`commits
      ensures (Contents(), r) == Handle(old(Contents()), Finalize(Committed, commitId, intentId, resultHash, generated, at, fault))
    {
      if intentId == "" {
        return Err(FieldRequired);
      }
      var id := commitId;
      if id == "" {
        id := generated;
      }
      r := InsertFinal(CommitRow(id, intentId, Committed, resultHash, at), fault);
    }

    method DoAbort(commitId: string, intentId: string, message: string, generated: string, at: int, fault: bool)
      returns (r: Result)
      modifies this`commits
      ensures (Contents(), r) == Handle(old(Contents()), Finalize(Aborted, commitId, intentId, message, generated, at, fault))
    {
      if intentId == "" {
        return Err(FieldRequired);
      }
      var id := commitId;
      if id == "" {
        id := generated;
      }
      r := InsertFinal(CommitRow(id, intentId, Aborted, message, at), fault);
    }

    /** The insert shared by both finalizations, with the constraint errors told apart. A
        reused commit identifier violates the primary key, which the code reports in the same
        way as a second finalization. */
    method InsertFinal(row: CommitRow, fault: bool) returns (r: Result)
      modifies this`commits
      ensures var t := old(Contents());
              && (r.Ok? <==> !fault && HasIntent(t, row.intentId) && !HasFinal(t, row.intentId) && !HasCommitId(t, row.commitId))
              && (r == Err(AlreadyFinalized) <==> !fault && (HasFinal(t, row.intentId) || HasCommitId(t, row.commitId)))
              && (r == Err(InsertFailed) <==> fault)
              && (r == Err(IntentNotFound) ==> !HasIntent(t, row.intentId))
              && (r.Ok? ==> r.id == row.commitId && Contents() == t.(commits := t.commits + [row]))
              && (r.Err? ==> Contents() == t && r.error != FieldRequired)
    {
      if fault {
        return Err(InsertFailed);
      }
      if HasCommitId(Contents(), row.commitId) || HasFinal(Contents(), row.intentId) {
        return Err(AlreadyFinalized);
      }
      if !HasIntent(Contents(), row.intentId) {
        return Err(IntentNotFound);
      }
      commits := commits + [row];
      return Ok(row.commitId);
    }

    /** The rows of the unfinalized intents, in the order of the query. */
    method RecoverOrphans() returns (rows: seq<IntentRow>)
      ensures |rows| == |OrphanIds(Contents())|
      ensures forall k | 0 <= k < |rows| :: OrphanIds(Contents())[k] < |intents| && rows[k] == intents[OrphanIds(Contents())[k]]
    {
      OrphanIdsInRange(Contents(), |intents|);
      var ids := OrphanIds(Contents());
      rows := [];
      for k := 0 to |ids|
        invariant |rows| == k && forall j | 0 <= j < k :: rows[j] == intents[ids[j]]
      {
        rows := rows + [intents[ids[k]]];
      }
    }
  }

  // ---- The orphan query ----------------------------------------------------

  /** Row `i` is to be listed before row `j`: by time, then by insertion. */
  predicate Before(t: Tables, i: nat, j: nat)
    requires i < |t.intents| && j < |t.intents|
  {
    t.intents[i].preparedAt < t.intents[j].preparedAt || (t.intents[i].preparedAt == t.intents[j].preparedAt && i < j)
  }

  /** Inserts row `n` into a listing of earlier rows. */
  function InsertRow(t: Tables, ids: seq<nat>, n: nat): (r: seq<nat>)
    requires n < |t.intents| && forall k | 0 <= k < |ids| :: ids[k] < |t.intents|
    ensures |r| == |ids| + 1 && forall k | 0 <= k < |r| :: r[k] < |t.intents|
  {
    if ids != [] && Before(t, n, ids[|ids| - 1]) then InsertRow(t, ids[..|ids| - 1], n) + [ids[|ids| - 1]]
    else ids + [n]
  }

  /** The listing of the unfinalized intents among the first `n` rows. */
  function OrphansAmong(t: Tables, n: nat): (r: seq<nat>)
    requires n <= |t.intents|
    ensures forall k | 0 <= k < |r| :: r[k] < |t.intents|
  {
    if n == 0 then [] else
    var ids := OrphansAmong(t, n - 1);
    if HasFinal(t, t.intents[n - 1].intent.intentId) then ids else InsertRow(t, ids, n - 1)
  }

  function OrphanIds(t: Tables): seq<nat> { OrphansAmong(t, |t.intents|) }

  lemma OrphanIdsInRange(t: Tables, n: nat)
    requires n == |t.intents|
    ensures forall k | 0 <= k < |OrphanIds(t)| :: OrphanIds(t)[k] < n
  {
  }
}

/** What the tables keep over every run, and what the orphan query returns. */
module LedgerTheorems {
  import opened Ledger

  function Replay(ops: seq<Op>): Tables {
    if ops == [] then NO_ROWS else Handle(Replay(ops[..|ops| - 1]), ops[|ops| - 1]).0
  }

  /** The schema's rules: intent and commit identifiers are unique, every finalization refers
      to an intent, and no intent has two. */
  ghost predicate Sound(t: Tables) {
    && (forall i, j | 0 <= i < j < |t.intents| :: t.intents[i].intent.intentId != t.intents[j].intent.intentId)
    && (forall i, j | 0 <= i < j < |t.commits| :: t.commits[i].commitId != t.commits[j].commitId)
    && (forall i, j | 0 <= i < j < |t.commits| :: t.commits[i].intentId != t.commits[j].intentId)
    && (forall i | 0 <= i < |t.commits| :: HasIntent(t, t.commits[i].intentId))
  }

  predicate Extends(t: Tables, t': Tables) { t.intents <= t'.intents && t.commits <= t'.commits }

  lemma ExtendsKeepsIntents(t: Tables, t': Tables, id: string)
    requires Extends(t, t') && HasIntent(t, id)
    ensures HasIntent(t', id)
  {
    var i :| 0 <= i < |t.intents| && t.intents[i].intent.intentId == id;
    assert t'.intents[i].intent.intentId == id;
  }

  lemma HandleExtends(t: Tables, op: Op)
    ensures Extends(t, Handle(t, op).0)
  {
  }

  lemma HandleKeepsSound(t: Tables, op: Op)
    requires Sound(t)
    ensures Sound(Handle(t, op).0)
  {
    var t' := Handle(t, op).0;
    HandleExtends(t, op);
    forall i | 0 <= i < |t'.commits|
      ensures HasIntent(t', t'.commits[i].intentId)
    {
      if i < |t.commits| {
        assert t'.commits[i] == t.commits[i];
      }
      ExtendsKeepsIntents(t, t', t'.commits[i].intentId);
    }
  }

  /** Over every sequence of writes the tables satisfy the schema, and each keeps every
      earlier row unchanged. */
  lemma {:induction false} TablesOverRuns(ops: seq<Op>, n: nat)
    requires n <= |ops|
    ensures Sound(Replay(ops)) && Extends(Replay(ops[..n]), Replay(ops))
    decreases |ops|
  {
    if ops == [] {
    } else if n == |ops| {
      assert ops[..n] == ops;
      TablesOverRuns(ops[..|ops| - 1], 0);
      hide Handle, Sound;
      HandleKeepsSound(Replay(ops[..|ops| - 1]), ops[|ops| - 1]);
    } else {
      var init := ops[..|ops| - 1];
      TablesOverRuns(init, n);
      assert init[..n] == ops[..n];
      hide Handle, Sound;
      HandleKeepsSound(Replay(init), ops[|ops| - 1]);
      HandleExtends(Replay(init), ops[|ops| - 1]);
    }
  }

  /** The identifiers in the tables: of intents, of finalizations, and of finalized intents. */
  ghost function IntentIds(t: Tables): set<string> {
    set i | 0 <= i < |t.intents| :: t.intents[i].intent.intentId
  }

  ghost function CommitIds(t: Tables): set<string> {
    set i | 0 <= i < |t.commits| :: t.commits[i].commitId
  }

  ghost function FinalizedIds(t: Tables): set<string> {
    set i | 0 <= i < |t.commits| :: t.commits[i].intentId
  }

  /** Exactly when an intent is written and which error it gets; what is written is the
      caller's intent, under the identifier that is returned, at the time of the write. */
  lemma PrepareOutcome(t: Tables, op: Op)
    requires op.Prepare?
    ensures var (t', r) := Handle(t, op);
            var i, id := op.intent, Chosen(op.intent.intentId, op.generated);
            var complete := i.traceId != "" && i.toolName != "" && i.argsHash != "" && i.principal != "" && i.effectClass != "";
            && (r.Ok? <==> complete && !op.fault && id !in IntentIds(t))
            && (r == Err(FieldRequired) <==> !complete)
            && (r == Err(InsertFailed) <==> complete && (op.fault || id in IntentIds(t)))
            && (r.Ok? ==>
                  && r.id == (if i.intentId != "" then i.intentId else op.generated) && r.id in IntentIds(t')
                  && t'.commits == t.commits && |t'.intents| == |t.intents| + 1 && t'.intents[..|t.intents|] == t.intents
                  && var row := t'.intents[|t.intents|];
                  && row.preparedAt == op.at && row.intent.intentId == r.id && row.intent.traceId == i.traceId
                  && row.intent.toolName == i.toolName && row.intent.argsHash == i.argsHash
                  && row.intent.principal == i.principal && row.intent.effectClass == i.effectClass)
            && (!r.Ok? ==> t' == t)
  {
    var (t', r) := Handle(t, op);
    if r.Ok? {
      assert t'.intents[|t.intents|].intent.intentId == r.id;
    }
  }

  /** Exactly when a finalization is written and which error it gets; what is written is the
      caller's status and detail for the intent it names. The error that says "already
      finalized" is also the one for a commit identifier in use, so it is truthful exactly when
      an identifier in use comes with a finalized intent. */
  lemma FinalizeOutcome(t: Tables, op: Op)
    requires op.Finalize?
    ensures var (t', r) := Handle(t, op);
            var tried, known := op.intentId != "" && !op.fault, op.intentId in IntentIds(t);
            var inUse, final := Chosen(op.commitId, op.generated) in CommitIds(t), op.intentId in FinalizedIds(t);
            && (r.Ok? <==> tried && known && !final && !inUse)
            && (r.Ok? ==> op.intentId in FinalizedIds(t') && FinalRow(t, t', op, r.id))
            && (r == Err(FieldRequired) <==> op.intentId == "")
            && (r == Err(InsertFailed) <==> op.intentId != "" && op.fault)
            && (r == Err(AlreadyFinalized) <==> tried && (final || inUse))
            && (tried ==> ((r == Err(AlreadyFinalized) ==> final) <==> (inUse ==> final)))
            && (r == Err(IntentNotFound) <==> tried && !known && !final && !inUse)
            && (!r.Ok? ==> t' == t)
  {
    var (t', r) := Handle(t, op);
    if r.Ok? {
      assert t'.commits[|t.commits|].intentId == op.intentId;
    }
  }

  /** `t'` is `t` with the finalization that `op` asks for, under the identifier `id`. */
  predicate FinalRow(t: Tables, t': Tables, op: Op, id: string)
    requires op.Finalize?
  {
    && id == (if op.commitId != "" then op.commitId else op.generated)
    && t'.intents == t.intents && |t'.commits| == |t.commits| + 1 && t'.commits[..|t.commits|] == t.commits
    && var row := t'.commits[|t.commits|];
    && row.commitId == id && row.intentId == op.intentId && row.status == op.status
    && row.detail == op.detail && row.completedAt == op.at
  }

  /** Reusing a commit identifier for a fresh intent is reported as "already finalized"
      although the intent has no finalization. */
  lemma ReusedCommitIdMisreported(a: Intent, b: Intent, id: string, detail: string)
    requires FieldsPresent(a) && FieldsPresent(b) && id != "" && a.intentId != "" && b.intentId != "" && a.intentId != b.intentId
    ensures var t := Replay([Prepare(a, "", 0, false)] + [Prepare(b, "", 0, false)]
                            + [Finalize(Committed, id, a.intentId, detail, "", 0, false)]);
            Handle(t, Finalize(Committed, id, b.intentId, detail, "", 0, false)).1 == Err(AlreadyFinalized)
            && HasIntent(t, b.intentId) && !HasFinal(t, b.intentId)
  {
    var ops1 := [Prepare(a, "", 0, false)];
    assert ops1[..0] == [];
    var t1 := Tables([IntentRow(a, 0)], []);
    assert Replay(ops1) == t1;
    hide Replay;
    ReplaySnoc(ops1, Prepare(b, "", 0, false));
    var t2 := Tables([IntentRow(a, 0), IntentRow(b, 0)], []);
    assert Handle(t1, Prepare(b, "", 0, false)).0 == t2;
    ReplaySnoc(ops1 + [Prepare(b, "", 0, false)], Finalize(Committed, id, a.intentId, detail, "", 0, false));
    assert t2.intents[0].intent.intentId == a.intentId && t2.intents[1].intent.intentId == b.intentId;
    assert HasIntent(t2, a.intentId) && HasIntent(t2, b.intentId);
    var t3 := Tables(t2.intents, [CommitRow(id, a.intentId, Committed, detail, 0)]);
    assert Handle(t2, Finalize(Committed, id, a.intentId, detail, "", 0, false)).0 == t3;
    assert t3.commits[0].commitId == id;
  }

  lemma ReplaySnoc(ops: seq<Op>, op: Op)
    ensures Replay(ops + [op]) == Handle(Replay(ops), op).0
  {
    assert (ops + [op])[..|ops|] == ops;
  }

  /** Every intent row has all its required fields. */
  predicate RowsComplete(t: Tables) {
    forall i | 0 <= i < |t.intents| :: FieldsPresent(t.intents[i].intent)
  }

  lemma {:induction false} RowsAreComplete(ops: seq<Op>)
    ensures RowsComplete(Replay(ops))
  {
    if ops != [] {
      RowsAreComplete(ops[..|ops| - 1]);
      HandleKeepsComplete(Replay(ops[..|ops| - 1]), ops[|ops| - 1]);
    }
  }

  lemma HandleKeepsComplete(t: Tables, op: Op)
    requires RowsComplete(t)
    ensures RowsComplete(Handle(t, op).0)
  {
    hide HasIntent, HasFinal, HasCommitId;
  }

  // ---- The orphan query ----------------------------------------------------

  ghost predicate Ordered(t: Tables, ids: seq<nat>) {
    && (forall k | 0 <= k < |ids| :: ids[k] < |t.intents|)
    && (forall j, k | 0 <= j < k < |ids| :: Before(t, ids[j], ids[k]))
  }

  lemma {:induction false} InsertKeepsOrder(t: Tables, ids: seq<nat>, n: nat)
    requires Ordered(t, ids) && n < |t.intents| && forall k | 0 <= k < |ids| :: ids[k] < n
    ensures Ordered(t, InsertRow(t, ids, n))
    ensures forall i: nat :: i in InsertRow(t, ids, n) <==> i in ids || i == n
  {
    if ids != [] && Before(t, n, ids[|ids| - 1]) {
      var init, last := ids[..|ids| - 1], ids[|ids| - 1];
      assert forall k | 0 <= k < |init| :: init[k] == ids[k];
      InsertKeepsOrder(t, init, n);
      var r := InsertRow(t, init, n);
      assert ids == init + [last];
      forall j | 0 <= j < |r|
        ensures Before(t, r[j], last)
      {
        assert r[j] in init || r[j] == n;
      }
    } else if ids != [] {
      forall j | 0 <= j < |ids|
        ensures Before(t, ids[j], n)
      {
        assert j == |ids| - 1 || Before(t, ids[j], ids[|ids| - 1]);
      }
    }
  }

  predicate IsOrphan(t: Tables, i: nat) { i < |t.intents| && !HasFinal(t, t.intents[i].intent.intentId) }

  lemma {:induction false} OrphansAmongExact(t: Tables, n: nat)
    requires n <= |t.intents|
    ensures Ordered(t, OrphansAmong(t, n))
    ensures forall i: nat :: i in OrphansAmong(t, n) <==> i < n && IsOrphan(t, i)
  {
    if n > 0 {
      OrphansAmongExact(t, n - 1);
      var ids := OrphansAmong(t, n - 1);
      hide Ordered, InsertRow, IsOrphan;
      assert Ordered(t, ids);
      OrphanStep(t, ids, n);
    }
  }

  lemma OrphanStep(t: Tables, ids: seq<nat>, n: nat)
    requires 0 < n <= |t.intents| && Ordered(t, ids)
    requires forall i: nat :: i in ids <==> i < n - 1 && IsOrphan(t, i)
    ensures var r := if HasFinal(t, t.intents[n - 1].intent.intentId) then ids else InsertRow(t, ids, n - 1);
            Ordered(t, r) && forall i: nat :: i in r <==> i < n && IsOrphan(t, i)
  {
    assert forall k | 0 <= k < |ids| :: ids[k] in ids;
    if !HasFinal(t, t.intents[n - 1].intent.intentId) {
      InsertKeepsOrder(t, ids, n - 1);
    }
  }

  /** The query lists exactly the unfinalized intents, each once, oldest first and by insertion
      within the same millisecond. */
  lemma OrphansAreUnfinalized(t: Tables)
    ensures Ordered(t, OrphanIds(t))
    ensures forall i: nat :: i in OrphanIds(t) <==> i < |t.intents| && t.intents[i].intent.intentId !in FinalizedIds(t)
    ensures forall j, k | 0 <= j < k < |OrphanIds(t)| ::
              var a, b := OrphanIds(t)[j], OrphanIds(t)[k];
              t.intents[a].preparedAt < t.intents[b].preparedAt || (t.intents[a].preparedAt == t.intents[b].preparedAt && a < b)
  {
    OrphansAmongExact(t, |t.intents|);
    hide OrphansAmong;
    forall i: nat
      ensures i in OrphanIds(t) <==> i < |t.intents| && t.intents[i].intent.intentId !in FinalizedIds(t)
    {
      assert i in OrphanIds(t) <==> IsOrphan(t, i);
    }
    forall j, k | 0 <= j < k < |OrphanIds(t)|
      ensures var a, b := OrphanIds(t)[j], OrphanIds(t)[k];
              t.intents[a].preparedAt < t.intents[b].preparedAt || (t.intents[a].preparedAt == t.intents[b].preparedAt && a < b)
    {
      assert Before(t, OrphanIds(t)[j], OrphanIds(t)[k]);
    }
  }
}
