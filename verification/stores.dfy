/** The two stores on their writer actors: what the databases contain in every interleaving,
    and the join of orphaned intents with their manifests. */
module Stores {
  import opened Actor
  import Ledger
  import LedgerTheorems
  import Manifest
  import ManifestTheorems

  /** The operations executed so far, in order. */
  function Done<T>(s: State<T>): seq<T>
    requires |s.executed| <= |s.accepted|
  {
    s.accepted[..|s.executed|]
  }

  /** One step executes at most one operation more and never another order. */
  lemma DoneGrows<T>(capacity: nat, steps: seq<Step<T>>, a: Step<T>)
    requires Enabled(Run(capacity, steps), a)
    ensures var s := Run(capacity, steps);
            && |s.executed| <= |s.accepted| && |Next(s, a).executed| <= |Next(s, a).accepted|
            && Done(s) <= Done(Next(s, a))
            && (a.Execute? ==> Done(Next(s, a)) == Done(s) + [s.accepted[|s.executed|]])
            && (!a.Execute? ==> Done(Next(s, a)) == Done(s))
  {
    RunInv(capacity, steps);
    var s := Run(capacity, steps);
    hide Run;
    var line := s.executed + InHand(s.writer) + s.queue;
    assert |line| == |s.accepted|;
  }

  /** The ledger's tables are the replay of the accepted writes in order: a prefix of them at
      any time, so also at a crash, and all of them once Close has closed the database. */
  lemma LedgerContents(capacity: nat, steps: seq<Step<Ledger.Op>>, a: Step<Ledger.Op>)
    requires Enabled(Run(capacity, steps), a)
    ensures var s := Run(capacity, steps);
            && |s.executed| <= |s.accepted| && |Next(s, a).executed| <= |Next(s, a).accepted|
            && LedgerTheorems.Sound(LedgerTheorems.Replay(Done(s)))
            && LedgerTheorems.Extends(LedgerTheorems.Replay(Done(s)), LedgerTheorems.Replay(Done(Next(s, a))))
            && (!s.dbOpen ==> Done(s) == s.accepted)
  {
    DoneGrows(capacity, steps, a);
    DatabaseOutlivesWork(capacity, steps);
    var s := Run(capacity, steps);
    hide Run, Next, LedgerTheorems.Replay, LedgerTheorems.Sound;
    LedgerTheorems.TablesOverRuns(Done(s), 0);
    LedgerTheorems.TablesOverRuns(Done(Next(s, a)), |Done(s)|);
  }

  /** The same for the manifest store. */
  lemma ManifestContents(capacity: nat, steps: seq<Step<Manifest.Op>>, a: Step<Manifest.Op>)
    requires Enabled(Run(capacity, steps), a)
    ensures var s := Run(capacity, steps);
            && |s.executed| <= |s.accepted| && |Next(s, a).executed| <= |Next(s, a).accepted|
            && ManifestTheorems.Sound(ManifestTheorems.Replay(Done(s)))
            && ManifestTheorems.Extends(ManifestTheorems.Replay(Done(s)), ManifestTheorems.Replay(Done(Next(s, a))))
            && (!s.dbOpen ==> Done(s) == s.accepted)
  {
    DoneGrows(capacity, steps, a);
    DatabaseOutlivesWork(capacity, steps);
    var s := Run(capacity, steps);
    hide Run, Next, ManifestTheorems.Replay, ManifestTheorems.Sound;
    ManifestTheorems.TablesOverRuns(Done(s), 0);
    ManifestTheorems.TablesOverRuns(Done(Next(s, a)), |Done(s)|);
  }
}

/** The bundle's recovery: every orphaned intent with its manifest. */
module Recovery {
  import L = Ledger
  import M = Manifest
  import LedgerTheorems
  import ManifestTheorems

  /** A manifest with its provider calls, as the store returns it. */
  datatype Full = Full(trace: M.Trace, calls: seq<M.ProviderCall>)

  /** How a manifest lookup ends. */
  datatype Lookup = Found(full: Full) | TraceNotFound | Closed | Failed

  /** What one lookup meets: the store's rows at that moment, whether the store is still open,
      and whether the read fails for reasons of its own. */
  datatype View = View(tables: M.Tables, open: bool, fault: bool)

  /** `manifest` is empty when the trace has none; `lookupFailed` marks an unreadable one. */
  datatype Orphan = Orphan(row: L.IntentRow, manifest: seq<Full>, lookupFailed: bool)

  datatype Recovered = Orphans(list: seq<Orphan>) | ErrClosed | LedgerUnreadable

  function InsertCall(calls: seq<M.ProviderCall>, c: M.ProviderCall): seq<M.ProviderCall> {
    if calls != [] && c.callSeq < calls[|calls| - 1].callSeq
    then InsertCall(calls[..|calls| - 1], c) + [calls[|calls| - 1]]
    else calls + [c]
  }

  /** The calls of one trace ordered by their sequence number. */
  function CallsOf(calls: seq<M.ProviderCall>, id: string): seq<M.ProviderCall> {
    if calls == [] then [] else
    var rest, last := CallsOf(calls[..|calls| - 1], id), calls[|calls| - 1];
    if last.traceId == id then InsertCall(rest, last) else rest
  }

  /** The row of a recorded trace. */
  function TraceOf(traces: seq<M.Trace>, id: string): (r: M.Trace)
    requires exists i | 0 <= i < |traces| :: traces[i].traceId == id
    ensures r in traces && r.traceId == id
  {
    if traces[0].traceId == id then traces[0] else TraceOf(traces[1..], id)
  }

  function Get(v: View, id: string): Lookup {
    if id == "" then Failed
    else if !v.open then Closed
    else if v.fault then Failed
    else if M.HasTrace(v.tables, id) then Found(Full(TraceOf(v.tables.traces, id), CallsOf(v.tables.calls, id)))
    else TraceNotFound
  }

  // ---- What a lookup finds -------------------------------------------------

  ghost predicate Ascending(calls: seq<M.ProviderCall>) {
    forall i, j | 0 <= i < j < |calls| :: calls[i].callSeq < calls[j].callSeq
  }

  predicate Numbered(calls: seq<M.ProviderCall>, n: int) {
    exists i | 0 <= i < |calls| :: calls[i].callSeq == n
  }

  lemma {:induction false} InsertCallOrdered(calls: seq<M.ProviderCall>, c: M.ProviderCall)
    requires Ascending(calls) && !Numbered(calls, c.callSeq)
    ensures Ascending(InsertCall(calls, c))
    ensures forall x :: x in InsertCall(calls, c) <==> x in calls || x == c
  {
    if calls != [] && c.callSeq < calls[|calls| - 1].callSeq {
      var init, last := calls[..|calls| - 1], calls[|calls| - 1];
      assert forall k | 0 <= k < |init| :: init[k] == calls[k];
      InsertCallOrdered(init, c);
      var r := InsertCall(init, c);
      assert calls == init + [last];
      forall j | 0 <= j < |r|
        ensures r[j].callSeq < last.callSeq
      {
        assert r[j] in init || r[j] == c;
      }
    } else if calls != [] {
      assert calls[|calls| - 1].callSeq != c.callSeq;
    }
  }

  predicate DistinctCalls(calls: seq<M.ProviderCall>) {
    forall i, j | 0 <= i < j < |calls| :: !(calls[i].traceId == calls[j].traceId && calls[i].callSeq == calls[j].callSeq)
  }

  lemma {:induction false} CallsOfExact(calls: seq<M.ProviderCall>, id: string)
    requires DistinctCalls(calls)
    ensures Ascending(CallsOf(calls, id))
    ensures forall x :: x in CallsOf(calls, id) <==> x in calls && x.traceId == id
  {
    if calls != [] {
      var init, last := calls[..|calls| - 1], calls[|calls| - 1];
      assert calls == init + [last];
      assert forall k | 0 <= k < |init| :: init[k] == calls[k];
      CallsOfExact(init, id);
      var rest := CallsOf(init, id);
      if last.traceId == id {
        forall k | 0 <= k < |rest|
          ensures rest[k].callSeq != last.callSeq
        {
          assert rest[k] in rest;
        }
        InsertCallOrdered(rest, last);
      }
    }
  }

  /** On an open, readable store with sound tables a lookup succeeds exactly for a recorded
      trace and returns its only row with all of its calls, in order of their numbers. */
  lemma GetIsExact(v: View, id: string)
    requires v.open && !v.fault && id != "" && ManifestTheorems.Sound(v.tables)
    ensures Get(v, id).Found? <==> M.HasTrace(v.tables, id)
    ensures Get(v, id).Found? ==>
              var full := Get(v, id).full;
              && (forall x :: x in v.tables.traces && x.traceId == id <==> x == full.trace)
              && (forall x :: x in full.calls <==> x in v.tables.calls && x.traceId == id)
              && Ascending(full.calls)
  {
    CallsOfExact(v.tables.calls, id);
  }

  /** How every lookup ends: a missing identifier or a read fault is a failure, a closed store is
      told from both, and only a readable store says that a trace is not there. */
  lemma LookupOutcome(v: View, id: string)
    ensures Get(v, id).Closed? <==> id != "" && !v.open
    ensures Get(v, id).Failed? <==> id == "" || (v.open && v.fault)
    ensures Get(v, id).TraceNotFound? <==> id != "" && v.open && !v.fault && !M.HasTrace(v.tables, id)
    ensures Get(v, id).Found? <==> id != "" && v.open && !v.fault && M.HasTrace(v.tables, id)
  {
  }

  // ---- The join ------------------------------------------------------------

  /** The entry for one orphan after its lookup. */
  ghost predicate Joined(o: Orphan, row: L.IntentRow, found: Lookup) {
    && o.row == row
    && (found.Found? <==> o.manifest != [])
    && (found.Found? ==> o.manifest == [found.full])
    && (o.lookupFailed <==> found == Failed)
  }

  ghost predicate Raced(rows: seq<L.IntentRow>, views: seq<View>, k: nat) {
    k < |rows| && k < |views| && Get(views[k], rows[k].intent.traceId) == Closed
  }

  function RowAt(t: L.Tables, k: nat): L.IntentRow
    requires k < |L.OrphanIds(t)|
  {
    t.intents[L.OrphanIds(t)[k]]
  }

  function Rows(t: L.Tables): (r: seq<L.IntentRow>)
    ensures |r| == |L.OrphanIds(t)| && forall k | 0 <= k < |r| :: r[k] == RowAt(t, k)
  {
    seq(|L.OrphanIds(t)|, k requires 0 <= k < |L.OrphanIds(t)| => RowAt(t, k))
  }

  /** Every unfinalized intent once and in the query's order, each with its manifest exactly
      when the lookup found one; a store that closes during the join fails the whole call. */
  method RecoverOrphans(closed: bool, ledger: L.LedgerDB, ledgerFault: bool, views: seq<View>) returns (r: Recovered)
    requires |views| == |L.OrphanIds(ledger.Contents())|
    ensures r == LedgerUnreadable <==> !closed && ledgerFault
    ensures r == ErrClosed <==> closed || (!ledgerFault && exists k: nat :: Raced(Rows(ledger.Contents()), views, k))
    ensures r.Orphans? ==>
              && |r.list| == |views|
              && forall k | 0 <= k < |views| ::
                   var row := Rows(ledger.Contents())[k];
                   Joined(r.list[k], row, Get(views[k], row.intent.traceId))
  {
    if closed {
      return ErrClosed;
    }
    if ledgerFault {
      return LedgerUnreadable;
    }
    var intents := ledger.RecoverOrphans();
    assert intents == Rows(ledger.Contents());
    var out: seq<Orphan> := [];
    for k := 0 to |intents|
      invariant |out| == k
      invariant forall j: nat | j < k :: !Raced(intents, views, j)
      invariant forall j | 0 <= j < k :: Joined(out[j], intents[j], Get(views[j], intents[j].intent.traceId))
    {
      match Get(views[k], intents[k].intent.traceId)
      case Found(full) =>
        out := out + [Orphan(intents[k], [full], false)];
      case TraceNotFound =>
        out := out + [Orphan(intents[k], [], false)];
      case Closed =>
        assert Raced(intents, views, k);
        return ErrClosed;
      case Failed =>
        out := out + [Orphan(intents[k], [], true)];
    }
    return Orphans(out);
  }

  /** What a lookup meets when nothing goes wrong. */
  ghost predicate Readable(v: View) { v.open && !v.fault && ManifestTheorems.Sound(v.tables) }

  /** On readable stores the join attaches a manifest to an orphan exactly when its trace is
      recorded, and then the whole manifest of that trace; no lookup is marked as failed. */
  lemma AttachedIffRecorded(ops: seq<L.Op>, views: seq<View>, list: seq<Orphan>, k: nat)
    requires var t := LedgerTheorems.Replay(ops);
             && k < |list| == |views| == |L.OrphanIds(t)| && Readable(views[k])
             && Joined(list[k], Rows(t)[k], Get(views[k], Rows(t)[k].intent.traceId))
    ensures var row := Rows(LedgerTheorems.Replay(ops))[k];
            && list[k].row == row && !list[k].lookupFailed
            && (list[k].manifest != [] <==> M.HasTrace(views[k].tables, row.intent.traceId))
            && (list[k].manifest != [] ==>
                  && |list[k].manifest| == 1
                  && list[k].manifest[0].trace in views[k].tables.traces
                  && list[k].manifest[0].trace.traceId == row.intent.traceId
                  && (forall x :: x in list[k].manifest[0].calls
                                  <==> x in views[k].tables.calls && x.traceId == row.intent.traceId)
                  && Ascending(list[k].manifest[0].calls))
  {
    var t := LedgerTheorems.Replay(ops);
    LedgerTheorems.RowsAreComplete(ops);
    var row := RowAt(t, k);
    assert L.FieldsPresent(row.intent);
    hide LedgerTheorems.Replay, Get, L.OrphanIds, ManifestTheorems.Sound;
    GetIsExact(views[k], row.intent.traceId);
    NoOtherOutcome(views[k], row.intent.traceId);
  }

  lemma NoOtherOutcome(v: View, id: string)
    requires Readable(v) && id != ""
    ensures Get(v, id).Found? || Get(v, id).TraceNotFound?
  {
  }
}
