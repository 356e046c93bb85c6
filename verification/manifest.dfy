/** The execution manifest's tables, its writes with their constraint checks, and the largest
    turn of a session. */
module Manifest {
  /** `payload` stands for the hashes, versions and epoch, which no check reads. */
  datatype Trace = Trace(traceId: string, sessionId: string, turn: int, payload: string)

  datatype ProviderCall = ProviderCall(traceId: string, callSeq: int, requestId: string, modelId: string)

  datatype Tables = Tables(traces: seq<Trace>, calls: seq<ProviderCall>)

  const NO_ROWS := Tables([], [])

  /** `hashed` tells whether the prompt hash, schema hash and model of a trace are present. */
  datatype Op =
    | Begin(trace: Trace, hashed: bool, generated: string, fault: bool)
    | RecordCall(call: ProviderCall, fault: bool)

  datatype Error = FieldRequired | InsertFailed | TraceAlreadyRecorded | CallAlreadyRecorded | TraceNotFound

  datatype Result = Ok(id: string) | Err(error: Error)

  predicate HasTrace(t: Tables, id: string) { exists i | 0 <= i < |t.traces| :: t.traces[i].traceId == id }

  predicate HasTurn(t: Tables, session: string, turn: int) {
    exists i | 0 <= i < |t.traces| :: t.traces[i].sessionId == session && t.traces[i].turn == turn
  }

  predicate HasCall(t: Tables, id: string, callSeq: int) {
    exists i | 0 <= i < |t.calls| :: t.calls[i].traceId == id && t.calls[i].callSeq == callSeq
  }

  function Handle(t: Tables, op: Op): (Tables, Result) {
    match op
    case Begin(trace, hashed, generated, fault) =>
      var id := if trace.traceId == "" then generated else trace.traceId;
      if trace.sessionId == "" || trace.turn < 0 || !hashed then (t, Err(FieldRequired))
      else if fault then (t, Err(InsertFailed))
      else if HasTrace(t, id) || HasTurn(t, trace.sessionId, trace.turn) then (t, Err(TraceAlreadyRecorded))
      else (t.(traces := t.traces + [trace.(traceId := id)]), Ok(id))
    case RecordCall(call, fault) =>
      if call.traceId == "" || call.requestId == "" || call.callSeq < 0 then (t, Err(FieldRequired))
      else if fault then (t, Err(InsertFailed))
      else if HasCall(t, call.traceId, call.callSeq) then (t, Err(CallAlreadyRecorded))
      else if !HasTrace(t, call.traceId) then (t, Err(TraceNotFound))
      else (t.(calls := t.calls + [call]), Ok(""))
  }

  /** `COALESCE(MAX(turn), 0)` over the session's rows. */
  function MaxTurnOf(rows: seq<Trace>, session: string): (r: int) {
    if rows == [] then 0 else
    var m := MaxTurnOf(rows[..|rows| - 1], session);
    var last := rows[|rows| - 1];
    if last.sessionId == session && last.turn > m then last.turn else m
  }

  class ManifestDB {
    var traces: seq<Trace>
    var calls: seq<ProviderCall>

    function Contents(): Tables
      reads this
    {
      Tables(traces, calls)
    }

    constructor ()
      ensures Contents() == NO_ROWS
    {
      traces, calls := [], [];
    }

    method DoBegin(trace: Trace, hashed: bool, generated: string, fault: bool) returns (r: Result)
      modifies this`traces
      ensures (Contents(), r) == Handle(old(Contents()), Begin(trace, hashed, generated, fault))
    {
      if trace.sessionId == "" || trace.turn < 0 || !hashed {
        return Err(FieldRequired);
      }
      var id := trace.traceId;
      if id == "" {
        id := generated;
      }
      if fault {
        return Err(InsertFailed);
      }
      if HasTrace(Contents(), id) || HasTurn(Contents(), trace.sessionId, trace.turn) {
        return Err(TraceAlreadyRecorded);
      }
      traces := traces + [trace.(traceId := id)];
      return Ok(id);
    }

    method DoRecordCall(call: ProviderCall, fault: bool) returns (r: Result)
      modifies this`calls
      ensures (Contents(), r) == Handle(old(Contents()), RecordCall(call, fault))
    {
      if call.traceId == "" || call.requestId == "" || call.callSeq < 0 {
        return Err(FieldRequired);
      }
      if fault {
        return Err(InsertFailed);
      }
      if HasCall(Contents(), call.traceId, call.callSeq) {
        return Err(CallAlreadyRecorded);
      }
      if !HasTrace(Contents(), call.traceId) {
        return Err(TraceNotFound);
      }
      calls := calls + [call];
      return Ok("");
    }
  }
}

/** What the manifest tables keep over every run. */
module ManifestTheorems {
  import opened Manifest

  function Replay(ops: seq<Op>): Tables {
    if ops == [] then NO_ROWS else Handle(Replay(ops[..|ops| - 1]), ops[|ops| - 1]).0
  }

  predicate UniqueTraces(t: Tables) {
    forall i, j | 0 <= i < j < |t.traces| :: t.traces[i].traceId != t.traces[j].traceId
  }

  predicate UniqueTurns(t: Tables) {
    && (forall i, j | 0 <= i < j < |t.traces| ::
          !(t.traces[i].sessionId == t.traces[j].sessionId && t.traces[i].turn == t.traces[j].turn))
    && (forall i | 0 <= i < |t.traces| :: t.traces[i].turn >= 0)
  }

  predicate UniqueCalls(t: Tables) {
    forall i, j | 0 <= i < j < |t.calls| ::
      !(t.calls[i].traceId == t.calls[j].traceId && t.calls[i].callSeq == t.calls[j].callSeq)
  }

  predicate CallsTraced(t: Tables) { forall i | 0 <= i < |t.calls| :: HasTrace(t, t.calls[i].traceId) }

  predicate Sound(t: Tables) { UniqueTraces(t) && UniqueTurns(t) && UniqueCalls(t) && CallsTraced(t) }

  predicate Extends(t: Tables, t': Tables) { t.traces <= t'.traces && t.calls <= t'.calls }

  lemma CallsStayTraced(t: Tables, op: Op)
    requires CallsTraced(t)
    ensures CallsTraced(Handle(t, op).0)
  {
    var t' := Handle(t, op).0;
    forall i | 0 <= i < |t'.calls|
      ensures HasTrace(t', t'.calls[i].traceId)
    {
      if i < |t.calls| {
        assert t'.calls[i] == t.calls[i];
      }
      var k :| 0 <= k < |t.traces| && t.traces[k].traceId == t'.calls[i].traceId;
      assert t'.traces[k] == t.traces[k];
    }
  }

  lemma HandleKeepsSound(t: Tables, op: Op)
    requires Sound(t)
    ensures Sound(Handle(t, op).0) && Extends(t, Handle(t, op).0)
  {
    CallsStayTraced(t, op);
    hide CallsTraced;
  }

  /** A turn is recorded at most once, a provider call at most once and only under a recorded
      trace, and rows stay. */
  lemma {:induction false} TablesOverRuns(ops: seq<Op>, n: nat)
    requires n <= |ops|
    ensures Sound(Replay(ops)) && Extends(Replay(ops[..n]), Replay(ops))
    decreases |ops|
  {
    hide Handle, Sound;
    if ops == [] {
      assert Sound(NO_ROWS) by { EmptyIsSound(); }
    } else {
      var init := ops[..|ops| - 1];
      TablesOverRuns(init, if n == |ops| then 0 else n);
      HandleKeepsSound(Replay(init), ops[|ops| - 1]);
      assert n == |ops| ==> ops[..n] == ops;
      assert n < |ops| ==> init[..n] == ops[..n];
    }
  }

  lemma EmptyIsSound()
    ensures Sound(NO_ROWS)
  {
  }

  /** What the tables know: recorded traces, turns with their sessions, calls with their traces. */
  ghost function TraceIds(t: Tables): set<string> {
    set i | 0 <= i < |t.traces| :: t.traces[i].traceId
  }

  ghost function Turns(t: Tables): set<(string, int)> {
    set i | 0 <= i < |t.traces| :: (t.traces[i].sessionId, t.traces[i].turn)
  }

  ghost function CallNumbers(t: Tables): set<(string, int)> {
    set i | 0 <= i < |t.calls| :: (t.calls[i].traceId, t.calls[i].callSeq)
  }

  /** Exactly when a Begin is recorded and which error it gets; what is recorded is the caller's
      session, turn and payload, under the identifier that is returned. */
  lemma BeginOutcome(t: Tables, op: Op)
    requires op.Begin?
    ensures var (t', r) := Handle(t, op);
            var id := if op.trace.traceId != "" then op.trace.traceId else op.generated;
            var complete := op.trace.sessionId != "" && op.trace.turn >= 0 && op.hashed;
            var isNew := id !in TraceIds(t) && (op.trace.sessionId, op.trace.turn) !in Turns(t);
            && (r.Ok? <==> complete && !op.fault && isNew)
            && (r == Err(FieldRequired) <==> !complete)
            && (r == Err(InsertFailed) <==> complete && op.fault)
            && (r == Err(TraceAlreadyRecorded) <==> complete && !op.fault && !isNew)
            && (r.Ok? ==>
                  && r.id == id && id in TraceIds(t')
                  && (op.trace.sessionId, op.trace.turn) in Turns(t')
                  && t'.calls == t.calls && |t'.traces| == |t.traces| + 1 && t'.traces[..|t.traces|] == t.traces
                  && var row := t'.traces[|t.traces|];
                  && row.traceId == id && row.sessionId == op.trace.sessionId && row.turn == op.trace.turn
                  && row.payload == op.trace.payload)
            && (!r.Ok? ==> t' == t)
  {
    var (t', r) := Handle(t, op);
    if r.Ok? {
      assert t'.traces[|t.traces|].traceId == r.id;
      assert t'.traces[|t.traces|].sessionId == op.trace.sessionId;
    }
  }

  /** Exactly when a provider call is recorded and which error it gets; what is recorded is the
      caller's own call. */
  lemma RecordCallOutcome(t: Tables, op: Op)
    requires op.RecordCall?
    ensures var (t', r) := Handle(t, op);
            var complete := op.call.traceId != "" && op.call.requestId != "" && op.call.callSeq >= 0;
            var taken := (op.call.traceId, op.call.callSeq) in CallNumbers(t);
            && (r.Ok? <==> complete && !op.fault && !taken && op.call.traceId in TraceIds(t))
            && (r == Err(FieldRequired) <==> !complete)
            && (r == Err(InsertFailed) <==> complete && op.fault)
            && (r == Err(CallAlreadyRecorded) <==> complete && !op.fault && taken)
            && (r == Err(TraceNotFound) <==> complete && !op.fault && !taken && op.call.traceId !in TraceIds(t))
            && (r.Ok? ==>
                  && (op.call.traceId, op.call.callSeq) in CallNumbers(t') && t'.traces == t.traces
                  && t'.calls == t.calls + [op.call])
            && (!r.Ok? ==> t' == t)
  {
    var (t', r) := Handle(t, op);
    if r.Ok? {
      assert t'.calls[|t.calls|] == op.call;
    }
  }

  /** What a Begin was answered Ok for stays recorded as it was given, whatever is written later. */
  lemma RecordedForGood(ops: seq<Op>, n: nat)
    requires n < |ops| && ops[n].Begin? && Handle(Replay(ops[..n]), ops[n]).1.Ok?
    ensures var id := Handle(Replay(ops[..n]), ops[n]).1.id;
            exists i :: 0 <= i < |Replay(ops).traces| && Replay(ops).traces[i] == ops[n].trace.(traceId := id)
  {
    var before := Replay(ops[..n]);
    assert ops[..n + 1][..n] == ops[..n];
    assert Replay(ops[..n + 1]) == Handle(before, ops[n]).0;
    BeginOutcome(before, ops[n]);
    TablesOverRuns(ops, n + 1);
    hide Replay, Handle, Sound;
    assert Replay(ops).traces[|before.traces|] == Replay(ops[..n + 1]).traces[|before.traces|];
  }

  /** No recorded turn of the session is larger than `m`. */
  predicate AtMost(rows: seq<Trace>, session: string, m: int) {
    forall i | 0 <= i < |rows| && rows[i].sessionId == session :: rows[i].turn <= m
  }

  /** `m` is a recorded turn of the session, or 0. */
  predicate IsTurnOrZero(rows: seq<Trace>, session: string, m: int) {
    m == 0 || exists i | 0 <= i < |rows| :: rows[i].sessionId == session && rows[i].turn == m
  }

  lemma MaxTurnSnoc(rows: seq<Trace>, last: Trace, session: string)
    requires AtMost(rows, session, MaxTurnOf(rows, session)) && IsTurnOrZero(rows, session, MaxTurnOf(rows, session))
    ensures var m := MaxTurnOf(rows + [last], session);
            AtMost(rows + [last], session, m) && IsTurnOrZero(rows + [last], session, m) && m >= MaxTurnOf(rows, session)
  {
    var all := rows + [last];
    assert all[..|rows|] == rows && all[|rows|] == last;
    assert MaxTurnOf(all, session)
        == var m := MaxTurnOf(rows, session); if last.sessionId == session && last.turn > m then last.turn else m;
    hide MaxTurnOf;
    var m := MaxTurnOf(rows, session);
    if i :| 0 <= i < |rows| && rows[i].sessionId == session && rows[i].turn == m {
      assert all[i] == rows[i];
    }
  }

  lemma NoTurns(session: string)
    ensures var m := MaxTurnOf([], session); m >= 0 && AtMost([], session, m) && IsTurnOrZero([], session, m)
  {
  }

  lemma {:induction false} MaxTurnOfIsMaximum(rows: seq<Trace>, session: string)
    ensures var m := MaxTurnOf(rows, session); m >= 0 && AtMost(rows, session, m) && IsTurnOrZero(rows, session, m)
  {
    hide *;
    if rows == [] {
      NoTurns(session);
    } else {
      var init, last := rows[..|rows| - 1], rows[|rows| - 1];
      MaxTurnOfIsMaximum(init, session);
      MaxTurnSnoc(init, last, session);
      assert rows == init + [last];
    }
  }

  /** `MaxTurn` is a recorded turn of the session or 0, and no recorded turn is larger. */
  lemma MaxTurnIsMaximum(t: Tables, session: string)
    ensures var m := MaxTurnOf(t.traces, session);
            && m >= 0 && (m == 0 || HasTurn(t, session, m))
            && (forall i | 0 <= i < |t.traces| && t.traces[i].sessionId == session :: t.traces[i].turn <= m)
  {
    hide MaxTurnOf;
    MaxTurnOfIsMaximum(t.traces, session);
  }
}
