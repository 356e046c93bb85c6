/** Wrapped tool dispatches against the action ledger: any number of them at once, writes
    executed in any order, cancellations, outside writers, storage faults and crashes. */
module Dispatch {
  import opened Ledger

  /** What the tool did; an error result, a Go error and a nil result all count as failed. */
  datatype Outcome = Unknown | ToolOk | ToolFailed

  function StatusOf(o: Outcome): Status { if o.ToolOk? then Committed else Aborted }

  /** What `Dispatch` reports besides the tool's own result. */
  datatype Report = Report(intentId: string, committed: bool, finalizeErr: bool)

  datatype Phase =
    | Starting
    | WaitPrepare(ticket: nat)
    | ToRun
    | Running
    | Ran
    | WaitFinal(ticket: nat)
    | Done(report: Report)
    | Crashed

  /** One dispatch: where it stands, the intent it prepared ("" for none), how often its tool
      was started, and what the tool did. */
  datatype Call = Call(phase: Phase, id: string, runs: nat, outcome: Outcome)

  datatype Origin = Outsider | From(call: nat)

  datatype Ticket = Ticket(origin: Origin, op: Op)

  /** `pool` holds the writes accepted but not executed, `replies` the answers, `owner` which
      dispatch each intent identifier was generated for, and `meddled` those of these intents
      that somebody else has asked to finalize. */
  datatype State = State(
    tables: Tables,
    calls: map<nat, Call>,
    pool: map<nat, Ticket>,
    replies: map<nat, Result>,
    next: nat,
    owner: map<string, nat>,
    meddled: set<string>)

  const START := State(NO_ROWS, map[], map[], map[], 0, map[], {})

  datatype Step =
    | Begin(c: nat, wrapped: bool)
    | SubmitPrepare(c: nat, intent: Intent)
    | PrepareRefused(c: nat)
    | PrepareReplied(c: nat)
    | StartTool(c: nat)
    | EndTool(c: nat, outcome: Outcome)
    | SubmitFinal(c: nat, detail: string)
    | FinalRefused(c: nat)
    | FinalReplied(c: nat)
    | Outside(op: Op)
    | Execute(ticket: nat, generated: string, at: int, fault: bool)
    | Crash

  /** The operation with the identifier and clock drawn when it is executed. */
  function Drawn(op: Op, generated: string, at: int, fault: bool): Op {
    match op
    case Prepare(i, _, _, _) => Prepare(i, generated, at, fault)
    case Finalize(s, c, i, d, _, _, _) => Finalize(s, c, i, d, generated, at, fault)
  }

  /** The intent identifier an operation names. */
  function Named(op: Op): string { if op.Prepare? then op.intent.intentId else op.intentId }

  /** A generated identifier is new to the tables and to every write under way. */
  predicate Fresh(s: State, id: string) {
    id != "" && !HasIntent(s.tables, id) && forall k | k in s.pool :: Named(s.pool[k].op) != id
  }

  predicate At(s: State, c: nat, p: Phase) { c in s.calls && s.calls[c].phase == p }

  predicate Enabled(s: State, a: Step) {
    match a
    case Begin(c, _) => c !in s.calls
    case SubmitPrepare(c, i) => At(s, c, Starting) && i.intentId == ""
    case PrepareRefused(c) => c in s.calls && (s.calls[c].phase.Starting? || s.calls[c].phase.WaitPrepare?)
    case PrepareReplied(c) => c in s.calls && s.calls[c].phase.WaitPrepare? && s.calls[c].phase.ticket in s.replies
    case StartTool(c) => At(s, c, ToRun)
    case EndTool(c, o) => At(s, c, Running) && !o.Unknown?
    case SubmitFinal(c, _) => At(s, c, Ran)
    case FinalRefused(c) => c in s.calls && (s.calls[c].phase.Ran? || s.calls[c].phase.WaitFinal?)
    case FinalReplied(c) => c in s.calls && s.calls[c].phase.WaitFinal? && s.calls[c].phase.ticket in s.replies
    case Outside(_) => true
    case Execute(k, g, _, _) => k in s.pool && (s.pool[k].op.Prepare? && Named(s.pool[k].op) == "" ==> Fresh(s, g))
    case Crash => true
  }

  function Moved(s: State, c: nat, p: Phase): map<nat, Call>
    requires c in s.calls
  {
    s.calls[c := s.calls[c].(phase := p)]
  }

  function FinalOp(call: Call, detail: string): Op {
    Finalize(StatusOf(call.outcome), "", call.id, detail, "", 0, false)
  }

  function Issued(s: State, t: Ticket, r: Result): map<string, nat> {
    if t.op.Prepare? && t.origin.From? && r.Ok? then s.owner[r.id := t.origin.call] else s.owner
  }

  function CrashCall(c: Call): Call { if c.phase.Done? then c else c.(phase := Crashed) }

  function Next(s: State, a: Step): State
    requires Enabled(s, a)
  {
    match a
    case Begin(c, wrapped) =>
      s.(calls := s.calls[c := Call(if wrapped then Starting else ToRun, "", 0, Unknown)])
    case SubmitPrepare(c, i) =>
      s.(calls := Moved(s, c, WaitPrepare(s.next)), next := s.next + 1,
         pool := s.pool[s.next := Ticket(From(c), Prepare(i, "", 0, false))])
    case PrepareRefused(c) => s.(calls := Moved(s, c, ToRun))
    case PrepareReplied(c) =>
      var r := s.replies[s.calls[c].phase.ticket];
      s.(calls := s.calls[c := s.calls[c].(phase := ToRun, id := if r.Ok? then r.id else "")])
    case StartTool(c) => s.(calls := s.calls[c := s.calls[c].(phase := Running, runs := s.calls[c].runs + 1)])
    case EndTool(c, o) =>
      s.(calls := s.calls[c := s.calls[c].(outcome := o,
                                           phase := if s.calls[c].id == "" then Done(Report("", false, false)) else Ran)])
    case SubmitFinal(c, detail) =>
      s.(calls := Moved(s, c, WaitFinal(s.next)), next := s.next + 1,
         pool := s.pool[s.next := Ticket(From(c), FinalOp(s.calls[c], detail))])
    case FinalRefused(c) => s.(calls := Moved(s, c, Done(Report(s.calls[c].id, false, true))))
    case FinalReplied(c) =>
      var ok := s.replies[s.calls[c].phase.ticket].Ok?;
      s.(calls := Moved(s, c, Done(Report(s.calls[c].id, ok && s.calls[c].outcome.ToolOk?, !ok))))
    case Outside(op) =>
      s.(pool := s.pool[s.next := Ticket(Outsider, op)], next := s.next + 1,
         meddled := if op.Finalize? && op.intentId in s.owner then s.meddled + {op.intentId} else s.meddled)
    case Execute(k, g, at, fault) =>
      var (t, r) := Handle(s.tables, Drawn(s.pool[k].op, g, at, fault));
      s.(tables := t, pool := s.pool - {k}, replies := s.replies[k := r], owner := Issued(s, s.pool[k], r))
    // the tables are durable; what was in flight is gone, the process with it
    case Crash =>
      s.(calls := map c | c in s.calls :: CrashCall(s.calls[c]), pool := map[], replies := map[])
  }

  function Run(steps: seq<Step>): State {
    if steps == [] then START else
    var s := Run(steps[..|steps| - 1]);
    if Enabled(s, steps[|steps| - 1]) then Next(s, steps[|steps| - 1]) else s
  }
}

/** What holds in every state, so also in the one a crash leaves behind. */
module DispatchTheorems {
  import opened Ledger
  import opened LedgerTheorems
  import opened Dispatch

  ghost predicate HasRow(t: Tables, id: string, status: Status) {
    exists i | 0 <= i < |t.commits| :: t.commits[i].intentId == id && t.commits[i].status == status
  }

  /** The tool of `c`'s dispatch has ended in a way that calls for `status` on intent `id`. */
  predicate CallsFor(s: State, c: nat, id: string, status: Status) {
    c in s.calls && s.calls[c].id == id && !s.calls[c].outcome.Unknown? && StatusOf(s.calls[c].outcome) == status
  }

  /** Issued identifiers have their intent rows and belong to the dispatches that hold them. */
  ghost predicate IdsOwned(s: State) {
    && (forall id | id in s.owner :: id != "" && HasIntent(s.tables, id))
    && (forall c | c in s.calls && s.calls[c].id != "" :: s.calls[c].id in s.owner && s.owner[s.calls[c].id] == c)
  }

  /** An issued intent that only its own dispatch finalizes. */
  predicate Undisturbed(s: State, id: string) { id in s.owner && id !in s.meddled }

  /** Undisturbed intents are being finalized, or have been, with the tool's outcome only. */
  ghost predicate FinalsMatch(s: State) {
    && s.meddled <= s.owner.Keys
    && (forall k | k in s.pool && s.pool[k].op.Finalize? && Undisturbed(s, s.pool[k].op.intentId) ::
          CallsFor(s, s.owner[s.pool[k].op.intentId], s.pool[k].op.intentId, s.pool[k].op.status))
    && (forall i | 0 <= i < |s.tables.commits| && Undisturbed(s, s.tables.commits[i].intentId) ::
          CallsFor(s, s.owner[s.tables.commits[i].intentId], s.tables.commits[i].intentId, s.tables.commits[i].status))
  }

  /** Ticket numbers are not reused, and waiting calls wait for their own tickets. */
  ghost predicate TicketsOwn(s: State) { TicketsNew(s) && TicketsAwaited(s) }

  ghost predicate TicketsNew(s: State) {
    && (forall k | k in s.pool || k in s.replies :: k < s.next)
    && (forall k | k in s.pool :: k !in s.replies)
    && (forall k | k in s.pool && s.pool[k].origin.From? && s.pool[k].op.Prepare? :: Named(s.pool[k].op) == "")
  }

  ghost predicate TicketsAwaited(s: State) {
    && (forall c | c in s.calls && s.calls[c].phase.WaitPrepare? :: PrepareTicket(s, c, s.calls[c].phase.ticket))
    && (forall c | c in s.calls && s.calls[c].phase.WaitFinal? :: FinalTicket(s, c, s.calls[c].phase.ticket))
  }

  ghost predicate PrepareTicket(s: State, c: nat, k: nat) {
    && k < s.next
    && (k in s.pool ==> s.pool[k].origin == From(c) && s.pool[k].op.Prepare? && Named(s.pool[k].op) == "")
    && (k in s.replies && s.replies[k].Ok? ==> s.replies[k].id in s.owner && s.owner[s.replies[k].id] == c)
  }

  ghost predicate FinalTicket(s: State, c: nat, k: nat)
    requires c in s.calls
  {
    && k < s.next
    && (k in s.pool ==> s.pool[k].op.Finalize? && s.pool[k].op.intentId == s.calls[c].id
                        && s.pool[k].op.status == StatusOf(s.calls[c].outcome))
    && (k in s.replies && s.replies[k].Ok? ==> HasRow(s.tables, s.calls[c].id, StatusOf(s.calls[c].outcome)))
  }

  /** A tool is started once, after Prepare was answered or given up, and reports are true. */
  ghost predicate PhaseFacts(s: State, c: Call) {
    PhaseMatches(c) && (c.phase.Done? ==> Truthful(s.tables, c, c.phase.report))
  }

  predicate PhaseMatches(c: Call) {
    match c.phase
    case Starting | WaitPrepare(_) => c.runs == 0 && c.id == "" && c.outcome.Unknown?
    case ToRun => c.runs == 0 && c.outcome.Unknown?
    case Running => c.runs == 1 && c.outcome.Unknown?
    case Ran | WaitFinal(_) => c.runs == 1 && c.id != "" && !c.outcome.Unknown?
    case Done(r) => c.runs == 1 && !c.outcome.Unknown? && r.intentId == c.id
    case Crashed => c.runs <= 1 && (c.runs == 0 ==> c.outcome.Unknown?)
  }

  ghost predicate Truthful(t: Tables, c: Call, r: Report) {
    r.intentId != "" ==>
      && (r.committed ==> HasRow(t, r.intentId, Committed) && c.outcome.ToolOk? && !r.finalizeErr)
      && (!r.committed && !r.finalizeErr ==> HasRow(t, r.intentId, Aborted) && c.outcome.ToolFailed?)
  }

  ghost predicate Phased(s: State) { forall c | c in s.calls :: PhaseFacts(s, s.calls[c]) }

  ghost predicate Inv(s: State) {
    Sound(s.tables) && IdsOwned(s) && FinalsMatch(s) && TicketsOwn(s) && Phased(s)
  }

  // ---- The invariants are kept ---------------------------------------------

  lemma RowsStay(t: Tables, t': Tables, id: string, status: Status)
    requires Extends(t, t')
    ensures HasRow(t, id, status) ==> HasRow(t', id, status)
    ensures HasIntent(t, id) ==> HasIntent(t', id)
  {
    if HasRow(t, id, status) {
      var i :| 0 <= i < |t.commits| && t.commits[i].intentId == id && t.commits[i].status == status;
      assert t'.commits[i] == t.commits[i];
    }
    if HasIntent(t, id) {
      ExtendsKeepsIntents(t, t', id);
    }
  }

  /** An accepted Prepare leaves its row; an accepted finalization leaves its row. */
  lemma AcceptedWrites(t: Tables, op: Op)
    ensures var (t', r) := Handle(t, op);
            && Extends(t, t')
            && (r.Ok? && op.Prepare? ==> HasIntent(t', r.id) && t'.commits == t.commits
                                         && r.id == Chosen(op.intent.intentId, op.generated))
            && (r.Ok? && op.Finalize? ==> HasRow(t', op.intentId, op.status) && t'.intents == t.intents
                                          && |t'.commits| == |t.commits| + 1
                                          && t'.commits[|t.commits|].intentId == op.intentId
                                          && t'.commits[|t.commits|].status == op.status)
            && (!r.Ok? ==> t' == t)
  {
    var (t', r) := Handle(t, op);
    if r.Ok? && op.Prepare? {
      assert t'.intents[|t.intents|].intent.intentId == r.id;
    } else if r.Ok? {
      assert t'.commits[|t.commits|].intentId == op.intentId && t'.commits[|t.commits|].status == op.status;
    }
  }

  lemma IdsOwnedKept(s: State, a: Step)
    requires Enabled(s, a) && Inv(s)
    ensures IdsOwned(Next(s, a))
  {
    if a.Execute? {
      hide Sound, FinalsMatch, Phased, TicketsOwn;
      ExecuteIds(s, a);
    } else {
      hide Sound, FinalsMatch, Phased, HasRow, HasIntent, TicketsNew, FinalTicket, Handle;
    }
  }

  lemma ExecuteIds(s: State, a: Step)
    requires Enabled(s, a) && a.Execute? && IdsOwned(s)
    ensures IdsOwned(Next(s, a))
  {
    AcceptedWrites(s.tables, Drawn(s.pool[a.ticket].op, a.generated, a.at, a.fault));
    hide Handle;
    forall id | id in s.owner
      ensures HasIntent(Next(s, a).tables, id)
    {
      RowsStay(s.tables, Next(s, a).tables, id, Committed);
    }
  }

  /** A newly issued identifier is on no finalization, done or under way. */
  lemma FreshIsUnused(s: State, id: string)
    requires Sound(s.tables) && Fresh(s, id)
    ensures forall i | 0 <= i < |s.tables.commits| :: s.tables.commits[i].intentId != id
    ensures forall k | k in s.pool && s.pool[k].op.Finalize? :: s.pool[k].op.intentId != id
  {
    forall i | 0 <= i < |s.tables.commits| ensures s.tables.commits[i].intentId != id {
      assert HasIntent(s.tables, s.tables.commits[i].intentId);
    }
    forall k | k in s.pool && s.pool[k].op.Finalize? ensures s.pool[k].op.intentId != id {
      assert Named(s.pool[k].op) != id;
    }
  }

  /** What a dispatch's outcome calls for never changes. */
  lemma CallsForStays(s: State, a: Step, c: nat, id: string, status: Status)
    requires Enabled(s, a) && Phased(s) && id != "" && CallsFor(s, c, id, status)
    ensures CallsFor(Next(s, a), c, id, status)
  {
    assert PhaseFacts(s, s.calls[c]);
    hide Truthful, Handle;
  }

  lemma FinalsMatchKept(s: State, a: Step)
    requires Enabled(s, a) && Inv(s)
    ensures FinalsMatch(Next(s, a))
  {
    var s' := Next(s, a);
    if a.Execute? {
      ExecuteFinals(s, a);
    } else {
      TablesUntouched(s, a);
      hide Next, Enabled, Sound, HasIntent, TicketsOwn, Phased, CallsFor;
      forall k | k in s'.pool && s'.pool[k].op.Finalize? && Undisturbed(s', s'.pool[k].op.intentId)
        ensures CallsFor(s', s'.owner[s'.pool[k].op.intentId], s'.pool[k].op.intentId, s'.pool[k].op.status)
      {
        var op := s'.pool[k].op;
        FinalTicketSince(s, a, k);
        if k in s.pool && s.pool[k] == s'.pool[k] {
          CallsForStays(s, a, s.owner[op.intentId], op.intentId, op.status);
        }
      }
      forall i | 0 <= i < |s'.tables.commits| && Undisturbed(s', s'.tables.commits[i].intentId)
        ensures CallsFor(s', s'.owner[s'.tables.commits[i].intentId], s'.tables.commits[i].intentId, s'.tables.commits[i].status)
      {
        var row := s.tables.commits[i];
        CallsForStays(s, a, s.owner[row.intentId], row.intentId, row.status);
      }
    }
  }

  lemma TablesUntouched(s: State, a: Step)
    requires Enabled(s, a) && !a.Execute?
    ensures Next(s, a).tables == s.tables && Next(s, a).owner == s.owner && s.meddled <= Next(s, a).meddled
    ensures s.meddled <= s.owner.Keys ==> Next(s, a).meddled <= s.owner.Keys
  {
    hide Handle;
  }

  /** A finalization in the pool was there before, is its dispatch's own, or disturbs its intent. */
  lemma FinalTicketSince(s: State, a: Step, k: nat)
    requires Enabled(s, a) && !a.Execute? && IdsOwned(s) && Phased(s)
    requires k in Next(s, a).pool && Next(s, a).pool[k].op.Finalize?
    ensures var s' := Next(s, a);
            var op := s'.pool[k].op;
            || (k in s.pool && s.pool[k] == s'.pool[k])
            || (op.intentId in s'.owner ==> op.intentId in s'.meddled)
            || (op.intentId in s'.owner && CallsFor(s', s'.owner[op.intentId], op.intentId, op.status))
  {
    hide Handle, HasIntent, Truthful;
    if a.SubmitFinal? {
      assert PhaseFacts(s, s.calls[a.c]);
    }
  }

  /** An execution takes its ticket out of the pool, adds at most the row it names, and issues
      at most the identifier it generated. */
  lemma ExecutionChanges(s: State, a: Step)
    requires Enabled(s, a) && a.Execute? && TicketsNew(s)
    ensures var s' := Next(s, a);
            var op, t, t' := s.pool[a.ticket].op, s.tables.commits, Next(s, a).tables.commits;
            && s'.calls == s.calls && s'.meddled == s.meddled
            && (forall k | k in s'.pool :: k in s.pool && s'.pool[k] == s.pool[k])
            && (t' == t || (op.Finalize? && |t'| == |t| + 1 && t == t'[..|t|] && s'.owner == s.owner
                            && t'[|t|].intentId == op.intentId && t'[|t|].status == op.status))
            && (s'.owner == s.owner || (Fresh(s, a.generated) && s'.owner.Keys == s.owner.Keys + {a.generated}
                                        && forall id | id in s.owner && id != a.generated :: s'.owner[id] == s.owner[id]))
  {
    AcceptedWrites(s.tables, Drawn(s.pool[a.ticket].op, a.generated, a.at, a.fault));
    hide Handle, Fresh, HasIntent, HasRow;
  }

  lemma ExecuteFinals(s: State, a: Step)
    requires Enabled(s, a) && a.Execute? && Inv(s)
    ensures FinalsMatch(Next(s, a))
  {
    var s' := Next(s, a);
    ExecutionChanges(s, a);
    if s'.owner != s.owner {
      FreshIsUnused(s, a.generated);
    }
    assert a.ticket in s.pool;
    hide Next, Enabled, Handle, Sound, Phased, IdsOwned, Fresh, CallsFor;
    assert forall c, id, status :: CallsFor(s', c, id, status) <==> CallsFor(s, c, id, status) by {
      SameCalls(s, s');
    }
    forall i | 0 <= i < |s'.tables.commits| && Undisturbed(s', s'.tables.commits[i].intentId)
      ensures CallsFor(s', s'.owner[s'.tables.commits[i].intentId], s'.tables.commits[i].intentId, s'.tables.commits[i].status)
    {
      if i < |s.tables.commits| {
        assert s'.tables.commits[i] == s.tables.commits[i];
      }
    }
  }

  lemma SameCalls(s: State, s': State)
    requires s.calls == s'.calls
    ensures forall c, id, status :: CallsFor(s', c, id, status) <==> CallsFor(s, c, id, status)
  {
  }

  /** Steps other than an execution only add the next ticket or forget tickets. */
  lemma PoolChanges(s: State, a: Step)
    requires Enabled(s, a) && !a.Execute? && TicketsNew(s)
    ensures var s' := Next(s, a);
            && TicketsNew(s') && s'.next >= s.next && s'.tables == s.tables && s'.owner == s.owner
            && (forall k | k in s'.pool && k < s.next :: k in s.pool && s'.pool[k] == s.pool[k])
            && (forall k | k in s'.replies :: k in s.replies && s'.replies[k] == s.replies[k])
  {
    hide Handle;
  }

  predicate Waits(c: Call) { c.phase.WaitPrepare? || c.phase.WaitFinal? }

  /** A waiting call waited before, or has just submitted the next ticket. */
  lemma WaitingSince(s: State, a: Step, c: nat)
    requires Enabled(s, a) && TicketsNew(s) && c in Next(s, a).calls && Waits(Next(s, a).calls[c])
    ensures var s' := Next(s, a);
            || (c in s.calls && s'.calls[c] == s.calls[c])
            || (s'.calls[c].phase == WaitPrepare(s.next) && PrepareTicket(s', c, s.next))
            || (s'.calls[c].phase == WaitFinal(s.next) && FinalTicket(s', c, s.next))
  {
    hide Handle;
  }

  /** Waiting calls keep their tickets through every step. */
  lemma TicketsOwnKept(s: State, a: Step)
    requires Enabled(s, a) && Inv(s)
    ensures TicketsOwn(Next(s, a))
  {
    hide Handle, Next, Enabled, Sound, IdsOwned, FinalsMatch, Phased, HasRow;
    var s' := Next(s, a);
    if a.Execute? {
      ExecutedTicket(s, a);
    } else {
      PoolChanges(s, a);
    }
    hide TicketsNew;
    forall c | c in s'.calls && Waits(s'.calls[c])
      ensures s'.calls[c].phase.WaitPrepare? ==> PrepareTicket(s', c, s'.calls[c].phase.ticket)
      ensures s'.calls[c].phase.WaitFinal? ==> FinalTicket(s', c, s'.calls[c].phase.ticket)
    {
      WaitingSince(s, a, c);
      if a.Execute? && c in s.calls && s'.calls[c] == s.calls[c] {
        ExecuteTickets(s, a, c);
      }
    }
  }

  lemma ExecutedTicket(s: State, a: Step)
    requires Enabled(s, a) && a.Execute? && TicketsNew(s)
    ensures TicketsNew(Next(s, a))
  {
    hide Handle;
  }

  lemma ExecuteTickets(s: State, a: Step, c: nat)
    requires Enabled(s, a) && a.Execute? && Inv(s) && c in s.calls
    ensures var s' := Next(s, a);
            && (s.calls[c].phase.WaitPrepare? ==> PrepareTicket(s', c, s.calls[c].phase.ticket))
            && (s.calls[c].phase.WaitFinal? ==> FinalTicket(s', c, s.calls[c].phase.ticket))
  {
    hide Sound, FinalsMatch, Phased, Enabled, Next, Handle;
    if s.calls[c].phase.WaitPrepare? {
      ExecutePrepareTicket(s, a, c, s.calls[c].phase.ticket);
    } else if s.calls[c].phase.WaitFinal? {
      ExecuteFinalTicket(s, a, c, s.calls[c].phase.ticket);
    }
  }

  lemma ExecutePrepareTicket(s: State, a: Step, c: nat, k: nat)
    requires Enabled(s, a) && a.Execute? && Inv(s) && PrepareTicket(s, c, k)
    ensures PrepareTicket(Next(s, a), c, k)
  {
    AcceptedWrites(s.tables, Drawn(s.pool[a.ticket].op, a.generated, a.at, a.fault));
    hide Handle, Sound, FinalsMatch, Phased, HasRow, Extends, TicketsOwn;
    if k in s.replies && s.replies[k].Ok? {
      assert HasIntent(s.tables, s.replies[k].id);
    }
    hide HasIntent;
  }

  lemma ExecuteFinalTicket(s: State, a: Step, c: nat, k: nat)
    requires Enabled(s, a) && a.Execute? && c in s.calls && FinalTicket(s, c, k)
    ensures FinalTicket(Next(s, a), c, k)
  {
    AcceptedWrites(s.tables, Drawn(s.pool[a.ticket].op, a.generated, a.at, a.fault));
    RowsStay(s.tables, Next(s, a).tables, s.calls[c].id, StatusOf(s.calls[c].outcome));
    hide Handle, HasRow, HasIntent, Extends;
  }

  lemma TruthStays(t: Tables, t': Tables, c: Call, r: Report)
    requires Extends(t, t') && Truthful(t, c, r)
    ensures Truthful(t', c, r)
  {
    RowsStay(t, t', r.intentId, Committed);
    RowsStay(t, t', r.intentId, Aborted);
  }

  lemma NextExtends(s: State, a: Step)
    requires Enabled(s, a)
    ensures Extends(s.tables, Next(s, a).tables)
  {
    if a.Execute? {
      HandleExtends(s.tables, Drawn(s.pool[a.ticket].op, a.generated, a.at, a.fault));
    }
  }

  lemma PhasedKept(s: State, a: Step)
    requires Enabled(s, a) && Inv(s)
    ensures Phased(Next(s, a))
  {
    NextExtends(s, a);
    hide Sound, FinalsMatch, Extends, Handle;
    var s' := Next(s, a);
    forall c | c in s'.calls
      ensures PhaseFacts(s', s'.calls[c])
    {
      CallFacts(s, a, c);
    }
  }

  lemma CallFacts(s: State, a: Step, c: nat)
    requires Enabled(s, a) && TicketsOwn(s) && Phased(s) && Extends(s.tables, Next(s, a).tables)
    requires c in Next(s, a).calls
    ensures PhaseFacts(Next(s, a), Next(s, a).calls[c])
  {
    hide Extends, Handle, HasRow, Enabled, Next, TicketsOwn, Truthful, PhaseMatches;
    PhaseKept(s, a, c);
    var s' := Next(s, a);
    if s'.calls[c].phase.Done? {
      ReportedNow(s, a, c);
      if c in s.calls && s.calls[c] == s'.calls[c] {
        assert PhaseFacts(s, s.calls[c]);
        TruthStays(s.tables, s'.tables, s.calls[c], s.calls[c].phase.report);
      }
    }
  }

  lemma PhaseKept(s: State, a: Step, c: nat)
    requires Enabled(s, a) && Phased(s) && c in Next(s, a).calls
    ensures PhaseMatches(Next(s, a).calls[c])
  {
    hide Handle, Truthful;
    if c in s.calls {
      assert PhaseFacts(s, s.calls[c]);
    }
  }

  /** A call that is done was done before, or has just made a true report. */
  lemma ReportedNow(s: State, a: Step, c: nat)
    requires Enabled(s, a) && TicketsOwn(s) && Phased(s) && c in Next(s, a).calls && Next(s, a).calls[c].phase.Done?
    ensures var s' := Next(s, a);
            || (c in s.calls && s.calls[c] == s'.calls[c])
            || Truthful(s'.tables, s'.calls[c], s'.calls[c].phase.report)
  {
    hide Handle, HasRow;
    if c in s.calls {
      assert PhaseFacts(s, s.calls[c]);
      if s.calls[c].phase.WaitFinal? {
        assert FinalTicket(s, c, s.calls[c].phase.ticket);
      }
    }
  }

  lemma {:induction false} RunInv(steps: seq<Step>)
    ensures Inv(Run(steps))
  {
    if steps != [] {
      var s, a := Run(steps[..|steps| - 1]), steps[|steps| - 1];
      RunInv(steps[..|steps| - 1]);
      if Enabled(s, a) {
        SoundKept(s, a);
        hide Sound, IdsOwned, FinalsMatch, TicketsOwn, Phased, Next;
        IdsOwnedKept(s, a);
        FinalsMatchKept(s, a);
        TicketsOwnKept(s, a);
        PhasedKept(s, a);
      }
    }
  }

  lemma SoundKept(s: State, a: Step)
    requires Enabled(s, a) && Sound(s.tables)
    ensures Sound(Next(s, a).tables)
  {
    if a.Execute? {
      HandleKeepsSound(s.tables, Drawn(s.pool[a.ticket].op, a.generated, a.at, a.fault));
    }
  }

  // ---- Main results --------------------------------------------------------

  /** The tables are never more than extended, crashes included. */
  lemma {:induction false} TablesOnlyGrow(steps: seq<Step>, n: nat)
    requires n <= |steps|
    ensures Extends(Run(steps[..n]).tables, Run(steps).tables)
    decreases |steps|
  {
    if n == |steps| {
      assert steps[..n] == steps;
    } else {
      var init := steps[..|steps| - 1];
      TablesOnlyGrow(init, n);
      assert init[..n] == steps[..n];
      if Enabled(Run(init), steps[|steps| - 1]) {
        NextExtends(Run(init), steps[|steps| - 1]);
      }
    }
  }

  /** Crash recovery: in every state, so also after any crash and whoever reconciles orphans, a
      dispatch whose tool started under an intent has its intent row, and either the orphan query
      lists it or exactly one finalization row exists for it. As long as nobody else has asked
      to finalize that intent, the row's status is the tool's outcome. */
  lemma CrashRecovery(steps: seq<Step>, c: nat)
    requires c in Run(steps).calls && Run(steps).calls[c].id != ""
    ensures var s := Run(steps);
            var id := s.calls[c].id;
            && (exists i :: 0 <= i < |s.tables.intents| && s.tables.intents[i].intent.intentId == id
                            && (HasFinal(s.tables, id) || i in OrphanIds(s.tables)))
            && (forall i, j | 0 <= i < |s.tables.commits| && 0 <= j < |s.tables.commits|
                              && s.tables.commits[i].intentId == id == s.tables.commits[j].intentId :: i == j)
            && (id !in s.meddled ==> forall i | 0 <= i < |s.tables.commits| && s.tables.commits[i].intentId == id ::
                  !s.calls[c].outcome.Unknown? && s.tables.commits[i].status == StatusOf(s.calls[c].outcome))
  {
    RunInv(steps);
    var s := Run(steps);
    hide Run;
    var id := s.calls[c].id;
    assert id in s.owner && s.owner[id] == c;
    var i :| 0 <= i < |s.tables.intents| && s.tables.intents[i].intent.intentId == id;
    if !HasFinal(s.tables, id) {
      OrphansAreUnfinalized(s.tables);
      assert IsOrphan(s.tables, i);
    }
  }

  /** An intent counts as disturbed exactly when, after it was issued, somebody other than its
      dispatch submitted a finalization that names it. */
  lemma {:induction false} DisturbedByName(steps: seq<Step>, id: string)
    ensures id in Run(steps).meddled <==> exists n: nat :: NamesIssued(steps, n, id)
  {
    if steps != [] {
      var init, a := steps[..|steps| - 1], steps[|steps| - 1];
      DisturbedByName(init, id);
      hide Next, Enabled;
      if n: nat :| NamesIssued(steps, n, id) {
        NamedBefore(steps, n, id);
      }
      if n: nat :| NamesIssued(init, n, id) {
        NamedBefore(steps, n, id);
      }
      NamedBefore(steps, |init|, id);
      OneMoreName(Run(init), a, id);
    }
  }

  lemma NamedBefore(steps: seq<Step>, n: nat, id: string)
    requires n < |steps|
    ensures var last := |steps| - 1;
            var init, a := steps[..last], steps[last];
            && (n < last ==> (NamesIssued(steps, n, id) <==> NamesIssued(init, n, id)))
            && (n == last ==> (NamesIssued(steps, n, id) <==> NamesFrom(Run(init), a, id)))
  {
    hide Run;
    var last := |steps| - 1;
    if n < last {
      assert steps[..last][..n] == steps[..n];
    }
  }

  predicate NamesFrom(s: State, a: Step, id: string) {
    a.Outside? && a.op.Finalize? && a.op.intentId == id && id in s.owner
  }

  lemma OneMoreName(s: State, a: Step, id: string)
    ensures NamesFrom(s, a, id) ==> Enabled(s, a)
    ensures Enabled(s, a) ==> (id in Next(s, a).meddled <==> id in s.meddled || NamesFrom(s, a, id))
  {
    hide Handle;
  }

  /** Step `n` submits a finalization from outside for an intent issued before. */
  ghost predicate NamesIssued(steps: seq<Step>, n: nat, id: string) {
    n < |steps| && NamesFrom(Run(steps[..n]), steps[n], id)
  }

  /** A crash is possible in every state. It takes what is in flight and every dispatch that has
      not finished, and nothing of the tables or of what was reported. */
  lemma CrashTakesWhatIsInFlight(s: State, c: nat)
    ensures Enabled(s, Crash)
    ensures var s' := Next(s, Crash);
            && s'.tables == s.tables && s'.pool == map[] && s'.replies == map[] && s'.calls.Keys == s.calls.Keys
            && (c in s.calls ==>
                  if s.calls[c].phase.Done? then s'.calls[c] == s.calls[c]
                  else s'.calls[c] == s.calls[c].(phase := Crashed))
  {
    hide Handle;
  }

  /** A refused or cancelled Prepare does not keep the tool from running, without an intent to
      report; a refused or cancelled finalization ends the dispatch with an error to report. Both
      can happen until the answer is taken, and leave the submitted write where it is. */
  lemma RefusalsAreReported(s: State, c: nat)
    requires c in s.calls
    ensures s.calls[c].phase.Starting? || s.calls[c].phase.WaitPrepare? ==>
              Enabled(s, PrepareRefused(c))
              && Next(s, PrepareRefused(c)) == s.(calls := s.calls[c := s.calls[c].(phase := ToRun)])
    ensures s.calls[c].phase.Ran? || s.calls[c].phase.WaitFinal? ==>
              Enabled(s, FinalRefused(c))
              && Next(s, FinalRefused(c))
                   == s.(calls := s.calls[c := s.calls[c].(phase := Done(Report(s.calls[c].id, false, true)))])
  {
    hide Handle;
  }

  /** A finished dispatch started its tool exactly once, and what it reports is in the ledger:
      committed means a committed row, not committed without an error means an aborted one. */
  lemma ReportsAreTrue(steps: seq<Step>, c: nat)
    requires c in Run(steps).calls && Run(steps).calls[c].phase.Done?
    ensures var s := Run(steps);
            var call := s.calls[c];
            && call.runs == 1 && call.phase.report.intentId == call.id && Truthful(s.tables, call, call.phase.report)
  {
    RunInv(steps);
    assert PhaseFacts(Run(steps), Run(steps).calls[c]);
  }

  /** No dispatch ever starts its tool twice, and an intent is prepared before the tool starts. */
  lemma ToolRunsAtMostOnce(steps: seq<Step>, c: nat)
    requires c in Run(steps).calls
    ensures var s := Run(steps);
            && s.calls[c].runs <= 1
            && (s.calls[c].id != "" ==> HasIntent(s.tables, s.calls[c].id))
  {
    RunInv(steps);
    assert PhaseFacts(Run(steps), Run(steps).calls[c]);
    hide Run;
  }
}

/** One dispatch from start to end, as the code performs it, and its place among the runs. */
module DispatchCall {
  import opened Ledger
  import opened Dispatch

  /** What the tool returned; `err` is empty for no error. */
  datatype ToolResult = NilResult | Returned(isError: bool, err: string, forLLM: string)

  /** The writer's draws for one write, or that the call was refused before it was executed. */
  datatype Draw = Draw(generated: string, at: int, fault: bool, refused: bool)

  function OutcomeOf(r: ToolResult): Outcome {
    if r.NilResult? || r.isError || r.err != "" then ToolFailed else ToolOk
  }

  /** The message recorded for a failed tool. */
  function Message(name: string, r: ToolResult): string {
    match r
    case NilResult => "tool \"" + name + "\" returned nil result"
    case Returned(_, err, forLLM) => if err != "" then err else if forLLM != "" then forLLM else "tool returned error"
  }

  function Detail(name: string, r: ToolResult, resultHash: string): string {
    if OutcomeOf(r).ToolOk? then resultHash else Message(name, r)
  }

  /** One write of a dispatch: its effect on the tables and its answer. */
  function Written(t: Tables, op: Op, refused: bool): (Tables, Result) {
    if refused then (t, Err(InsertFailed)) else Handle(t, op)
  }

  /** The tables and the report after a wrapped dispatch that nothing interleaves with. */
  function Alone(t: Tables, intent: Intent, p: Draw, r: ToolResult, resultHash: string, f: Draw): (Tables, Report) {
    var (prepared, reply) := Written(t, Prepare(intent, p.generated, p.at, p.fault), p.refused);
    if reply.Err? then (prepared, Report("", false, false)) else
    var op := Finalize(StatusOf(OutcomeOf(r)), "", reply.id, Detail(intent.toolName, r, resultHash), f.generated, f.at, f.fault);
    var (finalized, answer) := Written(prepared, op, f.refused);
    (finalized, Report(reply.id, answer.Ok? && OutcomeOf(r).ToolOk?, answer.Err?))
  }

  /** What a dispatch is asked for. `bundled` and `hasTool` tell whether there is a ledger and a
      tool at all, `argsHashed` whether the arguments could be hashed. */
  datatype Request = Request(
    bundled: bool, hasTool: bool, traceId: string, toolName: string, principal: string,
    effectClass: string, sideEffecting: bool, async: bool, argsHashed: bool, argsHash: string)

  /** The dispatch goes through the ledger. */
  predicate Wraps(q: Request) {
    q.bundled && q.hasTool && q.traceId != "" && q.sideEffecting && !q.async && q.argsHashed
  }

  /** The intent it prepares; a missing principal is recorded as unknown. */
  function IntentOf(q: Request): Intent {
    Intent("", q.traceId, q.toolName, q.argsHash, if q.principal == "" then "unknown" else q.principal, q.effectClass)
  }

  /** A wrapped request of a named tool never fails for a missing field, whoever asks. */
  lemma WrappedIntentIsComplete(q: Request)
    requires Wraps(q) && q.toolName != "" && q.argsHash != "" && q.effectClass != ""
    ensures FieldsPresent(IntentOf(q))
    ensures var i := IntentOf(q);
            && i.intentId == "" && i.traceId == q.traceId && i.toolName == q.toolName && i.argsHash == q.argsHash
            && i.effectClass == q.effectClass && i.principal == (if q.principal != "" then q.principal else "unknown")
  {
  }

  /** `t'` is `t` with one finalization more, for `id`, that says what the tool did: committed
      with the hash of the result exactly when the tool returned one without an error, otherwise
      aborted with the error, else with what the model was told, else with a fixed text. */
  predicate RecordsResult(t: Tables, t': Tables, id: string, name: string, r: ToolResult, resultHash: string) {
    && |t'.commits| == |t.commits| + 1 && t'.commits[..|t.commits|] == t.commits
    && var row := t'.commits[|t.commits|];
    && row.intentId == id
    && (row.status == Committed <==> r.Returned? && !r.isError && r.err == "")
    && (row.status == Committed ==> row.detail == resultHash)
    && (row.status == Aborted ==>
          if r.NilResult? then row.detail == "tool \"" + name + "\" returned nil result"
          else if r.err != "" then row.detail == r.err
          else if r.forLLM != "" then row.detail == r.forLLM
          else row.detail == "tool returned error")
  }

  /** What a wrapped dispatch that nothing interleaves with leaves in the ledger and reports:
      nothing when the intent is not written; the intent alone when its finalization is not;
      else both, with the tool's own result. */
  predicate Accounts(t: Tables, intent: Intent, p: Draw, r: ToolResult, resultHash: string, f: Draw, t': Tables, report: Report) {
    if p.refused || p.fault || !FieldsPresent(intent) || HasIntent(t, p.generated) then
      t' == t && report == Report("", false, false)
    else
      && t'.intents == t.intents + [IntentRow(intent.(intentId := p.generated), p.at)]
      && report.intentId == p.generated
      && (report.finalizeErr <==> f.refused || f.fault || HasCommitId(t, f.generated) || HasFinal(t, p.generated))
      && (report.finalizeErr ==> t'.commits == t.commits && !report.committed)
      && (!report.finalizeErr ==>
            && RecordsResult(t, t', p.generated, intent.toolName, r, resultHash)
            && (report.committed <==> t'.commits[|t.commits|].status == Committed))
  }

  lemma AloneAccounts(t: Tables, intent: Intent, p: Draw, r: ToolResult, resultHash: string, f: Draw)
    requires intent.intentId == "" && p.generated != ""
    ensures var (t', report) := Alone(t, intent, p, r, resultHash, f); Accounts(t, intent, p, r, resultHash, f, t', report)
  {
    var (t', report) := Alone(t, intent, p, r, resultHash, f);
    if report.intentId != "" {
      assert t'.intents[|t.intents|].intent.intentId == p.generated;
    }
  }

  /** `ran` counts how often the tool was called. */
  method DispatchTool(ledger: LedgerDB, q: Request, p: Draw, tool: ToolResult, resultHash: string, f: Draw)
    returns (report: Report, ran: nat)
    modifies ledger
    ensures ran == 1
    ensures !q.bundled || !q.hasTool || q.traceId == "" || !q.sideEffecting || q.async || !q.argsHashed ==>
              ledger.Contents() == old(ledger.Contents()) && report == Report("", false, false)
    ensures Wraps(q) ==> (ledger.Contents(), report) == Alone(old(ledger.Contents()), IntentOf(q), p, tool, resultHash, f)
    ensures q.bundled && q.hasTool && q.traceId != "" && q.sideEffecting && !q.async && q.argsHashed && p.generated != "" ==>
              Accounts(old(ledger.Contents()), IntentOf(q), p, tool, resultHash, f, ledger.Contents(), report)
  {
    hide Accounts, Handle;
    ran := 0;
    if !q.bundled || !q.hasTool || q.traceId == "" {
      ran := ran + 1;
      return Report("", false, false), ran;
    }
    if !q.sideEffecting {
      ran := ran + 1;
      return Report("", false, false), ran;
    }
    if q.async {
      ran := ran + 1;
      return Report("", false, false), ran;
    }
    if !q.argsHashed {
      ran := ran + 1;
      return Report("", false, false), ran;
    }
    var principal := q.principal;
    if principal == "" {
      principal := "unknown";
    }
    if p.generated != "" {
      AloneAccounts(ledger.Contents(), IntentOf(q), p, tool, resultHash, f);
    }
    report, ran := RunWrapped(ledger, Intent("", q.traceId, q.toolName, q.argsHash, principal, q.effectClass),
                              p, tool, resultHash, f);
  }

  /** The prepare, run and finalize cycle of a wrapped dispatch. */
  method RunWrapped(ledger: LedgerDB, intent: Intent, p: Draw, tool: ToolResult, resultHash: string, f: Draw)
    returns (report: Report, ran: nat)
    modifies ledger
    ensures ran == 1
    ensures (ledger.Contents(), report) == Alone(old(ledger.Contents()), intent, p, tool, resultHash, f)
  {
    ran := 0;
    var prepared := Err(InsertFailed);
    if !p.refused {
      prepared := ledger.DoPrepare(intent, p.generated, p.at, p.fault);
    }
    if prepared.Err? {
      ran := ran + 1;
      return Report("", false, false), ran;
    }
    ran := ran + 1;
    var result := tool;
    if result.NilResult? {
      var message := Message(intent.toolName, NilResult);
      result := Returned(true, message, message);
    }
    var finalized := Err(InsertFailed);
    if result.isError || result.err != "" {
      var errMsg := "tool returned error";
      if result.err != "" {
        errMsg := result.err;
      } else if result.forLLM != "" {
        errMsg := result.forLLM;
      }
      if !f.refused {
        finalized := ledger.DoAbort("", prepared.id, errMsg, f.generated, f.at, f.fault);
      }
      return Report(prepared.id, false, finalized.Err?), ran;
    }
    if !f.refused {
      finalized := ledger.DoCommit("", prepared.id, resultHash, f.generated, f.at, f.fault);
    }
    return Report(prepared.id, finalized.Ok?, finalized.Err?), ran;
  }

  // ---- Its place among the runs --------------------------------------------

  lemma OneMore(steps: seq<Step>, more: seq<Step>, a: Step)
    requires Enabled(Run(steps + more), a)
    ensures Run(steps + (more + [a])) == Next(Run(steps + more), a)
  {
    hide Enabled, Next;
    assert steps + (more + [a]) == (steps + more) + [a];
    assert ((steps + more) + [a])[..|steps + more|] == steps + more;
  }

  /** A dispatch with nothing in flight that has yet to run its tool. */
  predicate Ready(s: State, c: nat, id: string) { c in s.calls && s.calls[c] == Call(ToRun, id, 0, Unknown) }

  predicate Waiting(s: State, c: nat, call: Call, k: nat, op: Op) {
    c in s.calls && s.calls[c] == call && k in s.pool && s.pool[k].op == op
  }

  lemma SubmitsPrepare(s: State, c: nat, intent: Intent, g: string)
    requires At(s, c, Starting) && s.calls[c] == Call(Starting, "", 0, Unknown) && intent.intentId == "" && Fresh(s, g)
    ensures Enabled(s, SubmitPrepare(c, intent))
    ensures var s' := Next(s, SubmitPrepare(c, intent));
            && s'.tables == s.tables && Fresh(s', g)
            && Waiting(s', c, Call(WaitPrepare(s.next), "", 0, Unknown), s.next, Prepare(intent, "", 0, false))
  {
    hide Handle;
  }

  lemma SubmitsFinal(s: State, c: nat, call: Call, detail: string)
    requires c in s.calls && s.calls[c] == call && call.phase.Ran?
    ensures Enabled(s, SubmitFinal(c, detail))
    ensures var s' := Next(s, SubmitFinal(c, detail));
            s'.tables == s.tables && Waiting(s', c, call.(phase := WaitFinal(s.next)), s.next, FinalOp(call, detail))
  {
    hide Handle;
  }

  /** The write at `k` is executed, and the answer is there for its call. */
  lemma Executes(s: State, c: nat, call: Call, k: nat, op: Op, d: Draw)
    requires Waiting(s, c, call, k, op) && (op.Prepare? && Named(op) == "" ==> Fresh(s, d.generated))
    ensures var a := Execute(k, d.generated, d.at, d.fault);
            && Enabled(s, a)
            && var (t, r) := Handle(s.tables, Drawn(op, d.generated, d.at, d.fault));
            && Next(s, a).tables == t && c in Next(s, a).calls && Next(s, a).calls[c] == call
            && k in Next(s, a).replies && Next(s, a).replies[k] == r
  {
    hide Handle;
  }

  lemma Begins(s: State, c: nat, g: string)
    requires c !in s.calls && Fresh(s, g)
    ensures var s' := Next(s, Begin(c, true));
            s'.tables == s.tables && Fresh(s', g) && At(s', c, Starting) && s'.calls[c] == Call(Starting, "", 0, Unknown)
  {
    hide Handle;
  }

  lemma PrepareRefusedAtOnce(s: State, c: nat)
    requires At(s, c, Starting) && s.calls[c] == Call(Starting, "", 0, Unknown)
    ensures Enabled(s, PrepareRefused(c))
    ensures Next(s, PrepareRefused(c)).tables == s.tables && Ready(Next(s, PrepareRefused(c)), c, "")
  {
    hide Handle;
  }

  lemma PrepareSteps(steps: seq<Step>, c: nat, intent: Intent, p: Draw) returns (more: seq<Step>)
    requires c !in Run(steps).calls && intent.intentId == "" && Fresh(Run(steps), p.generated)
    ensures var (t, r) := Written(Run(steps).tables, Prepare(intent, p.generated, p.at, p.fault), p.refused);
            Run(steps + more).tables == t && Ready(Run(steps + more), c, if r.Ok? then r.id else "")
  {
    hide Run, Handle, Next, Enabled, Fresh, Ready;
    more := [Begin(c, true)];
    assert steps + [] == steps && [] + more == more;
    assert Enabled(Run(steps), Begin(c, true)) by {
      CanBegin(Run(steps), c);
    }
    OneMore(steps, [], Begin(c, true));
    Begins(Run(steps), c, p.generated);
    var s := Run(steps + more);
    if p.refused {
      PrepareRefusedAtOnce(s, c);
      OneMore(steps, more, PrepareRefused(c));
      more := more + [PrepareRefused(c)];
    } else {
      SubmitsPrepare(s, c, intent, p.generated);
      OneMore(steps, more, SubmitPrepare(c, intent));
      more := more + [SubmitPrepare(c, intent)];
      Executes(Run(steps + more), c, Call(WaitPrepare(s.next), "", 0, Unknown), s.next, Prepare(intent, "", 0, false), p);
      OneMore(steps, more, Execute(s.next, p.generated, p.at, p.fault));
      more := more + [Execute(s.next, p.generated, p.at, p.fault)];
      PrepareAnswered(Run(steps + more), c, s.next);
      OneMore(steps, more, PrepareReplied(c));
      more := more + [PrepareReplied(c)];
    }
  }

  lemma CanBegin(s: State, c: nat)
    requires c !in s.calls
    ensures Enabled(s, Begin(c, true))
  {
  }

  lemma PrepareAnswered(s: State, c: nat, k: nat)
    requires c in s.calls && s.calls[c] == Call(WaitPrepare(k), "", 0, Unknown) && k in s.replies
    ensures Enabled(s, PrepareReplied(c)) && Next(s, PrepareReplied(c)).tables == s.tables
    ensures Ready(Next(s, PrepareReplied(c)), c, if s.replies[k].Ok? then s.replies[k].id else "")
  {
    hide Handle;
  }

  lemma ToolSteps(steps: seq<Step>, c: nat, id: string, o: Outcome) returns (more: seq<Step>)
    requires Ready(Run(steps), c, id) && !o.Unknown?
    ensures var s, s' := Run(steps), Run(steps + more);
            && s'.tables == s.tables && c in s'.calls
            && s'.calls[c] == Call(if id == "" then Done(Report("", false, false)) else Ran, id, 1, o)
  {
    assert steps + [] == steps;
    hide Run, Handle;
    more := [StartTool(c)];
    OneMore(steps, [], StartTool(c));
    OneMore(steps, more, EndTool(c, o));
    more := more + [EndTool(c, o)];
  }

  lemma FinalSteps(steps: seq<Step>, c: nat, id: string, o: Outcome, detail: string, f: Draw) returns (more: seq<Step>)
    requires c in Run(steps).calls && Run(steps).calls[c] == Call(Ran, id, 1, o)
    ensures var op := Finalize(StatusOf(o), "", id, detail, f.generated, f.at, f.fault);
            var (t, r) := Written(Run(steps).tables, op, f.refused);
            var s' := Run(steps + more);
            s'.tables == t && At(s', c, Done(Report(id, r.Ok? && o.ToolOk?, r.Err?)))
  {
    assert steps + [] == steps;
    var s := Run(steps);
    hide Run, Handle;
    if f.refused {
      more := [FinalRefused(c)];
      OneMore(steps, [], FinalRefused(c));
    } else {
      var call := Call(Ran, id, 1, o);
      SubmitsFinal(s, c, call, detail);
      hide Next, Enabled, Fresh;
      more := [SubmitFinal(c, detail)];
      OneMore(steps, [], SubmitFinal(c, detail));
      Executes(Run(steps + more), c, call.(phase := WaitFinal(s.next)), s.next, FinalOp(call, detail), f);
      OneMore(steps, more, Execute(s.next, f.generated, f.at, f.fault));
      more := more + [Execute(s.next, f.generated, f.at, f.fault)];
      FinalAnswered(Run(steps + more), c, call.(phase := WaitFinal(s.next)), s.next);
      OneMore(steps, more, FinalReplied(c));
      more := more + [FinalReplied(c)];
    }
  }

  lemma FinalAnswered(s: State, c: nat, call: Call, k: nat)
    requires c in s.calls && s.calls[c] == call && call.phase == WaitFinal(k) && k in s.replies
    ensures Enabled(s, FinalReplied(c)) && Next(s, FinalReplied(c)).tables == s.tables
    ensures var r := s.replies[k];
            At(Next(s, FinalReplied(c)), c, Done(Report(call.id, r.Ok? && call.outcome.ToolOk?, r.Err?)))
  {
    hide Handle;
  }

  lemma AloneIs(t: Tables, intent: Intent, p: Draw, r: ToolResult, resultHash: string, f: Draw)
    requires intent.intentId == "" && p.generated != ""
    ensures var (prepared, reply) := Written(t, Prepare(intent, p.generated, p.at, p.fault), p.refused);
            && (reply.Err? ==> Alone(t, intent, p, r, resultHash, f) == (prepared, Report("", false, false)))
            && (reply.Ok? ==>
                  var op := Finalize(StatusOf(OutcomeOf(r)), "", reply.id, Detail(intent.toolName, r, resultHash),
                                     f.generated, f.at, f.fault);
                  var (finalized, answer) := Written(prepared, op, f.refused);
                  && reply.id != ""
                  && Alone(t, intent, p, r, resultHash, f)
                       == (finalized, Report(reply.id, answer.Ok? && OutcomeOf(r).ToolOk?, answer.Err?)))
  {
    IssuedIsNamed(t, intent, p);
    hide Written;
  }

  lemma OutcomeIsKnown(r: ToolResult)
    ensures !OutcomeOf(r).Unknown?
  {
  }

  lemma IsAt(s: State, c: nat, call: Call)
    requires c in s.calls && s.calls[c] == call
    ensures At(s, c, call.phase)
  {
  }

  /** What a dispatch does on its own it also does as a run of steps, from any reachable state:
      so the results about all interleavings speak about this code. */
  lemma AloneIsARun(steps: seq<Step>, c: nat, intent: Intent, p: Draw, r: ToolResult, resultHash: string, f: Draw)
    returns (more: seq<Step>)
    requires c !in Run(steps).calls && intent.intentId == "" && Fresh(Run(steps), p.generated)
    ensures var s' := Run(steps + more);
            var (t, report) := Alone(Run(steps).tables, intent, p, r, resultHash, f);
            s'.tables == t && At(s', c, Done(report))
  {
    assert p.generated != "";
    hide *;
    AloneIs(Run(steps).tables, intent, p, r, resultHash, f);
    OutcomeIsKnown(r);
    var prepare := PrepareSteps(steps, c, intent, p);
    var (prepared, reply) := Written(Run(steps).tables, Prepare(intent, p.generated, p.at, p.fault), p.refused);
    var id := if reply.Ok? then reply.id else "";
    var tool := ToolSteps(steps + prepare, c, id, OutcomeOf(r));
    assert steps + (prepare + tool) == (steps + prepare) + tool;
    more := prepare + tool;
    if id == "" {
      IsAt(Run(steps + more), c, Call(Done(Report("", false, false)), "", 1, OutcomeOf(r)));
    } else {
      var finals := FinalSteps(steps + more, c, id, OutcomeOf(r), Detail(intent.toolName, r, resultHash), f);
      assert steps + (more + finals) == (steps + more) + finals;
      more := more + finals;
    }
  }

  lemma IssuedIsNamed(t: Tables, intent: Intent, p: Draw)
    requires intent.intentId == "" && p.generated != ""
    ensures var (_, r) := Written(t, Prepare(intent, p.generated, p.at, p.fault), p.refused); r.Ok? ==> r.id != ""
  {
  }
}
