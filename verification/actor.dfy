/** The single-writer actor behind a read-write lock that both stores are built on: calls that
    enqueue an operation or read under the lock, one writer that drains the queue, and Close.
    Every interleaving of their steps, for operations of any type. */
module Actor {

  /** Where the writer goroutine stands; `draining` is its inner loop. */
  datatype Writer =
    | Selecting(draining: bool)
    | Executing(id: nat, draining: bool)
    | Replying(id: nat, draining: bool)
    | Exited

  /** Where the one Close call that holds `closeMu` stands, if there is one. */
  datatype Closer = NoCloser | WantsLock | HoldsLock | AwaitsDone

  /** Operations are numbered in the order they were accepted. A call is in at most one of the
      collections: waiting for the read lock, holding it in the enqueue select, waiting for its
      reply, waiting to read, or reading under the lock. */
  datatype State<T> = State(
    capacity: nat,
    wantWrite: map<nat, T>,
    sending: map<nat, T>,
    awaiting: map<nat, nat>,
    wantRead: set<nat>,
    reading: set<nat>,
    wantClose: nat,
    closer: Closer,
    closedFlag: bool,
    accepted: seq<T>,
    queue: seq<nat>,
    writer: Writer,
    executed: seq<nat>,
    replied: set<nat>,
    dbOpen: bool)

  function Opened<T>(capacity: nat): State<T> {
    State(capacity, map[], map[], map[], {}, {}, 0, NoCloser, false, [], [], Selecting(false), [], {}, true)
  }

  datatype Step<T> =
    // calls
    | CallWrite(call: nat, op: T) | CallRead(call: nat) | CallClose
    | GrantWrite(call: nat) | GrantRead(call: nat)
    | Send(call: nat) | Handoff(call: nat) | CancelSend(call: nat)
    | TakeReply(call: nat) | CancelWait(call: nat) | EndRead(call: nat)
    // writer
    | Receive | Execute | Reply | SeeClosed | Exit
    // close
    | TakeCloseMu | TakeLock | SetClosed | FinishClose

  /** Go's read-write lock admits no new reader while a writer holds it or waits for it. */
  predicate ReadersAdmitted<T>(s: State<T>) { !s.closer.WantsLock? && !s.closer.HoldsLock? }

  /** No call under way has this number. */
  predicate Unused<T>(s: State<T>, c: nat) {
    c !in s.wantWrite && c !in s.sending && c !in s.awaiting && c !in s.wantRead && c !in s.reading
  }

  predicate Enabled<T>(s: State<T>, a: Step<T>) {
    match a
    case CallWrite(c, _) => Unused(s, c)
    case CallRead(c) => Unused(s, c)
    case CallClose => true
    case GrantWrite(c) => c in s.wantWrite && ReadersAdmitted(s)
    case GrantRead(c) => c in s.wantRead && ReadersAdmitted(s)
    case Send(c) => c in s.sending && |s.queue| < s.capacity
    case Handoff(c) => c in s.sending && s.capacity == 0 && s.writer.Selecting?
    case CancelSend(c) => c in s.sending
    case TakeReply(c) => c in s.awaiting && s.awaiting[c] in s.replied
    case CancelWait(c) => c in s.awaiting
    case EndRead(c) => c in s.reading
    case Receive => s.writer.Selecting? && s.queue != []
    case Execute => s.writer.Executing?
    case Reply => s.writer.Replying? && s.writer.id !in s.replied
    case SeeClosed => s.writer == Selecting(false) && s.closedFlag
    case Exit => s.writer == Selecting(true) && s.queue == []
    case TakeCloseMu => s.wantClose > 0 && s.closer.NoCloser?
    case TakeLock => s.closer.WantsLock? && s.sending == map[] && s.reading == {}
    case SetClosed => s.closer.HoldsLock?
    case FinishClose => s.closer.AwaitsDone? && s.writer.Exited?
  }

  function Next<T>(s: State<T>, a: Step<T>): State<T>
    requires Enabled(s, a)
  {
    match a
    case CallWrite(c, op) => s.(wantWrite := s.wantWrite[c := op])
    case CallRead(c) => s.(wantRead := s.wantRead + {c})
    case CallClose => s.(wantClose := s.wantClose + 1)
    case GrantWrite(c) =>
      s.(wantWrite := s.wantWrite - {c}, sending := if s.closedFlag then s.sending else s.sending[c := s.wantWrite[c]])
    case GrantRead(c) =>
      s.(wantRead := s.wantRead - {c}, reading := if s.closedFlag then s.reading else s.reading + {c})
    case Send(c) =>
      s.(sending := s.sending - {c}, awaiting := s.awaiting[c := |s.accepted|],
         accepted := s.accepted + [s.sending[c]], queue := s.queue + [|s.accepted|])
    case Handoff(c) =>
      s.(sending := s.sending - {c}, awaiting := s.awaiting[c := |s.accepted|],
         accepted := s.accepted + [s.sending[c]], writer := Executing(|s.accepted|, s.writer.draining))
    case CancelSend(c) => s.(sending := s.sending - {c})
    case TakeReply(c) => s.(awaiting := s.awaiting - {c})
    case CancelWait(c) => s.(awaiting := s.awaiting - {c})
    case EndRead(c) => s.(reading := s.reading - {c})
    case Receive => s.(queue := s.queue[1..], writer := Executing(s.queue[0], s.writer.draining))
    case Execute => s.(executed := s.executed + [s.writer.id], writer := Replying(s.writer.id, s.writer.draining))
    case Reply => s.(replied := s.replied + {s.writer.id}, writer := Selecting(s.writer.draining))
    case SeeClosed => s.(writer := Selecting(true))
    case Exit => s.(writer := Exited)
    case TakeCloseMu => s.(wantClose := s.wantClose - 1, closer := WantsLock)
    case TakeLock => s.(closer := HoldsLock)
    case SetClosed => if s.closedFlag then s.(closer := NoCloser) else s.(closedFlag := true, closer := AwaitsDone)
    case FinishClose => s.(dbOpen := false, closer := NoCloser)
  }

  /** The state after a list of steps; those not possible where they stand are skipped. */
  function Run<T>(capacity: nat, steps: seq<Step<T>>): State<T> {
    if steps == [] then Opened(capacity) else
    var s := Run(capacity, steps[..|steps| - 1]);
    if Enabled(s, steps[|steps| - 1]) then Next(s, steps[|steps| - 1]) else s
  }

  // ---- Invariants ----------------------------------------------------------

  function InHand(w: Writer): seq<nat> { if w.Executing? then [w.id] else [] }

  /** Executed, in hand and queued operations are the accepted ones, each once, in order. */
  predicate InOrder<T>(s: State<T>) {
    var line := s.executed + InHand(s.writer) + s.queue;
    |line| == |s.accepted| && forall i | 0 <= i < |line| :: line[i] == i
  }

  /** Every executed operation has its reply, except the one whose reply is being sent. */
  ghost predicate RepliesSent<T>(s: State<T>) {
    && (s.writer.Replying? ==> s.executed != [] && s.executed[|s.executed| - 1] == s.writer.id)
    && forall id: nat :: id in s.replied <==> id < |s.executed| && !(s.writer.Replying? && id == s.writer.id)
  }

  predicate Draining(w: Writer) { w.Exited? || w.draining }

  /** The fence around `closedFlag`. */
  predicate Fenced<T>(s: State<T>) {
    && (s.closedFlag || s.closer.HoldsLock? ==> s.sending == map[] && s.reading == {})
    && (Draining(s.writer) || s.closer.AwaitsDone? || !s.dbOpen ==> s.closedFlag)
    && (s.writer.Exited? ==> s.queue == [])
    && (!s.dbOpen ==> s.writer.Exited?)
    && |s.queue| <= s.capacity
  }

  /** Every write call is in one place, and waiting calls wait for different accepted operations. */
  ghost predicate CallsApart<T>(s: State<T>) {
    s.wantWrite.Keys !! s.sending.Keys !! s.awaiting.Keys && WaitersApart(s)
  }

  ghost predicate WaitersApart<T>(s: State<T>) {
    && (forall c | c in s.awaiting :: s.awaiting[c] < |s.accepted|)
    && (forall c, d | c in s.awaiting && d in s.awaiting && c != d :: s.awaiting[c] != s.awaiting[d])
  }

  ghost predicate Inv<T>(s: State<T>) { InOrder(s) && RepliesSent(s) && Fenced(s) && CallsApart(s) }

  lemma InOrderKept<T>(s: State<T>, a: Step<T>)
    requires InOrder(s) && Enabled(s, a) && Fenced(s)
    ensures InOrder(Next(s, a))
  {
    var line := s.executed + InHand(s.writer) + s.queue;
    var s' := Next(s, a);
    var line' := s'.executed + InHand(s'.writer) + s'.queue;
    if a.Send? || a.Handoff? {
      assert line' == line + [|s.accepted|];
    } else {
      assert line' == line;
    }
  }

  lemma ExecutedNext<T>(s: State<T>)
    requires InOrder(s)
    ensures forall i | 0 <= i < |s.executed| :: s.executed[i] == i
    ensures s.writer.Executing? ==> s.writer.id == |s.executed|
  {
    var line := s.executed + InHand(s.writer) + s.queue;
    assert forall i | 0 <= i < |s.executed| :: line[i] == s.executed[i];
    assert s.writer.Executing? ==> line[|s.executed|] == s.writer.id;
  }

  lemma RepliesKept<T>(s: State<T>, a: Step<T>)
    requires InOrder(s) && RepliesSent(s) && Enabled(s, a)
    ensures RepliesSent(Next(s, a))
  {
    ExecutedNext(s);
    hide InOrder, InHand;
  }

  lemma FencedKept<T>(s: State<T>, a: Step<T>)
    requires Fenced(s) && Enabled(s, a)
    ensures Fenced(Next(s, a))
  {
  }

  lemma WaitersKept<T>(s: State<T>, a: Step<T>)
    requires WaitersApart(s) && Enabled(s, a)
    ensures WaitersApart(Next(s, a))
  {
  }

  lemma CallsApartKept<T>(s: State<T>, a: Step<T>)
    requires CallsApart(s) && Enabled(s, a)
    ensures CallsApart(Next(s, a))
  {
    WaitersKept(s, a);
    hide WaitersApart;
  }

  lemma {:induction false} RunInv<T>(capacity: nat, steps: seq<Step<T>>)
    ensures Inv(Run(capacity, steps))
  {
    if steps != [] {
      var s, a := Run(capacity, steps[..|steps| - 1]), steps[|steps| - 1];
      RunInv(capacity, steps[..|steps| - 1]);
      hide InOrder, RepliesSent, Fenced, CallsApart, Next, Enabled;
      if Enabled(s, a) {
        InOrderKept(s, a);
        RepliesKept(s, a);
        FencedKept(s, a);
        CallsApartKept(s, a);
      }
    }
  }

  // ---- Shutdown ------------------------------------------------------------

  /** When the writer is gone, every accepted operation was executed and answered exactly
      once, in the order it was accepted. */
  lemma ExitedMeansAllDone<T>(capacity: nat, steps: seq<Step<T>>)
    requires Run(capacity, steps).writer.Exited?
    ensures var s := Run(capacity, steps);
            && |s.executed| == |s.accepted| && (forall i | 0 <= i < |s.executed| :: s.executed[i] == i)
            && (forall id: nat :: id in s.replied <==> id < |s.accepted|)
            && s.closedFlag
  {
    RunInv(capacity, steps);
    var s := Run(capacity, steps);
    hide Run;
    var line := s.executed + InHand(s.writer) + s.queue;
    assert line == s.executed;
  }

  /** No caller is left waiting: once the writer is gone, every call still waiting can take
      the reply to its own operation, and no two wait for the same one. */
  lemma WaitingCallsAnswered<T>(capacity: nat, steps: seq<Step<T>>, c: nat, d: nat)
    requires Run(capacity, steps).writer.Exited?
    requires c in Run(capacity, steps).awaiting && d in Run(capacity, steps).awaiting && c != d
    ensures Enabled(Run(capacity, steps), TakeReply(c))
    ensures Run(capacity, steps).awaiting[c] != Run(capacity, steps).awaiting[d]
  {
    ExitedMeansAllDone(capacity, steps);
    RunInv(capacity, steps);
    hide Run;
  }

  lemma RunSnoc<T>(capacity: nat, steps: seq<Step<T>>, a: Step<T>)
    ensures var s := Run(capacity, steps); Run(capacity, steps + [a]) == if Enabled(s, a) then Next(s, a) else s
  {
    hide Enabled, Next;
    assert (steps + [a])[..|steps|] == steps;
  }

  lemma AcceptedStays<T>(s: State<T>, a: Step<T>)
    requires Enabled(s, a)
    ensures s.accepted <= Next(s, a).accepted
  {
  }

  lemma {:induction false} AcceptedGrows<T>(capacity: nat, steps: seq<Step<T>>, more: seq<Step<T>>)
    ensures Run(capacity, steps).accepted <= Run(capacity, steps + more).accepted
  {
    hide *;
    if more == [] {
      assert steps + more == steps;
    } else {
      var init, a := more[..|more| - 1], more[|more| - 1];
      AcceptedGrows(capacity, steps, init);
      assert steps + more == (steps + init) + [a];
      RunSnoc(capacity, steps + init, a);
      if Enabled(Run(capacity, steps + init), a) {
        AcceptedStays(Run(capacity, steps + init), a);
      }
    }
  }

  /** Giving up the wait does not take the operation back: whatever happens after, it is
      executed before the writer is gone, even if it was still queued when its call gave up. */
  lemma CancelledWaitStillWrites<T>(capacity: nat, steps: seq<Step<T>>, c: nat, more: seq<Step<T>>)
    requires Enabled(Run(capacity, steps), CancelWait(c))
    requires Run(capacity, steps + [CancelWait(c)] + more).writer.Exited?
    ensures var id := Run(capacity, steps).awaiting[c];
            var s := Run(capacity, steps + [CancelWait(c)] + more);
            && id < |Run(capacity, steps).accepted| <= |s.accepted| == |s.executed|
            && s.executed[id] == id && s.accepted[id] == Run(capacity, steps).accepted[id]
  {
    hide *;
    CancelWaitFacts(capacity, steps, c);
    assert steps + [CancelWait(c)] + more == steps + ([CancelWait(c)] + more);
    AcceptedGrows(capacity, steps, [CancelWait(c)] + more);
    ExitedMeansAllDone(capacity, steps + [CancelWait(c)] + more);
  }

  lemma CancelWaitFacts<T>(capacity: nat, steps: seq<Step<T>>, c: nat)
    requires Enabled(Run(capacity, steps), CancelWait(c))
    ensures var s := Run(capacity, steps); c in s.awaiting && s.awaiting[c] < |s.accepted|
  {
    RunInv(capacity, steps);
    hide Run;
  }

  predicate NoNewCall<T>(steps: seq<Step<T>>, c: nat) {
    forall i | 0 <= i < |steps| && steps[i].CallWrite? :: steps[i].call != c
  }

  /** Call `c` has nothing in the actor's hands: no operation to send and none to wait for. */
  predicate Gone<T>(s: State<T>, c: nat) { c !in s.wantWrite && c !in s.sending && c !in s.awaiting }

  lemma GoneStays<T>(s: State<T>, a: Step<T>, c: nat)
    requires Gone(s, c) && Enabled(s, a) && (a.CallWrite? ==> a.call != c)
    ensures Gone(Next(s, a), c)
  {
  }

  /** A call that gives up before its operation is accepted writes nothing: the operation is
      not accepted then, nor by any later step, until the caller makes a new call. */
  lemma {:induction false} CancelledSendNeverWrites<T>(capacity: nat, steps: seq<Step<T>>, c: nat, more: seq<Step<T>>)
    requires Enabled(Run(capacity, steps), CancelSend(c)) && NoNewCall(more, c)
    ensures Run(capacity, steps + [CancelSend(c)]).accepted == Run(capacity, steps).accepted
    ensures var s := Run(capacity, steps + [CancelSend(c)] + more);
            Gone(s, c) && !Enabled(s, Send(c)) && !Enabled(s, Handoff(c))
    decreases |more|
  {
    hide *;
    CancelSendFacts(capacity, steps, c);
    if more == [] {
      assert steps + [CancelSend(c)] + more == steps + [CancelSend(c)];
    } else {
      var init, a := more[..|more| - 1], more[|more| - 1];
      NoNewCallPrefix(more, c);
      CancelledSendNeverWrites(capacity, steps, c, init);
      var s := Run(capacity, steps + [CancelSend(c)] + init);
      assert steps + [CancelSend(c)] + more == (steps + [CancelSend(c)] + init) + [a];
      RunSnoc(capacity, steps + [CancelSend(c)] + init, a);
      if Enabled(s, a) {
        GoneStays(s, a, c);
      }
    }
    GoneCannotSend(Run(capacity, steps + [CancelSend(c)] + more), c);
  }

  lemma NoNewCallPrefix<T>(steps: seq<Step<T>>, c: nat)
    requires steps != [] && NoNewCall(steps, c)
    ensures NoNewCall(steps[..|steps| - 1], c)
    ensures var a := steps[|steps| - 1]; a.CallWrite? ==> a.call != c
  {
  }

  lemma GoneCannotSend<T>(s: State<T>, c: nat)
    requires Gone(s, c)
    ensures !Enabled(s, Send(c)) && !Enabled(s, Handoff(c))
  {
  }

  lemma CancelSendFacts<T>(capacity: nat, steps: seq<Step<T>>, c: nat)
    requires Enabled(Run(capacity, steps), CancelSend(c))
    ensures var s, s' := Run(capacity, steps), Run(capacity, steps + [CancelSend(c)]);
            s'.accepted == s.accepted && Gone(s', c)
  {
    RunInv(capacity, steps);
    hide Run;
    RunSnoc(capacity, steps, CancelSend(c));
  }

  /** At every moment the executed operations are the first accepted ones. */
  lemma ExecutedIsPrefix<T>(capacity: nat, steps: seq<Step<T>>)
    ensures var s := Run(capacity, steps);
            |s.executed| <= |s.accepted| && forall i | 0 <= i < |s.executed| :: s.executed[i] == i
  {
    RunInv(capacity, steps);
    var s := Run(capacity, steps);
    hide Run;
    var line := s.executed + InHand(s.writer) + s.queue;
    assert forall i | 0 <= i < |s.executed| :: line[i] == s.executed[i];
  }

  /** After `closedFlag` is set nothing is accepted any more, and it stays set. */
  lemma NothingAcceptedAfterClosed<T>(capacity: nat, steps: seq<Step<T>>, a: Step<T>)
    requires Run(capacity, steps).closedFlag && Enabled(Run(capacity, steps), a)
    ensures var s := Run(capacity, steps);
            Next(s, a).closedFlag && Next(s, a).accepted == s.accepted && |Next(s, a).queue| <= |s.queue|
  {
    RunInv(capacity, steps);
    hide Run;
  }

  /** The database is open whenever the writer executes an operation or a guarded read is
      under way, and it closes only after the last accepted operation was answered. */
  lemma DatabaseOutlivesWork<T>(capacity: nat, steps: seq<Step<T>>)
    ensures var s := Run(capacity, steps);
            && (s.writer.Executing? || s.reading != {} ==> s.dbOpen)
            && (!s.dbOpen ==> |s.executed| == |s.accepted| && forall id: nat :: id in s.replied <==> id < |s.accepted|)
  {
    RunInv(capacity, steps);
    if Run(capacity, steps).writer.Exited? {
      ExitedMeansAllDone(capacity, steps);
    }
    hide Run;
  }

  /** The reply channel always has room when the writer sends: it sends once per operation. */
  lemma WriterNeverBlocksOnReply<T>(capacity: nat, steps: seq<Step<T>>)
    requires Run(capacity, steps).writer.Replying?
    ensures Enabled(Run(capacity, steps), Reply)
  {
    RunInv(capacity, steps);
    hide Run;
  }

  // ---- What a call gets ----------------------------------------------------

  /** A write call that is given the lock is refused exactly when the store has been closed.
      Otherwise its operation can be sent as soon as there is room, or handed to a selecting
      writer when the queue has none at all; either way it is appended to the accepted ones as
      it was given, and its call waits for exactly that one. */
  lemma GrantedWriteOutcome<T>(capacity: nat, steps: seq<Step<T>>, c: nat)
    requires c in Run(capacity, steps).wantWrite
    requires !Run(capacity, steps).closer.WantsLock? && !Run(capacity, steps).closer.HoldsLock?
    ensures var s := Run(capacity, steps);
            && Enabled(s, GrantWrite(c))
            && var s' := Next(s, GrantWrite(c));
            && s'.accepted == s.accepted && s'.queue == s.queue && s'.writer == s.writer
            && (s.closedFlag <==> Gone(s', c))
            && (!s.closedFlag ==> WaitsToSend(s', c, s.wantWrite[c]))
  {
    RunInv(capacity, steps);
    hide Run, InOrder, RepliesSent, Fenced, WaitersApart;
    var s := Run(capacity, steps);
    if !s.closedFlag {
      SenderCanSend(Next(s, GrantWrite(c)), c);
    }
  }

  /** Call `c` is in the enqueue select with `op`: it can send while the queue has room, or hand
      over to a selecting writer, and whichever step accepts it accepts `op` last. */
  predicate WaitsToSend<T(==)>(s: State<T>, c: nat, op: T) {
    && c in s.sending && s.sending[c] == op
    && (|s.queue| < s.capacity ==> Enabled(s, Send(c)))
    && (s.capacity == 0 && s.writer.Selecting? ==> Enabled(s, Handoff(c)))
    && (Enabled(s, Send(c)) ==> AcceptedLast(Next(s, Send(c)), c, s.accepted, op))
    && (Enabled(s, Handoff(c)) ==> AcceptedLast(Next(s, Handoff(c)), c, s.accepted, op))
  }

  /** `op` has been accepted after `earlier`, and call `c` waits for it. */
  predicate AcceptedLast<T(==)>(s: State<T>, c: nat, earlier: seq<T>, op: T) {
    s.accepted == earlier + [op] && c in s.awaiting && s.awaiting[c] == |earlier|
  }

  lemma SenderCanSend<T>(s: State<T>, c: nat)
    requires c in s.sending
    ensures WaitsToSend(s, c, s.sending[c])
  {
  }

  /** A guarded read that is given the lock is refused exactly when the store has been closed,
      and otherwise reads an open database until it ends. */
  lemma GrantedReadOutcome<T>(capacity: nat, steps: seq<Step<T>>, c: nat)
    requires c in Run(capacity, steps).wantRead
    requires !Run(capacity, steps).closer.WantsLock? && !Run(capacity, steps).closer.HoldsLock?
    ensures var s := Run(capacity, steps);
            && Enabled(s, GrantRead(c))
            && var s' := Next(s, GrantRead(c));
            && c !in s'.wantRead && s'.dbOpen == s.dbOpen
            && (c in s'.reading <==> !s.closedFlag || c in s.reading)
            && (!s.closedFlag ==> s'.dbOpen && Enabled(s', EndRead(c)) && c !in Next(s', EndRead(c)).reading)
  {
    RunInv(capacity, steps);
    hide Run, InOrder, RepliesSent, CallsApart;
  }

  /** A call can always be made under a new number, and can leave at any time: from the enqueue
      select, from the wait for its reply, and from a read. */
  lemma CallsComeAndGo<T>(s: State<T>, c: nat, op: T)
    ensures c !in s.wantWrite && c !in s.sending && c !in s.awaiting && c !in s.wantRead && c !in s.reading ==>
              Enabled(s, CallWrite(c, op)) && Enabled(s, CallRead(c))
    ensures c in s.sending ==> Enabled(s, CancelSend(c))
    ensures c in s.awaiting ==> Enabled(s, CancelWait(c))
    ensures c in s.reading ==> Enabled(s, EndRead(c))
    ensures Enabled(s, CallClose)
  {
  }

  /** Whatever call `c` is doing, it is doing it with the operation `op`. */
  predicate Carries<T(==)>(s: State<T>, c: nat, op: T) {
    && (c in s.wantWrite ==> s.wantWrite[c] == op)
    && (c in s.sending ==> s.sending[c] == op)
    && (c in s.awaiting ==> s.awaiting[c] < |s.accepted| && s.accepted[s.awaiting[c]] == op)
  }

  lemma CarriesKept<T>(s: State<T>, a: Step<T>, c: nat, op: T)
    requires Carries(s, c, op) && Enabled(s, a) && (a.CallWrite? ==> a.call != c)
    ensures Carries(Next(s, a), c, op)
  {
  }

  lemma CallCarries<T>(s: State<T>, c: nat, op: T)
    requires Enabled(s, CallWrite(c, op))
    ensures Carries(Next(s, CallWrite(c, op)), c, op) && c in Next(s, CallWrite(c, op)).wantWrite
  {
  }

  /** From the moment it is made until its reply, a call stands for the operation it was made
      with: what it sends and what is accepted for it is that operation, in every interleaving. */
  lemma {:induction false} CallKeepsOperation<T>(capacity: nat, steps: seq<Step<T>>, c: nat, op: T, more: seq<Step<T>>)
    requires Enabled(Run(capacity, steps), CallWrite(c, op)) && NoNewCall(more, c)
    ensures Carries(Run(capacity, steps + [CallWrite(c, op)] + more), c, op)
    decreases |more|
  {
    hide *;
    if more == [] {
      assert steps + [CallWrite(c, op)] + more == steps + [CallWrite(c, op)];
      RunSnoc(capacity, steps, CallWrite(c, op));
      CallCarries(Run(capacity, steps), c, op);
    } else {
      var init, a := more[..|more| - 1], more[|more| - 1];
      NoNewCallPrefix(more, c);
      CallKeepsOperation(capacity, steps, c, op, init);
      assert steps + [CallWrite(c, op)] + more == (steps + [CallWrite(c, op)] + init) + [a];
      RunSnoc(capacity, steps + [CallWrite(c, op)] + init, a);
      if Enabled(Run(capacity, steps + [CallWrite(c, op)] + init), a) {
        CarriesKept(Run(capacity, steps + [CallWrite(c, op)] + init), a, c, op);
      }
    }
  }

  // ---- What Close leaves behind --------------------------------------------

  /** Once the flag is set, its Close is waiting for the writer or has closed the database. */
  predicate Closing<T>(s: State<T>) { s.closedFlag ==> s.closer.AwaitsDone? || !s.dbOpen }

  lemma ClosingKept<T>(s: State<T>, a: Step<T>)
    requires Closing(s) && Enabled(s, a)
    ensures Closing(Next(s, a))
  {
  }

  lemma {:induction false} RunIsClosing<T>(capacity: nat, steps: seq<Step<T>>)
    ensures Closing(Run(capacity, steps))
  {
    if steps != [] {
      RunIsClosing(capacity, steps[..|steps| - 1]);
      hide Closing, Next, Enabled;
      if Enabled(Run(capacity, steps[..|steps| - 1]), steps[|steps| - 1]) {
        ClosingKept(Run(capacity, steps[..|steps| - 1]), steps[|steps| - 1]);
      }
    }
  }

  /** When a Close has returned, the database is closed, every accepted operation has been
      executed and answered, and the writer is gone; a further Close returns without effect. */
  lemma CloseIsComplete<T>(capacity: nat, steps: seq<Step<T>>)
    requires Run(capacity, steps).closedFlag && !Run(capacity, steps).closer.AwaitsDone?
    ensures var s := Run(capacity, steps);
            && !s.dbOpen && s.writer.Exited? && s.queue == [] && |s.executed| == |s.accepted|
            && (forall id: nat :: id in s.replied <==> id < |s.accepted|)
            && (s.closer.HoldsLock? ==> Enabled(s, SetClosed) && Next(s, SetClosed) == s.(closer := NoCloser))
  {
    RunIsClosing(capacity, steps);
    RunInv(capacity, steps);
    DatabaseOutlivesWork(capacity, steps);
    hide Run, InOrder, RepliesSent, CallsApart;
  }

  /** The first Close sets the flag, and returns once the writer is gone, with the database
      closed; a waiting Close gets its turn when none is under way. */
  lemma CloseRunsItsCourse<T>(s: State<T>)
    ensures s.wantClose > 0 && s.closer.NoCloser? ==>
              Enabled(s, TakeCloseMu) && Next(s, TakeCloseMu).closer.WantsLock?
              && Next(s, TakeCloseMu).wantClose == s.wantClose - 1
    ensures s.closer.HoldsLock? && !s.closedFlag ==>
              Enabled(s, SetClosed) && Next(s, SetClosed).closedFlag && Next(s, SetClosed).closer.AwaitsDone?
    ensures s.closer.AwaitsDone? && s.writer.Exited? ==>
              Enabled(s, FinishClose) && !Next(s, FinishClose).dbOpen && Next(s, FinishClose).closer.NoCloser?
  {
  }

  // ---- Progress of Close ---------------------------------------------------

  /** The steps a pending Close waits for: readers leaving, the writer, and Close itself. */
  predicate Helps<T>(a: Step<T>) {
    a.Send? || a.Handoff? || a.CancelSend? || a.EndRead? || a.Receive? || a.Execute? || a.Reply?
    || a.SeeClosed? || a.Exit? || a.TakeLock? || a.SetClosed? || a.FinishClose?
  }

  function WriterWork(w: Writer): nat {
    match w
    case Selecting(d) => if d then 1 else 2
    case Executing(_, d) => if d then 3 else 4
    case Replying(_, d) => if d then 2 else 3
    case Exited => 0
  }

  function CloserWork(c: Closer): nat {
    match c
    case NoCloser => 0
    case WantsLock => 3
    case HoldsLock => 2
    case AwaitsDone => 1
  }

  /** What is left to do before a pending Close is done. */
  function Work<T>(s: State<T>): nat {
    5 * |s.sending.Keys| + |s.reading| + MachineWork(s)
  }

  function MachineWork<T>(s: State<T>): nat {
    4 * |s.queue| + WriterWork(s.writer) + CloserWork(s.closer)
  }

  lemma KeysShrink<T>(m: map<nat, T>, c: nat)
    requires c in m
    ensures |(m - {c}).Keys| == |m.Keys| - 1
  {
    assert (m - {c}).Keys == m.Keys - {c};
  }

  /** Steps of the calls: only leaving the lock counts as work done. */
  lemma CallsLeaveLock<T>(s: State<T>, a: Step<T>)
    requires Fenced(s) && !s.closer.NoCloser? && Enabled(s, a)
    ensures var s' := Next(s, a);
            && |s'.sending.Keys| == |s.sending.Keys| - (if a.Send? || a.Handoff? || a.CancelSend? then 1 else 0)
            && |s'.reading| == |s.reading| - (if a.EndRead? then 1 else 0)
  {
    if a.Send? || a.Handoff? || a.CancelSend? {
      KeysShrink(s.sending, a.call);
    }
  }

  predicate OfCall<T>(a: Step<T>) { a.Send? || a.Handoff? || a.CancelSend? || a.EndRead? }

  /** A step inside the machine does work; a send hands over less than it frees. */
  lemma MachineSteps<T>(s: State<T>, a: Step<T>)
    requires !s.closer.NoCloser? && Enabled(s, a)
    ensures a.Send? || a.Handoff? ==> MachineWork(Next(s, a)) <= MachineWork(s) + 4
    ensures !a.Send? && !a.Handoff? ==> MachineWork(Next(s, a)) <= MachineWork(s)
    ensures Helps(a) && !OfCall(a) ==> MachineWork(Next(s, a)) < MachineWork(s)
  {
  }

  /** While a Close is pending, no step adds work for it and every helping step does some. */
  lemma CloseMakesProgress<T>(s: State<T>, a: Step<T>)
    requires Fenced(s) && !s.closer.NoCloser? && Enabled(s, a)
    ensures Work(Next(s, a)) <= Work(s)
    ensures Helps(a) ==> Work(Next(s, a)) < Work(s)
  {
    CallsLeaveLock(s, a);
    MachineSteps(s, a);
    hide Fenced, MachineWork, Next, Enabled;
  }

  /** How many helping steps a list of steps takes from `s` before the pending Close is done. */
  function Helped<T>(s: State<T>, steps: seq<Step<T>>): nat
    decreases |steps|
  {
    if steps == [] || s.closer.NoCloser? then 0
    else if !Enabled(s, steps[0]) then Helped(s, steps[1..])
    else (if Helps(steps[0]) then 1 else 0) + Helped(Next(s, steps[0]), steps[1..])
  }

  /** Whatever else is interleaved, a pending Close is done after at most `Work` helping steps. */
  lemma {:induction false} CloseNeedsBoundedHelp<T>(s: State<T>, steps: seq<Step<T>>)
    requires Fenced(s)
    ensures Helped(s, steps) <= Work(s)
    decreases |steps|
  {
    if steps != [] && !s.closer.NoCloser? {
      hide Fenced, Work, Enabled, Next, Helps;
      if Enabled(s, steps[0]) {
        FencedKept(s, steps[0]);
        CloseMakesProgress(s, steps[0]);
        CloseNeedsBoundedHelp(Next(s, steps[0]), steps[1..]);
      } else {
        CloseNeedsBoundedHelp(s, steps[1..]);
      }
    }
  }

  /** A pending Close is never stuck: some helping step is possible. */
  lemma CloseIsNeverStuck<T>(s: State<T>) returns (a: Step<T>)
    requires Inv(s) && !s.closer.NoCloser?
    ensures Helps(a) && Enabled(s, a)
  {
    match s.closer
    case HoldsLock => a := SetClosed;
    case AwaitsDone =>
      if s.writer.Exited? {
        a := FinishClose;
      } else {
        a := WriterMoves(s);
      }
    case WantsLock =>
      if c :| c in s.reading {
        a := EndRead(c);
      } else if c :| c in s.sending {
        if |s.queue| < s.capacity {
          a := Send(c);
        } else if s.queue == [] && s.writer.Selecting? {
          a := Handoff(c);
        } else {
          a := WriterMoves(s);
        }
      } else {
        assert s.sending == map[] && s.reading == {};
        a := TakeLock;
      }
  }

  /** The writer can move unless it is gone or idle on an empty queue before Close. */
  lemma WriterMoves<T>(s: State<T>) returns (a: Step<T>)
    requires Inv(s) && !s.writer.Exited? && (s.writer == Selecting(false) ==> s.queue != [] || s.closedFlag)
    ensures Helps(a) && Enabled(s, a)
  {
    match s.writer
    case Selecting(d) => a := if s.queue != [] then Receive else if d then Exit else SeeClosed;
    case Executing(_, _) => a := Execute;
    case Replying(_, _) => a := Reply;
  }
}
