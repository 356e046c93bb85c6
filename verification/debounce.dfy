/** The debouncer with its timers: what each locked section does to the table, as a function
    of the state, and the class that does it. */
module Debounce {

  /** A message with its place among the accepted submissions. */
  datatype Message = Message(number: nat, body: string)

  datatype Pending = Pending(msg: Message, timer: nat)

  /** `Fired` is a timer whose callback has started but has not yet taken the lock. */
  datatype TimerState = Armed | Fired | Cancelled | Finished

  datatype Timer = Timer(key: string, state: TimerState)

  type Entries = map<string, Pending>

  /** `time.Timer.Stop`: it cancels an armed timer and does nothing to one that has fired. */
  function StopTimer(timers: seq<Timer>, t: nat): (r: seq<Timer>)
    ensures |r| == |timers|
  {
    if t < |timers| && timers[t].state.Armed? then timers[t := timers[t].(state := Cancelled)] else timers
  }

  function StopAll(timers: seq<Timer>, ids: set<nat>): seq<Timer> {
    seq(|timers|, i requires 0 <= i < |timers| =>
      if i in ids && timers[i].state.Armed? then timers[i].(state := Cancelled) else timers[i])
  }

  lemma StopNone(timers: seq<Timer>)
    ensures StopAll(timers, {}) == timers
  {
  }

  lemma StopOneMore(timers: seq<Timer>, ids: set<nat>, t: nat)
    ensures StopTimer(StopAll(timers, ids), t) == StopAll(timers, ids + {t})
  {
  }

  /** What the mutex guards, together with the runtime's timers. */
  datatype Table = Table(entries: Entries, timers: seq<Timer>, stopped: bool)

  function OnSubmit(t: Table, key: string, msg: Message): Table {
    if t.stopped then t else
    Table(t.entries[key := Pending(msg, |t.timers|)],
          (if key in t.entries then StopTimer(t.timers, t.entries[key].timer) else t.timers) + [Timer(key, Armed)],
          t.stopped)
  }

  /** The table after the callback of timer `id` took what its key had stored. */
  function OnFlush(t: Table, id: nat): Table
    requires id < |t.timers|
  {
    Table(t.entries - {t.timers[id].key}, t.timers[id := Timer(t.timers[id].key, Finished)], t.stopped)
  }

  function Stored(t: Table, key: string): seq<Message> {
    if key in t.entries then [t.entries[key].msg] else []
  }

  function OnStop(t: Table): Table {
    Table(map[], StopAll(t.timers, set k | k in t.entries :: t.entries[k].timer), true)
  }

  class Debouncer {
    var entries: Entries
    var timers: seq<Timer>
    var stopped: bool
    const delay: int

    function Contents(): Table
      reads this
    {
      Table(entries, timers, stopped)
    }

    constructor (delay: int)
      ensures this.delay == delay && Contents() == Table(map[], [], false)
    {
      this.delay := delay;
      entries := map[];
      timers := [];
      stopped := false;
    }

    /** Returns the message to hand to the callback at once, if any: only a debouncer without
        delay does that. */
    method Submit(key: string, msg: Message) returns (immediate: seq<Message>)
      modifies this
      ensures immediate == if delay <= 0 then [msg] else []
      ensures Contents() == if delay <= 0 then old(Contents()) else OnSubmit(old(Contents()), key, msg)
    {
      if delay <= 0 {
        return [msg];
      }
      immediate := [];
      if stopped {
        return;
      }
      if key in entries {
        timers := StopTimer(timers, entries[key].timer);
      }
      entries := entries[key := Pending(msg, |timers|)];
      timers := timers + [Timer(key, Armed)];
    }

    /** The callback of timer `id`: returns the message it takes, if the key still has one. */
    method Flush(id: nat) returns (taken: seq<Message>)
      requires id < |timers| && timers[id].state.Fired?
      modifies this`entries, this`timers
      ensures taken == Stored(old(Contents()), old(timers[id].key))
      ensures Contents() == OnFlush(old(Contents()), id)
    {
      var key := timers[id].key;
      timers := timers[id := Timer(key, Finished)];
      if key !in entries {
        assert entries == entries - {key};
        return [];
      }
      taken := [entries[key].msg];
      entries := entries - {key};
    }

    method Stop()
      modifies this
      ensures Contents() == OnStop(old(Contents()))
    {
      hide StopAll, StopTimer;
      stopped := true;
      ghost var ids: set<nat> := {};
      StopNone(timers);
      while entries.Keys != {}
        invariant stopped
        invariant entries.Keys <= old(entries).Keys && forall k | k in entries :: entries[k] == old(entries)[k]
        invariant ids == set k | k in old(entries) && k !in entries :: old(entries)[k].timer
        invariant timers == StopAll(old(timers), ids)
        decreases entries.Keys
      {
        var key :| key in entries.Keys;
        StopOneMore(old(timers), ids, entries[key].timer);
        timers := StopTimer(timers, entries[key].timer);
        ids := ids + {entries[key].timer};
        entries := entries - {key};
      }
      assert ids == set k | k in old(entries) :: old(entries)[k].timer;
    }
  }
}

/** Every interleaving of submissions, timer firings, callbacks and `Stop`. */
module DebounceRuns {
  import opened Debounce

  datatype Event = Submit(key: string, body: string) | Fire(timer: nat) | Flush(timer: nat) | Stop

  datatype Submission = Submission(key: string, body: string)

  /** What the callback was given: the key, the body, the message's number, by which timer, and
      how many submissions had been accepted `at` that moment. */
  datatype Take = Take(key: string, body: string, number: nat, timer: nat, at: nat)

  /** The table, the accepted submissions in order, and what was taken. */
  datatype State = State(table: Table, submitted: seq<Submission>, taken: seq<Take>)

  const START := State(Table(map[], [], false), [], [])

  predicate Enabled(s: State, ev: Event) {
    match ev
    case Fire(t) => t < |s.table.timers| && s.table.timers[t].state.Armed?
    case Flush(t) => t < |s.table.timers| && s.table.timers[t].state.Fired?
    case _ => true
  }

  /** The effect of one event on a debouncer with a positive delay. */
  function Next(s: State, ev: Event): State
    requires Enabled(s, ev)
  {
    match ev
    case Submit(key, body) =>
      State(OnSubmit(s.table, key, Message(|s.submitted|, body)),
            if s.table.stopped then s.submitted else s.submitted + [Submission(key, body)], s.taken)
    case Fire(t) =>
      s.(table := s.table.(timers := s.table.timers[t := s.table.timers[t].(state := Fired)]))
    case Flush(t) =>
      var key := s.table.timers[t].key;
      var found := Stored(s.table, key);
      State(OnFlush(s.table, t), s.submitted,
            s.taken + if found == [] then [] else [Take(key, found[0].body, found[0].number, t, |s.submitted|)])
    case Stop => s.(table := OnStop(s.table))
  }

  /** The state after a list of events; events of timers that cannot occur are skipped. */
  function Run(evs: seq<Event>): State {
    if evs == [] then START else
    var s := Run(evs[..|evs| - 1]);
    if Enabled(s, evs[|evs| - 1]) then Next(s, evs[|evs| - 1]) else s
  }

  // ---- Invariants ----------------------------------------------------------

  predicate NoneBetween(submitted: seq<Submission>, key: string, lo: int, hi: int) {
    forall i | lo < i < hi && 0 <= i < |submitted| :: submitted[i].key != key
  }

  /** Every stored entry has a timer for its key that will still call `flush`. */
  predicate Watched(s: State) {
    forall k | k in s.table.entries ::
      var t := s.table.entries[k].timer;
      t < |s.table.timers| && s.table.timers[t].key == k && (s.table.timers[t].state.Armed? || s.table.timers[t].state.Fired?)
  }

  /** Every stored message is the latest submission of its key, with the body it came with. */
  predicate Latest(s: State) {
    forall k | k in s.table.entries ::
      var n := s.table.entries[k].msg.number;
      && n < |s.submitted| && s.submitted[n] == Submission(k, s.table.entries[k].msg.body)
      && NoneBetween(s.submitted, k, n, |s.submitted|)
  }

  /** Every taken message was the latest of its key when it was taken, and is passed on as it came. */
  predicate TakenLatest(s: State) {
    forall i | 0 <= i < |s.taken| ::
      var x := s.taken[i];
      && x.number < x.at <= |s.submitted| && s.submitted[x.number] == Submission(x.key, x.body)
      && NoneBetween(s.submitted, x.key, x.number, x.at)
  }

  /** Per key, submissions are taken in order and none twice; a stored one is newer than all taken. */
  predicate TakenInOrder(s: State) {
    && (forall i, j | 0 <= i < j < |s.taken| && s.taken[i].key == s.taken[j].key ::
          s.taken[i].number < s.taken[j].number)
    && (forall i | 0 <= i < |s.taken| && s.taken[i].key in s.table.entries ::
          s.taken[i].number < s.table.entries[s.taken[i].key].msg.number)
  }

  ghost predicate WasTaken(s: State, key: string, n: nat) {
    exists i :: 0 <= i < |s.taken| && s.taken[i].key == key && s.taken[i].number == n
  }

  /** Until `Stop`, a submission with no successor is stored or taken. */
  ghost predicate NoneLost(s: State) {
    !s.table.stopped ==>
      forall n | 0 <= n < |s.submitted| && NoneBetween(s.submitted, s.submitted[n].key, n, |s.submitted|) ::
        var k := s.submitted[n].key;
        (k in s.table.entries && s.table.entries[k].msg.number == n) || WasTaken(s, k, n)
  }

  ghost predicate Inv(s: State) {
    && Watched(s) && Latest(s) && TakenLatest(s) && TakenInOrder(s) && NoneLost(s)
    && (s.table.stopped ==> s.table.entries == map[])
  }

  lemma WatchedKept(s: State, ev: Event)
    requires Enabled(s, ev) && Watched(s)
    ensures Watched(Next(s, ev))
  {
    var s' := Next(s, ev);
    forall k | k in s'.table.entries
      ensures var t := s'.table.entries[k].timer;
              t < |s'.table.timers| && s'.table.timers[t].key == k
              && (s'.table.timers[t].state.Armed? || s'.table.timers[t].state.Fired?)
    {
      if k in s.table.entries && s'.table.entries[k] == s.table.entries[k] {
        var t := s.table.entries[k].timer;
        assert s.table.timers[t].key == k;
        if ev.Submit? && !s.table.stopped && ev.key in s.table.entries {
          assert s.table.timers[s.table.entries[ev.key].timer].key == ev.key;
        }
      }
    }
  }

  lemma LatestKept(s: State, ev: Event)
    requires Enabled(s, ev) && Latest(s)
    ensures Latest(Next(s, ev))
  {
  }

  lemma TakenLatestKept(s: State, ev: Event)
    requires Enabled(s, ev) && Latest(s) && TakenLatest(s)
    ensures TakenLatest(Next(s, ev))
  {
    var s' := Next(s, ev);
    forall i | 0 <= i < |s'.taken|
      ensures var x := s'.taken[i];
              x.number < x.at <= |s'.submitted| && s'.submitted[x.number] == Submission(x.key, x.body)
              && NoneBetween(s'.submitted, x.key, x.number, x.at)
    {
      if i < |s.taken| {
        assert s'.taken[i] == s.taken[i];
      }
    }
  }

  lemma TakenInOrderKept(s: State, ev: Event)
    requires Enabled(s, ev) && Latest(s) && TakenLatest(s) && TakenInOrder(s)
    ensures TakenInOrder(Next(s, ev))
  {
  }

  lemma NoneLostKept(s: State, ev: Event)
    requires Enabled(s, ev) && Latest(s) && NoneLost(s)
    ensures NoneLost(Next(s, ev))
  {
    var s' := Next(s, ev);
    if !s'.table.stopped {
      forall n | 0 <= n < |s'.submitted| && NoneBetween(s'.submitted, s'.submitted[n].key, n, |s'.submitted|)
        ensures var k := s'.submitted[n].key;
                (k in s'.table.entries && s'.table.entries[k].msg.number == n) || WasTaken(s', k, n)
      {
        if n < |s.submitted| {
          var k := s.submitted[n].key;
          assert NoneBetween(s.submitted, k, n, |s.submitted|) by {
            assert forall i | 0 <= i < |s.submitted| :: s.submitted[i] == s'.submitted[i];
          }
          if WasTaken(s, k, n) {
            var i :| 0 <= i < |s.taken| && s.taken[i].key == k && s.taken[i].number == n;
            assert s'.taken[i] == s.taken[i];
          } else if ev.Flush? && s.table.timers[ev.timer].key == k {
            assert s'.taken[|s.taken|].number == n;
          } else if ev.Submit? {
            assert s'.submitted[|s.submitted|] == Submission(ev.key, ev.body);
          }
        }
      }
    }
  }

  lemma NextKeeps(s: State, ev: Event)
    requires Enabled(s, ev) && Inv(s)
    ensures Inv(Next(s, ev))
  {
    WatchedKept(s, ev);
    LatestKept(s, ev);
    TakenLatestKept(s, ev);
    TakenInOrderKept(s, ev);
    NoneLostKept(s, ev);
    hide Watched, Latest, TakenLatest, TakenInOrder, NoneLost;
    if s.table.stopped && ev.Flush? {
      assert Next(s, ev).table.entries.Keys == {};
    }
  }

  /** In every state of every run no entry is stranded, stored messages are the latest of
      their keys, and taken ones were the latest, in order, once each. */
  lemma {:induction false} RunInv(evs: seq<Event>)
    ensures Inv(Run(evs))
  {
    if evs != [] {
      var p, ev := Run(evs[..|evs| - 1]), evs[|evs| - 1];
      RunInv(evs[..|evs| - 1]);
      hide Inv;
      if Enabled(p, ev) {
        NextKeeps(p, ev);
      }
    }
  }

  /** `Stop` is final: afterwards nothing is taken or stored, whatever timers still fire. */
  lemma NothingAfterStop(evs: seq<Event>, ev: Event)
    requires Run(evs).table.stopped && Enabled(Run(evs), ev)
    ensures var s' := Next(Run(evs), ev); s'.table.stopped && s'.taken == Run(evs).taken && s'.table.entries == map[]
  {
    RunInv(evs);
    assert Next(Run(evs), ev).table.entries.Keys == {};
  }

  /** `Stop` cancels every armed timer of a stored entry and leaves all others as they are: those
      that have fired, and armed ones without an entry. */
  lemma StopCancelsPending(evs: seq<Event>, t: nat)
    requires t < |Run(evs).table.timers|
    ensures var s := Run(evs);
            var timer, timer' := s.table.timers[t], OnStop(s.table).timers[t];
            var pending := timer.key in s.table.entries && s.table.entries[timer.key].timer == t;
            && OnStop(s.table).entries == map[] && |OnStop(s.table).timers| == |s.table.timers| && OnStop(s.table).stopped
            && timer' == if pending && timer.state.Armed? then Timer(timer.key, Cancelled) else timer
  {
    RunInv(evs);
    var s := Run(evs);
    hide Run, Latest, TakenLatest, TakenInOrder, NoneLost;
    var timer := s.table.timers[t];
    if k :| k in s.table.entries && s.table.entries[k].timer == t {
      assert s.table.timers[t].key == k;
    }
  }

  /** Whatever is stored can be delivered: its own timer fires if it has not, and takes it. */
  lemma StoredIsDelivered(evs: seq<Event>, k: string) returns (fired: State)
    requires k in Run(evs).table.entries
    ensures var s := Run(evs);
            var t := s.table.entries[k].timer;
            && (fired == s || (Enabled(s, Fire(t)) && fired == Next(s, Fire(t))))
            && Enabled(fired, Flush(t))
            && Next(fired, Flush(t)).taken == s.taken + [Take(k, s.table.entries[k].msg.body, s.table.entries[k].msg.number, t, |s.submitted|)]
  {
    RunInv(evs);
    var s := Run(evs);
    var t := s.table.entries[k].timer;
    fired := if s.table.timers[t].state.Armed? then Next(s, Fire(t)) else s;
  }

  lemma RunSnoc(evs: seq<Event>, ev: Event)
    ensures Run(evs + [ev]) == if Enabled(Run(evs), ev) then Next(Run(evs), ev) else Run(evs)
  {
    assert (evs + [ev])[..|evs|] == evs;
  }

  // ---- When a message is taken before its delay is over --------------------

  /** Timer `t` of key `k` would survive a submission for `k`: it has fired already, or it is
      armed although it is not the timer of the stored entry. */
  predicate Stale(s: State, k: string, t: nat) {
    && t < |s.table.timers| && s.table.timers[t].key == k
    && (s.table.timers[t].state.Fired?
        || (s.table.timers[t].state.Armed? && (k in s.table.entries ==> s.table.entries[k].timer != t)))
  }

  ghost predicate HasStale(s: State, k: string) { exists t: nat :: Stale(s, k, t) }

  /** The message with number `n` was taken by a timer other than `own`. */
  ghost predicate TakenByOther(s: State, n: nat, own: nat) {
    exists i :: 0 <= i < |s.taken| && s.taken[i].number == n && s.taken[i].timer != own
  }

  /** The message for `k` submitted after `evs` is taken by a timer other than its own in some
      continuation. */
  ghost predicate MayBeTakenEarly(evs: seq<Event>, k: string, body: string) {
    exists more: seq<Event> ::
      TakenByOther(Run(evs + [Submit(k, body)] + more), |Run(evs).submitted|, |Run(evs).table.timers|)
  }

  /** No timer of `k` but `own` will still call `flush`. */
  predicate OnlyTimer(s: State, k: string, own: nat) {
    forall t | 0 <= t < |s.table.timers| && t != own && s.table.timers[t].key == k ::
      s.table.timers[t].state.Cancelled? || s.table.timers[t].state.Finished?
  }

  /** While message `n` is stored, it is stored for `k` with the timer `own` and no other of
      its key is left; and nothing but `own` has taken it. */
  ghost predicate OwnTimerOnly(s: State, k: string, n: nat, own: nat) {
    && n < |s.submitted| && own < |s.table.timers|
    && (forall j | j in s.table.entries && s.table.entries[j].msg.number == n ::
          j == k && s.table.entries[j].timer == own && OnlyTimer(s, k, own))
    && !TakenByOther(s, n, own)
  }

  lemma SubmittedAlone(s: State, k: string, body: string)
    requires Inv(s) && !s.table.stopped && !HasStale(s, k)
    ensures OwnTimerOnly(Next(s, Submit(k, body)), k, |s.submitted|, |s.table.timers|)
  {
    var s' := Next(s, Submit(k, body));
    var own := |s.table.timers|;
    forall t | 0 <= t < |s'.table.timers| && t != own && s'.table.timers[t].key == k
      ensures s'.table.timers[t].state.Cancelled? || s'.table.timers[t].state.Finished?
    {
      assert !Stale(s, k, t);
    }
    hide Watched, NoneLost, TakenInOrder;
  }

  lemma OwnTimerKept(s: State, ev: Event, k: string, n: nat, own: nat)
    requires OwnTimerOnly(s, k, n, own) && Enabled(s, ev)
    ensures OwnTimerOnly(Next(s, ev), k, n, own)
  {
    var s' := Next(s, ev);
    assert forall i | 0 <= i < |s.taken| :: s'.taken[i] == s.taken[i];
    forall i | 0 <= i < |s'.taken| && s'.taken[i].number == n
      ensures s'.taken[i].timer == own
    {
      assert i < |s.taken| && s.taken[i].timer != own ==> TakenByOther(s, n, own);
    }
  }

  lemma {:induction false} OwnTimerForGood(evs: seq<Event>, more: seq<Event>, k: string, n: nat, own: nat)
    requires OwnTimerOnly(Run(evs), k, n, own)
    ensures OwnTimerOnly(Run(evs + more), k, n, own)
  {
    hide *;
    if more == [] {
      assert evs + more == evs;
    } else {
      var init, ev := more[..|more| - 1], more[|more| - 1];
      OwnTimerForGood(evs, init, k, n, own);
      assert evs + more == (evs + init) + [ev];
      RunSnoc(evs + init, ev);
      if Enabled(Run(evs + init), ev) {
        OwnTimerKept(Run(evs + init), ev, k, n, own);
      }
    }
  }

  lemma OwnTimerExcludesOther(s: State, k: string, n: nat, own: nat)
    requires OwnTimerOnly(s, k, n, own)
    ensures !TakenByOther(s, n, own)
  {
  }

  /** A stale timer takes the message submitted next for its key. */
  lemma StaleTakes(s: State, k: string, body: string, t: nat) returns (fired: State)
    requires !s.table.stopped && Stale(s, k, t)
    ensures var s1 := Next(s, Submit(k, body));
            && (fired == s1 || (Enabled(s1, Fire(t)) && fired == Next(s1, Fire(t))))
            && (fired == s1 <==> s.table.timers[t].state.Fired?)
            && Enabled(fired, Flush(t))
            && TakenByOther(Next(fired, Flush(t)), |s.submitted|, |s.table.timers|)
  {
    var s1 := Next(s, Submit(k, body));
    fired := if s.table.timers[t].state.Fired? then s1 else Next(s1, Fire(t));
    var s2 := Next(fired, Flush(t));
    assert s2.taken[|s.taken|] == Take(k, body, |s.submitted|, t, |s.submitted| + 1);
  }

  lemma StaleTakesInRun(evs: seq<Event>, k: string, body: string, t: nat)
    requires !Run(evs).table.stopped && Stale(Run(evs), k, t)
    ensures MayBeTakenEarly(evs, k, body)
  {
    var s := Run(evs);
    var start := evs + [Submit(k, body)];
    assert Enabled(s, Submit(k, body));
    var fired := StaleTakes(s, k, body, t);
    hide *;
    RunSnoc(evs, Submit(k, body));
    var more := [];
    assert start + more == start;
    if fired != Run(start) {
      RunSnoc(start, Fire(t));
      more := [Fire(t)];
    }
    RunSnoc(start + more, Flush(t));
    assert start + more + [Flush(t)] == start + (more + [Flush(t)]);
    TakenEarlyBy(evs, k, body, more + [Flush(t)]);
  }

  lemma TakenEarlyBy(evs: seq<Event>, k: string, body: string, more: seq<Event>)
    requires TakenByOther(Run(evs + [Submit(k, body)] + more), |Run(evs).submitted|, |Run(evs).table.timers|)
    ensures MayBeTakenEarly(evs, k, body)
  {
  }

  /** Exactly when a message can be delivered before its own timer has run out: when, at its
      submission, some timer of its key has fired but not flushed, or is armed without being
      the timer of the stored entry. Otherwise only its own timer ever takes it, in every
      continuation. */
  lemma EarlyDeliveryIsExact(evs: seq<Event>, k: string, body: string)
    requires !Run(evs).table.stopped
    ensures MayBeTakenEarly(evs, k, body) <==> HasStale(Run(evs), k)
  {
    var s := Run(evs);
    if HasStale(s, k) {
      var t: nat :| Stale(s, k, t);
      StaleTakesInRun(evs, k, body, t);
    } else {
      RunInv(evs);
      RunSnoc(evs, Submit(k, body));
      SubmittedAlone(s, k, body);
      assert Enabled(s, Submit(k, body));
      hide Next, Enabled, Run, HasStale, Inv, TakenByOther;
      var start := evs + [Submit(k, body)];
      forall more: seq<Event>
        ensures !TakenByOther(Run(start + more), |s.submitted|, |s.table.timers|)
      {
        OwnTimerForGood(start, more, k, |s.submitted|, |s.table.timers|);
        OwnTimerExcludesOther(Run(start + more), k, |s.submitted|, |s.table.timers|);
      }
    }
  }

  /** The state after a stale timer has taken the second of two submissions. */
  function AfterStaleTake(key: string, a: string, b: string): State {
    State(Table(map[], [Timer(key, Finished)] + [Timer(key, Armed)], false),
          [Submission(key, a)] + [Submission(key, b)], [Take(key, b, 1, 0, 2)])
  }

  lemma StaleTakeReaches(key: string, a: string, b: string)
    ensures Run([Submit(key, a)] + [Fire(0)] + [Submit(key, b)] + [Flush(0)]) == AfterStaleTake(key, a, b)
  {
    var e1 := [Submit(key, a)];
    assert e1[..0] == [];
    assert Run(e1) == Next(START, Submit(key, a));
    hide Run;
    RunSnoc(e1, Fire(0));
    RunSnoc(e1 + [Fire(0)], Submit(key, b));
    RunSnoc(e1 + [Fire(0)] + [Submit(key, b)], Flush(0));
  }

  /** The first way: a timer that fired before a resubmission takes the newer
      message, although that message's own timer is still armed. */
  lemma StaleTimerTakesNewer(key: string, a: string, b: string)
    ensures var s := Run([Submit(key, a)] + [Fire(0)] + [Submit(key, b)] + [Flush(0)]);
            s.taken == [Take(key, b, 1, 0, 2)] && |s.table.timers| == 2 && s.table.timers[1] == Timer(key, Armed)
  {
    StaleTakeReaches(key, a, b);
  }

  /** The second way: taking a newer message leaves that message's timer armed without an entry,
      and it takes the next submission, although no timer had fired when that was made. */
  lemma OrphanTimerTakesNewer(key: string, a: string, b: string, c: string)
    ensures var before := [Submit(key, a)] + [Fire(0)] + [Submit(key, b)] + [Flush(0)];
            && key !in Run(before).table.entries
            && (forall t | 0 <= t < |Run(before).table.timers| :: !Run(before).table.timers[t].state.Fired?)
            && var s := Run(before + [Submit(key, c)] + [Fire(1)] + [Flush(1)]);
            && s.taken == [Take(key, b, 1, 0, 2)] + [Take(key, c, 2, 1, 3)]
            && |s.table.timers| == 3 && s.table.timers[2] == Timer(key, Armed)
  {
    hide Run;
    var before := [Submit(key, a)] + [Fire(0)] + [Submit(key, b)] + [Flush(0)];
    StaleTakeReaches(key, a, b);
    RunSnoc(before, Submit(key, c));
    RunSnoc(before + [Submit(key, c)], Fire(1));
    RunSnoc(before + [Submit(key, c)] + [Fire(1)], Flush(1));
  }
}
