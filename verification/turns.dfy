/** The agent loop's turn numbers: a counter per session, seeded from the manifest on first
    use, shared by concurrent turns and lost on a restart. */
module Turns {
  import opened Manifest

  /** Where a turn stands between asking for a number and the end of its Begin. */
  datatype Phase =
    | Loading
    | Reading
    | Storing(seed: int)
    | Adding
    | Allocated(turn: int)
    | Submitted(turn: int)
    | Finished(recorded: bool)

  datatype Turn = Turn(session: string, phase: Phase)

  /** Since the last restart: `handed` lists, per session, the numbers handed out, `seeds` where
      its counter started, and `failed` the sessions for which a MaxTurn lookup failed; the first
      `inherited` traces were recorded before. */
  datatype State = State(
    tables: Tables,
    counters: map<string, int>,
    turns: map<nat, Turn>,
    handed: map<string, seq<int>>,
    seeds: map<string, int>,
    failed: set<string>,
    inherited: nat)

  const START := State(NO_ROWS, map[], map[], map[], map[], {}, 0)

  datatype Step =
    | StartTurn(c: nat, session: string)
    | Load(c: nat)
    | ReadMax(c: nat, ok: bool)
    | LoadOrStore(c: nat)
    | Add(c: nat)
    | Submit(c: nat)
    | GiveUp(c: nat)
    | ExecuteBegin(c: nat, generated: string, payload: string, hashed: bool, fault: bool)
    | Restart

  predicate Enabled(s: State, a: Step) {
    match a
    case StartTurn(c, _) => c !in s.turns
    case Load(c) => c in s.turns && s.turns[c].phase.Loading?
    case ReadMax(c, ok) => c in s.turns && s.turns[c].phase.Reading? && (s.turns[c].session == "" ==> !ok)
    case LoadOrStore(c) => c in s.turns && s.turns[c].phase.Storing?
    case Add(c) => c in s.turns && s.turns[c].phase.Adding? && s.turns[c].session in s.counters
    case Submit(c) => c in s.turns && s.turns[c].phase.Allocated?
    case GiveUp(c) => c in s.turns && s.turns[c].phase.Allocated?
    // trace identifiers are generated, and new
    case ExecuteBegin(c, g, _, _, _) => c in s.turns && s.turns[c].phase.Submitted? && !HasTrace(s.tables, g)
    case Restart => true
  }

  function Moved(s: State, c: nat, p: Phase): map<nat, Turn>
    requires c in s.turns
  {
    s.turns[c := s.turns[c].(phase := p)]
  }

  function HandedTo(s: State, session: string): seq<int> {
    if session in s.handed then s.handed[session] else []
  }

  function BeginOp(s: State, c: nat, generated: string, payload: string, hashed: bool, fault: bool): Op
    requires c in s.turns && s.turns[c].phase.Submitted?
  {
    Begin(Trace("", s.turns[c].session, s.turns[c].phase.turn, payload), hashed, generated, fault)
  }

  function Next(s: State, a: Step): State
    requires Enabled(s, a)
  {
    match a
    case StartTurn(c, session) => s.(turns := s.turns[c := Turn(session, Loading)])
    case Load(c) => s.(turns := Moved(s, c, if s.turns[c].session in s.counters then Adding else Reading))
    case ReadMax(c, ok) =>
      var seed := if ok then MaxTurnOf(s.tables.traces, s.turns[c].session) else 0;
      s.(turns := Moved(s, c, Storing(seed)), failed := if ok then s.failed else s.failed + {s.turns[c].session})
    case LoadOrStore(c) =>
      var session := s.turns[c].session;
      var seed := s.turns[c].phase.seed;
      s.(turns := Moved(s, c, Adding),
         counters := if session in s.counters then s.counters else s.counters[session := seed],
         seeds := if session in s.counters then s.seeds else s.seeds[session := seed])
    case Add(c) =>
      var session := s.turns[c].session;
      var n := s.counters[session] + 1;
      s.(turns := Moved(s, c, Allocated(n)), counters := s.counters[session := n],
         handed := s.handed[session := HandedTo(s, session) + [n]])
    case Submit(c) => s.(turns := Moved(s, c, Submitted(s.turns[c].phase.turn)))
    case GiveUp(c) => s.(turns := Moved(s, c, Finished(false)))
    case ExecuteBegin(c, g, payload, hashed, fault) =>
      var (t, r) := Handle(s.tables, BeginOp(s, c, g, payload, hashed, fault));
      s.(tables := t, turns := Moved(s, c, Finished(r.Ok?)))
    case Restart => State(s.tables, map[], map[], map[], map[], {}, |s.tables.traces|)
  }

  function Run(steps: seq<Step>): State {
    if steps == [] then START else
    var s := Run(steps[..|steps| - 1]);
    if Enabled(s, steps[|steps| - 1]) then Next(s, steps[|steps| - 1]) else s
  }
}

/** No number is handed out twice, and which Begins collide with a recorded turn. */
module TurnTheorems {
  import opened Manifest
  import opened ManifestTheorems
  import opened Turns

  /** The numbers `first`, `first + 1`, and so on. */
  predicate Consecutive(ns: seq<int>, first: int) { forall i | 0 <= i < |ns| :: ns[i] == first + i }

  /** The counter of a session has counted its numbers from its seed. */
  predicate CountedTo(s: State, session: string) {
    if session in s.counters && session in s.seeds
    then s.seeds[session] >= 0 && Consecutive(HandedTo(s, session), s.seeds[session] + 1)
         && s.counters[session] == s.seeds[session] + |HandedTo(s, session)|
    else session !in s.counters && session !in s.seeds && HandedTo(s, session) == []
  }

  ghost predicate Counted(s: State) {
    forall session: string :: CountedTo(s, session)
  }

  /** A number that is allocated but whose row is not yet written. */
  predicate Holds(s: State, c: nat, n: int) {
    c in s.turns && (s.turns[c].phase == Allocated(n) || s.turns[c].phase == Submitted(n))
  }

  /** Turns waiting to add have a counter to add to, and seeds are not negative. */
  predicate AddersSeeded(s: State) {
    && (forall c | c in s.turns && s.turns[c].phase.Adding? :: s.turns[c].session in s.counters)
    && (forall c | c in s.turns && s.turns[c].phase.Storing? :: s.turns[c].phase.seed >= 0)
  }

  /** Number `n` has been counted for the session. */
  predicate Reached(s: State, session: string, n: int) {
    session in s.counters && session in s.seeds && s.seeds[session] < n <= s.counters[session]
  }

  /** Held numbers have been counted and differ from each other. */
  ghost predicate HeldApart(s: State) {
    && (forall c, n | Holds(s, c, n) :: Reached(s, s.turns[c].session, n))
    && (forall c, d, n | Holds(s, c, n) && Holds(s, d, n) && s.turns[c].session == s.turns[d].session :: c == d)
  }

  /** Row `i` was written by this process. */
  predicate IsOwn(s: State, i: int) { s.inherited <= i < |s.tables.traces| }

  /** A row of this process recorded number `n` of the session. */
  ghost predicate OwnTurn(s: State, session: string, n: int) {
    exists i :: IsOwn(s, i) && s.tables.traces[i].sessionId == session && s.tables.traces[i].turn == n
  }

  /** The number was recorded for the session before the last restart. */
  ghost predicate Inherited(s: State, session: string, n: int)
    requires s.inherited <= |s.tables.traces|
  {
    exists i :: 0 <= i < s.inherited && s.tables.traces[i].sessionId == session && s.tables.traces[i].turn == n
  }

  /** The rows of this process are covered by its counters, and held numbers are not among them,
      whether or not lookups failed. */
  ghost predicate OwnCovered(s: State) {
    && s.inherited <= |s.tables.traces|
    && (forall i | IsOwn(s, i) :: s.tables.traces[i].sessionId in s.counters
                                  && s.tables.traces[i].turn <= s.counters[s.tables.traces[i].sessionId])
    && (forall c, n | Holds(s, c, n) :: !OwnTurn(s, s.turns[c].session, n))
  }

  /** Without a failed lookup for its session, a seed covers every turn recorded before. */
  ghost predicate SeedsCover(s: State) {
    && (forall i, session | 0 <= i < s.inherited && i < |s.tables.traces| && s.tables.traces[i].sessionId == session
          && session in s.seeds && session !in s.failed :: s.tables.traces[i].turn <= s.seeds[session])
    && (forall i, c | 0 <= i < s.inherited && i < |s.tables.traces| && c in s.turns && s.turns[c].phase.Storing?
          && s.turns[c].session !in s.failed && s.tables.traces[i].sessionId == s.turns[c].session ::
          s.tables.traces[i].turn <= s.turns[c].phase.seed)
  }

  ghost predicate Inv(s: State) {
    Counted(s) && AddersSeeded(s) && HeldApart(s) && OwnCovered(s) && SeedsCover(s)
  }

  // ---- The invariants are kept ---------------------------------------------

  /** A step counts on, forgets everything, starts a counter, or leaves a session's numbers alone. */
  lemma NumbersChange(s: State, a: Step, session: string)
    requires Enabled(s, a)
    ensures var s' := Next(s, a);
            || (session !in s'.counters && session !in s'.seeds && HandedTo(s', session) == [])
            || (HandedTo(s', session) == HandedTo(s, session)
                && (session in s.counters <==> session in s'.counters) && (session in s.seeds <==> session in s'.seeds)
                && (session in s.counters ==> s'.counters[session] == s.counters[session])
                && (session in s.seeds ==> s'.seeds[session] == s.seeds[session]))
            || (a.LoadOrStore? && s.turns[a.c].session == session && session !in s.counters
                && session in s'.counters && session in s'.seeds && HandedTo(s', session) == HandedTo(s, session)
                && s'.counters[session] == s'.seeds[session] == s.turns[a.c].phase.seed)
            || (session in s.counters && session in s'.counters && s'.counters[session] == s.counters[session] + 1
                && HandedTo(s', session) == HandedTo(s, session) + [s'.counters[session]]
                && (session in s.seeds <==> session in s'.seeds)
                && (session in s.seeds ==> s'.seeds[session] == s.seeds[session]))
  {
    hide MaxTurnOf, Handle;
  }

  lemma CountedKept(s: State, a: Step)
    requires Counted(s) && AddersSeeded(s) && Enabled(s, a)
    ensures Counted(Next(s, a))
  {
    var s' := Next(s, a);
    hide Next, Enabled, HandedTo;
    forall session: string
      ensures CountedTo(s', session)
    {
      assert CountedTo(s, session);
      NumbersChange(s, a, session);
    }
  }

  lemma AddersKept(s: State, a: Step)
    requires AddersSeeded(s) && Enabled(s, a)
    ensures AddersSeeded(Next(s, a))
  {
    if a.ReadMax? {
      MaxTurnIsMaximum(s.tables, s.turns[a.c].session);
    }
    hide MaxTurnOf, Handle;
  }

  /** A held number was held before, or has just been counted. */
  lemma HeldSince(s: State, a: Step, c: nat, n: int)
    requires Enabled(s, a) && Holds(Next(s, a), c, n)
    ensures var s' := Next(s, a);
            || (Holds(s, c, n) && !a.Restart? && s'.turns[c].session == s.turns[c].session)
            || (a == Add(c) && s'.turns[c].session == s.turns[c].session
                && s.turns[c].session in s.counters && n == s.counters[s.turns[c].session] + 1)
  {
    hide MaxTurnOf, Handle;
  }

  lemma CountersGrow(s: State, a: Step)
    requires Enabled(s, a) && !a.Restart?
    ensures forall session | session in s.counters ::
              session in Next(s, a).counters
              && Next(s, a).counters[session] == s.counters[session] + (if a.Add? && s.turns[a.c].session == session then 1 else 0)
  {
    hide MaxTurnOf, Handle;
  }

  lemma ReachedStays(s: State, a: Step, session: string, n: int)
    requires Enabled(s, a) && !a.Restart? && Reached(s, session, n)
    ensures Reached(Next(s, a), session, n)
  {
    hide MaxTurnOf, Handle;
  }

  lemma NewNumberReached(s: State, c: nat)
    requires Counted(s) && Enabled(s, Add(c))
    ensures var session := s.turns[c].session;
            Reached(Next(s, Add(c)), session, s.counters[session] + 1) && !Reached(s, session, s.counters[session] + 1)
  {
    assert CountedTo(s, s.turns[c].session);
  }

  lemma HeldKept(s: State, a: Step)
    requires HeldApart(s) && Counted(s) && Enabled(s, a)
    ensures HeldApart(Next(s, a))
  {
    var s' := Next(s, a);
    if a.Restart? {
    } else {
      if a.Add? {
        NewNumberReached(s, a.c);
      }
      hide Next, Enabled, Holds, Reached, Counted;
      forall c, n | Holds(s', c, n)
        ensures Reached(s', s'.turns[c].session, n)
      {
        HeldSince(s, a, c, n);
        if Holds(s, c, n) {
          ReachedStays(s, a, s.turns[c].session, n);
        }
      }
      forall c, d, n | Holds(s', c, n) && Holds(s', d, n) && s'.turns[c].session == s'.turns[d].session
        ensures c == d
      {
        HeldSince(s, a, c, n);
        HeldSince(s, a, d, n);
      }
    }
  }

  /** A step leaves the rows alone, except a Begin, which adds the number it holds. */
  lemma RowsChange(s: State, a: Step)
    requires Enabled(s, a) && s.inherited <= |s.tables.traces|
    ensures var t, t' := s.tables.traces, Next(s, a).tables.traces;
            || t' == t
            || (a.ExecuteBegin? && |t'| == |t| + 1 && t == t'[..|t|]
                && t'[|t|].sessionId == s.turns[a.c].session && t'[|t|].turn == s.turns[a.c].phase.turn)
    ensures Next(s, a).inherited == if a.Restart? then |s.tables.traces| else s.inherited
  {
    hide MaxTurnOf;
  }

  lemma OwnTurnSince(s: State, a: Step, session: string, n: int)
    requires Enabled(s, a) && !a.Restart? && s.inherited <= |s.tables.traces|
    ensures OwnTurn(Next(s, a), session, n)
            ==> OwnTurn(s, session, n)
                || (a.ExecuteBegin? && session == s.turns[a.c].session && n == s.turns[a.c].phase.turn)
  {
    RowsChange(s, a);
    hide Next, Enabled;
    if OwnTurn(Next(s, a), session, n) {
      var i :| IsOwn(Next(s, a), i) && Next(s, a).tables.traces[i].sessionId == session
               && Next(s, a).tables.traces[i].turn == n;
      if i < |s.tables.traces| {
        assert IsOwn(s, i);
      }
    }
  }

  lemma OwnRowsCovered(s: State, a: Step)
    requires OwnCovered(s) && HeldApart(s) && Enabled(s, a) && !a.Restart?
    ensures var s' := Next(s, a);
            forall i | IsOwn(s', i) :: s'.tables.traces[i].sessionId in s'.counters
                                       && s'.tables.traces[i].turn <= s'.counters[s'.tables.traces[i].sessionId]
  {
    var s' := Next(s, a);
    assert a.ExecuteBegin? ==> Holds(s, a.c, s.turns[a.c].phase.turn);
    RowsChange(s, a);
    CountersGrow(s, a);
    hide Next, Enabled, Holds;
    forall i | IsOwn(s', i)
      ensures s'.tables.traces[i].sessionId in s'.counters
              && s'.tables.traces[i].turn <= s'.counters[s'.tables.traces[i].sessionId]
    {
      if i < |s.tables.traces| {
        assert IsOwn(s, i);
      }
    }
  }

  lemma OwnCoveredKept(s: State, a: Step)
    requires OwnCovered(s) && HeldApart(s) && Enabled(s, a)
    ensures OwnCovered(Next(s, a))
  {
    var s' := Next(s, a);
    RowsChange(s, a);
    if a.Restart? {
      assert forall c, n :: !Holds(s', c, n);
    } else {
      OwnRowsCovered(s, a);
      assert a.ExecuteBegin? ==> Holds(s, a.c, s.turns[a.c].phase.turn) && !Holds(s', a.c, s.turns[a.c].phase.turn);
      hide Next, Enabled, Holds, OwnTurn;
      forall c, n | Holds(s', c, n)
        ensures !OwnTurn(s', s'.turns[c].session, n)
      {
        HeldSince(s, a, c, n);
        OwnTurnSince(s, a, s'.turns[c].session, n);
        OwnNumbersCounted(s, s'.turns[c].session, n);
      }
    }
  }

  lemma OwnNumbersCounted(s: State, session: string, n: int)
    requires OwnCovered(s)
    ensures OwnTurn(s, session, n) ==> session in s.counters && n <= s.counters[session]
  {
  }

  lemma SeedsKept(s: State, a: Step)
    requires SeedsCover(s) && OwnCovered(s) && HeldApart(s) && Enabled(s, a)
    ensures SeedsCover(Next(s, a))
  {
    RowsChange(s, a);
    if a.ReadMax? {
      MaxTurnIsMaximum(s.tables, s.turns[a.c].session);
    }
    hide MaxTurnOf, Handle, HeldApart, OwnTurn, Holds;
    var s' := Next(s, a);
    if !a.Restart? {
      assert forall i | 0 <= i < s.inherited :: s'.tables.traces[i] == s.tables.traces[i];
    }
  }

  lemma {:induction false} RunInv(steps: seq<Step>)
    ensures Inv(Run(steps))
  {
    if steps == [] {
      assert forall c, n :: !Holds(START, c, n);
    } else {
      var s, a := Run(steps[..|steps| - 1]), steps[|steps| - 1];
      RunInv(steps[..|steps| - 1]);
      hide Counted, AddersSeeded, HeldApart, OwnCovered, SeedsCover, Next, Enabled;
      if Enabled(s, a) {
        CountedKept(s, a);
        AddersKept(s, a);
        HeldKept(s, a);
        OwnCoveredKept(s, a);
        SeedsKept(s, a);
      }
    }
  }

  // ---- Main results --------------------------------------------------------

  predicate Increasing(ns: seq<int>) { forall i, j | 0 <= i < j < |ns| :: ns[i] < ns[j] }

  /** Within one process the numbers of a session increase, and count up by one from its seed,
      under every interleaving and whether or not a lookup failed. */
  lemma NumbersIncrease(steps: seq<Step>, session: string)
    ensures var s := Run(steps);
            && Increasing(HandedTo(s, session))
            && (HandedTo(s, session) != [] ==>
                  && session in s.seeds && session in s.counters && s.seeds[session] >= 0
                  && Consecutive(HandedTo(s, session), s.seeds[session] + 1)
                  && s.counters[session] == s.seeds[session] + |HandedTo(s, session)|)
  {
    RunInv(steps);
    hide Run;
    assert CountedTo(Run(steps), session);
  }

  // ---- Where the numbers of a session start --------------------------------

  /** The seed is the largest turn recorded before the last restart, or 0 after a failed lookup. */
  predicate SeedFor(s: State, session: string, seed: int)
    requires s.inherited <= |s.tables.traces|
  {
    seed == MaxTurnOf(s.tables.traces[..s.inherited], session) || (seed == 0 && session in s.failed)
  }

  /** Counters were seeded right, and so will those be that a turn is about to store. */
  ghost predicate SeedsRight(s: State) {
    && s.inherited <= |s.tables.traces|
    && (forall session | session in s.seeds :: SeedFor(s, session, s.seeds[session]))
    && (forall c | c in s.turns && s.turns[c].phase.Storing? && s.turns[c].session !in s.counters ::
          SeedFor(s, s.turns[c].session, s.turns[c].phase.seed))
  }

  lemma {:induction false} MaxTurnIgnoresOthers(rows: seq<Trace>, n: nat, session: string)
    requires n <= |rows| && forall i | n <= i < |rows| :: rows[i].sessionId != session
    ensures MaxTurnOf(rows, session) == MaxTurnOf(rows[..n], session)
  {
    if n < |rows| {
      MaxTurnIgnoresOthers(rows[..|rows| - 1], n, session);
      assert rows[..|rows| - 1][..n] == rows[..n];
    } else {
      assert rows[..n] == rows;
    }
  }

  /** Before its session has a counter, a lookup finds what was recorded before the restart. */
  lemma LookupFindsInherited(s: State, session: string)
    requires OwnCovered(s) && session !in s.counters
    ensures MaxTurnOf(s.tables.traces, session) == MaxTurnOf(s.tables.traces[..s.inherited], session)
  {
    forall i | s.inherited <= i < |s.tables.traces|
      ensures s.tables.traces[i].sessionId != session
    {
      assert IsOwn(s, i);
    }
    MaxTurnIgnoresOthers(s.tables.traces, s.inherited, session);
  }

  lemma InheritedStays(s: State, a: Step)
    requires Enabled(s, a) && s.inherited <= |s.tables.traces| && !a.Restart?
    ensures var s' := Next(s, a);
            && s'.inherited == s.inherited <= |s'.tables.traces| && s.failed <= s'.failed
            && s'.tables.traces[..s.inherited] == s.tables.traces[..s.inherited]
  {
    RowsChange(s, a);
    hide MaxTurnOf, Handle;
    var t, t' := s.tables.traces, Next(s, a).tables.traces;
    assert t' == t || t'[..|t|][..s.inherited] == t'[..s.inherited];
  }

  lemma SeedStays(s: State, a: Step, session: string, seed: int)
    requires Enabled(s, a) && s.inherited <= |s.tables.traces| && !a.Restart? && SeedFor(s, session, seed)
    ensures Next(s, a).inherited <= |Next(s, a).tables.traces| && SeedFor(Next(s, a), session, seed)
  {
    InheritedStays(s, a);
    hide MaxTurnOf, Next, Enabled;
  }

  /** A stored seed, or one about to be stored, was there before or has just been looked up. */
  lemma SeedsSince(s: State, a: Step)
    requires Enabled(s, a) && !a.Restart?
    ensures var s' := Next(s, a);
            && (forall session | session in s'.seeds ::
                  || (session in s.seeds && s'.seeds[session] == s.seeds[session])
                  || (a.LoadOrStore? && s.turns[a.c].session == session && session !in s.counters
                      && s'.seeds[session] == s.turns[a.c].phase.seed))
            && (forall c | c in s'.turns && s'.turns[c].phase.Storing? && s'.turns[c].session !in s'.counters ::
                  || (c in s.turns && s.turns[c] == s'.turns[c] && s.turns[c].session !in s.counters)
                  || (a.ReadMax? && a.c == c && s.turns[c].session == s'.turns[c].session && s.turns[c].session !in s.counters
                      && (a.ok ==> s'.turns[c].phase.seed == MaxTurnOf(s.tables.traces, s.turns[c].session))
                      && (!a.ok ==> s'.turns[c].phase.seed == 0 && s.turns[c].session in s'.failed)))
  {
    hide MaxTurnOf, Handle;
  }

  lemma SeedsRightKept(s: State, a: Step)
    requires SeedsRight(s) && OwnCovered(s) && Enabled(s, a)
    ensures SeedsRight(Next(s, a))
  {
    var s' := Next(s, a);
    if a.Restart? {
    } else {
      InheritedStays(s, a);
      SeedsSince(s, a);
      if a.ReadMax? && s.turns[a.c].session !in s.counters {
        LookupFindsInherited(s, s.turns[a.c].session);
      }
      assert a.LoadOrStore? ==> a.c in s.turns && s.turns[a.c].phase.Storing?;
      hide Next, Enabled, OwnCovered, MaxTurnOf;
      forall session | session in s'.seeds
        ensures SeedFor(s', session, s'.seeds[session])
      {
        SeedStaysIf(s, a, session, s'.seeds[session]);
      }
      forall c | c in s'.turns && s'.turns[c].phase.Storing? && s'.turns[c].session !in s'.counters
        ensures SeedFor(s', s'.turns[c].session, s'.turns[c].phase.seed)
      {
        SeedStaysIf(s, a, s'.turns[c].session, s'.turns[c].phase.seed);
      }
    }
  }

  lemma SeedStaysIf(s: State, a: Step, session: string, seed: int)
    requires Enabled(s, a) && s.inherited <= |s.tables.traces| && !a.Restart?
    ensures Next(s, a).inherited <= |Next(s, a).tables.traces|
    ensures SeedFor(s, session, seed) ==> SeedFor(Next(s, a), session, seed)
  {
    InheritedStays(s, a);
    if SeedFor(s, session, seed) {
      SeedStays(s, a, session, seed);
    }
  }

  lemma {:induction false} RunSeedsRight(steps: seq<Step>)
    ensures SeedsRight(Run(steps))
  {
    if steps != [] {
      var s, a := Run(steps[..|steps| - 1]), steps[|steps| - 1];
      RunSeedsRight(steps[..|steps| - 1]);
      RunInv(steps[..|steps| - 1]);
      hide Counted, AddersSeeded, HeldApart, OwnCovered, SeedsCover, SeedsRight, Next, Enabled;
      if Enabled(s, a) {
        SeedsRightKept(s, a);
      }
    }
  }

  /** Numbering goes on exactly where the record ends: the first number of a session in a
      process is one more than its largest turn recorded before, and only a failed lookup of
      that session can make it start from 1 again. */
  lemma NumbersContinueRecord(steps: seq<Step>, session: string)
    requires HandedTo(Run(steps), session) != []
    ensures var s := Run(steps);
            && s.inherited <= |s.tables.traces|
            && var recorded := MaxTurnOf(s.tables.traces[..s.inherited], session);
            && (HandedTo(s, session)[0] == recorded + 1 || (HandedTo(s, session)[0] == 1 && session in s.failed))
            && (session !in s.failed ==> Consecutive(HandedTo(s, session), recorded + 1))
  {
    RunSeedsRight(steps);
    NumbersIncrease(steps, session);
    hide Run, MaxTurnOf, HandedTo;
  }

  /** As long as no lookup for its session has failed, a new number exceeds every turn recorded
      for the session, whatever happened to other sessions. */
  lemma NewNumberExceedsRecorded(steps: seq<Step>, c: nat)
    requires Enabled(Run(steps), Add(c)) && Run(steps).turns[c].session !in Run(steps).failed
    ensures var s := Run(steps);
            var n := s.counters[s.turns[c].session] + 1;
            && Next(s, Add(c)).turns[c].phase == Allocated(n)
            && n >= 1
            && n > MaxTurnOf(s.tables.traces, s.turns[c].session)
            && (forall i | 0 <= i < |s.tables.traces| && s.tables.traces[i].sessionId == s.turns[c].session ::
                  s.tables.traces[i].turn < n)
  {
    RunInv(steps);
    var s := Run(steps);
    hide Run;
    var session := s.turns[c].session;
    assert CountedTo(s, session);
    forall i | 0 <= i < |s.tables.traces| && s.tables.traces[i].sessionId == session
      ensures s.tables.traces[i].turn <= s.counters[session]
    {
      assert i >= s.inherited ==> IsOwn(s, i);
    }
    MaxTurnIsMaximum(s.tables, session);
    hide MaxTurnOf, Counted, SeedsCover, OwnCovered;
    if HasTurn(s.tables, session, MaxTurnOf(s.tables.traces, session)) {
      var i :| 0 <= i < |s.tables.traces| && s.tables.traces[i].sessionId == session
               && s.tables.traces[i].turn == MaxTurnOf(s.tables.traces, session);
    }
  }

  /** Over every run, with or without failed lookups: a Begin is rejected as already recorded
      exactly when its number was recorded for its session before the last restart. */
  lemma CollisionIsExact(steps: seq<Step>, a: Step)
    requires a.ExecuteBegin? && Enabled(Run(steps), a) && a.hashed && !a.fault
    requires Run(steps).turns[a.c].session != ""
    ensures var s := Run(steps);
            var session, n := s.turns[a.c].session, s.turns[a.c].phase.turn;
            var (t, r) := Handle(s.tables, BeginOp(s, a.c, a.generated, a.payload, a.hashed, a.fault));
            && s.inherited <= |s.tables.traces|
            && (r == Err(TraceAlreadyRecorded) <==> Inherited(s, session, n))
            && (r == Ok(a.generated) <==> !Inherited(s, session, n))
  {
    RunInv(steps);
    var s := Run(steps);
    hide Run;
    var session, n := s.turns[a.c].session, s.turns[a.c].phase.turn;
    assert Holds(s, a.c, n);
    assert CountedTo(s, session) && Reached(s, session, n);
    assert !OwnTurn(s, session, n);
    TurnIsOwnOrInherited(s, session, n);
    hide Counted, HeldApart, SeedsCover, OwnCovered, OwnTurn;
  }

  lemma TurnIsOwnOrInherited(s: State, session: string, n: int)
    requires s.inherited <= |s.tables.traces|
    ensures HasTurn(s.tables, session, n) <==> OwnTurn(s, session, n) || Inherited(s, session, n)
  {
    if HasTurn(s.tables, session, n) {
      var i :| 0 <= i < |s.tables.traces| && s.tables.traces[i].sessionId == session && s.tables.traces[i].turn == n;
      assert i >= s.inherited ==> IsOwn(s, i);
    }
  }

  /** As long as no lookup for its session has failed, no Begin is rejected as already recorded,
      across any number of restarts, concurrent turns and failures of other sessions. */
  lemma BeginNeverCollides(steps: seq<Step>, a: Step)
    requires a.ExecuteBegin? && Enabled(Run(steps), a) && Run(steps).turns[a.c].session !in Run(steps).failed
    ensures var s := Run(steps);
            var (t, r) := Handle(s.tables, BeginOp(s, a.c, a.generated, a.payload, a.hashed, a.fault));
            && r != Err(TraceAlreadyRecorded)
            && (s.turns[a.c].session != "" && a.hashed && !a.fault ==> r == Ok(a.generated))
  {
    RunInv(steps);
    var s := Run(steps);
    hide Run;
    var session, n := s.turns[a.c].session, s.turns[a.c].phase.turn;
    assert Holds(s, a.c, n);
    TurnIsOwnOrInherited(s, session, n);
    assert CountedTo(s, session) && Reached(s, session, n);
    assert !OwnTurn(s, session, n);
    HeldExceedsInherited(s, session, n);
    hide Counted, HeldApart, SeedsCover, OwnCovered, OwnTurn, Inherited;
  }

  lemma HeldExceedsInherited(s: State, session: string, n: int)
    requires SeedsCover(s) && s.inherited <= |s.tables.traces| && Reached(s, session, n) && session !in s.failed
    ensures !Inherited(s, session, n)
  {
  }

  /** A failed lookup matters: the turn that seeds its session after one gets number 1, and its
      Begin is rejected exactly when the session already has a turn 1. */
  lemma FailedSeedCollides(s: State, c: nat, session: string, generated: string, payload: string)
    requires c !in s.turns && session !in s.counters && session != "" && !HasTrace(s.tables, generated)
    ensures var s1 := Next(s, StartTurn(c, session));
            Enabled(s1, Load(c))
    ensures var s5 := FirstTurn(s, c, session, false);
            && Enabled(s5, ExecuteBegin(c, generated, payload, true, false))
            && s5.turns[c].phase == Submitted(1) && session in s5.failed && s5.seeds[session] == 0
            && (Handle(s5.tables, BeginOp(s5, c, generated, payload, true, false)).1 == Err(TraceAlreadyRecorded)
                <==> HasTurn(s.tables, session, 1))
  {
  }

  /** With a lookup that succeeds the same turn gets the number after the largest recorded one,
      and its Begin is accepted. */
  lemma FirstTurnContinues(s: State, c: nat, session: string, generated: string, payload: string)
    requires c !in s.turns && session !in s.counters && session != "" && !HasTrace(s.tables, generated)
    ensures var s5 := FirstTurn(s, c, session, true);
            var n := MaxTurnOf(s.tables.traces, session) + 1;
            && Enabled(s5, ExecuteBegin(c, generated, payload, true, false))
            && s5.turns[c].phase == Submitted(n) && s5.failed == s.failed && s5.counters[session] == n
            && Handle(s5.tables, BeginOp(s5, c, generated, payload, true, false)).1 == Ok(generated)
  {
    MaxTurnIsMaximum(s.tables, session);
    hide MaxTurnOf;
  }

  /** One turn from start to submission with nothing in between; `ok` tells whether its lookup
      succeeds. */
  function FirstTurn(s: State, c: nat, session: string, ok: bool): State
    requires c !in s.turns && session !in s.counters && session != ""
  {
    var s1 := Next(s, StartTurn(c, session));
    var s2 := Next(s1, Load(c));
    var s3 := Next(s2, ReadMax(c, ok));
    var s4 := Next(s3, LoadOrStore(c));
    Next(Next(s4, Add(c)), Submit(c))
  }
}
