/** The gateway's sliding-window rate limiter: its table as a value, the class that updates
    it, and the bound on granted requests over every run. */
module RateLimit {
  import opened Numbers

  /** Durations and clock readings are in the clock's own ticks. */
  datatype Config = Config(maxAttempts: int, window: int, lockout: int)

  /** A `lockedUntil` of 0 is the zero time, before every clock reading. */
  datatype Entry = Entry(timestamps: seq<int>, lockedUntil: int)

  type Entries = map<string, Entry>

  const FRESH := Entry([], 0)

  function Key(scope: string, ip: string): string { scope + ":" + ip }

  function EntryOf(entries: Entries, key: string): Entry {
    if key in entries then entries[key] else FRESH
  }

  /** The timestamps after `cutoff`. */
  function After(ts: seq<int>, cutoff: int): seq<int> {
    if ts == [] then [] else
    After(ts[..|ts| - 1], cutoff) + if ts[|ts| - 1] > cutoff then [ts[|ts| - 1]] else []
  }

  /** The entry after a request at `now`, and whether the request is granted. */
  function Admit(cfg: Config, e: Entry, now: int): (Entry, bool) {
    if now < e.lockedUntil then (e, false) else
    var kept := After(e.timestamps, now - cfg.window);
    if |kept| >= cfg.maxAttempts then (Entry([], now + cfg.lockout), false)
    else (Entry(kept + [now], e.lockedUntil), true)
  }

  /** Nothing about the entry matters to a later request any more. */
  predicate Stale(cfg: Config, e: Entry, now: int) {
    e.lockedUntil < now && forall i | 0 <= i < |e.timestamps| :: e.timestamps[i] <= now - cfg.window
  }

  function Pruned(cfg: Config, entries: Entries, now: int): Entries {
    map k | k in entries && !Stale(cfg, entries[k], now) :: entries[k]
  }

  class RateLimiter {
    var entries: Entries
    const config: Config

    constructor (cfg: Config)
      ensures entries == map[] && config == cfg
    {
      entries := map[];
      config := cfg;
    }

    /** Grants or refuses a request. Requests from a loopback address are granted and leave
        no trace; whether an address is one is decided outside this model. */
    method Allow(scope: string, ip: string, loopback: bool, now: int) returns (ok: bool)
      modifies this
      ensures loopback ==> ok && entries == old(entries)
      ensures !loopback ==>
                var (e, granted) := Admit(config, EntryOf(old(entries), Key(scope, ip)), now);
                ok == granted && entries == old(entries)[Key(scope, ip) := e]
    {
      if loopback {
        return true;
      }
      var key := Key(scope, ip);
      if key !in entries {
        entries := entries[key := FRESH];
      }
      var e := entries[key];
      if now < e.lockedUntil {
        return false;
      }
      var cutoff := now - config.window;
      var filtered := [];
      for n := 0 to |e.timestamps|
        invariant entries == old(entries)[key := e] && e == EntryOf(old(entries), key)
        invariant filtered == After(e.timestamps[..n], cutoff)
      {
        assert e.timestamps[..n + 1][..n] == e.timestamps[..n];
        if e.timestamps[n] > cutoff {
          filtered := filtered + [e.timestamps[n]];
        }
      }
      assert e.timestamps[..|e.timestamps|] == e.timestamps;
      if |filtered| >= config.maxAttempts {
        entries := entries[key := Entry([], now + config.lockout)];
        return false;
      }
      entries := entries[key := Entry(filtered + [now], e.lockedUntil)];
      return true;
    }

    method HasRecent(ts: seq<int>, cutoff: int) returns (hasRecent: bool)
      ensures hasRecent == exists i :: 0 <= i < |ts| && ts[i] > cutoff
    {
      for n := 0 to |ts|
        invariant forall i | 0 <= i < n :: ts[i] <= cutoff
      {
        if ts[n] > cutoff {
          return true;
        }
      }
      return false;
    }

    method Prune(now: int)
      modifies this
      ensures entries == Pruned(config, old(entries), now)
    {
      var todo := entries.Keys;
      while todo != {}
        invariant todo <= entries.Keys <= old(entries).Keys
        invariant forall k | k in entries :: entries[k] == old(entries)[k]
        invariant forall k | k in todo :: k in entries
        invariant forall k | k in old(entries) && k !in todo :: k in entries <==> !Stale(config, old(entries)[k], now)
        decreases todo
      {
        var key :| key in todo;
        var e := entries[key];
        if now > e.lockedUntil {
          var hasRecent := HasRecent(e.timestamps, now - config.window);
          if !hasRecent {
            entries := entries - {key};
          }
        }
        todo := todo - {key};
      }
    }
  }
}

/** Runs of the limiter, with the grants each key received. */
module RateLimitRuns {
  import opened Numbers
  import opened RateLimit

  datatype Event = Request(key: string, now: int) | PruneTick(now: int)

  /** The limiter's table, the latest clock reading, and per key the times of its grants. */
  datatype World = World(entries: Entries, clock: int, grants: map<string, seq<int>>)

  function GrantsOf(w: World, key: string): seq<int> {
    if key in w.grants then w.grants[key] else []
  }

  function Next(cfg: Config, w: World, ev: Event): World {
    match ev
    case Request(key, now) =>
      var (e, granted) := Admit(cfg, EntryOf(w.entries, key), now);
      World(w.entries[key := e], now,
            if granted then w.grants[key := GrantsOf(w, key) + [now]] else w.grants)
    case PruneTick(now) => World(Pruned(cfg, w.entries, now), now, w.grants)
  }

  const START := World(map[], 0, map[])

  function Run(cfg: Config, evs: seq<Event>): World {
    if evs == [] then START else Next(cfg, Run(cfg, evs[..|evs| - 1]), evs[|evs| - 1])
  }

  /** Clock readings never go back. */
  predicate InOrder(evs: seq<Event>) {
    && (evs != [] ==> evs[0].now >= 0)
    && forall i | 0 < i < |evs| :: evs[i - 1].now <= evs[i].now
  }

  /** How many of the times lie in `[lo, hi)`. */
  function CountIn(ts: seq<int>, lo: int, hi: int): nat {
    if ts == [] then 0 else CountIn(ts[..|ts| - 1], lo, hi) + if lo <= ts[|ts| - 1] < hi then 1 else 0
  }

  /** At most `maxAttempts` of the times lie in the window that starts at `a`. */
  predicate BoundedAt(cfg: Config, ts: seq<int>, a: int) {
    CountIn(ts, a, a + cfg.window) <= Max(cfg.maxAttempts, 0)
  }

  ghost predicate Bounded(cfg: Config, ts: seq<int>) {
    forall a: int :: BoundedAt(cfg, ts, a)
  }

  predicate Sorted(ts: seq<int>) { forall i, j | 0 <= i <= j < |ts| :: ts[i] <= ts[j] }

  /** The entry remembers the latest grants; those it forgot are a window older than any
      request it can still grant. */
  ghost predicate Remembers(cfg: Config, e: Entry, ts: seq<int>, clock: int) {
    var n := |ts| - |e.timestamps|;
    && n >= 0 && e.timestamps == ts[n..]
    && Sorted(ts) && (forall i | 0 <= i < |ts| :: ts[i] <= clock)
    && (forall i | 0 <= i < n :: ts[i] + cfg.window <= Max(clock, e.lockedUntil))
  }

  lemma {:induction false} AfterIsSuffix(ts: seq<int>, cutoff: int)
    requires Sorted(ts)
    ensures var kept := After(ts, cutoff); var n := |ts| - |kept|;
            && n >= 0 && kept == ts[n..] && (forall i | 0 <= i < n :: ts[i] <= cutoff)
  {
    if ts != [] {
      var init := ts[..|ts| - 1];
      AfterIsSuffix(init, cutoff);
      if ts[|ts| - 1] <= cutoff {
        forall i | 0 <= i < |init| ensures init[i] <= cutoff {
          assert ts[i] <= ts[|ts| - 1];
        }
        AllBefore(init, cutoff);
      }
    }
  }

  lemma {:induction false} AllBefore(ts: seq<int>, cutoff: int)
    requires forall i | 0 <= i < |ts| :: ts[i] <= cutoff
    ensures After(ts, cutoff) == []
  {
    if ts != [] {
      AllBefore(ts[..|ts| - 1], cutoff);
    }
  }

  lemma {:induction false} CountTail(ts: seq<int>, n: nat, lo: int, hi: int)
    requires n <= |ts| && forall i | 0 <= i < n :: ts[i] < lo
    ensures CountIn(ts, lo, hi) <= |ts| - n
  {
    if |ts| > 0 {
      CountTail(ts[..|ts| - 1], if n < |ts| then n else n - 1, lo, hi);
    }
  }

  /** A grant at `now` keeps the bound when fewer than `maxAttempts` grants are still in the window. */
  lemma GrantKeepsBound(cfg: Config, ts: seq<int>, n: nat, now: int)
    requires Bounded(cfg, ts) && n <= |ts| && |ts| - n < cfg.maxAttempts
    requires forall i | 0 <= i < n :: ts[i] <= now - cfg.window
    ensures Bounded(cfg, ts + [now])
  {
    var next := ts + [now];
    assert next[..|ts|] == ts;
    forall a: int
      ensures BoundedAt(cfg, next, a)
    {
      assert BoundedAt(cfg, ts, a);
      if a <= now < a + cfg.window {
        CountTail(ts, n, a, a + cfg.window);
      }
    }
  }

  /** The timestamps that survive the filter are again the latest grants. */
  lemma FilterKeeps(cfg: Config, e: Entry, ts: seq<int>, clock: int, now: int) returns (n: nat)
    requires clock <= now && now >= e.lockedUntil && Remembers(cfg, e, ts, clock)
    ensures n <= |ts| && After(e.timestamps, now - cfg.window) == ts[n..]
    ensures forall i | 0 <= i < n :: ts[i] <= now - cfg.window
  {
    var m := |ts| - |e.timestamps|;
    AfterIsSuffix(e.timestamps, now - cfg.window);
    var kept := After(e.timestamps, now - cfg.window);
    n := |ts| - |kept|;
    forall i | m <= i < n ensures ts[i] <= now - cfg.window {
      assert ts[i] == e.timestamps[i - m];
    }
  }

  lemma TimePasses(cfg: Config, e: Entry, ts: seq<int>, clock: int, now: int)
    requires Remembers(cfg, e, ts, clock) && clock <= now
    ensures Remembers(cfg, e, ts, now)
    ensures Stale(cfg, e, now) ==> Remembers(cfg, FRESH, ts, now)
  {
    var n := |ts| - |e.timestamps|;
    if Stale(cfg, e, now) {
      forall i | 0 <= i < |ts| ensures ts[i] + cfg.window <= Max(now, 0) {
        if i >= n {
          assert ts[i] == e.timestamps[i - n];
        }
      }
    }
  }

  lemma GrantRemembers(cfg: Config, e: Entry, ts: seq<int>, n: nat, now: int)
    requires n <= |ts| && Remembers(cfg, e, ts, now) && now >= e.lockedUntil
    requires forall i | 0 <= i < n :: ts[i] <= now - cfg.window
    ensures Remembers(cfg, Entry(ts[n..] + [now], e.lockedUntil), ts + [now], now)
  {
    assert (ts + [now])[n..] == ts[n..] + [now];
  }

  lemma RefusalRemembers(cfg: Config, e: Entry, ts: seq<int>, now: int)
    requires cfg.lockout >= cfg.window && Remembers(cfg, e, ts, now)
    ensures Remembers(cfg, Entry([], now + cfg.lockout), ts, now)
  {
    assert ts[|ts|..] == [];
  }

  lemma AdmitBy(cfg: Config, e: Entry, ts: seq<int>, n: nat, now: int)
    requires now >= e.lockedUntil && n <= |ts| && After(e.timestamps, now - cfg.window) == ts[n..]
    ensures Admit(cfg, e, now) == if |ts| - n < cfg.maxAttempts then (Entry(ts[n..] + [now], e.lockedUntil), true)
                                  else (Entry([], now + cfg.lockout), false)
  {
    hide After;
  }

  lemma AdmitKeeps(cfg: Config, e: Entry, ts: seq<int>, clock: int, now: int)
    requires cfg.lockout >= cfg.window && clock <= now
    requires Remembers(cfg, e, ts, clock) && Bounded(cfg, ts)
    ensures var (e', granted) := Admit(cfg, e, now);
            var ts' := if granted then ts + [now] else ts;
            Remembers(cfg, e', ts', now) && Bounded(cfg, ts')
  {
    assert now < e.lockedUntil ==> Admit(cfg, e, now) == (e, false);
    hide *;
    TimePasses(cfg, e, ts, clock, now);
    if now >= e.lockedUntil {
      var n := FilterKeeps(cfg, e, ts, clock, now);
      AdmitBy(cfg, e, ts, n, now);
      if |ts| - n < cfg.maxAttempts {
        GrantKeepsBound(cfg, ts, n, now);
        GrantRemembers(cfg, e, ts, n, now);
      } else {
        RefusalRemembers(cfg, e, ts, now);
      }
    }
  }

  ghost predicate InvFor(cfg: Config, w: World, key: string) {
    Remembers(cfg, EntryOf(w.entries, key), GrantsOf(w, key), w.clock) && Bounded(cfg, GrantsOf(w, key))
  }

  ghost predicate Inv(cfg: Config, w: World) { forall key: string :: InvFor(cfg, w, key) }

  /** What an event does to one key. */
  lemma NextFor(cfg: Config, w: World, ev: Event, key: string)
    ensures var w' := Next(cfg, w, ev);
            var e := EntryOf(w.entries, key);
            var (e', granted) := Admit(cfg, e, ev.now);
            && w'.clock == ev.now
            && (if ev.Request? && ev.key == key
                then EntryOf(w'.entries, key) == e'
                     && GrantsOf(w', key) == if granted then GrantsOf(w, key) + [ev.now] else GrantsOf(w, key)
                else EntryOf(w'.entries, key) == (if ev.PruneTick? && Stale(cfg, e, ev.now) then FRESH else e)
                     && GrantsOf(w', key) == GrantsOf(w, key))
  {
    hide Admit, Stale;
  }

  lemma NextKeeps(cfg: Config, w: World, ev: Event)
    requires cfg.lockout >= cfg.window && Inv(cfg, w) && w.clock <= ev.now
    ensures Inv(cfg, Next(cfg, w, ev))
  {
    hide Remembers, Bounded, Stale, Admit, Next, EntryOf, GrantsOf;
    forall key: string
      ensures InvFor(cfg, Next(cfg, w, ev), key)
    {
      assert InvFor(cfg, w, key);
      NextFor(cfg, w, ev, key);
      TimePasses(cfg, EntryOf(w.entries, key), GrantsOf(w, key), w.clock, ev.now);
      AdmitKeeps(cfg, EntryOf(w.entries, key), GrantsOf(w, key), w.clock, ev.now);
    }
  }

  function LastTime(evs: seq<Event>): int { if evs == [] then 0 else evs[|evs| - 1].now }

  lemma InOrderPrefix(evs: seq<Event>, ev: Event)
    requires InOrder(evs + [ev])
    ensures InOrder(evs) && LastTime(evs) <= ev.now
  {
    assert forall i | 0 <= i < |evs| :: (evs + [ev])[i] == evs[i];
    assert (evs + [ev])[|evs|] == ev;
  }

  lemma NextClock(cfg: Config, w: World, ev: Event)
    ensures Next(cfg, w, ev).clock == ev.now
  {
    hide Admit, Pruned;
  }

  lemma LastTimeSnoc(evs: seq<Event>, ev: Event)
    ensures LastTime(evs + [ev]) == ev.now
  {
  }

  lemma StartKeeps(cfg: Config)
    ensures Inv(cfg, Run(cfg, [])) && Run(cfg, []).clock == LastTime([])
  {
  }

  lemma {:induction false} RunKeeps(cfg: Config, evs: seq<Event>)
    requires cfg.lockout >= cfg.window && InOrder(evs)
    ensures Inv(cfg, Run(cfg, evs))
    ensures Run(cfg, evs).clock == LastTime(evs)
  {
    hide *;
    if evs == [] {
      StartKeeps(cfg);
    } else {
      var init, ev := evs[..|evs| - 1], evs[|evs| - 1];
      assert init + [ev] == evs;
      LastTimeSnoc(init, ev);
      InOrderPrefix(init, ev);
      RunKeeps(cfg, init);
      NextKeeps(cfg, Run(cfg, init), ev);
      NextClock(cfg, Run(cfg, init), ev);
      RunSnoc(cfg, init, ev);
    }
  }

  /** `n` requests for one key at time 0. */
  function Burst(key: string, n: nat): seq<Event> {
    seq(n, i => Request(key, 0))
  }

  function Zeros(n: nat): seq<int> { seq(n, i => 0) }

  lemma NoZeros(cutoff: int)
    ensures After(Zeros(0), cutoff) == Zeros(0) && CountIn(Zeros(0), 0, -cutoff) == 0
  {
    assert Zeros(0) == [];
  }

  lemma ZerosSnoc(n: nat)
    ensures Zeros(n + 1) == Zeros(n) + [0]
  {
  }

  lemma AfterSnoc(ts: seq<int>, t: int, cutoff: int)
    ensures After(ts + [t], cutoff) == After(ts, cutoff) + if t > cutoff then [t] else []
  {
    assert (ts + [t])[..|ts|] == ts;
  }

  lemma {:induction false} ZerosKept(n: nat, cutoff: int)
    requires cutoff < 0
    ensures After(Zeros(n), cutoff) == Zeros(n) && CountIn(Zeros(n), 0, -cutoff) == n
  {
    hide *;
    if n == 0 {
      NoZeros(cutoff);
    } else {
      ZerosKept(n - 1, cutoff);
      ZerosSnoc(n - 1);
      AfterSnoc(Zeros(n - 1), 0, cutoff);
      CountSnoc(Zeros(n - 1), 0, 0, -cutoff);
    }
  }

  lemma GrantAtZero(cfg: Config, key: string, w: World, n: nat)
    requires n < cfg.maxAttempts && cfg.window > 0
    requires EntryOf(w.entries, key) == Entry(Zeros(n), 0) && GrantsOf(w, key) == Zeros(n)
    ensures var w' := Next(cfg, w, Request(key, 0));
            EntryOf(w'.entries, key) == Entry(Zeros(n + 1), 0) && GrantsOf(w', key) == Zeros(n + 1)
  {
    ZerosKept(n, -cfg.window);
    ZerosSnoc(n);
    hide After, Zeros;
  }

  lemma {:induction false} BurstGranted(cfg: Config, key: string, n: nat)
    requires n <= cfg.maxAttempts && cfg.window > 0
    ensures var w := Run(cfg, Burst(key, n));
            EntryOf(w.entries, key) == Entry(Zeros(n), 0) && GrantsOf(w, key) == Zeros(n)
  {
    if n > 0 {
      BurstGranted(cfg, key, n - 1);
      assert Burst(key, n) == Burst(key, n - 1) + [Request(key, 0)];
      RunSnoc(cfg, Burst(key, n - 1), Request(key, 0));
      hide Run, Next, Burst, Zeros;
      GrantAtZero(cfg, key, Run(cfg, Burst(key, n - 1)), n - 1);
    }
  }

  lemma RequestChanges(cfg: Config, w: World, key: string, now: int)
    ensures var w', (e, granted) := Next(cfg, w, Request(key, now)), Admit(cfg, EntryOf(w.entries, key), now);
            && EntryOf(w'.entries, key) == e
            && GrantsOf(w', key) == GrantsOf(w, key) + if granted then [now] else []
  {
    hide Admit;
  }

  lemma FullThenLockedOut(cfg: Config, again: int)
    requires cfg.maxAttempts > 0 && cfg.window > 0 && again == Max(0, cfg.lockout)
    ensures Admit(cfg, Entry(Zeros(cfg.maxAttempts), 0), 0) == (Entry([], cfg.lockout), false)
    ensures Admit(cfg, Entry([], cfg.lockout), again).1
  {
    ZerosKept(cfg.maxAttempts, -cfg.window);
    assert |Zeros(cfg.maxAttempts)| == cfg.maxAttempts;
    assert After([], again - cfg.window) == [];
    hide After, Zeros;
  }

  /** After a burst and one refusal, the first request past the lockout is granted. */
  lemma RefusalForgets(cfg: Config, key: string, w: World, again: int)
    requires cfg.maxAttempts > 0 && cfg.window > 0 && again == Max(0, cfg.lockout)
    requires EntryOf(w.entries, key) == Entry(Zeros(cfg.maxAttempts), 0) && GrantsOf(w, key) == Zeros(cfg.maxAttempts)
    ensures var w' := Next(cfg, Next(cfg, w, Request(key, 0)), Request(key, again));
            GrantsOf(w', key) == Zeros(cfg.maxAttempts) + [again]
  {
    hide *;
    FullThenLockedOut(cfg, again);
    RequestChanges(cfg, w, key, 0);
    RequestChanges(cfg, Next(cfg, w, Request(key, 0)), key, again);
    assert Zeros(cfg.maxAttempts) + [] == Zeros(cfg.maxAttempts);
  }

  lemma CountSnoc(ts: seq<int>, t: int, lo: int, hi: int)
    ensures CountIn(ts + [t], lo, hi) == CountIn(ts, lo, hi) + if lo <= t < hi then 1 else 0
  {
    assert (ts + [t])[..|ts|] == ts;
  }

  lemma BurstInOrder(key: string, n: nat, again: int)
    requires again >= 0
    ensures InOrder(Burst(key, n) + [Request(key, 0)] + [Request(key, again)])
  {
  }

  /** With a lockout shorter than the window, a refusal clears the memory too early. */
  lemma ShortLockoutBreaksBound(cfg: Config, key: string) returns (evs: seq<Event>)
    requires cfg.maxAttempts > 0 && cfg.window > 0 && cfg.lockout < cfg.window
    ensures InOrder(evs) && CountIn(GrantsOf(Run(cfg, evs), key), 0, cfg.window) == cfg.maxAttempts + 1
  {
    hide Run, Next, Burst, Zeros, CountIn, InOrder;
    var n, again := cfg.maxAttempts, Max(0, cfg.lockout);
    var burst := Burst(key, n);
    evs := burst + [Request(key, 0)] + [Request(key, again)];
    BurstGranted(cfg, key, n);
    BurstInOrder(key, n, again);
    RunSnoc(cfg, burst, Request(key, 0));
    RunSnoc(cfg, burst + [Request(key, 0)], Request(key, again));
    RefusalForgets(cfg, key, Run(cfg, burst), again);
    ZerosKept(n, -cfg.window);
    CountSnoc(Zeros(n), again, 0, cfg.window);
  }

  lemma RunSnoc(cfg: Config, evs: seq<Event>, ev: Event)
    ensures Run(cfg, evs + [ev]) == Next(cfg, Run(cfg, evs), ev)
  {
    assert (evs + [ev])[..|evs|] == evs;
  }

  /** No key is granted more than `maxAttempts` requests in any half-open interval of
      `window` ticks, in any run: this holds exactly when the lockout lasts at least a
      window, or there is nothing to limit. */
  lemma RateBoundIsExact(cfg: Config)
    ensures (forall evs, key | InOrder(evs) :: Bounded(cfg, GrantsOf(Run(cfg, evs), key)))
            <==> (cfg.lockout >= cfg.window || cfg.maxAttempts <= 0 || cfg.window <= 0)
  {
    if cfg.lockout >= cfg.window {
      forall evs, key | InOrder(evs)
        ensures Bounded(cfg, GrantsOf(Run(cfg, evs), key))
      {
        RunKeeps(cfg, evs);
        assert InvFor(cfg, Run(cfg, evs), key);
      }
    } else if cfg.maxAttempts <= 0 {
      forall evs, key | InOrder(evs)
        ensures Bounded(cfg, GrantsOf(Run(cfg, evs), key))
      {
        NothingGranted(cfg, evs, key);
      }
    } else if cfg.window <= 0 {
      forall evs, key | InOrder(evs)
        ensures Bounded(cfg, GrantsOf(Run(cfg, evs), key))
      {
        forall a: int ensures BoundedAt(cfg, GrantsOf(Run(cfg, evs), key), a) {
          EmptyInterval(GrantsOf(Run(cfg, evs), key), a, a + cfg.window);
        }
      }
    } else {
      var evs := ShortLockoutBreaksBound(cfg, "k");
      assert !BoundedAt(cfg, GrantsOf(Run(cfg, evs), "k"), 0);
      assert InOrder(evs) && !Bounded(cfg, GrantsOf(Run(cfg, evs), "k"));
    }
  }

  lemma {:induction false} NothingGranted(cfg: Config, evs: seq<Event>, key: string)
    requires cfg.maxAttempts <= 0
    ensures GrantsOf(Run(cfg, evs), key) == []
  {
    if evs != [] {
      NothingGranted(cfg, evs[..|evs| - 1], key);
    }
  }

  lemma {:induction false} EmptyInterval(ts: seq<int>, lo: int, hi: int)
    requires hi <= lo
    ensures CountIn(ts, lo, hi) == 0
  {
    if ts != [] {
      EmptyInterval(ts[..|ts| - 1], lo, hi);
    }
  }
}

/** What the limiter answers, in terms of the full log of a key's requests: no memory is
    filtered, cleared or pruned there. */
module RateLimitLog {
  import opened Numbers
  import opened RateLimit
  import opened RateLimitRuns

  /** A request is granted, refused and starts a lockout, or refused during one. */
  datatype Outcome = Granted | Locking | Locked

  datatype Decision = Decision(at: int, outcome: Outcome)

  /** When the lockout of the latest refusal that started one is over; 0 if none did. */
  function LockEnd(cfg: Config, log: seq<Decision>): int {
    if log == [] then 0
    else if log[|log| - 1].outcome.Locking? then log[|log| - 1].at + cfg.lockout
    else LockEnd(cfg, log[..|log| - 1])
  }

  /** The times of the grants since the latest refusal that started a lockout. */
  function Recent(log: seq<Decision>): seq<int> {
    if log == [] then [] else
    match log[|log| - 1].outcome
    case Granted => Recent(log[..|log| - 1]) + [log[|log| - 1].at]
    case Locking => []
    case Locked => Recent(log[..|log| - 1])
  }

  /** A request during a lockout is refused and changes nothing. Outside of one it is granted
      while fewer than `maxAttempts` of the recent grants lie within the last window. */
  function Verdict(cfg: Config, log: seq<Decision>, now: int): Outcome {
    if now < LockEnd(cfg, log) then Locked
    else if CountIn(Recent(log), now - cfg.window + 1, now + 1) < cfg.maxAttempts then Granted
    else Locking
  }

  /** The log of a key's requests, each decided by the log before it. */
  function LogOf(cfg: Config, evs: seq<Event>, key: string): seq<Decision> {
    if evs == [] then [] else
    var log, ev := LogOf(cfg, evs[..|evs| - 1], key), evs[|evs| - 1];
    if ev.Request? && ev.key == key then log + [Decision(ev.now, Verdict(cfg, log, ev.now))] else log
  }

  function GrantTimes(log: seq<Decision>): seq<int> {
    if log == [] then [] else
    GrantTimes(log[..|log| - 1]) + if log[|log| - 1].outcome.Granted? then [log[|log| - 1].at] else []
  }

  /** To every later request the entry looks like the log. */
  ghost predicate Matches(cfg: Config, e: Entry, log: seq<Decision>, clock: int) {
    && clock >= 0
    && Max(e.lockedUntil, clock) == Max(LockEnd(cfg, log), clock)
    && SameAfter(e.timestamps, Recent(log), clock - cfg.window)
    && NoneAfter(Recent(log), clock)
  }

  ghost predicate SameAfter(a: seq<int>, b: seq<int>, from: int) {
    forall c | from <= c :: After(a, c) == After(b, c)
  }

  predicate NoneAfter(ts: seq<int>, clock: int) { forall i | 0 <= i < |ts| :: ts[i] <= clock }

  lemma {:induction false} AfterAgain(ts: seq<int>, first: int, c: int)
    requires first <= c
    ensures After(After(ts, first), c) == After(ts, c)
  {
    if ts != [] {
      var init, t := ts[..|ts| - 1], ts[|ts| - 1];
      AfterAgain(init, first, c);
      AfterSnoc(After(init, first), t, c);
      assert After(init, first) + [] == After(init, first) && After(init, c) + [] == After(init, c);
    }
  }

  lemma {:induction false} AfterCounts(ts: seq<int>, c: int, clock: int)
    requires NoneAfter(ts, clock)
    ensures |After(ts, c)| == CountIn(ts, c + 1, clock + 1)
  {
    if ts != [] {
      AfterCounts(ts[..|ts| - 1], c, clock);
    }
  }

  lemma LogSnoc(cfg: Config, log: seq<Decision>, d: Decision)
    ensures LockEnd(cfg, log + [d]) == if d.outcome.Locking? then d.at + cfg.lockout else LockEnd(cfg, log)
    ensures d.outcome.Granted? ==> Recent(log + [d]) == Recent(log) + [d.at]
    ensures d.outcome.Locking? ==> Recent(log + [d]) == []
    ensures d.outcome.Locked? ==> Recent(log + [d]) == Recent(log)
    ensures GrantTimes(log + [d]) == GrantTimes(log) + if d.outcome.Granted? then [d.at] else []
  {
    assert (log + [d])[..|log|] == log;
  }

  lemma Later(cfg: Config, e: Entry, log: seq<Decision>, clock: int, now: int)
    requires Matches(cfg, e, log, clock) && clock <= now
    ensures Matches(cfg, e, log, now)
    ensures now < e.lockedUntil <==> now < LockEnd(cfg, log)
    ensures |After(e.timestamps, now - cfg.window)| == CountIn(Recent(log), now - cfg.window + 1, now + 1)
  {
    AfterCounts(Recent(log), now - cfg.window, now);
    hide After, CountIn, LockEnd, Recent;
  }

  lemma GrantSameAfter(a: seq<int>, b: seq<int>, from: int, now: int)
    requires SameAfter(a, b, from)
    ensures SameAfter(After(a, from) + [now], b + [now], from)
  {
    forall c | from <= c
      ensures After(After(a, from) + [now], c) == After(b + [now], c)
    {
      AfterSnoc(After(a, from), now, c);
      AfterSnoc(b, now, c);
      AfterAgain(a, from, c);
    }
  }

  lemma SameAfterItself(ts: seq<int>, from: int)
    ensures SameAfter(ts, ts, from)
  {
  }

  lemma NoneAfterSnoc(ts: seq<int>, now: int)
    requires NoneAfter(ts, now)
    ensures NoneAfter(ts + [now], now) && NoneAfter([], now)
  {
  }

  /** The entry that a request leaves, by what the log decides. */
  lemma AdmitByVerdict(cfg: Config, e: Entry, log: seq<Decision>, now: int)
    requires now < e.lockedUntil <==> now < LockEnd(cfg, log)
    requires |After(e.timestamps, now - cfg.window)| == CountIn(Recent(log), now - cfg.window + 1, now + 1)
    ensures var kept, verdict := After(e.timestamps, now - cfg.window), Verdict(cfg, log, now);
            && (verdict.Locked? ==> Admit(cfg, e, now) == (e, false))
            && (verdict.Granted? ==> Admit(cfg, e, now) == (Entry(kept + [now], e.lockedUntil), true))
            && (verdict.Locking? ==> Admit(cfg, e, now) == (Entry([], now + cfg.lockout), false))
  {
    hide After, CountIn, LockEnd, Recent;
  }

  /** One request: the limiter grants it exactly when the log does, and the entry it leaves
      matches the longer log. */
  lemma AdmitFollowsLog(cfg: Config, e: Entry, log: seq<Decision>, clock: int, now: int)
    requires Matches(cfg, e, log, clock) && clock <= now
    ensures var (e', granted) := Admit(cfg, e, now);
            var verdict := Verdict(cfg, log, now);
            (granted <==> verdict.Granted?) && Matches(cfg, e', log + [Decision(now, verdict)], now)
  {
    Later(cfg, e, log, clock, now);
    AdmitByVerdict(cfg, e, log, now);
    LogSnoc(cfg, log, Decision(now, Verdict(cfg, log, now)));
    GrantSameAfter(e.timestamps, Recent(log), now - cfg.window, now);
    SameAfterItself([], now - cfg.window);
    NoneAfterSnoc(Recent(log), now);
    hide After, CountIn, LockEnd, Recent, SameAfter, NoneAfter, Admit, Verdict;
  }

  lemma StaleMatchesFresh(cfg: Config, e: Entry, log: seq<Decision>, now: int)
    requires Matches(cfg, e, log, now) && Stale(cfg, e, now)
    ensures Matches(cfg, FRESH, log, now)
  {
    var ts, from := e.timestamps, now - cfg.window;
    forall c | from <= c
      ensures After([], c) == After(Recent(log), c)
    {
      AllBefore(ts, c);
    }
    hide After, LockEnd, Recent;
  }

  lemma NextFollowsLog(cfg: Config, w: World, log: seq<Decision>, ev: Event, key: string)
    requires Matches(cfg, EntryOf(w.entries, key), log, w.clock) && w.clock <= ev.now && GrantsOf(w, key) == GrantTimes(log)
    ensures var w' := Next(cfg, w, ev);
            var log' := if ev.Request? && ev.key == key then log + [Decision(ev.now, Verdict(cfg, log, ev.now))] else log;
            Matches(cfg, EntryOf(w'.entries, key), log', ev.now) && GrantsOf(w', key) == GrantTimes(log')
  {
    var e := EntryOf(w.entries, key);
    hide *;
    NextFor(cfg, w, ev, key);
    LogSnoc(cfg, log, Decision(ev.now, Verdict(cfg, log, ev.now)));
    AdmitFollowsLog(cfg, e, log, w.clock, ev.now);
    Later(cfg, e, log, w.clock, ev.now);
    if Stale(cfg, e, ev.now) {
      StaleMatchesFresh(cfg, e, log, ev.now);
    }
    assert GrantTimes(log) + [] == GrantTimes(log);
  }

  lemma LogOfSnoc(cfg: Config, evs: seq<Event>, ev: Event, key: string)
    ensures var log := LogOf(cfg, evs, key);
            LogOf(cfg, evs + [ev], key)
              == if ev.Request? && ev.key == key then log + [Decision(ev.now, Verdict(cfg, log, ev.now))] else log
  {
    hide Verdict;
    assert (evs + [ev])[..|evs|] == evs;
  }

  lemma StartMatches(cfg: Config, key: string)
    ensures Matches(cfg, EntryOf(Run(cfg, []).entries, key), LogOf(cfg, [], key), 0)
    ensures GrantsOf(Run(cfg, []), key) == GrantTimes(LogOf(cfg, [], key)) && Run(cfg, []).clock == 0
  {
  }

  lemma {:induction false} RunFollowsLog(cfg: Config, evs: seq<Event>, key: string)
    requires InOrder(evs)
    ensures var w, log := Run(cfg, evs), LogOf(cfg, evs, key);
            && Matches(cfg, EntryOf(w.entries, key), log, LastTime(evs)) && w.clock == LastTime(evs)
            && GrantsOf(w, key) == GrantTimes(log)
  {
    hide *;
    if evs == [] {
      StartMatches(cfg, key);
      NoEventsYet();
    } else {
      var init, ev := evs[..|evs| - 1], evs[|evs| - 1];
      assert init + [ev] == evs;
      InOrderPrefix(init, ev);
      LastTimeSnoc(init, ev);
      RunFollowsLog(cfg, init, key);
      RunSnoc(cfg, init, ev);
      LogOfSnoc(cfg, init, ev, key);
      NextFollowsLog(cfg, Run(cfg, init), LogOf(cfg, init, key), ev, key);
      NextClock(cfg, Run(cfg, init), ev);
    }
  }

  lemma NoEventsYet()
    ensures LastTime([]) == 0
  {
  }

  /** Requests are counted together only when scope and address are the same: a scope holds no colon. */
  lemma KeysTellApart(scope: string, ip: string, scope': string, ip': string)
    requires ':' !in scope && ':' !in scope' && Key(scope, ip) == Key(scope', ip')
    ensures scope == scope' && ip == ip'
  {
    var key := Key(scope, ip);
    assert key == scope + (":" + ip) && key == scope' + (":" + ip');
    assert key[|scope|] == ':' && key[|scope'|] == ':';
    assert forall i | 0 <= i < |scope| :: key[i] == scope[i] && key[i] != ':';
    assert forall i | 0 <= i < |scope'| :: key[i] == scope'[i] && key[i] != ':';
    assert |scope| == |scope'|;
    assert scope == key[..|scope|] == scope';
    assert ip == key[|scope| + 1..] == ip';
  }

  /** A key that is still in the table after pruning has a lockout that is not over, or has been
      granted a request within the window; pruning changes nothing else. */
  lemma PruneKeepsLive(cfg: Config, entries: Entries, now: int, key: string)
    ensures key in Pruned(cfg, entries, now)
            <==> key in entries
                 && (now <= entries[key].lockedUntil || After(entries[key].timestamps, now - cfg.window) != [])
    ensures key in Pruned(cfg, entries, now) ==> Pruned(cfg, entries, now)[key] == entries[key]
  {
    if key in entries {
      AfterIsEmpty(entries[key].timestamps, now - cfg.window);
    }
    hide After;
  }

  lemma {:induction false} AfterIsEmpty(ts: seq<int>, cutoff: int)
    ensures After(ts, cutoff) == [] <==> forall i | 0 <= i < |ts| :: ts[i] <= cutoff
  {
    if ts != [] {
      AfterIsEmpty(ts[..|ts| - 1], cutoff);
      assert forall i | 0 <= i < |ts| - 1 :: ts[..|ts| - 1][i] == ts[i];
    }
  }

  /** In every run, for every configuration and through any mix of lockouts, filtering and
      pruning: the next request of a key is granted exactly when the full log of its requests
      says so, and the grants so far are those of the log. */
  lemma AnswersAgreeWithLog(cfg: Config, evs: seq<Event>, key: string, now: int)
    requires InOrder(evs) && LastTime(evs) <= now
    ensures var w, log := Run(cfg, evs), LogOf(cfg, evs, key);
            && (Admit(cfg, EntryOf(w.entries, key), now).1 <==> Verdict(cfg, log, now).Granted?)
            && GrantsOf(w, key) == GrantTimes(log)
  {
    RunFollowsLog(cfg, evs, key);
    hide *;
    AdmitFollowsLog(cfg, EntryOf(Run(cfg, evs).entries, key), LogOf(cfg, evs, key), LastTime(evs), now);
  }
}
