/** Provider failures: the taxonomy of reasons, the backoff arithmetic and the per-provider
    cooldown tracker. Times are in milliseconds; 0 is the zero time, before every reading. */
module Cooldown {
  import opened Numbers

  datatype Reason =
    | Auth | AuthPermanent | RateLimit | Billing | Timeout | ContextOverflow | PayloadTooLarge
    | Format | Overloaded | ModelNotFound | SessionExpired | ThinkingSignature | LongContextTier | Unknown

  const ALL_REASONS: seq<Reason> := [
    Auth, AuthPermanent, RateLimit, Billing, Timeout, ContextOverflow, PayloadTooLarge,
    Format, Overloaded, ModelNotFound, SessionExpired, ThinkingSignature, LongContextTier, Unknown]

  predicate IsRetriable(r: Reason) { !r.Format? && !r.ModelNotFound? && !r.AuthPermanent? }

  predicate ShouldFallback(r: Reason) {
    match r
    case ModelNotFound | Overloaded | Billing | AuthPermanent | LongContextTier | RateLimit | Timeout | Auth => true
    case _ => false
  }

  const MINUTE := 60_000
  const HOUR := 60 * MINUTE
  const FAILURE_WINDOW := 24 * HOUR

  function Pow(b: nat, e: nat): nat { if e == 0 then 1 else b * Pow(b, e - 1) }

  function StandardCooldown(errorCount: int): int {
    var exp := Min(Max(1, errorCount) - 1, 3);
    Min(HOUR, MINUTE * Pow(5, exp))
  }

  function BillingCooldown(count: int): int {
    var exp := Min(Max(1, count) - 1, 10);
    Min(24 * HOUR, 5 * HOUR * Pow(2, exp))
  }

  lemma {:induction false} PowGrows(b: nat, d: nat, e: nat)
    requires b >= 1 && d <= e
    ensures Pow(b, d) <= Pow(b, e)
    decreases e
  {
    if d < e {
      PowGrows(b, d, e - 1);
      assert Pow(b, e) == b * Pow(b, e - 1) >= Pow(b, e - 1);
    }
  }

  /** The documented schedule: 1, 5, 25, then 60 minutes. */
  lemma StandardSchedule(n: int)
    ensures StandardCooldown(n) == if n <= 1 then MINUTE else if n == 2 then 5 * MINUTE
                                   else if n == 3 then 25 * MINUTE else HOUR
  {
    assert Pow(5, 0) == 1 && Pow(5, 1) == 5 * Pow(5, 0) && Pow(5, 2) == 5 * Pow(5, 1) && Pow(5, 3) == 5 * Pow(5, 2);
  }

  /** The documented schedule: 5, 10, 20, then 24 hours. */
  lemma BillingSchedule(n: int)
    ensures BillingCooldown(n) == if n <= 1 then 5 * HOUR else if n == 2 then 10 * HOUR
                                  else if n == 3 then 20 * HOUR else 24 * HOUR
  {
    assert Pow(2, 0) == 1 && Pow(2, 1) == 2 * Pow(2, 0) && Pow(2, 2) == 2 * Pow(2, 1) && Pow(2, 3) == 2 * Pow(2, 2);
    if n >= 4 {
      PowGrows(2, 3, Min(n - 1, 10));
    }
  }

  datatype Entry = Entry(
    errorCount: int,
    failureCounts: map<Reason, int>,
    cooldownEnd: int,
    disabledUntil: int,
    billingDisabled: bool,
    lastFailure: int)

  const FRESH := Entry(0, map[], 0, 0, false, 0)

  type Entries = map<string, Entry>

  function CountOf(counts: map<Reason, int>, r: Reason): int { if r in counts then counts[r] else 0 }

  function EntryOf(entries: Entries, provider: string): Entry {
    if provider in entries then entries[provider] else FRESH
  }

  function Failed(e: Entry, reason: Reason, now: int): Entry {
    var stale := e.lastFailure != 0 && now - e.lastFailure > FAILURE_WINDOW;
    var count := (if stale then 0 else e.errorCount) + 1;
    var base := if stale then map[] else e.failureCounts;
    var counts := base[reason := CountOf(base, reason) + 1];
    if reason.Billing? then
      Entry(count, counts, e.cooldownEnd, now + BillingCooldown(counts[Billing]), true, now)
    else
      Entry(count, counts, now + StandardCooldown(count), e.disabledUntil, e.billingDisabled, now)
  }

  function Succeeded(e: Entry): Entry { Entry(0, map[], 0, 0, false, e.lastFailure) }

  predicate Available(e: Entry, now: int) {
    && !(e.disabledUntil != 0 && now < e.disabledUntil)
    && !(e.cooldownEnd != 0 && now < e.cooldownEnd)
  }

  function Remaining(e: Entry, now: int): int {
    var byDisable := if e.disabledUntil != 0 && now < e.disabledUntil then Max(0, e.disabledUntil - now) else 0;
    if e.cooldownEnd != 0 && now < e.cooldownEnd then Max(byDisable, e.cooldownEnd - now) else byDisable
  }

  class CooldownTracker {
    var entries: Entries

    constructor ()
      ensures entries == map[]
    {
      entries := map[];
    }

    method MarkFailure(provider: string, reason: Reason, now: int)
      modifies this
      ensures entries == old(entries)[provider := Failed(EntryOf(old(entries), provider), reason, now)]
    {
      var entry := EntryOf(entries, provider);
      if entry.lastFailure != 0 && now - entry.lastFailure > FAILURE_WINDOW {
        entry := entry.(errorCount := 0, failureCounts := map[]);
      }
      entry := entry.(errorCount := entry.errorCount + 1);
      entry := entry.(failureCounts := entry.failureCounts[reason := CountOf(entry.failureCounts, reason) + 1]);
      entry := entry.(lastFailure := now);
      if reason.Billing? {
        var billingCount := entry.failureCounts[Billing];
        entry := entry.(disabledUntil := now + BillingCooldown(billingCount), billingDisabled := true);
      } else {
        entry := entry.(cooldownEnd := now + StandardCooldown(entry.errorCount));
      }
      entries := entries[provider := entry];
    }

    method MarkSuccess(provider: string)
      modifies this
      ensures entries == if provider in old(entries) then old(entries)[provider := Succeeded(old(entries)[provider])]
                         else old(entries)
    {
      if provider !in entries {
        return;
      }
      entries := entries[provider := Succeeded(entries[provider])];
    }

    method IsAvailable(provider: string, now: int) returns (ok: bool)
      ensures ok == Available(EntryOf(entries, provider), now)
    {
      if provider !in entries {
        return true;
      }
      var entry := entries[provider];
      if entry.disabledUntil != 0 && now < entry.disabledUntil {
        return false;
      }
      if entry.cooldownEnd != 0 && now < entry.cooldownEnd {
        return false;
      }
      return true;
    }

    method CooldownRemaining(provider: string, now: int) returns (remaining: int)
      ensures remaining == Remaining(EntryOf(entries, provider), now)
    {
      if provider !in entries {
        return 0;
      }
      var entry := entries[provider];
      remaining := 0;
      if entry.disabledUntil != 0 && now < entry.disabledUntil {
        remaining := Max(remaining, entry.disabledUntil - now);
      }
      if entry.cooldownEnd != 0 && now < entry.cooldownEnd {
        remaining := Max(remaining, entry.cooldownEnd - now);
      }
    }
  }
}

/** Every state the tracker can reach. */
module CooldownRuns {
  import opened Cooldown

  datatype Event = Failure(provider: string, reason: Reason, now: int) | Success(provider: string, now: int)

  function Next(entries: Entries, ev: Event): Entries {
    match ev
    case Failure(p, reason, now) => entries[p := Failed(EntryOf(entries, p), reason, now)]
    case Success(p, _) => if p in entries then entries[p := Succeeded(entries[p])] else entries
  }

  /** The tracker after the marks of `evs`, made in this order. */
  function Replay(entries: Entries, evs: seq<Event>): Entries {
    if evs == [] then entries else Next(Replay(entries, evs[..|evs| - 1]), evs[|evs| - 1])
  }

  function Run(evs: seq<Event>): Entries { Replay(map[], evs) }

  lemma ReplaySnoc(entries: Entries, evs: seq<Event>, ev: Event)
    ensures Replay(entries, evs + [ev]) == Next(Replay(entries, evs), ev)
  {
    hide Next;
    assert (evs + [ev])[..|evs|] == evs;
  }

  lemma {:induction false} ReplayAppend(entries: Entries, a: seq<Event>, b: seq<Event>)
    ensures Replay(entries, a + b) == Replay(Replay(entries, a), b)
  {
    if b == [] {
      assert a + b == a;
    } else {
      hide *;
      var init, ev := b[..|b| - 1], b[|b| - 1];
      ReplayAppend(entries, a, init);
      assert a + b == (a + init) + [ev] && init + [ev] == b;
      ReplaySnoc(entries, a + init, ev);
      ReplaySnoc(Replay(entries, a), init, ev);
    }
  }

  /** Positive clock readings that never go back. */
  predicate InOrder(evs: seq<Event>) {
    && (evs != [] ==> evs[0].now > 0)
    && forall i | 0 < i < |evs| :: evs[i - 1].now <= evs[i].now
  }

  function Total(counts: map<Reason, int>, rs: seq<Reason>): int {
    if rs == [] then 0 else CountOf(counts, rs[0]) + Total(counts, rs[1..])
  }

  predicate Distinct(rs: seq<Reason>) { forall i, j | 0 <= i < j < |rs| :: rs[i] != rs[j] }

  lemma {:induction false} TotalBumped(counts: map<Reason, int>, r: Reason, rs: seq<Reason>)
    requires Distinct(rs)
    ensures Total(counts[r := CountOf(counts, r) + 1], rs) == Total(counts, rs) + if r in rs then 1 else 0
  {
    if rs != [] {
      TotalBumped(counts, r, rs[1..]);
      assert r in rs <==> r == rs[0] || r in rs[1..];
    }
  }

  lemma {:induction false} TotalEmpty(rs: seq<Reason>)
    ensures Total(map[], rs) == 0
  {
    if rs != [] {
      TotalEmpty(rs[1..]);
    }
  }

  lemma AllReasons(r: Reason)
    ensures Distinct(ALL_REASONS) && r in ALL_REASONS
  {
    match r
    case Auth => assert r == ALL_REASONS[0];
    case AuthPermanent => assert r == ALL_REASONS[1];
    case RateLimit => assert r == ALL_REASONS[2];
    case Billing => assert r == ALL_REASONS[3];
    case Timeout => assert r == ALL_REASONS[4];
    case ContextOverflow => assert r == ALL_REASONS[5];
    case PayloadTooLarge => assert r == ALL_REASONS[6];
    case Format => assert r == ALL_REASONS[7];
    case Overloaded => assert r == ALL_REASONS[8];
    case ModelNotFound => assert r == ALL_REASONS[9];
    case SessionExpired => assert r == ALL_REASONS[10];
    case ThinkingSignature => assert r == ALL_REASONS[11];
    case LongContextTier => assert r == ALL_REASONS[12];
    case Unknown => assert r == ALL_REASONS[13];
  }

  /** Counts add up, and no cooldown reaches further than 24 hours past the last failure. */
  predicate Sound(e: Entry, clock: int) {
    && e.errorCount == Total(e.failureCounts, ALL_REASONS)
    && 0 <= e.lastFailure <= clock
    && e.cooldownEnd <= e.lastFailure + HOUR
    && e.disabledUntil <= e.lastFailure + 24 * HOUR
  }

  lemma FailedAddsUp(e: Entry, reason: Reason, now: int, rs: seq<Reason>)
    requires Distinct(rs) && reason in rs && e.errorCount == Total(e.failureCounts, rs)
    ensures var after := Failed(e, reason, now); after.errorCount == Total(after.failureCounts, rs)
  {
    TotalBumped(e.failureCounts, reason, rs);
    TotalBumped(map[], reason, rs);
    TotalEmpty(rs);
    hide Total, StandardCooldown, BillingCooldown, Distinct;
  }

  lemma FailedIsBounded(e: Entry, reason: Reason, now: int)
    requires e.cooldownEnd <= now + HOUR && e.disabledUntil <= now + 24 * HOUR
    ensures var after := Failed(e, reason, now);
            after.lastFailure == now && after.cooldownEnd <= now + HOUR && after.disabledUntil <= now + 24 * HOUR
  {
    var after := Failed(e, reason, now);
    StandardSchedule(after.errorCount);
    BillingSchedule(CountOf(after.failureCounts, Billing));
  }

  lemma FailedIsSound(e: Entry, reason: Reason, clock: int, now: int)
    requires Sound(e, clock) && clock <= now
    ensures Sound(Failed(e, reason, now), now)
  {
    AllReasons(reason);
    FailedAddsUp(e, reason, now, ALL_REASONS);
    FailedIsBounded(e, reason, now);
    hide Failed, Total;
  }

  lemma SucceededIsSound(e: Entry, clock: int, now: int)
    requires Sound(e, clock) && clock <= now
    ensures Sound(Succeeded(e), now) && Sound(e, now)
  {
    TotalEmpty(ALL_REASONS);
  }

  lemma NextIsSound(entries: Entries, ev: Event, provider: string, clock: int)
    requires Sound(EntryOf(entries, provider), clock) && clock <= ev.now
    ensures Sound(EntryOf(Next(entries, ev), provider), ev.now)
  {
    var e := EntryOf(entries, provider);
    NextEntry(entries, ev, provider);
    hide *;
    SucceededIsSound(e, clock, ev.now);
    if ev.Failure? {
      FailedIsSound(e, ev.reason, clock, ev.now);
    }
  }

  lemma NextEntry(entries: Entries, ev: Event, provider: string)
    ensures var e := EntryOf(entries, provider);
            EntryOf(Next(entries, ev), provider)
              == if ev.provider != provider then e else if ev.Failure? then Failed(e, ev.reason, ev.now) else Succeeded(e)
  {
    hide Failed;
  }

  function LastTime(evs: seq<Event>): int { if evs == [] then 0 else evs[|evs| - 1].now }

  /** In every reachable state the error count of a provider is the sum of its counts per
      reason, and its cooldowns end within 24 hours of its last failure. */
  lemma {:induction false} RunIsSound(evs: seq<Event>, provider: string)
    requires InOrder(evs)
    ensures Sound(EntryOf(Run(evs), provider), LastTime(evs))
  {
    if evs == [] {
      TotalEmpty(ALL_REASONS);
    } else {
      var init, ev := evs[..|evs| - 1], evs[|evs| - 1];
      assert LastTime(init) <= ev.now;
      RunIsSound(init, provider);
      hide Sound, Next, EntryOf;
      NextIsSound(Run(init), ev, provider, LastTime(init));
    }
  }

  /** A provider is available exactly when no cooldown remains. */
  lemma AvailableIffNothingRemains(e: Entry, now: int)
    ensures Available(e, now) <==> Remaining(e, now) == 0
    ensures Remaining(e, now) > 0 ==> Available(e, now + Remaining(e, now)) && !Available(e, now + Remaining(e, now) - 1)
  {
  }

  /** Whatever happened, a provider is available again 24 hours after its last failure. */
  lemma AvailableWithinADay(evs: seq<Event>, provider: string, now: int)
    requires InOrder(evs) && LastTime(evs) <= now
    requires now >= EntryOf(Run(evs), provider).lastFailure + 24 * HOUR
    ensures Available(EntryOf(Run(evs), provider), now)
  {
    RunIsSound(evs, provider);
  }

  // ---- Backoff over a streak of failures -----------------------------------

  /** The events about one provider. */
  function About(evs: seq<Event>, provider: string): seq<Event> {
    if evs == [] then [] else
    About(evs[..|evs| - 1], provider) + if evs[|evs| - 1].provider == provider then [evs[|evs| - 1]] else []
  }

  lemma AboutSnoc(evs: seq<Event>, ev: Event, provider: string)
    ensures About(evs + [ev], provider) == if ev.provider == provider then About(evs, provider) + [ev] else About(evs, provider)
  {
    assert (evs + [ev])[..|evs|] == evs;
    assert About(evs, provider) + [] == About(evs, provider);
  }

  /** Providers do not affect each other. */
  lemma {:induction false} OnlyOwnEventsMatter(entries: Entries, evs: seq<Event>, provider: string)
    ensures EntryOf(Replay(entries, evs), provider) == EntryOf(Replay(entries, About(evs, provider)), provider)
  {
    if evs != [] {
      hide *;
      var init, ev := evs[..|evs| - 1], evs[|evs| - 1];
      var own := About(init, provider);
      OnlyOwnEventsMatter(entries, init, provider);
      assert init + [ev] == evs;
      AboutSnoc(init, ev, provider);
      ReplaySnoc(entries, init, ev);
      ReplaySnoc(entries, own, ev);
      NextEntry(Replay(entries, init), ev, provider);
      NextEntry(Replay(entries, own), ev, provider);
    }
  }

  /** Failures, each at most the failure window after the one before. */
  predicate InARow(fs: seq<Event>) {
    && (forall i | 0 <= i < |fs| :: fs[i].Failure?)
    && forall i | 0 < i < |fs| :: fs[i - 1].now <= fs[i].now <= fs[i - 1].now + FAILURE_WINDOW
  }

  predicate IsBilling(ev: Event) { ev.Failure? && ev.reason.Billing? }

  function Billings(fs: seq<Event>): nat {
    if fs == [] then 0 else Billings(fs[..|fs| - 1]) + if IsBilling(fs[|fs| - 1]) then 1 else 0
  }

  /** When the standard cooldown of a streak ends: after the step of the schedule that counts
      every failure up to the last one that is not about billing. */
  function StandardEnd(fs: seq<Event>): int {
    if fs == [] then 0
    else if IsBilling(fs[|fs| - 1]) then StandardEnd(fs[..|fs| - 1])
    else fs[|fs| - 1].now + StandardCooldown(|fs|)
  }

  /** When the billing suspension of a streak ends: after the step that counts its billing failures. */
  function BillingEnd(fs: seq<Event>): int {
    if fs == [] then 0
    else if IsBilling(fs[|fs| - 1]) then fs[|fs| - 1].now + BillingCooldown(Billings(fs))
    else BillingEnd(fs[..|fs| - 1])
  }

  /** A provider without failures on record: never used, or marked successful since. */
  predicate Cleared(e: Entry) {
    e.errorCount == 0 && e.failureCounts == map[] && e.cooldownEnd == 0 && e.disabledUntil == 0
  }

  predicate BackedOff(e: Entry, fs: seq<Event>) {
    && e.errorCount == |fs| && CountOf(e.failureCounts, Billing) == Billings(fs)
    && e.cooldownEnd == StandardEnd(fs) && e.disabledUntil == BillingEnd(fs)
    && (fs == [] ==> Cleared(e)) && (fs != [] ==> e.lastFailure == fs[|fs| - 1].now)
  }

  lemma BackOffGrows(e: Entry, fs: seq<Event>, ev: Event)
    requires BackedOff(e, fs) && ev.Failure?
    requires fs != [] ==> fs[|fs| - 1].now <= ev.now <= fs[|fs| - 1].now + FAILURE_WINDOW
    ensures BackedOff(Failed(e, ev.reason, ev.now), fs + [ev])
  {
    assert (fs + [ev])[..|fs|] == fs;
    hide StandardCooldown, BillingCooldown;
  }

  lemma {:induction false} StreakCounts(entries: Entries, provider: string, fs: seq<Event>)
    requires Cleared(EntryOf(entries, provider)) && InARow(fs) && AllAbout(fs, provider)
    ensures BackedOff(EntryOf(Replay(entries, fs), provider), fs)
  {
    if fs != [] {
      var init, ev := fs[..|fs| - 1], fs[|fs| - 1];
      assert init + [ev] == fs && (init != [] ==> init[|init| - 1] == fs[|fs| - 2]);
      StreakCounts(entries, provider, init);
      hide Failed, BackedOff, Replay;
      ReplaySnoc(entries, init, ev);
      BackOffGrows(EntryOf(Replay(entries, init), provider), init, ev);
    }
  }

  predicate AllAbout(evs: seq<Event>, provider: string) {
    forall i | 0 <= i < |evs| :: evs[i].provider == provider
  }

  lemma {:induction false} AboutIsAbout(evs: seq<Event>, provider: string)
    ensures AllAbout(About(evs, provider), provider)
  {
    if evs != [] {
      AboutIsAbout(evs[..|evs| - 1], provider);
    }
  }

  /** After any streak of failures, for any mix of reasons and among any events of other
      providers, a provider is available exactly when both its standard cooldown and its
      billing suspension are over; each follows its schedule. */
  lemma FailuresBackOff(entries: Entries, evs: seq<Event>, provider: string, now: int)
    requires Cleared(EntryOf(entries, provider)) && InARow(About(evs, provider)) && now >= 0
    ensures Available(EntryOf(Replay(entries, evs), provider), now)
            <==> now >= StandardEnd(About(evs, provider)) && now >= BillingEnd(About(evs, provider))
  {
    var fs := About(evs, provider);
    OnlyOwnEventsMatter(entries, evs, provider);
    AboutIsAbout(evs, provider);
    StreakCounts(entries, provider, fs);
    hide Replay, About, StandardEnd, BillingEnd;
  }

  /** A failure takes its provider out for at least a minute, and at least five hours when it
      was about billing. */
  lemma FailureBlocks(e: Entry, reason: Reason, now: int, later: int)
    requires 0 < now <= later && Available(Failed(e, reason, now), later)
    ensures later >= now + if reason.Billing? then 5 * HOUR else MINUTE
  {
    var after := Failed(e, reason, now);
    StandardSchedule(after.errorCount);
    BillingSchedule(CountOf(after.failureCounts, Billing));
  }

  // ---- The tracker against the full log of a provider ----------------------

  /** The failures that still count: those since the last success, and since the last time a
      failure came more than the failure window after the one before. */
  function Counted(log: seq<Event>): seq<Event> {
    if log == [] then [] else
    var before, last := Counted(log[..|log| - 1]), log[|log| - 1];
    if last.Success? then []
    else if before != [] && last.now - before[|before| - 1].now > 24 * HOUR then [last]
    else before + [last]
  }

  function CountReason(fs: seq<Event>, r: Reason): nat {
    if fs == [] then 0 else
    CountReason(fs[..|fs| - 1], r) + if fs[|fs| - 1].Failure? && fs[|fs| - 1].reason == r then 1 else 0
  }

  /** When the standard cooldown is over: 0 after a success, else a step of the schedule after
      the last failure that is not about billing, for as many failures as counted then. */
  function CooldownOver(log: seq<Event>): int {
    if log == [] || log[|log| - 1].Success? then 0
    else if IsBilling(log[|log| - 1]) then CooldownOver(log[..|log| - 1])
    else log[|log| - 1].now + StandardCooldown(|Counted(log)|)
  }

  /** When the billing suspension is over, for as many billing failures as counted then. */
  function SuspensionOver(log: seq<Event>): int {
    if log == [] || log[|log| - 1].Success? then 0
    else if IsBilling(log[|log| - 1]) then log[|log| - 1].now + BillingCooldown(CountReason(Counted(log), Billing))
    else SuspensionOver(log[..|log| - 1])
  }

  /** A failure about billing has been marked since the last success. */
  predicate Suspended(log: seq<Event>) {
    log != [] && log[|log| - 1].Failure? && (IsBilling(log[|log| - 1]) || Suspended(log[..|log| - 1]))
  }

  /** The counts of an entry are those of the failures that count. */
  predicate CountsAre(e: Entry, fs: seq<Event>) {
    && e.errorCount == |fs| && (fs == [] ==> e.failureCounts == map[])
    && (forall r: Reason :: CountOf(e.failureCounts, r) == CountReason(fs, r))
    && (fs != [] ==> e.lastFailure == fs[|fs| - 1].now > 0)
  }

  predicate FollowsLog(e: Entry, log: seq<Event>) {
    && CountsAre(e, Counted(log)) && e.cooldownEnd == CooldownOver(log) && e.disabledUntil == SuspensionOver(log)
    && e.billingDisabled == Suspended(log)
  }

  lemma CountReasonSnoc(fs: seq<Event>, ev: Event, r: Reason)
    ensures CountReason(fs + [ev], r) == CountReason(fs, r) + if ev.Failure? && ev.reason == r then 1 else 0
    ensures CountReason([ev], r) == if ev.Failure? && ev.reason == r then 1 else 0
  {
    assert (fs + [ev])[..|fs|] == fs && [ev][..0] == [];
  }

  lemma CountedSnoc(log: seq<Event>, ev: Event)
    ensures var before := Counted(log);
            Counted(log + [ev])
              == if ev.Success? then []
                 else if before != [] && ev.now - before[|before| - 1].now > FAILURE_WINDOW then [ev]
                 else before + [ev]
  {
    assert (log + [ev])[..|log|] == log;
  }

  lemma FailedCounts(e: Entry, fs: seq<Event>, ev: Event)
    requires CountsAre(e, fs) && ev.Failure? && ev.now > 0
    ensures var now := if fs != [] && ev.now - fs[|fs| - 1].now > FAILURE_WINDOW then [ev] else fs + [ev];
            CountsAre(Failed(e, ev.reason, ev.now), now)
  {
    hide StandardCooldown, BillingCooldown, CountReason;
    var e' := Failed(e, ev.reason, ev.now);
    forall r: Reason
      ensures var now := if fs != [] && ev.now - fs[|fs| - 1].now > FAILURE_WINDOW then [ev] else fs + [ev];
              CountOf(e'.failureCounts, r) == CountReason(now, r)
    {
      CountReasonSnoc(fs, ev, r);
    }
  }

  /** The two times at which the entry says the provider may be used again. */
  lemma FailedTimes(e: Entry, fs: seq<Event>, ev: Event)
    requires ev.Failure? && CountsAre(Failed(e, ev.reason, ev.now), fs)
    ensures var e' := Failed(e, ev.reason, ev.now);
            if IsBilling(ev)
            then e'.cooldownEnd == e.cooldownEnd && e'.disabledUntil == ev.now + BillingCooldown(CountReason(fs, Billing))
            else e'.cooldownEnd == ev.now + StandardCooldown(|fs|) && e'.disabledUntil == e.disabledUntil
  {
    hide StandardCooldown, BillingCooldown, CountReason;
    var e' := Failed(e, ev.reason, ev.now);
    assert CountOf(e'.failureCounts, Billing) == CountReason(fs, Billing);
  }

  lemma OverSnoc(log: seq<Event>, ev: Event)
    ensures CooldownOver(log + [ev]) == if ev.Success? then 0 else if IsBilling(ev) then CooldownOver(log)
                                        else ev.now + StandardCooldown(|Counted(log + [ev])|)
    ensures SuspensionOver(log + [ev]) == if ev.Success? then 0 else if !IsBilling(ev) then SuspensionOver(log)
                                          else ev.now + BillingCooldown(CountReason(Counted(log + [ev]), Billing))
    ensures Suspended(log + [ev]) == (ev.Failure? && (IsBilling(ev) || Suspended(log)))
  {
    hide Counted, StandardCooldown, BillingCooldown, CountReason;
    assert (log + [ev])[..|log|] == log;
  }

  lemma MarkFollowsLog(e: Entry, log: seq<Event>, ev: Event)
    requires FollowsLog(e, log) && ev.now > 0
    ensures FollowsLog(if ev.Failure? then Failed(e, ev.reason, ev.now) else Succeeded(e), log + [ev])
  {
    CountedSnoc(log, ev);
    OverSnoc(log, ev);
    hide Counted, CooldownOver, SuspensionOver, Suspended;
    assert ev.Failure? ==> Failed(e, ev.reason, ev.now).billingDisabled == (IsBilling(ev) || e.billingDisabled);
    if ev.Failure? {
      FailedCounts(e, Counted(log), ev);
      FailedTimes(e, Counted(log + [ev]), ev);
      hide CountsAre, Failed, StandardCooldown, BillingCooldown, CountReason;
    }
  }

  lemma NothingLogged()
    ensures FollowsLog(FRESH, [])
  {
  }

  lemma InOrderIsPositive(evs: seq<Event>, ev: Event)
    requires InOrder(evs + [ev])
    ensures InOrder(evs) && ev.now > 0
    ensures evs != [] ==> evs[|evs| - 1].now > 0
    decreases |evs|
  {
    assert forall i | 0 <= i < |evs| :: (evs + [ev])[i] == evs[i];
    assert (evs + [ev])[|evs|] == ev;
    if evs != [] {
      var init, last := evs[..|evs| - 1], evs[|evs| - 1];
      assert evs == init + [last];
      InOrderIsPositive(init, last);
    }
  }

  /** In every run, counts and expiries of a provider are those that the log of its own marks
      gives: successes clear, and a failure after the window starts counting anew. */
  lemma {:induction false} TrackerFollowsLog(evs: seq<Event>, provider: string)
    requires InOrder(evs)
    ensures FollowsLog(EntryOf(Run(evs), provider), About(evs, provider))
  {
    if evs == [] {
      NothingLogged();
    } else {
      var init, ev := evs[..|evs| - 1], evs[|evs| - 1];
      assert init + [ev] == evs;
      InOrderIsPositive(init, ev);
      TrackerFollowsLog(init, provider);
      hide FollowsLog, Next, EntryOf, InOrder, About, Failed, Succeeded;
      AboutSnoc(init, ev, provider);
      ReplaySnoc(map[], init, ev);
      NextEntry(Run(init), ev, provider);
      MarkFollowsLog(EntryOf(Run(init), provider), About(init, provider), ev);
    }
  }

  /** So in every run a provider is available exactly when its standard cooldown and its billing
      suspension, both computed from the full log of its marks, are over. */
  lemma AvailabilityIsExact(evs: seq<Event>, provider: string, now: int)
    requires InOrder(evs) && now >= 0
    ensures Available(EntryOf(Run(evs), provider), now)
            <==> now >= CooldownOver(About(evs, provider)) && now >= SuspensionOver(About(evs, provider))
  {
    TrackerFollowsLog(evs, provider);
    hide Run, About, Counted, CooldownOver, SuspensionOver, CountsAre, EntryOf;
  }
}
