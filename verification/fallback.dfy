/** The fallback chain: one pass over the candidates, with the tracker updated on the way. */
module Fallback {
  import opened Cooldown
  import R = CooldownRuns

  datatype Candidate = Candidate(provider: string, model: string)

  /** What calling a candidate yields: a response, an error the classifier gives a reason for,
      or one it does not classify. */
  datatype Outcome = Response(text: string) | Classified(reason: Reason) | Unclassified

  /** What the outside world does in one round: whether the caller has cancelled before and
      after the call, the clock when availability is checked and when the result is marked, and
      the marks other chains make on the shared tracker before the check and during the call. */
  datatype Round = Round(
    cancelledBefore: bool, before: seq<R.Event>, checkAt: int,
    outcome: Outcome, during: seq<R.Event>, cancelledAfter: bool, markAt: int)

  datatype Attempt = Attempt(candidate: Candidate, reason: Reason, skipped: bool)

  datatype Result =
    | NoCandidates
    | Success(text: string, candidate: Candidate, attempts: seq<Attempt>)
    | Cancelled
    | Aborted
    | Refused(candidate: Candidate, reason: Reason)
    | Exhausted(attempts: seq<Attempt>)

  /** How a round ends: the chain stops with a result, or records an attempt and goes on. */
  datatype Verdict = Stop(result: Result) | GoOn(attempt: Attempt)

  predicate Eligible(r: Reason) { IsRetriable(r) && ShouldFallback(r) }

  /** The tracker at the availability check of a round that starts with `entries`. */
  function Checked(entries: Entries, r: Round): Entries { R.Replay(entries, r.before) }

  predicate IsRun(entries: Entries, c: Candidate, r: Round) {
    !r.cancelledBefore && Available(EntryOf(Checked(entries, r), c.provider), r.checkAt)
  }

  function VerdictOf(entries: Entries, c: Candidate, r: Round, attempts: seq<Attempt>): Verdict {
    if r.cancelledBefore then Stop(Cancelled)
    else if !IsRun(entries, c, r) then GoOn(Attempt(c, RateLimit, true))
    else match r.outcome
      case Response(text) => Stop(Success(text, c, attempts))
      case Unclassified => Stop(if r.cancelledAfter then Cancelled else Aborted)
      case Classified(reason) =>
        if r.cancelledAfter then Stop(Cancelled)
        else if !Eligible(reason) then Stop(Refused(c, reason))
        else GoOn(Attempt(c, reason, false))
  }

  /** The marks made on the tracker from the check of a round to its end: those of others
      during the call, then the chain's own. */
  function Marks(entries: Entries, c: Candidate, r: Round): seq<R.Event> {
    if !IsRun(entries, c, r) then [] else r.during + OwnMark(c, r)
  }

  /** The chain's own mark after a call. */
  function OwnMark(c: Candidate, r: Round): seq<R.Event> {
    match r.outcome
    case Response(_) => [R.Success(c.provider, r.markAt)]
    case Classified(reason) => if !r.cancelledAfter && Eligible(reason) then [R.Failure(c.provider, reason, r.markAt)] else []
    case Unclassified => []
  }

  /** The tracker after a round. */
  function Marked(entries: Entries, c: Candidate, r: Round): Entries {
    R.Replay(Checked(entries, r), Marks(entries, c, r))
  }

  /** The tracker when round `i` starts. */
  function EntriesAt(entries: Entries, cs: seq<Candidate>, rounds: seq<Round>, i: nat): Entries
    requires i <= |cs| && |rounds| == |cs|
  {
    if i == 0 then entries else
    var before := EntriesAt(entries, cs, rounds, i - 1);
    Marked(before, cs[i - 1], rounds[i - 1])
  }

  /** The chain from round `i` on. */
  function Chain(entries: Entries, cs: seq<Candidate>, rounds: seq<Round>, i: nat, attempts: seq<Attempt>): (Result, nat)
    requires i <= |cs| && |rounds| == |cs|
    decreases |cs| - i
  {
    if i == |cs| then (Exhausted(attempts), i) else
    match VerdictOf(EntriesAt(entries, cs, rounds, i), cs[i], rounds[i], attempts)
    case Stop(result) => (result, i + 1)
    case GoOn(a) => Chain(entries, cs, rounds, i + 1, attempts + [a])
  }

  /** The candidates called in the first `i` rounds. */
  function Ran(entries: Entries, cs: seq<Candidate>, rounds: seq<Round>, i: nat): seq<nat>
    requires i <= |cs| && |rounds| == |cs|
  {
    if i == 0 then [] else
    Ran(entries, cs, rounds, i - 1)
      + if IsRun(EntriesAt(entries, cs, rounds, i - 1), cs[i - 1], rounds[i - 1]) then [i - 1] else []
  }

  /** Tries the candidates in order. `rounds[i]` is the world's part in round `i`; `ran` lists
      the candidates that were called, `ended` is the number of rounds that took place. */
  method Execute(tracker: CooldownTracker, candidates: seq<Candidate>, rounds: seq<Round>)
    returns (result: Result, ran: seq<nat>, ended: nat)
    requires |rounds| == |candidates|
    modifies tracker
    ensures candidates == [] ==> result == NoCandidates && ended == 0
    ensures candidates != [] ==> (result, ended) == Chain(old(tracker.entries), candidates, rounds, 0, [])
    ensures ended <= |candidates|
    ensures tracker.entries == EntriesAt(old(tracker.entries), candidates, rounds, ended)
    ensures ran == Ran(old(tracker.entries), candidates, rounds, ended)
  {
    if |candidates| == 0 {
      assert EntriesAt(tracker.entries, candidates, rounds, 0) == tracker.entries;
      return NoCandidates, [], 0;
    }
    result, ran, ended := TryCandidates(tracker, candidates, rounds);
  }

  /** The loop over the candidates. */
  method TryCandidates(tracker: CooldownTracker, candidates: seq<Candidate>, rounds: seq<Round>)
    returns (result: Result, ran: seq<nat>, ended: nat)
    requires |rounds| == |candidates|
    modifies tracker
    ensures ended <= |candidates|
    ensures result == Chain(old(tracker.entries), candidates, rounds, 0, []).0
    ensures ended == Chain(old(tracker.entries), candidates, rounds, 0, []).1
    ensures tracker.entries == EntriesAt(old(tracker.entries), candidates, rounds, ended)
    ensures ran == Ran(old(tracker.entries), candidates, rounds, ended)
  {
    hide *;
    ghost var start := tracker.entries;
    BeforeFirstRound(start, candidates, rounds);
    ran := [];
    ended := 0;
    var attempts := [];
    while ended < |candidates|
      invariant ended <= |candidates|
      invariant tracker.entries == EntriesAt(start, candidates, rounds, ended)
      invariant ran == Ran(start, candidates, rounds, ended)
      invariant Chain(start, candidates, rounds, 0, []) == Chain(start, candidates, rounds, ended, attempts)
      decreases |candidates| - ended
    {
      var verdict, called := OneRound(tracker, candidates[ended], rounds[ended], attempts);
      OneMoreRound(start, candidates, rounds, ended, attempts, verdict, called);
      if called {
        ran := ran + [ended];
      }
      ended := ended + 1;
      match verdict
      case Stop(r) => return r, ran, ended;
      case GoOn(a) => attempts := attempts + [a];
    }
    AfterLastRound(start, candidates, rounds, ended, attempts);
    result := Exhausted(attempts);
  }

  lemma BeforeFirstRound(entries: Entries, cs: seq<Candidate>, rounds: seq<Round>)
    requires |rounds| == |cs|
    ensures EntriesAt(entries, cs, rounds, 0) == entries && Ran(entries, cs, rounds, 0) == []
  {
  }

  lemma AfterLastRound(entries: Entries, cs: seq<Candidate>, rounds: seq<Round>, i: nat, attempts: seq<Attempt>)
    requires i == |cs| == |rounds|
    ensures Chain(entries, cs, rounds, i, attempts) == (Exhausted(attempts), i)
  {
  }

  lemma OneMoreRound(
    entries: Entries, cs: seq<Candidate>, rounds: seq<Round>, i: nat, attempts: seq<Attempt>, verdict: Verdict, called: bool)
    requires i < |cs| == |rounds|
    requires verdict == VerdictOf(EntriesAt(entries, cs, rounds, i), cs[i], rounds[i], attempts)
    requires called == IsRun(EntriesAt(entries, cs, rounds, i), cs[i], rounds[i])
    ensures EntriesAt(entries, cs, rounds, i + 1) == Marked(EntriesAt(entries, cs, rounds, i), cs[i], rounds[i])
    ensures called ==> Ran(entries, cs, rounds, i + 1) == Ran(entries, cs, rounds, i) + [i]
    ensures !called ==> Ran(entries, cs, rounds, i + 1) == Ran(entries, cs, rounds, i)
    ensures verdict.Stop? ==> Chain(entries, cs, rounds, i, attempts) == (verdict.result, i + 1)
    ensures verdict.GoOn? ==>
              Chain(entries, cs, rounds, i, attempts) == Chain(entries, cs, rounds, i + 1, attempts + [verdict.attempt])
  {
    hide VerdictOf, IsRun, Marked;
  }

  /** The marks that other chains make meanwhile. */
  method OthersMark(tracker: CooldownTracker, events: seq<R.Event>)
    modifies tracker
    ensures tracker.entries == R.Replay(old(tracker.entries), events)
  {
    ghost var start := tracker.entries;
    for n := 0 to |events|
      invariant tracker.entries == R.Replay(start, events[..n])
    {
      assert events[..n + 1] == events[..n] + [events[n]];
      R.ReplaySnoc(start, events[..n], events[n]);
      match events[n]
      case Failure(provider, reason, now) => tracker.MarkFailure(provider, reason, now);
      case Success(provider, _) => tracker.MarkSuccess(provider);
    }
    assert events[..|events|] == events;
  }

  /** The loop body for one candidate. */
  method OneRound(tracker: CooldownTracker, candidate: Candidate, round: Round, attempts: seq<Attempt>)
    returns (verdict: Verdict, called: bool)
    modifies tracker
    ensures verdict == VerdictOf(old(tracker.entries), candidate, round, attempts)
    ensures called == IsRun(old(tracker.entries), candidate, round)
    ensures tracker.entries == Marked(old(tracker.entries), candidate, round)
  {
    OthersMark(tracker, round.before);
    ghost var checked := tracker.entries;
    assert R.Replay(checked, []) == checked;
    if round.cancelledBefore {
      return Stop(Cancelled), false;
    }
    var available := tracker.IsAvailable(candidate.provider, round.checkAt);
    if !available {
      return GoOn(Attempt(candidate, RateLimit, true)), false;
    }
    called := true;
    OthersMark(tracker, round.during);
    assert round.during + [] == round.during;
    match round.outcome {
      case Response(text) =>
        R.ReplaySnoc(checked, round.during, R.Success(candidate.provider, round.markAt));
        tracker.MarkSuccess(candidate.provider);
        verdict := Stop(Success(text, candidate, attempts));
      case Unclassified =>
        verdict := Stop(if round.cancelledAfter then Cancelled else Aborted);
      case Classified(reason) =>
        if round.cancelledAfter {
          verdict := Stop(Cancelled);
        } else if !IsRetriable(reason) || !ShouldFallback(reason) {
          verdict := Stop(Refused(candidate, reason));
        } else {
          R.ReplaySnoc(checked, round.during, R.Failure(candidate.provider, reason, round.markAt));
          tracker.MarkFailure(candidate.provider, reason, round.markAt);
          verdict := GoOn(Attempt(candidate, reason, false));
        }
    }
  }
}

/** What a caller can rely on. */
module FallbackTheorems {
  import opened Cooldown
  import R = CooldownRuns
  import opened Fallback

  /** The reasons the chain moves on for. */
  lemma EligibleReasons(r: Reason)
    ensures Eligible(r) <==> r in {Auth, RateLimit, Billing, Timeout, Overloaded, LongContextTier}
  {
  }

  /** One attempt for every candidate so far, skipped ones for a cooldown, the others for a
      reason that is both retriable and fallback-eligible. */
  ghost predicate Accounted(entries: Entries, cs: seq<Candidate>, rounds: seq<Round>, attempts: seq<Attempt>)
    requires |attempts| <= |cs| && |rounds| == |cs|
  {
    forall i | 0 <= i < |attempts| ::
      var a := attempts[i];
      && a.candidate == cs[i]
      && (a.skipped <==> !IsRun(EntriesAt(entries, cs, rounds, i), cs[i], rounds[i]))
      && (if a.skipped then a.reason == RateLimit
          else Eligible(a.reason) && rounds[i].outcome == Classified(a.reason))
  }

  /** The attempts a result reports. */
  function AttemptsOf(r: Result): seq<Attempt> {
    match r
    case Success(_, _, attempts) => attempts
    case Exhausted(attempts) => attempts
    case _ => []
  }

  /** An exhausted chain accounts for every candidate exactly once, in order; a successful one
      for every candidate before the one that answered. */
  lemma {:induction false} AttemptsAccountForCandidates(
    entries: Entries, cs: seq<Candidate>, rounds: seq<Round>, i: nat, attempts: seq<Attempt>)
    requires i <= |cs| && |rounds| == |cs| && |attempts| == i && Accounted(entries, cs, rounds, attempts)
    ensures var (result, ended) := Chain(entries, cs, rounds, i, attempts);
            && i <= ended <= |cs| && |AttemptsOf(result)| <= |cs| && Accounted(entries, cs, rounds, AttemptsOf(result))
            && (result.Exhausted? ==> |result.attempts| == |cs| == ended)
            && (result.Success? ==> ended >= 1 && |result.attempts| == ended - 1 && result.candidate == cs[ended - 1]
                                    && rounds[ended - 1].outcome == Response(result.text)
                                    && IsRun(EntriesAt(entries, cs, rounds, ended - 1), cs[ended - 1], rounds[ended - 1]))
            && (result.Refused? ==> ended >= 1 && result.candidate == cs[ended - 1] && !Eligible(result.reason)
                                    && rounds[ended - 1].outcome == Classified(result.reason))
    decreases |cs| - i
  {
    hide EntriesAt, IsRun, Eligible;
    if i < |cs| {
      var v := VerdictOf(EntriesAt(entries, cs, rounds, i), cs[i], rounds[i], attempts);
      if v.GoOn? {
        RoundAccounted(entries, cs, rounds, attempts);
        hide VerdictOf, Accounted;
        AttemptsAccountForCandidates(entries, cs, rounds, i + 1, attempts + [v.attempt]);
      } else {
        StopExplained(EntriesAt(entries, cs, rounds, i), cs[i], rounds[i], attempts);
      }
    }
  }

  lemma RoundAccounted(entries: Entries, cs: seq<Candidate>, rounds: seq<Round>, attempts: seq<Attempt>)
    requires |attempts| < |cs| == |rounds| && Accounted(entries, cs, rounds, attempts)
    ensures var i := |attempts|;
            var v := VerdictOf(EntriesAt(entries, cs, rounds, i), cs[i], rounds[i], attempts);
            v.GoOn? ==> Accounted(entries, cs, rounds, attempts + [v.attempt])
  {
    hide EntriesAt, Eligible, Available, EntryOf;
  }

  lemma StopExplained(entries: Entries, c: Candidate, r: Round, attempts: seq<Attempt>)
    ensures var v := VerdictOf(entries, c, r, attempts);
            v.Stop? ==>
              && !v.result.Exhausted?
              && (v.result.Success? ==> v.result.attempts == attempts && v.result.candidate == c
                                        && r.outcome == Response(v.result.text) && IsRun(entries, c, r))
              && (v.result.Refused? ==> v.result.candidate == c && !Eligible(v.result.reason)
                                        && r.outcome == Classified(v.result.reason))
  {
  }

  // ---- When a chain stops --------------------------------------------------

  /** The provider of the candidate is out of cooldown when its round checks it. */
  predicate Open(entries: Entries, c: Candidate, r: Round) {
    Available(EntryOf(Checked(entries, r), c.provider), r.checkAt)
  }

  /** The world lets the chain go on after this round: it was not cancelled, and its provider
      was either cooling down or failed for a reason to try another one. */
  predicate GoesOn(entries: Entries, c: Candidate, r: Round) {
    && !r.cancelledBefore
    && (Open(entries, c, r) ==> r.outcome.Classified? && !r.cancelledAfter && Eligible(r.outcome.reason))
  }

  /** The result says why the chain stopped at this round. */
  predicate StoppedFor(result: Result, entries: Entries, c: Candidate, r: Round) {
    && (result.Cancelled? <==> r.cancelledBefore || (Open(entries, c, r) && r.cancelledAfter && !r.outcome.Response?))
    && (result.Success? <==> !r.cancelledBefore && Open(entries, c, r) && r.outcome.Response?)
    && (result.Aborted? <==> !r.cancelledBefore && Open(entries, c, r) && r.outcome.Unclassified? && !r.cancelledAfter)
    && (result.Refused? <==> !r.cancelledBefore && Open(entries, c, r) && r.outcome.Classified? && !r.cancelledAfter
                             && !Eligible(r.outcome.reason))
    && (result.Success? ==> result.text == r.outcome.text && result.candidate == c)
    && (result.Refused? ==> result.reason == r.outcome.reason && result.candidate == c)
  }

  predicate GoesOnAt(entries: Entries, cs: seq<Candidate>, rounds: seq<Round>, k: nat) {
    k < |cs| == |rounds| && GoesOn(EntriesAt(entries, cs, rounds, k), cs[k], rounds[k])
  }

  lemma StopsOrGoesOn(entries: Entries, c: Candidate, r: Round, attempts: seq<Attempt>)
    ensures var v := VerdictOf(entries, c, r, attempts);
            && (v.GoOn? <==> GoesOn(entries, c, r))
            && (v.Stop? ==> StoppedFor(v.result, entries, c, r) && !v.result.Exhausted? && !v.result.NoCandidates?)
  {
    hide Available, Checked, EntryOf, Eligible;
  }

  lemma StopsWithReason(entries: Entries, c: Candidate, r: Round, result: Result)
    requires StoppedFor(result, entries, c, r) && !result.Exhausted? && !result.NoCandidates?
    ensures !GoesOn(entries, c, r)
  {
    hide Open, Eligible;
  }

  /** The chain takes the candidates one by one and stops at the first round that does not let
      it go on, with the result that tells why; it is exhausted exactly when every round does. */
  lemma {:induction false} ChainStopsWhenItMust(
    entries: Entries, cs: seq<Candidate>, rounds: seq<Round>, i: nat, attempts: seq<Attempt>)
    requires i <= |cs| == |rounds|
    ensures var (result, ended) := Chain(entries, cs, rounds, i, attempts);
            && i <= ended <= |cs|
            && (result.Exhausted? <==> forall k: nat | i <= k < |cs| :: GoesOnAt(entries, cs, rounds, k))
            && (result.Exhausted? ==> ended == |cs|)
            && (!result.Exhausted? ==>
                  && i < ended && (forall k: nat | i <= k < ended - 1 :: GoesOnAt(entries, cs, rounds, k))
                  && !GoesOnAt(entries, cs, rounds, ended - 1) && !result.NoCandidates?
                  && StoppedFor(result, EntriesAt(entries, cs, rounds, ended - 1), cs[ended - 1], rounds[ended - 1]))
    decreases |cs| - i
  {
    hide EntriesAt, StoppedFor, GoesOn;
    if i < |cs| {
      var before := EntriesAt(entries, cs, rounds, i);
      var v := VerdictOf(before, cs[i], rounds[i], attempts);
      StopsOrGoesOn(before, cs[i], rounds[i], attempts);
      hide VerdictOf;
      if v.GoOn? {
        ChainStopsWhenItMust(entries, cs, rounds, i + 1, attempts + [v.attempt]);
      } else {
        StopsWithReason(before, cs[i], rounds[i], v.result);
        assert !GoesOnAt(entries, cs, rounds, i);
      }
    }
  }

  /** The chain's own mark on the tracker it finds after the call. */
  lemma OwnMarkEntry(entries: Entries, c: Candidate, r: Round, provider: string)
    ensures var e := EntryOf(entries, provider);
            EntryOf(R.Replay(entries, OwnMark(c, r)), provider)
              == if provider != c.provider then e
                 else if r.outcome.Response? then Succeeded(e)
                 else if r.outcome.Classified? && !r.cancelledAfter && Eligible(r.outcome.reason)
                   then Failed(e, r.outcome.reason, r.markAt)
                 else e
  {
    hide Eligible, Failed;
    assert R.Replay(entries, []) == entries;
    if |OwnMark(c, r)| == 1 {
      R.ReplaySnoc(entries, [], OwnMark(c, r)[0]);
      R.NextEntry(entries, OwnMark(c, r)[0], provider);
      assert [] + OwnMark(c, r) == [OwnMark(c, r)[0]];
    }
  }

  /** A marked failure blocks for a minute at least, a success clears. */
  lemma MarkEffects(e: Entry, reason: Reason, at: int, now: int)
    ensures R.Cleared(Succeeded(e)) && Available(Succeeded(e), now)
    ensures Failed(e, reason, at).lastFailure == at
    ensures 0 < at <= now < at + MINUTE ==> !Available(Failed(e, reason, at), now)
  {
    if 0 < at <= now < at + MINUTE && Available(Failed(e, reason, at), now) {
      R.FailureBlocks(e, reason, at, now);
    }
  }

  /** What a round leaves in the tracker beside the marks of others: a response clears the
      provider, a failure to fall back from blocks it, anything else changes nothing; no other
      provider is touched. */
  lemma RoundMarksOnce(entries: Entries, c: Candidate, r: Round, provider: string, now: int)
    ensures var called := !r.cancelledBefore && Open(entries, c, r);
            var e := EntryOf(R.Replay(Checked(entries, r), r.during), provider);
            var e' := EntryOf(Marked(entries, c, r), provider);
            && (!called ==> Marked(entries, c, r) == Checked(entries, r))
            && (called && provider != c.provider ==> e' == e)
            && (called && provider == c.provider ==>
                  if r.outcome.Response? then R.Cleared(e') && Available(e', now)
                  else if GoesOn(entries, c, r) then
                    e'.lastFailure == r.markAt && (0 < r.markAt <= now < r.markAt + MINUTE ==> !Available(e', now))
                  else e' == e)
  {
    var meanwhile := R.Replay(Checked(entries, r), r.during);
    R.ReplayAppend(Checked(entries, r), r.during, OwnMark(c, r));
    OwnMarkEntry(meanwhile, c, r, provider);
    if r.outcome.Classified? {
      MarkEffects(EntryOf(meanwhile, provider), r.outcome.reason, r.markAt, now);
    } else {
      MarkEffects(EntryOf(meanwhile, provider), Auth, r.markAt, now);
    }
    hide Available, Failed, Succeeded, Eligible, EntryOf, OwnMark, R.Cleared, Checked;
    assert R.Replay(Checked(entries, r), []) == Checked(entries, r);
  }

  // ---- A failed provider within one execution ------------------------------

  predicate Within(evs: seq<R.Event>, from: int, to: int) {
    forall i | 0 <= i < |evs| :: from <= evs[i].now <= to
  }

  /** Rounds take place at positive clock readings that never go back, and so do the marks of others. */
  predicate InOrder(rounds: seq<Round>) {
    && (forall i | 0 <= i < |rounds| ::
          0 < rounds[i].checkAt <= rounds[i].markAt && Within(rounds[i].during, rounds[i].checkAt, rounds[i].markAt))
    && (forall i, j | 0 <= i < j < |rounds| ::
          rounds[i].markAt <= rounds[j].checkAt && Within(rounds[j].before, rounds[i].markAt, rounds[j].checkAt))
  }

  predicate FailedIn(entries: Entries, c: Candidate, r: Round) {
    IsRun(entries, c, r) && r.outcome.Classified? && !r.cancelledAfter && Eligible(r.outcome.reason)
  }

  /** Every mark on the tracker after round `i` and before the check of round `j`, by whatever chain. */
  function Between(entries: Entries, cs: seq<Candidate>, rounds: seq<Round>, i: nat, j: nat): seq<R.Event>
    requires i < j < |cs| == |rounds|
    decreases j
  {
    if j == i + 1 then rounds[j].before
    else Between(entries, cs, rounds, i, j - 1)
           + Marks(EntriesAt(entries, cs, rounds, j - 1), cs[j - 1], rounds[j - 1]) + rounds[j].before
  }

  /** The last mark about the provider is a success. */
  predicate EndsWithSuccess(evs: seq<R.Event>, provider: string) {
    evs != [] && if evs[|evs| - 1].provider == provider then evs[|evs| - 1].Success?
                 else EndsWithSuccess(evs[..|evs| - 1], provider)
  }

  lemma JustOneRound(entries: Entries, cs: seq<Candidate>, rounds: seq<Round>, i: nat)
    requires i + 1 < |cs| == |rounds|
    ensures Between(entries, cs, rounds, i, i + 1) == rounds[i + 1].before
  {
  }

  lemma OneRoundMore(entries: Entries, cs: seq<Candidate>, rounds: seq<Round>, i: nat, j: nat)
    requires i + 1 < j < |cs| == |rounds|
    ensures var before := EntriesAt(entries, cs, rounds, j - 1);
            var marks := Marks(before, cs[j - 1], rounds[j - 1]);
            && EntriesAt(entries, cs, rounds, j) == R.Replay(R.Replay(before, rounds[j - 1].before), marks)
            && Between(entries, cs, rounds, i, j) == Between(entries, cs, rounds, i, j - 1) + marks + rounds[j].before
  {
    hide Marks, R.Replay;
  }

  lemma {:induction false} BetweenReplays(entries: Entries, cs: seq<Candidate>, rounds: seq<Round>, i: nat, j: nat)
    requires i < j < |cs| == |rounds|
    ensures R.Replay(EntriesAt(entries, cs, rounds, j), rounds[j].before)
            == R.Replay(EntriesAt(entries, cs, rounds, i + 1), Between(entries, cs, rounds, i, j))
    decreases j
  {
    hide *;
    if j == i + 1 {
      JustOneRound(entries, cs, rounds, i);
    } else {
      OneRoundMore(entries, cs, rounds, i, j);
      var before, start := EntriesAt(entries, cs, rounds, j - 1), EntriesAt(entries, cs, rounds, i + 1);
      var log, marks := Between(entries, cs, rounds, i, j - 1), Marks(before, cs[j - 1], rounds[j - 1]);
      BetweenReplays(entries, cs, rounds, i, j - 1);
      R.ReplayAppend(start, log, marks);
      R.ReplayAppend(start, log + marks, rounds[j].before);
    }
  }

  lemma WithinAppend(a: seq<R.Event>, b: seq<R.Event>, from: int, to: int)
    requires Within(a, from, to) && Within(b, from, to)
    ensures Within(a + b, from, to)
  {
  }

  lemma MarksWithin(entries: Entries, c: Candidate, r: Round, from: int, to: int)
    requires from <= r.checkAt <= r.markAt <= to && Within(r.during, r.checkAt, r.markAt)
    ensures Within(Marks(entries, c, r), from, to)
  {
    hide IsRun;
    assert Within(OwnMark(c, r), from, to);
    WithinAppend(r.during, OwnMark(c, r), from, to);
  }

  lemma RoundWithin(entries: Entries, cs: seq<Candidate>, rounds: seq<Round>, i: nat, j: nat)
    requires i + 1 < j < |cs| == |rounds| && InOrder(rounds)
    ensures Within(Marks(EntriesAt(entries, cs, rounds, j - 1), cs[j - 1], rounds[j - 1]), rounds[i].markAt, rounds[j].checkAt)
  {
    assert rounds[i].markAt <= rounds[j - 1].checkAt && rounds[j - 1].markAt <= rounds[j].checkAt;
    hide EntriesAt, Marks;
    MarksWithin(EntriesAt(entries, cs, rounds, j - 1), cs[j - 1], rounds[j - 1], rounds[i].markAt, rounds[j].checkAt);
  }

  lemma {:induction false} BetweenWithin(entries: Entries, cs: seq<Candidate>, rounds: seq<Round>, i: nat, j: nat)
    requires i < j < |cs| == |rounds| && InOrder(rounds)
    ensures Within(Between(entries, cs, rounds, i, j), rounds[i].markAt, rounds[j].checkAt)
    decreases j
  {
    hide *;
    if j == i + 1 {
      JustOneRound(entries, cs, rounds, i);
      BeforeWithin(rounds, i, j);
    } else {
      OneRoundMore(entries, cs, rounds, i, j);
      BeforeWithin(rounds, j - 1, j);
      BeforeWithin(rounds, i, j);
      var log := Between(entries, cs, rounds, i, j - 1);
      var marks := Marks(EntriesAt(entries, cs, rounds, j - 1), cs[j - 1], rounds[j - 1]);
      BetweenWithin(entries, cs, rounds, i, j - 1);
      WithinLonger(log, rounds[i].markAt, rounds[j - 1].checkAt, rounds[j].checkAt);
      RoundWithin(entries, cs, rounds, i, j);
      WithinAppend(log, marks, rounds[i].markAt, rounds[j].checkAt);
      WithinAppend(log + marks, rounds[j].before, rounds[i].markAt, rounds[j].checkAt);
    }
  }

  lemma BeforeWithin(rounds: seq<Round>, i: nat, j: nat)
    requires i < j < |rounds| && InOrder(rounds)
    ensures rounds[i].checkAt <= rounds[i].markAt <= rounds[j].checkAt
    ensures Within(rounds[j].before, rounds[i].markAt, rounds[j].checkAt)
  {
  }

  lemma WithinLonger(evs: seq<R.Event>, from: int, to: int, later: int)
    requires Within(evs, from, to) && to <= later
    ensures Within(evs, from, later)
  {
  }

  /** Within a minute of a failure, a provider is available exactly when the last mark about it
      is a success. */
  lemma {:induction false} AvailableAgain(entries: Entries, evs: seq<R.Event>, provider: string, failedAt: int, now: int)
    requires !Available(EntryOf(entries, provider), now)
    requires 0 < failedAt <= now < failedAt + MINUTE && Within(evs, failedAt, now)
    ensures Available(EntryOf(R.Replay(entries, evs), provider), now) <==> EndsWithSuccess(evs, provider)
  {
    if evs != [] {
      var init, ev := evs[..|evs| - 1], evs[|evs| - 1];
      AvailableAgain(entries, init, provider, failedAt, now);
      assert init + [ev] == evs;
      R.ReplaySnoc(entries, init, ev);
      R.NextEntry(R.Replay(entries, init), ev, provider);
      var e := EntryOf(R.Replay(entries, init), provider);
      hide Failed, R.Replay, R.Next, EntryOf;
      if ev.provider == provider && ev.Failure? && Available(Failed(e, ev.reason, ev.now), now) {
        R.FailureBlocks(e, ev.reason, ev.now, now);
      }
    }
  }

  /** A failure blocks its provider for a minute from its mark on. */
  lemma FailureStartsBlock(entries: Entries, c: Candidate, r: Round, now: int)
    requires FailedIn(entries, c, r) && 0 < r.markAt <= now < r.markAt + MINUTE
    ensures !Available(EntryOf(Marked(entries, c, r), c.provider), now)
  {
    var mark := R.Failure(c.provider, r.outcome.reason, r.markAt);
    assert Marks(entries, c, r) == r.during + [mark];
    hide IsRun, Marks, Failed, Available;
    var meanwhile := R.Replay(Checked(entries, r), r.during);
    R.ReplaySnoc(Checked(entries, r), r.during, mark);
    R.NextEntry(meanwhile, mark, c.provider);
    if Available(Failed(EntryOf(meanwhile, c.provider), mark.reason, r.markAt), now) {
      R.FailureBlocks(EntryOf(meanwhile, c.provider), mark.reason, r.markAt, now);
    }
  }

  /** Within a minute of its failure, a provider listed again is called again exactly when, of
      all marks any chain made on it in between, the last one is a success. */
  lemma FailedProviderRests(entries: Entries, cs: seq<Candidate>, rounds: seq<Round>, i: nat, j: nat)
    requires i < j < |cs| == |rounds| && InOrder(rounds) && cs[i].provider == cs[j].provider
    requires FailedIn(EntriesAt(entries, cs, rounds, i), cs[i], rounds[i])
    requires rounds[j].checkAt < rounds[i].markAt + MINUTE
    ensures IsRun(EntriesAt(entries, cs, rounds, j), cs[j], rounds[j])
            <==> !rounds[j].cancelledBefore && EndsWithSuccess(Between(entries, cs, rounds, i, j), cs[j].provider)
  {
    var start := EntriesAt(entries, cs, rounds, i);
    assert EntriesAt(entries, cs, rounds, i + 1) == Marked(start, cs[i], rounds[i]);
    assert rounds[i].markAt <= rounds[j].checkAt;
    hide EntriesAt, Marked, Between, EndsWithSuccess, FailedIn, Available;
    FailureStartsBlock(start, cs[i], rounds[i], rounds[j].checkAt);
    BetweenReplays(entries, cs, rounds, i, j);
    BetweenWithin(entries, cs, rounds, i, j);
    AvailableAgain(EntriesAt(entries, cs, rounds, i + 1), Between(entries, cs, rounds, i, j), cs[j].provider,
                   rounds[i].markAt, rounds[j].checkAt);
  }

  predicate HasSuccess(evs: seq<R.Event>, provider: string) {
    exists n | 0 <= n < |evs| :: evs[n].Success? && evs[n].provider == provider
  }

  /** Another chain marks a success of the provider after round `i` and before the check of round `j`. */
  predicate OthersSucceed(rounds: seq<Round>, provider: string, i: nat, j: nat)
    requires i < j < |rounds|
  {
    exists k | i < k <= j ::
      HasSuccess(rounds[k].before, provider) || (k < j && HasSuccess(rounds[k].during, provider))
  }

  lemma {:induction false} EndsWithOneOf(evs: seq<R.Event>, provider: string)
    ensures EndsWithSuccess(evs, provider) ==> HasSuccess(evs, provider)
  {
    if EndsWithSuccess(evs, provider) {
      if evs[|evs| - 1].provider != provider {
        EndsWithOneOf(evs[..|evs| - 1], provider);
        var n :| 0 <= n < |evs| - 1 && evs[..|evs| - 1][n].Success? && evs[..|evs| - 1][n].provider == provider;
        assert evs[n].Success? && evs[n].provider == provider;
      }
    }
  }

  lemma SuccessInOneOf(a: seq<R.Event>, b: seq<R.Event>, c: seq<R.Event>, provider: string)
    requires HasSuccess(a + b + c, provider)
    ensures HasSuccess(a, provider) || HasSuccess(b, provider) || HasSuccess(c, provider)
  {
    var n :| 0 <= n < |a + b + c| && (a + b + c)[n].Success? && (a + b + c)[n].provider == provider;
    if n < |a| {
      assert a[n].Success?;
    } else if n < |a| + |b| {
      assert b[n - |a|] == (a + b + c)[n];
    } else {
      assert c[n - |a| - |b|] == (a + b + c)[n];
    }
  }

  /** A round after which the chain goes on marks no success of its own. */
  lemma GoingOnMarksNoSuccess(entries: Entries, c: Candidate, r: Round, attempts: seq<Attempt>, provider: string)
    requires VerdictOf(entries, c, r, attempts).GoOn? && HasSuccess(Marks(entries, c, r), provider)
    ensures HasSuccess(r.during, provider)
  {
    hide Available, Checked, Eligible;
    var n :| 0 <= n < |Marks(entries, c, r)| && Marks(entries, c, r)[n].Success? && Marks(entries, c, r)[n].provider == provider;
    assert r.during[n].Success? && r.during[n].provider == provider;
  }

  /** Every round before the last one that takes place goes on. */
  lemma {:induction false} EarlierRoundsGoOn(
    entries: Entries, cs: seq<Candidate>, rounds: seq<Round>, i: nat, attempts: seq<Attempt>, k: nat)
    returns (made: seq<Attempt>)
    requires i <= k && |rounds| == |cs| && k + 1 < |cs| && k + 1 < Chain(entries, cs, rounds, i, attempts).1
    ensures VerdictOf(EntriesAt(entries, cs, rounds, k), cs[k], rounds[k], made).GoOn?
    decreases k - i
  {
    hide EntriesAt, VerdictOf;
    if i == k {
      made := attempts;
    } else {
      var v := VerdictOf(EntriesAt(entries, cs, rounds, i), cs[i], rounds[i], attempts);
      made := EarlierRoundsGoOn(entries, cs, rounds, i + 1, attempts + [v.attempt], k);
    }
  }

  lemma {:induction false} SuccessesAreOthers(
    entries: Entries, cs: seq<Candidate>, rounds: seq<Round>, i: nat, j: nat, end: nat, provider: string)
    requires i < j <= end < |cs| == |rounds| && end < Chain(entries, cs, rounds, 0, []).1
    requires HasSuccess(Between(entries, cs, rounds, i, j), provider)
    ensures OthersSucceed(rounds, provider, i, j)
    decreases j
  {
    hide *;
    if j == i + 1 {
      JustOneRound(entries, cs, rounds, i);
      Counts(rounds, provider, i, j, j);
    } else {
      OneRoundMore(entries, cs, rounds, i, j);
      var log, before := Between(entries, cs, rounds, i, j - 1), EntriesAt(entries, cs, rounds, j - 1);
      var marks := Marks(before, cs[j - 1], rounds[j - 1]);
      SuccessInOneOf(log, marks, rounds[j].before, provider);
      Counts(rounds, provider, i, j, j);
      if HasSuccess(log, provider) {
        SuccessesAreOthers(entries, cs, rounds, i, j - 1, end, provider);
        CountsLater(rounds, provider, i, j - 1);
      } else if HasSuccess(marks, provider) {
        var attempts := EarlierRoundsGoOn(entries, cs, rounds, 0, [], j - 1);
        GoingOnMarksNoSuccess(before, cs[j - 1], rounds[j - 1], attempts, provider);
        Counts(rounds, provider, i, j, j - 1);
      }
    }
  }

  lemma Counts(rounds: seq<Round>, provider: string, i: nat, j: nat, k: nat)
    requires i < k <= j < |rounds|
    ensures HasSuccess(rounds[k].before, provider) || (k < j && HasSuccess(rounds[k].during, provider))
            ==> OthersSucceed(rounds, provider, i, j)
  {
  }

  lemma CountsLater(rounds: seq<Round>, provider: string, i: nat, j: nat)
    requires i < j && j + 1 < |rounds| && OthersSucceed(rounds, provider, i, j)
    ensures OthersSucceed(rounds, provider, i, j + 1)
  {
    hide HasSuccess;
  }

  /** So in a round that takes place, a provider that failed less than a minute ago is called
      again only if another chain has marked it successful meanwhile. */
  lemma RestsUnlessOthersSucceed(entries: Entries, cs: seq<Candidate>, rounds: seq<Round>, i: nat, j: nat)
    requires i < j < |cs| == |rounds| && InOrder(rounds) && cs[i].provider == cs[j].provider
    requires j < Chain(entries, cs, rounds, 0, []).1
    requires FailedIn(EntriesAt(entries, cs, rounds, i), cs[i], rounds[i])
    requires IsRun(EntriesAt(entries, cs, rounds, j), cs[j], rounds[j])
    ensures rounds[j].checkAt >= rounds[i].markAt + MINUTE || OthersSucceed(rounds, cs[j].provider, i, j)
  {
    hide *;
    if rounds[j].checkAt < rounds[i].markAt + MINUTE {
      FailedProviderRests(entries, cs, rounds, i, j);
      EndsWithOneOf(Between(entries, cs, rounds, i, j), cs[j].provider);
      SuccessesAreOthers(entries, cs, rounds, i, j, j, cs[j].provider);
    }
  }

  // ---- The calls -----------------------------------------------------------

  predicate Increasing(ran: seq<nat>, bound: nat) {
    && (forall a, b | 0 <= a < b < |ran| :: ran[a] < ran[b])
    && (forall a | 0 <= a < |ran| :: ran[a] < bound)
  }

  predicate WasAvailable(entries: Entries, cs: seq<Candidate>, rounds: seq<Round>, k: nat) {
    k < |cs| == |rounds|
    && Available(EntryOf(Checked(EntriesAt(entries, cs, rounds, k), rounds[k]), cs[k].provider), rounds[k].checkAt)
  }

  predicate AllAvailable(entries: Entries, cs: seq<Candidate>, rounds: seq<Round>, ran: seq<nat>) {
    forall n | 0 <= n < |ran| :: WasAvailable(entries, cs, rounds, ran[n])
  }

  /** The calls are made in candidate order, at most one per candidate, each to a provider
      available at that moment. */
  lemma {:induction false} CallsInOrder(entries: Entries, cs: seq<Candidate>, rounds: seq<Round>, i: nat)
    requires i <= |cs| == |rounds|
    ensures Increasing(Ran(entries, cs, rounds, i), i)
    ensures AllAvailable(entries, cs, rounds, Ran(entries, cs, rounds, i))
  {
    hide *;
    if i == 0 {
      NoneRan(entries, cs, rounds);
    } else {
      var ran := Ran(entries, cs, rounds, i - 1);
      CallsInOrder(entries, cs, rounds, i - 1);
      RoundRan(entries, cs, rounds, i - 1);
      IncreasingMore(ran, i - 1);
      AvailableMore(entries, cs, rounds, ran, i - 1);
    }
  }

  /** A candidate is called exactly when its round is not cancelled and its provider is open. */
  lemma {:induction false} CallsAreExact(entries: Entries, cs: seq<Candidate>, rounds: seq<Round>, i: nat)
    requires i <= |cs| == |rounds|
    ensures forall k: nat | k < i ::
              k in Ran(entries, cs, rounds, i)
              <==> !rounds[k].cancelledBefore && Open(EntriesAt(entries, cs, rounds, k), cs[k], rounds[k])
  {
    hide EntriesAt, Available, Checked, EntryOf;
    if i > 0 {
      CallsAreExact(entries, cs, rounds, i - 1);
      CallsInOrder(entries, cs, rounds, i - 1);
    }
  }

  lemma NoneRan(entries: Entries, cs: seq<Candidate>, rounds: seq<Round>)
    requires |cs| == |rounds|
    ensures Increasing(Ran(entries, cs, rounds, 0), 0) && AllAvailable(entries, cs, rounds, Ran(entries, cs, rounds, 0))
  {
  }

  lemma RoundRan(entries: Entries, cs: seq<Candidate>, rounds: seq<Round>, i: nat)
    requires i < |cs| == |rounds|
    ensures Ran(entries, cs, rounds, i + 1) == Ran(entries, cs, rounds, i)
            || (Ran(entries, cs, rounds, i + 1) == Ran(entries, cs, rounds, i) + [i] && WasAvailable(entries, cs, rounds, i))
  {
    hide EntriesAt, Available, Checked;
  }

  lemma IncreasingMore(ran: seq<nat>, i: nat)
    requires Increasing(ran, i)
    ensures Increasing(ran, i + 1) && Increasing(ran + [i], i + 1)
  {
  }

  lemma AvailableMore(entries: Entries, cs: seq<Candidate>, rounds: seq<Round>, ran: seq<nat>, i: nat)
    requires AllAvailable(entries, cs, rounds, ran)
    ensures WasAvailable(entries, cs, rounds, i) ==> AllAvailable(entries, cs, rounds, ran + [i])
  {
    hide WasAvailable;
  }
}
