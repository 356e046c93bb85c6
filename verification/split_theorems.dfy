/** What every run of the splitter keeps, and exactly when a bound on header lengths makes
    it end. */
module SplitTheorems {
  import opened Numbers
  import opened Runes
  import opened Search
  import opened Split

  // ---- Chunk length --------------------------------------------------------

  predicate Fits(out: seq<Chunk>, maxLen: int) {
    forall c | c in out :: 0 < |c.text| <= maxLen
  }

  lemma ApplyFits(s: Loop, plan: Plan, maxLen: int)
    requires s.Valid() && !s.Done() && Fits(s.out, maxLen) && InBounds(plan, s.text, s.start, maxLen)
    ensures Fits(Apply(s, plan, maxLen).out, maxLen)
  {
  }

  /** Every chunk of every run has between one and `maxLen` runes, whether or not the run ends. */
  lemma {:induction false} ChunksFit(s: Loop, maxLen: int, n: nat)
    requires s.Valid() && maxLen > 0 && Fits(s.out, maxLen)
    ensures Fits(Run(s, maxLen, n).out, maxLen)
    decreases n
  {
    hide Decide, Apply;
    if n > 0 && !s.Done() {
      StepValid(s, maxLen);
      ApplyFits(s, Decide(s.text, s.start, maxLen), maxLen);
      ChunksFit(Step(s, maxLen), maxLen, n - 1);
    }
  }

  // ---- Conservation --------------------------------------------------------

  /** The chunks without injected fences and reopened headers, concatenated. */
  ghost function Bodies(out: seq<Chunk>): string
    requires forall c | c in out :: c.Valid()
  {
    if out == [] then [] else Bodies(out[..|out| - 1]) + out[|out| - 1].Body()
  }

  /** The visible runes carried over so far, followed by those still unread. */
  ghost function Carried(s: Loop): string
    requires s.Valid()
  {
    Erase(Bodies(s.out)) + Erase(s.text[s.start + s.injected..])
  }

  lemma BodiesSnoc(out: seq<Chunk>, c: Chunk)
    requires (forall x | x in out :: x.Valid()) && c.Valid()
    ensures forall x | x in out + [c] :: x.Valid()
    ensures Bodies(out + [c]) == Bodies(out) + c.Body()
  {
    hide Chunk.Valid, Chunk.Body;
    assert (out + [c])[..|out|] == out;
  }

  lemma Regroup(a: string, b: string, c: string)
    ensures (a + b) + c == a + (b + c)
  {
  }

  lemma CarriedBy(s: Loop, c: Chunk, next: Loop)
    requires s.Valid() && next.Valid() && c.Valid() && next.out == s.out + [c]
    requires Erase(s.text[s.start + s.injected..]) == Erase(c.Body()) + Erase(next.text[next.start + next.injected..])
    ensures Carried(next) == Carried(s)
  {
    BodiesSnoc(s.out, c);
    hide Bodies, Erase, Chunk.Body, Chunk.Valid;
    EraseAppend(Bodies(s.out), c.Body());
    Regroup(Erase(Bodies(s.out)), Erase(c.Body()), Erase(next.text[next.start + next.injected..]));
  }

  /** What a cut emits and leaves unread, net of injected runes. */
  lemma CutParts(s: Loop, at: nat, maxLen: int) returns (c: Chunk, to: nat)
    requires s.Valid() && InBounds(Cut(at), s.text, s.start, maxLen)
    ensures var next := Apply(s, Cut(at), maxLen);
            var from := s.start + s.injected;
            && next.Valid() && c.Valid() && next.out == s.out + [c]
            && c.Body() == s.text[Min(from, at)..at]
            && Max(from, at) <= to == next.start + next.injected <= |next.text| && next.text == s.text
            && forall k | Max(from, at) <= k < to :: IsSpace(s.text[k])
  {
    ApplyValid(s, Cut(at), maxLen);
    SkipBlanksSkips(s.text, at);
    hide SkipBlanks;
    var next := Apply(s, Cut(at), maxLen);
    c, to := next.out[|s.out|], next.start + next.injected;
  }

  lemma CutCarries(s: Loop, at: nat, maxLen: int)
    requires s.Valid() && InBounds(Cut(at), s.text, s.start, maxLen)
    ensures Apply(s, Cut(at), maxLen).Valid() && Carried(Apply(s, Cut(at), maxLen)) == Carried(s)
  {
    hide Apply, Carried, Bodies, Erase, IsSpace, Chunk.Body;
    var c, to := CutParts(s, at, maxLen);
    var from := s.start + s.injected;
    EraseSplits(s.text, Min(from, at), at);
    EraseSkips(s.text, Max(from, at), to);
    if at < from {
      EraseSpaces([]);
      assert s.text[at..at] == [];
    }
    CarriedBy(s, c, Apply(s, Cut(at), maxLen));
  }

  lemma RestCarries(s: Loop, maxLen: int)
    requires s.Valid() && InBounds(Rest, s.text, s.start, maxLen)
    ensures Apply(s, Rest, maxLen).Valid() && Carried(Apply(s, Rest, maxLen)) == Carried(s)
  {
    ApplyValid(s, Rest, maxLen);
    var next := Apply(s, Rest, maxLen);
    var c := next.out[|s.out|];
    assert c.Body() == s.text[s.start + s.injected..];
    CarriedBy(s, c, next);
  }

  /** Trimming a rebuilt text `front + tail` after its `mark`-th rune loses only whitespace. */
  lemma TrimmedTail(t: string, mark: nat)
    requires t != [] && !IsSpace(t[0]) && mark <= |t|
    ensures var r := TrimSpace(t); Erase(r[Min(|r|, mark)..]) == Erase(t[mark..])
  {
    TrimSpaceKeepsFront(t);
    var r := TrimSpace(t);
    if mark <= |r| {
      assert t[mark..][..|r| - mark] == r[mark..] && t[mark..][|r| - mark..] == t[|r|..];
      EraseSplits(t[mark..], 0, |r| - mark);
      assert t[mark..][0..] == t[mark..] && t[mark..][0..|r| - mark] == r[mark..];
      EraseSpaces(t[|r|..]);
    } else {
      EraseSpaces(t[mark..]);
      assert r[|r|..] == [];
    }
  }

  /** What a reopening step emits and leaves unread, net of the runes it injects. */
  lemma ReopenParts(s: Loop, at: nat, header: string, maxLen: int) returns (c: Chunk)
    requires s.Valid() && InBounds(Reopen(at, header), s.text, s.start, maxLen)
    ensures var next := Apply(s, Reopen(at, header), maxLen);
            var kept := TrimRight(s.text[s.start..at], IsBlank);
            var rest := TrimSpace(header + "\n" + s.text[at..]);
            && next.Valid() && c.Valid() && next.out == s.out + [c]
            && c.Body() == kept[Min(s.injected, |kept|)..]
            && next.text[next.start + next.injected..]
               == rest[Min(|rest|, |header| + 1 + Max(0, s.start + s.injected - at))..]
  {
    hide TrimSpace, TrimRight;
    var plan := Reopen(at, header);
    ApplyValid(s, plan, maxLen);
    var next := Apply(s, plan, maxLen);
    c := next.out[|s.out|];
  }

  lemma RebuiltErases(t: string, at: nat, header: string, spare: nat)
    requires at + spare <= |t| && FENCE <= header
    ensures var rest := TrimSpace(header + "\n" + t[at..]);
            Erase(rest[Min(|rest|, |header| + 1 + spare)..]) == Erase(t[at + spare..])
  {
    var rebuilt := header + "\n" + t[at..];
    assert rebuilt[|header| + 1 + spare..] == t[at + spare..];
    assert rebuilt[0] == '`';
    TrimmedTail(rebuilt, |header| + 1 + spare);
  }

  lemma ReopenCarries(s: Loop, at: nat, header: string, maxLen: int)
    requires s.Valid() && InBounds(Reopen(at, header), s.text, s.start, maxLen)
    ensures var next := Apply(s, Reopen(at, header), maxLen);
            next.Valid() && Carried(next) == Carried(s)
  {
    hide Apply, Carried, TrimSpace, TrimRight, Erase;
    var c := ReopenParts(s, at, header, maxLen);
    RebuiltErases(s.text, at, header, Max(0, s.start + s.injected - at));
    KeptCarries(s.text, s.start, at, s.injected);
    CarriedBy(s, c, Apply(s, Reopen(at, header), maxLen));
  }

  lemma KeptIsFront(t: string, start: nat, at: nat)
    requires start <= at <= |t|
    ensures var stop := start + |TrimRight(t[start..at], IsBlank)|;
            && stop <= at && TrimRight(t[start..at], IsBlank) == t[start..stop]
            && forall k | stop <= k < at :: IsSpace(t[k])
  {
    TrimRightIsTail(t[start..at], IsBlank);
    hide TrimRight;
    var kept := TrimRight(t[start..at], IsBlank);
    assert forall k | start + |kept| <= k < at :: t[k] == t[start..at][k - start];
  }

  lemma SliceOfSlice(t: string, start: nat, stop: nat, n: nat)
    requires start + n <= stop <= |t|
    ensures t[start..stop][n..] == t[start + n..stop]
  {
  }

  lemma KeptPastHeader(t: string, start: nat, at: nat, stop: nat, injected: nat)
    requires start + injected <= stop <= at <= |t| && forall k | stop <= k < at :: IsSpace(t[k])
    ensures Erase(t[start + injected..]) == Erase(t[start..stop][injected..]) + Erase(t[at..])
  {
    hide *;
    SliceOfSlice(t, start, stop, injected);
    EraseSplits(t, start + injected, stop);
    EraseSkips(t, stop, at);
  }

  lemma KeptInsideHeader(t: string, start: nat, at: nat, stop: nat, injected: nat, to: nat)
    requires start <= stop < start + injected <= |t| && stop <= at <= |t| && forall k | stop <= k < at :: IsSpace(t[k])
    requires to == if start + injected <= at then at else start + injected
    ensures Erase(t[start + injected..]) == Erase([]) + Erase(t[to..])
  {
    hide *;
    EraseSpaces([]);
    EraseSkips(t, start + injected, to);
    Prepended(Erase(t[to..]));
  }

  lemma Prepended(s: string)
    ensures [] + s == s
  {
  }

  /** The chunk cut at `at` loses only trailing blanks of what it read. */
  lemma KeptCarries(t: string, start: nat, at: nat, injected: nat)
    requires start <= at <= |t| && start + injected <= |t|
    ensures var kept := TrimRight(t[start..at], IsBlank);
            Erase(t[start + injected..])
              == Erase(kept[Min(injected, |kept|)..]) + Erase(t[at + Max(0, start + injected - at)..])
  {
    hide TrimRight, IsSpace, IsBlank, Erase;
    KeptIsFront(t, start, at);
    var kept := TrimRight(t[start..at], IsBlank);
    var stop := start + |kept|;
    if injected <= |kept| {
      KeptPastHeader(t, start, at, stop, injected);
    } else {
      assert kept[|kept|..] == [];
      KeptInsideHeader(t, start, at, stop, injected, at + Max(0, start + injected - at));
    }
  }

  lemma StepCarries(s: Loop, maxLen: int)
    requires s.Valid() && !s.Done() && maxLen > 0
    ensures Step(s, maxLen).Valid() && Carried(Step(s, maxLen)) == Carried(s)
  {
    hide Decide, Carried, Apply;
    match Decide(s.text, s.start, maxLen)
    case Rest => RestCarries(s, maxLen);
    case Cut(at) => CutCarries(s, at, maxLen);
    case Reopen(at, header) => ReopenCarries(s, at, header, maxLen);
  }

  lemma {:induction false} RunCarries(s: Loop, maxLen: int, n: nat)
    requires s.Valid() && maxLen > 0
    ensures Carried(Run(s, maxLen, n)) == Carried(s)
    decreases n
  {
    hide Step, Carried;
    if n > 0 && !s.Done() {
      StepCarries(s, maxLen);
      RunCarries(Step(s, maxLen), maxLen, n - 1);
    }
  }

  /** Conservation: without the injected closing fences and reopened headers, and up to
      whitespace, the chunks of a finished run are the message. */
  lemma ContentConserved(content: string, maxLen: int, n: nat)
    requires maxLen > 0 && Run(Init(content), maxLen, n).Done()
    ensures Erase(Bodies(Run(Init(content), maxLen, n).out)) == Erase(content)
  {
    RunCarries(Init(content), maxLen, n);
    hide Run;
    var s := Run(Init(content), maxLen, n);
    assert s.text[s.start + s.injected..] == [];
    assert Carried(s) == Erase(Bodies(s.out)) + [] == Erase(Bodies(s.out));
    assert Carried(Init(content)) == [] + Erase(content[0..]) == Erase(content[0..]) && content[0..] == content;
  }

  // ---- Injected fences -----------------------------------------------------

  predicate AfterFence(p: Plan) { p.Rest? || p.at >= 3 }

  /** A split point of a text that begins with a fence comes after the fence. */
  lemma FenceStaysWhole(t: string, maxLen: int)
    requires FENCE <= t && maxLen >= 8
    ensures AfterFence(Decide(t, 0, maxLen))
  {
    if |t| > maxLen {
      NaturalEndAfterFence(t, EffectiveLimit(maxLen));
      hide NaturalEnd, EffectiveLimit, OpenFence, FenceEnd, DecideInBlock;
      var e := NaturalEnd(t, 0, EffectiveLimit(maxLen));
      var u := OpenFence(t, 0, e, -1);
      if u >= 0 {
        BlockSplitsAfterFence(t, maxLen, e, u);
      }
    }
  }

  lemma BlockSplitsAfterFence(t: string, maxLen: int, e: nat, u: nat)
    requires FENCE <= t && u + 2 < e <= maxLen && FenceAt(t, u) && |t| > maxLen >= 8
    ensures AfterFence(DecideInBlock(t, 0, maxLen, e, u))
  {
    assert forall r | 0 <= r < 3 :: t[r] == FENCE[r] == '`';
    HeaderIsFence(t, u);
    hide Header, HeaderEnd, LastHit;
  }

  lemma NaturalEndAfterFence(t: string, end: int)
    requires FENCE <= t && 3 <= end <= |t|
    ensures NaturalEnd(t, 0, end) >= 3
  {
    assert forall r | 0 <= r < 3 :: t[r] == FENCE[r] == '`';
  }

  /** The chunk after an injected closing fence starts with a fence, and reopened runes occur
      only right after an injected fence or where a reopened header itself was cut. */
  ghost predicate Linked(out: seq<Chunk>) {
    && (out != [] ==> out[0].reopened == 0)
    && forall k | 0 < k < |out| ::
         && (out[k - 1].closed > 0 ==> FENCE <= out[k].text)
         && (out[k].reopened > 0 ==> MayPassOn(out[k - 1]))
  }

  predicate MayPassOn(c: Chunk) { c.closed > 0 || c.reopened == |c.text| }

  ghost predicate LinkedState(s: Loop) {
    && Linked(s.out)
    && (s.injected > 0 ==> s.out != [] && MayPassOn(s.out[|s.out| - 1]))
    && (s.out != [] && s.out[|s.out| - 1].closed > 0 ==> s.start == 0 && FENCE <= s.text)
  }

  lemma ApplyLinks(s: Loop, plan: Plan, maxLen: int)
    requires s.Valid() && !s.Done() && LinkedState(s) && InBounds(plan, s.text, s.start, maxLen)
    requires FENCE <= s.text && s.start == 0 ==> AfterFence(plan)
    ensures LinkedState(Apply(s, plan, maxLen))
  {
    hide SkipBlanks, TrimSpace, TrimRight;
    if plan.Reopen? {
      var rebuilt := plan.header + "\n" + s.text[plan.at..];
      assert rebuilt[0] == '`' && rebuilt[1] == '`' && rebuilt[2] == '`';
      FrontKept(rebuilt);
      if FENCE <= s.text && s.start == 0 {
        KeptFence(s.text, plan.at);
      }
    }
  }

  lemma FrontKept(t: string)
    requires FENCE <= t
    ensures FENCE <= TrimSpace(t)
  {
    assert t[0] == t[1] == t[2] == '`';
    TrimSpaceKeepsFront(t);
    assert !IsSpace(t[1]) && !IsSpace(t[2]);
    assert TrimSpace(t)[..3] == FENCE;
  }

  lemma KeptFence(t: string, at: nat)
    requires FENCE <= t && 3 <= at <= |t|
    ensures FENCE <= TrimRight(t[0..at], IsBlank)
  {
    var read := t[0..at];
    assert read[0] == read[1] == read[2] == '`';
    TrimRightIsTail(read, IsBlank);
    assert !IsBlank(read[0]) && !IsBlank(read[1]) && !IsBlank(read[2]);
    assert TrimRight(read, IsBlank)[..3] == FENCE;
  }

  /** Every injected closing fence is answered by a fence at the start of the next chunk. */
  lemma {:induction false} InjectionsLinked(s: Loop, maxLen: int, n: nat)
    requires s.Valid() && maxLen >= 8 && LinkedState(s)
    ensures LinkedState(Run(s, maxLen, n))
    decreases n
  {
    hide Decide, Apply, LinkedState;
    if n > 0 && !s.Done() {
      StepValid(s, maxLen);
      if s.start == 0 && FENCE <= s.text {
        FenceStaysWhole(s.text, maxLen);
      }
      ApplyLinks(s, Decide(s.text, s.start, maxLen), maxLen);
      InjectionsLinked(Step(s, maxLen), maxLen, n - 1);
    }
  }

  // ---- Termination ---------------------------------------------------------

  predicate NoNewline(t: string, i: int, j: int) {
    forall k | 0 <= i <= k < j && k < |t| :: t[k] != '\n'
  }

  /** Every fence from `start` on is followed by a newline within `bound` runes, or by none. */
  predicate HeadersAtMost(t: string, start: nat, bound: int) {
    forall i, j | start <= i <= j < |t| && FenceAt(t, i) && NoNewline(t, i, j) && t[j] == '\n' :: j - i <= bound
  }

  /** The second newline search, made for a better split point, never lands before the first. */
  lemma BetterNotEarlier(t: string, start: nat, end: int, inner: int, floor: int)
    requires start < end <= inner <= |t| && start <= floor
    ensures var better := LastIn(t, IsNewline, start, inner, 200);
            better > floor ==> better >= NaturalEnd(t, start, end)
  {
    LastInIsLast(t, IsNewline, start, inner, 200);
    LastInIsLast(t, IsNewline, start, end, 200);
  }

  /** Rebuilding the text keeps every header within the bound. */
  lemma RebuiltHeaders(t: string, start: nat, at: nat, header: string, bound: int)
    requires start <= at <= |t| && HeadersAtMost(t, start, bound)
    requires FENCE <= header && |header| <= bound
    ensures HeadersAtMost(TrimSpace(header + "\n" + t[at..]), 0, bound)
  {
    var rebuilt := header + "\n" + t[at..];
    TrimSpaceKeepsFront(rebuilt);
    var r := TrimSpace(rebuilt);
    forall i, j | 0 <= i <= j < |r| && FenceAt(r, i) && NoNewline(r, i, j) && r[j] == '\n'
      ensures j - i <= bound
    {
      var h := |header|;
      if i <= h {
        assert h < |r| ==> r[h] == '\n';
      } else {
        var i', j' := i - h - 1 + at, j - h - 1 + at;
        assert forall k | i <= k < |r| :: r[k] == t[k - h - 1 + at];
        assert NoNewline(t, i', j') by {
          forall k | i' <= k < j' && k < |t| ensures t[k] != '\n' {
            assert r[k + h + 1 - at] == t[k];
          }
        }
        assert FenceAt(t, i') && t[j'] == '\n';
      }
    }
  }

  /** The header lengths for which the splitter is known to make progress. */
  predicate Progressive(t: string, start: nat, maxLen: int) {
    maxLen <= 4 || (maxLen >= 10 && HeadersAtMost(t, start, maxLen - 7))
  }

  /** What `Decide` reopens is the header of a fence it read. */
  lemma ReopenedFence(t: string, start: nat, maxLen: int) returns (e: nat, u: nat)
    requires start < |t| && maxLen > 0 && Decide(t, start, maxLen).Reopen?
    ensures |t| - start > maxLen >= 5
    ensures start <= u && u + 2 < e && FenceAt(t, u)
    ensures e == NaturalEnd(t, start, start + EffectiveLimit(maxLen))
    ensures Decide(t, start, maxLen) == DecideInBlock(t, start, maxLen, e, u)
  {
    e := NaturalEnd(t, start, start + EffectiveLimit(maxLen));
    u := OpenFence(t, start, e, -1);
  }

  lemma HeaderBounded(t: string, start: nat, u: nat, bound: int)
    requires start <= u && FenceAt(t, u) && HeadersAtMost(t, start, bound) && bound >= 3
    ensures |Header(t, u)| <= bound
  {
    HeaderIsFence(t, u);
    FirstNewlineIsFirst(t, u);
    var e := FirstNewline(t, u);
    if e != -1 {
      assert NoNewline(t, u, e);
    }
  }

  /** Closing and reopening a block consumes more than the header it puts back. */
  lemma ReopenShrinks(t: string, start: nat, maxLen: int, e: nat, u: nat)
    requires start <= u && u + 2 < e && FenceAt(t, u)
    requires |t| - start > maxLen >= 10 && HeadersAtMost(t, start, maxLen - 7)
    requires e == NaturalEnd(t, start, start + EffectiveLimit(maxLen))
    requires DecideInBlock(t, start, maxLen, e, u).Reopen?
    ensures |Header(t, u)| + 1 < DecideInBlock(t, start, maxLen, e, u).at - start
  {
    hide NaturalEnd, EffectiveLimit, LastIn, Header, HeaderEnd, FenceAt, HeadersAtMost;
    HeaderIsFence(t, u);
    HeaderBounded(t, start, u, maxLen - 7);
    BetterNotEarlier(t, start, start + EffectiveLimit(maxLen), start + maxLen - 5, HeaderEnd(t, u));
  }

  lemma ReopenAdvances(t: string, start: nat, maxLen: int)
    requires start < |t| && maxLen > 0 && Progressive(t, start, maxLen) && Decide(t, start, maxLen).Reopen?
    ensures maxLen >= 10 && HeadersAtMost(t, start, maxLen - 7)
    ensures var plan := Decide(t, start, maxLen);
            |plan.header| <= maxLen - 7 && |plan.header| + 1 < plan.at - start
  {
    hide Decide, DecideInBlock, NaturalEnd, EffectiveLimit, HeadersAtMost, Header, FenceAt;
    var e, u := ReopenedFence(t, start, maxLen);
    ReopenShrinks(t, start, maxLen, e, u);
    HeaderBounded(t, start, u, maxLen - 7);
  }

  lemma ReopenApplyShrinks(s: Loop, at: nat, header: string, maxLen: int)
    requires s.Valid() && maxLen >= 10 && InBounds(Reopen(at, header), s.text, s.start, maxLen)
    requires HeadersAtMost(s.text, s.start, maxLen - 7)
    requires |header| <= maxLen - 7 && |header| + 1 < at - s.start
    ensures var next := Apply(s, Reopen(at, header), maxLen);
            0 <= next.Unread() < s.Unread() && Progressive(next.text, next.start, maxLen)
  {
    hide HeadersAtMost, TrimSpace, TrimRight;
    RebuiltHeaders(s.text, s.start, at, header, maxLen - 7);
    var rebuilt := header + "\n" + s.text[at..];
    assert rebuilt[0] == '`';
    TrimSpaceKeepsFront(rebuilt);
  }

  lemma OtherStepShrinks(s: Loop, plan: Plan, maxLen: int)
    requires s.Valid() && !s.Done() && InBounds(plan, s.text, s.start, maxLen) && !plan.Reopen?
    requires Progressive(s.text, s.start, maxLen)
    ensures var next := Apply(s, plan, maxLen);
            0 <= next.Unread() < s.Unread() && Progressive(next.text, next.start, maxLen)
  {
  }

  lemma StepShrinks(s: Loop, maxLen: int)
    requires s.Valid() && !s.Done() && maxLen > 0 && Progressive(s.text, s.start, maxLen)
    ensures 0 <= Step(s, maxLen).Unread() < s.Unread()
    ensures Progressive(Step(s, maxLen).text, Step(s, maxLen).start, maxLen)
  {
    var plan := Decide(s.text, s.start, maxLen);
    hide Apply, Decide, HeadersAtMost;
    if plan.Reopen? {
      ReopenAdvances(s.text, s.start, maxLen);
      ReopenApplyShrinks(s, plan.at, plan.header, maxLen);
    } else {
      OtherStepShrinks(s, plan, maxLen);
    }
  }

  lemma {:induction false} ProgressiveRunEnds(s: Loop, maxLen: int) returns (n: nat)
    requires s.Valid() && maxLen > 0 && Progressive(s.text, s.start, maxLen)
    ensures Run(s, maxLen, n).Done()
    decreases s.Unread()
  {
    hide Step, Progressive;
    if s.Done() {
      n := 0;
    } else {
      StepValid(s, maxLen);
      StepShrinks(s, maxLen);
      var m := ProgressiveRunEnds(Step(s, maxLen), maxLen);
      n := m + 1;
    }
  }
}
