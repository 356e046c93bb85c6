/** Messages on which the splitter never ends, and the exact header bound that rules them out. */
module SplitLimits {
  import opened Numbers
  import opened Runes
  import opened Search
  import opened Split
  import opened SplitTheorems

  /** Length of the shortest header that the last-resort branch cannot consume. */
  function StuckHeader(maxLen: int): int { Max(3, maxLen - 6) }

  /** A message with such a header, too long for one chunk and with no closing fence in reach. */
  ghost predicate Stuck(t: string, maxLen: int) {
    var h := StuckHeader(maxLen);
    && 5 <= maxLen < |t| && h < |t| && FenceAt(t, 0)
    && t[h] == '\n' && t[|t| - 1] == 'a'
    && (forall k | 3 <= k < h :: t[k] == 'a')
    && (forall i | 3 <= i <= maxLen - 3 :: !FenceAt(t, i))
  }

  lemma StuckNaturalEnd(t: string, maxLen: int)
    requires Stuck(t, maxLen)
    ensures NaturalEnd(t, 0, EffectiveLimit(maxLen)) >= 3
  {
    hide EffectiveLimit;
    var end := EffectiveLimit(maxLen);
    var byNewline := LastIn(t, IsNewline, 0, end, 200);
    var bySpace := LastIn(t, IsSpaceOrTab, 0, end, 100);
    assert forall r | 0 <= r < 3 :: t[r] == '`';
  }

  lemma StuckFence(t: string, maxLen: int, e: nat)
    requires Stuck(t, maxLen) && 3 <= e <= maxLen
    ensures OpenFence(t, 0, e, -1) == 0
    ensures FenceEnd(t, e) == -1 || FenceEnd(t, e) > maxLen
  {
    assert OpenFence(t, 0, e, -1) == OpenFence(t, 3, e, 0);
    NoFenceNoChange(t, 3, e, 0);
  }

  lemma StuckHeaderText(t: string, maxLen: int)
    requires Stuck(t, maxLen)
    ensures var h := StuckHeader(maxLen); Header(t, 0) == t[..h] && HeaderEnd(t, 0) == h
  {
    var h := StuckHeader(maxLen);
    FirstNewlineIsFirst(t, 0);
    assert FirstNewline(t, 0) == h;
    assert t[0..h] == t[..h];
    TrimSpaceKeepsFront(t[..h]);
  }

  /** On a stuck message the splitter takes its last resort: cut at `maxLen - 5`, reopen. */
  lemma StuckPlan(t: string, maxLen: int)
    requires Stuck(t, maxLen)
    ensures Decide(t, 0, maxLen) == Reopen(maxLen - 5, t[..StuckHeader(maxLen)])
  {
    StuckNaturalEnd(t, maxLen);
    var e := NaturalEnd(t, 0, EffectiveLimit(maxLen));
    hide EffectiveLimit, NaturalEnd, OpenFence, FenceEnd, Header, HeaderEnd;
    StuckFence(t, maxLen, e);
    StuckHeaderText(t, maxLen);
    assert SplitBefore(t, 0, 0) == -1;
  }

  /** The rebuilt text, rune by rune. */
  lemma RebuiltRunes(t: string, h: nat, from: nat)
    requires h <= |t| && from <= |t|
    ensures var r := t[..h] + "\n" + t[from..];
            && |r| == h + 1 + |t| - from && r[h] == '\n'
            && (forall i | 0 <= i < h :: r[i] == t[i])
            && (forall i | h < i < |r| :: r[i] == t[i - h - 1 + from])
  {
  }

  lemma RebuiltHasNoFence(t: string, maxLen: int, r: string, h: nat, i: int)
    requires Stuck(t, maxLen) && h == StuckHeader(maxLen) && r == t[..h] + "\n" + t[maxLen - 5..]
    requires 3 <= i <= maxLen - 3
    ensures !FenceAt(r, i)
  {
    RebuiltRunes(t, h, maxLen - 5);
    if i > h {
      var d := h + 6 - maxLen;
      assert !FenceAt(t, i - d) || i - d < 3;
    }
  }

  lemma RebuiltStuck(t: string, maxLen: int, r: string, h: nat)
    requires Stuck(t, maxLen) && h == StuckHeader(maxLen) && r == t[..h] + "\n" + t[maxLen - 5..]
    ensures Stuck(r, maxLen)
  {
    RebuiltRunes(t, h, maxLen - 5);
    forall i | 3 <= i <= maxLen - 3
      ensures !FenceAt(r, i)
    {
      RebuiltHasNoFence(t, maxLen, r, h, i);
    }
    assert FenceAt(r, 0);
  }

  /** The rebuilt text is stuck again. */
  lemma StuckAgain(t: string, maxLen: int)
    requires Stuck(t, maxLen)
    ensures Stuck(TrimSpace(t[..StuckHeader(maxLen)] + "\n" + t[maxLen - 5..]), maxLen)
  {
    var r := t[..StuckHeader(maxLen)] + "\n" + t[maxLen - 5..];
    RebuiltStuck(t, maxLen, r, StuckHeader(maxLen));
    StuckIsTrimmed(r, maxLen);
    hide *;
  }

  lemma StuckIsTrimmed(r: string, maxLen: int)
    requires Stuck(r, maxLen)
    ensures TrimSpace(r) == r
  {
    hide TrimSpace, StuckHeader;
    assert r[0] == '`' && r[|r| - 1] == 'a';
    TrimSpaceKeepsFront(r);
  }

  lemma StuckStep(s: Loop, maxLen: int)
    requires s.Valid() && s.start == 0 && Stuck(s.text, maxLen)
    ensures maxLen > 0 && !s.Done()
    ensures Step(s, maxLen).Valid() && Step(s, maxLen).start == 0 && Stuck(Step(s, maxLen).text, maxLen)
  {
    StuckPlan(s.text, maxLen);
    StuckAgain(s.text, maxLen);
    hide Decide, TrimSpace, StuckHeader, Loop.Valid;
    StepValid(s, maxLen);
  }

  lemma {:induction false} StuckRunsForever(s: Loop, maxLen: int, n: nat)
    requires s.Valid() && s.start == 0 && Stuck(s.text, maxLen)
    ensures !Run(s, maxLen, n).Done()
    decreases n
  {
    hide *;
    StuckStep(s, maxLen);
    UnfoldRun(s, maxLen, n);
    if n > 0 {
      StuckRunsForever(Step(s, maxLen), maxLen, n - 1);
    }
  }

  function Letters(n: nat): (r: string)
    ensures |r| == n && forall i | 0 <= i < n :: r[i] == 'a'
  {
    if n == 0 then "" else Letters(n - 1) + "a"
  }

  lemma StuckExample(maxLen: int) returns (t: string)
    requires maxLen >= 5
    ensures Stuck(t, maxLen) && HeadersAtMost(t, 0, StuckHeader(maxLen))
  {
    var h := StuckHeader(maxLen);
    t := FENCE + Letters(h - 3) + "\n" + Letters(maxLen);
    assert forall k | 3 <= k < |t| && k != h :: t[k] == 'a';
    assert t[h] == '\n';
  }

  /** The splitter ends on every message whose headers have at most `bound` runes exactly when
      `maxLen` is too small to see a fence or leaves the header seven runes of room. */
  lemma HeaderBoundIsExact(maxLen: int, bound: int)
    requires maxLen > 0 && bound >= 3
    ensures (forall t | HeadersAtMost(t, 0, bound) :: Halts(t, maxLen)) <==> (maxLen <= 4 || bound <= maxLen - 7)
  {
    if maxLen <= 4 || bound <= maxLen - 7 {
      forall t | HeadersAtMost(t, 0, bound)
        ensures Halts(t, maxLen)
      {
        var n := ProgressiveRunEnds(Init(t), maxLen);
      }
    } else {
      var t := StuckExample(maxLen);
      forall n: nat
        ensures !Run(Init(t), maxLen, n).Done()
      {
        StuckRunsForever(Init(t), maxLen, n);
      }
      assert HeadersAtMost(t, 0, bound) && !Halts(t, maxLen);
    }
  }
}
