/** The five index searches of the message splitter: what each one finds, and the
    loops that find it. */
module Search {
  import opened Numbers
  import opened Runes

  predicate FenceAt(t: string, i: int) {
    0 <= i && i + 2 < |t| && t[i] == '`' && t[i + 1] == '`' && t[i + 2] == '`'
  }

  /** Last index in `[lo, i]` that satisfies `p`, else `none`. */
  function LastHit(t: string, p: char -> bool, lo: int, i: int, none: int): (r: int)
    requires 0 <= lo && i < |t|
    ensures r == none || (lo <= r <= i && p(t[r]))
    decreases i - lo
  {
    if i < lo then none else if p(t[i]) then i else LastHit(t, p, lo, i - 1, none)
  }

  /** Last hit within the last `window` runes of `[start, end)`; `start - 1` if there is none. */
  function LastIn(t: string, p: char -> bool, start: int, end: int, window: nat): (r: int)
    requires 0 <= start && end <= |t|
    ensures r == start - 1 || (start <= r < end && p(t[r]))
  {
    LastHit(t, p, Max(end - window, start), end - 1, start - 1)
  }

  lemma {:induction false} LastHitIsLast(t: string, p: char -> bool, lo: int, i: int, none: int)
    requires 0 <= lo && i < |t| && none < lo
    ensures var r := LastHit(t, p, lo, i, none);
            forall j | Max(lo, r + 1) <= j <= i :: !p(t[j])
    decreases i - lo
  {
    if i >= lo && !p(t[i]) {
      LastHitIsLast(t, p, lo, i - 1, none);
    }
  }

  /** `LastIn` finds the last hit of its window. */
  lemma LastInIsLast(t: string, p: char -> bool, start: int, end: int, window: nat)
    requires 0 <= start && end <= |t|
    ensures var r := LastIn(t, p, start, end, window);
            && (r == start - 1 || end - window <= r)
            && forall j | Max(Max(end - window, start), r + 1) <= j < end :: !p(t[j])
  {
    LastHitIsLast(t, p, Max(end - window, start), end - 1, start - 1);
  }

  /** First newline at or after `i`, else -1. */
  function FirstNewline(t: string, i: nat): (r: int)
    ensures r == -1 || (i <= r < |t| && t[r] == '\n')
    decreases |t| - i
  {
    if i >= |t| then -1 else if t[i] == '\n' then i else FirstNewline(t, i + 1)
  }

  lemma {:induction false} FirstNewlineIsFirst(t: string, i: nat)
    ensures var r := FirstNewline(t, i);
            forall j | i <= j < (if r == -1 then |t| else r) :: t[j] != '\n'
    decreases |t| - i
  {
    if i < |t| && t[i] != '\n' {
      FirstNewlineIsFirst(t, i + 1);
    }
  }

  /** Index just after the first fence at or after `i`, else -1. */
  function FenceEnd(t: string, i: nat): (r: int)
    ensures r == -1 || (i + 3 <= r <= |t| && FenceAt(t, r - 3))
    decreases |t| - i
  {
    if i >= |t| then -1 else if FenceAt(t, i) then i + 3 else FenceEnd(t, i + 1)
  }

  /** No fence starts in `[i, r - 3)`, or anywhere from `i` on when none is found. */
  lemma {:induction false} FenceEndIsFirst(t: string, i: nat)
    ensures var r := FenceEnd(t, i);
            forall j | i <= j < (if r == -1 then |t| else r - 3) :: !FenceAt(t, j)
    decreases |t| - i
  {
    if i < |t| && !FenceAt(t, i) {
      FenceEndIsFirst(t, i + 1);
    }
  }

  /** The greedy left-to-right fence scan of `[i, end)`, where `open` is the index of the
      fence that opened the current block, or -1 outside a block. */
  function OpenFence(t: string, i: nat, end: nat, open: int): (r: int)
    requires i <= end <= |t|
    requires open == -1 || (0 <= open <= i && open + 2 < end && FenceAt(t, open))
    ensures r == -1 || (0 <= r && r + 2 < end && FenceAt(t, r) && (r == open || i <= r))
    decreases end - i
  {
    if i >= end then open
    else if i + 2 < end && FenceAt(t, i) then OpenFence(t, i + 3, end, if open == -1 then i else -1)
    else OpenFence(t, i + 1, end, open)
  }

  /** With no fence in `[i, end)` the scan changes nothing. */
  lemma {:induction false} NoFenceNoChange(t: string, i: nat, end: nat, open: int)
    requires i <= end <= |t|
    requires open == -1 || (0 <= open <= i && open + 2 < end && FenceAt(t, open))
    requires forall j | i <= j && j + 2 < end :: !FenceAt(t, j)
    ensures OpenFence(t, i, end, open) == open
    decreases end - i
  {
    if i < end {
      NoFenceNoChange(t, i + 1, end, open);
    }
  }

  // ---- What the fence scan means -------------------------------------------

  /** `ps` is where the fences of `[lo, hi)` start when read from left to right: each at or
      after the end of the one before, and every fence of the range at or inside one of them. */
  ghost predicate Fences(t: string, ps: seq<nat>, lo: int, hi: int) {
    && (forall k | 0 <= k < |ps| :: lo <= ps[k] && ps[k] + 2 < hi && FenceAt(t, ps[k]))
    && (forall j, k | 0 <= j < k < |ps| :: ps[j] + 3 <= ps[k])
    && (forall i | lo <= i && i + 2 < hi && FenceAt(t, i) :: Covered(ps, i))
  }

  predicate Covered(ps: seq<nat>, i: int) { exists k :: 0 <= k < |ps| && ps[k] <= i < ps[k] + 3 }

  lemma FencesSkip(t: string, ps: seq<nat>, lo: nat, hi: int)
    requires Fences(t, ps, lo + 1, hi) && !(lo + 2 < hi && FenceAt(t, lo))
    ensures Fences(t, ps, lo, hi)
  {
    hide Covered;
  }

  lemma CoveredPush(p: nat, ps: seq<nat>, i: int)
    ensures Covered([p] + ps, i) <==> p <= i < p + 3 || Covered(ps, i)
  {
    var all := [p] + ps;
    assert all[0] == p && forall k | 0 < k < |all| :: all[k] == ps[k - 1];
    if k :| 0 <= k < |ps| && ps[k] <= i < ps[k] + 3 {
      assert all[k + 1] <= i < all[k + 1] + 3;
    }
  }

  lemma FencesPush(t: string, ps: seq<nat>, lo: nat, hi: int)
    requires Fences(t, ps, lo + 3, hi) && lo + 2 < hi && FenceAt(t, lo)
    ensures Fences(t, [lo] + ps, lo, hi)
  {
    hide Covered, FenceAt;
    forall i | lo <= i && i + 2 < hi && FenceAt(t, i)
      ensures Covered([lo] + ps, i)
    {
      CoveredPush(lo, ps, i);
    }
  }

  /** The fence left open after those of `ps`, when `open` was open before them. */
  function LeftOpen(ps: seq<nat>, open: int): int {
    if ps == [] then open
    else if (|ps| % 2 == 1) == (open == -1) then ps[|ps| - 1] else -1
  }

  lemma {:induction false} ScanReadsFences(t: string, i: nat, end: nat, open: int) returns (ps: seq<nat>)
    requires i <= end <= |t|
    requires open == -1 || (0 <= open <= i && open + 2 < end && FenceAt(t, open))
    ensures Fences(t, ps, i, end) && OpenFence(t, i, end, open) == LeftOpen(ps, open)
    decreases end - i
  {
    hide Fences, LeftOpen;
    if i >= end {
      ps := [];
      NoFences(t, i, end, open);
    } else if i + 2 < end && FenceAt(t, i) {
      var next := if open == -1 then i else -1;
      var rest := ScanReadsFences(t, i + 3, end, next);
      FencesPush(t, rest, i, end);
      OpenFlips(rest, i, open);
      ps := [i] + rest;
    } else {
      ps := ScanReadsFences(t, i + 1, end, open);
      FencesSkip(t, ps, i, end);
    }
  }

  lemma NoFences(t: string, i: nat, end: nat, open: int)
    requires i >= end
    ensures Fences(t, [], i, end) && LeftOpen([], open) == open
  {
  }

  lemma OpenFlips(rest: seq<nat>, i: nat, open: int)
    ensures LeftOpen([i] + rest, open) == LeftOpen(rest, if open == -1 then i else -1)
  {
    var all := [i] + rest;
    assert rest != [] ==> all[|all| - 1] == rest[|rest| - 1];
  }

  lemma FencesPop(t: string, ps: seq<nat>, lo: int, hi: int)
    requires Fences(t, ps, lo, hi) && ps != []
    ensures Fences(t, ps[1..], ps[0] + 3, hi)
  {
    var rest := ps[1..];
    assert [ps[0]] + rest == ps;
    hide Covered, FenceAt;
    assert forall k | 0 <= k < |rest| :: rest[k] == ps[k + 1];
    forall i | ps[0] + 3 <= i && i + 2 < hi && FenceAt(t, i)
      ensures Covered(rest, i)
    {
      CoveredPush(ps[0], rest, i);
    }
  }

  /** There is only one way to read the fences of a range. */
  lemma {:induction false} FencesAreUnique(t: string, ps: seq<nat>, qs: seq<nat>, lo: int, hi: int)
    requires Fences(t, ps, lo, hi) && Fences(t, qs, lo, hi)
    ensures ps == qs
    decreases |ps|
  {
    hide *;
    SomeFence(t, ps, qs, lo, hi);
    SomeFence(t, qs, ps, lo, hi);
    if ps != [] {
      FencesPop(t, ps, lo, hi);
      FencesPop(t, qs, lo, hi);
      FencesAreUnique(t, ps[1..], qs[1..], ps[0] + 3, hi);
      assert ps == [ps[0]] + ps[1..] && qs == [qs[0]] + qs[1..];
    }
  }

  lemma SomeFence(t: string, ps: seq<nat>, qs: seq<nat>, lo: int, hi: int)
    requires Fences(t, ps, lo, hi) && Fences(t, qs, lo, hi)
    ensures qs != [] ==> ps != [] && ps[0] <= qs[0]
  {
    if qs != [] {
      assert Covered(ps, qs[0]);
      var k :| 0 <= k < |ps| && ps[k] <= qs[0] < ps[k] + 3;
    }
  }

  /** The scan finds a block left open exactly when the range holds an odd number of fences,
      and then it is the one opened by the last of them. */
  lemma OpenFenceIsParity(t: string, ps: seq<nat>, start: nat, end: nat)
    requires start <= end <= |t| && Fences(t, ps, start, end)
    ensures OpenFence(t, start, end, -1) == if |ps| % 2 == 1 then ps[|ps| - 1] else -1
  {
    hide *;
    var qs := ScanReadsFences(t, start, end, -1);
    FencesAreUnique(t, ps, qs, start, end);
    LeftOpenFromNone(ps);
  }

  lemma LeftOpenFromNone(ps: seq<nat>)
    ensures LeftOpen(ps, -1) == if |ps| % 2 == 1 then ps[|ps| - 1] else -1
  {
  }

  /** And every range can be read in this way. */
  lemma EveryRangeHasFences(t: string, start: nat, end: nat)
    requires start <= end <= |t|
    ensures exists ps :: Fences(t, ps, start, end)
  {
    var ps := ScanReadsFences(t, start, end, -1);
  }

  method FindLastNewlineInRange(t: string, start: int, end: int, searchWindow: nat) returns (r: int)
    requires 0 <= start && end <= |t|
    ensures r == LastIn(t, IsNewline, start, end, searchWindow)
  {
    var searchStart := Max(end - searchWindow, start);
    var i := end - 1;
    while i >= searchStart
      invariant i < |t|
      invariant LastIn(t, IsNewline, start, end, searchWindow) == LastHit(t, IsNewline, searchStart, i, start - 1)
    {
      if t[i] == '\n' {
        return i;
      }
      i := i - 1;
    }
    return start - 1;
  }

  method FindLastSpaceInRange(t: string, start: int, end: int, searchWindow: nat) returns (r: int)
    requires 0 <= start && end <= |t|
    ensures r == LastIn(t, IsSpaceOrTab, start, end, searchWindow)
  {
    var searchStart := Max(end - searchWindow, start);
    var i := end - 1;
    while i >= searchStart
      invariant i < |t|
      invariant LastIn(t, IsSpaceOrTab, start, end, searchWindow)
             == LastHit(t, IsSpaceOrTab, searchStart, i, start - 1)
    {
      if t[i] == ' ' || t[i] == '\t' {
        return i;
      }
      i := i - 1;
    }
    return start - 1;
  }

  method FindNewlineFrom(t: string, from: nat) returns (r: int)
    ensures r == FirstNewline(t, from)
  {
    var i := from;
    while i < |t|
      invariant from <= i
      invariant FirstNewline(t, from) == FirstNewline(t, i)
    {
      if t[i] == '\n' {
        return i;
      }
      i := i + 1;
    }
    return -1;
  }

  method FindNextClosingCodeBlockInRange(t: string, startIdx: nat, end: nat) returns (r: int)
    requires end == |t|
    ensures r == FenceEnd(t, startIdx)
  {
    var i := startIdx;
    while i < end
      invariant startIdx <= i
      invariant FenceEnd(t, startIdx) == FenceEnd(t, i)
    {
      if i + 2 < end && t[i] == '`' && t[i + 1] == '`' && t[i + 2] == '`' {
        return i + 3;
      }
      i := i + 1;
    }
    return -1;
  }

  method FindLastUnclosedCodeBlockInRange(t: string, start: nat, end: nat) returns (r: int)
    requires start <= end <= |t|
    ensures r == OpenFence(t, start, end, -1)
  {
    var inCodeBlock := false;
    var lastOpenIdx := -1;
    var i := start;
    while i < end
      invariant start <= i <= end
      invariant inCodeBlock ==> 0 <= lastOpenIdx <= i && lastOpenIdx + 2 < end && FenceAt(t, lastOpenIdx)
      invariant OpenFence(t, start, end, -1) == OpenFence(t, i, end, if inCodeBlock then lastOpenIdx else -1)
    {
      if i + 2 < end && t[i] == '`' && t[i + 1] == '`' && t[i + 2] == '`' {
        if !inCodeBlock {
          lastOpenIdx := i;
        }
        inCodeBlock := !inCodeBlock;
        i := i + 2;
      }
      i := i + 1;
    }
    if inCodeBlock {
      return lastOpenIdx;
    }
    return -1;
  }
}
