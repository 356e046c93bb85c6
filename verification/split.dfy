/** The message splitter: one iteration of its loop as a step on values, the runs of that
    step, and the loop itself, which follows the run. */
module Split {
  import opened Numbers
  import opened Runes
  import opened Search

  const FENCE: string := "```"
  const CLOSING: string := "\n```"

  /** A chunk, with how many of its leading runes were copied from a reopened header and
      how many of its trailing runes are an injected closing fence. */
  datatype Chunk = Chunk(text: string, reopened: nat, closed: nat) {
    predicate Valid() {
      && reopened + closed <= |text|
      && (closed == 0 || (closed == |CLOSING| && text[|text| - closed..] == CLOSING))
    }

    /** What the chunk carries over from the original message. */
    function Body(): string
      requires Valid()
    {
      text[reopened..|text| - closed]
    }
  }

  /** Loop state: the current text, the read position, how many unread runes are a reopened
      header rather than message content, and the chunks so far. */
  datatype Loop = Loop(text: string, start: nat, injected: nat, out: seq<Chunk>) {
    ghost predicate Valid() {
      && start + injected <= |text|
      && (forall c | c in out :: c.Valid())
    }

    predicate Done() { start >= |text| }

    function Unread(): int { |text| - start }
  }

  /** What one iteration does: emit the rest, cut at an index, or close the block at an index
      and reopen it with `header`. */
  datatype Plan = Rest | Cut(at: int) | Reopen(at: int, header: string)

  function EffectiveLimit(maxLen: int): (r: int)
    requires maxLen > 0
    ensures 1 <= r <= maxLen
    ensures maxLen <= 4 ==> r <= 2
    ensures 5 <= maxLen ==> 3 <= r
    ensures 10 <= maxLen ==> r <= maxLen - 5
  {
    var wanted := Max(maxLen / 10, 50);
    var buffer := if wanted > maxLen / 2 then maxLen / 2 else wanted;
    Max(maxLen - buffer, maxLen / 2)
  }

  /** The natural split point of `[start, end)`: last newline, else last space or tab, else `end`. */
  function NaturalEnd(t: string, start: nat, end: int): (r: int)
    requires start < end <= |t|
    ensures start < r <= end
  {
    var byNewline := LastIn(t, IsNewline, start, end, 200);
    if byNewline > start then byNewline else
    var bySpace := LastIn(t, IsSpaceOrTab, start, end, 100);
    if bySpace > start then bySpace else end
  }

  /** The header line of the fence at `u`, trimmed. */
  function Header(t: string, u: nat): string
    requires FenceAt(t, u)
  {
    var e := FirstNewline(t, u);
    TrimSpace(if e == -1 then t[u..u + 3] else t[u..e])
  }

  function HeaderEnd(t: string, u: nat): int
    requires FenceAt(t, u)
  {
    var e := FirstNewline(t, u);
    if e == -1 then u + |Header(t, u)| else e
  }

  /** A plan that stays inside the text and within `maxLen`; reopening leaves room for the
      closing fence and repeats a header that begins with the fence itself. */
  predicate InBounds(p: Plan, t: string, start: nat, maxLen: int) {
    match p
    case Rest => |t| - start <= maxLen
    case Cut(at) => start < at <= |t| && at - start <= maxLen
    case Reopen(at, header) => start <= at <= |t| && at - start <= maxLen - 5 && FENCE <= header
  }

  function Decide(t: string, start: nat, maxLen: int): (p: Plan)
    requires start < |t| && maxLen > 0
    ensures InBounds(p, t, start, maxLen)
  {
    if |t| - start <= maxLen then Rest else
    var e := NaturalEnd(t, start, start + EffectiveLimit(maxLen));
    var u := OpenFence(t, start, e, -1);
    if u < 0 then Cut(e) else
    var c := FenceEnd(t, e);
    if c > 0 && c - start <= maxLen then Cut(c) else DecideInBlock(t, start, maxLen, e, u)
  }

  /** The plan when the block opened at `u` cannot be closed within `maxLen`. */
  function DecideInBlock(t: string, start: nat, maxLen: int, e: nat, u: nat): (p: Plan)
    requires start <= u && u + 2 < e && e - start <= maxLen && FenceAt(t, u)
    requires |t| - start > maxLen >= 5
    ensures InBounds(p, t, start, maxLen) && !p.Rest?
    ensures p.Reopen? ==> p.header == Header(t, u)
  {
    HeaderIsFence(t, u);
    var inner := Min(start + maxLen - 5, |t|);
    if e > HeaderEnd(t, u) + 20 then
      var better := LastIn(t, IsNewline, start, inner, 200);
      Reopen(if better > HeaderEnd(t, u) then better else inner, Header(t, u))
    else
      var before := SplitBefore(t, start, u);
      if before > start then Cut(before)
      else if u - start > 20 then Cut(u)
      else Reopen(inner, Header(t, u))
  }

  /** A split point in front of the block that opens at `u`, or an index not after `start`. */
  function SplitBefore(t: string, start: nat, u: int): (r: int)
    requires u <= |t|
    ensures start - 1 <= r && (r == start - 1 || r < u)
  {
    var byNewline := LastIn(t, IsNewline, start, u, 200);
    if byNewline > start then byNewline else LastIn(t, IsSpaceOrTab, start, u, 100)
  }

  /** First index from `i` on that holds no blank. */
  function SkipBlanks(t: string, i: nat): (r: nat)
    requires i <= |t|
    ensures i <= r <= |t|
    decreases |t| - i
  {
    if i < |t| && IsBlank(t[i]) then SkipBlanks(t, i + 1) else i
  }

  lemma {:induction false} SkipBlanksSkips(t: string, i: nat)
    requires i <= |t|
    ensures var r := SkipBlanks(t, i);
            (forall k | i <= k < r :: IsBlank(t[k])) && (r < |t| ==> !IsBlank(t[r]))
    decreases |t| - i
  {
    if i < |t| && IsBlank(t[i]) {
      SkipBlanksSkips(t, i + 1);
    }
  }

  /** The header begins with its fence, fits before its end, and holds no newline. */
  lemma HeaderIsFence(t: string, u: nat)
    requires FenceAt(t, u)
    ensures FENCE <= Header(t, u) && |Header(t, u)| <= HeaderEnd(t, u) - u
    ensures forall i | 0 <= i < |Header(t, u)| :: Header(t, u)[i] != '\n'
    ensures FirstNewline(t, u) == -1 ==> Header(t, u) == FENCE
  {
    var e := FirstNewline(t, u);
    var line := if e == -1 then t[u..u + 3] else t[u..e];
    FirstNewlineIsFirst(t, u);
    assert line[0] == line[1] == line[2] == '`';
    TrimSpaceKeepsFront(line);
    assert !IsSpace(line[0]) && !IsSpace(line[1]) && !IsSpace(line[2]);
    assert TrimSpace(line)[..3] == FENCE;
  }

  /** The state after carrying out `plan`. */
  function Apply(s: Loop, plan: Plan, maxLen: int): Loop
    requires s.start + s.injected <= |s.text| && InBounds(plan, s.text, s.start, maxLen)
  {
    match plan
    case Rest =>
      Loop(s.text, |s.text|, 0, s.out + [Chunk(s.text[s.start..], s.injected, 0)])
    case Cut(at) =>
      var next := SkipBlanks(s.text, at);
      Loop(s.text, next, Max(0, s.injected - (next - s.start)),
           s.out + [Chunk(s.text[s.start..at], Min(s.injected, at - s.start), 0)])
    case Reopen(at, header) =>
      var kept := TrimRight(s.text[s.start..at], IsBlank);
      var rest := TrimSpace(header + "\n" + s.text[at..]);
      Loop(rest, 0, Min(|rest|, |header| + 1 + Max(0, s.injected - (at - s.start))),
           s.out + [Chunk(kept + CLOSING, Min(s.injected, |kept|), |CLOSING|)])
  }

  /** One iteration of the loop. */
  function Step(s: Loop, maxLen: int): Loop
    requires s.start + s.injected <= |s.text| && !s.Done() && maxLen > 0
  {
    Apply(s, Decide(s.text, s.start, maxLen), maxLen)
  }

  function Init(content: string): Loop { Loop(content, 0, 0, []) }

  /** The state after `n` iterations, or fewer if the loop ends earlier. */
  ghost function Run(s: Loop, maxLen: int, n: nat): (r: Loop)
    requires s.Valid() && maxLen > 0
    ensures r.Valid()
    decreases n
  {
    if n == 0 || s.Done() then s else StepValid(s, maxLen); Run(Step(s, maxLen), maxLen, n - 1)
  }

  lemma ApplyValid(s: Loop, plan: Plan, maxLen: int)
    requires s.Valid() && InBounds(plan, s.text, s.start, maxLen)
    ensures Apply(s, plan, maxLen).Valid()
  {
    if plan.Reopen? {
      var kept := TrimRight(s.text[s.start..plan.at], IsBlank);
      assert (kept + CLOSING)[|kept|..] == CLOSING;
    }
  }

  lemma StepValid(s: Loop, maxLen: int)
    requires s.Valid() && !s.Done() && maxLen > 0
    ensures Step(s, maxLen).Valid()
  {
    ApplyValid(s, Decide(s.text, s.start, maxLen), maxLen);
  }

  /** One iteration of a run that has not ended. */
  lemma UnfoldRun(s: Loop, maxLen: int, n: nat)
    requires s.Valid() && maxLen > 0 && !s.Done()
    ensures s.start + s.injected <= |s.text| && Step(s, maxLen).Valid()
    ensures Run(s, maxLen, n) == if n == 0 then s else Run(Step(s, maxLen), maxLen, n - 1)
  {
    hide Step;
    StepValid(s, maxLen);
  }

  lemma UnrollRun(s: Loop, maxLen: int, n: nat)
    requires s.Valid() && maxLen > 0 && s.start < |s.text| && Run(s, maxLen, n).Done()
    ensures s.start + s.injected <= |s.text| && !s.Done()
    ensures n > 0 && Step(s, maxLen).Valid() && Run(s, maxLen, n) == Run(Step(s, maxLen), maxLen, n - 1)
  {
    hide Apply, Decide;
    StepValid(s, maxLen);
  }

  lemma RunOfDone(s: Loop, maxLen: int, n: nat)
    requires s.Valid() && maxLen > 0 && s.start >= |s.text|
    ensures Run(s, maxLen, n) == s
  {
  }

  lemma RestWhenItFits(t: string, start: nat, maxLen: int)
    requires start < |t| && maxLen > 0
    ensures |t| - start <= maxLen <==> Decide(t, start, maxLen) == Rest
  {
  }

  /** The loop ends on this message. */
  ghost predicate Halts(content: string, maxLen: int)
    requires maxLen > 0
  {
    exists n: nat :: Run(Init(content), maxLen, n).Done()
  }

  lemma EndOf(content: string, maxLen: int) returns (n: nat)
    requires maxLen > 0 && Halts(content, maxLen)
    ensures Init(content).Valid() && Run(Init(content), maxLen, n).Done()
  {
    n :| Run(Init(content), maxLen, n).Done();
  }

  function Texts(out: seq<Chunk>): (r: seq<string>) {
    if out == [] then [] else Texts(out[..|out| - 1]) + [out[|out| - 1].text]
  }

  lemma NoTexts()
    ensures Texts([]) == []
  {
  }

  /** Two runs that both end agree. */
  lemma {:induction false} RunsAgree(s: Loop, maxLen: int, m: nat, n: nat)
    requires s.Valid() && maxLen > 0
    requires Run(s, maxLen, m).Done() && Run(s, maxLen, n).Done()
    ensures Run(s, maxLen, m) == Run(s, maxLen, n)
    decreases m
  {
    hide Step;
    if !s.Done() {
      StepValid(s, maxLen);
      RunsAgree(Step(s, maxLen), maxLen, m - 1, n - 1);
    }
  }

  /** The loop's own limit, computed from the buffer, is the effective limit. */
  ghost predicate LeavesRoom(codeBlockBuffer: int, maxLen: int) {
    maxLen > 0 && Max(maxLen - codeBlockBuffer, maxLen / 2) == EffectiveLimit(maxLen)
  }

  /** The room left for closing a code block: a tenth of the limit, at least 50 runes and at
      most half of the limit. */
  method CodeBlockBuffer(maxLen: int) returns (codeBlockBuffer: int)
    requires maxLen > 0
    ensures LeavesRoom(codeBlockBuffer, maxLen)
  {
    codeBlockBuffer := Max(maxLen / 10, 50);
    if codeBlockBuffer > maxLen / 2 {
      codeBlockBuffer := maxLen / 2;
    }
  }

  /** One pass over the searches of the loop body, up to the point where a chunk is cut. */
  method PlanNext(runes: string, start: nat, maxLen: int, codeBlockBuffer: int) returns (plan: Plan)
    requires maxLen > 0 && |runes| - start > maxLen
    requires LeavesRoom(codeBlockBuffer, maxLen)
    ensures plan == Decide(runes, start, maxLen)
  {
    hide LastIn, OpenFence, FenceEnd, DecideInBlock, EffectiveLimit;
    var totalLen := |runes|;
    var effectiveLimit := Max(maxLen - codeBlockBuffer, maxLen / 2);
    var end := start + effectiveLimit;
    var msgEnd := FindLastNewlineInRange(runes, start, end, 200);
    if msgEnd <= start {
      msgEnd := FindLastSpaceInRange(runes, start, end, 100);
    }
    if msgEnd <= start {
      msgEnd := end;
    }
    var unclosedIdx := FindLastUnclosedCodeBlockInRange(runes, start, msgEnd);
    if unclosedIdx < 0 {
      return Cut(msgEnd);
    }
    var closingIdx := FindNextClosingCodeBlockInRange(runes, msgEnd, totalLen);
    if closingIdx > 0 && closingIdx - start <= maxLen {
      return Cut(closingIdx);
    }
    plan := PlanInBlock(runes, start, maxLen, msgEnd, unclosedIdx);
  }

  method PlanInBlock(runes: string, start: nat, maxLen: int, msgEnd: nat, unclosedIdx: nat) returns (plan: Plan)
    requires start <= unclosedIdx && unclosedIdx + 2 < msgEnd && msgEnd - start <= maxLen && FenceAt(runes, unclosedIdx)
    requires |runes| - start > maxLen >= 5
    ensures plan == DecideInBlock(runes, start, maxLen, msgEnd, unclosedIdx)
  {
    var totalLen := |runes|;
    var headerEnd := FindNewlineFrom(runes, unclosedIdx);
    var header;
    if headerEnd == -1 {
      header := TrimSpace(runes[unclosedIdx..unclosedIdx + 3]);
    } else {
      header := TrimSpace(runes[unclosedIdx..headerEnd]);
    }
    var headerEndIdx := unclosedIdx + |header|;
    if headerEnd != -1 {
      headerEndIdx := headerEnd;
    }
    if msgEnd > headerEndIdx + 20 {
      var innerLimit := Min(start + maxLen - 5, totalLen);
      var betterEnd := FindLastNewlineInRange(runes, start, innerLimit, 200);
      if betterEnd > headerEndIdx {
        return Reopen(betterEnd, header);
      }
      return Reopen(innerLimit, header);
    }
    var newEnd := FindLastNewlineInRange(runes, start, unclosedIdx, 200);
    if newEnd <= start {
      newEnd := FindLastSpaceInRange(runes, start, unclosedIdx, 100);
    }
    if newEnd > start {
      return Cut(newEnd);
    }
    if unclosedIdx - start > 20 {
      return Cut(unclosedIdx);
    }
    return Reopen(Min(start + maxLen - 5, totalLen), header);
  }

  method SkipLeadingBlanks(runes: string, from: nat) returns (start: nat)
    requires from <= |runes|
    ensures start == SkipBlanks(runes, from)
  {
    start := from;
    while start < |runes| && IsBlank(runes[start])
      invariant from <= start <= |runes|
      invariant SkipBlanks(runes, from) == SkipBlanks(runes, start)
    {
      start := start + 1;
    }
  }

  /** The next chunk, with the text and read position that follow it. */
  method NextChunk(runes: string, start: nat, maxLen: int, codeBlockBuffer: int, ghost s: Loop)
    returns (chunk: string, rest: string, next: nat)
    requires maxLen > 0 && start < |runes|
    requires LeavesRoom(codeBlockBuffer, maxLen)
    requires s.Valid() && s.text == runes && s.start == start
    ensures rest == Step(s, maxLen).text && next == Step(s, maxLen).start
    ensures Texts(Step(s, maxLen).out) == Texts(s.out) + [chunk]
  {
    RestWhenItFits(runes, start, maxLen);
    hide Decide, EffectiveLimit;
    if |runes| - start <= maxLen {
      return runes[start..], runes, |runes|;
    }
    var plan := PlanNext(runes, start, maxLen, codeBlockBuffer);
    if plan.Reopen? {
      chunk := TrimRight(runes[start..plan.at], IsBlank) + CLOSING;
      rest, next := TrimSpace(plan.header + "\n" + runes[plan.at..]), 0;
    } else {
      chunk, rest := runes[start..plan.at], runes;
      next := SkipLeadingBlanks(runes, plan.at);
    }
  }

  /** `messages` are the chunks of a run that ended. */
  ghost predicate ChunksOf(content: string, maxLen: int, messages: seq<string>)
    requires maxLen > 0
  {
    exists n: nat :: Run(Init(content), maxLen, n).Done() && messages == Texts(Run(Init(content), maxLen, n).out)
  }

  /** The splitter. It is defined on exactly the messages its loop ends on. */
  method SplitMessage(content: string, maxLen: int) returns (messages: seq<string>)
    requires maxLen <= 0 || Halts(content, maxLen)
    ensures maxLen <= 0 ==> messages == if content == "" then [] else [content]
    ensures maxLen > 0 ==> ChunksOf(content, maxLen, messages)
  {
    if maxLen <= 0 {
      if content == "" {
        return [];
      }
      return [content];
    }
    var codeBlockBuffer := CodeBlockBuffer(maxLen);
    ghost var n := EndOf(content, maxLen);
    messages := SplitRunes(content, maxLen, codeBlockBuffer, Init(content), n);
  }

  /** The loop, from its initial state `from` to the end of the run after `n` iterations. */
  method SplitRunes(content: string, maxLen: int, codeBlockBuffer: int, ghost from: Loop, ghost n: nat)
    returns (messages: seq<string>)
    requires maxLen > 0 && LeavesRoom(codeBlockBuffer, maxLen)
    requires from.Valid() && from == Loop(content, 0, 0, []) && Run(from, maxLen, n).Done()
    ensures messages == Texts(Run(from, maxLen, n).out)
  {
    hide *;
    var runes := content;
    messages := [];
    NoTexts();
    var start := 0;
    ghost var s, left := from, n;
    while start < |runes|
      invariant s.Valid() && s.text == runes && s.start == start && messages == Texts(s.out)
      invariant Run(s, maxLen, left).Done() && Run(s, maxLen, left) == Run(from, maxLen, n)
      decreases left
    {
      UnrollRun(s, maxLen, left);
      var chunk;
      chunk, runes, start := NextChunk(runes, start, maxLen, codeBlockBuffer, s);
      messages := messages + [chunk];
      s, left := Step(s, maxLen), left - 1;
    }
    RunOfDone(s, maxLen, left);
  }
}
