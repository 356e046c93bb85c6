/** Repair of a conversation before it is sent to a provider: two passes, as functions on
    message sequences, and the loops that carry them out. */
module Sanitize {

  /** `Other` stands for any role string outside the four the code names. */
  datatype Role = System | User | Assistant | Tool | Other(name: string)

  datatype Message = Message(role: Role, content: string, toolCalls: seq<string>, toolCallId: string)

  predicate IsTool(m: Message) { m.role.Tool? }

  /** An assistant message that calls tools. */
  predicate IsCall(m: Message) { m.role.Assistant? && m.toolCalls != [] }

  predicate UserOrTool(m: Message) { m.role.User? || m.role.Tool? }

  /** A message neither pass ever drops. */
  predicate IsPlain(m: Message) { !m.role.System? && !IsTool(m) && !IsCall(m) }

  // ---- First pass ----------------------------------------------------------

  /** The nearest message from the end that is no tool message exists and calls tools. */
  function InsideRun(s: seq<Message>): bool {
    s != [] && if IsTool(s[|s| - 1]) then InsideRun(s[..|s| - 1]) else IsCall(s[|s| - 1])
  }

  function Admit(s: seq<Message>, m: Message): seq<Message> {
    match m.role
    case System => s
    case Tool => if InsideRun(s) then s + [m] else s
    case Assistant =>
      if m.toolCalls != [] && !(s != [] && UserOrTool(s[|s| - 1])) then s else s + [m]
    case _ => s + [m]
  }

  function Pass1(h: seq<Message>): seq<Message> {
    if h == [] then [] else Admit(Pass1(h[..|h| - 1]), h[|h| - 1])
  }

  // ---- Second pass ---------------------------------------------------------

  /** How many tool messages the sequence starts with. */
  function RunLength(s: seq<Message>): (n: nat)
    ensures n <= |s| && (n < |s| ==> !IsTool(s[n]))
    ensures forall i | 0 <= i < n :: IsTool(s[i])
  {
    if s != [] && IsTool(s[0]) then 1 + RunLength(s[1..]) else 0
  }

  /** Some message of the run answers `id`. */
  predicate Answers(run: seq<Message>, id: string) {
    exists k | 0 <= k < |run| :: run[k].toolCallId == id
  }

  predicate Complete(call: Message, run: seq<Message>) {
    forall i | 0 <= i < |call.toolCalls| :: Answers(run, call.toolCalls[i])
  }

  /** The first message for each id, in order. */
  function Dedup(run: seq<Message>): (r: seq<Message>) {
    if run == [] then [] else
    var init := Dedup(run[..|run| - 1]);
    var last := run[|run| - 1];
    if Answers(run[..|run| - 1], last.toolCallId) then init else init + [last]
  }

  function Pass2(s: seq<Message>): seq<Message> {
    if s == [] then []
    else if IsCall(s[0]) then
      var n := RunLength(s[1..]);
      KeptOf(s[0], s[1..1 + n]) + Pass2(s[1 + n..])
    else [s[0]] + Pass2(s[1..])
  }

  /** What is kept of a call and the tool run after it. */
  function KeptOf(call: Message, run: seq<Message>): seq<Message> {
    if Complete(call, run) then [call] + Dedup(run) else []
  }

  function Sanitized(h: seq<Message>): seq<Message> { Pass2(Pass1(h)) }

  // ---- The loops -----------------------------------------------------------

  method FirstPass(history: seq<Message>) returns (sanitized: seq<Message>)
    ensures sanitized == Pass1(history)
  {
    sanitized := [];
    for n := 0 to |history|
      invariant sanitized == Pass1(history[..n])
    {
      var msg := history[n];
      assert history[..n + 1][..n] == history[..n];
      match msg.role {
        case System =>
        case Tool =>
          if |sanitized| > 0 {
            var foundAssistant := SearchAssistant(sanitized);
            if foundAssistant {
              sanitized := sanitized + [msg];
            }
          }
        case Assistant =>
          if |msg.toolCalls| > 0 {
            if |sanitized| > 0 {
              var prev := sanitized[|sanitized| - 1];
              if prev.role.User? || prev.role.Tool? {
                sanitized := sanitized + [msg];
              }
            }
          } else {
            sanitized := sanitized + [msg];
          }
        case Other(_) => sanitized := sanitized + [msg];
        case User => sanitized := sanitized + [msg];
      }
    }
    assert history[..|history|] == history;
  }

  method SearchAssistant(sanitized: seq<Message>) returns (found: bool)
    ensures found == InsideRun(sanitized)
  {
    var i := |sanitized| - 1;
    assert sanitized[..i + 1] == sanitized;
    while i >= 0
      invariant -1 <= i < |sanitized|
      invariant InsideRun(sanitized) == InsideRun(sanitized[..i + 1])
    {
      assert sanitized[..i + 1][..i] == sanitized[..i];
      if !sanitized[i].role.Tool? {
        return sanitized[i].role.Assistant? && |sanitized[i].toolCalls| > 0;
      }
      i := i - 1;
    }
    return false;
  }

  /** The entries of `expected` are the called ids, each marked when the run answers it. */
  ghost predicate Records(expected: map<string, bool>, call: Message, run: seq<Message>) {
    && (forall i | 0 <= i < |call.toolCalls| :: call.toolCalls[i] in expected)
    && (forall id | id in expected :: id in call.toolCalls && expected[id] == Answers(run, id))
  }

  method CollectResults(call: Message, s: seq<Message>, from: nat)
    returns (expected: map<string, bool>, toolMsgCount: nat)
    requires from <= |s|
    ensures toolMsgCount == RunLength(s[from..])
    ensures Records(expected, call, s[from..from + toolMsgCount])
  {
    expected := map i | 0 <= i < |call.toolCalls| :: call.toolCalls[i] := false;
    NothingRecorded(expected, call, s, from);
    hide *;
    toolMsgCount := 0;
    var j := from;
    while j < |s| && IsTool(s[j])
      invariant from <= j <= |s| && toolMsgCount == j - from
      invariant RunLength(s[from..]) == toolMsgCount + RunLength(s[j..])
      invariant Records(expected, call, s[from..j])
    {
      RunLengthStep(s, j);
      RecordOneMore(expected, call, s, from, j);
      toolMsgCount := toolMsgCount + 1;
      if s[j].toolCallId in expected {
        expected := expected[s[j].toolCallId := true];
      }
      j := j + 1;
    }
    RunEnds(s, j);
  }

  lemma NothingRecorded(expected: map<string, bool>, call: Message, s: seq<Message>, from: nat)
    requires from <= |s| && expected == map i | 0 <= i < |call.toolCalls| :: call.toolCalls[i] := false
    ensures Records(expected, call, s[from..from])
  {
  }

  lemma RecordOneMore(expected: map<string, bool>, call: Message, s: seq<Message>, from: nat, j: nat)
    requires from <= j < |s| && Records(expected, call, s[from..j])
    ensures var id := s[j].toolCallId;
            Records(if id in expected then expected[id := true] else expected, call, s[from..j + 1])
  {
    AnswersOneMore(s, from, j);
    hide Answers;
  }

  lemma RunLengthStep(s: seq<Message>, j: nat)
    requires j < |s| && IsTool(s[j])
    ensures RunLength(s[j..]) == 1 + RunLength(s[j + 1..])
  {
    assert s[j..][1..] == s[j + 1..];
  }

  lemma RunEnds(s: seq<Message>, j: nat)
    requires j <= |s| && (j < |s| ==> !IsTool(s[j]))
    ensures RunLength(s[j..]) == 0
  {
  }

  lemma SliceOneMore(s: seq<Message>, from: nat, j: nat)
    requires from <= j < |s|
    ensures s[from..j + 1] == s[from..j] + [s[j]]
  {
  }

  lemma AnswersSnoc(run: seq<Message>, m: Message, id: string)
    ensures Answers(run + [m], id) <==> (Answers(run, id) || m.toolCallId == id)
  {
    var more := run + [m];
    assert more[|run|] == m && forall k | 0 <= k < |run| :: more[k] == run[k];
  }

  lemma AnswersOneMore(s: seq<Message>, from: nat, j: nat)
    requires from <= j < |s|
    ensures forall id :: Answers(s[from..j + 1], id) <==> (Answers(s[from..j], id) || s[j].toolCallId == id)
  {
    SliceOneMore(s, from, j);
    hide Answers;
    forall id
      ensures Answers(s[from..j + 1], id) <==> (Answers(s[from..j], id) || s[j].toolCallId == id)
    {
      AnswersSnoc(s[from..j], s[j], id);
    }
  }

  method AllFound(expected: map<string, bool>) returns (allFound: bool)
    ensures allFound == forall id | id in expected :: expected[id]
  {
    var left := expected.Keys;
    while left != {}
      invariant left <= expected.Keys
      invariant forall id | id in expected && id !in left :: expected[id]
      decreases left
    {
      var toolCallID :| toolCallID in left;
      if !expected[toolCallID] {
        return false;
      }
      left := left - {toolCallID};
    }
    return true;
  }

  /** Keeps the first result per id of the tool run `s[from..to)`. */
  method KeepFirstResults(s: seq<Message>, from: nat, to: nat) returns (kept: seq<Message>)
    requires from <= to <= |s|
    ensures kept == Dedup(s[from..to])
  {
    kept := [];
    var seen: set<string> := {};
    var j := from;
    while j < to
      invariant from <= j <= to
      invariant kept == Dedup(s[from..j])
      invariant forall id :: id in seen <==> Answers(s[from..j], id)
    {
      AnswersOneMore(s, from, j);
      assert s[from..j + 1][..j - from] == s[from..j];
      if s[j].toolCallId !in seen {
        seen := seen + {s[j].toolCallId};
        kept := kept + [s[j]];
      }
      j := j + 1;
    }
  }

  /** What the second pass makes of the group that starts at `i`, and the group's length. */
  method PassOneGroup(sanitized: seq<Message>, i: nat) returns (part: seq<Message>, toolMsgCount: nat)
    requires i < |sanitized| && IsCall(sanitized[i])
    ensures i + 1 + toolMsgCount <= |sanitized|
    ensures Pass2(sanitized[i..]) == part + Pass2(sanitized[i + 1 + toolMsgCount..])
  {
    hide *;
    var expected;
    expected, toolMsgCount := CollectResults(sanitized[i], sanitized, i + 1);
    var allFound := AllFound(expected);
    ghost var run := sanitized[i + 1..i + 1 + toolMsgCount];
    PassGroup(sanitized, i, toolMsgCount);
    AllRecorded(expected, sanitized[i], run);
    part := [];
    if allFound {
      var kept := KeepFirstResults(sanitized, i + 1, i + 1 + toolMsgCount);
      part := [sanitized[i]] + kept;
    }
    KeptEither(sanitized[i], run);
  }

  lemma KeptEither(call: Message, run: seq<Message>)
    ensures Complete(call, run) ==> KeptOf(call, run) == [call] + Dedup(run)
    ensures !Complete(call, run) ==> KeptOf(call, run) == []
  {
    hide Complete, Dedup;
  }

  method SecondPass(sanitized: seq<Message>) returns (final: seq<Message>)
    ensures final == Pass2(sanitized)
  {
    hide *;
    final := [];
    var i := 0;
    BeforeFirst(sanitized);
    while i < |sanitized|
      invariant i <= |sanitized|
      invariant final + Pass2(sanitized[i..]) == Pass2(sanitized)
    {
      var msg := sanitized[i];
      var part, skip := [msg], 0;
      if IsCall(msg) {
        part, skip := PassOneGroup(sanitized, i);
      } else {
        PassPlain(sanitized, i);
      }
      Advance(final, part, Pass2(sanitized[i..]), Pass2(sanitized[i + 1 + skip..]), Pass2(sanitized));
      final := final + part;
      i := i + 1 + skip;
    }
    AfterLast(final, sanitized, i);
  }

  lemma BeforeFirst(s: seq<Message>)
    ensures [] + Pass2(s[0..]) == Pass2(s)
  {
    hide Pass2;
    assert s[0..] == s && [] + Pass2(s) == Pass2(s);
  }

  lemma AfterLast(done: seq<Message>, s: seq<Message>, i: nat)
    requires i == |s|
    ensures done + Pass2(s[i..]) == done
  {
    assert s[i..] == [];
  }

  lemma Advance(done: seq<Message>, part: seq<Message>, before: seq<Message>, after: seq<Message>, total: seq<Message>)
    requires done + before == total && before == part + after
    ensures (done + part) + after == total
  {
  }

  lemma PassPlain(s: seq<Message>, i: nat)
    requires i < |s| && !IsCall(s[i])
    ensures Pass2(s[i..]) == [s[i]] + Pass2(s[i + 1..])
  {
    assert s[i..][1..] == s[i + 1..];
  }

  lemma AllRecorded(expected: map<string, bool>, call: Message, run: seq<Message>)
    requires Records(expected, call, run)
    ensures Complete(call, run) <==> forall id | id in expected :: expected[id]
  {
  }

  /** One group of the second pass, seen from the middle of the sequence. */
  lemma PassGroup(s: seq<Message>, i: nat, n: nat)
    requires i < |s| && IsCall(s[i]) && n == RunLength(s[i + 1..])
    ensures Pass2(s[i..]) == KeptOf(s[i], s[i + 1..i + 1 + n]) + Pass2(s[i + 1 + n..])
  {
    hide KeptOf;
    var t := s[i..];
    assert t[1..] == s[i + 1..] && t[1..1 + n] == s[i + 1..i + 1 + n] && t[1 + n..] == s[i + 1 + n..];
  }

  method SanitizeHistoryForProvider(history: seq<Message>) returns (final: seq<Message>)
    ensures final == Sanitized(history)
  {
    if |history| == 0 {
      return history;
    }
    var sanitized := FirstPass(history);
    final := SecondPass(sanitized);
  }
}
