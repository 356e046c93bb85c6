/** The JSONL session store: a log file and a metadata file per session, each operation a
    short list of writes, and the class that performs them. */
module SessionStore {
  datatype Message = Message(role: string, content: string)

  /** A line of the log: empty, undecodable, or a message. */
  datatype Line = Blank | Corrupt | Record(msg: Message)

  datatype Meta = Meta(skip: int, count: int)

  /** The two files of one session; a missing file reads as empty or zero. */
  datatype Disk = Disk(log: seq<Line>, meta: Meta)

  const EMPTY := Disk([], Meta(0, 0))

  datatype Op = Add(msg: Message) | Truncate(keepLast: int) | Set(history: seq<Message>) | Compact

  datatype Write = AppendLine(line: Line) | PutMeta(meta: Meta) | PutLog(log: seq<Line>)

  function NonBlank(log: seq<Line>): (r: seq<Line>) {
    if log == [] then [] else NonBlank(log[..|log| - 1]) + if log[|log| - 1].Blank? then [] else [log[|log| - 1]]
  }

  function Decode(lines: seq<Line>): seq<Message> {
    if lines == [] then [] else
    Decode(lines[..|lines| - 1]) + if lines[|lines| - 1].Record? then [lines[|lines| - 1].msg] else []
  }

  function Records(h: seq<Message>): seq<Line> {
    seq(|h|, i requires 0 <= i < |h| => Record(h[i]))
  }

  function Drop(lines: seq<Line>, n: int): seq<Line> {
    if n <= 0 then lines else if n >= |lines| then [] else lines[n..]
  }

  /** The lines a reader does not skip. */
  function Active(d: Disk): seq<Line> { Drop(NonBlank(d.log), d.meta.skip) }

  /** What `GetHistory` returns. */
  function History(d: Disk): seq<Message> { Decode(Active(d)) }

  /** The metadata a truncation writes, with the count taken from the log. */
  function TruncatedMeta(d: Disk, keepLast: int): Meta {
    var n := |NonBlank(d.log)|;
    Meta(if keepLast <= 0 then n else if keepLast < n - d.meta.skip then n - keepLast else d.meta.skip, n)
  }

  /** The writes of an operation, in the order they reach the disk. */
  function Writes(d: Disk, op: Op): seq<Write> {
    match op
    case Add(m) => [AppendLine(Record(m)), PutMeta(d.meta.(count := d.meta.count + 1))]
    case Truncate(k) => [PutMeta(TruncatedMeta(d, k))]
    case Set(h) => [PutMeta(Meta(0, |h|)), PutLog(Records(h))]
    case Compact =>
      if d.meta.skip == 0 then [] else [PutMeta(Meta(0, |History(d)|)), PutLog(Records(History(d)))]
  }

  function Do(d: Disk, w: Write): Disk {
    match w
    case AppendLine(l) => d.(log := d.log + [l])
    case PutMeta(m) => d.(meta := m)
    case PutLog(log) => d.(log := log)
  }

  /** The disk when only the first `landed` writes of the operation reached it; no operation
      makes more than two. */
  function After(d: Disk, op: Op, landed: nat): Disk {
    var ws := Writes(d, op);
    if landed == 0 || ws == [] then d
    else if landed == 1 || |ws| == 1 then Do(d, ws[0])
    else Do(Do(d, ws[0]), ws[1])
  }

  function SanitizeKey(key: string): (r: string)
    ensures |r| == |key| && ':' !in r && '/' !in r && '\\' !in r
    ensures forall i | 0 <= i < |key| :: if key[i] in ":/\\" then r[i] == '_' else r[i] == key[i]
  {
    seq(|key|, i requires 0 <= i < |key| => if key[i] in ":/\\" then '_' else key[i])
  }

  class JSONLStore {
    var logs: map<string, seq<Line>>
    var metas: map<string, Meta>

    constructor ()
      ensures logs == map[] && metas == map[]
    {
      logs, metas := map[], map[];
    }

    function DiskOf(key: string): Disk
      reads this
    {
      Disk(ReadLog(key), ReadMeta(key))
    }

    function ReadLog(key: string): seq<Line>
      reads this
    {
      if SanitizeKey(key) in logs then logs[SanitizeKey(key)] else []
    }

    function ReadMeta(key: string): Meta
      reads this
    {
      if SanitizeKey(key) in metas then metas[SanitizeKey(key)] else Meta(0, 0)
    }

    /** The files of sessions with another file name are as they were. */
    twostate predicate OthersUnchanged(key: string)
      reads this
    {
      forall other: string | SanitizeKey(other) != SanitizeKey(key) :: DiskOf(other) == old(DiskOf(other))
    }

    method ReadMessages(key: string, skip: int) returns (msgs: seq<Message>)
      ensures msgs == Decode(Drop(NonBlank(ReadLog(key)), skip))
    {
      var log := ReadLog(key);
      msgs := [];
      var lineNum := 0;
      for n := 0 to |log|
        invariant lineNum == |NonBlank(log[..n])|
        invariant msgs == Decode(Drop(NonBlank(log[..n]), skip))
      {
        ReadOne(log, n, skip);
        hide NonBlank, Decode, Drop;
        if !log[n].Blank? {
          lineNum := lineNum + 1;
          if lineNum > skip && log[n].Record? {
            msgs := msgs + [log[n].msg];
          }
        }
      }
      assert log[..|log|] == log;
    }

    method CountLines(key: string) returns (n: nat)
      ensures n == |NonBlank(ReadLog(key))|
    {
      var log := ReadLog(key);
      n := 0;
      for i := 0 to |log|
        invariant n == |NonBlank(log[..i])|
      {
        assert log[..i + 1][..i] == log[..i];
        if !log[i].Blank? {
          n := n + 1;
        }
      }
      assert log[..|log|] == log;
    }

    method GetHistory(key: string) returns (msgs: seq<Message>)
      ensures msgs == History(DiskOf(key))
    {
      msgs := ReadMessages(key, ReadMeta(key).skip);
    }

    /** `landed` is how many of the operation's writes reach the disk before a crash or a
        write error ends it; any number past the last write means it completes. */
    method AddMsg(key: string, msg: Message, landed: nat)
      modifies this
      ensures DiskOf(key) == After(old(DiskOf(key)), Add(msg), landed) && OthersUnchanged(key)
    {
      if landed == 0 {
        return;
      }
      logs := logs[SanitizeKey(key) := ReadLog(key) + [Record(msg)]];
      if landed == 1 {
        return;
      }
      var meta := ReadMeta(key);
      metas := metas[SanitizeKey(key) := meta.(count := meta.count + 1)];
    }

    method TruncateHistory(key: string, keepLast: int, landed: nat)
      modifies this
      ensures DiskOf(key) == After(old(DiskOf(key)), Truncate(keepLast), landed) && OthersUnchanged(key)
    {
      var meta := ReadMeta(key);
      var n := CountLines(key);
      meta := meta.(count := n);
      if keepLast <= 0 {
        meta := meta.(skip := meta.count);
      } else {
        var effective := meta.count - meta.skip;
        if keepLast < effective {
          meta := meta.(skip := meta.count - keepLast);
        }
      }
      if landed >= 1 {
        metas := metas[SanitizeKey(key) := meta];
      }
    }

    method SetHistory(key: string, history: seq<Message>, landed: nat)
      modifies this
      ensures DiskOf(key) == After(old(DiskOf(key)), Set(history), landed) && OthersUnchanged(key)
    {
      if landed >= 1 {
        metas := metas[SanitizeKey(key) := Meta(0, |history|)];
      }
      if landed >= 2 {
        logs := logs[SanitizeKey(key) := Records(history)];
      }
    }

    method CompactHistory(key: string, landed: nat)
      modifies this
      ensures DiskOf(key) == After(old(DiskOf(key)), Compact, landed) && OthersUnchanged(key)
    {
      var meta := ReadMeta(key);
      if meta.skip == 0 {
        return;
      }
      var active := ReadMessages(key, meta.skip);
      if landed >= 1 {
        metas := metas[SanitizeKey(key) := Meta(0, |active|)];
      }
      if landed >= 2 {
        logs := logs[SanitizeKey(key) := Records(active)];
      }
    }
  }

  lemma DropSnoc(lines: seq<Line>, l: Line, n: int)
    ensures Drop(lines + [l], n) == if |lines| + 1 > n then Drop(lines, n) + [l] else []
    ensures |lines| + 1 <= n ==> Drop(lines, n) == []
  {
  }

  /** How one more line of the log changes what a reader returns. */
  lemma ReadOne(log: seq<Line>, n: nat, skip: int)
    requires n < |log|
    ensures var lines, more := NonBlank(log[..n]), NonBlank(log[..n + 1]);
            && |more| == |lines| + (if log[n].Blank? then 0 else 1)
            && Decode(Drop(more, skip)) == Decode(Drop(lines, skip))
                 + if |lines| + 1 > skip && log[n].Record? then [log[n].msg] else []
  {
    var lines, more := NonBlank(log[..n]), NonBlank(log[..n + 1]);
    assert log[..n + 1][..n] == log[..n];
    if log[n].Blank? {
      assert more == lines;
    } else {
      assert more == lines + [log[n]];
      DropSnoc(lines, log[n], skip);
      var kept := Drop(lines, skip);
      assert (kept + [log[n]])[..|kept|] == kept;
      assert Decode(kept + [log[n]]) == Decode(kept) + if log[n].Record? then [log[n].msg] else [];
    }
  }
}

/** Runs of the store with interruptions, against a plain sequence of messages. */
module SessionRuns {
  import opened SessionStore

  datatype Event = Event(op: Op, landed: nat)

  predicate IsSuffix<T(==)>(a: seq<T>, b: seq<T>) {
    |a| <= |b| && a == b[|b| - |a|..]
  }

  function Last<T>(s: seq<T>, k: int): seq<T> {
    if k <= 0 then [] else if k >= |s| then s else s[|s| - k..]
  }

  /** The metadata never skips past the end of the log. */
  predicate Sane(d: Disk) { 0 <= d.meta.skip <= |NonBlank(d.log)| }

  predicate NoCorrupt(lines: seq<Line>) { forall i | 0 <= i < |lines| :: lines[i].Record? }

  // ---- Facts about lines ---------------------------------------------------

  lemma {:induction false} DecodeAppend(a: seq<Line>, b: seq<Line>)
    ensures Decode(a + b) == Decode(a) + Decode(b)
  {
    if b == [] {
      assert a + b == a;
    } else {
      assert (a + b)[..|a + b| - 1] == a + b[..|b| - 1];
      DecodeAppend(a, b[..|b| - 1]);
    }
  }

  lemma DecodeSuffix(a: seq<Line>, b: seq<Line>)
    requires IsSuffix(a, b)
    ensures IsSuffix(Decode(a), Decode(b))
  {
    var front := b[..|b| - |a|];
    assert b == front + a;
    DecodeAppend(front, a);
  }

  lemma {:induction false} DecodeRecords(h: seq<Message>)
    ensures Decode(Records(h)) == h && NonBlank(Records(h)) == Records(h)
  {
    if h != [] {
      DecodeRecords(h[..|h| - 1]);
      assert Records(h)[..|h| - 1] == Records(h[..|h| - 1]);
    }
  }

  lemma {:induction false} DecodeClean(lines: seq<Line>)
    requires NoCorrupt(lines)
    ensures Records(Decode(lines)) == lines
  {
    if lines != [] {
      DecodeClean(lines[..|lines| - 1]);
    }
  }

  lemma {:induction false} NonBlankHasNoBlank(log: seq<Line>)
    ensures forall i | 0 <= i < |NonBlank(log)| :: !NonBlank(log)[i].Blank?
  {
    if log != [] {
      NonBlankHasNoBlank(log[..|log| - 1]);
    }
  }

  lemma NonBlankSnoc(log: seq<Line>, m: Message)
    ensures NonBlank(log + [Record(m)]) == NonBlank(log) + [Record(m)]
  {
    assert (log + [Record(m)])[..|log|] == log;
  }

  // ---- Single operations ---------------------------------------------------

  /** Completed compaction leaves the history as it was, even with undecodable lines. */
  lemma CompactKeepsHistory(d: Disk, landed: nat)
    requires landed >= 2
    ensures History(After(d, Compact, landed)) == History(d)
  {
    CompactWrites(d, landed);
    hide After, Active, Decode, Records, Sane;
    DecodeRecords(History(d));
    RewriteShows(d, History(d));
  }

  lemma CompactWrites(d: Disk, landed: nat)
    ensures After(d, Compact, landed)
              == if d.meta.skip == 0 || landed == 0 then d
                 else if landed == 1 then d.(meta := Meta(0, |History(d)|))
                 else Disk(Records(History(d)), Meta(0, |History(d)|))
  {
    hide History, Records;
  }

  lemma RewriteShows(d: Disk, h: seq<Message>)
    ensures var d' := Disk(Records(h), Meta(0, |h|)); Sane(d') && Active(d') == Records(h)
  {
    DecodeRecords(h);
  }

  /** A compaction interrupted between its two writes shows the truncated lines again, and no
      later compaction hides them: the history is the old one only if they held no message. */
  lemma InterruptedCompactSticks(d: Disk, landed: nat)
    requires Sane(d) && d.meta.skip != 0
    ensures var d' := After(d, Compact, 1);
            && After(d', Compact, landed) == d'
            && History(d') == Decode(NonBlank(d.log)[..d.meta.skip]) + History(d)
            && (History(d') == History(d) <==> Decode(NonBlank(d.log)[..d.meta.skip]) == [])
  {
    CompactWrites(d, 1);
    CompactWrites(After(d, Compact, 1), landed);
    hide After, NonBlank, Decode;
    var lines, skip := NonBlank(d.log), d.meta.skip;
    assert lines == lines[..skip] + lines[skip..] && (skip == |lines| ==> lines[skip..] == []);
    DecodeAppend(lines[..skip], lines[skip..]);
    assert [] + History(d) == History(d);
  }

  /** Truncation keeps the last `keepLast` active lines, whatever the stored count says. */
  lemma TruncateKeepsLastLines(d: Disk, keepLast: int, landed: nat)
    requires Sane(d) && landed >= 1
    ensures var d' := After(d, Truncate(keepLast), landed);
            Sane(d') && Active(d') == Last(Active(d), keepLast)
  {
    var lines := NonBlank(d.log);
    assert After(d, Truncate(keepLast), landed) == d.(meta := TruncatedMeta(d, keepLast));
  }

  /** So the history it leaves is a suffix of the old one, and exactly its last `keepLast`
      messages when every active line decodes. */
  lemma TruncateKeepsLastMessages(d: Disk, keepLast: int, landed: nat)
    requires Sane(d) && landed >= 1
    ensures var h := History(After(d, Truncate(keepLast), landed));
            IsSuffix(h, History(d)) && (NoCorrupt(Active(d)) ==> h == Last(History(d), keepLast))
  {
    hide After;
    TruncateKeepsLastLines(d, keepLast, landed);
    var active := Active(d);
    hide Active;
    assert IsSuffix(Last(active, keepLast), active);
    DecodeSuffix(Last(active, keepLast), active);
    if NoCorrupt(active) {
      DecodeLast(active, keepLast);
    }
  }

  lemma DecodeLast(lines: seq<Line>, k: int)
    requires NoCorrupt(lines)
    ensures Decode(Last(lines, k)) == Last(Decode(lines), k) && NoCorrupt(Last(lines, k))
  {
    DecodeClean(lines);
    var h := Decode(lines);
    assert Last(lines, k) == Records(Last(h, k));
    DecodeRecords(Last(h, k));
  }

  // ---- Runs ----------------------------------------------------------------

  /** The disk; the lines a store without interruptions to re-expose would show; and whether
      no interruption has re-exposed a truncated line. */
  datatype World = World(disk: Disk, expected: seq<Line>, exact: bool)

  function Next(w: World, ev: Event): World {
    var d := After(w.disk, ev.op, ev.landed);
    match ev.op
    case Add(m) => World(d, if ev.landed >= 1 then w.expected + [Record(m)] else w.expected, w.exact)
    case Truncate(k) =>
      if ev.landed >= 1 then World(d, Last(w.expected, k), w.exact || k <= 0) else w.(disk := d)
    case Set(h) =>
      if ev.landed >= 2 then World(d, Records(h), true)
      else World(d, w.expected, w.exact && (ev.landed == 0 || w.disk.meta.skip == 0))
    case Compact =>
      if w.disk.meta.skip == 0 then w.(disk := d)
      else if ev.landed >= 2 then World(d, Records(Decode(w.expected)), w.exact)
      else World(d, w.expected, w.exact && ev.landed == 0)
  }

  function Run(d: Disk, evs: seq<Event>): World {
    if evs == [] then World(d, Active(d), true) else Next(Run(d, evs[..|evs| - 1]), evs[|evs| - 1])
  }

  predicate Refines(w: World) {
    Sane(w.disk) && IsSuffix(w.expected, Active(w.disk)) && (w.exact ==> w.expected == Active(w.disk))
  }

  lemma SuffixTransitive<T>(a: seq<T>, b: seq<T>, c: seq<T>)
    requires IsSuffix(a, b) && IsSuffix(b, c)
    ensures IsSuffix(a, c)
  {
  }

  lemma SuffixSnoc<T>(a: seq<T>, b: seq<T>, x: T)
    requires IsSuffix(a, b)
    ensures IsSuffix(a + [x], b + [x])
  {
  }

  lemma SuffixMap(a: seq<Message>, b: seq<Message>)
    requires IsSuffix(a, b)
    ensures IsSuffix(Records(a), Records(b))
  {
  }

  lemma AddShows(d: Disk, m: Message, landed: nat)
    requires Sane(d) && landed >= 1
    ensures var d' := After(d, Add(m), landed);
            Sane(d') && Active(d') == Active(d) + [Record(m)] && d'.meta.skip == d.meta.skip
  {
    NonBlankSnoc(d.log, m);
  }

  /** Writing the metadata first shows every line of the old log again. */
  lemma ResetShowsAll(d: Disk, count: int)
    requires Sane(d)
    ensures var d' := d.(meta := Meta(0, count));
            Sane(d') && IsSuffix(Active(d), Active(d')) && (d.meta.skip == 0 ==> Active(d') == Active(d))
  {
  }

  lemma AddRefines(w: World, m: Message, landed: nat)
    requires Refines(w)
    ensures Refines(Next(w, Event(Add(m), landed)))
  {
    if landed >= 1 {
      AddShows(w.disk, m, landed);
      hide Active, Sane, After;
      SuffixSnoc(w.expected, Active(w.disk), Record(m));
    }
  }

  lemma LastKeepsSuffix<T>(a: seq<T>, b: seq<T>, k: int)
    requires IsSuffix(a, b)
    ensures IsSuffix(Last(a, k), Last(b, k))
    ensures k <= 0 ==> Last(a, k) == Last(b, k)
  {
  }

  lemma TruncateRefines(w: World, k: int, landed: nat)
    requires Refines(w)
    ensures Refines(Next(w, Event(Truncate(k), landed)))
  {
    if landed >= 1 {
      hide After, Active, Sane, IsSuffix, Last;
      TruncateKeepsLastLines(w.disk, k, landed);
      LastKeepsSuffix(w.expected, Active(w.disk), k);
    }
  }

  lemma SetRefines(w: World, h: seq<Message>, landed: nat)
    requires Refines(w)
    ensures Refines(Next(w, Event(Set(h), landed)))
  {
    RewriteShows(w.disk, h);
    ResetShowsAll(w.disk, |h|);
    hide Active, Sane, IsSuffix, Records;
    if landed == 1 {
      SuffixTransitive(w.expected, Active(w.disk), Active(w.disk.(meta := Meta(0, |h|))));
    }
    SuffixOfItself(Records(h));
  }

  lemma SuffixOfItself<T>(a: seq<T>)
    ensures IsSuffix(a, a)
  {
  }

  lemma CompactRefines(w: World, landed: nat)
    requires Refines(w)
    ensures Refines(Next(w, Event(Compact, landed)))
  {
    hide After, Active, Sane, IsSuffix, Records, Decode;
    var h := History(w.disk);
    CompactWrites(w.disk, landed);
    if landed == 1 {
      ResetShowsAll(w.disk, |h|);
      SuffixTransitive(w.expected, Active(w.disk), Active(w.disk.(meta := Meta(0, |h|))));
    } else if landed >= 2 {
      RewriteShows(w.disk, h);
      DecodeSuffix(w.expected, Active(w.disk));
      SuffixMap(Decode(w.expected), h);
    }
  }

  lemma {:induction false} RunRefines(d: Disk, evs: seq<Event>)
    requires Sane(d)
    ensures Refines(Run(d, evs))
  {
    if evs != [] {
      var w, ev := Run(d, evs[..|evs| - 1]), evs[|evs| - 1];
      RunRefines(d, evs[..|evs| - 1]);
      hide Refines, Next;
      match ev.op
      case Add(m) => AddRefines(w, m, ev.landed);
      case Truncate(k) => TruncateRefines(w, k, ev.landed);
      case Set(h) => SetRefines(w, h, ev.landed);
      case Compact => CompactRefines(w, ev.landed);
    }
  }

  /** Over every run, with interruptions anywhere, no expected line is lost: what was expected
      is a suffix of what `GetHistory` returns, and all of it while nothing was re-exposed. */
  lemma ExpectedIsVisible(d: Disk, evs: seq<Event>)
    requires Sane(d)
    ensures var w := Run(d, evs);
            && 0 <= w.disk.meta.skip <= |NonBlank(w.disk.log)|
            && IsSuffix(Decode(w.expected), History(w.disk))
            && (w.exact ==> History(w.disk) == Decode(w.expected))
  {
    RunRefines(d, evs);
    DecodeSuffix(Run(d, evs).expected, Active(Run(d, evs).disk));
  }

  // ---- The stored count ----------------------------------------------------

  /** Every line that is not blank counts as a line, whether or not it decodes, and is read after
      those before it. */
  lemma LinesAppend(log: seq<Line>, line: Line)
    ensures NonBlank(log + [line]) == if line == Blank then NonBlank(log) else NonBlank(log) + [line]
    ensures Decode(log + [line]) == if line.Record? then Decode(log) + [line.msg] else Decode(log)
  {
    assert (log + [line])[..|log|] == log;
  }

  /** The stored count is the number of lines of the log. */
  predicate Counts(d: Disk) { d.meta.count == |NonBlank(d.log)| }

  lemma CompleteCounts(d: Disk, op: Op, landed: nat)
    requires Counts(d) && landed >= 2
    ensures Counts(After(d, op, landed))
  {
    match op
    case Add(m) => NonBlankSnoc(d.log, m);
    case Truncate(k) =>
    case Set(h) => DecodeRecords(h);
    case Compact => DecodeRecords(History(d));
  }

  /** A truncation puts a count right that an interruption has left stale. */
  lemma TruncateRecounts(d: Disk, keepLast: int, landed: nat)
    requires landed >= 1
    ensures Counts(After(d, Truncate(keepLast), landed))
  {
  }

  lemma CompletePrefix(evs: seq<Event>)
    requires Complete(evs) && evs != []
    ensures Complete(evs[..|evs| - 1]) && evs[|evs| - 1].landed >= 2
  {
  }

  /** While nothing is interrupted the stored count is the number of lines of the log. */
  lemma {:induction false} CountIsKept(d: Disk, evs: seq<Event>)
    requires Counts(d) && Complete(evs)
    ensures Counts(Run(d, evs).disk)
  {
    if evs != [] {
      var init, ev := evs[..|evs| - 1], evs[|evs| - 1];
      CompletePrefix(evs);
      CountIsKept(d, init);
      hide Counts, After;
      CompleteCounts(Run(d, init).disk, ev.op, ev.landed);
    }
  }

  // ---- The plain specification ---------------------------------------------

  /** The store as a plain sequence of messages. An append counts once its line is written, a
      replacement only when it is complete, and compaction does nothing. */
  function Spec(h: seq<Message>, evs: seq<Event>): seq<Message> {
    if evs == [] then h else SpecNext(Spec(h, evs[..|evs| - 1]), evs[|evs| - 1])
  }

  function SpecNext(before: seq<Message>, ev: Event): seq<Message> {
    match ev.op
    case Add(m) => if ev.landed >= 1 then before + [m] else before
    case Truncate(k) => if ev.landed >= 1 then Last(before, k) else before
    case Set(g) => if ev.landed >= 2 then g else before
    case Compact => before
  }

  lemma ExpectedNextIsSpec(w: World, ev: Event)
    requires NoCorrupt(w.expected)
    ensures NoCorrupt(Next(w, ev).expected) && Decode(Next(w, ev).expected) == SpecNext(Decode(w.expected), ev)
  {
    match ev.op
    case Add(m) => LinesAppend(w.expected, Record(m));
    case Truncate(k) => DecodeLast(w.expected, k);
    case Set(h) => DecodeRecords(h);
    case Compact => DecodeClean(w.expected);
  }

  lemma {:induction false} ExpectedIsSpec(d: Disk, evs: seq<Event>)
    requires NoCorrupt(Active(d))
    ensures var w := Run(d, evs); NoCorrupt(w.expected) && Decode(w.expected) == Spec(History(d), evs)
  {
    if evs != [] {
      var init := evs[..|evs| - 1];
      ExpectedIsSpec(d, init);
      hide Next, SpecNext, Decode, NoCorrupt;
      ExpectedNextIsSpec(Run(d, init), evs[|evs| - 1]);
    }
  }

  predicate Complete(evs: seq<Event>) { forall i | 0 <= i < |evs| :: evs[i].landed >= 2 }

  lemma {:induction false} CompleteIsExact(d: Disk, evs: seq<Event>)
    requires Complete(evs)
    ensures Run(d, evs).exact
  {
    if evs != [] {
      CompleteIsExact(d, evs[..|evs| - 1]);
    }
  }

  /** From a log whose active lines decode: every run shows the plain sequence as a suffix,
      and exactly that sequence when no operation was interrupted. */
  lemma StoreRefinesSequence(d: Disk, evs: seq<Event>)
    requires Sane(d) && NoCorrupt(Active(d))
    ensures IsSuffix(Spec(History(d), evs), History(Run(d, evs).disk))
    ensures Complete(evs) ==> History(Run(d, evs).disk) == Spec(History(d), evs)
  {
    ExpectedIsVisible(d, evs);
    ExpectedIsSpec(d, evs);
    hide Run;
    if Complete(evs) {
      CompleteIsExact(d, evs);
    }
  }
}
