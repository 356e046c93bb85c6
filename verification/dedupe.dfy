/** What the dedupe cache is specified to answer, in terms of the log of accepted messages. */
module DedupeLog {
  datatype Acceptance = Acceptance(key: string, at: int)

  type Log = seq<Acceptance>

  /** Acceptance times strictly increase. */
  predicate Ordered(log: Log) {
    forall i, j | 0 <= i < j < |log| :: log[i].at < log[j].at
  }

  predicate Seen(log: Log, k: string) {
    log != [] && (log[|log| - 1].key == k || Seen(log[..|log| - 1], k))
  }

  /** When `k` was last accepted. */
  function LastAt(log: Log, k: string): int
    requires Seen(log, k)
  {
    if log[|log| - 1].key == k then log[|log| - 1].at else LastAt(log[..|log| - 1], k)
  }

  /** The other keys accepted since `k` was last accepted. */
  function Since(log: Log, k: string): set<string> {
    if log == [] || log[|log| - 1].key == k then {} else Since(log[..|log| - 1], k) + {log[|log| - 1].key}
  }

  /** `k` was accepted less than `ttl` ago and fewer than `maxSize` other keys since then. */
  predicate Duplicate(log: Log, k: string, now: int, ttl: int, maxSize: int) {
    Seen(log, k) && now - LastAt(log, k) < ttl && |Since(log, k)| < maxSize
  }

  lemma {:induction false} LastAtInLog(log: Log, k: string)
    requires Ordered(log) && Seen(log, k)
    ensures exists i :: 0 <= i < |log| && log[i] == Acceptance(k, LastAt(log, k))
  {
    var n := |log| - 1;
    if log[n].key == k {
      assert log[n] == Acceptance(k, LastAt(log, k));
    } else {
      LastAtInLog(log[..n], k);
      var i :| 0 <= i < n && log[..n][i] == Acceptance(k, LastAt(log[..n], k));
      assert log[i] == Acceptance(k, LastAt(log, k));
    }
  }

  /** Another seen key was accepted since `k` exactly when its last acceptance is later. */
  lemma {:induction false} SinceMeansLater(log: Log, j: string, k: string)
    requires Ordered(log) && Seen(log, k) && j != k
    ensures j in Since(log, k) <==> Seen(log, j) && LastAt(log, k) < LastAt(log, j)
    ensures Seen(log, j) ==> LastAt(log, k) != LastAt(log, j)
  {
    var n := |log| - 1;
    var init := log[..n];
    assert Ordered(init);
    if log[n].key == k {
      if Seen(log, j) {
        LastAtInLog(init, j);
      }
    } else if log[n].key == j {
      LastAtInLog(init, k);
    } else {
      SinceMeansLater(init, j, k);
    }
  }

  lemma {:induction false} SinceExcludes(log: Log, k: string)
    ensures k !in Since(log, k)
  {
    if log != [] {
      SinceExcludes(log[..|log| - 1], k);
    }
  }

  /** The keys accepted since a later key are fewer than those accepted since an earlier one. */
  lemma SinceShrinks(log: Log, j: string, k: string)
    requires Ordered(log) && Seen(log, k) && j in Since(log, k)
    ensures Seen(log, j) && |Since(log, j)| < |Since(log, k)|
  {
    SinceExcludes(log, k);
    SinceExcludes(log, j);
    SinceMeansLater(log, j, k);
    forall x | x in Since(log, j)
      ensures x in Since(log, k)
    {
      SinceMeansLater(log, x, j);
      if x == k {
        SinceMeansLater(log, k, j);
      } else {
        SinceMeansLater(log, x, k);
      }
    }
    ProperSubsetSmaller(Since(log, j), Since(log, k), j);
  }

  lemma ProperSubsetSmaller(a: set<string>, b: set<string>, x: string)
    requires a <= b && x in b && x !in a
    ensures |a| < |b|
  {
    SubsetNotLarger(a, b - {x});
  }

  lemma {:induction false} SubsetNotLarger(a: set<string>, b: set<string>)
    requires a <= b
    ensures |a| <= |b|
    decreases |a|
  {
    if a != {} {
      var x :| x in a;
      SubsetNotLarger(a - {x}, b - {x});
    }
  }
}

/** The cache itself, and its agreement with the log. */
module Dedupe {
  import opened DedupeLog

  type Entries = map<string, int>

  const DEFAULT_TTL := 20 * 60 * 1_000_000_000
  const DEFAULT_MAX_SIZE := 5000

  function LogTime(log: Log): int
    requires log != []
  {
    log[|log| - 1].at
  }

  /** The cache holds exactly the keys that were duplicates at the last acceptance, with the
      times they were last accepted. */
  ghost predicate Agrees(entries: Entries, log: Log, ttl: int, maxSize: int) {
    && Ordered(log)
    && (log == [] ==> entries == map[])
    && (log != [] ==> forall k: string :: k in entries <==> Duplicate(log, k, LogTime(log), ttl, maxSize))
    && (forall k | k in entries :: Seen(log, k) && entries[k] == LastAt(log, k))
  }

  function Unexpired(entries: Entries, now: int, ttl: int): Entries {
    map k | k in entries && now - entries[k] < ttl :: entries[k]
  }

  /** `after` is `before` without its oldest entries, and without more of them than `maxSize` asks. */
  ghost predicate Evicts(before: Entries, after: Entries, maxSize: int) {
    && after.Keys <= before.Keys && |after| <= maxSize
    && (forall k | k in after :: after[k] == before[k])
    && (after.Keys != before.Keys ==> |after| == maxSize)
    && (forall x, k | x in before && x !in after && k in after :: before[x] <= before[k])
  }

  /** `after` is `live` without some of its oldest entries, none of them removed below `maxSize`. */
  ghost predicate Evicting(live: Entries, after: Entries, maxSize: int) {
    && after.Keys <= live.Keys
    && (forall k | k in after :: after[k] == live[k])
    && (after.Keys != live.Keys ==> |after| >= maxSize)
    && (forall x, k | x in live && x !in after && k in after :: live[x] <= live[k])
  }

  lemma EvictOne(live: Entries, entries: Entries, oldest: string, maxSize: int)
    requires Evicting(live, entries, maxSize) && |entries| > maxSize
    requires oldest in entries && forall k | k in entries :: entries[oldest] <= entries[k]
    ensures Evicting(live, entries - {oldest}, maxSize) && |entries - {oldest}| == |entries| - 1
  {
    var next := entries - {oldest};
    assert entries.Keys == next.Keys + {oldest};
    assert |entries.Keys| == |next.Keys| + 1;
  }

  class DedupeCache {
    var entries: Entries
    const ttl: int
    const maxSize: int
    ghost var log: Log

    ghost predicate Valid()
      reads this
    {
      ttl > 0 && maxSize > 0 && |entries| <= maxSize && Agrees(entries, log, ttl, maxSize)
    }

    constructor (ttl: int, maxSize: int)
      ensures Valid() && log == []
      ensures this.ttl == if ttl <= 0 then 20 * 60 * 1_000_000_000 else ttl
      ensures this.maxSize == if maxSize <= 0 then 5000 else maxSize
    {
      this.ttl := if ttl <= 0 then DEFAULT_TTL else ttl;
      this.maxSize := if maxSize <= 0 then DEFAULT_MAX_SIZE else maxSize;
      entries := map[];
      log := [];
    }

    /** True for a duplicate; otherwise the key is accepted. The clock does not go back, and
        moves on between acceptances. */
    method Check(key: string, now: int) returns (duplicate: bool)
      requires Valid()
      requires log != [] ==> LogTime(log) <= now
      requires log != [] && !Duplicate(log, key, now, ttl, maxSize) ==> LogTime(log) < now
      modifies this
      ensures Valid()
      ensures duplicate == Duplicate(old(log), key, now, ttl, maxSize)
      ensures log == if duplicate then old(log) else old(log) + [Acceptance(key, now)]
    {
      HitIsDuplicate(entries, log, key, now, ttl, maxSize);
      if key in entries && now - entries[key] < ttl {
        return true;
      }
      ghost var before := entries;
      entries := entries[key := now];
      Prune(now);
      AcceptanceAgrees(before, entries, log, key, now, ttl, maxSize);
      log := log + [Acceptance(key, now)];
      return false;
    }

    method Prune(now: int)
      requires maxSize >= 0
      modifies this`entries
      ensures Evicts(Unexpired(old(entries), now, ttl), entries, maxSize)
    {
      RemoveExpired(now);
      ghost var live := entries;
      while |entries| > maxSize
        invariant Evicting(live, entries, maxSize)
        decreases |entries|
      {
        var oldestKey := OldestKey();
        EvictOne(live, entries, oldestKey, maxSize);
        entries := entries - {oldestKey};
      }
    }

    method RemoveExpired(now: int)
      modifies this`entries
      ensures entries == Unexpired(old(entries), now, ttl)
    {
      var todo := entries.Keys;
      while todo != {}
        invariant todo <= entries.Keys <= old(entries).Keys
        invariant forall k | k in entries :: entries[k] == old(entries)[k]
        invariant forall k | k in old(entries) && k !in todo :: k in entries <==> now - old(entries)[k] < ttl
        decreases todo
      {
        var k :| k in todo;
        if now - entries[k] >= ttl {
          entries := entries - {k};
        }
        todo := todo - {k};
      }
    }

    method OldestKey() returns (oldestKey: string)
      requires |entries| > 0
      ensures oldestKey in entries && forall k | k in entries :: entries[oldestKey] <= entries[k]
    {
      assert entries.Keys != {};
      oldestKey :| oldestKey in entries.Keys;
      var todo := entries.Keys - {oldestKey};
      while todo != {}
        invariant todo <= entries.Keys && oldestKey in entries
        invariant forall k | k in entries && k !in todo :: entries[oldestKey] <= entries[k]
        decreases todo
      {
        var k :| k in todo;
        if entries[k] < entries[oldestKey] {
          oldestKey := k;
        }
        todo := todo - {k};
      }
    }
  }

  /** The map lookup answers the question about the log. */
  lemma HitIsDuplicate(entries: Entries, log: Log, key: string, now: int, ttl: int, maxSize: int)
    requires Agrees(entries, log, ttl, maxSize) && (log != [] ==> LogTime(log) <= now)
    ensures key in entries && now - entries[key] < ttl <==> Duplicate(log, key, now, ttl, maxSize)
  {
  }

  /** An entry's successors are all in the cache. */
  lemma SuccessorsCached(entries: Entries, log: Log, j: string, k: string, ttl: int, maxSize: int)
    requires Agrees(entries, log, ttl, maxSize) && k in entries && j in Since(log, k)
    ensures j in entries && entries[k] < entries[j]
  {
    SinceShrinks(log, j, k);
    SinceExcludes(log, k);
    SinceMeansLater(log, j, k);
    assert Duplicate(log, j, LogTime(log), ttl, maxSize);
  }

  lemma LogGrows(log: Log, key: string, now: int, k: string)
    requires log != [] ==> LogTime(log) < now
    requires Ordered(log)
    ensures var log' := log + [Acceptance(key, now)];
            && Ordered(log') && LogTime(log') == now && Seen(log', key) && LastAt(log', key) == now && Since(log', key) == {}
            && (k != key ==> (Seen(log', k) <==> Seen(log, k)) && Since(log', k) == Since(log, k) + {key}
                             && (Seen(log, k) ==> LastAt(log', k) == LastAt(log, k)))
  {
    var log' := log + [Acceptance(key, now)];
    assert log'[..|log|] == log;
    forall i, j | 0 <= i < j < |log'|
      ensures log'[i].at < log'[j].at
    {
      if j == |log| && i < |log| - 1 {
        assert log[i].at < log[|log| - 1].at;
      }
    }
  }

  /** A surviving older key has few enough keys after it. */
  lemma SurvivorIsDuplicate(before: Entries, after: Entries, log: Log, key: string, k: string, now: int, ttl: int, maxSize: int)
    requires Agrees(before, log, ttl, maxSize) && k != key && k in after
    requires log != [] ==> LogTime(log) < now
    requires Evicts(Unexpired(before[key := now], now, ttl), after, maxSize)
    ensures Seen(log, k) && now - LastAt(log, k) < ttl && after[k] == LastAt(log, k)
    ensures |Since(log, k) + {key}| < maxSize
  {
    var live := Unexpired(before[key := now], now, ttl);
    assert k in live && k in before;
    LastAtInLog(log, k);
    forall j | j in Since(log, k) + {key}
      ensures j in after && j != k
    {
      SinceExcludes(log, k);
      if j != key {
        SuccessorsCached(before, log, j, k, ttl, maxSize);
        assert j in live && live[j] > live[k];
      } else {
        assert j in live && live[j] > live[k];
      }
    }
    ProperSubsetSmaller(Since(log, k) + {key}, after.Keys, k);
  }

  /** A live key with few enough keys after it survives. */
  lemma DuplicateSurvives(before: Entries, after: Entries, log: Log, key: string, k: string, now: int, ttl: int, maxSize: int)
    requires Agrees(before, log, ttl, maxSize) && k != key
    requires log != [] ==> LogTime(log) < now
    requires Evicts(Unexpired(before[key := now], now, ttl), after, maxSize)
    requires Seen(log, k) && now - LastAt(log, k) < ttl && |Since(log, k) + {key}| < maxSize
    ensures k in after
  {
    var live := Unexpired(before[key := now], now, ttl);
    SubsetNotLarger(Since(log, k), Since(log, k) + {key});
    assert Duplicate(log, k, LogTime(log), ttl, maxSize);
    assert k in live;
    if k !in after {
      forall s | s in after
        ensures s in Since(log, k) + {key}
      {
        assert s in live && live[k] <= live[s];
        if s != key {
          SinceMeansLater(log, s, k);
        }
      }
      SubsetNotLarger(after.Keys, Since(log, k) + {key});
    }
  }

  /** Inserting and pruning brings the cache to what the longer log demands. */
  lemma AcceptanceAgrees(before: Entries, after: Entries, log: Log, key: string, now: int, ttl: int, maxSize: int)
    requires ttl > 0 && maxSize > 0 && Agrees(before, log, ttl, maxSize)
    requires log != [] ==> LogTime(log) < now
    requires Evicts(Unexpired(before[key := now], now, ttl), after, maxSize)
    ensures Agrees(after, log + [Acceptance(key, now)], ttl, maxSize)
  {
    var log' := log + [Acceptance(key, now)];
    NewKeyStays(before, after, log, key, now, ttl, maxSize);
    LogGrows(log, key, now, key);
    forall k: string
      ensures k in after <==> Duplicate(log', k, now, ttl, maxSize)
      ensures k in after ==> Seen(log', k) && after[k] == LastAt(log', k)
    {
      if k != key {
        LogGrows(log, key, now, k);
        if k in after {
          SurvivorIsDuplicate(before, after, log, key, k, now, ttl, maxSize);
        } else if Duplicate(log', k, now, ttl, maxSize) {
          DuplicateSurvives(before, after, log, key, k, now, ttl, maxSize);
        }
      }
    }
  }

  lemma NewKeyStays(before: Entries, after: Entries, log: Log, key: string, now: int, ttl: int, maxSize: int)
    requires ttl > 0 && maxSize > 0 && Agrees(before, log, ttl, maxSize)
    requires log != [] ==> LogTime(log) < now
    requires Evicts(Unexpired(before[key := now], now, ttl), after, maxSize)
    ensures key in after && after[key] == now
  {
    var live := Unexpired(before[key := now], now, ttl);
    assert key in live;
    if key !in after {
      assert after.Keys != {};
      var s :| s in after.Keys;
      assert s in live && live[s] >= now;
      LastAtInLog(log, s);
    }
  }
}
