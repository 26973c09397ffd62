/** The bounded time-to-live cache of selector statistics, against the map of the last statistics
    put for each key. Times are integer nanoseconds; map iteration order is arbitrary. */
module SelectorCache {
  import opened GoBasics
  import opened Sorting
  import opened KeyEncoding

  datatype Signature = Signature(matchers: seq<string>, startMS: int, endMS: int, lookbackMS: int, offsetMS: int)

  datatype Stats = Stats(matchedSeries: int, samplesPerSeries: int, observedAt: int)

  datatype State = Missing | Stale | Hit

  /** The instant of Go's zero time.Time in nanoseconds since the Unix epoch. */
  const ZERO_TIME := -62_135_596_800_000_000_000
  const DEFAULT_TTL := 300_000_000_000
  const DEFAULT_MAX_ENTRIES := 4096
  const SEPARATOR := '\U{00ff}'

  // ---- Keys -----------------------------------------------------------------------------

  function Key(sig: Signature): string {
    var matchers := Join(Sort(StringLe, sig.matchers), SEPARATOR);
    WithInt(WithInt(WithInt(WithInt(matchers, "", sig.startMS), "", sig.endMS), "", sig.lookbackMS), "", sig.offsetMS)
  }

  predicate SameNumbers(a: Signature, b: Signature) {
    a.startMS == b.startMS && a.endMS == b.endMS && a.lookbackMS == b.lookbackMS && a.offsetMS == b.offsetMS
  }

  lemma KeySplits(a: Signature, b: Signature)
    ensures Key(a) == Key(b) <==>
              SameNumbers(a, b) && Join(Sort(StringLe, a.matchers), SEPARATOR)
                  == Join(Sort(StringLe, b.matchers), SEPARATOR)
    ensures Key(a) != ""
  {
    var a0, b0 := Join(Sort(StringLe, a.matchers), SEPARATOR), Join(Sort(StringLe, b.matchers), SEPARATOR);
    var a1, b1 := WithInt(a0, "", a.startMS), WithInt(b0, "", b.startMS);
    var a2, b2 := WithInt(a1, "", a.endMS), WithInt(b1, "", b.endMS);
    var a3, b3 := WithInt(a2, "", a.lookbackMS), WithInt(b2, "", b.lookbackMS);
    WithIntSplits(a3, a.offsetMS, b3, b.offsetMS, "");
    WithIntSplits(a2, a.lookbackMS, b2, b.lookbackMS, "");
    WithIntSplits(a1, a.endMS, b1, b.endMS, "");
    WithIntSplits(a0, a.startMS, b0, b.startMS, "");
  }

  lemma SortKeepsFree(xs: seq<string>)
    requires Free(xs, SEPARATOR)
    ensures Free(Sort(StringLe, xs), SEPARATOR)
  {
    StringLeIsTotalOrder();
    SortSorts(StringLe, xs);
    var sorted := Sort(StringLe, xs);
    forall i | 0 <= i < |sorted|
      ensures SEPARATOR !in sorted[i]
    {
      assert sorted[i] in multiset(xs);
    }
  }

  /** No matcher and one empty matcher: the only two lists that join to the same string. */
  predicate EmptyPair(a: seq<string>, b: seq<string>) {
    (a == [] && b == [""]) || (a == [""] && b == [])
  }

  lemma SortedEmptyPair(a: seq<string>, b: seq<string>)
    ensures EmptyPair(Sort(StringLe, a), Sort(StringLe, b)) <==> EmptyPair(a, b)
  {
    StringLeIsTotalOrder();
    SortSorts(StringLe, a);
    SortSorts(StringLe, b);
    SingletonOf(a);
    SingletonOf(b);
  }

  lemma SingletonOf(a: seq<string>)
    ensures Sort(StringLe, a) == [""] <==> a == [""]
  {
    StringLeIsTotalOrder();
    SortSorts(StringLe, a);
    if Sort(StringLe, a) == [""] {
      assert a == [a[0]];
      assert a[0] in multiset(Sort(StringLe, a));
    }
    if a == [""] {
      assert Sort(StringLe, a) == [Sort(StringLe, a)[0]];
      assert Sort(StringLe, a)[0] in multiset(a);
    }
  }

  /** For matchers without byte 0xff, two signatures share a key exactly when they agree up to the
      order of their matchers, or one has no matcher and the other a single empty one. */
  lemma KeysCollideExactly(a: Signature, b: Signature)
    requires Free(a.matchers, SEPARATOR) && Free(b.matchers, SEPARATOR)
    ensures Key(a) == Key(b) <==>
              SameNumbers(a, b) && (multiset(a.matchers) == multiset(b.matchers) || EmptyPair(a.matchers, b.matchers))
  {
    KeySplits(a, b);
    SortKeepsFree(a.matchers);
    SortKeepsFree(b.matchers);
    JoinIsAlmostInjective(Sort(StringLe, a.matchers), Sort(StringLe, b.matchers), SEPARATOR);
    SortedEmptyPair(a.matchers, b.matchers);
    StringLeIsTotalOrder();
    SortIsCanonical(StringLe, a.matchers, b.matchers);
  }

  // ---- The cache ------------------------------------------------------------------------

  predicate Expired(s: Stats, now: int, ttl: int) {
    s.observedAt == ZERO_TIME || now - s.observedAt > ttl
  }

  function Pruned(entries: map<string, Stats>, now: int, ttl: int): map<string, Stats> {
    map key | key in entries && !Expired(entries[key], now, ttl) :: entries[key]
  }

  /** `after` keeps at most `target` of the entries of `before`, dropping no more than it must, and
      nothing it drops is newer than anything it keeps. */
  ghost predicate EvictsOldest(before: map<string, Stats>, after: map<string, Stats>, target: int) {
    && after.Keys <= before.Keys
    && (forall key | key in after :: after[key] == before[key])
    && |after| == Min(|before|, Max(target, 0))
    && forall gone, kept | gone in before && gone !in after && kept in after ::
         before[gone].observedAt <= after[kept].observedAt
  }

  /** Nothing dropped is newer than the newcomer. */
  ghost predicate EvictsNoNewer(before: map<string, Stats>, after: map<string, Stats>, st: Stats) {
    forall gone | gone in before && gone !in after :: before[gone].observedAt <= st.observedAt
  }

  predicate HasRoomOrElder(before: map<string, Stats>, maxEntries: int, st: Stats) {
    |before| < maxEntries || exists key | key in before :: before[key].observedAt <= st.observedAt
  }

  /** `after` is `before` with the key set; a new key evicts just enough of the oldest entries, none
      of them newer than itself exactly when there was room or an entry no newer than itself. */
  ghost predicate StoredIn(before: map<string, Stats>, after: map<string, Stats>, key: string, st: Stats,
      maxEntries: int)
  {
    && key in after && after[key] == st
    && if key in before then after == before[key := st]
       else
         var others := after - {key};
         && EvictsOldest(before, others, maxEntries - 1)
         && (EvictsNoNewer(before, others, st) <==> HasRoomOrElder(before, maxEntries, st))
  }

  /** Which other entries are there after a put, from their stamps alone: only unexpired ones that were
      there before, unchanged. An unexpired one is missing only from a full cache whose other entries are
      all at least as new as it. */
  ghost predicate Survivors(
      before: map<string, Stats>, after: map<string, Stats>, key: string, now: int, ttl: int, maxEntries: int)
  {
    && (forall k | k in after && k != key ::
          && k in before && after[k] == before[k]
          && before[k].observedAt != -62_135_596_800_000_000_000 && now - before[k].observedAt <= ttl)
    && (forall k | k in before && k != key && k !in after ::
          || before[k].observedAt == -62_135_596_800_000_000_000 || now - before[k].observedAt > ttl
          || (|after| == maxEntries
              && forall kept | kept in after && kept != key :: before[k].observedAt <= after[kept].observedAt))
  }

  lemma SurvivorsOfPut(
      before: map<string, Stats>, after: map<string, Stats>, key: string, st: Stats, ttl: int, maxEntries: int)
    requires maxEntries > 0 && StoredIn(Pruned(before, st.observedAt, ttl), after, key, st, maxEntries)
    ensures Survivors(before, after, key, st.observedAt, ttl, maxEntries)
  {
    var live := Pruned(before, st.observedAt, ttl);
    if key !in live {
      var others := after - {key};
      RemoveShrinks(after, key);
      if |others| == |live| {
        SameSize(live, others);
      }
      assert forall k | k != key :: k in after <==> k in others;
    }
  }

  class SelectorStatsCache {
    const ttl: int
    const maxEntries: int
    var entries: map<string, Stats>
    /** The last statistics put under each key, never dropped. */
    ghost var lastPut: map<string, Stats>

    ghost predicate Valid()
      reads this
    {
      && ttl > 0 && maxEntries > 0
      && |entries| <= maxEntries
      && "" !in entries
      && forall key | key in entries ::
           key in lastPut && entries[key] == lastPut[key] && entries[key].observedAt != ZERO_TIME
    }

    constructor (ttl: int, maxEntries: int)
      ensures Valid() && entries == map[] && lastPut == map[]
      ensures this.ttl == (if ttl <= 0 then 300_000_000_000 else ttl)
      ensures this.maxEntries == (if maxEntries <= 0 then 4096 else maxEntries)
    {
      this.ttl := if ttl <= 0 then DEFAULT_TTL else ttl;
      this.maxEntries := if maxEntries <= 0 then DEFAULT_MAX_ENTRIES else maxEntries;
      entries, lastPut := map[], map[];
    }

    /** A hit is the last put of the signature's key and no older than the time to live; an entry
        that is too old is reported once and dropped. */
    method GetWithState(sig: Signature, now: int) returns (stats: Stats, state: State)
      requires Valid()
      modifies this`entries
      ensures Valid()
      ensures state == Hit <==> Key(sig) in old(entries) && now - old(entries)[Key(sig)].observedAt <= ttl
      ensures state == Missing <==> Key(sig) !in old(entries)
      ensures state == Missing ==> stats == Stats(0, 0, -62_135_596_800_000_000_000)
      ensures state != Missing ==> Key(sig) in lastPut && stats == lastPut[Key(sig)]
      ensures state == Hit ==> now - stats.observedAt <= ttl
      ensures entries == if state == Stale then old(entries) - {Key(sig)} else old(entries)
    {
      var key := Key(sig);
      if key !in entries || entries[key].observedAt == ZERO_TIME {
        return Stats(0, 0, ZERO_TIME), Missing;
      }
      stats := entries[key];
      if now - stats.observedAt > ttl {
        RemoveShrinks(entries, key);
        entries := entries - {key};
        return stats, Stale;
      }
      return stats, Hit;
    }

    /** After a put the key holds the new statistics; expired entries are gone, and a new key made
        room for itself at the cost of the oldest of the others. */
    method Put(sig: Signature, stats: Stats, clock: int)
      requires Valid() && clock != ZERO_TIME
      modifies this
      ensures Valid()
      ensures var st := if stats.observedAt == ZERO_TIME then stats.(observedAt := clock) else stats;
              && lastPut == old(lastPut)[Key(sig) := st]
              && StoredIn(Pruned(old(entries), st.observedAt, ttl), entries, Key(sig), st, maxEntries)
              && Survivors(old(entries), entries, Key(sig), st.observedAt, ttl, maxEntries)
    {
      var st := stats;
      if st.observedAt == ZERO_TIME {
        st := st.(observedAt := clock);
      }
      KeySplits(sig, sig);
      Prune(st.observedAt);
      StoreWithRoom(Key(sig), st);
      SurvivorsOfPut(old(entries), entries, Key(sig), st, ttl, maxEntries);
    }

    /** The part of a put that follows pruning. */
    method StoreWithRoom(key: string, st: Stats)
      requires Valid() && key != "" && st.observedAt != ZERO_TIME
      modifies this
      ensures Valid() && lastPut == old(lastPut)[key := st]
      ensures StoredIn(old(entries), entries, key, st, maxEntries)
    {
      if key !in entries {
        ghost var before := entries;
        EvictToCapacity(maxEntries - 1);
        NewcomerIsNewestExactly(before, entries, maxEntries, st);
        InsertGrows(entries, key, st);
        assert entries[key := st] - {key} == entries;
      } else {
        ReplaceKeeps(entries, key, st);
      }
      entries := entries[key := st];
      lastPut := lastPut[key := st];
    }

    method Prune(now: int)
      requires Valid()
      modifies this`entries
      ensures Valid() && entries == Pruned(old(entries), now, ttl)
      ensures forall k | k in old(entries) ::
                k in entries <==> old(entries)[k].observedAt != ZERO_TIME && now - old(entries)[k].observedAt <= ttl
    {
      var todo := entries.Keys;
      ghost var before := entries;
      while todo != {}
        invariant todo <= entries.Keys
        invariant forall key :: key in entries <==> key in before && (key in todo || !Expired(before[key], now, ttl))
        invariant forall key | key in entries :: entries[key] == before[key]
        invariant |entries| <= |before|
        decreases |todo|
      {
        var key :| key in todo;
        todo := todo - {key};
        if Expired(entries[key], now, ttl) {
          RemoveShrinks(entries, key);
          entries := entries - {key};
        }
      }
      assert entries == Pruned(before, now, ttl);
    }

    method EvictToCapacity(target: int)
      requires Valid() && target >= 0
      modifies this`entries
      ensures Valid() && EvictsOldest(old(entries), entries, target)
    {
      ghost var before := entries;
      while |entries| > target
        invariant Valid() && EvictsOldest(before, entries, |entries|)
        invariant |entries| >= Min(|before|, target)
        decreases |entries|
      {
        var oldestKey := OldestKey();
        if oldestKey == "" {
          assert false;
          return;
        }
        RemoveShrinks(entries, oldestKey);
        EvictOne(before, entries, oldestKey);
        entries := entries - {oldestKey};
      }
    }

    /** The scan for the oldest entry, in any order; "" stands for none. */
    method OldestKey() returns (oldestKey: string)
      requires Valid()
      ensures entries == map[] ==> oldestKey == ""
      ensures entries != map[] ==>
                && oldestKey in entries
                && forall key | key in entries :: entries[oldestKey].observedAt <= entries[key].observedAt
    {
      oldestKey := "";
      var oldest := ZERO_TIME;
      var todo := entries.Keys;
      while todo != {}
        invariant todo <= entries.Keys
        invariant oldestKey == "" ==> todo == entries.Keys
        invariant oldestKey != "" ==> oldestKey in entries && oldest == entries[oldestKey].observedAt
        invariant oldestKey != "" ==> forall key | key in entries && key !in todo :: oldest <= entries[key].observedAt
        decreases |todo|
      {
        var key :| key in todo;
        todo := todo - {key};
        if oldestKey == "" || entries[key].observedAt < oldest {
          oldestKey, oldest := key, entries[key].observedAt;
        }
      }
    }
  }

  lemma RemoveShrinks(m: map<string, Stats>, key: string)
    requires key in m
    ensures |m - {key}| == |m| - 1
  {
    assert (m - {key}).Keys == m.Keys - {key};
    assert |(m - {key}).Keys| == |m - {key}| && |m.Keys| == |m|;
  }

  lemma InsertGrows(m: map<string, Stats>, key: string, s: Stats)
    requires key !in m
    ensures |m[key := s]| == |m| + 1
  {
    assert m[key := s].Keys == m.Keys + {key};
    assert |m[key := s].Keys| == |m[key := s]| && |m.Keys| == |m|;
  }

  lemma ReplaceKeeps(m: map<string, Stats>, key: string, s: Stats)
    requires key in m
    ensures |m[key := s]| == |m|
  {
    assert m[key := s].Keys == m.Keys;
    assert |m[key := s].Keys| == |m[key := s]| && |m.Keys| == |m|;
  }

  /** Dropping the oldest survivor keeps the eviction order. */
  lemma EvictOne(before: map<string, Stats>, now: map<string, Stats>, oldest: string)
    requires EvictsOldest(before, now, |now|) && oldest in now
    requires forall key | key in now :: now[oldest].observedAt <= now[key].observedAt
    ensures EvictsOldest(before, now - {oldest}, |now| - 1)
  {
    RemoveShrinks(now, oldest);
  }

  /** Everything a put evicts is no newer than the newcomer exactly when there was room, or some entry
      that was there is no newer than it. */
  lemma NewcomerIsNewestExactly(before: map<string, Stats>, after: map<string, Stats>, maxEntries: int, st: Stats)
    requires |before| <= maxEntries && maxEntries > 0 && EvictsOldest(before, after, maxEntries - 1)
    ensures EvictsNoNewer(before, after, st) <==> HasRoomOrElder(before, maxEntries, st)
  {
    if |before| < maxEntries {
      SameSize(before, after);
    } else {
      var gone := OneGone(before, after);
      OnlyOneGone(before, after, gone);
      assert forall other | other in before :: before[gone].observedAt <= before[other].observedAt;
    }
  }

  lemma SameSize(before: map<string, Stats>, after: map<string, Stats>)
    requires after.Keys <= before.Keys && |after| == |before|
    ensures after.Keys == before.Keys
  {
    var lost := before.Keys - after.Keys;
    assert |lost| == |before.Keys| - |after.Keys|;
  }

  lemma OneGone(before: map<string, Stats>, after: map<string, Stats>) returns (gone: string)
    requires after.Keys <= before.Keys && |after| < |before|
    ensures gone in before && gone !in after
  {
    assert before.Keys != after.Keys;
    gone :| gone in before.Keys && gone !in after.Keys;
  }

  lemma OnlyOneGone(before: map<string, Stats>, after: map<string, Stats>, gone: string)
    requires after.Keys <= before.Keys && |after| == |before| - 1 && gone in before && gone !in after
    ensures forall other | other in before :: other == gone || other in after
  {
    RemoveShrinks(before, gone);
    var rest := before - {gone};
    assert after.Keys <= rest.Keys;
    SameSize(rest, after);
  }

  /** The newcomer itself may be older than what it displaced: "no newer than any survivor" is a
      statement about the entries that were there before. */
  method NewcomerMayBeOlder() returns (cache: SelectorStatsCache, displaced: Stats, newcomer: Stats)
    ensures displaced.observedAt > newcomer.observedAt
    ensures cache.entries.Values == {newcomer} && displaced in cache.lastPut.Values
  {
    var a, b := Signature(["a"], 0, 0, 0, 0), Signature(["a"], 1, 0, 0, 0);
    displaced, newcomer := Stats(1, 1, 10), Stats(1, 1, 5);
    KeySplits(a, b);
    cache := new SelectorStatsCache(DEFAULT_TTL, 1);
    cache.Put(a, displaced, 0);
    cache.Put(b, newcomer, 0);
    OnlyEntry(cache.entries, Key(b));
    assert cache.lastPut[Key(a)] == displaced;
  }

  lemma OnlyEntry(m: map<string, Stats>, key: string)
    requires key in m && |m| <= 1
    ensures m.Values == {m[key]}
  {
    RemoveShrinks(m, key);
    var others := m - {key};
    assert others == map[];
    assert forall other | other in m :: other == key || other in others;
  }
}
