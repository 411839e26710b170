/** The in-memory cache of the team analysis endpoint: a JavaScript `Map` from the
    serialised request payload to the generated analysis and the time it was made,
    pruned on every request (expired entries first, then the oldest ones beyond the
    capacity) and filled on every miss. */
module AnalysisCache {
  import opened Common

  /** One hour, in milliseconds. */
  const CACHE_TTL_MS: int := 60 * 60 * 1000
  const CACHE_MAX_ENTRIES: nat := 200

  datatype CacheEntry = CacheEntry(value: string, createdAt: int)

  predicate Expired(e: CacheEntry, now: int) {
    now - e.createdAt > CACHE_TTL_MS
  }

  /** The lookup of a request: a hit is a present entry that is not older than the TTL. */
  function Get(entries: map<string, CacheEntry>, key: string, now: int): (r: Option<string>)
    ensures r.Some? <==> key in entries && !Expired(entries[key], now)
    ensures r.Some? ==> r.value == entries[key].value
  {
    if key in entries && now - entries[key].createdAt <= CACHE_TTL_MS then Some(entries[key].value) else None
  }

  function IsFresh(entries: map<string, CacheEntry>, now: int): string -> bool {
    k => k in entries && !Expired(entries[k], now)
  }

  /** The keys the first sweep of `pruneCache` keeps: the unexpired ones, in insertion order. */
  function Swept(order: seq<string>, entries: map<string, CacheEntry>, now: int): (r: seq<string>)
    ensures forall i :: 0 <= i < |r| ==> r[i] in order && r[i] in entries && !Expired(entries[r[i]], now)
    ensures forall i :: 0 <= i < |order| && order[i] in entries && !Expired(entries[order[i]], now) ==> order[i] in r
  {
    Filter(order, IsFresh(entries, now))
  }

  /** How many of the first `n` keys the eviction loop deletes: it goes key by key and
      stops early at the first empty key, which `if (!key) break` treats as the end. */
  function StopAt(keys: seq<string>, n: nat): (k: nat)
    ensures k <= n && k <= |keys|
    ensures forall i :: 0 <= i < k ==> keys[i] != ""
    ensures k < n && k < |keys| ==> keys[k] == ""
  {
    if n == 0 || |keys| == 0 || keys[0] == "" then 0 else 1 + StopAt(keys[1..], n - 1)
  }

  /** How many keys the eviction deletes: none while the sweep leaves at most
      `CACHE_MAX_ENTRIES`, otherwise the overflow unless an empty key stops it first. */
  function Evicted(keys: seq<string>): (k: nat)
    ensures k <= |keys|
    ensures |keys| <= CACHE_MAX_ENTRIES ==> k == 0
    ensures |keys| > CACHE_MAX_ENTRIES ==> k <= |keys| - CACHE_MAX_ENTRIES
    ensures forall i :: 0 <= i < k ==> keys[i] != ""
    ensures |keys| > CACHE_MAX_ENTRIES && k < |keys| - CACHE_MAX_ENTRIES ==> keys[k] == ""
  {
    if |keys| <= CACHE_MAX_ENTRIES then 0 else StopAt(keys, |keys| - CACHE_MAX_ENTRIES)
  }

  /** The key order after `pruneCache`: the swept keys with the oldest ones evicted. */
  function PrunedOrder(order: seq<string>, entries: map<string, CacheEntry>, now: int): (r: seq<string>)
    ensures |r| <= |Swept(order, entries, now)|
    ensures r == Swept(order, entries, now)[|Swept(order, entries, now)| - |r|..]
  {
    var swept := Swept(order, entries, now);
    swept[Evicted(swept)..]
  }

  /** The entries of `m` whose keys are listed in `ks`. */
  function Restrict(m: map<string, CacheEntry>, ks: seq<string>): (r: map<string, CacheEntry>)
    ensures forall k :: k in r <==> k in m && k in ks
    ensures forall k :: k in r ==> r[k] == m[k]
  {
    map k | k in m && k in ks :: m[k]
  }

  /** The entries after `pruneCache`: the old entries of the keys that remain. */
  function PrunedEntries(order: seq<string>, entries: map<string, CacheEntry>, now: int): map<string, CacheEntry> {
    Restrict(entries, PrunedOrder(order, entries, now))
  }

  /** The cache as the route keeps it: the entries and the insertion order of their
      keys, which is the order in which `forEach` visits them. */
  class Cache {
    var order: seq<string>
    var entries: map<string, CacheEntry>

    /** Every key is listed once, and the listed keys are exactly the entries. */
    ghost predicate Valid()
      reads this
    {
      NoDup(order) && forall k :: k in entries <==> k in order
    }

    constructor()
      ensures Valid()
      ensures order == [] && entries == map[]
    {
      order := [];
      entries := map[];
    }

    /** `pruneCache`: delete every expired entry, then, when more than
        `CACHE_MAX_ENTRIES` remain, delete the oldest ones beyond that number,
        stopping at an empty key. */
    method Prune(now: int)
      requires Valid()
      modifies this
      ensures Valid()
      ensures order == PrunedOrder(old(order), old(entries), now)
      ensures entries == PrunedEntries(old(order), old(entries), now)
    {
      ghost var order0, entries0 := order, entries;
      Sweep(now);
      ghost var swept, live := order, entries;
      assert swept == Swept(order0, entries0, now);
      Evict();
      RestrictTwice(entries0, swept, order);
    }

    /** The first `forEach` of `pruneCache`: delete the expired entries. */
    method Sweep(now: int)
      requires Valid()
      modifies this
      ensures Valid()
      ensures order == Swept(old(order), old(entries), now)
      ensures entries == Restrict(old(entries), order)
    {
      var snapshot, live := order, entries;
      ghost var entries0 := entries;
      var kept: seq<string> := [];
      var i := 0;
      while i < |snapshot|
        invariant 0 <= i <= |snapshot|
        invariant kept == Filter(snapshot[..i], IsFresh(entries0, now))
        invariant SweptSoFar(live, entries0, snapshot[..i], now)
      {
        var key := snapshot[i];
        assert snapshot[..i + 1][..i] == snapshot[..i];
        SweepStep(live, entries0, snapshot, i, now);
        if now - live[key].createdAt > CACHE_TTL_MS {
          live := live - {key};
        } else {
          kept := kept + [key];
        }
        i := i + 1;
      }
      assert snapshot[..i] == snapshot;
      SweepDone(snapshot, entries0, live, kept, now);
      order, entries := kept, live;
    }

    /** The eviction of `pruneCache`: with more than `CACHE_MAX_ENTRIES` entries, delete
        the overflow oldest keys, stopping at an empty key. */
    method Evict()
      requires Valid()
      modifies this
      ensures Valid()
      ensures order == old(order)[Evicted(old(order))..]
      ensures entries == Restrict(old(entries), order)
    {
      ghost var entries0 := entries;
      if |order| <= CACHE_MAX_ENTRIES {
        assert order[0..] == order;
        return;
      }
      var overflow := |order| - CACHE_MAX_ENTRIES;
      var keys := order;
      var j := 0;
      while j < overflow
        invariant 0 <= j <= overflow
        invariant forall m :: 0 <= m < j ==> keys[m] != ""
        invariant order == keys[j..]
        invariant entries == Restrict(entries0, keys[j..])
      {
        var key := keys[j];
        if key == "" {
          break;
        }
        EvictStep(entries0, keys, j);
        // The key deleted is the oldest one left, at the front of the order.
        entries := entries - {key};
        order := order[1..];
        j := j + 1;
      }
      EvictDone(entries0, keys, overflow, j);
    }

    /** `Map.set` of a fresh entry: a new key goes last, an existing one keeps its place. */
    method Put(key: string, value: string, now: int)
      requires Valid()
      modifies this
      ensures Valid()
      ensures order == InsertionOrder(old(order), key)
      ensures entries == old(entries)[key := CacheEntry(value, now)]
    {
      order := InsertionOrder(order, key);
      entries := entries[key := CacheEntry(value, now)];
    }

    /** `POST`, as far as the cache is concerned: without an API key nothing happens;
        otherwise the cache is pruned, a hit is answered from it, and on a miss the
        generated analysis (`reply`; `None` when the request to the model failed) is
        stored under the key and returned. */
    method Handle(key: string, now: int, apiKeySet: bool, reply: Option<string>) returns (resp: Response)
      requires Valid()
      modifies this
      ensures Valid()
      ensures !apiKeySet ==> resp == Failure && order == old(order) && entries == old(entries)
      ensures apiKeySet ==>
        var o, e := PrunedOrder(old(order), old(entries), now), PrunedEntries(old(order), old(entries), now);
        if Get(e, key, now).Some? then
          resp == Hit(Get(e, key, now).value) && order == o && entries == e
        else if reply.None? then
          resp == Failure && order == o && entries == e
        else
          resp == Miss(reply.value) && order == o + [key] && entries == e[key := CacheEntry(reply.value, now)]
    {
      if !apiKeySet {
        return Failure;
      }
      ghost var order0, entries0 := order, entries;
      Prune(now);
      var cached := Get(entries, key, now);
      if cached.Some? {
        return Hit(cached.value);
      }
      if reply.None? {
        return Failure;
      }
      MissKeyAbsent(order0, entries0, now, key);
      Put(key, reply.value, now);
      resp := Miss(reply.value);
    }
  }

  datatype Response = Hit(analysis: string) | Miss(analysis: string) | Failure

  /** The sweep after visiting `visited`: the entries left are the old ones, minus the
      visited keys whose entries had expired. */
  ghost predicate SweptSoFar(entries: map<string, CacheEntry>, entries0: map<string, CacheEntry>, visited: seq<string>, now: int) {
    && (forall k :: k in entries <==> k in entries0 && (k in visited ==> !Expired(entries0[k], now)))
    && (forall k :: k in entries ==> entries[k] == entries0[k])
  }

  lemma SweepStep(entries: map<string, CacheEntry>, entries0: map<string, CacheEntry>, snapshot: seq<string>, i: int, now: int)
    requires NoDup(snapshot) && forall k :: k in entries0 <==> k in snapshot
    requires 0 <= i < |snapshot| && SweptSoFar(entries, entries0, snapshot[..i], now)
    ensures snapshot[i] in entries && entries[snapshot[i]] == entries0[snapshot[i]]
    ensures var key := snapshot[i];
      SweptSoFar(if Expired(entries[key], now) then entries - {key} else entries, entries0, snapshot[..i + 1], now)
  {
    var key := snapshot[i];
    assert key !in snapshot[..i];
    assert snapshot[..i + 1] == snapshot[..i] + [key];
  }

  /** One eviction step: deleting the oldest remaining key leaves the entries of the
      keys after it. */
  lemma EvictStep(m: map<string, CacheEntry>, keys: seq<string>, j: int)
    requires NoDup(keys) && 0 <= j < |keys|
    ensures keys[j..][1..] == keys[j + 1..]
    ensures Restrict(m, keys[j..]) - {keys[j]} == Restrict(m, keys[j + 1..])
  {
    assert keys[j] !in keys[j + 1..];
    assert keys[j..] == [keys[j]] + keys[j + 1..];
  }

  /** Where the eviction loop ends: after `StopAt` keys, the rest listed once. */
  lemma EvictDone(m: map<string, CacheEntry>, keys: seq<string>, overflow: nat, j: nat)
    requires NoDup(keys) && j <= overflow < |keys|
    requires forall i :: 0 <= i < j ==> keys[i] != ""
    requires j < overflow ==> keys[j] == ""
    ensures j == StopAt(keys, overflow)
    ensures NoDup(keys[j..])
    ensures forall k :: k in Restrict(m, keys[j..]) ==> k in keys[j..]
  {
    var k := StopAt(keys, overflow);
    if k < j {
      assert false;
    } else if j < k {
      assert false;
    }
  }

  /** What the sweep loop leaves once every key is visited: the kept keys are the fresh
      ones, listed once, and the remaining entries are exactly theirs. */
  lemma SweepDone(snapshot: seq<string>, entries0: map<string, CacheEntry>, entries: map<string, CacheEntry>, kept: seq<string>, now: int)
    requires NoDup(snapshot) && forall k :: k in entries0 <==> k in snapshot
    requires kept == Filter(snapshot, IsFresh(entries0, now))
    requires forall k :: k in entries <==> k in entries0 && (k in snapshot ==> !Expired(entries0[k], now))
    requires forall k :: k in entries ==> entries[k] == entries0[k]
    ensures NoDup(kept)
    ensures forall k :: k in entries <==> k in kept
    ensures entries == Restrict(entries0, kept)
  {
    FilterNoDup(snapshot, IsFresh(entries0, now));
    forall k
      ensures k in entries <==> k in kept
    {
      if k in entries {
        var m :| 0 <= m < |snapshot| && snapshot[m] == k;
        assert IsFresh(entries0, now)(snapshot[m]);
      }
    }
  }

  lemma RestrictTwice(m: map<string, CacheEntry>, a: seq<string>, b: seq<string>)
    requires forall i :: 0 <= i < |b| ==> b[i] in a
    ensures Restrict(Restrict(m, a), b) == Restrict(m, b)
  {
  }

  // ---------------------------------------------------------------- properties

  /** After pruning, every entry is fresh, so the route's hit test reduces to presence. */
  lemma PrunedFresh(order: seq<string>, entries: map<string, CacheEntry>, now: int, key: string)
    ensures var e := PrunedEntries(order, entries, now);
      key in e ==> key in entries && e[key] == entries[key] && !Expired(e[key], now)
    ensures Get(PrunedEntries(order, entries, now), key, now).Some? <==> key in PrunedEntries(order, entries, now)
  {
    var o := PrunedOrder(order, entries, now);
    var s := Swept(order, entries, now);
    if key in o {
      var i :| 0 <= i < |o| && o[i] == key;
      assert o[i] == s[|s| - |o| + i];
    }
  }

  /** Pruning keeps the cache well formed: keys listed once, exactly the entries. */
  lemma PrunedValid(order: seq<string>, entries: map<string, CacheEntry>, now: int)
    requires NoDup(order)
    ensures NoDup(PrunedOrder(order, entries, now))
    ensures forall k :: k in PrunedEntries(order, entries, now) <==> k in PrunedOrder(order, entries, now)
  {
    var s := Swept(order, entries, now);
    FilterNoDup(order, IsFresh(entries, now));
    var o := PrunedOrder(order, entries, now);
    forall k | k in o ensures k in entries {
      var i :| 0 <= i < |o| && o[i] == k;
      assert o[i] == s[|s| - |o| + i];
    }
  }

  /** On a miss after pruning, the key is not in the cache, so storing it appends it. */
  lemma MissKeyAbsent(order: seq<string>, entries: map<string, CacheEntry>, now: int, key: string)
    requires NoDup(order)
    requires Get(PrunedEntries(order, entries, now), key, now).None?
    ensures key !in PrunedOrder(order, entries, now)
    ensures InsertionOrder(PrunedOrder(order, entries, now), key) == PrunedOrder(order, entries, now) + [key]
  {
    PrunedFresh(order, entries, now, key);
    PrunedValid(order, entries, now);
  }

  /** While the sweep leaves at most `CACHE_MAX_ENTRIES`, only expired entries go. */
  lemma PruneWithinCapacity(order: seq<string>, entries: map<string, CacheEntry>, now: int)
    requires |Swept(order, entries, now)| <= CACHE_MAX_ENTRIES
    ensures PrunedOrder(order, entries, now) == Swept(order, entries, now)
    ensures forall k :: k in PrunedEntries(order, entries, now) <==> k in entries && !Expired(entries[k], now) && k in order
  {
    var s := Swept(order, entries, now);
    assert s[0..] == s;
  }

  /** Without an empty key among the oldest overflow keys, pruning brings the cache
      down to at most `CACHE_MAX_ENTRIES`, exactly that many when it was over. */
  lemma PruneBound(order: seq<string>, entries: map<string, CacheEntry>, now: int)
    requires forall i :: 0 <= i < |Swept(order, entries, now)| - CACHE_MAX_ENTRIES ==> Swept(order, entries, now)[i] != ""
    ensures |PrunedOrder(order, entries, now)| <= CACHE_MAX_ENTRIES
    ensures |Swept(order, entries, now)| > CACHE_MAX_ENTRIES ==> |PrunedOrder(order, entries, now)| == CACHE_MAX_ENTRIES
  {
    var s := Swept(order, entries, now);
    if |s| > CACHE_MAX_ENTRIES {
      var n := |s| - CACHE_MAX_ENTRIES;
      var k := StopAt(s, n);
    }
  }

  /** The map itself, not only its key list: without an empty key among the oldest
      overflow keys, at most `CACHE_MAX_ENTRIES` entries remain after pruning, and
      exactly that many when the sweep left more. */
  lemma PrunedSizeBound(order: seq<string>, entries: map<string, CacheEntry>, now: int)
    requires NoDup(order)
    requires forall i :: 0 <= i < |Swept(order, entries, now)| - CACHE_MAX_ENTRIES ==> Swept(order, entries, now)[i] != ""
    ensures |PrunedEntries(order, entries, now)| <= CACHE_MAX_ENTRIES
    ensures |Swept(order, entries, now)| > CACHE_MAX_ENTRIES ==> |PrunedEntries(order, entries, now)| == CACHE_MAX_ENTRIES
  {
    PruneBound(order, entries, now);
    PrunedValid(order, entries, now);
    var o := PrunedOrder(order, entries, now);
    NoDupCard(o);
    assert PrunedEntries(order, entries, now).Keys == set x | x in o;
  }

  /** An empty key at the front of an overfull cache stops the eviction at once, and
      the cache stays above `CACHE_MAX_ENTRIES`. */
  lemma EmptyKeyStopsEviction(order: seq<string>, entries: map<string, CacheEntry>, now: int)
    requires |Swept(order, entries, now)| > CACHE_MAX_ENTRIES
    requires Swept(order, entries, now)[0] == ""
    ensures PrunedOrder(order, entries, now) == Swept(order, entries, now)
    ensures |PrunedOrder(order, entries, now)| > CACHE_MAX_ENTRIES
  {
    var s := Swept(order, entries, now);
    assert s[0..] == s;
  }

  /** A second sweep at the same moment finds nothing expired. */
  lemma SweptOfPruned(order: seq<string>, entries: map<string, CacheEntry>, now: int)
    requires NoDup(order)
    ensures Swept(PrunedOrder(order, entries, now), PrunedEntries(order, entries, now), now) == PrunedOrder(order, entries, now)
  {
    var o, e := PrunedOrder(order, entries, now), PrunedEntries(order, entries, now);
    PrunedValid(order, entries, now);
    forall i | 0 <= i < |o| ensures IsFresh(e, now)(o[i]) {
      PrunedFresh(order, entries, now, o[i]);
    }
    FilterAll(o, IsFresh(e, now));
  }

  /** A second eviction right after the first deletes nothing: either the cache is
      within capacity, or the first one stopped at an empty key, now the oldest. */
  lemma EvictedAgain(keys: seq<string>)
    ensures Evicted(keys[Evicted(keys)..]) == 0
  {
    var o := keys[Evicted(keys)..];
    if |o| > CACHE_MAX_ENTRIES {
      var k := StopAt(keys, |keys| - CACHE_MAX_ENTRIES);
      assert o[0] == keys[k] == "";
    }
  }

  /** Pruning a second time at the same moment changes nothing. */
  lemma PruneIdempotent(order: seq<string>, entries: map<string, CacheEntry>, now: int)
    requires NoDup(order)
    ensures var o, e := PrunedOrder(order, entries, now), PrunedEntries(order, entries, now);
      PrunedOrder(o, e, now) == o && PrunedEntries(o, e, now) == e
  {
    var o, e := PrunedOrder(order, entries, now), PrunedEntries(order, entries, now);
    SweptOfPruned(order, entries, now);
    EvictedAgain(Swept(order, entries, now));
    assert o[0..] == o;
    RestrictTwice(entries, o, o);
  }
}
