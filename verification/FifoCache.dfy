/**
 The bounded process-local caches for manifest metadata summaries and log file summaries: a queue of
 keys in insertion order beside a map. The reference is the history of insertions alone.
 */
module FifoCache {
  import opened Wrappers

  const MANIFEST_METADATA_CACHE_LIMIT := 64
  const JSONL_SUMMARY_CACHE_LIMIT := 32

  /** The last `n` elements, or all of a shorter sequence. */
  function Newest<K>(s: seq<K>, n: nat): (r: seq<K>)
    ensures |r| <= n && |r| <= |s|
  {
    if |s| <= n then s else s[|s| - n..]
  }

  predicate NoDuplicates<K(==)>(s: seq<K>) {
    forall i, j :: 0 <= i < j < |s| ==> s[i] != s[j]
  }

  /**
   The keys that were new when inserted, in order: a key is new unless it is among the last `limit` that
   were new before it.
   */
  function NewKeys<K(==), V>(history: seq<(K, V)>, limit: nat): seq<K> {
    if history == [] then []
    else
      var before := NewKeys(history[..|history| - 1], limit);
      var key := history[|history| - 1].0;
      if key in Newest(before, limit) then before else before + [key]
  }

  /** The value last inserted for a key. */
  function LastValue<K(==), V>(history: seq<(K, V)>, key: K): Option<V> {
    if history == [] then None
    else if history[|history| - 1].0 == key then Some(history[|history| - 1].1)
    else LastValue(history[..|history| - 1], key)
  }

  /** The queue is duplicate-free and holds exactly the keys of the map, which maps each to its last value. */
  ghost predicate Mirrors<K(!new), V>(entries: map<K, V>, order: seq<K>, history: seq<(K, V)>) {
    && NoDuplicates(order)
    && (forall k :: k in entries <==> k in order)
    && forall k :: k in entries ==> LastValue(history, k) == Some(entries[k])
  }

  class FifoCache<K(==, !new), V> {
    const limit: nat
    var insertionOrder: seq<K>
    var entries: map<K, V>
    ghost var history: seq<(K, V)>

    /**
     After any run of insertions: the queue is duplicate-free, holds exactly the keys of the map, and these
     are the newest `limit` keys with the values last inserted for them.
     */
    ghost predicate Valid()
      reads this
    {
      && Mirrors(entries, insertionOrder, history)
      && insertionOrder == Newest(NewKeys(history, limit), limit)
    }

    constructor (limit: nat)
      ensures Valid() && this.limit == limit
      ensures history == [] && insertionOrder == []
    {
      this.limit := limit;
      insertionOrder := [];
      entries := map[];
      history := [];
    }

    method Get(key: K) returns (r: Option<V>)
      requires Valid()
      ensures r == if key in Newest(NewKeys(history, limit), limit) then LastValue(history, key) else None
    {
      r := if key in entries then Some(entries[key]) else None;
    }

    /** Replaces in place, or appends and evicts from the front: at most the single oldest key goes. */
    method Insert(key: K, value: V)
      requires Valid()
      modifies this
      ensures Valid() && history == old(history) + [(key, value)]
      ensures key in old(entries) ==> insertionOrder == old(insertionOrder)
      ensures key !in old(entries) && |old(insertionOrder)| < limit ==> insertionOrder == old(insertionOrder) + [key]
      ensures key !in old(entries) && |old(insertionOrder)| == limit ==>
          insertionOrder == (old(insertionOrder) + [key])[1..]
    {
      hide NewKeys, LastValue, Newest, NoDuplicates, Mirrors;
      ghost var was := insertionOrder;
      HistoryGrows(history, key, value, limit);
      MirroredKey(entries, insertionOrder, history, key);
      MirrorsInserted(entries, insertionOrder, history, key, value);
      NewestAppend(NewKeys(history, limit), key, limit);
      history := history + [(key, value)];
      if key in entries {
        entries := entries[key := value];
        return;
      }
      insertionOrder := insertionOrder + [key];
      entries := entries[key := value];
      SizesAgree(entries, insertionOrder, history);
      while |entries| > limit
        invariant history == old(history) + [(key, value)]
        invariant insertionOrder == was + [key] || (|was| == limit && insertionOrder == (was + [key])[1..])
        invariant Mirrors(entries, insertionOrder, history) && |entries| == |insertionOrder|
        decreases |entries|
      {
        if insertionOrder == [] {
          break;
        }
        var oldest := insertionOrder[0];
        assert insertionOrder == [oldest] + insertionOrder[1..];
        insertionOrder := insertionOrder[1..];
        DropOldest(entries, insertionOrder, oldest, history);
        entries := entries - {oldest};
      }
    }
  }

  method NewManifestMetadataCache<K(==, !new), V>() returns (cache: FifoCache<K, V>)
    ensures fresh(cache) && cache.Valid() && cache.history == [] && cache.limit == 64
  {
    cache := new FifoCache(MANIFEST_METADATA_CACHE_LIMIT);
  }

  method NewJsonlSummaryCache<K(==, !new), V>() returns (cache: FifoCache<K, V>)
    ensures fresh(cache) && cache.Valid() && cache.history == [] && cache.limit == 32
  {
    cache := new FifoCache(JSONL_SUMMARY_CACHE_LIMIT);
  }

  lemma HistoryGrows<K(!new), V>(history: seq<(K, V)>, key: K, value: V, limit: nat)
    ensures var newKeys := NewKeys(history, limit);
            NewKeys(history + [(key, value)], limit) ==
              if key in Newest(newKeys, limit) then newKeys else newKeys + [key]
    ensures forall k :: LastValue(history + [(key, value)], k) == if k == key then Some(value)
      else LastValue(history, k)
  {
    assert (history + [(key, value)])[..|history|] == history;
  }

  lemma NewestAppend<K>(s: seq<K>, key: K, n: nat)
    ensures Newest(s + [key], n) ==
            if |Newest(s, n)| < n then Newest(s, n) + [key] else (Newest(s, n) + [key])[1..]
  {}

  lemma MirroredKey<K(!new), V>(entries: map<K, V>, order: seq<K>, history: seq<(K, V)>, key: K)
    requires Mirrors(entries, order, history)
    ensures key in entries <==> key in order
  {}

  lemma MirrorsInserted<K(!new), V>(entries: map<K, V>, order: seq<K>, history: seq<(K, V)>, key: K, value: V)
    requires Mirrors(entries, order, history)
    ensures Mirrors(entries[key := value], if key in entries then order else order + [key], history + [(key, value)])
  {
    hide LastValue;
    HistoryGrows(history, key, value, 0);
  }

  lemma {:induction false} SizesAgree<K(!new), V>(entries: map<K, V>, order: seq<K>, history: seq<(K, V)>)
    requires Mirrors(entries, order, history)
    ensures |entries| == |order|
  {
    if order == [] {
      assert entries == map[];
    } else {
      var rest := order[1..];
      assert order == [order[0]] + rest;
      DropOldest(entries, rest, order[0], history);
      SizesAgree(entries - {order[0]}, rest, history);
    }
  }

  lemma DropOldest<K(!new), V>(entries: map<K, V>, rest: seq<K>, oldest: K, history: seq<(K, V)>)
    requires Mirrors(entries, [oldest] + rest, history)
    ensures Mirrors(entries - {oldest}, rest, history)
    ensures |entries| == |entries - {oldest}| + 1
  {
    var all := [oldest] + rest;
    assert all[0] == oldest;
    forall i, j | 0 <= i < j < |rest| ensures rest[i] != rest[j] {
      assert all[i + 1] == rest[i] && all[j + 1] == rest[j];
    }
    forall i | 0 <= i < |rest| ensures rest[i] != oldest {
      assert all[i + 1] == rest[i];
    }
    assert entries == (entries - {oldest})[oldest := entries[oldest]];
  }

  // ---- a cache in front of a computation ----

  /** Every value ever inserted is the computed one. */
  ghost predicate Faithful<K, V>(history: seq<(K, V)>, compute: K -> V) {
    forall i :: 0 <= i < |history| ==> history[i].1 == compute(history[i].0)
  }

  lemma NewestAmong<K>(all: seq<K>, limit: nat, key: K)
    requires key in Newest(all, limit)
    ensures key in all
  {}

  /** One caller by itself: a lookup and, on a miss, a computation and an insertion. */
  method CachedOrComputed<K(==, !new), V>(cache: FifoCache<K, V>, key: K, compute: K -> V) returns (value: V)
    requires cache.Valid() && Faithful(cache.history, compute)
    modifies cache
    ensures cache.Valid() && Faithful(cache.history, compute) && value == compute(key)
    ensures cache.history ==
              if key in Newest(NewKeys(old(cache.history), cache.limit), cache.limit) then old(cache.history)
              else old(cache.history) + [(key, value)]
  {
    if key in Newest(NewKeys(cache.history, cache.limit), cache.limit) {
      NewestAmong(NewKeys(cache.history, cache.limit), cache.limit, key);
      NewKeysInserted(cache.history, cache.limit, key);
    }
    var found := cache.Get(key);
    if found.Some? {
      LastValueComputed(cache.history, key, compute);
      return found.value;
    }
    value := compute(key);
    cache.Insert(key, value);
  }

  /** A caller between its two locked sections. */
  datatype Caller<K, V> = LookingUp(key: K) | Computing(key: K) | Answered(key: K, value: V)

  datatype System<K, V> = System(history: seq<(K, V)>, callers: seq<Caller<K, V>>)

  /** The next locked section of caller `t`: its lookup, or the insertion of what it computed meanwhile. */
  function Section<K(==), V>(s: System<K, V>, limit: nat, compute: K -> V, t: nat): (r: System<K, V>)
    requires t < |s.callers|
    ensures |r.callers| == |s.callers|
  {
    match s.callers[t]
    case LookingUp(key) =>
      var found := if key in Newest(NewKeys(s.history, limit), limit) then LastValue(s.history, key) else None;
      s.(callers := s.callers[t := if found.Some? then Answered(key, found.value) else Computing(key)])
    case Computing(key) =>
      System(s.history + [(key, compute(key))], s.callers[t := Answered(key, compute(key))])
    case Answered(_, _) => s
  }

  /** The sections of any number of callers in the order of a schedule. */
  function Scheduled<K(==), V>(s: System<K, V>, limit: nat, compute: K -> V, schedule: seq<nat>): (r: System<K, V>)
    requires forall i :: 0 <= i < |schedule| ==> schedule[i] < |s.callers|
    ensures |r.callers| == |s.callers|
  {
    if schedule == [] then s
    else Section(Scheduled(s, limit, compute, schedule[..|schedule| - 1]), limit, compute, schedule[|schedule| - 1])
  }

  /** However the sections of the callers interleave, every answer is what the caller's own key computes to. */
  lemma {:induction false} InterleavedAnswers<K(!new), V>(s: System<K, V>, limit: nat, compute: K -> V,
                                                schedule: seq<nat>)
    requires forall i :: 0 <= i < |schedule| ==> schedule[i] < |s.callers|
    requires Faithful(s.history, compute) && forall t :: 0 <= t < |s.callers| ==> s.callers[t].LookingUp?
    ensures var r := Scheduled(s, limit, compute, schedule);
      && Faithful(r.history, compute)
      && forall t :: 0 <= t < |s.callers| ==>
           && r.callers[t].key == s.callers[t].key
           && (r.callers[t].Answered? ==> r.callers[t].value == compute(s.callers[t].key))
  {
    if schedule != [] {
      var n := |schedule| - 1;
      InterleavedAnswers(s, limit, compute, schedule[..n]);
      var before := Scheduled(s, limit, compute, schedule[..n]);
      var caller := before.callers[schedule[n]];
      if caller.LookingUp? && LastValue(before.history, caller.key).Some? {
        LastValueComputed(before.history, caller.key, compute);
      }
    }
  }

  lemma {:induction false} LastValueComputed<K, V>(history: seq<(K, V)>, key: K, compute: K -> V)
    requires Faithful(history, compute) && LastValue(history, key).Some?
    ensures LastValue(history, key).value == compute(key)
  {
    if history[|history| - 1].0 != key {
      LastValueComputed(history[..|history| - 1], key, compute);
    }
  }

  /** Among the last `limit` new keys none repeats, over every history. */
  lemma {:induction false} NewestDistinct<K, V>(history: seq<(K, V)>, limit: nat)
    ensures NoDuplicates(Newest(NewKeys(history, limit), limit))
  {
    if history != [] {
      var before := NewKeys(history[..|history| - 1], limit);
      NewestDistinct(history[..|history| - 1], limit);
      NewestAppend(before, history[|history| - 1].0, limit);
    }
  }

  /** The keys a cache holds are among those inserted, so every one of them has a last value. */
  lemma {:induction false} NewKeysInserted<K, V>(history: seq<(K, V)>, limit: nat, key: K)
    requires key in NewKeys(history, limit)
    ensures LastValue(history, key).Some?
  {
    var last := history[|history| - 1].0;
    if last != key {
      NewKeysInserted(history[..|history| - 1], limit, key);
    }
  }

  /** Insertions add new keys after those there were, and no more than there are insertions. */
  lemma {:induction false} MoreNewKeys<K(!new), V>(history: seq<(K, V)>, more: seq<(K, V)>, limit: nat)
    ensures var was, now := NewKeys(history, limit), NewKeys(history + more, limit);
      was <= now && |now| <= |was| + |more|
  {
    hide NewKeys, Newest, LastValue;
    if more == [] {
      assert history + more == history;
    } else {
      var n := |more| - 1;
      MoreNewKeys(history, more[..n], limit);
      HistoryGrows(history + more[..n], more[n].0, more[n].1, limit);
      assert history + more == history + more[..n] + [(more[n].0, more[n].1)];
    }
  }

  lemma {:induction false} LastValueStays<K, V>(history: seq<(K, V)>, more: seq<(K, V)>, key: K)
    requires forall i :: 0 <= i < |more| ==> more[i].0 != key
    ensures LastValue(history + more, key) == LastValue(history, key)
  {
    if more == [] {
      assert history + more == history;
    } else {
      var n := |more| - 1;
      assert (history + more)[..|history| + n] == history + more[..n];
      LastValueStays(history, more[..n], key);
    }
  }

  /** A key new to the cache is held, with its value, through fewer than `limit` insertions of other keys. */
  lemma HeldForAWhile<K(!new), V>(history: seq<(K, V)>, more: seq<(K, V)>, limit: nat, key: K, value: V)
    requires |more| < limit && key !in Newest(NewKeys(history, limit), limit)
    requires forall i :: 0 <= i < |more| ==> more[i].0 != key
    ensures var all := history + [(key, value)] + more;
      key in Newest(NewKeys(all, limit), limit) && LastValue(all, key) == Some(value)
  {
    var stored := history + [(key, value)];
    HistoryGrows(history, key, value, limit);
    MoreNewKeys(stored, more, limit);
    LastValueStays(stored, more, key);
    hide NewKeys, LastValue, Newest;
    var k, all := |NewKeys(history, limit)|, NewKeys(stored + more, limit);
    assert all[k] == NewKeys(stored, limit)[k] == key;
    AmongNewest(all, limit, k);
  }

  lemma AmongNewest<K>(all: seq<K>, limit: nat, k: nat)
    requires k < |all| <= k + limit
    ensures all[k] in Newest(all, limit)
  {
    assert Newest(all, limit)[if |all| <= limit then k else k - (|all| - limit)] == all[k];
  }
}
