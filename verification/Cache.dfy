/** The LRU cache of parsed ranges.  Source: amiweak/cache.py.
    An OrderedDict is the sequence of its entries, oldest first, with no key twice. */
module Cache {
  import opened Wrappers
  import opened CheckBase

  datatype Entry = Entry(key: CacheKey, data: RangeData, expires: real)

  type Entries = seq<Entry>

  predicate Distinct(es: Entries) {
    forall i, j :: 0 <= i < j < |es| ==> es[i].key != es[j].key
  }

  function Keys(es: Entries): set<CacheKey> { set e | e in es :: e.key }

  /** `d.get(key)`. */
  function Find(es: Entries, key: CacheKey): Option<Entry> {
    if es == [] then None else if es[0].key == key then Some(es[0]) else Find(es[1..], key)
  }

  /** The entries whose key is in `keep`, in order. */
  function Only(es: Entries, keep: set<CacheKey>): Entries {
    if es == [] then [] else (if es[0].key in keep then [es[0]] else []) + Only(es[1..], keep)
  }

  /** `del d[key]`, harmless when absent. */
  function Without(es: Entries, key: CacheKey): Entries {
    if es == [] then [] else (if es[0].key == key then [] else [es[0]]) + Without(es[1..], key)
  }

  function Newest(es: Entries, max: nat): Entries {
    if |es| > max then es[|es| - max..] else es
  }

  // ----- The effect of each operation -----

  predicate Live(es: Entries, key: CacheKey, now: real) {
    var e := Find(es, key);
    e.Some? && e.value.expires > now
  }

  function Got(es: Entries, key: CacheKey, now: real): Option<RangeData> {
    if Live(es, key, now) then Some(Find(es, key).value.data) else None
  }

  function AfterGet(es: Entries, key: CacheKey, now: real): Entries {
    var e := Find(es, key);
    if e.None? then es else if e.value.expires <= now then Without(es, key) else Without(es, key) + [e.value]
  }

  function AfterPut(es: Entries, e: Entry, max: nat): Entries {
    Newest(Without(es, e.key) + [e], max)
  }

  class PrefixCache {
    const enabled: bool
    const maxEntries: nat
    const ttl: real
    var entries: Entries
    var hits: nat
    var misses: nat

    ghost predicate Valid()
      reads this
    {
      Distinct(entries) && |entries| <= maxEntries
    }

    constructor (enabled: bool, maxEntries: nat, ttl: real)
      requires maxEntries > 0 && ttl > 0.0
      ensures Valid() && entries == [] && hits == 0 && misses == 0
      ensures this.enabled == enabled && this.maxEntries == maxEntries && this.ttl == ttl
    {
      this.enabled, this.maxEntries, this.ttl := enabled, maxEntries, ttl;
      entries, hits, misses := [], 0, 0;
    }

    method Get(key: CacheKey, now: real) returns (data: Option<RangeData>)
      requires Valid()
      modifies this`entries, this`hits, this`misses
      ensures Valid()
      ensures !enabled ==> data == None && entries == old(entries) && hits == old(hits) && misses == old(misses)
      ensures enabled ==>
                && data == Got(old(entries), key, now)
                && entries == AfterGet(old(entries), key, now)
                && hits == old(hits) + (if data.Some? then 1 else 0)
                && misses == old(misses) + (if data.None? then 1 else 0)
    {
      if !enabled {
        return None;
      }
      WithoutShrinks(entries, key);
      var entry := Find(entries, key);
      if entry.None? {
        misses := misses + 1;
        return None;
      }
      FindLocates(entries, key);
      if entry.value.expires <= now {
        entries := Without(entries, key);
        misses := misses + 1;
        return None;
      }
      entries := Without(entries, key) + [entry.value];
      hits := hits + 1;
      data := Some(entry.value.data);
    }

    /** No hit counted, nothing reordered. */
    method Contains(key: CacheKey, now: real) returns (live: bool)
      ensures live == (enabled && Live(entries, key, now))
    {
      if !enabled {
        return false;
      }
      var entry := Find(entries, key);
      live := entry.Some? && entry.value.expires > now;
    }

    method Put(key: CacheKey, data: RangeData, now: real)
      requires Valid()
      modifies this`entries
      ensures Valid()
      ensures entries == if enabled then AfterPut(old(entries), Entry(key, data, now + ttl), maxEntries)
                else old(entries)
    {
      if !enabled {
        return;
      }
      WithoutShrinks(entries, key);
      entries := Without(entries, key) + [Entry(key, data, now + ttl)];
      ghost var full := entries;
      while |entries| > maxEntries
        invariant |entries| <= |full| && entries == full[|full| - |entries|..]
        invariant |full| > maxEntries ==> |entries| >= maxEntries
        invariant |full| <= maxEntries ==> entries == full
        invariant Distinct(entries)
      {
        entries := entries[1..];
      }
    }

    method Stats() returns (h: nat, m: nat, size: nat)
      ensures h == hits && m == misses && size == |entries|
    {
      h, m, size := hits, misses, |entries|;
    }
  }

  // ----- Small facts about ordered dicts -----

  lemma {:induction false} WithoutShrinks(es: Entries, key: CacheKey)
    requires Distinct(es)
    ensures Distinct(Without(es, key)) && Keys(Without(es, key)) == Keys(es) - {key}
    ensures |Without(es, key)| == if Find(es, key).Some? then |es| - 1 else |es|
    ensures forall e :: e in Without(es, key) <==> e in es && e.key != key
    ensures Find(es, key).None? ==> Without(es, key) == es
  {
    if es != [] {
      WithoutShrinks(es[1..], key);
      var rest := Without(es[1..], key);
      assert forall e :: e in es <==> e == es[0] || e in es[1..];
      if es[0].key == key {
        FindLocates(es[1..], key);
        assert Without(es, key) == rest;
      } else {
        assert Without(es, key) == [es[0]] + rest;
        assert forall e :: e in Without(es, key) <==> e == es[0] || e in rest;
        forall j | 0 <= j < |rest|
          ensures rest[j].key != es[0].key
        {
          assert rest[j] in es[1..];
        }
      }
    }
  }

  lemma {:induction false} FindLocates(es: Entries, key: CacheKey)
    ensures Find(es, key).Some? ==> Find(es, key).value in es && Find(es, key).value.key == key
    ensures Find(es, key).None? <==> key !in Keys(es)
    ensures Distinct(es) ==> forall e :: e in es && e.key == key ==> Find(es, key) == Some(e)
  {
    if es != [] {
      FindLocates(es[1..], key);
      assert forall e :: e in es <==> e == es[0] || e in es[1..];
    }
  }
}
