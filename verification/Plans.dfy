/** The deduplicated fetch plan of a batch, its price, and its split into cached and pending.
    A dict is the sequence of its items in insertion order.  Source: amiweak/checks/runner.py:187-252. */
module Plans {
  import opened CheckBase
  import opened Cache
  import opened Checkers

  datatype Item = Item(tag: string, digest: string)

  datatype Planned = Planned(key: CacheKey, checker: Checker, prefix: string)

  type Plan = seq<Planned>

  predicate DistinctKeys(plan: Plan) {
    forall i, j :: 0 <= i < j < |plan| ==> plan[i].key != plan[j].key
  }

  function PlanKeys(plan: Plan): set<CacheKey> { set p | p in plan :: p.key }

  /** `plan[key] = value`: a known key keeps its place. */
  function Assigned(plan: Plan, p: Planned): Plan {
    if plan == [] then [p]
    else if plan[0].key == p.key then [p] + plan[1..]
    else [plan[0]] + Assigned(plan[1..], p)
  }

  function Entry(c: Checker, digest: string, a: Algorithm): Planned {
    Planned(c.KeyFor(digest, a), c, c.PrefixOf(digest))
  }

  function WithItems(plan: Plan, c: Checker, items: seq<Item>, a: Algorithm): Plan {
    if items == [] then plan
    else Assigned(WithItems(plan, c, items[..|items| - 1], a), Entry(c, items[|items| - 1].digest, a))
  }

  function PlanOf(checkers: seq<Checker>, items: seq<Item>, a: Algorithm): Plan {
    if checkers == [] then []
    else
      var before, c := PlanOf(checkers[..|checkers| - 1], items, a), checkers[|checkers| - 1];
      if c.Supports(a) then WithItems(before, c, items, a) else before
  }

  // ----- What the plan holds -----

  lemma {:induction false} AssignedHolds(plan: Plan, p: Planned)
    requires DistinctKeys(plan)
    ensures DistinctKeys(Assigned(plan, p)) && PlanKeys(Assigned(plan, p)) == PlanKeys(plan) + {p.key}
    ensures forall q :: q in Assigned(plan, p) <==> q == p || (q in plan && q.key != p.key)
  {
    if plan != [] {
      var rest := Assigned(plan[1..], p);
      AssignedHolds(plan[1..], p);
      assert forall q :: q in plan <==> q == plan[0] || q in plan[1..];
      if plan[0].key == p.key {
        var r := [p] + plan[1..];
        assert forall q :: q in r <==> q == p || q in plan[1..];
      } else {
        var r := [plan[0]] + rest;
        assert forall q :: q in r <==> q == plan[0] || q in rest;
        assert plan[0].key !in PlanKeys(rest);
        forall j | 0 <= j < |rest|
          ensures rest[j].key != plan[0].key
        {
          assert rest[j] in rest;
        }
      }
    }
  }

  /** q is planned for c. */
  ghost predicate ComesFrom(q: Planned, c: Checker, items: seq<Item>, a: Algorithm) {
    exists e :: e in items && q == Entry(c, e.digest, a)
  }

  lemma {:induction false} ItemsHold(plan: Plan, c: Checker, items: seq<Item>, a: Algorithm)
    requires DistinctKeys(plan) && forall q :: q in plan ==> q.key.backend != c.name
    ensures DistinctKeys(WithItems(plan, c, items, a))
    ensures forall q :: q in WithItems(plan, c, items, a) <==> q in plan || ComesFrom(q, c, items, a)
  {
    if items != [] {
      var n := |items| - 1;
      ItemsHold(plan, c, items[..n], a);
      var before, p := WithItems(plan, c, items[..n], a), Entry(c, items[n].digest, a);
      AssignedHolds(before, p);
      assert forall e :: e in items <==> e in items[..n] || e == items[n];
      hide Entry, Assigned, WithItems, DistinctKeys;
      forall q
        ensures ComesFrom(q, c, items, a) <==> q == p || ComesFrom(q, c, items[..n], a)
      {
        if ComesFrom(q, c, items[..n], a) {
          var e :| e in items[..n] && q == Entry(c, e.digest, a);
          assert e in items;
        }
      }
      forall q | ComesFrom(q, c, items[..n], a)
        ensures q.key == p.key ==> q == p
      {
        SameKeySameEntry(q, p, c, a, items[..n], items[n]);
      }
      assert p.key.backend == c.name by {
        EntryKey(c, items[n].digest, a);
      }
    }
  }

  lemma EntryKey(c: Checker, digest: string, a: Algorithm)
    ensures Entry(c, digest, a).key == CacheKey(c.name, a, Entry(c, digest, a).prefix)
              && Entry(c, digest, a).checker == c
  {
  }

  lemma SameKeySameEntry(q: Planned, p: Planned, c: Checker, a: Algorithm, items: seq<Item>, e: Item)
    requires ComesFrom(q, c, items, a) && p == Entry(c, e.digest, a)
    ensures q.key == p.key ==> q == p
  {
    var d :| d in items && q == Entry(c, d.digest, a);
    EntryKey(c, d.digest, a);
    EntryKey(c, e.digest, a);
  }

  /** The plan is exactly the distinct (backend, prefix) pairs the supporting checkers need. */
  lemma {:induction false} PlanIsExact(checkers: seq<Checker>, items: seq<Item>, a: Algorithm)
    requires DistinctNames(checkers)
    ensures DistinctKeys(PlanOf(checkers, items, a))
    ensures forall q :: q in PlanOf(checkers, items, a) <==>
              exists c :: c in checkers && c.Supports(a) && ComesFrom(q, c, items, a)
  {
    if checkers != [] {
      var n := |checkers| - 1;
      var c, plan := checkers[n], PlanOf(checkers[..n], items, a);
      PlanIsExact(checkers[..n], items, a);
      assert forall d :: d in checkers <==> d in checkers[..n] || d == c;
      hide WithItems, DistinctKeys;
      forall q | q in plan
        ensures q.key.backend != c.name
      {
        var d :| d in checkers[..n] && d.Supports(a) && ComesFrom(q, d, items, a);
        var e :| e in items && q == Entry(d, e.digest, a);
        EntryKey(d, e.digest, a);
        assert exists k :: 0 <= k < n && checkers[k] == d;
      }
      ItemsHold(plan, c, items, a);
    }
  }

  // ----- Price and egress -----

  /** One clock reading for each key that is looked up. */
  type Clock = CacheKey -> real

  predicate Cached(p: Planned, es: Entries, enabled: bool, clock: Clock) {
    enabled && p.checker.Cacheable() && Live(es, p.key, clock(p.key))
  }

  /** How many uncached cacheable prefixes a plan has. */
  function Owed(plan: Plan, es: Entries, enabled: bool, clock: Clock): nat {
    if plan == [] then 0
    else
      var p := plan[|plan| - 1];
      Owed(plan[..|plan| - 1], es, enabled, clock) +
      if p.checker.Cacheable() && !Cached(p, es, enabled, clock) then 1 else 0
  }

  function Pending(plan: Plan, es: Entries, enabled: bool, clock: Clock): Plan {
    if plan == [] then []
    else
      var p := plan[|plan| - 1];
      Pending(plan[..|plan| - 1], es, enabled, clock) + if Cached(p, es, enabled, clock) then [] else [p]
  }

  function CacheableIn(plan: Plan): nat {
    if plan == [] then 0 else CacheableIn(plan[..|plan| - 1]) + if plan[|plan| - 1].checker.Cacheable() then 1 else 0
  }

  lemma CacheableAppend(plan: Plan, p: Planned)
    ensures CacheableIn(plan + [p]) == CacheableIn(plan) + if p.checker.Cacheable() then 1 else 0
  {
    assert (plan + [p])[..|plan|] == plan;
  }

  lemma {:induction false} OwedIsPending(plan: Plan, es: Entries, enabled: bool, clock: Clock)
    ensures Owed(plan, es, enabled, clock) == CacheableIn(Pending(plan, es, enabled, clock)) <= CacheableIn(plan)
  {
    hide CacheableIn, Cached;
    if plan != [] {
      var n := |plan| - 1;
      OwedIsPending(plan[..n], es, enabled, clock);
      var before := Pending(plan[..n], es, enabled, clock);
      CacheableAppend(before, plan[n]);
      CacheableAppend(plan[..n], plan[n]);
      assert plan == plan[..n] + [plan[n]];
      assert before + [] == before;
      assert Cached(plan[n], es, enabled, clock) ==> plan[n].checker.Cacheable() by {
        CachedIsCacheable(plan[n], es, enabled, clock);
      }
    } else {
      assert CacheableIn([]) == 0 by {
        NothingCacheable();
      }
    }
  }

  lemma NothingCacheable()
    ensures CacheableIn([]) == 0
  {
  }

  lemma CachedIsCacheable(p: Planned, es: Entries, enabled: bool, clock: Clock)
    ensures Cached(p, es, enabled, clock) ==> p.checker.Cacheable()
  {
  }

  lemma {:induction false} PendingAgrees(plan: Plan, es: Entries, es': Entries, enabled: bool, priced: Clock,
                                         fetched: Clock)
    requires forall p :: p in plan ==> Live(es, p.key, priced(p.key)) == Live(es', p.key, fetched(p.key))
    ensures Pending(plan, es, enabled, priced) == Pending(plan, es', enabled, fetched)
  {
    hide Live;
    if plan != [] {
      var n := |plan| - 1;
      assert plan[n] in plan && forall p :: p in plan[..n] ==> p in plan;
      PendingAgrees(plan[..n], es, es', enabled, priced, fetched);
    }
  }

  /** What a plan owes is what it submits, as long as no planned key changes between live and not live. */
  lemma PriceIsEgress(plan: Plan, es: Entries, es': Entries, enabled: bool, priced: Clock, fetched: Clock)
    requires forall p :: p in plan ==> Live(es, p.key, priced(p.key)) == Live(es', p.key, fetched(p.key))
    ensures Owed(plan, es, enabled, priced) == CacheableIn(Pending(plan, es', enabled, fetched))
  {
    OwedIsPending(plan, es, enabled, priced);
    PendingAgrees(plan, es, es', enabled, priced, fetched);
  }

  lemma {:induction false} PendingHolds(plan: Plan, es: Entries, enabled: bool, clock: Clock)
    ensures forall p :: p in Pending(plan, es, enabled, clock) <==> p in plan && !Cached(p, es, enabled, clock)
  {
    hide Cached;
    if plan != [] {
      var n := |plan| - 1;
      PendingHolds(plan[..n], es, enabled, clock);
      assert forall p :: p in plan <==> p in plan[..n] || p == plan[n];
    }
  }

  lemma {:induction false} PendingDistinct(plan: Plan, es: Entries, enabled: bool, clock: Clock)
    requires DistinctKeys(plan)
    ensures DistinctKeys(Pending(plan, es, enabled, clock))
  {
    hide Cached;
    if plan != [] {
      var n := |plan| - 1;
      PendingDistinct(plan[..n], es, enabled, clock);
      PendingHolds(plan[..n], es, enabled, clock);
      var before := Pending(plan[..n], es, enabled, clock);
      forall k | 0 <= k < |before|
        ensures before[k].key != plan[n].key
      {
        assert before[k] in plan[..n];
      }
    }
  }
}
