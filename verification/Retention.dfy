/** What a batch leaves in the cache for the next one.
    Source: amiweak/checks/runner.py:213-313, amiweak/cache.py:38-78. */
module Retention {
  import opened Wrappers
  import opened CheckBase
  import opened Cache
  import opened CacheLaws
  import opened Checkers
  import opened Plans
  import opened FanOut
  import opened Rounds

  // ----- A fan-out as a run of cache operations -----

  function Gets(plan: Plan, clock: Clock): seq<CacheOp> {
    if plan == [] then []
    else
      var p := plan[|plan| - 1];
      Gets(plan[..|plan| - 1], clock) + if p.checker.Cacheable() then [Get(p.key, clock(p.key))] else []
  }

  function Puts(pending: Plan, clock: Clock, outcomes: Outcomes): seq<CacheOp> {
    if pending == [] then []
    else
      var p := pending[|pending| - 1];
      Puts(pending[..|pending| - 1], clock, outcomes) +
      if Keeps(p, outcomes) then [Put(p.key, outcomes(p.key).fetch.data.value, clock(p.key))] else []
  }

  lemma {:induction false} RunConcat(es: Entries, a: seq<CacheOp>, b: seq<CacheOp>, max: nat, ttl: real)
    ensures Run(es, a + b, max, ttl) == Run(Run(es, a, max, ttl), b, max, ttl)
    decreases |a|
  {
    if a == [] {
      assert a + b == b;
    } else {
      assert (a + b)[1..] == a[1..] + b;
      RunConcat(After(es, a[0], max, ttl), a[1..], b, max, ttl);
    }
  }

  lemma {:induction false} GetsRun(es: Entries, plan: Plan, clock: Clock, max: nat, ttl: real)
    ensures AfterGets(es, plan, true, clock) == Run(es, Gets(plan, clock), max, ttl)
  {
    if plan != [] {
      var n := |plan| - 1;
      GetsRun(es, plan[..n], clock, max, ttl);
      var before := Gets(plan[..n], clock);
      RunAppend(es, before, Get(plan[n].key, clock(plan[n].key)), max, ttl);
      assert before + [] == before;
      hide AfterGet, Run;
    }
  }

  lemma {:induction false} PutsRun(es: Entries, pending: Plan, clock: Clock, outcomes: Outcomes, max: nat, ttl: real)
    ensures AfterPuts(es, pending, true, clock, outcomes, max, ttl) ==
            Run(es, Puts(pending, clock, outcomes), max, ttl)
  {
    if pending != [] {
      var n := |pending| - 1;
      var p := pending[n];
      PutsRun(es, pending[..n], clock, outcomes, max, ttl);
      var before := Puts(pending[..n], clock, outcomes);
      hide AfterPut, Run;
      if Keeps(p, outcomes) {
        var put := Put(p.key, outcomes(p.key).fetch.data.value, clock(p.key));
        RunAppend(es, before, put, max, ttl);
        assert Puts(pending, clock, outcomes) == before + [put];
      } else {
        assert Puts(pending, clock, outcomes) == before + [] == before;
      }
    }
  }

  lemma {:induction false} GetsConcat(a: Plan, b: Plan, clock: Clock)
    ensures Gets(a + b, clock) == Gets(a, clock) + Gets(b, clock)
  {
    if b == [] {
      assert a + b == a;
    } else {
      var n := |b| - 1;
      assert (a + b)[..|a + b| - 1] == a + b[..n];
      GetsConcat(a, b[..n], clock);
    }
  }

  lemma {:induction false} PutsConcat(a: Plan, b: Plan, clock: Clock, outcomes: Outcomes)
    ensures Puts(a + b, clock, outcomes) == Puts(a, clock, outcomes) + Puts(b, clock, outcomes)
  {
    if b == [] {
      assert a + b == a;
    } else {
      hide Keeps;
      var n := |b| - 1;
      assert (a + b)[..|a + b| - 1] == a + b[..n];
      PutsConcat(a, b[..n], clock, outcomes);
    }
  }

  // ----- The keys a batch touches -----

  function OpKeys(ops: seq<CacheOp>): set<CacheKey> { set op | op in ops :: op.key }

  function CacheableKeys(plan: Plan): set<CacheKey> { set p | p in plan && p.checker.Cacheable() :: p.key }

  lemma {:induction false} GetsKeys(plan: Plan, clock: Clock)
    ensures OpKeys(Gets(plan, clock)) <= CacheableKeys(plan)
  {
    if plan != [] {
      var n := |plan| - 1;
      GetsKeys(plan[..n], clock);
      assert plan[n] in plan;
      forall op | op in Gets(plan, clock)
        ensures op.key in CacheableKeys(plan)
      {
        if op in Gets(plan[..n], clock) {
          assert op.key in CacheableKeys(plan[..n]);
        }
      }
    }
  }

  lemma {:induction false} PutsKeys(pending: Plan, clock: Clock, outcomes: Outcomes)
    ensures OpKeys(Puts(pending, clock, outcomes)) <= CacheableKeys(pending)
  {
    if pending != [] {
      var n := |pending| - 1;
      PutsKeys(pending[..n], clock, outcomes);
      assert pending[n] in pending;
      forall op | op in Puts(pending, clock, outcomes)
        ensures op.key in CacheableKeys(pending)
      {
        if op in Puts(pending[..n], clock, outcomes) {
          assert op.key in CacheableKeys(pending[..n]);
        }
      }
    }
  }

  lemma {:induction false} UsedKeys(es: Entries, ops: seq<CacheOp>, max: nat, ttl: real)
    ensures Used(es, ops, max, ttl) <= OpKeys(ops)
    decreases |ops|
  {
    if ops != [] {
      UsedKeys(After(es, ops[0], max, ttl), ops[1..], max, ttl);
      assert ops[0] in ops && forall op :: op in ops[1..] ==> op in ops;
    }
  }

  lemma {:induction false} CountsKeys(plan: Plan)
    ensures |CacheableKeys(plan)| <= CacheableIn(plan)
  {
    if plan != [] {
      var n := |plan| - 1;
      CountsKeys(plan[..n]);
      assert forall p :: p in plan <==> p in plan[..n] || p == plan[n];
      assert CacheableKeys(plan) ==
             CacheableKeys(plan[..n]) + if plan[n].checker.Cacheable() then {plan[n].key} else {};
    }
  }

  // ----- A batch that fits the cache keeps every range it used -----

  /** When the entry a batch leaves for this prefix expires. */
  function FreshUntil(p: Planned, es: Entries, w: Weather, ttl: real): real {
    if Cached(p, es, true, w.gets) then Find(es, p.key).GetOr(Cache.Entry(p.key, map[], 0.0)).expires
    else w.puts(p.key) + ttl
  }

  /** The entry used last survives operations on fewer than `max` other keys. */
  lemma LastUsedStays(es: Entries, ops: seq<CacheOp>, e: Cache.Entry, keys: set<CacheKey>, max: nat, ttl: real)
    requires WellFormed(es, max) && es != [] && e == es[|es| - 1]
    requires e.key in keys && |keys| <= max && OpKeys(ops) <= keys - {e.key}
    ensures WellFormed(Run(es, ops, max, ttl), max) && Find(Run(es, ops, max, ttl), e.key) == Some(e)
  {
    UsedKeys(es, ops, max, ttl);
    Fewer(Used(es, ops, max, ttl), keys - {e.key});
    assert Avoids(ops, e.key) by {
      assert forall op :: op in ops ==> op.key in OpKeys(ops);
    }
    LruGuarantee(es, ops, e, max, ttl);
    RunForm(es, ops, max, ttl);
    FindLocates(Run(es, ops, max, ttl), e.key);
    hide Run, Used;
    FindOnly(Run(es, ops, max, ttl), e);
  }

  lemma FindOnly(es: Entries, e: Cache.Entry)
    requires Distinct(es) && e in es
    ensures Find(es, e.key) == Some(e)
  {
    FindLocates(es, e.key);
  }

  lemma Split(plan: Plan, p: Planned) returns (a: Plan, b: Plan)
    requires DistinctKeys(plan) && p in plan
    ensures plan == a + [p] + b && p.key !in PlanKeys(a) && p.key !in PlanKeys(b)
  {
    var k :| 0 <= k < |plan| && plan[k] == p;
    a, b := plan[..k], plan[k + 1..];
  }

  lemma HitStays(es: Entries, plan: Plan, w: Weather, max: nat, ttl: real, p: Planned)
    requires WellFormed(es, max) && DistinctKeys(plan) && CacheableIn(plan) <= max && p in plan
    requires Cached(p, es, true, w.gets)
    ensures Find(LeftBy(es, plan, true, w, max, ttl), p.key) == Find(es, p.key)
  {
    var a, b := Split(plan, p);
    var pending, puts := Pending(plan, es, true, w.gets), Puts(Pending(plan, es, true, w.gets), w.puts, w.outcomes);
    var e, kept := Find(es, p.key).value, AfterGets(es, a, true, w.gets);
    GetsElsewhere(es, a, true, w.gets, p.key);
    GetsOnlyDrop(es, a, true, w.gets, max);
    FindLocates(kept, p.key);
    GetForm(kept, p.key, w.gets(p.key));
    assert AfterGet(kept, p.key, w.gets(p.key)) == Without(kept, p.key) + [e];
    assert AfterGets(es, a + [p], true, w.gets) == Without(kept, p.key) + [e] by {
      assert (a + [p])[..|a|] == a;
    }
    CachedScript(es, plan, a, b, w, max, ttl, p);
    CountsKeys(plan);
    TouchesOthers(plan, a, b, pending, w, es, p);
    hide AfterGets, AfterPuts, Without, Find, Run, Gets, Puts, Pending, Distinct, CacheableKeys, AfterGet;
    LastUsedStays(Without(kept, p.key) + [e], Gets(b, w.gets) + puts, e, CacheableKeys(plan), max, ttl);
  }

  /** After the lookup of a cached prefix come the other lookups and then the stores. */
  lemma CachedScript(es: Entries, plan: Plan, a: Plan, b: Plan, w: Weather, max: nat, ttl: real, p: Planned)
    requires plan == a + [p] + b
    ensures LeftBy(es, plan, true, w, max, ttl) ==
            Run(AfterGets(es, a + [p], true, w.gets),
                Gets(b, w.gets) + Puts(Pending(plan, es, true, w.gets), w.puts, w.outcomes), max, ttl)
  {
    hide AfterGets, AfterPuts, Run, Gets, Puts, Pending;
    var pending := Pending(plan, es, true, w.gets);
    GetsRun(es, plan, w.gets, max, ttl);
    GetsRun(es, a + [p], w.gets, max, ttl);
    GetsConcat(a + [p], b, w.gets);
    RunConcat(es, Gets(a + [p], w.gets), Gets(b, w.gets), max, ttl);
    PutsRun(AfterGets(es, plan, true, w.gets), pending, w.puts, w.outcomes, max, ttl);
    RunConcat(AfterGets(es, a + [p], true, w.gets), Gets(b, w.gets), Puts(pending, w.puts, w.outcomes), max, ttl);
  }

  lemma TouchesOthers(plan: Plan, a: Plan, b: Plan, pending: Plan, w: Weather, es: Entries, p: Planned)
    requires DistinctKeys(plan) && p in plan && plan == a + [p] + b && p.key !in PlanKeys(b)
    requires Cached(p, es, true, w.gets) && pending == Pending(plan, es, true, w.gets)
    ensures p.key in CacheableKeys(plan)
    ensures OpKeys(Gets(b, w.gets) + Puts(pending, w.puts, w.outcomes)) <= CacheableKeys(plan) - {p.key}
  {
    GetsKeys(b, w.gets);
    PutsKeys(pending, w.puts, w.outcomes);
    PendingHolds(plan, es, true, w.gets);
    NotPending(p, plan, es, true, w.gets);
    hide Gets, Puts, Pending;
    forall op | op in Gets(b, w.gets) + Puts(pending, w.puts, w.outcomes)
      ensures op.key in CacheableKeys(plan) - {p.key}
    {
      if op in Gets(b, w.gets) {
        assert op.key in CacheableKeys(b);
        var q :| q in b && q.checker.Cacheable() && q.key == op.key;
        assert q in plan && q.key in PlanKeys(b);
      } else {
        assert op.key in OpKeys(Puts(pending, w.puts, w.outcomes));
        var q :| q in pending && q.checker.Cacheable() && q.key == op.key;
        assert q in plan && q.key in PlanKeys(pending);
      }
    }
  }

  lemma FetchStays(es: Entries, plan: Plan, w: Weather, max: nat, ttl: real, p: Planned)
    requires WellFormed(es, max) && DistinctKeys(plan) && CacheableIn(plan) <= max && p in plan
    requires !Cached(p, es, true, w.gets) && Keeps(p, w.outcomes)
    ensures Find(LeftBy(es, plan, true, w, max, ttl), p.key) ==
            Some(Cache.Entry(p.key, w.outcomes(p.key).fetch.data.value, w.puts(p.key) + ttl))
  {
    var pending := Pending(plan, es, true, w.gets);
    PendingHolds(plan, es, true, w.gets);
    PendingDistinct(plan, es, true, w.gets);
    CountsKeys(plan);
    assert p.key in CacheableKeys(plan);
    hide Cached, Pending, CacheableIn;
    var a, b := Split(pending, p);
    var e := Cache.Entry(p.key, w.outcomes(p.key).fetch.data.value, w.puts(p.key) + ttl);
    var found := AfterGets(es, plan, true, w.gets);
    var before := AfterPuts(found, a, true, w.puts, w.outcomes, max, ttl);
    GetsOnlyDrop(es, plan, true, w.gets, max);
    PutsComeFromFetches(found, a, true, w.puts, w.outcomes, max, ttl);
    FetchScript(found, pending, a, b, w, max, ttl, p);
    PutLast(before, e, max, CacheableKeys(plan));
    PutsKeys(b, w.puts, w.outcomes);
    forall op | op in Puts(b, w.puts, w.outcomes)
      ensures op.key in CacheableKeys(plan) - {p.key}
    {
      assert op.key in OpKeys(Puts(b, w.puts, w.outcomes));
      var q :| q in b && q.checker.Cacheable() && q.key == op.key;
      assert q in pending && q.key in PlanKeys(b);
    }
    hide AfterGets, AfterPuts, Puts, Find, Run, Distinct, CacheableKeys, AfterPut, Keeps;
    LastUsedStays(AfterPut(before, e, max), Puts(b, w.puts, w.outcomes), e, CacheableKeys(plan), max, ttl);
  }

  lemma PutLast(es: Entries, e: Cache.Entry, max: nat, keys: set<CacheKey>)
    requires WellFormed(es, max) && e.key in keys && |keys| <= max
    ensures WellFormed(AfterPut(es, e, max), max)
    ensures AfterPut(es, e, max) != [] && AfterPut(es, e, max)[|AfterPut(es, e, max)| - 1] == e
  {
    PutForm(es, e, max);
  }

  /** After the store of a fetched prefix come the other stores. */
  lemma FetchScript(found: Entries, pending: Plan, a: Plan, b: Plan, w: Weather, max: nat, ttl: real, p: Planned)
    requires pending == a + [p] + b && Keeps(p, w.outcomes)
    ensures var e := Cache.Entry(p.key, w.outcomes(p.key).fetch.data.value, w.puts(p.key) + ttl);
            AfterPuts(found, pending, true, w.puts, w.outcomes, max, ttl) ==
            Run(AfterPut(AfterPuts(found, a, true, w.puts, w.outcomes, max, ttl), e, max),
                Puts(b, w.puts, w.outcomes), max, ttl)
  {
    assert (a + [p])[..|a|] == a;
    assert AfterPuts(found, a + [p], true, w.puts, w.outcomes, max, ttl) ==
           AfterPut(AfterPuts(found, a, true, w.puts, w.outcomes, max, ttl),
                    Cache.Entry(p.key, w.outcomes(p.key).fetch.data.value, w.puts(p.key) + ttl), max);
    hide AfterPuts, Run, Puts, Keeps, AfterPut;
    PutsRun(found, pending, w.puts, w.outcomes, max, ttl);
    PutsRun(found, a + [p], w.puts, w.outcomes, max, ttl);
    PutsConcat(a + [p], b, w.puts, w.outcomes);
    RunConcat(found, Puts(a + [p], w.puts, w.outcomes), Puts(b, w.puts, w.outcomes), max, ttl);
  }

  /** A batch with no more cacheable prefixes than the cache has room for leaves every range it had or fetched in the
      cache: a hit with the expiry it already had, a fetched range for a full ttl. */
  lemma BatchStaysCached(es: Entries, plan: Plan, w: Weather, max: nat, ttl: real, p: Planned)
    requires WellFormed(es, max) && DistinctKeys(plan) && CacheableIn(plan) <= max
    requires p in plan && p.checker.Cacheable()
    requires Cached(p, es, true, w.gets) || (w.outcomes(p.key).Returned? && w.outcomes(p.key).fetch.data.Some?)
    ensures Find(LeftBy(es, plan, true, w, max, ttl), p.key) ==
            if Cached(p, es, true, w.gets) then Find(es, p.key)
            else Some(Cache.Entry(p.key, w.outcomes(p.key).fetch.data.value, w.puts(p.key) + ttl))
  {
    if Cached(p, es, true, w.gets) {
      HitStays(es, plan, w, max, ttl, p);
    } else {
      FetchStays(es, plan, w, max, ttl, p);
    }
  }

  /** With the cache switched off nothing is looked up or kept: every cacheable prefix is owed, every time. */
  lemma DisabledIsUntouched(es: Entries, plan: Plan, w: Weather, max: nat, ttl: real)
    ensures LeftBy(es, plan, false, w, max, ttl) == es
    ensures Pending(plan, es, false, w.gets) == plan && Owed(plan, es, false, w.gets) == CacheableIn(plan)
  {
    NothingLookedUp(es, plan, w.gets);
    NothingPut(es, plan, w.puts, w.outcomes, max, ttl);
    OwedIsPending(plan, es, false, w.gets);
  }

  lemma {:induction false} NothingLookedUp(es: Entries, plan: Plan, clock: Clock)
    ensures AfterGets(es, plan, false, clock) == es && Pending(plan, es, false, clock) == plan
  {
    if plan != [] {
      NothingLookedUp(es, plan[..|plan| - 1], clock);
    }
  }

  lemma {:induction false} NothingPut(es: Entries, pending: Plan, clock: Clock, outcomes: Outcomes, max: nat, ttl: real)
    ensures AfterPuts(es, pending, false, clock, outcomes, max, ttl) == es
  {
    if pending != [] {
      NothingPut(es, pending[..|pending| - 1], clock, outcomes, max, ttl);
    }
  }

  lemma {:induction false} OwesNothing(plan: Plan, es: Entries, clock: Clock)
    ensures Owed(plan, es, true, clock) == 0 <==>
            forall p :: p in plan && p.checker.Cacheable() ==> Cached(p, es, true, clock)
  {
    if plan != [] {
      OwesNothing(plan[..|plan| - 1], es, clock);
      hide Cached;
      assert forall p :: p in plan <==> p in plan[..|plan| - 1] || p == plan[|plan| - 1];
    }
  }

  /** The same batch again, after one that fitted the cache and lost no fetch, sends nothing upstream if and only if
      no range has reached its expiry. */
  lemma RepeatIsFreeExactly(es: Entries, plan: Plan, w: Weather, max: nat, ttl: real, later: Clock)
    requires WellFormed(es, max) && DistinctKeys(plan) && CacheableIn(plan) <= max
    requires forall p :: p in plan && p.checker.Cacheable() ==>
               Cached(p, es, true, w.gets) || (w.outcomes(p.key).Returned? && w.outcomes(p.key).fetch.data.Some?)
    ensures Owed(plan, LeftBy(es, plan, true, w, max, ttl), true, later) == 0 <==>
            forall p :: p in plan && p.checker.Cacheable() ==> later(p.key) < FreshUntil(p, es, w, ttl)
  {
    var left := LeftBy(es, plan, true, w, max, ttl);
    OwesNothing(plan, left, later);
    hide LeftBy;
    forall p | p in plan && p.checker.Cacheable()
      ensures Cached(p, left, true, later) <==> later(p.key) < FreshUntil(p, es, w, ttl)
    {
      BatchStaysCached(es, plan, w, max, ttl, p);
      hide Find;
    }
  }
}
