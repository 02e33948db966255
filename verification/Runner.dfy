/** CheckRunner as an object over a prefix cache and a metrics recorder.  Source: amiweak/checks/runner.py.
    The pool's timing is a parameter: one outcome and one clock reading for each planned key. */
module Runner {
  import opened Wrappers
  import opened CheckBase
  import opened Cache
  import opened Checkers
  import opened Plans
  import opened Verdicts
  import opened FanOut
  import opened Tables
  import opened Metrics
  import opened Accounting

  class CheckRunner {
    const checkers: seq<Checker>
    const configs: seq<CheckConfig>
    const cache: PrefixCache
    const metrics: Recorder

    constructor (checkers: seq<Checker>, configs: seq<CheckConfig>, cache: PrefixCache, metrics: Recorder)
      ensures this.checkers == checkers && this.configs == configs && this.cache == cache && this.metrics == metrics
    {
      this.checkers, this.configs, this.cache, this.metrics := checkers, configs, cache, metrics;
    }

    /** Every distinct (backend, prefix) pair the items need. */
    method Plan(items: seq<Item>, a: Algorithm) returns (plan: Plans.Plan)
      ensures plan == PlanOf(checkers, items, a)
    {
      plan := [];
      for i := 0 to |checkers|
        invariant plan == PlanOf(checkers[..i], items, a)
      {
        assert checkers[..i + 1][..i] == checkers[..i];
        var c := checkers[i];
        if !c.Supports(a) {
          continue;
        }
        ghost var before := plan;
        for k := 0 to |items|
          invariant plan == WithItems(before, c, items[..k], a)
        {
          assert items[..k + 1][..k] == items[..k];
          var prefix := c.PrefixOf(items[k].digest);
          plan := Assigned(plan, Planned(CacheKey(c.name, a, prefix), c, prefix));
        }
        assert items[..|items|] == items;
      }
      assert checkers[..|checkers|] == checkers;
    }

    /** How many uncached prefix fetches these items would need. */
    method PrefixCost(items: seq<Item>, a: Algorithm, clock: Clock) returns (cost: nat)
      ensures cost == Owed(PlanOf(checkers, items, a), cache.entries, cache.enabled, clock)
    {
      var plan := Plan(items, a);
      hide PlanOf;
      cost := 0;
      for i := 0 to |plan|
        invariant cost == Owed(plan[..i], cache.entries, cache.enabled, clock)
      {
        assert plan[..i + 1][..i] == plan[..i];
        if plan[i].checker.Cacheable() {
          var live := cache.Contains(plan[i].key, clock(plan[i].key));
          if !live {
            cost := cost + 1;
          }
        }
      }
      assert plan[..|plan|] == plan;
    }

    /** One planned key against the cache, counted as a hit or a miss when its checker is cacheable. */
    method LookUp(p: Planned, clock: Clock) returns (cached: Option<RangeData>)
      requires cache.Valid()
      modifies cache`entries, cache`hits, cache`misses, metrics.store`counters
      ensures cache.Valid()
      ensures cached == if Cached(p, old(cache.entries), cache.enabled, clock)
                then Some(Find(old(cache.entries), p.key).value.data) else None
      ensures cache.entries == AfterGets(old(cache.entries), [p], cache.enabled, clock)
      ensures metrics.store.View() ==
                RecordAll(old(metrics.store.View()), LookupLog([p], old(cache.entries), cache.enabled, clock))
    {
      OnePlanned(p, cache.entries, cache.enabled, clock);
      RecordNothing(metrics.store.View());
      hide RecordAll, Distinct, AfterGets, LookupLog, AfterGet;
      cached := None;
      if p.checker.Cacheable() {
        cached := cache.Get(p.key, clock(p.key));
        metrics.RecordCache(p.checker.name, cached.Some?);
      }
    }

    /** The first loop of `_fetch_plan`: what the cache answers, and what is left to fetch. */
    method Split(plan: Plans.Plan, clock: Clock) returns (ranges: Fetched, pending: Plans.Plan)
      requires cache.Valid() && DistinctKeys(plan)
      modifies cache`entries, cache`hits, cache`misses, metrics.store`counters
      ensures cache.Valid()
      ensures pending == Pending(plan, old(cache.entries), cache.enabled, clock)
      ensures ranges == CachedRanges(plan, old(cache.entries), cache.enabled, clock)
      ensures cache.entries == AfterGets(old(cache.entries), plan, cache.enabled, clock)
      ensures metrics.store.View() ==
                RecordAll(old(metrics.store.View()), LookupLog(plan, old(cache.entries), cache.enabled, clock))
    {
      ranges, pending := map[], [];
      ghost var es, start := cache.entries, metrics.store.View();
      RecordNothing(start);
      hide RecordAll, Distinct, CacheOps, Cached, AfterGet, Find;
      for i := 0 to |plan|
        invariant cache.Valid()
        invariant pending == Pending(plan[..i], es, cache.enabled, clock)
        invariant ranges == CachedRanges(plan[..i], es, cache.enabled, clock)
        invariant cache.entries == AfterGets(es, plan[..i], cache.enabled, clock)
        invariant metrics.store.View() == RecordAll(start, LookupLog(plan[..i], es, cache.enabled, clock))
      {
        var p := plan[i];
        OneMorePlanned(plan, i, es, cache.enabled, clock);
        RecordAppend(start, LookupLog(plan[..i], es, cache.enabled, clock), LookupLog([p], es, cache.enabled, clock));
        hide Pending, CachedRanges, AfterGets, LookupLog;
        var cached := LookUp(p, clock);
        if cached.Some? {
          ranges := ranges[p.key := RangeFetch(cached, None)];
        } else {
          pending := pending + [p];
        }
      }
      assert plan[..|plan|] == plan;
    }

    /** What the fan-out loop does with one future: note the first timeout of a backend, or collect the fetch. */
    method Settle(p: Planned, a: Algorithm, w: Weather, seen: set<string>) returns (fetched: RangeFetch)
      requires cache.Valid()
      modifies cache`entries, metrics.store`counters, metrics.store`latency, metrics.store`health
      ensures cache.Valid()
      ensures fetched == Settled(w.outcomes(p.key))
      ensures cache.entries ==
                AfterPuts(old(cache.entries), [p], cache.enabled, w.puts, w.outcomes, cache.maxEntries, cache.ttl)
      ensures SameSums(metrics.store.View(),
                RecordAll(old(metrics.store.View()), SettleOps(p, w.outcomes(p.key), a, seen)))
    {
      OnePut(p, cache.entries, cache.enabled, w.puts, w.outcomes, cache.maxEntries, cache.ttl);
      hide AfterPuts, AfterPut, RecordAll, SettleOps, Distinct, SameSums;
      RecordOutcome(p.checker.name, w.outcomes(p.key), p, a, seen, w.iso(p.key));
      fetched := Settled(w.outcomes(p.key));
      Keep(p, fetched, w.puts(p.key));
    }

    /** Only a success is kept, and only a cacheable checker's. */
    method Keep(p: Planned, fetched: RangeFetch, now: real)
      requires cache.Valid()
      modifies cache`entries
      ensures cache.Valid()
      ensures cache.entries ==
              if cache.enabled && fetched.data.Some? && p.checker.Cacheable()
              then AfterPut(old(cache.entries), Cache.Entry(p.key, fetched.data.value, now + cache.ttl),
                  cache.maxEntries)
              else old(cache.entries)
    {
      hide AfterPut, Distinct;
      if fetched.data.Some? && p.checker.Cacheable() {
        cache.Put(p.key, fetched.data.value, now);
      }
    }

    method RecordOutcome(name: string, o: FetchOutcome, ghost p: Planned, a: Algorithm, seen: set<string>,
                         nowIso: string)
      requires name == p.checker.name
      modifies metrics.store`counters, metrics.store`latency, metrics.store`health
      ensures SameSums(metrics.store.View(), RecordAll(old(metrics.store.View()), SettleOps(p, o, a, seen)))
    {
      RecordNothing(metrics.store.View());
      SameSumsReflexive(metrics.store.View());
      hide RecordAll, BackendOps, AlgorithmOps, SameSums;
      match o {
        case TimedOut(elapsed) =>
          if name !in seen {
            metrics.RecordBackend(name, false, elapsed, Some(ERROR_TIMEOUT), nowIso);
          }
        case RaisedIn(elapsed) =>
          metrics.RecordBackend(name, false, elapsed, Some(ERROR_INTERNAL), nowIso);
        case Returned(fetch, elapsed) =>
          RecordReturned(name, a, fetch.error, elapsed, nowIso);
      }
    }

    /** A fetch that returned, with data or with an error. */
    method RecordReturned(name: string, a: Algorithm, error: Option<string>, elapsed: real, nowIso: string)
      modifies metrics.store`counters, metrics.store`latency, metrics.store`health
      ensures SameSums(metrics.store.View(),
                       RecordAll(old(metrics.store.View()), BackendOps(name, error.None?, elapsed) +
                           AlgorithmOps(name, a.Name())))
    {
      ghost var start := metrics.store.View();
      hide RecordAll, BackendOps, AlgorithmOps, SameSums;
      metrics.RecordBackend(name, error.None?, elapsed, error, nowIso);
      ghost var mid := metrics.store.View();
      metrics.RecordAlgorithm(name, a.Name());
      SameSumsReflexive(metrics.store.View());
      LogGrows(start, BackendOps(name, error.None?, elapsed), mid, metrics.store.View(), AlgorithmOps(name, a.Name()));
    }

    /** The fan-out: every pending key ends up with what its fetch returned, or with its error. */
    method Collect(pending: Plans.Plan, a: Algorithm, w: Weather, ranges0: Fetched) returns (ranges: Fetched)
      requires cache.Valid()
      modifies cache`entries, metrics.store`counters, metrics.store`latency, metrics.store`health
      ensures cache.Valid()
      ensures ranges == ranges0 + SettledRanges(pending, w.outcomes)
      ensures cache.entries ==
                AfterPuts(old(cache.entries), pending, cache.enabled, w.puts, w.outcomes, cache.maxEntries, cache.ttl)
      ensures SameSums(metrics.store.View(), RecordAll(old(metrics.store.View()), SettleLog(pending, w.outcomes, a)))
    {
      ranges := ranges0;
      var timedOut: set<string> := {};
      ghost var es, start := cache.entries, metrics.store.View();
      RecordNothing(start);
      hide RecordAll, Distinct, AfterPut, SettleOps, Settled, SameSums;
      assert SameSums(start, start) by {
        SameSumsReflexive(start);
      }
      for i := 0 to |pending|
        invariant cache.Valid()
        invariant timedOut == Late(pending[..i], w.outcomes)
        invariant ranges == ranges0 + SettledRanges(pending[..i], w.outcomes)
        invariant cache.entries ==
                  AfterPuts(es, pending[..i], cache.enabled, w.puts, w.outcomes, cache.maxEntries, cache.ttl)
        invariant SameSums(metrics.store.View(), RecordAll(start, SettleLog(pending[..i], w.outcomes, a)))
      {
        var p := pending[i];
        ghost var mid := metrics.store.View();
        OneMoreSettled(pending, i, es, cache.enabled, w, a, cache.maxEntries, cache.ttl);
        hide Late, SettledRanges, AfterPuts, SettleLog;
        var fetched := Settle(p, a, w, timedOut);
        ghost var ops := SettleOps(p, w.outcomes(p.key), a, timedOut);
        LogGrows(start, SettleLog(pending[..i], w.outcomes, a), mid, metrics.store.View(), ops);
        UpdateJoined(ranges0, SettledRanges(pending[..i], w.outcomes), p.key, fetched);
        ranges := ranges[p.key := fetched];
        if w.outcomes(p.key).TimedOut? {
          timedOut := timedOut + {p.checker.name};
        }
      }
      assert pending[..|pending|] == pending;
    }

    /** Resolve every planned key, from the cache or from the network. */
    method FetchPlan(plan: Plans.Plan, a: Algorithm, w: Weather) returns (ranges: Fetched)
      requires cache.Valid() && DistinctKeys(plan)
      modifies cache`entries, cache`hits, cache`misses, metrics.store`counters, metrics.store`latency,
                metrics.store`health
      ensures cache.Valid()
      ensures FetchedFor(ranges, plan, old(cache.entries), cache.enabled, w.gets, w.outcomes)
      ensures cache.entries == LeftBy(old(cache.entries), plan, cache.enabled, w, cache.maxEntries, cache.ttl)
      ensures SameSums(metrics.store.View(),
                       RecordAll(old(metrics.store.View()),
                           FetchLog(plan, old(cache.entries), cache.enabled, w.gets, w.outcomes, a)))
    {
      ghost var es, start := cache.entries, metrics.store.View();
      RangesJoin(plan, es, cache.enabled, w.gets, w.outcomes);
      ghost var lookups := LookupLog(plan, es, cache.enabled, w.gets);
      ghost var settles := SettleLog(Pending(plan, es, cache.enabled, w.gets), w.outcomes, a);
      RecordAppend(start, lookups, settles);
      hide RecordAll, LookupLog, SettleLog, AfterGets, AfterPuts, Pending, CachedRanges, SettledRanges, FetchedFor;
      hide Distinct;
      var found, pending := Split(plan, w.gets);
      if pending == [] {
        NothingPending(found, cache.entries, cache.enabled, w, a, cache.maxEntries, cache.ttl);
        RecordNothing(metrics.store.View());
        return found;
      }
      ranges := Collect(pending, a, w, found);
    }

    /** Resolve one digest purely, from ranges already in hand, and count the verdict. */
    method EvaluateFrom(ranges: Fetched, digest: string, a: Algorithm) returns (e: Evaluation)
      modifies metrics.store`counters
      ensures e == Evaluated(configs, checkers, ranges, digest, a)
      ensures metrics.store.View() == RecordAll(old(metrics.store.View()), CheckOps(e.verdict.Name()))
    {
      var completed: seq<CheckResult> := [];
      for i := 0 to |checkers|
        invariant completed == Completed(checkers[..i], ranges, digest, a)
      {
        var c := checkers[i];
        if !c.Supports(a) {
          completed := completed + [CheckResult(c.name, true, None, None, None, false, false)];
          continue;
        }
        var fetched := Lookup(ranges, c.KeyFor(digest, a));
        if fetched.None? || fetched.value.data.None? {
          var error := if fetched.Some? then fetched.value.error else Some(ERROR_INTERNAL);
          completed := completed + [CheckResult(c.name, true, None, None, error, true, false)];
          continue;
        }
        completed := completed + [c.Lookup(fetched.value.data.value, digest)];
      }
      assert checkers[..|checkers|] == checkers;
      hide RecordAll;
      var results := Ordered(configs, completed, false);
      var (verdict, degraded) := Resolve(configs, results);
      metrics.RecordCheck(verdict.Name());
      e := Evaluation(verdict, degraded, results);
    }

    /** Resolve each item with no further fetch. */
    method EvaluateItems(items: seq<Item>, a: Algorithm, ranges: Fetched) returns (outcomes: seq<BatchOutcome>)
      modifies metrics.store`counters
      ensures outcomes == OutcomesOf(configs, checkers, ranges, items, a)
      ensures SameSums(metrics.store.View(), RecordAll(old(metrics.store.View()), VerdictLog(outcomes)))
    {
      outcomes := [];
      ghost var start := metrics.store.View();
      RecordNothing(start);
      SameSumsReflexive(start);
      assert VerdictLog([]) == [];
      hide RecordAll, Evaluated, CheckOps, SameSums, VerdictLog;
      for k := 0 to |items|
        invariant outcomes == OutcomesOf(configs, checkers, ranges, items[..k], a)
        invariant SameSums(metrics.store.View(), RecordAll(start, VerdictLog(outcomes)))
      {
        assert items[..k + 1][..k] == items[..k];
        ghost var mid, before := metrics.store.View(), outcomes;
        var e := EvaluateFrom(ranges, items[k].digest, a);
        SameSumsReflexive(metrics.store.View());
        LogGrows(start, VerdictLog(before), mid, metrics.store.View(), CheckOps(e.verdict.Name()));
        outcomes := outcomes + [BatchOutcome(items[k].tag, e)];
        VerdictsAppend(before, BatchOutcome(items[k].tag, e));
      }
      assert items[..|items|] == items;
    }

    /** Fetch every distinct prefix once, then resolve each item from the ranges in hand. */
    method EvaluateBatch(items: seq<Item>, a: Algorithm, w: Weather)
      returns (outcomes: seq<BatchOutcome>, ghost ranges: Fetched)
      requires cache.Valid() && DistinctNames(checkers)
      modifies cache`entries, cache`hits, cache`misses, metrics.store`counters, metrics.store`latency,
                metrics.store`health
      ensures cache.Valid()
      ensures FetchedFor(ranges, PlanOf(checkers, items, a), old(cache.entries), cache.enabled, w.gets, w.outcomes)
      ensures outcomes == OutcomesOf(configs, checkers, ranges, items, a)
      ensures cache.entries ==
                LeftBy(old(cache.entries), PlanOf(checkers, items, a), cache.enabled, w, cache.maxEntries, cache.ttl)
      ensures SameSums(metrics.store.View(), RecordAll(old(metrics.store.View()),
                FetchLog(PlanOf(checkers, items, a), old(cache.entries), cache.enabled, w.gets, w.outcomes, a) +
                    VerdictLog(outcomes)))
      ensures CountsBalance(old(metrics.store.View())) <==> CountsBalance(metrics.store.View())
    {
      ghost var es, start := cache.entries, metrics.store.View();
      if items == [] {
        NothingPlanned(checkers, items, a);
        NothingFetched(es, cache.enabled, w, a, cache.maxEntries, cache.ttl, start);
        ranges := map[];
        return [], map[];
      }
      PlanIsExact(checkers, items, a);
      hide RecordAll, PlanOf, DistinctKeys, Distinct, Evaluated, DistinctNames, FetchedFor, LeftBy, FetchLog;
      hide VerdictLog, SameSums, OutcomesOf, CountsBalance;
      var plan := Plan(items, a);
      var fetched := FetchPlan(plan, a, w);
      ghost var mid := metrics.store.View();
      outcomes := EvaluateItems(items, a, fetched);
      LogGrows(start, FetchLog(plan, es, cache.enabled, w.gets, w.outcomes, a), mid, metrics.store.View(),
          VerdictLog(outcomes));
      BatchKeepsBalance(start, metrics.store.View(), plan, es, cache.enabled, w.gets, w.outcomes, a, outcomes);
      ranges := fetched;
    }

    /** One digest alone: a plan with at most one prefix per checker. */
    method EvaluateDigest(digest: string, a: Algorithm, w: Weather) returns (e: Evaluation, ghost ranges: Fetched)
      requires cache.Valid() && DistinctNames(checkers)
      modifies cache`entries, cache`hits, cache`misses, metrics.store`counters, metrics.store`latency,
                metrics.store`health
      ensures cache.Valid()
      ensures FetchedFor(ranges, PlanOf(checkers, [Item("", digest)], a), old(cache.entries), cache.enabled, w.gets,
                w.outcomes)
      ensures e == Evaluated(configs, checkers, ranges, digest, a)
      ensures cache.entries == LeftBy(old(cache.entries), PlanOf(checkers, [Item("", digest)], a), cache.enabled, w,
                cache.maxEntries, cache.ttl)
      ensures SameSums(metrics.store.View(), RecordAll(old(metrics.store.View()),
                FetchLog(PlanOf(checkers, [Item("", digest)], a), old(cache.entries), cache.enabled, w.gets,
                    w.outcomes, a)
                + CheckOps(e.verdict.Name())))
      ensures CountsBalance(old(metrics.store.View())) <==> CountsBalance(metrics.store.View())
    {
      ghost var es, start := cache.entries, metrics.store.View();
      PlanIsExact(checkers, [Item("", digest)], a);
      hide RecordAll, PlanOf, DistinctKeys, Distinct, Evaluated, CheckOps, LeftBy, FetchLog, FetchedFor, SameSums;
      hide CountsBalance;
      var plan := Plan([Item("", digest)], a);
      var fetched := FetchPlan(plan, a, w);
      ghost var mid := metrics.store.View();
      e := EvaluateFrom(fetched, digest, a);
      SameSumsReflexive(metrics.store.View());
      LogGrows(start, FetchLog(plan, es, cache.enabled, w.gets, w.outcomes, a), mid, metrics.store.View(),
          CheckOps(e.verdict.Name()));
      DigestKeepsBalance(start, metrics.store.View(), plan, es, cache.enabled, w.gets, w.outcomes, a, e.verdict);
      ranges := fetched;
    }
  }

  lemma UpdateJoined(a: Fetched, b: Fetched, key: CacheKey, f: RangeFetch)
    ensures (a + b)[key := f] == a + b[key := f]
  {
  }

  lemma SameSumsReflexive(s: Snapshot)
    ensures SameSums(s, s)
  {
  }

  /** Recording `ops` on top of a log extends the log. */
  lemma LogGrows(start: Snapshot, log: seq<Op>, mid: Snapshot, now: Snapshot, ops: seq<Op>)
    requires SameSums(mid, RecordAll(start, log)) && SameSums(now, RecordAll(mid, ops))
    ensures SameSums(now, RecordAll(start, log + ops))
  {
    SumsTravelAll(mid, RecordAll(start, log), ops);
    RecordAppend(start, log, ops);
  }

  lemma RecordNothing(s: Snapshot)
    ensures RecordAll(s, []) == s
  {
  }

  lemma OnePlanned(p: Planned, es: Entries, enabled: bool, clock: Clock)
    ensures AfterGets(es, [p], enabled, clock) ==
              if enabled && p.checker.Cacheable() then AfterGet(es, p.key, clock(p.key)) else es
    ensures LookupLog([p], es, enabled, clock) ==
            if p.checker.Cacheable() then CacheOps(p.checker.name, Cached(p, es, enabled, clock)) else []
  {
    assert [p][..0] == [];
    assert AfterGets(es, [p][..0], enabled, clock) == es;
  }

  /** How the specification functions grow by the next planned key; the keys before it did not disturb its entry. */
  lemma OneMorePlanned(plan: Plans.Plan, i: nat, es: Entries, enabled: bool, clock: Clock)
    requires i < |plan| && DistinctKeys(plan)
    ensures var done, p := plan[..i], plan[i];
            var now := AfterGets(es, done, enabled, clock);
            && Cached(p, now, enabled, clock) == Cached(p, es, enabled, clock)
            && Find(now, p.key) == Find(es, p.key)
            && AfterGets(es, plan[..i + 1], enabled, clock) == AfterGets(now, [p], enabled, clock)
            && LookupLog([p], now, enabled, clock) == LookupLog([p], es, enabled, clock)
            && LookupLog(plan[..i + 1], es, enabled, clock) ==
                LookupLog(done, es, enabled, clock) + LookupLog([p], es, enabled, clock)
            && Pending(plan[..i + 1], es, enabled, clock) ==
               Pending(done, es, enabled, clock) + (if Cached(p, es, enabled, clock) then [] else [p])
            && CachedRanges(plan[..i + 1], es, enabled, clock) ==
               if Cached(p, es, enabled, clock)
               then CachedRanges(done, es, enabled, clock)[p.key := RangeFetch(Some(Find(es, p.key).value.data), None)]
               else CachedRanges(done, es, enabled, clock)
  {
    assert plan[..i + 1][..i] == plan[..i];
    assert plan[i].key !in PlanKeys(plan[..i]);
    GetsElsewhere(es, plan[..i], enabled, clock, plan[i].key);
    OnePlanned(plan[i], es, enabled, clock);
    OnePlanned(plan[i], AfterGets(es, plan[..i], enabled, clock), enabled, clock);
  }

  /** One outcome for each item, in order. */
  lemma VerdictsAppend(outcomes: seq<BatchOutcome>, o: BatchOutcome)
    ensures VerdictLog(outcomes + [o]) == VerdictLog(outcomes) + CheckOps(o.evaluation.verdict.Name())
  {
    assert (outcomes + [o])[..|outcomes|] == outcomes;
  }

  lemma OnePut(p: Planned, es: Entries, enabled: bool, clock: Clock, outcomes: Outcomes, max: nat, ttl: real)
    ensures AfterPuts(es, [p], enabled, clock, outcomes, max, ttl) ==
            if enabled && Keeps(p, outcomes)
            then AfterPut(es, Cache.Entry(p.key, outcomes(p.key).fetch.data.value, clock(p.key) + ttl), max)
            else es
  {
    assert [p][..0] == [];
    assert AfterPuts(es, [p][..0], enabled, clock, outcomes, max, ttl) == es;
  }

  lemma OneMoreSettled(pending: Plans.Plan, i: nat, es: Entries, enabled: bool, w: Weather, a: Algorithm, max: nat,
                       ttl: real)
    requires i < |pending|
    ensures var done, p := pending[..i], pending[i];
            && AfterPuts(es, pending[..i + 1], enabled, w.puts, w.outcomes, max, ttl) ==
               AfterPuts(AfterPuts(es, done, enabled, w.puts, w.outcomes, max, ttl), [p], enabled, w.puts, w.outcomes,
                   max, ttl)
            && SettleLog(pending[..i + 1], w.outcomes, a) ==
               SettleLog(done, w.outcomes, a) + SettleOps(p, w.outcomes(p.key), a, Late(done, w.outcomes))
            && SettledRanges(pending[..i + 1], w.outcomes) ==
                SettledRanges(done, w.outcomes)[p.key := Settled(w.outcomes(p.key))]
            && Late(pending[..i + 1], w.outcomes) ==
               Late(done, w.outcomes) + if w.outcomes(p.key).TimedOut? then {p.checker.name} else {}
  {
    var p := pending[i];
    assert pending[..i + 1][..i] == pending[..i];
    OnePut(p, AfterPuts(es, pending[..i], enabled, w.puts, w.outcomes, max, ttl), enabled, w.puts, w.outcomes,
        max, ttl);
    assert forall q :: q in pending[..i + 1] <==> q in pending[..i] || q == p;
    hide AfterPut, SettleOps, Settled;
  }

  lemma NothingPending(found: Fetched, es: Entries, enabled: bool, w: Weather, a: Algorithm, max: nat, ttl: real)
    ensures SettledRanges([], w.outcomes) == map[] && found + map[] == found
    ensures AfterPuts(es, [], enabled, w.puts, w.outcomes, max, ttl) == es
    ensures SettleLog([], w.outcomes, a) == []
  {
  }

  lemma {:induction false} NothingPlanned(checkers: seq<Checker>, items: seq<Item>, a: Algorithm)
    ensures items == [] ==> PlanOf(checkers, items, a) == []
  {
    if checkers != [] {
      NothingPlanned(checkers[..|checkers| - 1], items, a);
    }
  }

  lemma NothingFetched(es: Entries, enabled: bool, w: Weather, a: Algorithm, max: nat, ttl: real, s: Snapshot)
    ensures FetchedFor(map[], [], es, enabled, w.gets, w.outcomes)
    ensures LeftBy(es, [], enabled, w, max, ttl) == es
    ensures FetchLog([], es, enabled, w.gets, w.outcomes, a) + [] == []
    ensures RecordAll(s, []) == s
  {
  }
}
