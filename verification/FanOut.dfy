/** What one fan-out does, as values: the ranges it yields, the cache it leaves and the operations it records.
    Source: amiweak/checks/runner.py:230-313. */
module FanOut {
  import opened Wrappers
  import opened CheckBase
  import opened Cache
  import opened CacheLaws
  import opened Checkers
  import opened Plans
  import opened Verdicts
  import opened Tables
  import opened Metrics

  /** What became of each submitted fetch. */
  type Outcomes = CacheKey -> FetchOutcome

  datatype BatchOutcome = BatchOutcome(tag: string, evaluation: Evaluation)

  /** Everything the surroundings decide about one fan-out. */
  datatype Weather = Weather(gets: Clock, puts: Clock, outcomes: Outcomes, iso: CacheKey -> string)

  /** What `_fetch_plan` yields for one planned key. */
  function RangeFor(p: Planned, es: Entries, enabled: bool, clock: Clock, outcomes: Outcomes): RangeFetch {
    if Cached(p, es, enabled, clock) then RangeFetch(Some(Find(es, p.key).value.data), None)
        else Settled(outcomes(p.key))
  }

  /** A range for exactly the planned keys. */
  ghost predicate FetchedFor(ranges: Fetched, plan: Plan, es: Entries, enabled: bool, clock: Clock,
                             outcomes: Outcomes) {
    && ranges.Keys == PlanKeys(plan)
    && forall p :: p in plan ==> ranges[p.key] == RangeFor(p, es, enabled, clock, outcomes)
  }

  // ----- The cache it leaves -----

  function AfterGets(es: Entries, plan: Plan, enabled: bool, clock: Clock): Entries {
    if plan == [] then es
    else
      var before, p := AfterGets(es, plan[..|plan| - 1], enabled, clock), plan[|plan| - 1];
      if enabled && p.checker.Cacheable() then AfterGet(before, p.key, clock(p.key)) else before
  }

  /** Only a fetch that returned data is stored, and only for a cacheable checker. */
  predicate Keeps(p: Planned, outcomes: Outcomes) {
    p.checker.Cacheable() && outcomes(p.key).Returned? && outcomes(p.key).fetch.data.Some?
  }

  function AfterPuts(es: Entries, pending: Plan, enabled: bool, clock: Clock, outcomes: Outcomes, max: nat,
                     ttl: real): Entries {
    if pending == [] then es
    else
      var before, p := AfterPuts(es, pending[..|pending| - 1], enabled, clock, outcomes, max, ttl),
          pending[|pending| - 1];
      if enabled && Keeps(p, outcomes)
      then AfterPut(before, Cache.Entry(p.key, outcomes(p.key).fetch.data.value, clock(p.key) + ttl), max)
      else before
  }

  /** The cache a fan-out leaves. */
  function LeftBy(es: Entries, plan: Plan, enabled: bool, w: Weather, max: nat, ttl: real): Entries {
    AfterPuts(AfterGets(es, plan, enabled, w.gets), Pending(plan, es, enabled, w.gets), enabled, w.puts, w.outcomes,
        max, ttl)
  }

  // ----- What it records -----

  function LookupLog(plan: Plan, es: Entries, enabled: bool, clock: Clock): seq<Op> {
    if plan == [] then []
    else
      var p := plan[|plan| - 1];
      LookupLog(plan[..|plan| - 1], es, enabled, clock) +
      if p.checker.Cacheable() then CacheOps(p.checker.name, Cached(p, es, enabled, clock)) else []
  }

  function Late(pending: Plan, outcomes: Outcomes): set<string> {
    set p | p in pending && outcomes(p.key).TimedOut? :: p.checker.name
  }

  /** A returned fetch is recorded with its algorithm whether it carried data or an error; of a backend's timeouts
      only the first is recorded. */
  function SettleOps(p: Planned, o: FetchOutcome, a: Algorithm, seen: set<string>): seq<Op> {
    match o
    case Returned(fetch, elapsed) =>
      BackendOps(p.checker.name, fetch.error.None?, elapsed) + AlgorithmOps(p.checker.name, a.Name())
    case RaisedIn(elapsed) => BackendOps(p.checker.name, false, elapsed)
    case TimedOut(elapsed) => if p.checker.name in seen then [] else BackendOps(p.checker.name, false, elapsed)
  }

  function SettleLog(pending: Plan, outcomes: Outcomes, a: Algorithm): seq<Op> {
    if pending == [] then []
    else
      var before, p := pending[..|pending| - 1], pending[|pending| - 1];
      SettleLog(before, outcomes, a) + SettleOps(p, outcomes(p.key), a, Late(before, outcomes))
  }

  function FetchLog(plan: Plan, es: Entries, enabled: bool, clock: Clock, outcomes: Outcomes, a: Algorithm): seq<Op> {
    LookupLog(plan, es, enabled, clock) + SettleLog(Pending(plan, es, enabled, clock), outcomes, a)
  }

  function VerdictLog(outcomes: seq<BatchOutcome>): seq<Op> {
    if outcomes == [] then []
    else VerdictLog(outcomes[..|outcomes| - 1]) + CheckOps(outcomes[|outcomes| - 1].evaluation.verdict.Name())
  }

  // ----- What it yields -----

  function CachedRanges(plan: Plan, es: Entries, enabled: bool, clock: Clock): Fetched {
    if plan == [] then map[]
    else
      var before, p := CachedRanges(plan[..|plan| - 1], es, enabled, clock), plan[|plan| - 1];
      if Cached(p, es, enabled, clock) then before[p.key := RangeFetch(Some(Find(es, p.key).value.data), None)]
          else before
  }

  function SettledRanges(pending: Plan, outcomes: Outcomes): Fetched {
    if pending == [] then map[]
    else
      var p := pending[|pending| - 1];
      SettledRanges(pending[..|pending| - 1], outcomes)[p.key := Settled(outcomes(p.key))]
  }

  function OutcomesOf(configs: seq<CheckConfig>, checkers: seq<Checker>, ranges: Fetched, items: seq<Item>,
                      a: Algorithm): (os: seq<BatchOutcome>)
    ensures |os| == |items|
    ensures forall k :: 0 <= k < |items| ==>
              os[k] == BatchOutcome(items[k].tag, Evaluated(configs, checkers, ranges, items[k].digest, a))
  {
    if items == [] then []
    else
      var item := items[|items| - 1];
      OutcomesOf(configs, checkers, ranges, items[..|items| - 1], a) +
      [BatchOutcome(item.tag, Evaluated(configs, checkers, ranges, item.digest, a))]
  }

  lemma {:induction false} CachedRangesHold(plan: Plan, es: Entries, enabled: bool, clock: Clock)
    requires DistinctKeys(plan)
    ensures forall key :: key in CachedRanges(plan, es, enabled, clock) <==>
              exists p :: p in plan && p.key == key && Cached(p, es, enabled, clock)
    ensures forall p :: p in plan && Cached(p, es, enabled, clock) ==>
              p.key in CachedRanges(plan, es, enabled, clock) &&
              CachedRanges(plan, es, enabled, clock)[p.key] == RangeFetch(Some(Find(es, p.key).value.data), None)
  {
    if plan != [] {
      var n := |plan| - 1;
      CachedRangesHold(plan[..n], es, enabled, clock);
      assert forall p :: p in plan <==> p in plan[..n] || p == plan[n];
      assert forall p :: p in plan[..n] ==> p.key != plan[n].key;
    }
  }

  lemma {:induction false} SettledRangesHold(pending: Plan, outcomes: Outcomes)
    ensures SettledRanges(pending, outcomes).Keys == PlanKeys(pending)
    ensures forall p :: p in pending ==> SettledRanges(pending, outcomes)[p.key] == Settled(outcomes(p.key))
  {
    hide Settled;
    if pending != [] {
      var n := |pending| - 1;
      SettledRangesHold(pending[..n], outcomes);
      assert forall p :: p in pending <==> p in pending[..n] || p == pending[n];
      var before, after := SettledRanges(pending[..n], outcomes), SettledRanges(pending, outcomes);
      forall key
        ensures key in after <==> key in PlanKeys(pending)
      {
        if key in PlanKeys(pending) {
          var p :| p in pending && p.key == key;
          assert p in pending[..n] ==> key in PlanKeys(pending[..n]);
        }
        if key in before {
          assert key in PlanKeys(pending[..n]);
        }
      }
    }
  }

  lemma JoinedAt(p: Planned, plan: Plan, es: Entries, enabled: bool, clock: Clock, outcomes: Outcomes)
    requires DistinctKeys(plan) && p in plan
    ensures var both := CachedRanges(plan, es, enabled, clock) +
              SettledRanges(Pending(plan, es, enabled, clock), outcomes);
            p.key in both && both[p.key] == RangeFor(p, es, enabled, clock, outcomes)
  {
    var pending := Pending(plan, es, enabled, clock);
    if Cached(p, es, enabled, clock) {
      CachedRangesHold(plan, es, enabled, clock);
      NotPending(p, plan, es, enabled, clock);
      SettledRangesHold(pending, outcomes);
      hide CachedRanges, SettledRanges, Pending, Settled, Find;
    } else {
      PendingHolds(plan, es, enabled, clock);
      hide CachedRanges, SettledRanges, Pending, Settled, Find, Cached;
      SettledRangesHold(pending, outcomes);
      assert p in pending;
    }
  }

  lemma NotPending(p: Planned, plan: Plan, es: Entries, enabled: bool, clock: Clock)
    requires DistinctKeys(plan) && p in plan && Cached(p, es, enabled, clock)
    ensures p.key !in PlanKeys(Pending(plan, es, enabled, clock))
  {
    PendingHolds(plan, es, enabled, clock);
    hide Cached, Pending;
    assert forall q :: q in plan && q.key == p.key ==> q == p;
  }

  lemma JoinedOnly(plan: Plan, es: Entries, enabled: bool, clock: Clock, outcomes: Outcomes, key: CacheKey)
    requires DistinctKeys(plan)
    requires key in CachedRanges(plan, es, enabled, clock)
              || key in SettledRanges(Pending(plan, es, enabled, clock), outcomes)
    ensures key in PlanKeys(plan)
  {
    CachedRangesHold(plan, es, enabled, clock);
    SettledRangesHold(Pending(plan, es, enabled, clock), outcomes);
    PendingHolds(plan, es, enabled, clock);
    hide CachedRanges, SettledRanges, Pending, Settled, Find, Cached;
    if key in SettledRanges(Pending(plan, es, enabled, clock), outcomes) {
      var q :| q in Pending(plan, es, enabled, clock) && q.key == key;
    }
  }

  /** Cached and settled ranges together cover exactly the plan. */
  lemma RangesJoin(plan: Plan, es: Entries, enabled: bool, clock: Clock, outcomes: Outcomes)
    requires DistinctKeys(plan)
    ensures FetchedFor(CachedRanges(plan, es, enabled, clock) +
              SettledRanges(Pending(plan, es, enabled, clock), outcomes),
                       plan, es, enabled, clock, outcomes)
  {
    hide CachedRanges, SettledRanges, Pending, RangeFor;
    var both := CachedRanges(plan, es, enabled, clock) + SettledRanges(Pending(plan, es, enabled, clock), outcomes);
    forall p | p in plan
      ensures p.key in both && both[p.key] == RangeFor(p, es, enabled, clock, outcomes)
    {
      JoinedAt(p, plan, es, enabled, clock, outcomes);
    }
    forall key | key in both
      ensures key in PlanKeys(plan)
    {
      JoinedOnly(plan, es, enabled, clock, outcomes, key);
    }
  }

  // ----- Looking up one key disturbs no other -----

  lemma {:induction false} FindWithout(es: Entries, key: CacheKey, other: CacheKey)
    requires other != key
    ensures Find(Without(es, key), other) == Find(es, other)
  {
    if es != [] {
      FindWithout(es[1..], key, other);
      assert es == [es[0]] + es[1..];
      WithoutHead(es[0], es[1..], key);
      if es[0].key != key {
        assert Without(es, key)[1..] == Without(es[1..], key);
      }
    }
  }

  lemma {:induction false} FindAppend(es: Entries, e: Cache.Entry, other: CacheKey)
    requires other != e.key
    ensures Find(es + [e], other) == Find(es, other)
  {
    if es != [] {
      assert (es + [e])[1..] == es[1..] + [e];
      FindAppend(es[1..], e, other);
    } else {
      assert (es + [e])[1..] == [];
    }
  }

  lemma GetElsewhere(es: Entries, key: CacheKey, now: real, other: CacheKey)
    requires other != key
    ensures Find(AfterGet(es, key, now), other) == Find(es, other)
  {
    FindWithout(es, key, other);
    FindLocates(es, key);
    if Find(es, key).Some? {
      FindAppend(Without(es, key), Find(es, key).value, other);
    }
  }

  lemma {:induction false} GetsElsewhere(es: Entries, plan: Plan, enabled: bool, clock: Clock, other: CacheKey)
    requires other !in PlanKeys(plan)
    ensures Find(AfterGets(es, plan, enabled, clock), other) == Find(es, other)
  {
    if plan != [] {
      var n := |plan| - 1;
      assert plan[n] in plan && forall p :: p in plan[..n] ==> p in plan;
      GetsElsewhere(es, plan[..n], enabled, clock, other);
      GetElsewhere(AfterGets(es, plan[..n], enabled, clock), plan[n].key, clock(plan[n].key), other);
    }
  }

  // ----- Refinement: one fetch per prefix answers every item as a check of its own would -----

  /** Everything cached is what the upstream truly says. */
  ghost predicate TrueEntries(es: Entries, up: Upstream) {
    forall e :: e in es ==> e.data == up(e.key)
  }

  /** Every submitted fetch told the truth or an error. */
  ghost predicate AllHonest(plan: Plan, outcomes: Outcomes, up: Upstream, a: Algorithm) {
    forall p :: p in plan ==> Honest(outcomes(p.key), TrueRange(p.checker, up, p.prefix, a))
  }

  lemma PlannedKey(p: Planned, checkers: seq<Checker>, items: seq<Item>, a: Algorithm)
    requires DistinctNames(checkers) && p in PlanOf(checkers, items, a)
    ensures p.key == CacheKey(p.checker.name, a, p.prefix) && p.checker in checkers && p.checker.Supports(a)
  {
    PlanIsExact(checkers, items, a);
    var c :| c in checkers && c.Supports(a) && ComesFrom(p, c, items, a);
    var e :| e in items && p == Plans.Entry(c, e.digest, a);
    EntryKey(c, e.digest, a);
  }

  lemma ItemIsPlanned(checkers: seq<Checker>, items: seq<Item>, a: Algorithm, c: Checker, item: Item)
    requires DistinctNames(checkers) && c in checkers && c.Supports(a) && item in items
    ensures Plans.Entry(c, item.digest, a) in PlanOf(checkers, items, a)
  {
    PlanIsExact(checkers, items, a);
    assert ComesFrom(Plans.Entry(c, item.digest, a), c, items, a);
  }

  /** Each planned key's range is the true one if the cache had it or its fetch returned it, and otherwise absent with
      the one error that fetch met: the returned one, "internal" for a raise, "timeout" for a timeout. */
  lemma RangeIsTrueOrError(p: Planned, checkers: seq<Checker>, items: seq<Item>, a: Algorithm, up: Upstream,
                           es: Entries, enabled: bool, clock: Clock, outcomes: Outcomes)
    requires DistinctNames(checkers) && p in PlanOf(checkers, items, a)
    requires TrueEntries(es, up) && AllHonest(PlanOf(checkers, items, a), outcomes, up, a)
    ensures var truth, o := TrueRange(p.checker, up, p.prefix, a), outcomes(p.key);
            RangeFor(p, es, enabled, clock, outcomes) ==
            if Cached(p, es, enabled, clock) || (o.Returned? && o.fetch.data.Some?) then RangeFetch(Some(truth), None)
            else if o.Returned? then RangeFetch(None, o.fetch.error)
            else RangeFetch(None, Some(if o.RaisedIn? then "internal" else "timeout"))
    ensures var o := outcomes(p.key);
            !Cached(p, es, enabled, clock) && o.Returned? && o.fetch.data.None? ==> o.fetch.error.Some?
  {
    hide PlanOf;
    PlannedKey(p, checkers, items, a);
    FindLocates(es, p.key);
    assert Honest(outcomes(p.key), TrueRange(p.checker, up, p.prefix, a));
  }

  /** The range for a checker's own key was not in the cache, and its fetch did not return it. */
  predicate Missing(c: Checker, digest: string, a: Algorithm, es: Entries, enabled: bool, clock: Clock,
                    outcomes: Outcomes)
  {
    var key := c.KeyFor(digest, a);
    !(enabled && !c.kind.Local? && Live(es, key, clock(key)))
    && !(outcomes(key).Returned? && outcomes(key).fetch.data.Some?)
  }

  /** What a checker owes a digest: one that does not apply says so; one whose range was cached or returned answers its
      own check of the true range; any other is unreachable with its prefix's one error. */
  function Due(c: Checker, digest: string, a: Algorithm, up: Upstream, es: Entries, enabled: bool, clock: Clock,
               outcomes: Outcomes): CheckResult
  {
    var o, truth := outcomes(c.KeyFor(digest, a)), TrueRange(c, up, c.PrefixOf(digest), a);
    if !c.Supports(a) then CheckResult(c.name, true, None, None, None, false, false)
    else if !Missing(c, digest, a, es, enabled, clock, outcomes) then c.Check(digest, a, RangeFetch(Some(truth), None))
    else
      var error := if o.Returned? then o.fetch.error else Some(if o.RaisedIn? then "internal" else "timeout");
      CheckResult(c.name, true, None, None, error, true, false)
  }

  /** The batch refines the single check: every item gets from every checker exactly what that checker owes it. */
  lemma BatchRefinesCheck(checkers: seq<Checker>, items: seq<Item>, a: Algorithm, up: Upstream,
                          es: Entries, enabled: bool, clock: Clock, outcomes: Outcomes, ranges: Fetched,
                          c: Checker, item: Item)
    requires DistinctNames(checkers) && c in checkers && item in items
    requires TrueEntries(es, up) && AllHonest(PlanOf(checkers, items, a), outcomes, up, a)
    requires FetchedFor(ranges, PlanOf(checkers, items, a), es, enabled, clock, outcomes)
    ensures ResultOf(c, ranges, item.digest, a) == Due(c, item.digest, a, up, es, enabled, clock, outcomes)
    ensures c.Supports(a) && Missing(c, item.digest, a, es, enabled, clock, outcomes) ==>
              ResultOf(c, ranges, item.digest, a).error.Some?
  {
    hide PlanOf;
    if c.Supports(a) {
      var p := Plans.Entry(c, item.digest, a);
      ItemIsPlanned(checkers, items, a, c, item);
      RangeIsTrueOrError(p, checkers, items, a, up, es, enabled, clock, outcomes);
      assert ranges[p.key] == RangeFor(p, es, enabled, clock, outcomes);
      hide RangeFor, TrueRange;
    }
  }

  /** Checking one digest alone: every checker's own `check` against the true ranges, resolved. */
  function CheckedAlone(configs: seq<CheckConfig>, checkers: seq<Checker>, up: Upstream, digest: string,
                        a: Algorithm): Evaluation {
    var completed := seq(|checkers|, k requires 0 <= k < |checkers| =>
      checkers[k].Check(digest, a,
          RangeFetch(Some(TrueRange(checkers[k], up, checkers[k].PrefixOf(digest), a)), None)));
    var results := Slots(configs, completed, false) + Extras(configs, completed);
    var (verdict, degraded) := Resolve(configs, results);
    Evaluation(verdict, degraded, results)
  }

  /** With no failures a batch evaluates each item as it would be checked alone, whatever the duplicates, the other
      items, and the state of the cache. */
  lemma BatchEqualsAlone(configs: seq<CheckConfig>, checkers: seq<Checker>, items: seq<Item>, a: Algorithm,
                         up: Upstream,
                         es: Entries, enabled: bool, clock: Clock, outcomes: Outcomes, ranges: Fetched, item: Item)
    requires DistinctNames(checkers) && item in items
    requires TrueEntries(es, up) && AllHonest(PlanOf(checkers, items, a), outcomes, up, a)
    requires forall p :: p in PlanOf(checkers, items, a) ==>
               outcomes(p.key).Returned? && outcomes(p.key).fetch.data.Some?
    requires FetchedFor(ranges, PlanOf(checkers, items, a), es, enabled, clock, outcomes)
    ensures Evaluated(configs, checkers, ranges, item.digest, a) == CheckedAlone(configs, checkers, up, item.digest, a)
  {
    hide PlanOf, Resolve, Slots, Extras, TrueRange;
    forall c | c in checkers
      ensures ResultOf(c, ranges, item.digest, a) ==
              c.Check(item.digest, a, RangeFetch(Some(TrueRange(c, up, c.PrefixOf(item.digest), a)), None))
    {
      if c.Supports(a) {
        ItemIsPlanned(checkers, items, a, c, item);
        EntryKey(c, item.digest, a);
        assert Plans.Entry(c, item.digest, a).key == c.KeyFor(item.digest, a);
      }
      BatchRefinesCheck(checkers, items, a, up, es, enabled, clock, outcomes, ranges, c, item);
    }
    hide ResultOf;
    var alone := seq(|checkers|, k requires 0 <= k < |checkers| =>
      checkers[k].Check(item.digest, a,
          RangeFetch(Some(TrueRange(checkers[k], up, checkers[k].PrefixOf(item.digest), a)), None)));
    assert Completed(checkers, ranges, item.digest, a) == alone;
  }

  // ----- The cache stays true -----

  lemma {:induction false} GetsStayTrue(es: Entries, plan: Plan, enabled: bool, clock: Clock, up: Upstream, max: nat)
    requires WellFormed(es, max) && TrueEntries(es, up)
    ensures WellFormed(AfterGets(es, plan, enabled, clock), max) && TrueEntries(AfterGets(es, plan, enabled, clock), up)
  {
    if plan != [] {
      var n := |plan| - 1;
      GetsStayTrue(es, plan[..n], enabled, clock, up, max);
      hide Distinct, AfterGet;
      GetForm(AfterGets(es, plan[..n], enabled, clock), plan[n].key, clock(plan[n].key));
    }
  }

  lemma {:induction false} PutsStayTrue(es: Entries, pending: Plan, enabled: bool, clock: Clock, outcomes: Outcomes,
                                        max: nat, ttl: real, up: Upstream, a: Algorithm)
    requires WellFormed(es, max) && TrueEntries(es, up) && AllHonest(pending, outcomes, up, a)
    requires forall p :: p in pending ==> p.key == CacheKey(p.checker.name, a, p.prefix)
    ensures WellFormed(AfterPuts(es, pending, enabled, clock, outcomes, max, ttl), max)
    ensures TrueEntries(AfterPuts(es, pending, enabled, clock, outcomes, max, ttl), up)
  {
    if pending != [] {
      var n := |pending| - 1;
      var p := pending[n];
      assert p in pending && forall q :: q in pending[..n] ==> q in pending;
      PutsStayTrue(es, pending[..n], enabled, clock, outcomes, max, ttl, up, a);
      assert Honest(outcomes(p.key), TrueRange(p.checker, up, p.prefix, a));
      if enabled && Keeps(p, outcomes) {
        StoreStaysTrue(AfterPuts(es, pending[..n], enabled, clock, outcomes, max, ttl), p,
                       clock(p.key) + ttl, outcomes, max, up, a);
      }
      hide WellFormed, TrueEntries, AfterPut, Keeps;
    }
  }

  lemma StoreStaysTrue(es: Entries, p: Planned, expires: real, outcomes: Outcomes, max: nat, up: Upstream, a: Algorithm)
    requires WellFormed(es, max) && TrueEntries(es, up) && Keeps(p, outcomes)
    requires p.key == CacheKey(p.checker.name, a, p.prefix)
              && Honest(outcomes(p.key), TrueRange(p.checker, up, p.prefix, a))
    ensures var after := AfterPut(es, Cache.Entry(p.key, outcomes(p.key).fetch.data.value, expires), max);
            WellFormed(after, max) && TrueEntries(after, up)
  {
    hide Distinct, AfterPut;
    PutForm(es, Cache.Entry(p.key, outcomes(p.key).fetch.data.value, expires), max);
  }

  /** A fan-out leaves a true cache true, so the refinement above holds again for the next batch; errors, raises and
      timeouts are never stored. */
  lemma FanOutKeepsTrue(checkers: seq<Checker>, items: seq<Item>, a: Algorithm, up: Upstream, es: Entries,
                        enabled: bool,
                        gets: Clock, puts: Clock, outcomes: Outcomes, max: nat, ttl: real)
    requires DistinctNames(checkers) && WellFormed(es, max) && TrueEntries(es, up)
    requires AllHonest(PlanOf(checkers, items, a), outcomes, up, a)
    ensures var plan := PlanOf(checkers, items, a);
            var after := AfterPuts(AfterGets(es, plan, enabled, gets), Pending(plan, es, enabled, gets), enabled, puts,
                outcomes, max, ttl);
            WellFormed(after, max) && TrueEntries(after, up)
  {
    var plan := PlanOf(checkers, items, a);
    var pending := Pending(plan, es, enabled, gets);
    PendingHolds(plan, es, enabled, gets);
    forall p | p in plan
      ensures p.key == CacheKey(p.checker.name, a, p.prefix)
    {
      PlannedKey(p, checkers, items, a);
    }
    hide PlanOf, Honest, Distinct;
    GetsStayTrue(es, plan, enabled, gets, up, max);
    PutsStayTrue(AfterGets(es, plan, enabled, gets), pending, enabled, puts, outcomes, max, ttl, up, a);
  }

  /** Whatever the upstream does, an entry present after a fan-out was there before or is the data of a fetch of
      that exact key that returned data. */
  lemma {:induction false} PutsComeFromFetches(es: Entries, pending: Plan, enabled: bool, clock: Clock,
                                               outcomes: Outcomes, max: nat, ttl: real)
    requires WellFormed(es, max)
    ensures WellFormed(AfterPuts(es, pending, enabled, clock, outcomes, max, ttl), max)
    ensures forall e :: e in AfterPuts(es, pending, enabled, clock, outcomes, max, ttl) ==>
              || e in es
              || exists p :: p in pending && Keeps(p, outcomes) && e.key == p.key
                             && Some(e.data) == outcomes(p.key).fetch.data && e.expires == clock(p.key) + ttl
  {
    if pending != [] {
      var n := |pending| - 1;
      var p, before := pending[n], AfterPuts(es, pending[..n], enabled, clock, outcomes, max, ttl);
      PutsComeFromFetches(es, pending[..n], enabled, clock, outcomes, max, ttl);
      assert forall q :: q in pending[..n] ==> q in pending;
      hide Distinct, AfterPut;
      if enabled && Keeps(p, outcomes) {
        PutForm(before, Cache.Entry(p.key, outcomes(p.key).fetch.data.value, clock(p.key) + ttl), max);
        assert p in pending;
      }
    }
  }
}
