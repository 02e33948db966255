/** The batch endpoint: charge, evaluate, summarise; and what charging means for upstream traffic.
    Source: amiweak/routes/api.py:108-226. */
module BatchApi {
  import opened CheckBase
  import opened Cache
  import opened Checkers
  import opened Plans
  import opened Verdicts
  import opened FanOut
  import opened Buckets
  import opened Ledger
  import opened Stores
  import opened RateLimit
  import opened Metrics
  import opened Runner
  import opened Rounds
  import opened Accounting
  import opened Tables
  import opened Resilience

  /** Every verdict a batch item can carry. */
  const SUMMARY_VERDICTS := [LEAKED, PRECOMPUTED, DENYLISTED, SAFE, ERROR]

  type Summary = map<string, int>

  lemma BatchVerdicts(configs: seq<CheckConfig>, checkers: seq<Checker>, ranges: Fetched, digest: string, a: Algorithm)
    ensures Evaluated(configs, checkers, ranges, digest, a).verdict in SUMMARY_VERDICTS
  {
    var results := Evaluated(configs, checkers, ranges, digest, a).results;
    hide Hits, Completed, Slots, Extras, IsFailure, FailsClosed;
    assert SUMMARY_VERDICTS[0] == LEAKED && SUMMARY_VERDICTS[1] == PRECOMPUTED && SUMMARY_VERDICTS[2] == DENYLISTED;
    assert SUMMARY_VERDICTS[3] == SAFE && SUMMARY_VERDICTS[4] == ERROR;
    assert FirstHit(results, 3) == SAFE;
    assert FirstHit(results, 2) in {DENYLISTED, SAFE};
    assert FirstHit(results, 1) in {PRECOMPUTED, DENYLISTED, SAFE};
  }

  function VerdictCount(outcomes: seq<BatchOutcome>, v: Verdict): nat {
    CountWhere(outcomes, (o: BatchOutcome) => o.evaluation.verdict == v)
  }

  predicate Summarisable(outcomes: seq<BatchOutcome>) {
    forall o :: o in outcomes ==> o.evaluation.verdict in SUMMARY_VERDICTS
  }

  const SUMMARY_KEYS := {"total", "leaked", "precomputed", "denylisted", "safe", "error"}

  method ZeroSummary(total: nat) returns (summary: Summary)
    ensures summary.Keys == SUMMARY_KEYS && summary["total"] == total
    ensures forall v :: v in SUMMARY_VERDICTS ==> v.Name() in summary && summary[v.Name()] == 0
  {
    summary := map["total" := total];
    for i := 0 to |SUMMARY_VERDICTS|
      invariant summary.Keys == {"total"} + (set v | v in SUMMARY_VERDICTS[..i] :: v.Name())
      invariant summary["total"] == total
      invariant forall v :: v in SUMMARY_VERDICTS[..i] ==> summary[v.Name()] == 0
    {
      NamesDiffer(SUMMARY_VERDICTS[i]);
      summary := summary[SUMMARY_VERDICTS[i].Name() := 0];
    }
    SummaryNames();
    assert SUMMARY_VERDICTS[..|SUMMARY_VERDICTS|] == SUMMARY_VERDICTS;
  }

  /** What the summary holds after these outcomes. */
  ghost predicate Counting(summary: Summary, total: nat, outcomes: seq<BatchOutcome>) {
    && summary.Keys == SUMMARY_KEYS && summary["total"] == total
    && forall v :: v in SUMMARY_VERDICTS ==> v.Name() in summary && summary[v.Name()] == VerdictCount(outcomes, v)
  }

  /** The summary loop never meets a verdict it has no key for, and counts each one exactly. */
  method Summarize(outcomes: seq<BatchOutcome>) returns (summary: Summary)
    requires Summarisable(outcomes)
    ensures Tallied(summary, outcomes)
  {
    summary := ZeroSummary(|outcomes|);
    hide Tallied;
    for k := 0 to |outcomes|
      invariant Counting(summary, |outcomes|, outcomes[..k])
    {
      var verdict := outcomes[k].evaluation.verdict;
      assert outcomes[k] in outcomes && outcomes[..k] + [outcomes[k]] == outcomes[..k + 1];
      OneMoreCount(summary, |outcomes|, outcomes[..k], outcomes[k]);
      summary := summary[verdict.Name() := summary[verdict.Name()] + 1];
    }
    assert outcomes[..|outcomes|] == outcomes;
    NamedCounts(summary, outcomes);
  }

  lemma OneMoreCount(summary: Summary, total: nat, before: seq<BatchOutcome>, o: BatchOutcome)
    requires Counting(summary, total, before) && o.evaluation.verdict in SUMMARY_VERDICTS
    ensures var name := o.evaluation.verdict.Name();
            name in summary && Counting(summary[name := summary[name] + 1], total, before + [o])
  {
    NamesDiffer(o.evaluation.verdict);
    assert (before + [o])[..|before|] == before;
    hide SUMMARY_KEYS, SUMMARY_VERDICTS;
  }

  lemma NamedCounts(summary: Summary, outcomes: seq<BatchOutcome>)
    requires Counting(summary, |outcomes|, outcomes)
    ensures Tallied(summary, outcomes)
  {
    hide VerdictCount;
    SummaryNames();
    assert LEAKED.Name() == "leaked" && PRECOMPUTED.Name() == "precomputed" && DENYLISTED.Name() == "denylisted";
    assert SAFE.Name() == "safe" && ERROR.Name() == "error";
  }

  ghost predicate Tallied(summary: Summary, outcomes: seq<BatchOutcome>) {
    && summary.Keys == {"total", "leaked", "precomputed", "denylisted", "safe", "error"}
    && summary["total"] == |outcomes|
    && summary["leaked"] == VerdictCount(outcomes, LEAKED)
    && summary["precomputed"] == VerdictCount(outcomes, PRECOMPUTED)
    && summary["denylisted"] == VerdictCount(outcomes, DENYLISTED)
    && summary["safe"] == VerdictCount(outcomes, SAFE)
    && summary["error"] == VerdictCount(outcomes, ERROR)
  }

  lemma SummaryNames()
    ensures SUMMARY_KEYS == {"total"} + (set v | v in SUMMARY_VERDICTS :: v.Name())
    ensures LEAKED in SUMMARY_VERDICTS && PRECOMPUTED in SUMMARY_VERDICTS && DENYLISTED in SUMMARY_VERDICTS
    ensures SAFE in SUMMARY_VERDICTS && ERROR in SUMMARY_VERDICTS
  {
    assert SUMMARY_VERDICTS[0] == LEAKED && SUMMARY_VERDICTS[1] == PRECOMPUTED && SUMMARY_VERDICTS[2] == DENYLISTED;
    assert SUMMARY_VERDICTS[3] == SAFE && SUMMARY_VERDICTS[4] == ERROR;
    forall name
      ensures name in SUMMARY_KEYS <==> name == "total" || exists v :: v in SUMMARY_VERDICTS && v.Name() == name
    {
      if name in SUMMARY_KEYS && name != "total" {
        var v :| v in {LEAKED, PRECOMPUTED, DENYLISTED, SAFE, ERROR} && v.Name() == name;
      }
    }
  }

  lemma NamesDiffer(v: Verdict)
    ensures v.Name() != "total" && forall w: Verdict :: w.Name() == v.Name() ==> w == v
  {
  }

  /** The five counts add up to the total. */
  lemma {:induction false} SummaryAddsUp(outcomes: seq<BatchOutcome>)
    requires Summarisable(outcomes)
    ensures VerdictCount(outcomes, LEAKED) + VerdictCount(outcomes, PRECOMPUTED) + VerdictCount(outcomes, DENYLISTED)
            + VerdictCount(outcomes, SAFE) + VerdictCount(outcomes, ERROR) == |outcomes|
  {
    if outcomes != [] {
      var n := |outcomes| - 1;
      assert outcomes[n] in outcomes && forall o :: o in outcomes[..n] ==> o in outcomes;
      SummaryAddsUp(outcomes[..n]);
      assert outcomes[n].evaluation.verdict in {LEAKED, PRECOMPUTED, DENYLISTED, SAFE, ERROR};
    }
  }

  // ----- What one request does to the limiter's stores -----

  datatype Response = TooMany | Answered(summary: Summary, results: seq<BatchOutcome>)

  /** What surrounds one request to the limiter. */
  datatype Charge = Charge(client: string, now: real, evictRaises: bool, spendRaises: bool, priced: Clock)

  /** One request as the limiter's two buckets saw it: at most one sweep on one of them, then one spend on one of them.
      `calm` says that no planned key turned live or stale between pricing and fetching. */
  datatype Turn = Turn(charge: Charge, cost: nat, primarySweep: seq<BucketOp>, fallbackSweep: seq<BucketOp>,
                       allowed: bool, submitted: nat, calm: bool)
  {
    function SpendOp(ns: string, lim: Limits): BucketOp {
      SpendOn(BucketKey(ns, charge.client), cost as real, lim.capacity, lim.rate, charge.now)
    }

    function Sweeps(fallback: bool): seq<BucketOp> { if fallback then fallbackSweep else primarySweep }

    /** What the primary, or the fallback, took of it. */
    function On(fallback: bool, ns: string, lim: Limits): seq<BucketOp> {
      Sweeps(fallback) + if charge.spendRaises == fallback then [SpendOp(ns, lim)] else []
    }
  }

  ghost predicate OwnSweep(op: BucketOp, now: real, ns: string, lim: Limits) {
    op.SweepOf? && op.ns == ns && OpTime(op, lim) == now
  }

  /** A turn that the bucket with this trail decided, or that left it alone. */
  ghost predicate Fair(turn: Turn, fallback: bool, trail: seq<BucketOp>, ns: string, lim: Limits) {
    && |turn.Sweeps(fallback)| <= 1
    && (forall op :: op in turn.Sweeps(fallback) ==> OwnSweep(op, turn.charge.now, ns, lim))
    && (turn.charge.spendRaises == fallback ==>
          turn.allowed == Allows(RowsAfter(trail + turn.Sweeps(fallback)), turn.SpendOp(ns, lim)))
    && (if turn.allowed then turn.calm ==> turn.submitted <= turn.cost else turn.submitted == 0)
  }

  ghost predicate Decided(turn: Turn, ns: string, lim: Limits, p0: seq<BucketOp>, f0: seq<BucketOp>) {
    Fair(turn, false, p0, ns, lim) && Fair(turn, true, f0, ns, lim)
  }

  lemma SweepsAreOwn(limiter: TokenBucket, fallback: bool, now: real, due: bool, raised: bool, big: bool)
    ensures |limiter.SweepTaken(fallback, now, due, raised, big)| <= 1
    ensures forall op :: op in limiter.SweepTaken(fallback, now, due, raised, big) ==>
              OwnSweep(op, now, limiter.ns, limiter.lim)
  {
    assert now - limiter.lim.IdleTtl() + limiter.lim.IdleTtl() == now;
  }

  /** The limiter's trails grew by exactly this turn. */
  ghost predicate Charged(limiter: TokenBucket, turn: Turn, p0: seq<BucketOp>, f0: seq<BucketOp>)
    reads limiter.store.primary, limiter.store.fallback
  {
    && limiter.store.primary.trail == p0 + turn.On(false, limiter.ns, limiter.lim)
    && limiter.store.fallback.trail == f0 + turn.On(true, limiter.ns, limiter.lim)
  }

  /** One limiter call: at most one sweep and one spend, and the answer of the bucket that took the spend. */
  method ChargeOnce(limiter: TokenBucket, charge: Charge, cost: nat) returns (allowed: bool, ghost turn: Turn)
    requires limiter.store.Valid() && cost > 0
    modifies limiter`nextEviction, limiter.store`calls
    modifies limiter.store.primary`buckets, limiter.store.primary`trail
    modifies limiter.store.fallback`buckets, limiter.store.fallback`trail, limiter.store.fallback`counters
    ensures limiter.store.Valid()
    ensures turn.charge == charge && turn.cost == cost && turn.allowed == allowed && turn.submitted == 0
    ensures Charged(limiter, turn, old(limiter.store.primary.trail), old(limiter.store.fallback.trail))
    ensures Decided(turn, limiter.ns, limiter.lim, old(limiter.store.primary.trail), old(limiter.store.fallback.trail))
  {
    ghost var p0, f0 := limiter.store.primary.trail, limiter.store.fallback.trail;
    ghost var due, big := charge.now >= limiter.nextEviction, |limiter.store.fallback.buckets| >= SWEEP_THRESHOLD;
    ghost var ps := limiter.SweepTaken(false, charge.now, due, charge.evictRaises, big);
    ghost var fs := limiter.SweepTaken(true, charge.now, due, charge.evictRaises, big);
    SweepsAreOwn(limiter, false, charge.now, due, charge.evictRaises, big);
    SweepsAreOwn(limiter, true, charge.now, due, charge.evictRaises, big);
    hide RowsAfter, Allows, BucketKey, OwnSweep, TokenBucket.SweepTaken, Decided;
    allowed := limiter.Allow(charge.client, cost, charge.now, charge.evictRaises, charge.spendRaises);
    turn := Turn(charge, cost, ps, fs, allowed, 0, true);
    assert turn.SpendOp(limiter.ns, limiter.lim) == limiter.SpendFor(charge.client, cost, charge.now);
    TurnDone(turn, limiter.ns, limiter.lim, p0, f0);
  }

  lemma TurnDone(turn: Turn, ns: string, lim: Limits, p0: seq<BucketOp>, f0: seq<BucketOp>)
    requires |turn.primarySweep| <= 1 && |turn.fallbackSweep| <= 1 && turn.submitted == 0
    requires forall op :: op in turn.primarySweep ==> OwnSweep(op, turn.charge.now, ns, lim)
    requires forall op :: op in turn.fallbackSweep ==> OwnSweep(op, turn.charge.now, ns, lim)
    requires turn.allowed == Allows(RowsAfter(if turn.charge.spendRaises then f0 + turn.fallbackSweep
                                              else p0 + turn.primarySweep), turn.SpendOp(ns, lim))
    ensures Decided(turn, ns, lim, p0, f0)
    ensures p0 + turn.On(false, ns, lim) ==
            if turn.charge.spendRaises then p0 + turn.primarySweep else p0 + turn.primarySweep + [turn.SpendOp(ns, lim)]
    ensures f0 + turn.On(true, ns, lim) ==
            if turn.charge.spendRaises then f0 + turn.fallbackSweep + [turn.SpendOp(ns, lim)]
                else f0 + turn.fallbackSweep
  {
    hide RowsAfter, Allows, OwnSweep;
    assert turn.primarySweep + [] == turn.primarySweep && turn.fallbackSweep + [] == turn.fallbackSweep;
  }

  // ----- One batch -----

  /** What the batch's fan-out submits to upstreams. */
  ghost function Submitted(runner: CheckRunner, es: Entries, items: seq<Item>, a: Algorithm, w: Weather): nat {
    CacheableIn(Pending(PlanOf(runner.checkers, items, a), es, runner.cache.enabled, w.gets))
  }

  /** No planned key turned live or stale between pricing and fetching. */
  ghost predicate Unchanged(runner: CheckRunner, es: Entries, items: seq<Item>, a: Algorithm, priced: Clock,
                            w: Weather) {
    forall p :: p in PlanOf(runner.checkers, items, a) ==>
        Live(es, p.key, priced(p.key)) == Live(es, p.key, w.gets(p.key))
  }

  lemma ChargeCoversEgress(runner: CheckRunner, es: Entries, items: seq<Item>, a: Algorithm, priced: Clock, w: Weather)
    ensures Unchanged(runner, es, items, a, priced, w) ==>
              Submitted(runner, es, items, a, w) ==
                  Owed(PlanOf(runner.checkers, items, a), es, runner.cache.enabled, priced)
  {
    if Unchanged(runner, es, items, a, priced, w) {
      PriceIsEgress(PlanOf(runner.checkers, items, a), es, es, runner.cache.enabled, priced, w.gets);
    }
  }

  /** The turn was priced by the plan, at one token at least, and an accepted one submits what its fan-out submits:
      exactly the price, as long as no planned key turned live or stale in between. */
  ghost predicate Priced(turn: Turn, runner: CheckRunner, es: Entries, items: seq<Item>, a: Algorithm, w: Weather) {
    var price := Owed(PlanOf(runner.checkers, items, a), es, runner.cache.enabled, turn.charge.priced);
    && turn.cost == (if price == 0 then 1 else price)
    && turn.calm == Unchanged(runner, es, items, a, turn.charge.priced, w)
    && turn.submitted == (if turn.allowed then Submitted(runner, es, items, a, w) else 0)
    && (turn.allowed && turn.calm ==> turn.submitted == price)
  }

  /** The answer carries each item's evaluation from one fan-out, which left this cache, and its summary. */
  ghost predicate Served(runner: CheckRunner, es: Entries, items: seq<Item>, a: Algorithm, w: Weather,
                         response: Response,
                         ranges: Fetched)
    reads runner.cache
  {
    var plan := PlanOf(runner.checkers, items, a);
    && Summarised(response)
    && FetchedFor(ranges, plan, es, runner.cache.enabled, w.gets, w.outcomes)
    && response.results == OutcomesOf(runner.configs, runner.checkers, ranges, items, a)
    && runner.cache.entries == LeftBy(es, plan, runner.cache.enabled, w, runner.cache.maxEntries, runner.cache.ttl)
  }

  /** What an answered batch adds to the store: its lookups, its fetches, its verdicts and itself. */
  ghost predicate Metered(was: Snapshot, now: Snapshot, plan: Plan, es: Entries, enabled: bool, a: Algorithm,
                          w: Weather, results: seq<BatchOutcome>)
  {
    SameSums(now, RecordAll(was, FetchLog(plan, es, enabled, w.gets, w.outcomes, a) + VerdictLog(results) +
                                 BatchOps(|results|)))
  }

  /** In /metrics terms: one batch, its items, one check and one verdict each; and per backend a hit or a miss for each
      planned cacheable prefix, and a request for each submitted one that completed plus one for those that did not. */
  lemma BatchIsMetered(was: Snapshot, now: Snapshot, plan: Plan, es: Entries, enabled: bool, a: Algorithm, w: Weather,
                       results: seq<BatchOutcome>, backend: string, v: Verdict)
    requires Metered(was, now, plan, es, enabled, a, w, results)
    ensures Count(now, "batch_requests_total", "") == Count(was, "batch_requests_total", "") + 1
    ensures Count(now, "batch_items_total", "") == Count(was, "batch_items_total", "") + |results|
    ensures Count(now, "checks_total", "") == Count(was, "checks_total", "") + |results|
    ensures Count(now, "verdicts_total", v.Name()) == Count(was, "verdicts_total", v.Name()) + VerdictCount(results, v)
    ensures Count(now, "cache_hits_total", backend) == Count(was, "cache_hits_total", backend) +
              CountWhere(plan, (p: Planned) => CacheableOf(p, backend) && Cached(p, es, enabled, w.gets))
    ensures Count(now, "cache_misses_total", backend) == Count(was, "cache_misses_total", backend) +
              CountWhere(plan, (p: Planned) => CacheableOf(p, backend) && !Cached(p, es, enabled, w.gets))
    ensures var pending := Pending(plan, es, enabled, w.gets);
            Count(now, "backend_requests_total", backend) == Count(was, "backend_requests_total", backend) +
              CountWhere(pending, (p: Planned) => CompletedOf(p, w.outcomes, backend)) +
              One(backend in Late(pending, w.outcomes))
  {
    hide Total, LookupLog, SettleLog, VerdictLog, RecordAll, CountWhere, BatchOps, Pending, Cached, Count, Late;
    LookupsCount(plan, es, enabled, w.gets, backend);
    SettlesCount(Pending(plan, es, enabled, w.gets), w.outcomes, a, backend);
    VerdictsCount(results, v.Name());
    CountsVerdict(results, v);
    MovesBy(was, now, plan, es, enabled, a, w, results, "batch_requests_total", "");
    MovesBy(was, now, plan, es, enabled, a, w, results, "batch_items_total", "");
    MovesBy(was, now, plan, es, enabled, a, w, results, "checks_total", "");
    MovesBy(was, now, plan, es, enabled, a, w, results, "verdicts_total", v.Name());
    MovesBy(was, now, plan, es, enabled, a, w, results, "cache_hits_total", backend);
    MovesBy(was, now, plan, es, enabled, a, w, results, "cache_misses_total", backend);
    MovesBy(was, now, plan, es, enabled, a, w, results, "backend_requests_total", backend);
  }

  lemma {:induction false} CountsVerdict(results: seq<BatchOutcome>, v: Verdict)
    ensures CountWhere(results, (o: BatchOutcome) => o.evaluation.verdict.Name() == v.Name()) ==
            VerdictCount(results, v)
  {
    if results != [] {
      CountsVerdict(results[..|results| - 1], v);
      NamesDiffer(v);
    }
  }

  /** One counter moves by what the part of the log that touches it adds. */
  lemma MovesBy(was: Snapshot, now: Snapshot, plan: Plan, es: Entries, enabled: bool, a: Algorithm, w: Weather,
                results: seq<BatchOutcome>, name: string, tag: string)
    requires Metered(was, now, plan, es, enabled, a, w, results)
    ensures Count(now, name, tag) == Count(was, name, tag) +
            (if name == "cache_hits_total" || name == "cache_misses_total"
             then Total(LookupLog(plan, es, enabled, w.gets), name, tag) else 0) +
            (if name == "backend_requests_total" || name == "backend_errors_total" || name == "backend_algorithm_total"
             then Total(SettleLog(Pending(plan, es, enabled, w.gets), w.outcomes, a), name, tag) else 0) +
            (if name == "checks_total" || name == "verdicts_total" then Total(VerdictLog(results), name, tag) else 0) +
            (if name == "batch_requests_total" && tag == "" then 1 else 0) +
            (if name == "batch_items_total" && tag == "" then |results| else 0)
  {
    var lookups, settles := LookupLog(plan, es, enabled, w.gets),
        SettleLog(Pending(plan, es, enabled, w.gets), w.outcomes, a);
    var fetches, verdicts := FetchLog(plan, es, enabled, w.gets, w.outcomes, a), VerdictLog(results);
    hide Total, LookupLog, SettleLog, VerdictLog, RecordAll, BatchOps;
    RecordedTotals(was, fetches + verdicts + BatchOps(|results|), name, tag);
    TotalsSplit(fetches + verdicts, BatchOps(|results|), name, tag);
    TotalsSplit(fetches, verdicts, name, tag);
    TotalsSplit(lookups, settles, name, tag);
    BatchTotals(|results|, name, tag);
    if name != "cache_hits_total" && name != "cache_misses_total" {
      LookupsCountOnly(plan, es, enabled, w.gets, name, tag);
    }
    if name != "backend_requests_total" && name != "backend_errors_total" && name != "backend_algorithm_total" {
      SettlesCountOnly(Pending(plan, es, enabled, w.gets), w.outcomes, a, name, tag);
    }
    if name != "checks_total" && name != "verdicts_total" {
      VerdictsCountOnly(results, name, tag);
    }
  }

  /** A batch is charged for the uncached prefixes it needs.  A refused one fetches nothing, records nothing and leaves
      the cache alone; an accepted one is answered from one fan-out.  Either way the counters stay balanced. */
  method CheckBatch(runner: CheckRunner, limiter: TokenBucket, items: seq<Item>, a: Algorithm, charge: Charge,
                    w: Weather)
    returns (response: Response, ghost turn: Turn, ghost ranges: Fetched)
    requires runner.cache.Valid() && DistinctNames(runner.checkers)
    requires limiter.store.Valid() && runner.metrics.store != limiter.store.fallback
    modifies limiter, limiter.store, limiter.store.primary, limiter.store.fallback, runner.cache, runner.metrics.store
    ensures runner.cache.Valid() && limiter.store.Valid()
    ensures turn.charge == charge && turn.allowed == response.Answered?
    ensures Charged(limiter, turn, old(limiter.store.primary.trail), old(limiter.store.fallback.trail))
    ensures Decided(turn, limiter.ns, limiter.lim, old(limiter.store.primary.trail), old(limiter.store.fallback.trail))
    ensures Priced(turn, runner, old(runner.cache.entries), items, a, w)
    ensures response.TooMany? ==> runner.cache.entries == old(runner.cache.entries)
                                  && runner.metrics.store.View() == old(runner.metrics.store.View())
    ensures response.Answered? ==> Served(runner, old(runner.cache.entries), items, a, w, response, ranges)
    ensures response.Answered? ==>
              Metered(old(runner.metrics.store.View()), runner.metrics.store.View(), PlanOf(runner.checkers, items, a),
                      old(runner.cache.entries), runner.cache.enabled, a, w, response.results)
    ensures CountsBalance(old(runner.metrics.store.View())) <==> CountsBalance(runner.metrics.store.View())
  {
    hide CountsBalance, Metered, Served, PlanOf, Decided, Priced, Charged, Distinct, DistinctNames, RowsAfter, Replay;
    hide FallbackOps;
    var allowed;
    allowed, turn := Admit(runner, limiter, items, a, charge, w);
    if allowed {
      response, ranges := Evaluate(runner, items, a, w);
    } else {
      response, ranges := TooMany, map[];
    }
  }

  /** The charge in front of a batch. */
  method Admit(runner: CheckRunner, limiter: TokenBucket, items: seq<Item>, a: Algorithm, charge: Charge,
               ghost w: Weather)
    returns (allowed: bool, ghost turn: Turn)
    requires limiter.store.Valid()
    modifies limiter`nextEviction, limiter.store`calls
    modifies limiter.store.primary`buckets, limiter.store.primary`trail
    modifies limiter.store.fallback`buckets, limiter.store.fallback`trail, limiter.store.fallback`counters
    ensures limiter.store.Valid() && turn.charge == charge && turn.allowed == allowed
    ensures Charged(limiter, turn, old(limiter.store.primary.trail), old(limiter.store.fallback.trail))
    ensures Decided(turn, limiter.ns, limiter.lim, old(limiter.store.primary.trail), old(limiter.store.fallback.trail))
    ensures Priced(turn, runner, runner.cache.entries, items, a, w)
  {
    ghost var es, p0, f0 := runner.cache.entries, limiter.store.primary.trail, limiter.store.fallback.trail;
    hide Owed, PlanOf, Decided, Priced, Charged, RowsAfter, Replay, FallbackOps;
    var price := runner.PrefixCost(items, a, charge.priced);
    allowed, turn := ChargeOnce(limiter, charge, if price < 1 then 1 else price);
    turn := CompleteTurn(turn, runner, limiter, es, items, a, w, price, p0, f0);
  }

  /** The turn of a charged batch, with what it goes on to submit. */
  lemma CompleteTurn(charged: Turn, runner: CheckRunner, limiter: TokenBucket, es: Entries, items: seq<Item>,
                     a: Algorithm,
                     w: Weather, price: nat, p0: seq<BucketOp>, f0: seq<BucketOp>) returns (turn: Turn)
    requires price == Owed(PlanOf(runner.checkers, items, a), es, runner.cache.enabled, charged.charge.priced)
    requires charged.cost == (if price == 0 then 1 else price)
    requires Decided(charged, limiter.ns, limiter.lim, p0, f0) && Charged(limiter, charged, p0, f0)
    ensures turn.charge == charged.charge && turn.allowed == charged.allowed
    ensures Decided(turn, limiter.ns, limiter.lim, p0, f0) && Charged(limiter, turn, p0, f0)
    ensures Priced(turn, runner, es, items, a, w)
  {
    ChargeCoversEgress(runner, es, items, a, charged.charge.priced, w);
    hide RowsAfter, Allows, Submitted, Unchanged, PlanOf, Owed;
    turn := charged.(calm := Unchanged(runner, es, items, a, charged.charge.priced, w),
                     submitted := if charged.allowed then Submitted(runner, es, items, a, w) else 0);
    assert forall fallback :: turn.Sweeps(fallback) == charged.Sweeps(fallback);
    assert forall fallback ::
        turn.On(fallback, limiter.ns, limiter.lim) == charged.On(fallback, limiter.ns, limiter.lim);
  }

  ghost predicate Summarised(response: Response) {
    response.Answered? && Summarisable(response.results) && Tallied(response.summary, response.results)
  }

  method Evaluate(runner: CheckRunner, items: seq<Item>, a: Algorithm, w: Weather)
    returns (response: Response, ghost ranges: Fetched)
    requires runner.cache.Valid() && DistinctNames(runner.checkers)
    modifies runner.cache`entries, runner.cache`hits, runner.cache`misses
    modifies runner.metrics.store`counters, runner.metrics.store`latency, runner.metrics.store`health
    ensures runner.cache.Valid() && response.Answered?
    ensures Served(runner, old(runner.cache.entries), items, a, w, response, ranges)
    ensures Metered(old(runner.metrics.store.View()), runner.metrics.store.View(), PlanOf(runner.checkers, items, a),
                    old(runner.cache.entries), runner.cache.enabled, a, w, response.results)
    ensures CountsBalance(old(runner.metrics.store.View())) <==> CountsBalance(runner.metrics.store.View())
  {
    hide PlanOf, RecordAll, Evaluated, LeftBy, FetchLog, FetchedFor, Distinct, VerdictCount, CountsBalance, SameSums;
    var results;
    results, ranges := runner.EvaluateBatch(items, a, w);
    AllSummarisable(runner.configs, runner.checkers, ranges, items, a);
    hide OutcomesOf, Summarisable;
    ghost var before := runner.metrics.store.View();
    runner.metrics.RecordBatch(|items|);
    BatchOpsBalance(before, runner.metrics.store.View(), |items|);
    RecordsAppend(old(runner.metrics.store.View()), before,
                  FetchLog(PlanOf(runner.checkers, items, a), old(runner.cache.entries), runner.cache.enabled, w.gets,
                           w.outcomes, a) + VerdictLog(results), BatchOps(|items|));
    var summary := Summarize(results);
    response := Answered(summary, results);
  }

  lemma AllSummarisable(configs: seq<CheckConfig>, checkers: seq<Checker>, ranges: Fetched, items: seq<Item>,
                        a: Algorithm)
    ensures Summarisable(OutcomesOf(configs, checkers, ranges, items, a))
  {
    var results := OutcomesOf(configs, checkers, ranges, items, a);
    hide Evaluated, OutcomesOf;
    forall o | o in results
      ensures o.evaluation.verdict in SUMMARY_VERDICTS
    {
      var k :| 0 <= k < |results| && results[k] == o;
      BatchVerdicts(configs, checkers, ranges, items[k].digest, a);
    }
  }

  lemma RecordsAppend(was: Snapshot, now: Snapshot, log: seq<Op>, more: seq<Op>)
    requires SameSums(now, RecordAll(was, log))
    ensures SameSums(RecordAll(now, more), RecordAll(was, log + more))
  {
    SumsTravelAll(now, RecordAll(was, log), more);
    RecordAppend(was, log, more);
  }

  lemma BatchOpsBalance(before: Snapshot, after: Snapshot, items: int)
    requires after == RecordAll(before, BatchOps(items))
    ensures CountsBalance(before) <==> CountsBalance(after)
  {
    var a, b := Incr("batch_requests_total", "", 1), Incr("batch_items_total", "", items);
    forall name, tag | name == "checks_total" || name == "verdicts_total"
      ensures Total(BatchOps(items), name, tag) == 0
    {
      TotalOfOne(a, name, tag);
      TotalOfOne(b, name, tag);
      assert BatchOps(items) == [a] + [b];
      TotalsSplit([a], [b], name, tag);
    }
    hide Total, RecordAll, CountsBalance, BatchOps, CountsOver, SumOver;
    ZeroSums(BatchOps(items), VERDICTS);
    LogKeepsBalance(before, after, BatchOps(items));
  }

  // ----- Egress over any window of any client -----

  /** Everything a bucket took of these turns. */
  function Ops(turns: seq<Turn>, fallback: bool, ns: string, lim: Limits): seq<BucketOp> {
    if turns == [] then []
    else Ops(turns[..|turns| - 1], fallback, ns, lim) + turns[|turns| - 1].On(fallback, ns, lim)
  }

  /** The fetches a client's turns submitted on the word of one of its two buckets. */
  function Egress(turns: seq<Turn>, client: string, fallback: bool): nat {
    if turns == [] then 0
    else
      var t := turns[|turns| - 1];
      Egress(turns[..|turns| - 1], client, fallback) +
      if t.charge.client == client && t.charge.spendRaises == fallback then t.submitted else 0
  }

  /** Every turn was decided on what the bucket held by then. */
  /** It counts every fetch submitted on the bucket's word to the client, and nothing else. */
  lemma {:induction false} EgressIsSum(a: seq<Turn>, b: seq<Turn>, t: Turn, client: string, fallback: bool)
    ensures Egress(a + b, client, fallback) == Egress(a, client, fallback) + Egress(b, client, fallback)
    ensures Egress([t], client, fallback) ==
            if t.charge.client == client && t.charge.spendRaises == fallback then t.submitted else 0
  {
    assert [t][..0] == [];
    if b == [] {
      assert a + b == a;
    } else {
      var n := |b| - 1;
      assert (a + b)[..|a + b| - 1] == a + b[..n];
      EgressIsSum(a, b[..n], t, client, fallback);
    }
  }

  ghost predicate AllFair(turns: seq<Turn>, fallback: bool, trail: seq<BucketOp>, ns: string, lim: Limits) {
    forall k :: 0 <= k < |turns| ==> Fair(turns[k], fallback, trail + Ops(turns[..k], fallback, ns, lim), ns, lim)
  }

  /** Readings between t0 and t1 that never go back, and no planned key that turned live or stale unpriced. */
  ghost predicate Timely(turns: seq<Turn>, client: string, t0: real, t1: real) {
    && (forall k :: 0 <= k < |turns| ==> t0 <= turns[k].charge.now <= t1)
    && (forall k, l :: 0 <= k < l < |turns| ==> turns[k].charge.now <= turns[l].charge.now)
    && (forall k :: 0 <= k < |turns| && turns[k].charge.client == client ==> turns[k].calm)
  }

  lemma {:induction false} OpsJoin(a: seq<Turn>, b: seq<Turn>, fallback: bool, ns: string, lim: Limits)
    ensures Ops(a + b, fallback, ns, lim) == Ops(a, fallback, ns, lim) + Ops(b, fallback, ns, lim)
  {
    if b == [] {
      assert a + b == a;
    } else {
      var n := |b| - 1;
      OpsJoin(a, b[..n], fallback, ns, lim);
      assert (a + b)[..|a| + n] == a + b[..n];
    }
  }

  lemma OpsSplit(turns: seq<Turn>, i: nat, j: nat, fallback: bool, ns: string, lim: Limits)
    requires i <= j <= |turns|
    ensures Ops(turns[..j], fallback, ns, lim) ==
              Ops(turns[..i], fallback, ns, lim) + Ops(turns[i..j], fallback, ns, lim)
  {
    hide Ops;
    OpsJoin(turns[..i], turns[i..j], fallback, ns, lim);
    assert turns[..i] + turns[i..j] == turns[..j];
  }

  lemma FairWindow(turns: seq<Turn>, i: nat, j: nat, fallback: bool, trail: seq<BucketOp>, ns: string, lim: Limits)
    requires i <= j <= |turns| && AllFair(turns, fallback, trail, ns, lim)
    ensures AllFair(turns[i..j], fallback, trail + Ops(turns[..i], fallback, ns, lim), ns, lim)
  {
    hide Fair, Ops;
    var start := Ops(turns[..i], fallback, ns, lim);
    forall k | 0 <= k < j - i
      ensures Fair(turns[i..j][k], fallback, trail + start + Ops(turns[i..j][..k], fallback, ns, lim), ns, lim)
    {
      OpsSplit(turns, i, i + k, fallback, ns, lim);
      assert turns[i..j][..k] == turns[i..i + k] && turns[i..j][k] == turns[i + k];
      assert trail + (start + Ops(turns[i..i + k], fallback, ns, lim)) ==
          trail + start + Ops(turns[i..i + k], fallback, ns, lim);
      assert Fair(turns[i + k], fallback, trail + Ops(turns[..i + k], fallback, ns, lim), ns, lim);
    }
  }

  /** One turn submits no more for its client than its bucket granted the client. */
  lemma TurnPays(turn: Turn, fallback: bool, trail: seq<BucketOp>, ns: string, lim: Limits, client: string)
    requires Fair(turn, fallback, trail, ns, lim) && (turn.charge.client == client ==> turn.calm)
    ensures GrantedBy(trail, turn.On(fallback, ns, lim), BucketKey(ns, client)) >=
            if turn.charge.client == client && turn.charge.spendRaises == fallback then turn.submitted as real else 0.0
  {
    hide RowsAfter, Allows;
    var sweeps, key := turn.Sweeps(fallback), BucketKey(ns, client);
    if sweeps != [] {
      assert sweeps == [sweeps[0]] && sweeps[0] in sweeps;
    }
    SweepsGrantNothing(trail, sweeps, key);
    if turn.charge.spendRaises == fallback {
      var spend := turn.SpendOp(ns, lim);
      assert turn.On(fallback, ns, lim) == sweeps + [spend];
      GrantedByAppends(trail, sweeps, spend, key);
    } else {
      assert turn.On(fallback, ns, lim) == sweeps;
    }
  }

  lemma SweepsGrantNothing(trail: seq<BucketOp>, sweeps: seq<BucketOp>, key: string)
    requires |sweeps| <= 1 && forall op :: op in sweeps ==> op.SweepOf?
    ensures GrantedBy(trail, sweeps, key) == 0.0
  {
    hide RowsAfter, Allows;
    if sweeps != [] {
      assert sweeps[..0] == [] && sweeps[0] in sweeps;
      assert GrantedBy(trail, sweeps[..0], key) == 0.0;
    }
  }

  lemma {:induction false} EgressIsGranted(turns: seq<Turn>, fallback: bool, trail: seq<BucketOp>, ns: string,
                                           lim: Limits,
                                           client: string)
    requires AllFair(turns, fallback, trail, ns, lim)
    requires forall k :: 0 <= k < |turns| && turns[k].charge.client == client ==> turns[k].calm
    ensures Egress(turns, client, fallback) as real <=
              GrantedBy(trail, Ops(turns, fallback, ns, lim), BucketKey(ns, client))
  {
    if turns != [] {
      hide Fair, GrantedBy;
      var n := |turns| - 1;
      FairWindow(turns, 0, n, fallback, trail, ns, lim);
      assert turns[0..n] == turns[..n] && Ops(turns[..0], fallback, ns, lim) == [] && trail + [] == trail;
      EgressIsGranted(turns[..n], fallback, trail, ns, lim, client);
      var done := Ops(turns[..n], fallback, ns, lim);
      TurnPays(turns[n], fallback, trail + done, ns, lim, client);
      GrantedBySplits(trail, done, turns[n].On(fallback, ns, lim), BucketKey(ns, client));
    } else {
      assert GrantedBy(trail, [], BucketKey(ns, client)) == 0.0;
    }
  }

  lemma TimesJoin(done: seq<BucketOp>, more: seq<BucketOp>, lim: Limits, t0: real, mid: real, now: real)
    requires OpsWithin(done, lim, t0, mid) && mid <= now && t0 <= now
    requires forall k :: 0 <= k < |more| ==> OpTime(more[k], lim) == now
    ensures OpsWithin(done + more, lim, t0, now)
  {
    hide OpTime;
  }

  /** The turns' sweeps are their own limiter's, under their own readings. */
  ghost predicate SweepsOwn(turns: seq<Turn>, fallback: bool, ns: string, lim: Limits) {
    forall k :: 0 <= k < |turns| ==>
      forall op :: op in turns[k].Sweeps(fallback) ==> OwnSweep(op, turns[k].charge.now, ns, lim)
  }

  lemma FairSweeps(turns: seq<Turn>, fallback: bool, trail: seq<BucketOp>, ns: string, lim: Limits)
    requires AllFair(turns, fallback, trail, ns, lim)
    ensures SweepsOwn(turns, fallback, ns, lim)
  {
    hide RowsAfter, Allows, Ops, OwnSweep;
    forall k | 0 <= k < |turns|
      ensures forall op :: op in turns[k].Sweeps(fallback) ==> OwnSweep(op, turns[k].charge.now, ns, lim)
    {
      assert Fair(turns[k], fallback, trail + Ops(turns[..k], fallback, ns, lim), ns, lim);
    }
  }

  lemma TurnTime(turn: Turn, fallback: bool, ns: string, lim: Limits)
    requires forall op :: op in turn.Sweeps(fallback) ==> OwnSweep(op, turn.charge.now, ns, lim)
    ensures forall op :: op in turn.On(fallback, ns, lim) ==> OpTime(op, lim) == turn.charge.now
  {
    var spend := turn.SpendOp(ns, lim);
    assert forall op :: op in turn.On(fallback, ns, lim) ==> op in turn.Sweeps(fallback) || op == spend;
  }

  lemma {:induction false} OpsAreTimely(turns: seq<Turn>, fallback: bool, ns: string, lim: Limits, client: string,
                                        t0: real, t1: real)
    requires SweepsOwn(turns, fallback, ns, lim) && Timely(turns, client, t0, t1)
    ensures OpsWithin(Ops(turns, fallback, ns, lim), lim, t0, if turns == [] then t0 else turns[|turns| - 1].charge.now)
  {
    if turns != [] {
      var n := |turns| - 1;
      OpsAreTimely(turns[..n], fallback, ns, lim, client, t0, t1);
      TurnTime(turns[n], fallback, ns, lim);
      var more := turns[n].On(fallback, ns, lim);
      assert forall k :: 0 <= k < |more| ==> more[k] in more;
      TimesJoin(Ops(turns[..n], fallback, ns, lim), more, lim, t0, if n == 0 then t0 else turns[n - 1].charge.now,
                turns[n].charge.now);
    }
  }

  /** Spends in this namespace come from its own limiter. */
  predicate OwnNamespace(trail: seq<BucketOp>, ns: string, lim: Limits) {
    forall op :: op in trail && op.SpendOn? && InNamespace(op.key, ns) ==>
        op.capacity == lim.capacity && op.rate == lim.rate
  }

  lemma {:induction false} StaysOwn(trail: seq<BucketOp>, turns: seq<Turn>, fallback: bool, ns: string, lim: Limits)
    requires OwnNamespace(trail, ns, lim) && SweepsOwn(turns, fallback, ns, lim)
    ensures OwnNamespace(trail + Ops(turns, fallback, ns, lim), ns, lim)
  {
    if turns != [] {
      var n := |turns| - 1;
      StaysOwn(trail, turns[..n], fallback, ns, lim);
      var done, more := trail + Ops(turns[..n], fallback, ns, lim), turns[n].On(fallback, ns, lim);
      assert trail + Ops(turns, fallback, ns, lim) == done + more;
      assert forall op :: op in more ==> op in turns[n].Sweeps(fallback) || op == turns[n].SpendOp(ns, lim);
      hide InNamespace, Ops;
    } else {
      assert trail + [] == trail;
    }
  }

  lemma OwnClient(trail: seq<BucketOp>, ns: string, lim: Limits, client: string)
    requires OwnNamespace(trail, ns, lim)
    ensures OneLimiter(trail, BucketKey(ns, client), lim)
  {
    assert InNamespace(BucketKey(ns, client), ns);
  }

  /** A window is a run of its own, on a bucket that has already taken what came before. */
  lemma WindowBound(turns: seq<Turn>, fallback: bool, trail: seq<BucketOp>, ns: string, lim: Limits, client: string,
                    t0: real, t1: real)
    requires lim.Valid() && OwnNamespace(trail, ns, lim) && AllFair(turns, fallback, trail, ns, lim)
    requires turns != [] && t0 <= t1 == turns[|turns| - 1].charge.now && Timely(turns, client, t0, t1)
    ensures Egress(turns, client, fallback) as real <= lim.capacity + Gain(lim.rate, t1 - t0)
  {
    FairSweeps(turns, fallback, trail, ns, lim);
    StaysOwn(trail, turns, fallback, ns, lim);
    OwnClient(trail + Ops(turns, fallback, ns, lim), ns, lim, client);
    EgressIsGranted(turns, fallback, trail, ns, lim, client);
    OpsAreTimely(turns, fallback, ns, lim, client, t0, t1);
    hide *;
    StretchBound(trail, Ops(turns, fallback, ns, lim), BucketKey(ns, client), lim, t0, t1);
  }

  /** Any window of any client's batches, whatever the buckets held before it, whichever store calls raised and whatever
      was swept, while other clients use the same limiter, runner and cache: the cacheable fetches submitted on the word
      of one bucket stay within its capacity plus what refills between the window's first and last reading. */
  lemma EgressBound(turns: seq<Turn>, fallback: bool, trail: seq<BucketOp>, ns: string, lim: Limits, client: string,
                    i: nat, j: nat)
    requires lim.Valid() && OwnNamespace(trail, ns, lim) && AllFair(turns, fallback, trail, ns, lim)
    requires i <= j < |turns| && Timely(turns[i..j + 1], client, turns[i].charge.now, turns[j].charge.now)
    ensures Egress(turns[i..j + 1], client, fallback) as real <=
            lim.capacity + Gain(lim.rate, turns[j].charge.now - turns[i].charge.now)
  {
    hide AllFair, Ops, OwnNamespace, Egress, Timely, Gain;
    FairWindow(turns, 0, i, fallback, trail, ns, lim);
    NoOps(turns, fallback, trail, ns, lim);
    FairSweeps(turns[..i], fallback, trail, ns, lim);
    StaysOwn(trail, turns[..i], fallback, ns, lim);
    FairWindow(turns, i, j + 1, fallback, trail, ns, lim);
    TimelyStart(turns[i..j + 1], client, turns[i].charge.now, turns[j].charge.now);
    WindowBound(turns[i..j + 1], fallback, trail + Ops(turns[..i], fallback, ns, lim), ns, lim, client,
                turns[i].charge.now, turns[j].charge.now);
  }

  lemma NoOps(turns: seq<Turn>, fallback: bool, trail: seq<BucketOp>, ns: string, lim: Limits)
    ensures trail + Ops(turns[..0], fallback, ns, lim) == trail
  {
  }

  lemma TimelyStart(turns: seq<Turn>, client: string, t0: real, t1: real)
    requires turns != [] && Timely(turns, client, t0, t1)
    ensures t0 <= t1
  {
    assert t0 <= turns[0].charge.now <= t1;
  }

  // ----- Many clients, end to end -----

  datatype Batch = Batch(items: seq<Item>, a: Algorithm, charge: Charge, weather: Weather)

  /** The fan-outs of the batches that were accepted. */
  function Accepted(batches: seq<Batch>, turns: seq<Turn>): seq<Round>
    requires |batches| == |turns|
  {
    if turns == [] then []
    else
      var last := |turns| - 1;
      Accepted(batches[..last], turns[..last]) +
      if turns[last].allowed then [Round(batches[last].items, batches[last].a, batches[last].weather)] else []
  }

  /** What the cache holds after these batches. */
  ghost function CacheNow(runner: CheckRunner, batches: seq<Batch>, turns: seq<Turn>, es: Entries): Entries
    requires |batches| == |turns|
  {
    CacheAfter(runner.checkers, Accepted(batches, turns), es, runner.cache.enabled, runner.cache.maxEntries,
        runner.cache.ttl)
  }

  /** Every turn was priced, and its calm judged, on what the cache held by then. */
  ghost predicate AllPriced(runner: CheckRunner, batches: seq<Batch>, turns: seq<Turn>, es: Entries) {
    && |batches| == |turns|
    && forall k :: 0 <= k < |turns| ==>
         && turns[k].charge == batches[k].charge
         && Priced(turns[k], runner, CacheNow(runner, batches[..k], turns[..k], es), batches[k].items, batches[k].a,
                   batches[k].weather)
  }

  /** A window of turns, from the first reading to the last. */
  ghost predicate Window(turns: seq<Turn>, client: string, i: nat, j: nat) {
    i <= j < |turns| && Timely(turns[i..j + 1], client, turns[i].charge.now, turns[j].charge.now)
  }

  ghost predicate WindowBounded(turns: seq<Turn>, client: string, fallback: bool, i: nat, j: nat, lim: Limits) {
    Window(turns, client, i, j) ==>
      Egress(turns[i..j + 1], client, fallback) as real <=
      lim.capacity + Gain(lim.rate, turns[j].charge.now - turns[i].charge.now)
  }

  /** For each client and each window of the run, the cacheable fetches it causes stay, for each of the two buckets that
      answers, within one allowance: so within two whatever store calls raise, and within one while none of its spends
      does. */
  ghost predicate AllWindowsBounded(turns: seq<Turn>, lim: Limits) {
    forall client, fallback, i, j :: WindowBounded(turns, client, fallback, i, j, lim)
  }

  lemma WindowsAreBounded(turns: seq<Turn>, p0: seq<BucketOp>, f0: seq<BucketOp>, ns: string, lim: Limits)
    requires lim.Valid() && OwnNamespace(p0, ns, lim) && OwnNamespace(f0, ns, lim)
    requires AllFair(turns, false, p0, ns, lim) && AllFair(turns, true, f0, ns, lim)
    ensures AllWindowsBounded(turns, lim)
  {
    hide AllFair, OwnNamespace, Egress, Timely, Gain;
    forall client, fallback, i: nat, j: nat | Window(turns, client, i, j)
      ensures WindowBounded(turns, client, fallback, i, j, lim)
    {
      EgressBound(turns, fallback, if fallback then f0 else p0, ns, lim, client, i, j);
    }
  }

  /** What a run has come to: every turn priced on the cache of its time and decided on the buckets of its time, and
      nothing else in either. */
  ghost predicate Ledgered(runner: CheckRunner, limiter: TokenBucket, batches: seq<Batch>, turns: seq<Turn>,
                           es: Entries,
                           p0: seq<BucketOp>, f0: seq<BucketOp>)
    reads runner.cache, limiter.store, limiter.store.primary, limiter.store.fallback
  {
    && runner.cache.Valid() && limiter.store.Valid()
    && AllPriced(runner, batches, turns, es) && runner.cache.entries == CacheNow(runner, batches, turns, es)
    && AllFair(turns, false, p0, limiter.ns, limiter.lim) && AllFair(turns, true, f0, limiter.ns, limiter.lim)
    && limiter.store.primary.trail == p0 + Ops(turns, false, limiter.ns, limiter.lim)
    && limiter.store.fallback.trail == f0 + Ops(turns, true, limiter.ns, limiter.lim)
  }

  /** Serve any clients' batches one after another, from whatever the stores and the cache hold. */
  method Serve(runner: CheckRunner, limiter: TokenBucket, batches: seq<Batch>)
    returns (responses: seq<Response>, ghost turns: seq<Turn>)
    requires runner.cache.Valid() && DistinctNames(runner.checkers)
    requires limiter.store.Valid() && limiter.lim.Valid() && runner.metrics.store != limiter.store.fallback
    requires OwnNamespace(limiter.store.primary.trail, limiter.ns, limiter.lim)
    requires OwnNamespace(limiter.store.fallback.trail, limiter.ns, limiter.lim)
    modifies limiter, limiter.store, limiter.store.primary, limiter.store.fallback, runner.cache, runner.metrics.store
    ensures Ledgered(runner, limiter, batches, turns, old(runner.cache.entries), old(limiter.store.primary.trail),
                     old(limiter.store.fallback.trail))
    ensures Told(responses, turns) && AllWindowsBounded(turns, limiter.lim)
    ensures CountsBalance(old(runner.metrics.store.View())) <==> CountsBalance(runner.metrics.store.View())
  {
    hide CountsBalance, Ledgered, OwnNamespace, DistinctNames, AllWindowsBounded, Told, Distinct, RowsAfter;
    ghost var es, p0, f0 := runner.cache.entries, limiter.store.primary.trail, limiter.store.fallback.trail;
    responses, turns := ServeAll(runner, limiter, batches);
    LedgerIsBounded(runner, limiter, batches, turns, es, p0, f0);
  }

  /** Every caller is told what its turn came to. */
  predicate Told(responses: seq<Response>, turns: seq<Turn>) {
    |responses| == |turns| && forall k :: 0 <= k < |turns| ==> turns[k].allowed == responses[k].Answered?
  }

  method ServeAll(runner: CheckRunner, limiter: TokenBucket, batches: seq<Batch>)
    returns (responses: seq<Response>, ghost turns: seq<Turn>)
    requires runner.cache.Valid() && DistinctNames(runner.checkers)
    requires limiter.store.Valid() && runner.metrics.store != limiter.store.fallback
    modifies limiter, limiter.store, limiter.store.primary, limiter.store.fallback, runner.cache, runner.metrics.store
    ensures Ledgered(runner, limiter, batches, turns, old(runner.cache.entries), old(limiter.store.primary.trail),
                     old(limiter.store.fallback.trail))
    ensures Told(responses, turns)
    ensures CountsBalance(old(runner.metrics.store.View())) <==> CountsBalance(runner.metrics.store.View())
    decreases |batches|
  {
    hide CountsBalance, Ledgered, DistinctNames, Distinct, RowsAfter;
    ghost var es, p0, f0 := runner.cache.entries, limiter.store.primary.trail, limiter.store.fallback.trail;
    if batches == [] {
      NothingServed(runner, limiter);
      return [], [];
    }
    var last := |batches| - 1;
    responses, turns := ServeAll(runner, limiter, batches[..last]);
    var response;
    response, turns := ServeOne(runner, limiter, batches[last], batches[..last], turns, es, p0, f0);
    responses := responses + [response];
    assert batches[..last] + [batches[last]] == batches;
  }

  lemma NothingServed(runner: CheckRunner, limiter: TokenBucket)
    requires runner.cache.Valid() && limiter.store.Valid()
    ensures Ledgered(runner, limiter, [], [], runner.cache.entries, limiter.store.primary.trail,
                     limiter.store.fallback.trail)
  {
  }

  lemma LedgerIsBounded(runner: CheckRunner, limiter: TokenBucket, batches: seq<Batch>, turns: seq<Turn>, es: Entries,
                        p0: seq<BucketOp>, f0: seq<BucketOp>)
    requires Ledgered(runner, limiter, batches, turns, es, p0, f0) && limiter.lim.Valid()
    requires OwnNamespace(p0, limiter.ns, limiter.lim) && OwnNamespace(f0, limiter.ns, limiter.lim)
    ensures AllWindowsBounded(turns, limiter.lim)
  {
    hide AllPriced, CacheNow, AllFair, OwnNamespace, AllWindowsBounded;
    WindowsAreBounded(turns, p0, f0, limiter.ns, limiter.lim);
  }

  /** One more batch extends the run by its turn. */
  method ServeOne(runner: CheckRunner, limiter: TokenBucket, b: Batch, ghost done: seq<Batch>, ghost turns: seq<Turn>,
                  ghost es: Entries, ghost p0: seq<BucketOp>, ghost f0: seq<BucketOp>)
    returns (response: Response, ghost turns': seq<Turn>)
    requires DistinctNames(runner.checkers) && runner.metrics.store != limiter.store.fallback
    requires Ledgered(runner, limiter, done, turns, es, p0, f0)
    modifies limiter, limiter.store, limiter.store.primary, limiter.store.fallback, runner.cache, runner.metrics.store
    ensures Ledgered(runner, limiter, done + [b], turns', es, p0, f0)
    ensures |turns'| == |turns| + 1 && turns'[..|turns|] == turns && turns'[|turns|].allowed == response.Answered?
    ensures CountsBalance(old(runner.metrics.store.View())) <==> CountsBalance(runner.metrics.store.View())
  {
    hide Fair, AllFair, Ops, Priced, AllPriced, CacheNow, CountsBalance, PlanOf;
    ghost var turn, ranges;
    response, turn, ranges := CheckBatch(runner, limiter, b.items, b.a, b.charge, b.weather);
    turns' := turns + [turn];
    TurnAppends(turns, turn, false, p0, limiter.ns, limiter.lim);
    TurnAppends(turns, turn, true, f0, limiter.ns, limiter.lim);
    PriceAppends(runner, done, b, turns, turn, es);
  }

  lemma TurnAppends(turns: seq<Turn>, turn: Turn, fallback: bool, trail: seq<BucketOp>, ns: string, lim: Limits)
    requires AllFair(turns, fallback, trail, ns, lim)
    requires Fair(turn, fallback, trail + Ops(turns, fallback, ns, lim), ns, lim)
    ensures AllFair(turns + [turn], fallback, trail, ns, lim)
    ensures trail + Ops(turns + [turn], fallback, ns, lim) ==
            trail + Ops(turns, fallback, ns, lim) + turn.On(fallback, ns, lim)
  {
    var all := turns + [turn];
    assert all[..|turns|] == turns;
    hide Fair, Ops;
    forall k | 0 <= k < |all|
      ensures Fair(all[k], fallback, trail + Ops(all[..k], fallback, ns, lim), ns, lim)
    {
      if k < |turns| {
        assert all[..k] == turns[..k];
      }
    }
  }

  lemma PriceAppends(runner: CheckRunner, done: seq<Batch>, b: Batch, turns: seq<Turn>, turn: Turn, es: Entries)
    requires AllPriced(runner, done, turns, es) && turn.charge == b.charge
    requires Priced(turn, runner, CacheNow(runner, done, turns, es), b.items, b.a, b.weather)
    ensures AllPriced(runner, done + [b], turns + [turn], es)
    ensures CacheNow(runner, done + [b], turns + [turn], es) ==
            if !turn.allowed then CacheNow(runner, done, turns, es)
            else LeftBy(CacheNow(runner, done, turns, es), PlanOf(runner.checkers, b.items, b.a), runner.cache.enabled,
                        b.weather, runner.cache.maxEntries, runner.cache.ttl)
  {
    hide Priced, CacheNow, LeftBy, PlanOf;
    CacheGrows(runner, done, b, turns, turn, es);
    var batches, all := done + [b], turns + [turn];
    forall k | 0 <= k < |all|
      ensures all[k].charge == batches[k].charge
      ensures Priced(all[k], runner, CacheNow(runner, batches[..k], all[..k], es), batches[k].items, batches[k].a,
                     batches[k].weather)
    {
      if k < |turns| {
        assert all[..k] == turns[..k] && batches[..k] == done[..k];
      } else {
        assert all[..k] == turns && batches[..k] == done;
      }
    }
  }

  lemma CacheGrows(runner: CheckRunner, done: seq<Batch>, b: Batch, turns: seq<Turn>, turn: Turn, es: Entries)
    requires |done| == |turns|
    ensures CacheNow(runner, done + [b], turns + [turn], es) ==
            if !turn.allowed then CacheNow(runner, done, turns, es)
            else LeftBy(CacheNow(runner, done, turns, es), PlanOf(runner.checkers, b.items, b.a), runner.cache.enabled,
                        b.weather, runner.cache.maxEntries, runner.cache.ttl)
  {
    var batches, all, rounds := done + [b], turns + [turn], Accepted(done, turns);
    hide CacheAfter, LeftBy, PlanOf;
    assert batches[..|turns|] == done && all[..|turns|] == turns;
    assert rounds + [] == rounds;
    CacheAfterOneMore(runner.checkers, rounds, Round(b.items, b.a, b.weather), es, runner.cache.enabled,
                      runner.cache.maxEntries, runner.cache.ttl);
  }
}
