/** What one fan-out and its verdicts add to each counter.  Source: amiweak/checks/runner.py:241-313, 405-408. */
module Accounting {
  import opened CheckBase
  import opened Cache
  import opened Checkers
  import opened Plans
  import opened Verdicts
  import opened FanOut
  import opened Tables
  import opened Metrics

  /** How many members satisfy `f`. */
  function CountWhere<T>(s: seq<T>, f: T -> bool): nat {
    if s == [] then 0 else CountWhere(s[..|s| - 1], f) + if f(s[|s| - 1]) then 1 else 0
  }

  function One(b: bool): int { if b then 1 else 0 }

  lemma TotalOfOne(op: Op, name: string, tag: string)
    ensures Total([op], name, tag) == AmountOf(op, name, tag) && Total([], name, tag) == 0
  {
    assert [op][..0] == [];
  }

  lemma CacheTotals(backend: string, hit: bool, name: string, tag: string)
    ensures Total(CacheOps(backend, hit), name, tag) ==
            One(name == (if hit then "cache_hits_total" else "cache_misses_total") && tag == backend)
  {
    TotalOfOne(CacheOps(backend, hit)[0], name, tag);
  }

  lemma AlgorithmTotals(backend: string, algorithm: string, name: string, tag: string)
    ensures Total(AlgorithmOps(backend, algorithm), name, tag) ==
            One(name == "backend_algorithm_total" && tag == backend + ":" + algorithm)
  {
    TotalOfOne(AlgorithmOps(backend, algorithm)[0], name, tag);
  }

  lemma BackendTotals(backend: string, ok: bool, seconds: real, name: string, tag: string)
    ensures Total(BackendOps(backend, ok, seconds), name, tag) ==
            One(name == "backend_requests_total" && tag == backend) +
                One(!ok && name == "backend_errors_total" && tag == backend)
  {
    var request, failure, timing := Incr("backend_requests_total", backend, 1),
        Incr("backend_errors_total", backend, 1), Observe(backend, seconds);
    TotalOfOne(request, name, tag);
    TotalOfOne(failure, name, tag);
    TotalOfOne(timing, name, tag);
    if ok {
      assert BackendOps(backend, ok, seconds) == [request] + [timing];
      TotalsSplit([request], [timing], name, tag);
    } else {
      assert BackendOps(backend, ok, seconds) == ([request] + [failure]) + [timing];
      TotalsSplit([request], [failure], name, tag);
      TotalsSplit([request] + [failure], [timing], name, tag);
    }
  }

  // ----- Cache counters -----

  predicate CacheableOf(p: Planned, backend: string) { p.checker.Cacheable() && p.checker.name == backend }

  /** Per backend, hits are the planned keys the cache answered and misses the other cacheable ones; together they are
      all of the backend's planned cacheable keys. */
  lemma {:induction false} LookupsCount(plan: Plan, es: Entries, enabled: bool, clock: Clock, backend: string)
    ensures var log := LookupLog(plan, es, enabled, clock);
            && Total(log, "cache_hits_total", backend) ==
               CountWhere(plan, (p: Planned) => CacheableOf(p, backend) && Cached(p, es, enabled, clock))
            && Total(log, "cache_misses_total", backend) ==
               CountWhere(plan, (p: Planned) => CacheableOf(p, backend) && !Cached(p, es, enabled, clock))
            && Total(log, "cache_hits_total", backend) + Total(log, "cache_misses_total", backend) ==
               CountWhere(plan, (p: Planned) => CacheableOf(p, backend))
  {
    if plan != [] {
      hide CacheOps, Total, Cached;
      var n := |plan| - 1;
      var p, before := plan[n], LookupLog(plan[..n], es, enabled, clock);
      LookupsCount(plan[..n], es, enabled, clock, backend);
      var hit := Cached(p, es, enabled, clock);
      if p.checker.Cacheable() {
        forall name
          ensures Total(LookupLog(plan, es, enabled, clock), name, backend) == Total(before, name, backend) +
                    One(name == (if hit then "cache_hits_total" else "cache_misses_total") && backend == p.checker.name)
        {
          TotalsSplit(before, CacheOps(p.checker.name, hit), name, backend);
          CacheTotals(p.checker.name, hit, name, backend);
        }
      } else {
        assert before + [] == before;
      }
    } else {
      TotalOfOne(Observe("", 0.0), "cache_hits_total", backend);
      TotalOfOne(Observe("", 0.0), "cache_misses_total", backend);
    }
  }

  // ----- Backend counters -----

  predicate CompletedOf(p: Planned, outcomes: Outcomes, backend: string) {
    p.checker.name == backend && !outcomes(p.key).TimedOut?
  }

  predicate ReturnedOf(p: Planned, outcomes: Outcomes, backend: string) {
    p.checker.name == backend && outcomes(p.key).Returned?
  }

  predicate FailedOf(p: Planned, outcomes: Outcomes, backend: string) {
    CompletedOf(p, outcomes, backend) && (outcomes(p.key).Returned? ==> outcomes(p.key).fetch.error.Some?)
  }

  lemma SettleTotals(p: Planned, o: FetchOutcome, a: Algorithm, seen: set<string>, backend: string)
    ensures var ops, mine := SettleOps(p, o, a, seen), p.checker.name == backend;
            && Total(ops, "backend_requests_total", backend) == One(mine && (o.TimedOut? ==> backend !in seen))
            && Total(ops, "backend_errors_total", backend) ==
               One(mine && (o.TimedOut? ==> backend !in seen) && (o.Returned? ==> o.fetch.error.Some?))
  {
    hide Total, BackendOps, AlgorithmOps;
    forall name | name == "backend_requests_total" || name == "backend_errors_total"
      ensures Total(SettleOps(p, o, a, seen), name, backend) ==
                if o.TimedOut? && p.checker.name in seen then 0
                else One(name == "backend_requests_total" && backend == p.checker.name)
                     + One((o.Returned? ==> o.fetch.error.Some?) && name == "backend_errors_total"
                         && backend == p.checker.name)
    {
      TotalOfOne(Observe("", 0.0), name, backend);
      match o {
        case Returned(fetch, elapsed) =>
          BackendTotals(p.checker.name, fetch.error.None?, elapsed, name, backend);
          AlgorithmTotals(p.checker.name, a.Name(), name, backend);
          TotalsSplit(BackendOps(p.checker.name, fetch.error.None?, elapsed), AlgorithmOps(p.checker.name, a.Name()),
              name, backend);
        case RaisedIn(elapsed) => BackendTotals(p.checker.name, false, elapsed, name, backend);
        case TimedOut(elapsed) => BackendTotals(p.checker.name, false, elapsed, name, backend);
      }
    }
  }

  /** Per backend and fan-out: requests rise by the completed fetches, plus one if any timed out; errors by the
      completed fetches that failed, plus the same one. */
  lemma {:induction false} SettlesCount(pending: Plan, outcomes: Outcomes, a: Algorithm, backend: string)
    ensures var log, late := SettleLog(pending, outcomes, a), One(backend in Late(pending, outcomes));
            && Total(log, "backend_requests_total", backend) ==
               CountWhere(pending, (p: Planned) => CompletedOf(p, outcomes, backend)) + late
            && Total(log, "backend_errors_total", backend) ==
               CountWhere(pending, (p: Planned) => FailedOf(p, outcomes, backend)) + late
  {
    if pending != [] {
      hide SettleOps, Total;
      var n := |pending| - 1;
      var p, before := pending[n], SettleLog(pending[..n], outcomes, a);
      var seen := Late(pending[..n], outcomes);
      SettlesCount(pending[..n], outcomes, a, backend);
      SettleTotals(p, outcomes(p.key), a, seen, backend);
      TotalsSplit(before, SettleOps(p, outcomes(p.key), a, seen), "backend_requests_total", backend);
      TotalsSplit(before, SettleOps(p, outcomes(p.key), a, seen), "backend_errors_total", backend);
      assert backend in Late(pending, outcomes) <==>
          backend in seen || (outcomes(p.key).TimedOut? && p.checker.name == backend) by {
        assert forall q :: q in pending <==> q in pending[..n] || q == p;
      }
    } else {
      TotalOfOne(Observe("", 0.0), "backend_requests_total", backend);
      TotalOfOne(Observe("", 0.0), "backend_errors_total", backend);
    }
  }

  /** The label the counter of one backend's algorithm goes under. */
  function AlgorithmTag(backend: string, a: Algorithm): string {
    match a
    case SHA1 => backend + ":sha1"
    case NTLM => backend + ":ntlm"
  }

  /** The algorithm counter rises by every fetch that returned, returned errors included. */
  lemma {:induction false} AlgorithmsCount(pending: Plan, outcomes: Outcomes, a: Algorithm, backend: string)
    requires forall p :: p in pending ==> ':' !in p.checker.name
    requires ':' !in backend
    ensures Total(SettleLog(pending, outcomes, a), "backend_algorithm_total", AlgorithmTag(backend, a)) ==
            CountWhere(pending, (p: Planned) => ReturnedOf(p, outcomes, backend))
  {
    var name, tag := "backend_algorithm_total", backend + ":" + a.Name();
    assert tag == AlgorithmTag(backend, a);
    TotalOfOne(Observe("", 0.0), name, tag);
    if pending != [] {
      hide Total, SettleOps;
      var n := |pending| - 1;
      var p, before := pending[n], SettleLog(pending[..n], outcomes, a);
      assert p in pending;
      AlgorithmsCount(pending[..n], outcomes, a, backend);
      TotalsSplit(before, SettleOps(p, outcomes(p.key), a, Late(pending[..n], outcomes)), name, tag);
      AlgorithmStep(p, outcomes(p.key), a, Late(pending[..n], outcomes), backend);
    }
  }

  predicate SucceededOf(p: Planned, outcomes: Outcomes, backend: string) {
    ReturnedOf(p, outcomes, backend) && outcomes(p.key).fetch.data.Some?
  }

  lemma {:induction false} FewerSucceed(pending: Plan, outcomes: Outcomes, backend: string)
    ensures var successes := CountWhere(pending, (p: Planned) => SucceededOf(p, outcomes, backend));
            var returned := CountWhere(pending, (p: Planned) => ReturnedOf(p, outcomes, backend));
            && successes <= returned
            && (successes == returned <==>
                forall p :: p in pending && ReturnedOf(p, outcomes, backend) ==> SucceededOf(p, outcomes, backend))
  {
    if pending != [] {
      var n := |pending| - 1;
      FewerSucceed(pending[..n], outcomes, backend);
      assert forall p :: p in pending <==> p in pending[..n] || p == pending[n];
    }
  }

  /** So it counts the successful fetches, as documented, if and only if none of the backend's fetches returned an
      error. */
  lemma AlgorithmsCountSuccesses(pending: Plan, outcomes: Outcomes, a: Algorithm, backend: string)
    requires forall p :: p in pending ==> ':' !in p.checker.name
    requires forall p :: p in pending && outcomes(p.key).Returned? ==> outcomes(p.key).fetch.Proper()
    requires ':' !in backend
    ensures Total(SettleLog(pending, outcomes, a), "backend_algorithm_total", AlgorithmTag(backend, a)) ==
            CountWhere(pending, (p: Planned) => SucceededOf(p, outcomes, backend)) <==>
            forall p :: p in pending && ReturnedOf(p, outcomes, backend) ==> outcomes(p.key).fetch.error.None?
  {
    hide Total, SettleLog, CountWhere;
    AlgorithmsCount(pending, outcomes, a, backend);
    FewerSucceed(pending, outcomes, backend);
  }

  lemma AlgorithmStep(p: Planned, o: FetchOutcome, a: Algorithm, seen: set<string>, backend: string)
    requires ':' !in p.checker.name && ':' !in backend
    ensures Total(SettleOps(p, o, a, seen), "backend_algorithm_total", backend + ":" + a.Name()) ==
              One(p.checker.name == backend && o.Returned?)
  {
    hide Total, BackendOps, AlgorithmOps;
    var name, tag := "backend_algorithm_total", backend + ":" + a.Name();
    TotalOfOne(Observe("", 0.0), name, tag);
    match o {
      case Returned(fetch, elapsed) =>
        BackendTotals(p.checker.name, fetch.error.None?, elapsed, name, tag);
        AlgorithmTotals(p.checker.name, a.Name(), name, tag);
        TotalsSplit(BackendOps(p.checker.name, fetch.error.None?, elapsed), AlgorithmOps(p.checker.name, a.Name()),
            name, tag);
        SuffixCancels(p.checker.name, backend, ":" + a.Name());
        assert p.checker.name + ":" + a.Name() == p.checker.name + (":" + a.Name());
        assert backend + ":" + a.Name() == backend + (":" + a.Name());
      case RaisedIn(elapsed) => BackendTotals(p.checker.name, false, elapsed, name, tag);
      case TimedOut(elapsed) => BackendTotals(p.checker.name, false, elapsed, name, tag);
    }
  }

  lemma SuffixCancels(a: string, b: string, suffix: string)
    ensures a + suffix == b + suffix <==> a == b
  {
    if a + suffix == b + suffix {
      assert a == (a + suffix)[..|a|];
      assert b == (b + suffix)[..|b|];
    }
  }

  // ----- Verdict counters -----

  /** The lookups touch only the cache counters, the settled fetches only the backend ones, the verdicts only the check
      ones. */
  lemma {:induction false} LookupsCountOnly(plan: Plan, es: Entries, enabled: bool, clock: Clock, name: string,
                                            tag: string)
    requires name != "cache_hits_total" && name != "cache_misses_total"
    ensures Total(LookupLog(plan, es, enabled, clock), name, tag) == 0
  {
    if plan != [] {
      hide CacheOps;
      var n := |plan| - 1;
      LookupsCountOnly(plan[..n], es, enabled, clock, name, tag);
      var p, before := plan[n], LookupLog(plan[..n], es, enabled, clock);
      var hit := Cached(p, es, enabled, clock);
      TotalsSplit(before, CacheOps(p.checker.name, hit), name, tag);
      CacheTotals(p.checker.name, hit, name, tag);
      assert before + [] == before;
    }
  }

  lemma {:induction false} SettlesCountOnly(pending: Plan, outcomes: Outcomes, a: Algorithm, name: string,
                                            tag: string)
    requires name != "backend_requests_total" && name != "backend_errors_total" && name != "backend_algorithm_total"
    ensures Total(SettleLog(pending, outcomes, a), name, tag) == 0
  {
    if pending != [] {
      hide BackendOps, AlgorithmOps, Total;
      var n := |pending| - 1;
      SettlesCountOnly(pending[..n], outcomes, a, name, tag);
      var p, before, seen := pending[n], SettleLog(pending[..n], outcomes, a), Late(pending[..n], outcomes);
      var o := outcomes(p.key);
      TotalsSplit(before, SettleOps(p, o, a, seen), name, tag);
      TotalOfOne(Observe("", 0.0), name, tag);
      BackendTotals(p.checker.name, if o.Returned? then o.fetch.error.None? else false, o.elapsed, name, tag);
      if o.Returned? {
        AlgorithmTotals(p.checker.name, a.Name(), name, tag);
        TotalsSplit(BackendOps(p.checker.name, o.fetch.error.None?, o.elapsed), AlgorithmOps(p.checker.name, a.Name()),
            name, tag);
      }
    } else {
      TotalOfOne(Observe("", 0.0), name, tag);
    }
  }

  /** Each item counts once under checks and once under its own verdict. */
  lemma {:induction false} VerdictsCount(outcomes: seq<BatchOutcome>, tag: string)
    ensures Total(VerdictLog(outcomes), "checks_total", "") == |outcomes|
    ensures Total(VerdictLog(outcomes), "verdicts_total", tag) ==
            CountWhere(outcomes, (o: BatchOutcome) => o.evaluation.verdict.Name() == tag)
  {
    TotalOfOne(Observe("", 0.0), "checks_total", "");
    TotalOfOne(Observe("", 0.0), "verdicts_total", tag);
    if outcomes != [] {
      hide CheckOps, Total;
      var n := |outcomes| - 1;
      var verdict := outcomes[n].evaluation.verdict.Name();
      VerdictsCount(outcomes[..n], tag);
      TotalsSplit(VerdictLog(outcomes[..n]), CheckOps(verdict), "checks_total", "");
      TotalsSplit(VerdictLog(outcomes[..n]), CheckOps(verdict), "verdicts_total", tag);
      CheckTotals(verdict, "checks_total", "");
      CheckTotals(verdict, "verdicts_total", tag);
    }
  }

  lemma {:induction false} VerdictsCountOnly(outcomes: seq<BatchOutcome>, name: string, tag: string)
    requires name != "checks_total" && name != "verdicts_total"
    ensures Total(VerdictLog(outcomes), name, tag) == 0
  {
    TotalOfOne(Observe("", 0.0), name, tag);
    if outcomes != [] {
      hide CheckOps, Total;
      var n := |outcomes| - 1;
      var verdict := outcomes[n].evaluation.verdict.Name();
      VerdictsCountOnly(outcomes[..n], name, tag);
      TotalsSplit(VerdictLog(outcomes[..n]), CheckOps(verdict), name, tag);
      CheckTotals(verdict, name, tag);
    }
  }

  lemma BatchTotals(items: int, name: string, tag: string)
    ensures Total(BatchOps(items), name, tag) ==
            One(name == "batch_requests_total" && tag == "") +
            if name == "batch_items_total" && tag == "" then items else 0
  {
    var request, count := Incr("batch_requests_total", "", 1), Incr("batch_items_total", "", items);
    TotalOfOne(request, name, tag);
    TotalOfOne(count, name, tag);
    assert BatchOps(items) == [request] + [count];
    TotalsSplit([request], [count], name, tag);
  }

  // ----- Latency -----

  lemma {:induction false} SecondsSplit(a: seq<Op>, b: seq<Op>, name: string)
    ensures SecondsOf(a + b, name) == SecondsOf(a, name) + SecondsOf(b, name)
  {
    if b == [] {
      assert a + b == a;
    } else {
      var n := |b| - 1;
      assert (a + b)[..|a + b| - 1] == a + b[..n];
      SecondsSplit(a, b[..n], name);
    }
  }

  lemma BackendSeconds(backend: string, ok: bool, seconds: real, name: string)
    ensures SecondsOf(BackendOps(backend, ok, seconds), name) == if name == backend then [seconds] else []
  {
    var counted, timing := BackendOps(backend, ok, seconds), Observe(backend, seconds);
    var n := |counted| - 1;
    assert counted == counted[..n] + [timing] && [timing][..0] == [];
    assert forall op :: op in counted[..n] ==> op.Incr?;
    NoSeconds(counted[..n], name);
  }

  lemma {:induction false} NoSeconds(ops: seq<Op>, name: string)
    requires forall op :: op in ops ==> op.Incr?
    ensures SecondsOf(ops, name) == []
  {
    if ops != [] {
      assert ops[|ops| - 1] in ops && forall op :: op in ops[..|ops| - 1] ==> op in ops;
      NoSeconds(ops[..|ops| - 1], name);
    }
  }

  lemma SettleSeconds(p: Planned, o: FetchOutcome, a: Algorithm, seen: set<string>, backend: string)
    ensures SecondsOf(SettleOps(p, o, a, seen), backend) ==
            if p.checker.name == backend && (o.TimedOut? ==> backend !in seen) then [o.elapsed] else []
  {
    hide BackendOps, AlgorithmOps;
    match o {
      case Returned(fetch, elapsed) =>
        var timed, named := BackendOps(p.checker.name, fetch.error.None?, elapsed),
            AlgorithmOps(p.checker.name, a.Name());
        BackendSeconds(p.checker.name, fetch.error.None?, elapsed, backend);
        SecondsSplit(timed, named, backend);
        AlgorithmIsCounter(p.checker.name, a.Name());
        NoSeconds(named, backend);
      case RaisedIn(elapsed) => BackendSeconds(p.checker.name, false, elapsed, backend);
      case TimedOut(elapsed) => BackendSeconds(p.checker.name, false, elapsed, backend);
    }
  }

  lemma AlgorithmIsCounter(backend: string, algorithm: string)
    ensures forall op :: op in AlgorithmOps(backend, algorithm) ==> op.Incr?
  {
  }

  /** Some fetch of this backend took this long. */
  predicate TookSeconds(pending: Plan, outcomes: Outcomes, backend: string, seconds: real) {
    exists p :: p in pending && p.checker.name == backend && outcomes(p.key).elapsed == seconds
  }

  /** Per backend, one observation for each request counted: how long each completed fetch took, and how long one
      that timed out was waited for if any did. */
  lemma {:induction false} TimingsAreElapsed(pending: Plan, outcomes: Outcomes, a: Algorithm, backend: string)
    ensures var log := SettleLog(pending, outcomes, a);
            var seconds := SecondsOf(log, backend);
            && |seconds| == Total(log, "backend_requests_total", backend)
            && (forall x :: x in seconds ==> TookSeconds(pending, outcomes, backend, x))
            && forall p :: p in pending && CompletedOf(p, outcomes, backend) ==> outcomes(p.key).elapsed in seconds
  {
    TotalOfOne(Observe("", 0.0), "backend_requests_total", backend);
    if pending != [] {
      hide SettleOps, Total;
      var n := |pending| - 1;
      var p, before, seen := pending[n], SettleLog(pending[..n], outcomes, a), Late(pending[..n], outcomes);
      var o := outcomes(p.key);
      TimingsAreElapsed(pending[..n], outcomes, a, backend);
      SettleTotals(p, o, a, seen, backend);
      SettleSeconds(p, o, a, seen, backend);
      TotalsSplit(before, SettleOps(p, o, a, seen), "backend_requests_total", backend);
      SecondsSplit(before, SettleOps(p, o, a, seen), backend);
      hide SecondsOf, Late;
      assert p in pending && forall q :: q in pending <==> q in pending[..n] || q == p;
      forall x | TookSeconds(pending[..n], outcomes, backend, x)
        ensures TookSeconds(pending, outcomes, backend, x)
      {
        var q :| q in pending[..n] && q.checker.name == backend && outcomes(q.key).elapsed == x;
        assert q in pending;
      }
    }
  }

  lemma {:induction false} VerdictsBalance(outcomes: seq<BatchOutcome>)
    ensures VerdictSum(VerdictLog(outcomes)) == |outcomes|
  {
    if outcomes == [] {
      EmptySums(VERDICTS);
    } else {
      var n := |outcomes| - 1;
      var verdict := outcomes[n].evaluation.verdict;
      VerdictsBalance(outcomes[..n]);
      SumsAppend(VerdictLog(outcomes[..n]), CheckOps(verdict.Name()), VERDICTS);
      VerdictIsNamed(verdict);
      CheckKeepsBalance(verdict.Name());
    }
  }

  lemma VerdictIsNamed(v: Verdict)
    ensures v.Name() in VERDICTS
  {
    assert VERDICTS[0] == "safe" && VERDICTS[1] == "leaked" && VERDICTS[2] == "precomputed"
        && VERDICTS[3] == "denylisted";
    assert VERDICTS[4] == "too_short" && VERDICTS[5] == "weak" && VERDICTS[6] == "error";
  }

  lemma {:induction false} EmptySums(names: seq<string>)
    ensures SumOver([], names) == 0
    decreases |names|
  {
    if names != [] {
      EmptySums(names[..|names| - 1]);
    }
  }

  lemma {:induction false} ZeroSums(ops: seq<Op>, names: seq<string>)
    requires forall tag :: Total(ops, "verdicts_total", tag) == 0
    ensures SumOver(ops, names) == 0
    decreases |names|
  {
    if names != [] {
      ZeroSums(ops, names[..|names| - 1]);
    }
  }

  lemma FanOutCountsNoCheck(plan: Plan, es: Entries, enabled: bool, clock: Clock, outcomes: Outcomes, a: Algorithm,
                            name: string, tag: string)
    requires name == "checks_total" || name == "verdicts_total"
    ensures Total(FetchLog(plan, es, enabled, clock, outcomes, a), name, tag) == 0
  {
    var pending := Pending(plan, es, enabled, clock);
    LookupsCountOnly(plan, es, enabled, clock, name, tag);
    SettlesCountOnly(pending, outcomes, a, name, tag);
    TotalsSplit(LookupLog(plan, es, enabled, clock), SettleLog(pending, outcomes, a), name, tag);
  }

  /** A fan-out followed by one check for each item keeps the store's `checks_total` equal to the sum of its
      `verdicts_total`. */
  lemma BatchKeepsBalance(before: Snapshot, after: Snapshot, plan: Plan, es: Entries, enabled: bool, clock: Clock,
                          outcomes: Outcomes, a: Algorithm, results: seq<BatchOutcome>)
    requires SameSums(after, RecordAll(before, FetchLog(plan, es, enabled, clock, outcomes, a) + VerdictLog(results)))
    ensures CountsBalance(before) <==> CountsBalance(after)
  {
    hide Total, FetchLog, VerdictLog, SumOver, RecordAll;
    var fetches := FetchLog(plan, es, enabled, clock, outcomes, a);
    FetchesCountNoVerdict(plan, es, enabled, clock, outcomes, a);
    VerdictsCount(results, "");
    VerdictsBalance(results);
    TotalsSplit(fetches, VerdictLog(results), "checks_total", "");
    SumsAppend(fetches, VerdictLog(results), VERDICTS);
    LogKeepsBalance(before, after, fetches + VerdictLog(results));
  }

  /** The same for one digest. */
  lemma DigestKeepsBalance(before: Snapshot, after: Snapshot, plan: Plan, es: Entries, enabled: bool, clock: Clock,
                           outcomes: Outcomes, a: Algorithm, v: Verdict)
    requires SameSums(after, RecordAll(before, FetchLog(plan, es, enabled, clock, outcomes, a) + CheckOps(v.Name())))
    ensures CountsBalance(before) <==> CountsBalance(after)
  {
    hide Total, FetchLog, CheckOps, SumOver, RecordAll;
    var fetches := FetchLog(plan, es, enabled, clock, outcomes, a);
    FetchesCountNoVerdict(plan, es, enabled, clock, outcomes, a);
    VerdictIsNamed(v);
    CheckKeepsBalance(v.Name());
    TotalsSplit(fetches, CheckOps(v.Name()), "checks_total", "");
    SumsAppend(fetches, CheckOps(v.Name()), VERDICTS);
    LogKeepsBalance(before, after, fetches + CheckOps(v.Name()));
  }

  lemma FetchesCountNoVerdict(plan: Plan, es: Entries, enabled: bool, clock: Clock, outcomes: Outcomes, a: Algorithm)
    ensures Total(FetchLog(plan, es, enabled, clock, outcomes, a), "checks_total", "") == 0
    ensures VerdictSum(FetchLog(plan, es, enabled, clock, outcomes, a)) == 0
  {
    hide Total, FetchLog, SumOver;
    var fetches := FetchLog(plan, es, enabled, clock, outcomes, a);
    forall tag
      ensures Total(fetches, "verdicts_total", tag) == 0
    {
      FanOutCountsNoCheck(plan, es, enabled, clock, outcomes, a, "verdicts_total", tag);
    }
    FanOutCountsNoCheck(plan, es, enabled, clock, outcomes, a, "checks_total", "");
    ZeroSums(fetches, VERDICTS);
  }
}
