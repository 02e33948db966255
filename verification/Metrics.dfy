/** The counters behind /metrics.  Source: amiweak/metrics.py:37-69. */
module Metrics {
  import opened Wrappers
  import opened Tables
  import opened Resilience
  import opened Stores

  /** The effect of a list of store operations. */
  function RecordAll(s: Snapshot, ops: seq<Op>): Snapshot {
    if ops == [] then s else Recorded(RecordAll(s, ops[..|ops| - 1]), ops[|ops| - 1], Memory)
  }

  lemma RecordOneMore(s: Snapshot, ops: seq<Op>, op: Op)
    ensures RecordAll(s, ops + [op]) == Recorded(RecordAll(s, ops), op, Memory)
  {
    assert (ops + [op])[..|ops|] == ops;
  }

  lemma {:induction false} RecordAppend(s: Snapshot, a: seq<Op>, b: seq<Op>)
    ensures RecordAll(s, a + b) == RecordAll(RecordAll(s, a), b)
  {
    hide Recorded;
    if b == [] {
      assert a + b == a;
    } else {
      var n := |b| - 1;
      assert a + b == (a + b[..n]) + [b[n]];
      RecordOneMore(s, a + b[..n], b[n]);
      RecordAppend(s, a, b[..n]);
    }
  }

  /** Each counter moves by what the operations add to it. */
  lemma {:induction false} RecordedTotals(s: Snapshot, ops: seq<Op>, name: string, tag: string)
    ensures Count(RecordAll(s, ops), name, tag) == Count(s, name, tag) + Total(ops, name, tag)
  {
    if ops != [] {
      RecordedTotals(s, ops[..|ops| - 1], name, tag);
    }
  }

  lemma {:induction false} SumsTravelAll(a: Snapshot, b: Snapshot, ops: seq<Op>)
    requires SameSums(a, b)
    ensures SameSums(RecordAll(a, ops), RecordAll(b, ops))
  {
    hide Recorded;
    if ops != [] {
      SumsTravelAll(a, b, ops[..|ops| - 1]);
      SumsTravel(RecordAll(a, ops[..|ops| - 1]), RecordAll(b, ops[..|ops| - 1]), ops[|ops| - 1]);
    }
  }

  // ----- What each record_* adds -----

  function CheckOps(verdict: string): seq<Op> {
    [Incr("checks_total", "", 1), Incr("verdicts_total", verdict, 1)]
  }

  /** Counters and latency of one backend call; health is written beside them. */
  function BackendOps(name: string, ok: bool, seconds: real): seq<Op> {
    [Incr("backend_requests_total", name, 1)] + (if ok then [] else [Incr("backend_errors_total", name, 1)]) +
        [Observe(name, seconds)]
  }

  function CacheOps(name: string, hit: bool): seq<Op> {
    [Incr(if hit then "cache_hits_total" else "cache_misses_total", name, 1)]
  }

  function BatchOps(items: int): seq<Op> {
    [Incr("batch_requests_total", "", 1), Incr("batch_items_total", "", items)]
  }

  function AlgorithmOps(name: string, algorithm: string): seq<Op> {
    [Incr("backend_algorithm_total", name + ":" + algorithm, 1)]
  }

  class Recorder {
    const store: MemoryStore

    constructor (store: MemoryStore)
      ensures this.store == store
    {
      this.store := store;
    }

    method RecordCheck(verdict: string)
      modifies store`counters
      ensures store.View() == RecordAll(old(store.View()), CheckOps(verdict))
    {
      TwoOps(store.View(), Incr("checks_total", "", 1), Incr("verdicts_total", verdict, 1));
      hide Recorded, RecordAll;
      store.Incr("checks_total", "", 1);
      store.Incr("verdicts_total", verdict, 1);
    }

    /** A failure keeps the backend's last success. */
    method RecordBackend(name: string, ok: bool, seconds: real, error: Option<string>, nowIso: string)
      modifies store`counters, store`latency, store`health
      ensures SameSums(store.View(), RecordAll(old(store.View()), BackendOps(name, ok, seconds)))
      ensures ok ==> store.health == old(store.health)[name := Health(Some(nowIso), None)]
      ensures !ok && name in old(store.health) ==>
                store.health == old(store.health)[name := Health(old(store.health)[name].lastOk, error)]
      ensures !ok && name !in old(store.health) ==> store.health == old(store.health)[name := Health(None, error)]
    {
      ghost var start := store.View();
      BackendParts(start, name, ok, seconds);
      hide RecordAll;
      store.Incr("backend_requests_total", name, 1);
      if !ok {
        store.Incr("backend_errors_total", name, 1);
      }
      store.Observe(name, seconds);
      if ok {
        store.SetHealth(name, Some(nowIso), None);
      } else {
        var state := store.TakeSnapshot();
        var existing := Lookup(state.health, name);
        store.SetHealth(name, if existing.Some? then existing.value.lastOk else None, error);
      }
    }

    method RecordCache(name: string, hit: bool)
      modifies store`counters
      ensures store.View() == RecordAll(old(store.View()), CacheOps(name, hit))
    {
      OneOp(store.View(), Incr(if hit then "cache_hits_total" else "cache_misses_total", name, 1));
      store.Incr(if hit then "cache_hits_total" else "cache_misses_total", name, 1);
    }

    method RecordBatch(items: int)
      modifies store`counters
      ensures store.View() == RecordAll(old(store.View()), BatchOps(items))
    {
      TwoOps(store.View(), Incr("batch_requests_total", "", 1), Incr("batch_items_total", "", items));
      hide Recorded, RecordAll;
      store.Incr("batch_requests_total", "", 1);
      store.Incr("batch_items_total", "", items);
    }

    method RecordAlgorithm(name: string, algorithm: string)
      modifies store`counters
      ensures store.View() == RecordAll(old(store.View()), AlgorithmOps(name, algorithm))
    {
      OneOp(store.View(), Incr("backend_algorithm_total", name + ":" + algorithm, 1));
      store.Incr("backend_algorithm_total", name + ":" + algorithm, 1);
    }
  }

  lemma OneOp(s: Snapshot, a: Op)
    ensures RecordAll(s, [a]) == Recorded(s, a, Memory)
  {
    assert [a][..0] == [];
    assert RecordAll(s, [a][..0]) == s;
  }

  lemma TwoOps(s: Snapshot, a: Op, b: Op)
    ensures RecordAll(s, [a, b]) == Recorded(Recorded(s, a, Memory), b, Memory)
  {
    OneOp(s, a);
    assert [a, b] == [a] + [b];
    RecordOneMore(s, [a], b);
  }

  lemma BackendParts(s: Snapshot, name: string, ok: bool, seconds: real)
    ensures var requested := Recorded(s, Incr("backend_requests_total", name, 1), Memory);
            var counted := if ok then requested else Recorded(requested, Incr("backend_errors_total", name, 1), Memory);
            RecordAll(s, BackendOps(name, ok, seconds)) == Recorded(counted, Observe(name, seconds), Memory)
  {
    var request, failure, timing := Incr("backend_requests_total", name, 1), Incr("backend_errors_total", name, 1),
        Observe(name, seconds);
    if ok {
      assert BackendOps(name, ok, seconds) == [request, timing];
      TwoOps(s, request, timing);
    } else {
      assert BackendOps(name, ok, seconds) == [request, failure] + [timing];
      TwoOps(s, request, failure);
      RecordOneMore(s, [request, failure], timing);
    }
  }

  // ----- Checks equal the sum of verdicts -----

  const VERDICTS := ["safe", "leaked", "precomputed", "denylisted", "too_short", "weak", "error"]

  function SumOver(ops: seq<Op>, names: seq<string>): int {
    if names == [] then 0 else SumOver(ops, names[..|names| - 1]) + Total(ops, "verdicts_total", names[|names| - 1])
  }

  /** The sum of `verdicts_total`. */
  function VerdictSum(ops: seq<Op>): int {
    SumOver(ops, VERDICTS)
  }

  lemma SumsAppend(ops: seq<Op>, more: seq<Op>, names: seq<string>)
    ensures SumOver(ops + more, names) == SumOver(ops, names) + SumOver(more, names)
    decreases |names|
  {
    if names != [] {
      SumsAppend(ops, more, names[..|names| - 1]);
      TotalsSplit(ops, more, "verdicts_total", names[|names| - 1]);
    }
  }

  lemma {:induction false} TotalsSplit(a: seq<Op>, b: seq<Op>, name: string, tag: string)
    ensures Total(a + b, name, tag) == Total(a, name, tag) + Total(b, name, tag)
  {
    if b == [] {
      assert a + b == a;
    } else {
      var n := |b| - 1;
      assert a + b == (a + b[..n]) + [b[n]];
      assert ((a + b[..n]) + [b[n]])[..|a + b[..n]|] == a + b[..n];
      TotalsSplit(a, b[..n], name, tag);
    }
  }

  lemma CheckTotals(verdict: string, name: string, tag: string)
    ensures Total(CheckOps(verdict), name, tag) ==
            (if name == "checks_total" && tag == "" then 1 else 0) +
                (if name == "verdicts_total" && tag == verdict then 1 else 0)
  {
    var a, b := Incr("checks_total", "", 1), Incr("verdicts_total", verdict, 1);
    assert [a, b][..1] == [a] && [a][..0] == [];
    assert Total([a], name, tag) == AmountOf(a, name, tag);
  }

  lemma {:induction false} CheckSums(verdict: string, names: seq<string>)
    requires forall i, j :: 0 <= i < j < |names| ==> names[i] != names[j]
    ensures SumOver(CheckOps(verdict), names) == if verdict in names then 1 else 0
    decreases |names|
  {
    hide CheckOps, Total;
    if names != [] {
      var n := |names| - 1;
      CheckSums(verdict, names[..n]);
      CheckTotals(verdict, "verdicts_total", names[n]);
      assert verdict in names <==> verdict in names[..n] || verdict == names[n];
    }
  }

  /** The sum of a store's counters under these labels of `verdicts_total`. */
  function CountsOver(s: Snapshot, names: seq<string>): int {
    if names == [] then 0
    else CountsOver(s, names[..|names| - 1]) + Count(s, "verdicts_total", names[|names| - 1])
  }

  /** What /metrics shows: as many checks as verdicts. */
  predicate CountsBalance(s: Snapshot) {
    Count(s, "checks_total", "") == CountsOver(s, VERDICTS)
  }

  lemma {:induction false} RecordedSums(s: Snapshot, ops: seq<Op>, names: seq<string>)
    ensures CountsOver(RecordAll(s, ops), names) == CountsOver(s, names) + SumOver(ops, names)
    decreases |names|
  {
    if names != [] {
      RecordedSums(s, ops, names[..|names| - 1]);
      RecordedTotals(s, ops, "verdicts_total", names[|names| - 1]);
    }
  }

  lemma {:induction false} SameCounts(a: Snapshot, b: Snapshot, names: seq<string>)
    requires SameSums(a, b)
    ensures CountsOver(a, names) == CountsOver(b, names)
    decreases |names|
  {
    if names != [] {
      SameCounts(a, b, names[..|names| - 1]);
    }
  }

  /** Operations that add as many checks as verdicts keep a store balanced. */
  lemma LogKeepsBalance(before: Snapshot, after: Snapshot, ops: seq<Op>)
    requires SameSums(after, RecordAll(before, ops)) && Total(ops, "checks_total", "") == VerdictSum(ops)
    ensures CountsBalance(before) <==> CountsBalance(after)
  {
    hide Total, SumOver, CountsOver, RecordAll;
    RecordedTotals(before, ops, "checks_total", "");
    RecordedSums(before, ops, VERDICTS);
    SameCounts(after, RecordAll(before, ops), VERDICTS);
  }

  /** One recorded check keeps `checks_total` equal to the sum of `verdicts_total`. */
  lemma CheckKeepsBalance(verdict: string)
    requires verdict in VERDICTS
    ensures Total(CheckOps(verdict), "checks_total", "") == 1 == VerdictSum(CheckOps(verdict))
  {
    CheckTotals(verdict, "checks_total", "");
    CheckSums(verdict, VERDICTS);
  }
}
