/** Conservation: a ResilientStore's merged snapshot after any run and any failure pattern. */
module Resilience {
  import opened Wrappers
  import opened Tables

  const STORE_ERRORS := "store_errors_total"

  const NOTE := Incr(STORE_ERRORS, "", 1)

  /** One call on the resilient store, and whether its primary call raised. */
  datatype Call =
    | Write(op: Op, raised: bool)
    | Read(raised: bool)
    | Limit(raised: bool)

  function ToPrimary(c: Call): seq<Op> {
    if c.Write? && !c.raised then [c.op] else []
  }

  function ToFallback(c: Call): seq<Op> {
    if !c.raised then [] else if c.Write? then [NOTE, c.op] else [NOTE]
  }

  /** What one store receiving everything would be told. */
  function ToOne(c: Call): seq<Op> {
    (if c.raised then [NOTE] else []) + (if c.Write? then [c.op] else [])
  }

  function PrimaryOps(calls: seq<Call>): seq<Op> {
    if calls == [] then [] else PrimaryOps(calls[..|calls| - 1]) + ToPrimary(calls[|calls| - 1])
  }

  function FallbackOps(calls: seq<Call>): seq<Op> {
    if calls == [] then [] else FallbackOps(calls[..|calls| - 1]) + ToFallback(calls[|calls| - 1])
  }

  function OneStoreOps(calls: seq<Call>): seq<Op> {
    if calls == [] then [] else OneStoreOps(calls[..|calls| - 1]) + ToOne(calls[|calls| - 1])
  }

  function Raised(calls: seq<Call>): nat {
    if calls == [] then 0 else Raised(calls[..|calls| - 1]) + if calls[|calls| - 1].raised then 1 else 0
  }

  predicate PlausibleCall(c: Call) { c.Write? ==> Plausible(c.op) }

  lemma ReplayOne(ops: seq<Op>, op: Op, backing: Backing)
    ensures Replay(ops + [op], backing) == Recorded(Replay(ops, backing), op, backing)
  {
    assert (ops + [op])[..|ops|] == ops;
  }

  lemma ReplayTwo(ops: seq<Op>, a: Op, b: Op, backing: Backing)
    ensures Replay(ops + [a, b], backing) == Recorded(Recorded(Replay(ops, backing), a, backing), b, backing)
  {
    assert ops + [a, b] == (ops + [a]) + [b];
    ReplayOne(ops, a, backing);
    ReplayOne(ops + [a], b, backing);
  }

  lemma SumsTravel(a: Snapshot, b: Snapshot, op: Op)
    requires SameSums(a, b)
    ensures SameSums(Recorded(a, op, Memory), Recorded(b, op, Memory))
  {
    hide Bumped, Timed;
  }

  /** The states of primary, fallback and the single reference store after a run. */
  ghost predicate Balanced(p: Snapshot, f: Snapshot, one: Snapshot) {
    NonNegative(p) && NonNegative(f) && SameSums(Merge(p, f), one)
  }

  lemma BalancedFallback(p: Snapshot, f: Snapshot, one: Snapshot, op: Op)
    requires Balanced(p, f, one) && Plausible(op)
    ensures Balanced(p, Recorded(f, op, Memory), Recorded(one, op, Memory))
  {
    RecordRight(p, f, op);
    RecordKeepsNonNegative(f, op, Memory);
    SumsTravel(Merge(p, f), one, op);
  }

  lemma BalancedPrimary(p: Snapshot, f: Snapshot, one: Snapshot, op: Op)
    requires Balanced(p, f, one) && Plausible(op)
    ensures Balanced(Recorded(p, op, Sqlite), f, Recorded(one, op, Memory))
  {
    RecordLeft(p, f, op);
    RecordKeepsNonNegative(p, op, Sqlite);
    SumsTravel(Merge(p, f), one, op);
  }

  /** The merge of what each store received equals one store that received every operation. */
  lemma {:induction false} Conservation(calls: seq<Call>)
    requires forall c :: c in calls ==> PlausibleCall(c)
    ensures Balanced(Replay(PrimaryOps(calls), Sqlite), Replay(FallbackOps(calls), Memory),
              Replay(OneStoreOps(calls), Memory))
  {
    if calls == [] {
      assert SameSums(Merge(EMPTY, EMPTY), EMPTY);
    } else {
      hide Recorded, Balanced, Replay;
      var before, c := calls[..|calls| - 1], calls[|calls| - 1];
      assert c in calls;
      Conservation(before);
      var ps, fs, os := PrimaryOps(before), FallbackOps(before), OneStoreOps(before);
      var p, f, one := Replay(ps, Sqlite), Replay(fs, Memory), Replay(os, Memory);
      if c.raised {
        BalancedFallback(p, f, one, NOTE);
        if c.Write? {
          BalancedFallback(p, Recorded(f, NOTE, Memory), Recorded(one, NOTE, Memory), c.op);
          ReplayTwo(fs, NOTE, c.op, Memory);
          ReplayTwo(os, NOTE, c.op, Memory);
          assert ToOne(c) == [NOTE, c.op];
        } else {
          ReplayOne(fs, NOTE, Memory);
          ReplayOne(os, NOTE, Memory);
          assert ToOne(c) == [NOTE];
        }
        assert PrimaryOps(calls) == ps;
      } else {
        if c.Write? {
          BalancedPrimary(p, f, one, c.op);
          ReplayOne(ps, c.op, Sqlite);
          ReplayOne(os, c.op, Memory);
          assert ToOne(c) == [c.op];
        } else {
          assert PrimaryOps(calls) == ps && OneStoreOps(calls) == os + [] == os;
        }
        assert FallbackOps(calls) == fs;
      }
    }
  }

  // ----- Many workers over one primary -----

  predicate AllPlausible(ops: seq<Op>) { forall op :: op in ops ==> Plausible(op) }

  /** What a scrape shows never depends on when or from whom the two stores got their operations. */
  lemma {:induction false} MergeIsOneStore(ps: seq<Op>, fs: seq<Op>)
    requires AllPlausible(ps) && AllPlausible(fs)
    ensures Balanced(Replay(ps, Sqlite), Replay(fs, Memory), Replay(ps + fs, Memory))
    decreases |ps| + |fs|
  {
    if fs != [] {
      var n := |fs| - 1;
      assert fs[n] in fs && ps + fs == (ps + fs[..n]) + [fs[n]];
      MergeIsOneStore(ps, fs[..n]);
      ReplayOne(ps + fs[..n], fs[n], Memory);
      hide Balanced, Recorded;
      BalancedFallback(Replay(ps, Sqlite), Replay(fs[..n], Memory), Replay(ps + fs[..n], Memory), fs[n]);
    } else if ps != [] {
      var n := |ps| - 1;
      assert ps[n] in ps && ps + [] == ps && ps[..n] + [] == ps[..n];
      MergeIsOneStore(ps[..n], []);
      hide Balanced, Recorded;
      BalancedPrimary(Replay(ps[..n], Sqlite), EMPTY, Replay(ps[..n], Memory), ps[n]);
    } else {
      assert SameSums(Merge(EMPTY, EMPTY), EMPTY);
    }
  }

  /** A call and the worker it came from. */
  datatype WorkerCall = WorkerCall(w: nat, call: Call)

  function AllCalls(run: seq<WorkerCall>): seq<Call> {
    if run == [] then [] else AllCalls(run[..|run| - 1]) + [run[|run| - 1].call]
  }

  function CallsOf(run: seq<WorkerCall>, w: nat): seq<Call> {
    if run == [] then []
    else CallsOf(run[..|run| - 1], w) + if run[|run| - 1].w == w then [run[|run| - 1].call] else []
  }

  /** What worker w can see of a run: everything but what other workers' fallbacks hold. */
  function Visible(run: seq<WorkerCall>, w: nat): seq<Call> {
    if run == [] then []
    else
      var c := run[|run| - 1];
      Visible(run[..|run| - 1], w) + if c.w == w || !c.call.raised then [c.call] else []
  }

  lemma CallAppend(calls: seq<Call>, c: Call)
    ensures PrimaryOps(calls + [c]) == PrimaryOps(calls) + ToPrimary(c)
    ensures FallbackOps(calls + [c]) == FallbackOps(calls) + ToFallback(c)
    ensures !c.raised ==> FallbackOps(calls + [c]) == FallbackOps(calls)
    ensures c.raised ==> PrimaryOps(calls + [c]) == PrimaryOps(calls)
  {
    assert (calls + [c])[..|calls|] == calls;
  }

  lemma {:induction false} VisibleOps(run: seq<WorkerCall>, w: nat)
    ensures PrimaryOps(Visible(run, w)) == PrimaryOps(AllCalls(run))
    ensures FallbackOps(Visible(run, w)) == FallbackOps(CallsOf(run, w))
    ensures forall c :: c in Visible(run, w) ==> c in AllCalls(run)
  {
    hide PrimaryOps, FallbackOps, ToPrimary, ToFallback;
    if run != [] {
      var before, c := run[..|run| - 1], run[|run| - 1];
      VisibleOps(before, w);
      var seen, all, own := Visible(before, w), AllCalls(before), CallsOf(before, w);
      CallAppend(seen, c.call);
      CallAppend(all, c.call);
      CallAppend(own, c.call);
      assert AllCalls(run) == all + [c.call];
      assert Visible(run, w) == if c.w == w || !c.call.raised then seen + [c.call] else seen;
      assert CallsOf(run, w) == if c.w == w then own + [c.call] else own;
    }
  }

  /** With any number of workers over one primary, a worker's scrape shows one store that received, in order, every
      call of every worker but those that other workers' fallbacks hold. */
  lemma FleetConservation(run: seq<WorkerCall>, w: nat)
    requires forall c :: c in AllCalls(run) ==> PlausibleCall(c)
    ensures Balanced(Replay(PrimaryOps(AllCalls(run)), Sqlite), Replay(FallbackOps(CallsOf(run, w)), Memory),
                     Replay(OneStoreOps(Visible(run, w)), Memory))
  {
    VisibleOps(run, w);
    Conservation(Visible(run, w));
  }

  /** The operations of a run, whatever became of each. */
  function Written(calls: seq<Call>): seq<Op> {
    if calls == [] then [] else Written(calls[..|calls| - 1]) + Wrote(calls[|calls| - 1])
  }

  lemma TotalsAppend(ops: seq<Op>, op: Op, name: string, tag: string)
    ensures Total(ops + [op], name, tag) == Total(ops, name, tag) + AmountOf(op, name, tag)
    ensures SecondsOf(ops + [op], name) == SecondsOf(ops, name) +
              if op.Observe? && op.name == name then [op.seconds] else []
  {
    assert (ops + [op])[..|ops|] == ops;
  }

  function Wrote(c: Call): seq<Op> {
    if c.Write? then [c.op] else []
  }

  function Noted(c: Call, name: string, tag: string): int {
    if c.raised && name == STORE_ERRORS && tag == "" then 1 else 0
  }

  lemma TotalsStep(os: seq<Op>, ws: seq<Op>, c: Call, name: string, tag: string)
    ensures Total(os + ToOne(c), name, tag) - Total(os, name, tag) ==
            Total(ws + Wrote(c), name, tag) - Total(ws, name, tag) + Noted(c, name, tag)
    ensures SecondsOf(os, name) == SecondsOf(ws, name) ==>
              SecondsOf(os + ToOne(c), name) == SecondsOf(ws + Wrote(c), name)
  {
    hide Total, SecondsOf;
    TotalsAppend(os, NOTE, name, tag);
    var noted := if c.raised then os + [NOTE] else os;
    if c.Write? {
      TotalsAppend(noted, c.op, name, tag);
      TotalsAppend(ws, c.op, name, tag);
      assert os + ToOne(c) == noted + [c.op];
    } else {
      assert os + ToOne(c) == noted && ws + [] == ws;
    }
    assert SecondsOf(os, name) + [] == SecondsOf(os, name);
  }

  lemma {:induction false} TotalsOfOneStore(calls: seq<Call>, name: string, tag: string)
    ensures Total(OneStoreOps(calls), name, tag) ==
            Total(Written(calls), name, tag) + if name == "store_errors_total" && tag == "" then Raised(calls) else 0
    ensures SecondsOf(OneStoreOps(calls), name) == SecondsOf(Written(calls), name)
  {
    if calls != [] {
      hide Total, SecondsOf;
      var before, c := calls[..|calls| - 1], calls[|calls| - 1];
      TotalsOfOneStore(before, name, tag);
      TotalsStep(OneStoreOps(before), Written(before), c, name, tag);
    }
  }

  /** The snapshot a scrape sees, in terms of what callers did: every counter is the sum of the amounts
      handed in, and the error counter adds exactly the number of raised primary calls. */
  lemma MergedTotals(calls: seq<Call>, name: string, tag: string)
    requires forall c :: c in calls ==> PlausibleCall(c)
    ensures var seen := Merge(Replay(PrimaryOps(calls), Sqlite), Replay(FallbackOps(calls), Memory));
            var xs, entry := SecondsOf(Written(calls), name), Lookup(seen.latency, name);
            && Count(seen, name, tag) ==
               Total(Written(calls), name, tag) +
                   (if name == "store_errors_total" && tag == "" then Raised(calls) else 0)
            && (entry.None? <==> xs == [])
            && (entry.Some? ==>
                entry.value.count == |xs| && entry.value.sum == SumOf(xs) && IsMaximum(entry.value.max, xs))
  {
    Conservation(calls);
    TotalsOfOneStore(calls, name, tag);
    CountIsTotal(OneStoreOps(calls), name, tag, Memory);
    OneStorePlausible(calls);
    PlausibleSeconds(OneStoreOps(calls), name);
    LatencySummarises(OneStoreOps(calls), name, Memory);
  }

  lemma {:induction false} OneStorePlausible(calls: seq<Call>)
    requires forall c :: c in calls ==> PlausibleCall(c)
    ensures forall op :: op in OneStoreOps(calls) ==> Plausible(op)
  {
    if calls != [] {
      assert calls[|calls| - 1] in calls;
      OneStorePlausible(calls[..|calls| - 1]);
    }
  }

  // ----- Health is preferred, not merged -----

  /** The last health write for `name` among those whose primary call did, or did not, raise. */
  function LastHealth(calls: seq<Call>, name: string, raised: bool): Option<Health> {
    if calls == [] then None
    else
      var c := calls[|calls| - 1];
      if c.Write? && c.op.SetHealth? && c.op.name == name && c.raised == raised
      then Some(Health(c.op.lastOk, c.op.lastError))
      else LastHealth(calls[..|calls| - 1], name, raised)
  }

  function Heard(op: Op, name: string, before: Option<Health>): Option<Health> {
    if op.SetHealth? && op.name == name then Some(Health(op.lastOk, op.lastError)) else before
  }

  lemma HealthAppend(ops: seq<Op>, op: Op, name: string, backing: Backing)
    ensures Lookup(Replay(ops + [op], backing).health, name) ==
              Heard(op, name, Lookup(Replay(ops, backing).health, name))
  {
    ReplayOne(ops, op, backing);
  }

  lemma {:induction false} PrimaryHealth(calls: seq<Call>, name: string)
    ensures Lookup(Replay(PrimaryOps(calls), Sqlite).health, name) == LastHealth(calls, name, false)
  {
    if calls != [] {
      var before, c := calls[..|calls| - 1], calls[|calls| - 1];
      PrimaryHealth(before, name);
      hide Replay;
      if c.Write? && !c.raised {
        HealthAppend(PrimaryOps(before), c.op, name, Sqlite);
      } else {
        assert PrimaryOps(calls) == PrimaryOps(before);
      }
    }
  }

  lemma {:induction false} FallbackHealth(calls: seq<Call>, name: string)
    ensures Lookup(Replay(FallbackOps(calls), Memory).health, name) == LastHealth(calls, name, true)
  {
    if calls != [] {
      var before, c := calls[..|calls| - 1], calls[|calls| - 1];
      FallbackHealth(before, name);
      var fs := FallbackOps(before);
      hide Replay;
      HealthAppend(fs, NOTE, name, Memory);
      if !c.raised {
        assert FallbackOps(calls) == fs;
      } else if c.Write? {
        HealthAppend(fs + [NOTE], c.op, name, Memory);
        assert FallbackOps(calls) == (fs + [NOTE]) + [c.op];
      }
    }
  }

  /** Whatever reached the primary wins, however old; the fallback answers only for backends the primary never saw. */
  lemma MergedHealth(calls: seq<Call>, name: string)
    ensures Lookup(Merge(Replay(PrimaryOps(calls), Sqlite), Replay(FallbackOps(calls), Memory)).health, name) ==
            if LastHealth(calls, name, false).Some? then LastHealth(calls, name, false)
                else LastHealth(calls, name, true)
  {
    PrimaryHealth(calls, name);
    FallbackHealth(calls, name);
  }
}
