/** The token bucket of one key: what a spend and an eviction do to its row, and what whole runs guarantee.

    A row is the `(tokens, last_seen)` pair of amiweak/store.py.  Runs are sequences of events in the
    order in which the store applied them; clock readings are arbitrary unless a lemma says otherwise. */
module Buckets {
  import opened Wrappers

  datatype Row = Row(tokens: real, seen: real)

  /** The numbers a TokenBucket works with; `per` is the window in seconds. */
  datatype Limits = Limits(capacity: real, rate: real, per: real) {
    ghost predicate Valid() { rate > 0.0 && per > 0.0 && rate * per == capacity }

    function IdleTtl(): real { per * 10.0 }
  }

  /** TokenBucket.__init__: every configuration yields valid limits. */
  function Configured(requests: int, perSeconds: int): (lim: Limits)
    requires requests > 0 && perSeconds > 0
    ensures lim.Valid() && lim.capacity == requests as real && lim.per == perSeconds as real
  {
    Limits(requests as real, requests as real / perSeconds as real, perSeconds as real)
  }

  /** What a bucket refills in `dt` seconds.  Proofs hide the product and use the three laws below it. */
  function Gain(rate: real, dt: real): real { dt * rate }

  lemma GainAdds(rate: real, a: real, b: real)
    ensures Gain(rate, a + b) == Gain(rate, a) + Gain(rate, b)
    ensures Gain(rate, 0.0) == 0.0
    ensures Gain(rate, -a) == -Gain(rate, a)
  {
  }

  lemma GainGrows(rate: real, a: real, b: real)
    requires rate > 0.0 && a <= b
    ensures Gain(rate, a) <= Gain(rate, b)
    ensures a < b ==> Gain(rate, a) < Gain(rate, b)
  {
  }

  /** Whole and fractional windows, in tokens. */
  lemma GainPerWindow(lim: Limits, k: real)
    requires lim.Valid()
    ensures Gain(lim.rate, k * lim.per) == k * lim.capacity && lim.capacity > 0.0
  {
    assert k * lim.per * lim.rate == k * (lim.rate * lim.per);
  }

  /** A store's answer to `spend`: the decision and the row it leaves behind. */
  function Spent(row: Option<Row>, cost: real, capacity: real, rate: real, now: real): (bool, Row) {
    var was := row.GetOr(Row(capacity, now));
    var tokens := Min(capacity, was.tokens + Gain(rate, now - was.seen));
    if tokens < cost then (false, Row(tokens, now)) else (true, Row(tokens - cost, now))
  }

  /** One event on one key.  `Evict` carries the clock reading behind the cutoff, and whether this store
      swept at all (a MemoryStore below 1024 buckets does not). */
  datatype Event =
    | Spend(cost: real, now: real)
    | Evict(now: real, sweep: bool)

  predicate Stale(row: Row, now: real, lim: Limits) {
    row.seen < now - lim.IdleTtl()
  }

  function Apply(row: Option<Row>, e: Event, lim: Limits): Option<Row> {
    match e
    case Spend(cost, now) => Some(Spent(row, cost, lim.capacity, lim.rate, now).1)
    case Evict(now, sweep) => if sweep && row.Some? && Stale(row.value, now, lim) then None else row
  }

  predicate Grants(row: Option<Row>, e: Event, lim: Limits)
  {
    e.Spend? && Spent(row, e.cost, lim.capacity, lim.rate, e.now).0
  }

  function RowAfter(row: Option<Row>, evs: seq<Event>, lim: Limits): Option<Row>
    decreases |evs|
  {
    if evs == [] then row else RowAfter(Apply(row, evs[0], lim), evs[1..], lim)
  }

  /** The decision stream; an eviction decides nothing and reads `false`. */
  function Decisions(row: Option<Row>, evs: seq<Event>, lim: Limits): (ds: seq<bool>)
    ensures |ds| == |evs|
    ensures forall k :: 0 <= k < |evs| && evs[k].Evict? ==> !ds[k]
    decreases |evs|
  {
    if evs == [] then [] else [Grants(row, evs[0], lim)] + Decisions(Apply(row, evs[0], lim), evs[1..], lim)
  }

  /** Total cost of the events whose decision is `true`. */
  function GrantedCost(evs: seq<Event>, ds: seq<bool>): real
    requires |evs| == |ds|
    requires forall k :: 0 <= k < |evs| && evs[k].Evict? ==> !ds[k]
  {
    if evs == [] then 0.0 else (if ds[0] then evs[0].cost else 0.0) + GrantedCost(evs[1..], ds[1..])
  }

  lemma {:induction false} RunSplits(row: Option<Row>, evs: seq<Event>, k: nat, lim: Limits)
    requires k <= |evs|
    ensures RowAfter(row, evs, lim) == RowAfter(RowAfter(row, evs[..k], lim), evs[k..], lim)
    ensures Decisions(row, evs, lim) ==
              Decisions(row, evs[..k], lim) + Decisions(RowAfter(row, evs[..k], lim), evs[k..], lim)
    decreases k
  {
    hide Gain, Spent;
    if k > 0 {
      assert evs[..k][1..] == evs[1..][..k - 1] && evs[k..] == evs[1..][k - 1..];
      RunSplits(Apply(row, evs[0], lim), evs[1..], k - 1, lim);
    } else {
      assert evs[..0] == [] && evs[0..] == evs;
    }
  }

  // ----- The rate bound, for any clock -----

  predicate NeverSweeps(evs: seq<Event>) {
    forall k :: 0 <= k < |evs| && evs[k].Evict? ==> !evs[k].sweep
  }

  /** The potential `tokens - rate * last_seen` after paying for every grant never increases, for any clock. */
  lemma {:induction false} PotentialNeverIncreases(row: Row, evs: seq<Event>, lim: Limits)
    requires NeverSweeps(evs)
    ensures RowAfter(Some(row), evs, lim).Some?
    ensures var end := RowAfter(Some(row), evs, lim).value;
            var granted := GrantedCost(evs, Decisions(Some(row), evs, lim));
            end.tokens - Gain(lim.rate, end.seen) + granted <= row.tokens - Gain(lim.rate, row.seen)
    decreases |evs|
  {
    hide Gain, Spent;
    if evs != [] {
      PotentialStep(row, evs[0], lim);
      PotentialNeverIncreases(Apply(Some(row), evs[0], lim).value, evs[1..], lim);
    }
  }

  lemma PotentialStep(row: Row, e: Event, lim: Limits)
    requires (e.Evict? ==> !e.sweep)
    ensures Apply(Some(row), e, lim).Some?
    ensures var end := Apply(Some(row), e, lim).value;
            var cost := if Grants(Some(row), e, lim) then e.cost else 0.0;
            end.tokens - Gain(lim.rate, end.seen) + cost <= row.tokens - Gain(lim.rate, row.seen)
  {
    hide Gain;
    if e.Spend? {
      GainAdds(lim.rate, e.now - row.seen, row.seen);
    }
  }

  lemma {:induction false} LastSpendLeavesRow(row: Option<Row>, evs: seq<Event>, lim: Limits)
    requires |evs| > 0 && evs[|evs| - 1].Spend?
    ensures RowAfter(row, evs, lim).Some?
    ensures RowAfter(row, evs, lim).value.seen == evs[|evs| - 1].now
    ensures Decisions(row, evs, lim)[|evs| - 1] ==> RowAfter(row, evs, lim).value.tokens >= 0.0
    decreases |evs|
  {
    hide Gain;
    if |evs| > 1 {
      LastSpendLeavesRow(Apply(row, evs[0], lim), evs[1..], lim);
    }
  }

  /** From any row whatsoever: what a run that starts with a spend and ends in a grant has granted. */
  lemma RunRateBound(row: Option<Row>, evs: seq<Event>, lim: Limits)
    requires NeverSweeps(evs)
    requires |evs| > 0 && evs[0].Spend? && Decisions(row, evs, lim)[|evs| - 1]
    ensures GrantedCost(evs, Decisions(row, evs, lim)) <= lim.capacity + Gain(lim.rate, evs[|evs| - 1].now - evs[0].now)
  {
    var first := Apply(row, evs[0], lim).value;
    var ds := Decisions(row, evs, lim);
    assert ds[1..] == Decisions(Some(first), evs[1..], lim);
    var paid := if ds[0] then evs[0].cost else 0.0;
    assert first.seen == evs[0].now && first.tokens + paid <= lim.capacity;
    hide Gain, Spent;
    PotentialNeverIncreases(first, evs[1..], lim);
    LastSpendLeavesRow(row, evs, lim);
    GainAdds(lim.rate, evs[|evs| - 1].now - evs[0].now, evs[0].now);
  }

  lemma DecisionsWindow(row: Option<Row>, evs: seq<Event>, i: nat, n: nat, lim: Limits)
    requires i <= n <= |evs|
    ensures Decisions(row, evs, lim)[i..n] == Decisions(RowAfter(row, evs[..i], lim), evs[i..n], lim)
  {
    hide Gain, Spent;
    RunSplits(row, evs, i, lim);
    var ds, mid := Decisions(row, evs, lim), RowAfter(row, evs[..i], lim);
    assert ds[i..] == Decisions(mid, evs[i..], lim);
    RunSplits(mid, evs[i..], n - i, lim);
    assert evs[i..][..n - i] == evs[i..n];
    assert ds[i..n] == ds[i..][..n - i] == Decisions(mid, evs[i..n], lim);
  }

  /** The window form: spends i..j of one long run, in commit order. */
  lemma WindowRateBound(evs: seq<Event>, i: nat, j: nat, lim: Limits)
    requires NeverSweeps(evs)
    requires i <= j < |evs| && evs[i].Spend? && Decisions(None, evs, lim)[j]
    ensures var ds := Decisions(None, evs, lim);
            GrantedCost(evs[i..j + 1], ds[i..j + 1]) <= lim.capacity + Gain(lim.rate, evs[j].now - evs[i].now)
  {
    DecisionsWindow(None, evs, i, j + 1, lim);
    hide Spent;
    var run, row := evs[i..j + 1], RowAfter(None, evs[..i], lim);
    assert run[0] == evs[i] && run[|run| - 1] == evs[j];
    assert Decisions(row, run, lim)[|run| - 1];
    RunRateBound(row, run, lim);
  }

  // ----- Eviction is invisible exactly up to a skew of 4.5 windows -----

  /** Every reading is at most `slack` behind the largest reading so far. */
  predicate Steady(evs: seq<Event>, peak: real, slack: real) {
    evs == [] || (evs[0].now >= peak - slack && Steady(evs[1..], Max(peak, evs[0].now), slack))
  }

  function Unswept(evs: seq<Event>): (r: seq<Event>)
    ensures |r| == |evs| && NeverSweeps(r)
    ensures forall k :: 0 <= k < |evs| ==> r[k].now == evs[k].now && r[k].Spend? == evs[k].Spend?
    ensures forall k :: 0 <= k < |evs| && evs[k].Spend? ==> r[k] == evs[k]
  {
    seq(|evs|, k requires 0 <= k < |evs| => if evs[k].Evict? then evs[k].(sweep := false) else evs[k])
  }

  /** A row is never further below zero than the clock has stepped back. */
  predicate Floored(row: Option<Row>, peak: real, lim: Limits) {
    row.Some? ==>
      && row.value.tokens >= -4.5 * lim.capacity
      && row.value.tokens >= Gain(lim.rate, row.value.seen - peak)
  }

  /** The row is full at every reading from 4.5 windows before `peak` on. */
  predicate CertainlyFull(row: Row, peak: real, lim: Limits) {
    row.tokens + Gain(lim.rate, peak - 4.5 * lim.per - row.seen) >= lim.capacity
  }

  /** The evicted store has either the same row, or none while the kept row is certain to be full again. */
  predicate Shadows(kept: Option<Row>, thin: Option<Row>, peak: real, lim: Limits) {
    thin == kept || (thin.None? && kept.Some? && CertainlyFull(kept.value, peak, lim))
  }

  lemma ShadowStep(kept: Option<Row>, thin: Option<Row>, e: Event, peak: real, lim: Limits)
    requires lim.Valid() && Floored(kept, peak, lim) && Shadows(kept, thin, peak, lim)
    requires e.now >= peak - 4.5 * lim.per
    ensures var peak' := Max(peak, e.now);
            var calm := if e.Evict? then e.(sweep := false) else e;
            && Floored(Apply(kept, calm, lim), peak', lim)
            && Shadows(Apply(kept, calm, lim), Apply(thin, e, lim), peak', lim)
            && Grants(kept, calm, lim) == Grants(thin, e, lim)
  {
    hide Gain;
    var peak' := Max(peak, e.now);
    if e.Spend? {
      SpendKeepsFloor(kept, e, peak, lim);
      if thin != kept {
        FullIsFresh(kept.value, e, peak, lim);
      }
    } else if kept.Some? {
      GainGrows(lim.rate, kept.value.seen - peak', kept.value.seen - peak);
      GainGrows(lim.rate, peak - 4.5 * lim.per - kept.value.seen, peak' - 4.5 * lim.per - kept.value.seen);
      if Stale(kept.value, e.now, lim) {
        StaleIsFull(kept.value, e.now, peak', lim);
      }
    }
  }

  lemma SpendKeepsFloor(row: Option<Row>, e: Event, peak: real, lim: Limits)
    requires lim.Valid() && Floored(row, peak, lim) && e.Spend? && e.now >= peak - 4.5 * lim.per
    ensures Floored(Apply(row, e, lim), Max(peak, e.now), lim)
  {
    hide Gain;
    var behind := e.now - Max(peak, e.now);
    GainPerWindow(lim, -4.5);
    GainGrows(lim.rate, -4.5 * lim.per, behind);
    GainAdds(lim.rate, 0.0, 0.0);
    GainGrows(lim.rate, behind, 0.0);
    GainGrows(lim.rate, behind, e.now - peak);
    if row.Some? {
      GainAdds(lim.rate, e.now - row.value.seen, row.value.seen - peak);
      assert e.now - row.value.seen + (row.value.seen - peak) == e.now - peak;
    }
  }

  /** A row that was dropped for being certain to refill answers the next spend as a fresh one would. */
  lemma FullIsFresh(row: Row, e: Event, peak: real, lim: Limits)
    requires lim.Valid() && CertainlyFull(row, peak, lim)
    requires e.Spend? && e.now >= peak - 4.5 * lim.per
    ensures Spent(Some(row), e.cost, lim.capacity, lim.rate, e.now) ==
              Spent(None, e.cost, lim.capacity, lim.rate, e.now)
  {
    hide Gain;
    GainGrows(lim.rate, peak - 4.5 * lim.per - row.seen, e.now - row.seen);
    GainAdds(lim.rate, 0.0, 0.0);
    assert e.now - e.now == 0.0;
  }

  lemma StaleIsFull(row: Row, now: real, peak: real, lim: Limits)
    requires lim.Valid() && row.tokens >= -4.5 * lim.capacity && Stale(row, now, lim) && now <= peak
    ensures CertainlyFull(row, peak, lim)
  {
    hide Gain;
    GainPerWindow(lim, 5.5);
    GainGrows(lim.rate, 5.5 * lim.per, peak - 4.5 * lim.per - row.seen);
  }

  lemma {:induction false} ShadowRun(kept: Option<Row>, thin: Option<Row>, evs: seq<Event>, peak: real, lim: Limits)
    requires lim.Valid() && Floored(kept, peak, lim) && Shadows(kept, thin, peak, lim)
    requires Steady(evs, peak, 4.5 * lim.per)
    ensures Decisions(kept, Unswept(evs), lim) == Decisions(thin, evs, lim)
    decreases |evs|
  {
    hide Gain, Spent;
    if evs != [] {
      var calm := Unswept(evs);
      ShadowStep(kept, thin, evs[0], peak, lim);
      assert calm[1..] == Unswept(evs[1..]);
      ShadowRun(Apply(kept, calm[0], lim), Apply(thin, evs[0], lim), evs[1..], Max(peak, evs[0].now), lim);
    }
  }

  /** Any eviction schedule gives the decision stream of a store that never evicts. */
  lemma EvictionInvisible(evs: seq<Event>, peak: real, lim: Limits)
    requires lim.Valid() && Steady(evs, peak, 4.5 * lim.per)
    ensures Decisions(None, evs, lim) == Decisions(None, Unswept(evs), lim)
  {
    hide Gain, Spent;
    ShadowRun(None, None, evs, peak, lim);
  }

  /** Beyond 4.5 windows of skew some sweep turns a refusal into a grant. */
  lemma EvictionVisible(slack: real, lim: Limits) returns (evs: seq<Event>)
    requires lim.Valid() && slack > 4.5 * lim.per
    ensures Steady(evs, 0.0, slack)
    ensures Decisions(None, evs, lim) != Decisions(None, Unswept(evs), lim)
  {
    hide Gain;
    var rate, per, cap := lim.rate, lim.per, lim.capacity;
    var e0, e1, e2, e3 := Spend(cap, 0.0), Spend(cap, -slack), Evict(5.5 * per, true), Spend(cap, 5.5 * per - slack);
    evs := [e0, e1, e2, e3];
    assert evs[1..] == [e1, e2, e3] && [e1, e2, e3][1..] == [e2, e3] && [e2, e3][1..] == [e3];
    assert Steady([e3], 5.5 * per, slack);
    assert Steady([e2, e3], 0.0, slack);
    assert Steady([e1, e2, e3], 0.0, slack);
    GainPerWindow(lim, 1.0);
    GainAdds(rate, -slack, 5.5 * per);
    GainGrows(rate, -slack, 0.0);
    GainGrows(rate, 5.5 * per - slack, per);
    var r0 := Apply(None, e0, lim);
    assert r0 == Some(Row(0.0, 0.0)) by {
      assert 0.0 - 0.0 == 0.0;
    }
    var r1 := Apply(r0, e1, lim);
    assert -slack - 0.0 == -slack;
    assert r1 == Some(Row(Gain(rate, -slack), -slack));
    assert Apply(r1, e2, lim) == None;
    assert Grants(None, e3, lim) by {
      assert e3.now - e3.now == 0.0;
    }
    assert e3.now + slack == 5.5 * per && -slack + 5.5 * per == 5.5 * per - slack && 1.0 * per == per;
    assert !Grants(r1, e3, lim);
    var calm := Unswept(evs);
    assert calm == [e0, e1, Evict(5.5 * per, false), e3];
    RunSplits(None, evs, 3, lim);
    RunSplits(None, calm, 3, lim);
    assert evs[3..] == [e3] == calm[3..];
    assert evs[..3] == [e0, e1, e2] && calm[..3] == [e0, e1, calm[2]];
    RowAfterThree(e0, e1, e2, lim);
    RowAfterThree(e0, e1, calm[2], lim);
    assert Decisions(None, evs, lim)[3] != Decisions(None, calm, lim)[3];
  }

  lemma RowAfterThree(a: Event, b: Event, c: Event, lim: Limits)
    ensures RowAfter(None, [a, b, c], lim) == Apply(Apply(Apply(None, a, lim), b, lim), c, lim)
  {
    hide Gain, Spent;
    assert [a, b, c][1..] == [b, c] && [b, c][1..] == [c] && [c][1..] == [];
    assert RowAfter(Apply(Apply(None, a, lim), b, lim), [c], lim) == Apply(Apply(Apply(None, a, lim), b, lim), c, lim);
  }

  predicate SweepsInvisibleUpTo(slack: real, evs: seq<Event>, lim: Limits)
  {
    Steady(evs, 0.0, slack) ==> Decisions(None, evs, lim) == Decisions(None, Unswept(evs), lim)
  }

  /** The exact condition, for every configuration. */
  lemma EvictionInvisibleExactly(slack: real, lim: Limits)
    requires lim.Valid()
    ensures (forall evs :: SweepsInvisibleUpTo(slack, evs, lim)) <==> slack <= 4.5 * lim.per
  {
    hide Gain, Spent;
    if slack <= 4.5 * lim.per {
      forall evs | Steady(evs, 0.0, slack)
        ensures Decisions(None, evs, lim) == Decisions(None, Unswept(evs), lim)
      {
        SteadyWeakens(evs, 0.0, slack, 4.5 * lim.per);
        EvictionInvisible(evs, 0.0, lim);
      }
    } else {
      var evs := EvictionVisible(slack, lim);
      assert !SweepsInvisibleUpTo(slack, evs, lim);
    }
  }

  lemma {:induction false} SteadyWeakens(evs: seq<Event>, peak: real, slack: real, slack': real)
    requires Steady(evs, peak, slack) && slack <= slack'
    ensures Steady(evs, peak, slack')
  {
    if evs != [] {
      SteadyWeakens(evs[1..], Max(peak, evs[0].now), slack, slack');
    }
  }

  /** The rate bound again, now with sweeps, under the skew bound. */
  lemma SweptRateBound(evs: seq<Event>, peak: real, i: nat, j: nat, lim: Limits)
    requires lim.Valid() && Steady(evs, peak, 4.5 * lim.per)
    requires i <= j < |evs| && evs[i].Spend? && Decisions(None, evs, lim)[j]
    ensures var ds := Decisions(None, evs, lim);
            GrantedCost(evs[i..j + 1], ds[i..j + 1]) <= lim.capacity + Gain(lim.rate, evs[j].now - evs[i].now)
  {
    hide Gain, Spent;
    EvictionInvisible(evs, peak, lim);
    var calm, ds := Unswept(evs), Decisions(None, evs, lim);
    WindowRateBound(calm, i, j, lim);
    SameGrants(evs[i..j + 1], calm[i..j + 1], ds[i..j + 1]);
  }

  lemma {:induction false} SameGrants(evs: seq<Event>, calm: seq<Event>, ds: seq<bool>)
    requires |evs| == |calm| == |ds|
    requires forall k :: 0 <= k < |evs| && evs[k].Evict? ==> !ds[k]
    requires forall k :: 0 <= k < |evs| ==> calm[k].Spend? == evs[k].Spend? && (evs[k].Spend? ==> calm[k] == evs[k])
    ensures GrantedCost(evs, ds) == GrantedCost(calm, ds)
  {
    if evs != [] {
      SameGrants(evs[1..], calm[1..], ds[1..]);
    }
  }

  // ----- Rejected requests are free -----

  predicate Ascending(evs: seq<Event>) {
    forall i, j :: 0 <= i < j < |evs| ==> evs[i].now <= evs[j].now
  }

  /** The members of `s` marked in `keep`. */
  function Kept<T>(s: seq<T>, keep: seq<bool>): seq<T>
    requires |s| == |keep|
  {
    if s == [] then [] else (if keep[0] then [s[0]] else []) + Kept(s[1..], keep[1..])
  }

  /** Two rows no later reading can tell apart. */
  ghost predicate SameFrom(a: Option<Row>, b: Option<Row>, from: real, lim: Limits)
  {
    forall t :: t >= from ==> Level(a, t, lim) == Level(b, t, lim)
  }

  /** The tokens a spend at `t` finds. */
  function Level(row: Option<Row>, t: real, lim: Limits): real {
    if row.None? then lim.capacity
    else Min(lim.capacity, row.value.tokens + Gain(lim.rate, t - row.value.seen))
  }

  /** Refill-with-cap composes: looking at a bucket and refusing changes no later level. */
  lemma RefillComposes(row: Option<Row>, now: real, t: real, lim: Limits)
    requires lim.Valid() && now <= t
    ensures Level(Some(Row(Level(row, now, lim), now)), t, lim) == Level(row, t, lim)
  {
    hide Gain;
    GainAdds(lim.rate, 0.0, 0.0);
    GainGrows(lim.rate, 0.0, t - now);
    if row.Some? {
      GainAdds(lim.rate, now - row.value.seen, t - now);
      assert now - row.value.seen + (t - now) == t - row.value.seen;
    }
  }

  /** A spend treats indistinguishable rows alike, and a refused one may as well not have happened. */
  lemma TwinStep(a: Option<Row>, b: Option<Row>, e: Event, from: real, lim: Limits)
    requires lim.Valid() && SameFrom(a, b, from, lim) && from <= e.now && (e.Evict? ==> !e.sweep)
    ensures Grants(a, e, lim) == Grants(b, e, lim)
    ensures SameFrom(Apply(a, e, lim), Apply(b, e, lim), e.now, lim)
    ensures !Grants(a, e, lim) ==> SameFrom(Apply(a, e, lim), b, e.now, lim)
  {
    hide Gain, Spent;
    if e.Spend? {
      SpentAtLevel(a, e, lim);
      SpentAtLevel(b, e, lim);
      assert Level(a, e.now, lim) == Level(b, e.now, lim);
      if !Grants(a, e, lim) {
        forall t | t >= e.now
          ensures Level(Apply(a, e, lim), t, lim) == Level(b, t, lim)
        {
          RefillComposes(a, e.now, t, lim);
          assert Level(a, t, lim) == Level(b, t, lim);
        }
      }
    }
  }

  lemma SpentAtLevel(row: Option<Row>, e: Event, lim: Limits)
    requires e.Spend?
    ensures var level := Level(row, e.now, lim);
            Spent(row, e.cost, lim.capacity, lim.rate, e.now) ==
              if level < e.cost then (false, Row(level, e.now)) else (true, Row(level - e.cost, e.now))
  {
    hide Gain;
    assert e.now - e.now == 0.0;
    GainAdds(lim.rate, 0.0, 0.0);
  }

  lemma {:induction false} RejectedFreeRun(a: Option<Row>, b: Option<Row>, evs: seq<Event>, keep: seq<bool>, from: real,
                                           lim: Limits)
    requires lim.Valid() && NeverSweeps(evs) && Ascending(evs) && |keep| == |evs|
    requires evs != [] ==> from <= evs[0].now
    requires SameFrom(a, b, from, lim)
    requires forall k :: 0 <= k < |evs| && evs[k].Spend? && !keep[k] ==> !Decisions(a, evs, lim)[k]
    ensures Decisions(b, Kept(evs, keep), lim) == Kept(Decisions(a, evs, lim), keep)
    decreases |evs|
  {
    hide Gain, Spent;
    if evs != [] {
      var e, rest := evs[0], Kept(evs[1..], keep[1..]);
      var a' := Apply(a, e, lim);
      var ds := Decisions(a, evs, lim);
      assert ds[1..] == Decisions(a', evs[1..], lim);
      forall k | 0 <= k < |evs[1..]| && evs[1..][k].Spend? && !keep[1..][k]
        ensures !Decisions(a', evs[1..], lim)[k]
      {
        assert evs[k + 1].Spend? && !keep[k + 1];
      }
      TwinStep(a, b, e, from, lim);
      if keep[0] {
        assert Kept(evs, keep)[1..] == rest;
        RejectedFreeRun(a', Apply(b, e, lim), evs[1..], keep[1..], e.now, lim);
      } else {
        assert Kept(evs, keep) == rest;
        RejectedFreeRun(a', b, evs[1..], keep[1..], e.now, lim);
        assert Kept(ds, keep) == Kept(ds[1..], keep[1..]);
      }
    }
  }

  lemma {:induction false} KeptUnswept(evs: seq<Event>, keep: seq<bool>)
    requires |keep| == |evs|
    ensures Kept(Unswept(evs), keep) == Unswept(Kept(evs, keep))
  {
    if evs != [] {
      assert Unswept(evs)[1..] == Unswept(evs[1..]);
      KeptUnswept(evs[1..], keep[1..]);
    }
  }

  lemma {:induction false} AscendingIsSteady(evs: seq<Event>, peak: real)
    requires Ascending(evs) && (evs != [] ==> peak <= evs[0].now)
    ensures Steady(evs, peak, 0.0)
  {
    if evs != [] {
      AscendingIsSteady(evs[1..], evs[0].now);
    }
  }

  lemma {:induction false} KeptAscends(evs: seq<Event>, keep: seq<bool>)
    requires |keep| == |evs| && Ascending(evs)
    ensures Ascending(Kept(evs, keep))
    ensures forall e :: e in Kept(evs, keep) ==> e in evs
  {
    if evs != [] {
      KeptAscends(evs[1..], keep[1..]);
      forall e | e in evs[1..]
        ensures evs[0].now <= e.now
      {
        var k :| 0 <= k < |evs[1..]| && evs[1..][k] == e;
        assert evs[k + 1] == e;
      }
    }
  }

  lemma AscendingUnswept(evs: seq<Event>, lim: Limits)
    requires lim.Valid() && Ascending(evs)
    ensures Decisions(None, evs, lim) == Decisions(None, Unswept(evs), lim)
  {
    hide Gain, Spent;
    var start := if evs == [] then 0.0 else evs[0].now;
    AscendingIsSteady(evs, start);
    SteadyWeakens(evs, start, 0.0, 4.5 * lim.per);
    EvictionInvisible(evs, start, lim);
  }

  /** `keep` drops nothing but refused spends. */
  ghost predicate DropsRefusals(evs: seq<Event>, keep: seq<bool>, lim: Limits) {
    && |keep| == |evs|
    && forall k :: 0 <= k < |evs| && !keep[k] ==> evs[k].Spend? && !Decisions(None, evs, lim)[k]
  }

  /** Under a non-decreasing clock, deleting any set of refused spends leaves every other decision as it was,
      evictions included. */
  lemma RejectedRequestsAreFree(evs: seq<Event>, keep: seq<bool>, lim: Limits)
    requires lim.Valid() && Ascending(evs) && DropsRefusals(evs, keep, lim)
    ensures Decisions(None, Kept(evs, keep), lim) == Kept(Decisions(None, evs, lim), keep)
  {
    hide Gain, Spent;
    AscendingUnswept(evs, lim);
    RejectedFreeRun(None, None, Unswept(evs), keep, if evs == [] then 0.0 else evs[0].now, lim);
    KeptUnswept(evs, keep);
    KeptAscends(evs, keep);
    AscendingUnswept(Kept(evs, keep), lim);
  }

  ghost predicate RefusalsFreeUpTo(slack: real, peak: real, evs: seq<Event>, keep: seq<bool>, lim: Limits) {
    Steady(evs, peak, slack) && DropsRefusals(evs, keep, lim) ==>
      Decisions(None, Kept(evs, keep), lim) == Kept(Decisions(None, evs, lim), keep)
  }

  /** The exact condition, for every configuration: refused requests are free on all runs of a given skew if and only
      if the clock never steps back. */
  lemma RefusalsFreeExactly(slack: real, lim: Limits)
    requires lim.Valid()
    ensures (forall peak, evs, keep :: RefusalsFreeUpTo(slack, peak, evs, keep, lim)) <==> slack <= 0.0
  {
    hide Gain, Spent;
    if slack <= 0.0 {
      forall peak, evs, keep | Steady(evs, peak, slack) && DropsRefusals(evs, keep, lim)
        ensures RefusalsFreeUpTo(slack, peak, evs, keep, lim)
      {
        NoSkewAscends(evs, peak, slack);
        RejectedRequestsAreFree(evs, keep, lim);
      }
    } else {
      var evs, keep := RefusalCosts(slack, lim);
      assert !RefusalsFreeUpTo(slack, 0.0, evs, keep, lim);
    }
  }

  lemma {:induction false} NoSkewAscends(evs: seq<Event>, peak: real, slack: real)
    requires Steady(evs, peak, slack) && slack <= 0.0
    ensures Ascending(evs) && forall k :: 0 <= k < |evs| ==> peak <= evs[k].now
  {
    if evs != [] {
      NoSkewAscends(evs[1..], Max(peak, evs[0].now), slack);
      forall k | 1 <= k < |evs|
        ensures evs[0].now <= evs[k].now && peak <= evs[k].now
      {
        assert evs[k] == evs[1..][k - 1];
      }
      assert forall i, j :: 1 <= i < j < |evs| ==> evs[i] == evs[1..][i - 1] && evs[j] == evs[1..][j - 1];
    }
  }

  /** After any step back: the refusal moves `last_seen` to its own, later reading, and the next request, at the
      earlier one, finds less than the full bucket it would have found alone. */
  lemma RefusalCosts(slack: real, lim: Limits) returns (evs: seq<Event>, keep: seq<bool>)
    requires lim.Valid() && slack > 0.0
    ensures Steady(evs, 0.0, slack) && DropsRefusals(evs, keep, lim)
    ensures Decisions(None, Kept(evs, keep), lim) != Kept(Decisions(None, evs, lim), keep)
  {
    hide Gain;
    var cap := lim.capacity;
    var a, b := Spend(cap + 1.0, slack), Spend(cap, 0.0);
    evs, keep := [a, b], [false, true];
    assert evs[1..] == [b] && [b][1..] == [] && keep[1..] == [true] && [true][1..] == [];
    assert Steady([b], slack, slack);
    GainPerWindow(lim, 1.0);
    GainAdds(lim.rate, 0.0, 0.0);
    GainGrows(lim.rate, -slack, 0.0);
    assert slack - slack == 0.0 && b.now - b.now == 0.0 && b.now - slack == -slack;
    var row := Apply(None, a, lim);
    assert row == Some(Row(cap, slack)) && !Grants(row, b, lim) && Grants(None, b, lim);
    assert Decisions(row, [b], lim) == [false];
    assert Decisions(None, evs, lim) == [false, false];
    assert Kept([b], [true]) == [b] && Kept(evs, keep) == [b];
    assert Decisions(None, [b], lim) == [true];
    assert Kept([false], [true]) == [false] && [false, false][1..] == [false];
  }

  // ----- The rate bound in true time -----

  /** True times that ascend, and readings that gain at most `g` on them between any two events: with g = 0 the clock
      may step back, by any amount and any number of times, but never forward. */
  ghost predicate KeepsTime(evs: seq<Event>, truth: seq<real>, g: real) {
    && |truth| == |evs|
    && forall i, j :: 0 <= i < j < |evs| ==> truth[i] <= truth[j] && evs[j].now - evs[i].now <= truth[j] - truth[i] + g
  }

  predicate Within(times: seq<real>, t0: real, t1: real) {
    forall k :: 0 <= k < |times| ==> t0 <= times[k] <= t1
  }

  /** The rest of a run, once something was spent at true time `last` and reading `read`: what the row still holds is
      covered, and a row that was swept away had been idle for a whole window. */
  lemma {:induction false} TrueTimeRun(row: Option<Row>, evs: seq<Event>, truth: seq<real>, spent: real,
                                       start: real, last: real, read: real, end: real, lim: Limits)
    requires lim.Valid() && KeepsTime(evs, truth, 0.0) && start <= last <= end
    requires forall k :: 0 <= k < |evs| ==> last <= truth[k] <= end && evs[k].now - read <= truth[k] - last
    requires spent <= lim.capacity + Gain(lim.rate, last - start)
    requires row.Some? ==> row.value.seen == read
    requires row.Some? ==> row.value.tokens + spent <= lim.capacity + Gain(lim.rate, last - start)
    requires row.None? ==> forall k :: 0 <= k < |evs| ==> truth[k] - last >= lim.per
    ensures spent + GrantedCost(evs, Decisions(row, evs, lim)) <= lim.capacity + Gain(lim.rate, end - start)
    decreases |evs|
  {
    hide Gain, Spent;
    GainGrows(lim.rate, last - start, end - start);
    if evs != [] {
      var e, t := evs[0], truth[0];
      var row' := Apply(row, e, lim);
      assert forall k :: 0 <= k < |evs[1..]| ==> evs[1..][k] == evs[k + 1] && truth[1..][k] == truth[k + 1];
      if e.Spend? {
        TrueTimeSpend(row, e, t, spent, start, last, read, lim);
        var paid := if Grants(row, e, lim) then e.cost else 0.0;
        TrueTimeRun(row', evs[1..], truth[1..], spent + paid, start, t, e.now, end, lim);
      } else {
        if row.Some? && row'.None? {
          assert t - last >= lim.IdleTtl();
        }
        TrueTimeRun(row', evs[1..], truth[1..], spent, start, last, read, end, lim);
      }
    }
  }

  lemma TrueTimeSpend(row: Option<Row>, e: Event, t: real, spent: real, start: real, last: real, read: real,
                      lim: Limits)
    requires lim.Valid() && e.Spend? && last <= t && e.now - read <= t - last
    requires spent <= lim.capacity + Gain(lim.rate, last - start)
    requires row.Some? ==> row.value.seen == read
    requires row.Some? ==> row.value.tokens + spent <= lim.capacity + Gain(lim.rate, last - start)
    requires row.None? ==> t - last >= lim.per
    ensures Apply(row, e, lim).Some? && Apply(row, e, lim).value.seen == e.now
    ensures var total := spent + if Grants(row, e, lim) then e.cost else 0.0;
            && total <= lim.capacity + Gain(lim.rate, t - start)
            && Apply(row, e, lim).value.tokens + total <= lim.capacity + Gain(lim.rate, t - start)
  {
    hide Gain;
    GainAdds(lim.rate, t - last, last - start);
    assert t - last + (last - start) == t - start;
    GainAdds(lim.rate, 0.0, 0.0);
    GainGrows(lim.rate, 0.0, t - last);
    GainGrows(lim.rate, e.now - read, t - last);
    if row.None? {
      GainPerWindow(lim, 1.0);
      GainGrows(lim.rate, 1.0 * lim.per, t - last);
      assert e.now - e.now == 0.0;
    }
  }

  /** From any row whatsoever, under any sweeps and any steps back: whatever lies between two true times is granted at
      most the capacity plus what refills between them. */
  lemma {:induction false} TrueTimeBound(row: Option<Row>, evs: seq<Event>, truth: seq<real>, t0: real, t1: real,
                                         lim: Limits)
    requires lim.Valid() && KeepsTime(evs, truth, 0.0) && t0 <= t1
    requires Within(truth, t0, t1)
    ensures GrantedCost(evs, Decisions(row, evs, lim)) <= lim.capacity + Gain(lim.rate, t1 - t0)
    decreases |evs|
  {
    hide Gain, Spent;
    GainPerWindow(lim, 1.0);
    GainAdds(lim.rate, 0.0, 0.0);
    GainGrows(lim.rate, 0.0, t1 - t0);
    if evs != [] {
      var e, t := evs[0], truth[0];
      assert forall k :: 0 <= k < |evs[1..]| ==> evs[1..][k] == evs[k + 1] && truth[1..][k] == truth[k + 1];
      if e.Spend? {
        FirstSpend(row, e, lim);
        var paid := if Grants(row, e, lim) then e.cost else 0.0;
        assert t - t == 0.0;
        TrueTimeRun(Apply(row, e, lim), evs[1..], truth[1..], paid, t, t, e.now, t1, lim);
        GainGrows(lim.rate, t1 - t, t1 - t0);
      } else {
        TrueTimeBound(Apply(row, e, lim), evs[1..], truth[1..], t0, t1, lim);
      }
    }
  }

  lemma FirstSpend(row: Option<Row>, e: Event, lim: Limits)
    requires lim.Valid() && e.Spend?
    ensures Apply(row, e, lim).Some? && Apply(row, e, lim).value.seen == e.now
    ensures var paid := if Grants(row, e, lim) then e.cost else 0.0;
            paid <= lim.capacity && Apply(row, e, lim).value.tokens + paid <= lim.capacity
  {
    hide Gain;
    GainPerWindow(lim, 1.0);
  }

  /** The same on readings alone, when they ascend. */
  lemma AscendingBound(row: Option<Row>, evs: seq<Event>, t0: real, t1: real, lim: Limits)
    requires lim.Valid() && Ascending(evs) && t0 <= t1
    requires forall k :: 0 <= k < |evs| ==> t0 <= evs[k].now <= t1
    ensures GrantedCost(evs, Decisions(row, evs, lim)) <= lim.capacity + Gain(lim.rate, t1 - t0)
  {
    hide Gain, Spent;
    TrueTimeBound(row, evs, seq(|evs|, k requires 0 <= k < |evs| => evs[k].now), t0, t1, lim);
  }

  /** Any window of any run, whatever was swept and however often the clock stepped back. */
  lemma TrueTimeWindow(evs: seq<Event>, truth: seq<real>, i: nat, j: nat, lim: Limits)
    requires lim.Valid() && KeepsTime(evs, truth, 0.0) && i <= j < |evs| == |truth|
    ensures GrantedIn(evs, Decisions(None, evs, lim), i, j + 1) <= lim.capacity + Gain(lim.rate, truth[j] - truth[i])
  {
    hide Gain, Spent, KeepsTime, Decisions;
    KeepsTimeWindow(evs, truth, i, j);
    DecisionsWindow(None, evs, i, j + 1, lim);
    TrueTimeBound(RowAfter(None, evs[..i], lim), evs[i..j + 1], truth[i..j + 1], truth[i], truth[j], lim);
  }

  lemma KeepsTimeWindow(evs: seq<Event>, truth: seq<real>, i: nat, j: nat)
    requires KeepsTime(evs, truth, 0.0) && i <= j < |evs|
    ensures |truth| == |evs| && KeepsTime(evs[i..j + 1], truth[i..j + 1], 0.0)
    ensures truth[i] <= truth[j] && Within(truth[i..j + 1], truth[i], truth[j])
  {
    var run, times := evs[i..j + 1], truth[i..j + 1];
    forall k | 0 <= k < |run|
      ensures run[k] == evs[i + k] && times[k] == truth[i + k] && truth[i] <= times[k] <= truth[j]
    {
    }
    forall k, l | 0 <= k < l < |run|
      ensures times[k] <= times[l] && run[l].now - run[k].now <= times[l] - times[k] + 0.0
    {
      assert 0 <= i + k < i + l < |evs|;
    }
  }

  lemma NoGain(evs: seq<Event>, truth: seq<real>, g: real)
    requires KeepsTime(evs, truth, g) && g <= 0.0
    ensures KeepsTime(evs, truth, 0.0)
  {
  }

  ghost predicate BoundedInTrueTime(g: real, evs: seq<Event>, truth: seq<real>, i: nat, j: nat, lim: Limits) {
    KeepsTime(evs, truth, g) && i <= j < |evs| ==>
      GrantedIn(evs, Decisions(None, evs, lim), i, j + 1) <= lim.capacity + Gain(lim.rate, truth[j] - truth[i])
  }

  /** Exactly when the allowance holds in true time, for every configuration: any window of any run, under any sweeps,
      keeps it if and only if the clock never gains on true time.  Steps back never grant extra; steps forward can. */
  lemma TrueTimeBoundExactly(g: real, lim: Limits)
    requires lim.Valid()
    ensures (forall evs, truth, i, j :: BoundedInTrueTime(g, evs, truth, i, j, lim)) <==> g <= 0.0
  {
    hide Gain, Spent, KeepsTime, Decisions, GrantedIn;
    if g <= 0.0 {
      forall evs, truth, i: nat, j: nat | KeepsTime(evs, truth, g) && i <= j < |evs|
        ensures BoundedInTrueTime(g, evs, truth, i, j, lim)
      {
        NoGain(evs, truth, g);
        TrueTimeWindow(evs, truth, i, j, lim);
      }
    } else {
      var evs, truth := ForwardStepGrants(g, lim);
      assert !BoundedInTrueTime(g, evs, truth, 0, 1, lim);
    }
  }

  lemma ForwardStepGrants(g: real, lim: Limits) returns (evs: seq<Event>, truth: seq<real>)
    requires lim.Valid() && g > 0.0
    ensures KeepsTime(evs, truth, g) && |evs| == 2
    ensures GrantedIn(evs, Decisions(None, evs, lim), 0, 2) > lim.capacity + Gain(lim.rate, truth[1] - truth[0])
  {
    hide Gain;
    GainPerWindow(lim, 1.0);
    GainAdds(lim.rate, 0.0, 0.0);
    GainGrows(lim.rate, 0.0, g);
    var a, b := Spend(lim.capacity, 0.0), Spend(Min(lim.capacity, Gain(lim.rate, g)), g);
    evs, truth := [a, b], [0.0, 0.0];
    assert a.now - a.now == 0.0 && g - 0.0 == g;
    var row := Apply(None, a, lim);
    assert row == Some(Row(0.0, 0.0)) && Grants(None, a, lim) && Grants(row, b, lim);
    assert evs[1..] == [b] && [b][1..] == [];
    assert Decisions(row, [b], lim) == [true];
    var ds := Decisions(None, evs, lim);
    assert ds == [true, true];
    assert evs[0..2] == evs && ds[0..2] == ds && ds[1..] == [true];
    assert GrantedCost([b], [true]) == b.cost + GrantedCost([], []);
  }

  // ----- What is granted, exactly -----

  /** Granted cost of events i..j, j excluded. */
  function GrantedIn(evs: seq<Event>, ds: seq<bool>, i: nat, j: nat): real
    requires i <= j <= |evs| == |ds|
    requires forall k :: 0 <= k < |evs| && evs[k].Evict? ==> !ds[k]
  {
    GrantedCost(evs[i..j], ds[i..j])
  }

  lemma {:induction false} GrantedAppend(evs: seq<Event>, ds: seq<bool>, e: Event, d: bool)
    requires |evs| == |ds| && (e.Evict? ==> !d)
    requires forall k :: 0 <= k < |evs| && evs[k].Evict? ==> !ds[k]
    ensures GrantedCost(evs + [e], ds + [d]) == GrantedCost(evs, ds) + if d then e.cost else 0.0
  {
    if evs != [] {
      assert (evs + [e])[1..] == evs[1..] + [e] && (ds + [d])[1..] == ds[1..] + [d];
      GrantedAppend(evs[1..], ds[1..], e, d);
    } else {
      assert (evs + [e])[1..] == [] && (ds + [d])[1..] == [];
    }
  }

  lemma GrantedInGrows(evs: seq<Event>, ds: seq<bool>, i: nat, j: nat)
    requires i <= j < |evs| == |ds|
    requires forall k :: 0 <= k < |evs| && evs[k].Evict? ==> !ds[k]
    ensures GrantedIn(evs, ds, i, j + 1) == GrantedIn(evs, ds, i, j) + if ds[j] then evs[j].cost else 0.0
    ensures GrantedIn(evs, ds, j, j) == 0.0
  {
    assert evs[i..j + 1] == evs[i..j] + [evs[j]] && ds[i..j + 1] == ds[i..j] + [ds[j]];
    GrantedAppend(evs[i..j], ds[i..j], evs[j], ds[j]);
  }

  /** Granting `x` at `t`, after the first j events, would overdraw no window that starts at one of their spends. */
  ghost predicate Fits(evs: seq<Event>, ds: seq<bool>, j: nat, x: real, t: real, lim: Limits)
    requires j <= |evs| == |ds|
    requires forall k :: 0 <= k < |evs| && evs[k].Evict? ==> !ds[k]
  {
    x <= lim.capacity &&
    forall i :: 0 <= i < j && evs[i].Spend? ==>
        GrantedIn(evs, ds, i, j) + x <= lim.capacity + Gain(lim.rate, t - evs[i].now)
  }

  lemma OneMoreStep(evs: seq<Event>, j: nat, lim: Limits)
    requires j < |evs|
    ensures RowAfter(None, evs[..j + 1], lim) == Apply(RowAfter(None, evs[..j], lim), evs[j], lim)
    ensures Decisions(None, evs, lim)[j] == Grants(RowAfter(None, evs[..j], lim), evs[j], lim)
  {
    hide Spent;
    RunSplits(None, evs[..j + 1], j, lim);
    assert evs[..j + 1][..j] == evs[..j] && evs[..j + 1][j..] == [evs[j]];
    var row := RowAfter(None, evs[..j], lim);
    assert [evs[j]][1..] == [];
    assert RowAfter(row, [evs[j]], lim) == RowAfter(Apply(row, evs[j], lim), [], lim);
    RunSplits(None, evs, j, lim);
    assert Decisions(row, evs[j..], lim)[0] == Grants(row, evs[j], lim);
  }

  lemma LevelAfterSpend(row: Option<Row>, e: Event, x: real, t: real, lim: Limits)
    requires e.Spend?
    ensures var paid := if Grants(row, e, lim) then e.cost else 0.0;
            x <= Level(Apply(row, e, lim), t, lim) <==>
                x <= lim.capacity && x + paid - Gain(lim.rate, t - e.now) <= Level(row, e.now, lim)
    ensures Grants(row, e, lim) <==> e.cost <= Level(row, e.now, lim)
  {
    SpentAtLevel(row, e, lim);
    hide Gain;
  }

  /** The bucket's level is the tightest of all its windows. */
  lemma {:induction false} LevelIsTightestWindow(evs: seq<Event>, j: nat, x: real, t: real, lim: Limits)
    requires NeverSweeps(evs) && j <= |evs|
    ensures x <= Level(RowAfter(None, evs[..j], lim), t, lim) <==> Fits(evs, Decisions(None, evs, lim), j, x, t, lim)
    decreases j
  {
    hide Gain, Spent, Level;
    var ds := Decisions(None, evs, lim);
    if j == 0 {
      EmptyLevel(t, lim);
      assert evs[..0] == [];
    } else {
      var n := j - 1;
      var e, row := evs[n], RowAfter(None, evs[..n], lim);
      OneMoreStep(evs, n, lim);
      var paid := if ds[n] then e.cost else 0.0;
      forall i | 0 <= i <= n
        ensures GrantedIn(evs, ds, i, j) == GrantedIn(evs, ds, i, n) + paid && GrantedIn(evs, ds, n, n) == 0.0
      {
        GrantedInGrows(evs, ds, i, n);
      }
      hide GrantedIn, Apply, Decisions;
      if e.Evict? {
        LevelIsTightestWindow(evs, n, x, t, lim);
        SweeplessEvict(row, e, lim);
      } else {
        LevelAfterSpend(row, e, x, t, lim);
        LevelIsTightestWindow(evs, n, x + paid - Gain(lim.rate, t - e.now), e.now, lim);
        WindowsShift(evs, ds, n, x, t, paid, lim);
      }
    }
  }

  lemma EmptyLevel(t: real, lim: Limits)
    ensures Level(None, t, lim) == lim.capacity
  {
  }

  lemma SweeplessEvict(row: Option<Row>, e: Event, lim: Limits)
    requires e.Evict? && !e.sweep
    ensures Apply(row, e, lim) == row
  {
  }

  /** Moving the question from a spend's reading to `t` moves every window by the same refill. */
  lemma WindowsShift(evs: seq<Event>, ds: seq<bool>, n: nat, x: real, t: real, paid: real, lim: Limits)
    requires n < |evs| == |ds| && evs[n].Spend?
    requires forall k :: 0 <= k < |evs| && evs[k].Evict? ==> !ds[k]
    requires forall i :: 0 <= i <= n ==> GrantedIn(evs, ds, i, n + 1) == GrantedIn(evs, ds, i, n) + paid
    requires GrantedIn(evs, ds, n, n) == 0.0
    ensures Fits(evs, ds, n + 1, x, t, lim) <==>
            x <= lim.capacity && Fits(evs, ds, n, x + paid - Gain(lim.rate, t - evs[n].now), evs[n].now, lim)
  {
    hide Gain, GrantedIn;
    var s := evs[n].now;
    forall i | 0 <= i <= n && evs[i].Spend?
      ensures Gain(lim.rate, t - evs[i].now) == Gain(lim.rate, t - s) + Gain(lim.rate, s - evs[i].now)
    {
      GainAdds(lim.rate, t - s, s - evs[i].now);
      assert t - s + (s - evs[i].now) == t - evs[i].now;
    }
    GainAdds(lim.rate, 0.0, 0.0);
    assert s - s == 0.0;
  }

  /** A spend is granted if and only if granting it keeps every window that ends with it, itself included, within the
      capacity plus the window's refill; for any clock readings. */
  lemma GrantedExactly(evs: seq<Event>, j: nat, lim: Limits)
    requires NeverSweeps(evs) && j < |evs| && evs[j].Spend?
    ensures Decisions(None, evs, lim)[j] <==> Fits(evs, Decisions(None, evs, lim), j, evs[j].cost, evs[j].now, lim)
  {
    hide Gain, Spent, Level, Fits;
    OneMoreStep(evs, j, lim);
    LevelAfterSpend(RowAfter(None, evs[..j], lim), evs[j], 0.0, 0.0, lim);
    LevelIsTightestWindow(evs, j, evs[j].cost, evs[j].now, lim);
  }

  /** The same with sweeps, under the skew bound. */
  lemma SweptGrantedExactly(evs: seq<Event>, peak: real, j: nat, lim: Limits)
    requires lim.Valid() && Steady(evs, peak, 4.5 * lim.per) && j < |evs| && evs[j].Spend?
    ensures Decisions(None, evs, lim)[j] <==> Fits(evs, Decisions(None, evs, lim), j, evs[j].cost, evs[j].now, lim)
  {
    hide Gain, Spent, Steady;
    EvictionInvisible(evs, peak, lim);
    var calm, ds := Unswept(evs), Decisions(None, evs, lim);
    GrantedExactly(calm, j, lim);
    forall i | 0 <= i < j
      ensures GrantedIn(evs, ds, i, j) == GrantedIn(calm, ds, i, j)
    {
      SameGrants(evs[i..j], calm[i..j], ds[i..j]);
    }
    hide GrantedIn, Decisions;
  }
}
