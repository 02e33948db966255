/** The bucket table of a store: whole-table runs, and what each key sees of them. */
module Ledger {
  import opened Wrappers
  import opened Buckets

  type Rows = map<string, Row>

  /** One bucket operation as a store commits it.  `swept` is false when the store declined to sweep. */
  datatype BucketOp =
    | SpendOn(key: string, cost: real, capacity: real, rate: real, now: real)
    | SweepOf(ns: string, cutoff: real, swept: bool)

  function BucketKey(ns: string, client: string): string { ns + ":" + client }

  predicate InNamespace(key: string, ns: string) { ns + ":" <= key }

  function Swept(rows: Rows, ns: string, cutoff: real): Rows {
    map key | key in rows && !(InNamespace(key, ns) && rows[key].seen < cutoff) :: rows[key]
  }

  function Committed(rows: Rows, op: BucketOp): Rows {
    match op
    case SpendOn(key, cost, capacity, rate, now) => rows[key := Spent(Lookup(rows, key), cost, capacity, rate, now).1]
    case SweepOf(ns, cutoff, swept) => if swept then Swept(rows, ns, cutoff) else rows
  }

  /** The store's answer to a spend. */
  predicate Allows(rows: Rows, op: BucketOp) {
    op.SpendOn? && Spent(Lookup(rows, op.key), op.cost, op.capacity, op.rate, op.now).0
  }

  function RowsAfter(ops: seq<BucketOp>): Rows {
    if ops == [] then map[] else Committed(RowsAfter(ops[..|ops| - 1]), ops[|ops| - 1])
  }

  lemma RowsAppend(ops: seq<BucketOp>, op: BucketOp)
    ensures RowsAfter(ops + [op]) == Committed(RowsAfter(ops), op)
  {
    assert (ops + [op])[..|ops|] == ops;
  }

  // ----- One key's view -----

  /** The events `op` causes for `key`. */
  function Touches(op: BucketOp, key: string, lim: Limits): seq<Event> {
    match op
    case SpendOn(k, cost, _, _, now) => if k == key then [Spend(cost, now)] else []
    case SweepOf(ns, cutoff, swept) => if InNamespace(key, ns) then [Evict(cutoff + lim.IdleTtl(), swept)] else []
  }

  function View(ops: seq<BucketOp>, key: string, lim: Limits): seq<Event> {
    if ops == [] then [] else View(ops[..|ops| - 1], key, lim) + Touches(ops[|ops| - 1], key, lim)
  }

  /** The answers given at the events of `View`. */
  function Answers(ops: seq<BucketOp>, key: string, lim: Limits): seq<bool> {
    if ops == [] then []
    else
      var before, op := ops[..|ops| - 1], ops[|ops| - 1];
      Answers(before, key, lim) + seq(|Touches(op, key, lim)|, i => Allows(RowsAfter(before), op))
  }

  lemma {:induction false} ViewLength(trail: seq<BucketOp>, key: string, lim: Limits)
    ensures |Answers(trail, key, lim)| == |View(trail, key, lim)|
  {
    if trail != [] {
      ViewLength(trail[..|trail| - 1], key, lim);
    }
  }

  lemma AnswerAppends(trail: seq<BucketOp>, op: BucketOp, key: string, lim: Limits)
    ensures View(trail + [op], key, lim) == View(trail, key, lim) + Touches(op, key, lim)
    ensures Touches(op, key, lim) == [] ==> Answers(trail + [op], key, lim) == Answers(trail, key, lim)
    ensures |Touches(op, key, lim)| == 1 ==>
              Answers(trail + [op], key, lim) == Answers(trail, key, lim) + [Allows(RowsAfter(trail), op)]
  {
    assert (trail + [op])[..|trail|] == trail;
    assert Answers(trail, key, lim) + [] == Answers(trail, key, lim);
    hide Allows, Touches;
    if |Touches(op, key, lim)| == 1 {
      assert seq(1, i => Allows(RowsAfter(trail), op)) == [Allows(RowsAfter(trail), op)];
    }
  }

  lemma SweepsAllowNothing(trail: seq<BucketOp>, op: BucketOp)
    requires op.SweepOf?
    ensures !Allows(RowsAfter(trail), op)
  {
  }

  /** Every spend on `key` comes from the limiter with these limits. */
  predicate OneLimiter(ops: seq<BucketOp>, key: string, lim: Limits) {
    forall op :: op in ops && op.SpendOn? && op.key == key ==> op.capacity == lim.capacity && op.rate == lim.rate
  }

  lemma OneMoreEvent(row: Option<Row>, evs: seq<Event>, e: Event, lim: Limits)
    ensures RowAfter(row, evs + [e], lim) == Apply(RowAfter(row, evs, lim), e, lim)
    ensures Decisions(row, evs + [e], lim) == Decisions(row, evs, lim) + [Grants(RowAfter(row, evs, lim), e, lim)]
  {
    RunSplits(row, evs + [e], |evs|, lim);
    assert (evs + [e])[..|evs|] == evs && (evs + [e])[|evs|..] == [e];
    var mid := RowAfter(row, evs, lim);
    assert [e][1..] == [];
    assert RowAfter(mid, [e], lim) == RowAfter(Apply(mid, e, lim), [], lim);
  }

  lemma TouchedRow(rows: Rows, op: BucketOp, key: string, lim: Limits)
    requires OneLimiter([op], key, lim)
    ensures var t := Touches(op, key, lim);
            && (t == [] ==> Lookup(Committed(rows, op), key) == Lookup(rows, key))
            && (t != [] ==>
                  && |t| == 1
                  && Lookup(Committed(rows, op), key) == Apply(Lookup(rows, key), t[0], lim)
                  && Allows(rows, op) == Grants(Lookup(rows, key), t[0], lim))
  {
    hide Spent;
    assert op in [op];
    if op.SweepOf? && InNamespace(key, op.ns) {
      assert op.cutoff + lim.IdleTtl() - lim.IdleTtl() == op.cutoff;
    }
  }

  /** A table run is, key by key, exactly the single-bucket run of that key's view. */
  lemma {:induction false} ViewIsExact(ops: seq<BucketOp>, key: string, lim: Limits)
    requires OneLimiter(ops, key, lim)
    ensures Lookup(RowsAfter(ops), key) == RowAfter(None, View(ops, key, lim), lim)
    ensures Answers(ops, key, lim) == Decisions(None, View(ops, key, lim), lim)
  {
    if ops != [] {
      hide Spent, Touches, Grants, Apply, Committed, Allows;
      var before, op := ops[..|ops| - 1], ops[|ops| - 1];
      assert op in ops;
      ViewIsExact(before, key, lim);
      TouchedRow(RowsAfter(before), op, key, lim);
      var evs, t := View(before, key, lim), Touches(op, key, lim);
      if t == [] {
        assert View(ops, key, lim) == evs;
        assert Answers(ops, key, lim) == Answers(before, key, lim);
      } else {
        assert View(ops, key, lim) == evs + [t[0]];
        OneMoreEvent(None, evs, t[0], lim);
      }
    }
  }

  lemma FirstColon(s: string, m: nat, n: nat)
    requires m < |s| && n < |s| && s[m] == ':' && s[n] == ':' && ':' !in s[..m] && ':' !in s[..n]
    ensures m == n
  {
  }

  lemma NamespaceOf(ns: string, other: string, client: string)
    requires ':' !in ns && ':' !in other && InNamespace(BucketKey(ns, client), other)
    ensures ns == other
  {
    var key := BucketKey(ns, client);
    assert key[..|ns|] == ns && key[|ns|] == ':';
    assert key[..|other|] == (other + ":")[..|other|] == other && key[|other|] == (other + ":")[|other|];
    FirstColon(key, |ns|, |other|);
  }

  /** Each namespace has its own limiter; namespaces are colon-free literals. */
  type Limiters = map<string, Limits>

  ghost predicate ValidLimiters(lims: Limiters) {
    forall ns :: ns in lims ==> ':' !in ns && lims[ns].Valid()
  }

  ghost predicate FromLimiter(op: BucketOp, lims: Limiters) {
    op.SpendOn? ==> exists ns, client :: ns in lims && op.key == BucketKey(ns, client)
                                         && op.capacity == lims[ns].capacity && op.rate == lims[ns].rate
  }

  /** A client's key is spent on by its own namespace's limiter only. */
  lemma OwnLimiter(ops: seq<BucketOp>, lims: Limiters, ns: string, client: string)
    requires ValidLimiters(lims) && ns in lims && forall op :: op in ops ==> FromLimiter(op, lims)
    ensures OneLimiter(ops, BucketKey(ns, client), lims[ns])
  {
    forall op | op in ops && op.SpendOn? && op.key == BucketKey(ns, client)
      ensures op.capacity == lims[ns].capacity && op.rate == lims[ns].rate
    {
      assert FromLimiter(op, lims);
      var ns', client' :| ns' in lims && op.key == BucketKey(ns', client')
                          && op.capacity == lims[ns'].capacity && op.rate == lims[ns'].rate;
      assert InNamespace(op.key, ns') && InNamespace(op.key, ns);
      NamespaceOf(ns, ns', client);
    }
  }

  /** Bucket keys and namespaces do not collide. */
  lemma SameKey(ns: string, client: string, ns': string, client': string)
    requires ':' !in ns && ':' !in ns'
    ensures BucketKey(ns, client) == BucketKey(ns', client') <==> ns == ns' && client == client'
    ensures InNamespace(BucketKey(ns, client), ns') <==> ns == ns'
  {
    var key := BucketKey(ns, client);
    if InNamespace(key, ns') {
      NamespaceOf(ns, ns', client);
    }
    if key == BucketKey(ns', client') {
      assert InNamespace(key, ns');
      assert key[|ns| + 1..] == client && BucketKey(ns', client')[|ns'| + 1..] == client';
    }
  }

  /** Sweeping one limiter's namespace never touches another's keys. */
  lemma NamespacesAreDisjoint(ns: string, other: string, client: string, rows: Rows, cutoff: real)
    requires ':' !in ns && ':' !in other && ns != other
    ensures !InNamespace(BucketKey(ns, client), other)
    ensures Lookup(Swept(rows, other, cutoff), BucketKey(ns, client)) == Lookup(rows, BucketKey(ns, client))
  {
    if InNamespace(BucketKey(ns, client), other) {
      NamespaceOf(ns, other, client);
    }
  }

  /** The rate bound for a whole table, evictions included: any window of one key's events that starts with a
      spend and ends in a grant, under the skew bound. */
  lemma TableRateBound(ops: seq<BucketOp>, key: string, lim: Limits, peak: real, i: nat, j: nat)
    requires lim.Valid() && OneLimiter(ops, key, lim)
    requires Steady(View(ops, key, lim), peak, 4.5 * lim.per)
    requires i <= j < |View(ops, key, lim)| == |Answers(ops, key, lim)|
    requires View(ops, key, lim)[i].Spend? && Answers(ops, key, lim)[j]
    ensures var evs, ds := View(ops, key, lim), Answers(ops, key, lim);
            && ds == Decisions(None, evs, lim)
            && GrantedCost(evs[i..j + 1], ds[i..j + 1]) <= lim.capacity + Gain(lim.rate, evs[j].now - evs[i].now)
  {
    ViewIsExact(ops, key, lim);
    SweptRateBound(View(ops, key, lim), peak, i, j, lim);
  }

  /** Two stores that receive the same calls but sweep differently give one key the same answers. */
  lemma StoresDecideAlike(ops: seq<BucketOp>, ops': seq<BucketOp>, key: string, lim: Limits, peak: real)
    requires lim.Valid() && OneLimiter(ops, key, lim) && SameCalls(ops, ops')
    requires Steady(View(ops, key, lim), peak, 4.5 * lim.per)
    ensures Answers(ops, key, lim) == Answers(ops', key, lim)
  {
    SameCallsViews(ops, ops', key, lim);
    var evs, evs' := View(ops, key, lim), View(ops', key, lim);
    ViewIsExact(ops, key, lim);
    ViewIsExact(ops', key, lim);
    SteadyUnswept(evs, evs', peak, 4.5 * lim.per);
    EvictionInvisible(evs, peak, lim);
    EvictionInvisible(evs', peak, lim);
  }

  predicate SameCall(a: BucketOp, b: BucketOp) {
    a == b || (a.SweepOf? && b.SweepOf? && a.(swept := true) == b.(swept := true))
  }

  predicate SameCalls(ops: seq<BucketOp>, ops': seq<BucketOp>) {
    |ops| == |ops'| && forall k :: 0 <= k < |ops| ==> SameCall(ops[k], ops'[k])
  }

  lemma UnsweptAppend(a: seq<Event>, b: seq<Event>)
    ensures Unswept(a + b) == Unswept(a) + Unswept(b)
  {
  }

  lemma TouchesAlike(a: BucketOp, b: BucketOp, key: string, lim: Limits)
    requires SameCall(a, b)
    ensures Unswept(Touches(a, key, lim)) == Unswept(Touches(b, key, lim))
  {
  }

  lemma {:induction false} SameCallsViews(ops: seq<BucketOp>, ops': seq<BucketOp>, key: string, lim: Limits)
    requires SameCalls(ops, ops') && OneLimiter(ops, key, lim)
    ensures Unswept(View(ops, key, lim)) == Unswept(View(ops', key, lim))
    ensures OneLimiter(ops', key, lim)
  {
    hide Touches, Unswept;
    if ops != [] {
      var n := |ops| - 1;
      assert SameCall(ops[n], ops'[n]) && ops[n] in ops;
      SameCallsViews(ops[..n], ops'[..n], key, lim);
      TouchesAlike(ops[n], ops'[n], key, lim);
      UnsweptAppend(View(ops[..n], key, lim), Touches(ops[n], key, lim));
      UnsweptAppend(View(ops'[..n], key, lim), Touches(ops'[n], key, lim));
      assert forall op :: op in ops' <==> op in ops'[..n] || op == ops'[n];
    }
  }

  lemma {:induction false} SteadyUnswept(evs: seq<Event>, evs': seq<Event>, peak: real, slack: real)
    requires Unswept(evs) == Unswept(evs') && Steady(evs, peak, slack)
    ensures Steady(evs', peak, slack)
  {
    if evs != [] {
      assert Unswept(evs[1..]) == Unswept(evs)[1..] && Unswept(evs'[1..]) == Unswept(evs')[1..];
      assert evs[0].now == Unswept(evs)[0].now == evs'[0].now;
      SteadyUnswept(evs[1..], evs'[1..], Max(peak, evs[0].now), slack);
    } else {
      assert |evs'| == |Unswept(evs')| == 0;
    }
  }

  // ----- What a stretch of a table's run grants a key -----

  function OpTime(op: BucketOp, lim: Limits): real {
    if op.SpendOn? then op.now else op.cutoff + lim.IdleTtl()
  }

  /** Readings that never go back, between t0 and t1. */
  ghost predicate OpsWithin(ops: seq<BucketOp>, lim: Limits, t0: real, t1: real) {
    && (forall k :: 0 <= k < |ops| ==> t0 <= OpTime(ops[k], lim) <= t1)
    && forall k, l :: 0 <= k < l < |ops| ==> OpTime(ops[k], lim) <= OpTime(ops[l], lim)
  }

  /** Cost granted to `key` by the operations `ops` of a store that has taken `before`. */
  function GrantedBy(before: seq<BucketOp>, ops: seq<BucketOp>, key: string): real {
    if ops == [] then 0.0
    else
      var op, done := ops[|ops| - 1], ops[..|ops| - 1];
      GrantedBy(before, done, key) +
      if op.SpendOn? && op.key == key && Allows(RowsAfter(before + done), op) then op.cost else 0.0
  }

  lemma {:induction false} GrantedBySplits(before: seq<BucketOp>, a: seq<BucketOp>, b: seq<BucketOp>, key: string)
    ensures GrantedBy(before, a + b, key) == GrantedBy(before, a, key) + GrantedBy(before + a, b, key)
  {
    hide Allows, RowsAfter;
    if b == [] {
      assert a + b == a;
    } else {
      var n := |b| - 1;
      assert (a + b)[..|a| + n] == a + b[..n] && before + (a + b[..n]) == before + a + b[..n];
      GrantedBySplits(before, a, b[..n], key);
    }
  }

  /** The events and answers that `ops` add. */
  ghost predicate Adds(before: seq<BucketOp>, ops: seq<BucketOp>, key: string, lim: Limits, evs: seq<Event>,
                       ds: seq<bool>) {
    && evs == View(ops, key, lim) && |ds| == |evs|
    && (forall k :: 0 <= k < |evs| && evs[k].Evict? ==> !ds[k])
    && View(before + ops, key, lim) == View(before, key, lim) + evs
    && Answers(before + ops, key, lim) == Answers(before, key, lim) + ds
    && GrantedCost(evs, ds) == GrantedBy(before, ops, key)
  }

  lemma {:induction false} ViewGrows(before: seq<BucketOp>, ops: seq<BucketOp>, key: string, lim: Limits)
    returns (evs: seq<Event>, ds: seq<bool>)
    ensures Adds(before, ops, key, lim, evs, ds)
  {
    if ops == [] {
      evs, ds := [], [];
      assert before + ops == before;
    } else {
      var n := |ops| - 1;
      evs, ds := ViewGrows(before, ops[..n], key, lim);
      assert ops == ops[..n] + [ops[n]];
      evs, ds := OneMoreAdds(before, ops[..n], ops[n], key, lim, evs, ds);
    }
  }

  lemma OneMoreAdds(before: seq<BucketOp>, done: seq<BucketOp>, op: BucketOp, key: string, lim: Limits,
                    evs: seq<Event>, ds: seq<bool>) returns (evs': seq<Event>, ds': seq<bool>)
    requires Adds(before, done, key, lim, evs, ds)
    ensures Adds(before, done + [op], key, lim, evs', ds')
  {
    var t, trail := Touches(op, key, lim), before + done;
    assert before + (done + [op]) == trail + [op];
    AnswerAppends(trail, op, key, lim);
    AnswerAppends(done, op, key, lim);
    TouchGrants(op, key, lim, trail);
    GrantedByAppends(before, done, op, key);
    hide *;
    if t == [] {
      evs', ds' := evs, ds;
      AddsNothing(before, done, op, key, lim, evs, ds);
    } else {
      evs', ds' := evs + [t[0]], ds + [Allows(RowsAfter(trail), op)];
      AddsOne(before, done, op, key, lim, evs, ds, t[0], Allows(RowsAfter(trail), op));
    }
  }

  lemma GrantedByAppends(before: seq<BucketOp>, done: seq<BucketOp>, op: BucketOp, key: string)
    ensures GrantedBy(before, done + [op], key) ==
            GrantedBy(before, done, key) +
            if op.SpendOn? && op.key == key && Allows(RowsAfter(before + done), op) then op.cost else 0.0
  {
    assert (done + [op])[..|done|] == done;
    hide Allows, RowsAfter;
  }

  lemma AddsNothing(before: seq<BucketOp>, done: seq<BucketOp>, op: BucketOp, key: string, lim: Limits,
                    evs: seq<Event>, ds: seq<bool>)
    requires Adds(before, done, key, lim, evs, ds)
    requires View(done + [op], key, lim) == View(done, key, lim) + []
    requires View(before + (done + [op]), key, lim) == View(before + done, key, lim) + []
    requires Answers(before + (done + [op]), key, lim) == Answers(before + done, key, lim)
    requires GrantedBy(before, done + [op], key) == GrantedBy(before, done, key) + 0.0
    ensures Adds(before, done + [op], key, lim, evs, ds)
  {
    hide View, Answers, GrantedBy, GrantedCost;
    assert evs + [] == evs && View(before + done, key, lim) + [] == View(before + done, key, lim);
  }

  lemma AddsOne(before: seq<BucketOp>, done: seq<BucketOp>, op: BucketOp, key: string, lim: Limits,
                evs: seq<Event>, ds: seq<bool>, e: Event, d: bool)
    requires Adds(before, done, key, lim, evs, ds) && (e.Evict? ==> !d)
    requires View(done + [op], key, lim) == View(done, key, lim) + [e]
    requires View(before + (done + [op]), key, lim) == View(before + done, key, lim) + [e]
    requires Answers(before + (done + [op]), key, lim) == Answers(before + done, key, lim) + [d]
    requires GrantedBy(before, done + [op], key) == GrantedBy(before, done, key) + if d then e.cost else 0.0
    ensures Adds(before, done + [op], key, lim, evs + [e], ds + [d])
  {
    hide View, Answers, GrantedBy, GrantedCost;
    GrantedAppend(evs, ds, e, d);
  }

  lemma TouchGrants(op: BucketOp, key: string, lim: Limits, trail: seq<BucketOp>)
    ensures var t, allowed := Touches(op, key, lim), Allows(RowsAfter(trail), op);
            && (t == [] || t == [t[0]])
            && (t != [] && t[0].Evict? ==> !allowed)
            && (if op.SpendOn? && op.key == key && allowed then op.cost else 0.0) ==
               (if t != [] && allowed then t[0].cost else 0.0)
  {
    hide RowsAfter, Spent;
    if op.SweepOf? {
      SweepsAllowNothing(trail, op);
    }
  }

  lemma {:induction false} ViewTimes(ops: seq<BucketOp>, key: string, lim: Limits, t0: real, t1: real)
    requires OpsWithin(ops, lim, t0, t1)
    ensures Ascending(View(ops, key, lim))
    ensures forall e :: e in View(ops, key, lim) ==>
              t0 <= e.now <= if ops == [] then t0 else OpTime(ops[|ops| - 1], lim)
  {
    if ops != [] {
      var n := |ops| - 1;
      ViewTimes(ops[..n], key, lim, t0, t1);
      var evs := View(ops[..n], key, lim);
      assert forall k :: 0 <= k < |evs| ==> evs[k] in evs;
    }
  }

  /** Whatever a store took before, and however it was swept: operations with ascending readings between t0 and t1
      grant a key at most the capacity plus what refills in between. */
  lemma StretchBound(before: seq<BucketOp>, ops: seq<BucketOp>, key: string, lim: Limits, t0: real, t1: real)
    requires lim.Valid() && OneLimiter(before + ops, key, lim) && t0 <= t1
    requires OpsWithin(ops, lim, t0, t1)
    ensures GrantedBy(before, ops, key) <= lim.capacity + Gain(lim.rate, t1 - t0)
  {
    ViewTimes(ops, key, lim, t0, t1);
    hide Gain, Spent, OpTime, Ascending, RowsAfter, GrantedBy, Answers;
    var evs, ds := ViewGrows(before, ops, key, lim);
    ViewIsExact(before + ops, key, lim);
    var start := View(before, key, lim);
    RunSplits(None, start + evs, |start|, lim);
    assert (start + evs)[..|start|] == start && (start + evs)[|start|..] == evs;
    ViewLength(before, key, lim);
    hide View, OneLimiter;
    assert Decisions(None, start + evs, lim)[|start|..] == ds;
    assert forall k :: 0 <= k < |evs| ==> evs[k] in evs;
    AscendingBound(RowAfter(None, start, lim), evs, t0, t1, lim);
  }
}
