/** W workers, each with a ResilientStore over one shared primary and a fallback of its own.  A call whose primary
    raises is answered by that worker's fallback, so a key has W + 1 buckets; between them they grant at most W + 1
    allowances. Source: amiweak/store.py:306-388, amiweak/rate_limit.py:39-69. */
module Fleet {
  import opened Wrappers
  import opened Buckets
  import opened Ledger
  import opened Tables
  import opened Resilience
  import opened Stores

  // ----- Runs -----

  /** One store call of one worker, in the order in which the stores take them.  `now` is the clock reading behind the
      call, taken before it waited for its turn, so later steps may carry earlier readings. */
  datatype Step =
    | Charge(w: nat, ns: string, client: string, cost: int, now: real, raised: bool)
    | Expire(w: nat, ns: string, now: real, raised: bool)
    | Put(w: nat, op: Op, raised: bool)
    | Scrape(w: nat, raised: bool)

  /** Trail 0 is the primary's, trail w + 1 the fallback's of worker w. */
  type Trails = seq<seq<BucketOp>>

  /** What the stores have taken: every bucket operation, every metric operation on the primary, and every worker's
      own calls. */
  datatype State = State(trails: Trails, log: seq<Op>, calls: seq<seq<Call>>) {
    predicate Valid() { |trails| == |calls| + 1 }
  }

  function Slot(step: Step): nat { if step.raised then step.w + 1 else 0 }

  predicate Proper(step: Step, workers: nat, lims: Limiters) {
    step.w < workers && (step.Charge? || step.Expire? ==> step.ns in lims)
  }

  predicate ProperRun(steps: seq<Step>, workers: nat, lims: Limiters) {
    forall step :: step in steps ==> Proper(step, workers, lims)
  }

  /** What a step commits to a store with this trail.  A request of no cost is let through before any store is asked. */
  function Commits(step: Step, lims: Limiters, trail: seq<BucketOp>): seq<BucketOp>
    requires step.Charge? || step.Expire? ==> step.ns in lims
  {
    match step
    case Charge(_, ns, client, cost, now, _) =>
      if cost <= 0 then []
      else [SpendOn(BucketKey(ns, client), cost as real, lims[ns].capacity, lims[ns].rate, now)]
    case Expire(_, ns, now, raised) =>
      [SweepOf(ns, now - lims[ns].IdleTtl(), raised ==> |RowsAfter(trail)| >= SWEEP_THRESHOLD)]
    case _ => []
  }

  /** What its caller is told. */
  predicate Reply(step: Step, lims: Limiters, trail: seq<BucketOp>)
    requires step.Charge? || step.Expire? ==> step.ns in lims
  {
    step.Charge? && (step.cost <= 0 || Allows(RowsAfter(trail), Commits(step, lims, trail)[0]))
  }

  function CallsMade(step: Step): seq<Call> {
    match step
    case Charge(_, _, _, cost, _, raised) => if cost <= 0 then [] else [Limit(raised)]
    case Expire(_, _, _, raised) => [Limit(raised)]
    case Put(_, op, raised) => [Write(op, raised)]
    case Scrape(_, raised) => [Read(raised)]
  }

  function Next(s: State, lims: Limiters, step: Step): (s': State)
    requires s.Valid() && Proper(step, |s.calls|, lims)
    ensures s'.Valid() && |s'.calls| == |s.calls|
  {
    State(s.trails[Slot(step) := s.trails[Slot(step)] + Commits(step, lims, s.trails[Slot(step)])],
          s.log + PrimaryOps(CallsMade(step)),
          s.calls[step.w := s.calls[step.w] + CallsMade(step)])
  }

  function Run(start: State, lims: Limiters, steps: seq<Step>): (s: State)
    requires start.Valid() && ProperRun(steps, |start.calls|, lims)
    ensures s.Valid() && |s.calls| == |start.calls|
  {
    if steps == [] then start
    else
      var last := |steps| - 1;
      assert Proper(steps[last], |start.calls|, lims);
      Next(Run(start, lims, steps[..last]), lims, steps[last])
  }

  function Replies(start: State, lims: Limiters, steps: seq<Step>): (replies: seq<bool>)
    requires start.Valid() && ProperRun(steps, |start.calls|, lims)
    ensures |replies| == |steps|
  {
    if steps == [] then []
    else
      var last := |steps| - 1;
      assert Proper(steps[last], |start.calls|, lims);
      var before := Run(start, lims, steps[..last]);
      Replies(start, lims, steps[..last]) + [Reply(steps[last], lims, before.trails[Slot(steps[last])])]
  }

  lemma RunGrows(start: State, lims: Limiters, steps: seq<Step>, k: nat)
    requires start.Valid() && ProperRun(steps, |start.calls|, lims) && k < |steps|
    ensures Proper(steps[k], |start.calls|, lims)
    ensures var before := Run(start, lims, steps[..k]);
            && Run(start, lims, steps[..k + 1]) == Next(before, lims, steps[k])
            && Replies(start, lims, steps[..k + 1]) ==
               Replies(start, lims, steps[..k]) + [Reply(steps[k], lims, before.trails[Slot(steps[k])])]
  {
    hide Reply, Next;
    assert steps[..k + 1][..k] == steps[..k];
    assert steps[..k + 1][k] in steps;
  }

  // ----- The same runs on the objects -----

  ghost function Parts(stores: seq<ResilientStore>): set<object> {
    (set w | 0 <= w < |stores| :: stores[w]) + (set w | 0 <= w < |stores| :: stores[w].primary) +
    (set w | 0 <= w < |stores| :: stores[w].fallback)
  }

  lemma OwnParts(stores: seq<ResilientStore>, w: nat)
    requires w < |stores|
    ensures {stores[w], stores[w].primary, stores[w].fallback} <= Parts(stores)
  {
  }

  /** Workers that share the primary and nothing else. */
  ghost predicate Wired(stores: seq<ResilientStore>) {
    && stores != []
    && (forall w :: 0 <= w < |stores| ==> stores[w].primary == stores[0].primary)
    && forall v, w :: 0 <= v < w < |stores| ==> stores[v] != stores[w] && stores[v].fallback != stores[w].fallback
  }

  /** What one worker holds of its own. */
  ghost predicate Holds(store: ResilientStore, trail: seq<BucketOp>, calls: seq<Call>)
    reads store, store.fallback
  {
    store.Local() && store.fallback.trail == trail && store.calls == calls
  }

  ghost predicate Shows(stores: seq<ResilientStore>, s: State)
    reads Parts(stores)
  {
    && Wired(stores) && |s.calls| == |stores| && s.Valid()
    && stores[0].primary.Valid() && stores[0].primary.trail == s.trails[0] && stores[0].primary.log == s.log
    && forall w :: 0 <= w < |stores| ==> Holds(stores[w], s.trails[w + 1], s.calls[w])
  }

  method Perform(store: ResilientStore, lims: Limiters, step: Step) returns (reply: bool)
    requires store.Valid() && (step.Charge? || step.Expire? ==> step.ns in lims)
    modifies store, store.primary, store.fallback
    ensures store.Valid()
    ensures store.primary.trail == old(store.primary.trail) +
              if step.raised then [] else Commits(step, lims, old(store.primary.trail))
    ensures store.fallback.trail == old(store.fallback.trail) +
              if step.raised then Commits(step, lims, old(store.fallback.trail)) else []
    ensures reply == Reply(step, lims, if step.raised then old(store.fallback.trail) else old(store.primary.trail))
    ensures store.calls == old(store.calls) + CallsMade(step)
    ensures store.primary.log == old(store.primary.log) + PrimaryOps(CallsMade(step))
  {
    OneCall(step);
    hide RowsAfter, Allows, Replay, FallbackOps, PrimaryOps;
    reply := false;
    match step {
      case Charge(_, ns, client, cost, now, raised) =>
        reply := true;
        if cost > 0 {
          reply := store.Spend(BucketKey(ns, client), cost as real, lims[ns].capacity, lims[ns].rate, now, raised);
        }
      case Expire(_, ns, now, raised) =>
        store.EvictBuckets(ns, now - lims[ns].IdleTtl(), raised);
      case Put(_, op, raised) =>
        match op {
          case Incr(name, tag, amount) => store.Incr(name, tag, amount, raised);
          case Observe(name, seconds) => store.Observe(name, seconds, raised);
          case SetHealth(name, lastOk, lastError) => store.SetHealth(name, lastOk, lastError, raised);
        }
      case Scrape(_, raised) =>
        var shown := store.TakeSnapshot(raised);
    }
  }

  lemma OneCall(step: Step)
    ensures PrimaryOps([]) == []
    ensures CallsMade(step) != [] ==> PrimaryOps(CallsMade(step)) == ToPrimary(CallsMade(step)[0])
  {
    if CallsMade(step) != [] {
      assert CallsMade(step)[..0] == [];
    }
  }

  /** A step of one worker leaves the others as they were, but for what the shared primary took. */
  method Advance(stores: seq<ResilientStore>, lims: Limiters, step: Step, ghost s: State) returns (reply: bool)
    requires Shows(stores, s) && Proper(step, |stores|, lims)
    modifies stores[step.w], stores[step.w].primary, stores[step.w].fallback
    ensures Shows(stores, Next(s, lims, step)) && reply == Reply(step, lims, s.trails[Slot(step)])
  {
    NextParts(s, lims, step);
    ghost var next := Next(s, lims, step);
    hide Parts, Reply, Commits, CallsMade, Replay, FallbackOps, PrimaryOps, Next;
    reply := Perform(stores[step.w], lims, step);
    forall v | 0 <= v < |stores|
      ensures Holds(stores[v], next.trails[v + 1], next.calls[v])
    {
      if v != step.w {
        assert stores[v] != stores[step.w] && stores[v].fallback != stores[step.w].fallback;
      }
    }
  }

  lemma NextParts(s: State, lims: Limiters, step: Step)
    requires s.Valid() && Proper(step, |s.calls|, lims)
    ensures var s', here := Next(s, lims, step), Commits(step, lims, s.trails[Slot(step)]);
            && s'.trails[0] == s.trails[0] + (if step.raised then [] else here)
            && (forall w :: 0 <= w < |s.calls| ==>
                  && s'.trails[w + 1] ==
                      (if step.raised && w == step.w then s.trails[w + 1] + here else s.trails[w + 1])
                  && s'.calls[w] == (if w == step.w then s.calls[w] + CallsMade(step) else s.calls[w]))
            && s'.log == s.log + PrimaryOps(CallsMade(step))
            && s.trails[step.w + 1] + [] == s.trails[step.w + 1]
  {
    hide Commits, CallsMade, PrimaryOps;
    assert s.trails[0] + [] == s.trails[0];
  }

  /** Run the workers: every caller is told the run's reply, and every store has taken exactly what the run sent it. */
  method Operate(stores: seq<ResilientStore>, lims: Limiters, steps: seq<Step>, ghost start: State)
    returns (replies: seq<bool>)
    requires Shows(stores, start) && ProperRun(steps, |stores|, lims)
    modifies Parts(stores)
    ensures Shows(stores, Run(start, lims, steps)) && replies == Replies(start, lims, steps)
  {
    replies := [];
    assert |start.calls| == |stores| && start.Valid();
    hide Parts, Shows, Reply, Next;
    for k := 0 to |steps|
      invariant Shows(stores, Run(start, lims, steps[..k])) && replies == Replies(start, lims, steps[..k])
    {
      RunGrows(start, lims, steps, k);
      OwnParts(stores, steps[k].w);
      var reply := Advance(stores, lims, steps[k], Run(start, lims, steps[..k]));
      replies := replies + [reply];
    }
    assert steps[..|steps|] == steps;
  }

  // ----- One bucket, any interval of readings -----

  predicate Counts(evs: seq<Event>, ds: seq<bool>, k: nat, t0: real, t1: real)
    requires k < |evs| == |ds|
  {
    ds[k] && evs[k].Spend? && t0 <= evs[k].now <= t1
  }

  /** Granted cost of events i..j with a reading between t0 and t1. */
  function GrantedDuring(evs: seq<Event>, ds: seq<bool>, i: nat, j: nat, t0: real, t1: real): real
    requires i <= j <= |evs| == |ds|
    decreases j - i
  {
    if i == j then 0.0
    else (if Counts(evs, ds, i, t0, t1) then evs[i].cost else 0.0) + GrantedDuring(evs, ds, i + 1, j, t0, t1)
  }

  lemma {:induction false} DuringSplitsLast(evs: seq<Event>, ds: seq<bool>, i: nat, j: nat, t0: real, t1: real)
    requires i < j <= |evs| == |ds|
    ensures GrantedDuring(evs, ds, i, j, t0, t1) ==
            GrantedDuring(evs, ds, i, j - 1, t0, t1) + if Counts(evs, ds, j - 1, t0, t1) then evs[j - 1].cost else 0.0
    decreases j - i
  {
    hide Counts;
    if i + 1 < j {
      DuringSplitsLast(evs, ds, i + 1, j, t0, t1);
    }
  }

  lemma {:induction false} DuringPrefix(evs: seq<Event>, ds: seq<bool>, e: Event, d: bool, i: nat, t0: real, t1: real)
    requires i <= |evs| == |ds|
    ensures GrantedDuring(evs + [e], ds + [d], i, |evs|, t0, t1) == GrantedDuring(evs, ds, i, |evs|, t0, t1)
    decreases |evs| - i
  {
    if i < |evs| {
      DuringPrefix(evs, ds, e, d, i + 1, t0, t1);
    }
  }

  predicate CostsSomething(evs: seq<Event>) {
    forall k :: 0 <= k < |evs| && evs[k].Spend? ==> evs[k].cost >= 0.0
  }

  lemma {:induction false} DuringAtMostAll(evs: seq<Event>, ds: seq<bool>, i: nat, j: nat, t0: real, t1: real)
    requires i <= j <= |evs| == |ds| && CostsSomething(evs)
    requires forall k :: 0 <= k < |evs| && evs[k].Evict? ==> !ds[k]
    ensures 0.0 <= GrantedDuring(evs, ds, i, j, t0, t1) <= GrantedIn(evs, ds, i, j)
    decreases j - i
  {
    if i < j {
      assert evs[i..j][1..] == evs[i + 1..j] && ds[i..j][1..] == ds[i + 1..j];
      DuringAtMostAll(evs, ds, i + 1, j, t0, t1);
    }
  }

  /** One bucket, swept at any time, with commits in any order that leaves no reading more than 4.5 windows behind. */
  lemma {:induction false} BucketDuring(evs: seq<Event>, peak: real, i: nat, j: nat, t0: real, t1: real, lim: Limits)
    requires lim.Valid() && Steady(evs, peak, 4.5 * lim.per) && CostsSomething(evs) && i <= j <= |evs| && t0 <= t1
    ensures GrantedDuring(evs, Decisions(None, evs, lim), i, j, t0, t1) <= lim.capacity + Gain(lim.rate, t1 - t0)
    decreases j - i
  {
    hide Gain, Spent, Decisions, Steady, CostsSomething;
    var ds := Decisions(None, evs, lim);
    GainPerWindow(lim, 1.0);
    GainAdds(lim.rate, 0.0, 0.0);
    GainGrows(lim.rate, 0.0, t1 - t0);
    if i < j {
      DuringSplitsLast(evs, ds, i, j, t0, t1);
      if !Counts(evs, ds, i, t0, t1) {
        BucketDuring(evs, peak, i + 1, j, t0, t1, lim);
      } else if !Counts(evs, ds, j - 1, t0, t1) {
        BucketDuring(evs, peak, i, j - 1, t0, t1, lim);
      } else {
        SweptRateBound(evs, peak, i, j - 1, lim);
        DuringAtMostAll(evs, ds, i, j, t0, t1);
        GainGrows(lim.rate, evs[j - 1].now - evs[i].now, t1 - t0);
      }
    }
  }

  // ----- All the buckets of one key -----

  /** Spends by their own limiters, at a price. */
  ghost predicate OwnTrail(trail: seq<BucketOp>, lims: Limiters) {
    forall op :: op in trail ==> FromLimiter(op, lims) && (op.SpendOn? ==> op.cost >= 0.0)
  }

  /** What one store has granted a key in an interval. */
  function TrailGranted(trail: seq<BucketOp>, key: string, lim: Limits, t0: real, t1: real): real {
    ViewLength(trail, key, lim);
    var evs := View(trail, key, lim);
    GrantedDuring(evs, Answers(trail, key, lim), 0, |evs|, t0, t1)
  }

  function TrailsGranted(trails: Trails, key: string, lim: Limits, t0: real, t1: real): real {
    if trails == [] then 0.0
    else
      var last := |trails| - 1;
      TrailsGranted(trails[..last], key, lim, t0, t1) + TrailGranted(trails[last], key, lim, t0, t1)
  }

  /** What an operation adds to that. */
  function OpGrants(trail: seq<BucketOp>, op: BucketOp, key: string, t0: real, t1: real): real {
    if op.SpendOn? && op.key == key && t0 <= op.now <= t1 && Allows(RowsAfter(trail), op) then op.cost else 0.0
  }

  lemma TrailGrows(trail: seq<BucketOp>, op: BucketOp, key: string, lim: Limits, t0: real, t1: real)
    ensures TrailGranted(trail + [op], key, lim, t0, t1) ==
            TrailGranted(trail, key, lim, t0, t1) + OpGrants(trail, op, key, t0, t1)
  {
    hide RowsAfter;
    var evs, ds, t := View(trail, key, lim), Answers(trail, key, lim), Touches(op, key, lim);
    ViewLength(trail, key, lim);
    ViewLength(trail + [op], key, lim);
    AnswerAppends(trail, op, key, lim);
    hide Allows;
    if t == [] {
      assert evs + [] == evs;
    } else {
      var d := Allows(RowsAfter(trail), op);
      assert t == [t[0]];
      DuringPrefix(evs, ds, t[0], d, 0, t0, t1);
      DuringSplitsLast(evs + [t[0]], ds + [d], 0, |evs| + 1, t0, t1);
      hide GrantedDuring;
      if op.SweepOf? {
        SweepsAllowNothing(trail, op);
      }
    }
  }

  lemma {:induction false} TrailsMove(trails: Trails, i: nat, trail: seq<BucketOp>, key: string, lim: Limits, t0: real,
                                      t1: real)
    requires i < |trails|
    ensures TrailsGranted(trails[i := trail], key, lim, t0, t1) - TrailsGranted(trails, key, lim, t0, t1) ==
            TrailGranted(trail, key, lim, t0, t1) - TrailGranted(trails[i], key, lim, t0, t1)
  {
    hide TrailGranted;
    var last := |trails| - 1;
    if i == last {
      assert trails[i := trail][..last] == trails[..last];
    } else {
      assert trails[i := trail][..last] == trails[..last][i := trail];
      TrailsMove(trails[..last], i, trail, key, lim, t0, t1);
    }
  }

  /** What n buckets may grant in `dt` seconds. */
  function Allowances(n: nat, lim: Limits, dt: real): real { n as real * (lim.capacity + Gain(lim.rate, dt)) }

  lemma OneMoreAllowance(n: nat, lim: Limits, dt: real)
    ensures Allowances(n + 1, lim, dt) == Allowances(n, lim, dt) + lim.capacity + Gain(lim.rate, dt)
    ensures Allowances(0, lim, dt) == 0.0
  {
    hide Gain;
    var bound := lim.capacity + Gain(lim.rate, dt);
    assert (n + 1) as real * bound == n as real * bound + bound;
    assert 0 as real * bound == 0.0;
  }

  lemma {:induction false} TrailsBound(trails: Trails, key: string, lim: Limits, peak: real, t0: real, t1: real)
    requires lim.Valid() && t0 <= t1
    requires AllBounded(trails, key, lim, peak)
    ensures TrailsGranted(trails, key, lim, t0, t1) <= Allowances(|trails|, lim, t1 - t0)
  {
    hide Gain, TrailGranted, Bounded, Allowances;
    OneMoreAllowance(if trails == [] then 0 else |trails| - 1, lim, t1 - t0);
    if trails != [] {
      var last := |trails| - 1;
      assert trails[last] in trails && AllBounded(trails[..last], key, lim, peak);
      TrailBound(trails[last], key, lim, peak, t0, t1);
      TrailsBound(trails[..last], key, lim, peak, t0, t1);
    }
  }

  ghost predicate Bounded(trail: seq<BucketOp>, key: string, lim: Limits, peak: real) {
    && OneLimiter(trail, key, lim) && CostsSomething(View(trail, key, lim))
    && Steady(View(trail, key, lim), peak, 4.5 * lim.per)
  }

  ghost predicate AllBounded(trails: Trails, key: string, lim: Limits, peak: real) {
    forall trail :: trail in trails ==> Bounded(trail, key, lim, peak)
  }

  lemma TrailBound(trail: seq<BucketOp>, key: string, lim: Limits, peak: real, t0: real, t1: real)
    requires Bounded(trail, key, lim, peak)
    ensures TrailGranted(trail, key, lim, t0, t1) >= 0.0
    ensures lim.Valid() && t0 <= t1 ==> TrailGranted(trail, key, lim, t0, t1) <= lim.capacity + Gain(lim.rate, t1 - t0)
  {
    hide Gain, Steady, CostsSomething, OneLimiter;
    ViewIsExact(trail, key, lim);
    var evs := View(trail, key, lim);
    DuringAtMostAll(evs, Answers(trail, key, lim), 0, |evs|, t0, t1);
    if lim.Valid() && t0 <= t1 {
      BucketDuring(evs, peak, 0, |evs|, t0, t1, lim);
    }
  }

  // ----- What the callers of a run were granted -----

  /** Does this step touch the client's buckets? */
  predicate Concerns(step: Step, ns: string, client: string): (r: bool)
    ensures r ==> step.Charge? || step.Expire?
  {
    match step
    case Charge(_, n, c, cost, _, _) => n == ns && c == client && cost > 0
    case Expire(_, n, _, _) => n == ns
    case _ => false
  }

  /** The readings of a run that touch the client's buckets, in commit order. */
  function Readings(steps: seq<Step>, ns: string, client: string): seq<Event> {
    if steps == [] then []
    else
      var step := steps[|steps| - 1];
      Readings(steps[..|steps| - 1], ns, client) + if Concerns(step, ns, client) then [Evict(step.now, false)] else []
  }

  /** What one caller was granted, if its reading lies in the interval. */
  function PaidBy(step: Step, reply: bool, ns: string, client: string, t0: real, t1: real): real {
    if step.Charge? && Concerns(step, ns, client) && reply && t0 <= step.now <= t1 then step.cost as real else 0.0
  }

  /** What the client's callers were granted, whichever worker they asked. */
  function ClientGranted(steps: seq<Step>, replies: seq<bool>, ns: string, client: string, t0: real, t1: real): real
    requires |steps| == |replies|
  {
    if steps == [] then 0.0
    else
      var last := |steps| - 1;
      ClientGranted(steps[..last], replies[..last], ns, client, t0, t1) +
      PaidBy(steps[last], replies[last], ns, client, t0, t1)
  }

  /** A step commits at most one operation, which its own limiter sent and which touches the client's key exactly when
      the step concerns the client. */
  lemma CommitTouches(step: Step, lims: Limiters, trail: seq<BucketOp>, ns: string, client: string, t0: real, t1: real)
    requires ValidLimiters(lims) && ns in lims && (step.Charge? || step.Expire? ==> step.ns in lims)
    ensures |Commits(step, lims, trail)| <= 1
    ensures Commits(step, lims, trail) == [] ==> !Concerns(step, ns, client)
    ensures Commits(step, lims, trail) != [] ==>
              var op := Commits(step, lims, trail)[0];
              && FromLimiter(op, lims) && (op.SpendOn? ==> op.cost >= 0.0)
              && Touches(op, BucketKey(ns, client), lims[ns]) ==
                 if !Concerns(step, ns, client) then []
                 else if step.Charge? then [Spend(step.cost as real, step.now)]
                 else [Evict(step.now, op.swept)]
    ensures Commits(step, lims, trail) != [] ==>
              OpGrants(trail, Commits(step, lims, trail)[0], BucketKey(ns, client), t0, t1) ==
              PaidBy(step, Reply(step, lims, trail), ns, client, t0, t1)
  {
    hide Allows, RowsAfter, BucketKey, InNamespace;
    if step.Charge? || step.Expire? {
      SameKey(ns, client, step.ns, if step.Charge? then step.client else "");
      assert step.now - lims[step.ns].IdleTtl() + lims[step.ns].IdleTtl() == step.now;
    }
  }

  function PeakOf(evs: seq<Event>, peak: real): real {
    if evs == [] then peak else PeakOf(evs[1..], Max(peak, evs[0].now))
  }

  lemma {:induction false} SteadyAppends(evs: seq<Event>, e: Event, peak: real, slack: real)
    ensures Steady(evs + [e], peak, slack) <==> Steady(evs, peak, slack) && e.now >= PeakOf(evs, peak) - slack
    ensures PeakOf(evs + [e], peak) == Max(PeakOf(evs, peak), e.now)
    decreases |evs|
  {
    if evs != [] {
      assert (evs + [e])[1..] == evs[1..] + [e];
      SteadyAppends(evs[1..], e, Max(peak, evs[0].now), slack);
    } else {
      assert ([] + [e])[1..] == [];
    }
  }

  /** A bucket of the client that is in order, with no reading so far beyond `top`. */
  ghost predicate InOrder(trail: seq<BucketOp>, lims: Limiters, ns: string, client: string, peak: real, top: real)
    requires ns in lims
  {
    var evs := View(trail, BucketKey(ns, client), lims[ns]);
    && OwnTrail(trail, lims) && CostsSomething(evs)
    && Steady(evs, peak, 4.5 * lims[ns].per) && PeakOf(evs, peak) <= top
  }

  lemma OwnGrows(trail: seq<BucketOp>, op: BucketOp, lims: Limiters)
    requires OwnTrail(trail, lims) && FromLimiter(op, lims) && (op.SpendOn? ==> op.cost >= 0.0)
    ensures OwnTrail(trail + [op], lims)
  {
    assert forall o :: o in trail + [op] ==> o in trail || o == op;
    hide FromLimiter;
  }

  lemma CostsAppend(evs: seq<Event>, e: Event)
    requires CostsSomething(evs) && (e.Spend? ==> e.cost >= 0.0)
    ensures CostsSomething(evs + [e])
  {
  }

  /** An operation that leaves the client's key alone, and one that touches it. */
  lemma OrderIgnores(trail: seq<BucketOp>, op: BucketOp, lims: Limiters, ns: string, client: string, peak: real,
                     top: real)
    requires ns in lims && InOrder(trail, lims, ns, client, peak, top) && OwnTrail(trail + [op], lims)
    requires Touches(op, BucketKey(ns, client), lims[ns]) == []
    ensures InOrder(trail + [op], lims, ns, client, peak, top)
  {
    AnswerAppends(trail, op, BucketKey(ns, client), lims[ns]);
    hide OwnTrail, CostsSomething, Steady, PeakOf, View, Touches;
    assert View(trail, BucketKey(ns, client), lims[ns]) + [] == View(trail, BucketKey(ns, client), lims[ns]);
  }

  lemma OrderExtends(trail: seq<BucketOp>, op: BucketOp, e: Event, lims: Limiters, ns: string, client: string,
                     peak: real, top: real)
    requires ns in lims && InOrder(trail, lims, ns, client, peak, top) && OwnTrail(trail + [op], lims)
    requires Touches(op, BucketKey(ns, client), lims[ns]) == [e] && (e.Spend? ==> e.cost >= 0.0)
    requires e.now >= top - 4.5 * lims[ns].per
    ensures InOrder(trail + [op], lims, ns, client, peak, Max(top, e.now))
  {
    var evs := View(trail, BucketKey(ns, client), lims[ns]);
    AnswerAppends(trail, op, BucketKey(ns, client), lims[ns]);
    hide OwnTrail, CostsSomething, Steady, PeakOf, View, Touches;
    SteadyAppends(evs, e, peak, 4.5 * lims[ns].per);
    CostsAppend(evs, e);
  }

  /** One more step keeps its store's trail in order. */
  lemma OrderKept(trail: seq<BucketOp>, lims: Limiters, step: Step, ns: string, client: string, peak: real, top: real)
    requires ValidLimiters(lims) && ns in lims && (step.Charge? || step.Expire? ==> step.ns in lims)
    requires InOrder(trail, lims, ns, client, peak, top)
    requires Concerns(step, ns, client) ==> step.now >= top - 4.5 * lims[ns].per
    ensures InOrder(trail + Commits(step, lims, trail), lims, ns, client, peak,
                    if Concerns(step, ns, client) then Max(top, step.now) else top)
  {
    var ops := Commits(step, lims, trail);
    CommitTouches(step, lims, trail, ns, client, 0.0, 0.0);
    hide Commits, Concerns, Touches, FromLimiter, OwnTrail, CostsSomething, Steady, PeakOf, View, OpGrants, PaidBy;
    hide Reply;
    if ops == [] {
      assert trail + ops == trail;
    } else {
      assert ops == [ops[0]];
      OwnGrows(trail, ops[0], lims);
      hide InOrder;
      if Concerns(step, ns, client) {
        OrderExtends(trail, ops[0], Touches(ops[0], BucketKey(ns, client), lims[ns])[0], lims, ns, client, peak, top);
      } else {
        OrderIgnores(trail, ops[0], lims, ns, client, peak, top);
      }
    }
  }

  lemma OrderWidens(trail: seq<BucketOp>, lims: Limiters, ns: string, client: string, peak: real, top: real, top': real)
    requires ns in lims && InOrder(trail, lims, ns, client, peak, top) && top <= top'
    ensures InOrder(trail, lims, ns, client, peak, top')
  {
  }

  ghost predicate AllInOrder(trails: Trails, lims: Limiters, ns: string, client: string, peak: real, top: real)
    requires ns in lims
  {
    forall i :: 0 <= i < |trails| ==> InOrder(trails[i], lims, ns, client, peak, top)
  }

  lemma {:induction false} RunStaysInOrder(start: State, lims: Limiters, steps: seq<Step>, ns: string, client: string,
                                           peak: real, top: real)
    requires start.Valid() && ProperRun(steps, |start.calls|, lims) && ValidLimiters(lims) && ns in lims
    requires AllInOrder(start.trails, lims, ns, client, peak, top)
    requires Steady(Readings(steps, ns, client), top, 4.5 * lims[ns].per)
    ensures AllInOrder(Run(start, lims, steps).trails, lims, ns, client, peak, PeakOf(Readings(steps, ns, client), top))
  {
    hide InOrder, Commits, Concerns, Steady, PeakOf, Readings, AllInOrder;
    if steps != [] {
      var last := |steps| - 1;
      var before := Run(start, lims, steps[..last]);
      assert Proper(steps[last], |start.calls|, lims);
      ReadingsGrow(steps, ns, client, top, 4.5 * lims[ns].per);
      RunStaysInOrder(start, lims, steps[..last], ns, client, peak, top);
      StepStaysInOrder(before, lims, steps[last], ns, client, peak, PeakOf(Readings(steps[..last], ns, client), top));
    } else {
      NoReadings(ns, client, top);
    }
  }

  lemma ReadingsGrow(steps: seq<Step>, ns: string, client: string, top: real, slack: real)
    requires steps != []
    ensures var step, before := steps[|steps| - 1], Readings(steps[..|steps| - 1], ns, client);
            && (Steady(Readings(steps, ns, client), top, slack) ==>
                  Steady(before, top, slack) &&
                  (Concerns(step, ns, client) ==> step.now >= PeakOf(before, top) - slack))
            && PeakOf(Readings(steps, ns, client), top) ==
               if Concerns(step, ns, client) then Max(PeakOf(before, top), step.now) else PeakOf(before, top)
  {
    hide Concerns, Steady, PeakOf;
    var step, before := steps[|steps| - 1], Readings(steps[..|steps| - 1], ns, client);
    if Concerns(step, ns, client) {
      SteadyAppends(before, Evict(step.now, false), top, slack);
    } else {
      assert before + [] == before;
    }
  }

  lemma StepStaysInOrder(s: State, lims: Limiters, step: Step, ns: string, client: string, peak: real, top: real)
    requires s.Valid() && Proper(step, |s.calls|, lims) && ValidLimiters(lims) && ns in lims
    requires AllInOrder(s.trails, lims, ns, client, peak, top)
    requires Concerns(step, ns, client) ==> step.now >= top - 4.5 * lims[ns].per
    ensures AllInOrder(Next(s, lims, step).trails, lims, ns, client, peak,
                       if Concerns(step, ns, client) then Max(top, step.now) else top)
  {
    hide InOrder, Commits, Concerns;
    var higher := if Concerns(step, ns, client) then Max(top, step.now) else top;
    OrderKept(s.trails[Slot(step)], lims, step, ns, client, peak, top);
    forall i | 0 <= i < |s.trails|
      ensures InOrder(s.trails[i], lims, ns, client, peak, higher)
    {
      OrderWidens(s.trails[i], lims, ns, client, peak, top, higher);
    }
  }

  lemma NoReadings(ns: string, client: string, top: real)
    ensures PeakOf(Readings([], ns, client), top) == top
  {
  }

  /** Whatever callers are granted is granted by the trails. */
  lemma {:induction false} RunGrants(start: State, lims: Limiters, steps: seq<Step>, ns: string, client: string,
                                     t0: real, t1: real)
    requires start.Valid() && ProperRun(steps, |start.calls|, lims) && ValidLimiters(lims) && ns in lims
    ensures var key, lim := BucketKey(ns, client), lims[ns];
            TrailsGranted(Run(start, lims, steps).trails, key, lim, t0, t1) ==
            TrailsGranted(start.trails, key, lim, t0, t1) +
            ClientGranted(steps, Replies(start, lims, steps), ns, client, t0, t1)
  {
    hide Commits, Concerns, TrailsGranted, TrailGranted, Reply, PaidBy, OpGrants;
    if steps != [] {
      var key, lim, last := BucketKey(ns, client), lims[ns], |steps| - 1;
      var step, before := steps[last], Run(start, lims, steps[..last]);
      assert Proper(step, |start.calls|, lims);
      RunGrants(start, lims, steps[..last], ns, client, t0, t1);
      var trail := before.trails[Slot(step)];
      var ops := Commits(step, lims, trail);
      TrailsMove(before.trails, Slot(step), trail + ops, key, lim, t0, t1);
      CommitGrants(step, lims, trail, ns, client, t0, t1);
      var replies := Replies(start, lims, steps);
      assert replies[..last] == Replies(start, lims, steps[..last]);
    }
  }

  lemma CommitGrants(step: Step, lims: Limiters, trail: seq<BucketOp>, ns: string, client: string, t0: real, t1: real)
    requires ValidLimiters(lims) && ns in lims && (step.Charge? || step.Expire? ==> step.ns in lims)
    ensures TrailGranted(trail + Commits(step, lims, trail), BucketKey(ns, client), lims[ns], t0, t1) ==
            TrailGranted(trail, BucketKey(ns, client), lims[ns], t0, t1)
            + PaidBy(step, Reply(step, lims, trail), ns, client, t0, t1)
  {
    var ops := Commits(step, lims, trail);
    CommitTouches(step, lims, trail, ns, client, t0, t1);
    hide Commits, Concerns, TrailGranted, Reply, OpGrants;
    if ops == [] {
      assert trail + ops == trail;
    } else {
      assert ops == [ops[0]];
      TrailGrows(trail, ops[0], BucketKey(ns, client), lims[ns], t0, t1);
    }
  }

  lemma {:induction false} GrantedIsNotNegative(trails: Trails, key: string, lim: Limits, peak: real, t0: real,
                                                t1: real)
    requires AllBounded(trails, key, lim, peak)
    ensures TrailsGranted(trails, key, lim, t0, t1) >= 0.0
  {
    hide Bounded, TrailGranted;
    if trails != [] {
      var last := |trails| - 1;
      assert trails[last] in trails && AllBounded(trails[..last], key, lim, peak);
      GrantedIsNotNegative(trails[..last], key, lim, peak, t0, t1);
      TrailBound(trails[last], key, lim, peak, t0, t1);
    }
  }

  /** What callers were granted is granted by buckets in order. */
  lemma RunIsBounded(start: State, lims: Limiters, steps: seq<Step>, ns: string, client: string,
                     peak: real, top: real, t0: real, t1: real)
    requires start.Valid() && ProperRun(steps, |start.calls|, lims) && ValidLimiters(lims) && ns in lims
    requires AllInOrder(start.trails, lims, ns, client, peak, top)
    requires Steady(Readings(steps, ns, client), top, 4.5 * lims[ns].per)
    ensures ClientGranted(steps, Replies(start, lims, steps), ns, client, t0, t1) <=
            TrailsGranted(Run(start, lims, steps).trails, BucketKey(ns, client), lims[ns], t0, t1)
    ensures AllBounded(Run(start, lims, steps).trails, BucketKey(ns, client), lims[ns], peak)
  {
    RunGrants(start, lims, steps, ns, client, t0, t1);
    RunStaysInOrder(start, lims, steps, ns, client, peak, top);
    hide Readings, Steady, PeakOf, ClientGranted, TrailsGranted, Run, Replies, AllInOrder, AllBounded;
    OrderBounds(start.trails, lims, ns, client, peak, top);
    OrderBounds(Run(start, lims, steps).trails, lims, ns, client, peak, PeakOf(Readings(steps, ns, client), top));
    GrantedIsNotNegative(start.trails, BucketKey(ns, client), lims[ns], peak, t0, t1);
  }

  /** Degraded limiting is still limiting: over every run of W workers, whichever primary calls raised, whatever was
      swept, from whatever the stores held before, a client's callers are together granted, on readings in any
      interval, at most W + 1 allowances, as long as no call was committed with a reading more than 4.5 windows behind
      the largest one committed before it. */
  lemma DegradedRateBound(start: State, lims: Limiters, steps: seq<Step>, ns: string, client: string,
                          peak: real, top: real, t0: real, t1: real)
    requires start.Valid() && ProperRun(steps, |start.calls|, lims) && ValidLimiters(lims) && ns in lims && t0 <= t1
    requires AllInOrder(start.trails, lims, ns, client, peak, top)
    requires Steady(Readings(steps, ns, client), top, 4.5 * lims[ns].per)
    ensures ClientGranted(steps, Replies(start, lims, steps), ns, client, t0, t1) <=
            Allowances(|start.calls| + 1, lims[ns], t1 - t0)
  {
    assert |Run(start, lims, steps).trails| == |start.calls| + 1 && lims[ns].Valid();
    hide *;
    RunIsBounded(start, lims, steps, ns, client, peak, top, t0, t1);
    TrailsBound(Run(start, lims, steps).trails, BucketKey(ns, client), lims[ns], peak, t0, t1);
  }

  lemma OrderBounds(trails: Trails, lims: Limiters, ns: string, client: string, peak: real, top: real)
    requires ValidLimiters(lims) && ns in lims && AllInOrder(trails, lims, ns, client, peak, top)
    ensures AllBounded(trails, BucketKey(ns, client), lims[ns], peak)
  {
    hide CostsSomething, Steady, View, FromLimiter, OneLimiter;
    forall trail | trail in trails
      ensures Bounded(trail, BucketKey(ns, client), lims[ns], peak)
    {
      assert InOrder(trail, lims, ns, client, peak, top);
      OwnLimiter(trail, lims, ns, client);
    }
  }

  // ----- What a scrape shows -----

  /** The run as the calls of its workers. */
  function RunCalls(steps: seq<Step>): seq<WorkerCall> {
    if steps == [] then []
    else
      var step := steps[|steps| - 1];
      RunCalls(steps[..|steps| - 1]) + if CallsMade(step) == [] then [] else [WorkerCall(step.w, CallsMade(step)[0])]
  }

  lemma RunCallsGrow(run: seq<WorkerCall>, step: Step, w: nat)
    ensures var after := run + if CallsMade(step) == [] then [] else [WorkerCall(step.w, CallsMade(step)[0])];
            && PrimaryOps(AllCalls(after)) == PrimaryOps(AllCalls(run)) + PrimaryOps(CallsMade(step))
            && CallsOf(after, w) == CallsOf(run, w) + if w == step.w then CallsMade(step) else []
  {
    OneCall(step);
    hide PrimaryOps;
    if CallsMade(step) == [] {
      assert run + [] == run;
    } else {
      var c := WorkerCall(step.w, CallsMade(step)[0]);
      assert (run + [c])[..|run|] == run;
      assert AllCalls(run + [c]) == AllCalls(run) + [c.call];
      CallAppend(AllCalls(run), c.call);
      assert CallsMade(step) == [c.call];
    }
  }

  lemma {:induction false} RunTakes(start: State, lims: Limiters, steps: seq<Step>, w: nat)
    requires start.Valid() && ProperRun(steps, |start.calls|, lims) && w < |start.calls|
    ensures Run(start, lims, steps).log == start.log + PrimaryOps(AllCalls(RunCalls(steps)))
    ensures Run(start, lims, steps).calls[w] == start.calls[w] + CallsOf(RunCalls(steps), w)
  {
    hide PrimaryOps, Commits, CallsMade, CallsOf, AllCalls;
    if steps != [] {
      var last := |steps| - 1;
      var step, before := steps[last], Run(start, lims, steps[..last]);
      assert Proper(step, |start.calls|, lims);
      RunTakes(start, lims, steps[..last], w);
      RunCallsGrow(RunCalls(steps[..last]), step, w);
      assert Run(start, lims, steps) == Next(before, lims, step);
    } else {
      NoCalls(w);
    }
  }

  lemma NoCalls(w: nat)
    ensures PrimaryOps(AllCalls([])) == [] && CallsOf([], w) == []
  {
  }

  /** A readable scrape after any run of the workers, from empty stores, shows one store that received, in order, every
      call of every worker but those that other workers' fallbacks hold. */
  method ScrapeAfter(stores: seq<ResilientStore>, lims: Limiters, steps: seq<Step>, ghost start: State, w: nat)
    returns (shown: Snapshot)
    requires Shows(stores, start) && ProperRun(steps, |stores|, lims) && w < |stores|
    requires start.log == [] && forall v :: 0 <= v < |stores| ==> start.calls[v] == []
    requires forall c :: c in AllCalls(RunCalls(steps)) ==> PlausibleCall(c)
    modifies Parts(stores)
    ensures SameSums(shown, Replay(OneStoreOps(Visible(RunCalls(steps), w)), Memory))
  {
    hide Parts, Replay, FallbackOps, PrimaryOps, OneStoreOps, Visible, RunCalls, Run, CallsOf, AllCalls;
    var replies := Operate(stores, lims, steps, start);
    RunTakes(start, lims, steps, w);
    OwnParts(stores, w);
    shown := ScrapeOne(stores[w], RunCalls(steps), w);
  }

  method ScrapeOne(store: ResilientStore, ghost run: seq<WorkerCall>, ghost w: nat) returns (shown: Snapshot)
    requires store.Valid() && store.primary.log == PrimaryOps(AllCalls(run)) && store.calls == CallsOf(run, w)
    requires forall c :: c in AllCalls(run) ==> PlausibleCall(c)
    modifies store, store.fallback
    ensures SameSums(shown, Replay(OneStoreOps(Visible(run, w)), Memory))
  {
    hide Replay, FallbackOps, PrimaryOps, OneStoreOps, Visible, CallsOf, AllCalls, Merge;
    shown := store.TakeSnapshot(false);
    CallAppend(CallsOf(run, w), Read(false));
    FleetConservation(run, w);
  }
}
