/** The thread pool behind a fan-out: fetches are submitted in plan order and taken up in that order, each by the thread
    that is free first, and whatever has not finished at the deadline has timed out.
    Source: amiweak/checks/runner.py:254-278, amiweak/checks/denylist.py:32-35. */
module Pool {
  import opened Wrappers
  import opened CheckBase
  import opened Cache
  import opened Checkers
  import opened Denylist
  import opened Plans
  import opened Verdicts
  import opened FanOut

  /** How long each pending fetch would hold a thread; one from memory takes no time. */
  predicate Possible(pending: Plans.Plan, times: seq<real>) {
    && |times| == |pending|
    && forall k :: 0 <= k < |pending| ==> times[k] >= 0.0 && (pending[k].checker.kind.Local? ==> times[k] == 0.0)
  }

  function FirstFree(free: seq<real>): (i: nat)
    requires free != []
    ensures i < |free| && forall k :: 0 <= k < |free| ==> free[i] <= free[k]
  {
    if |free| == 1 then 0
    else
      var i := FirstFree(free[..|free| - 1]);
      if free[i] <= free[|free| - 1] then i else |free| - 1
  }

  /** When each thread is free again after it has been given its share of these fetches. */
  function FreeAfter(threads: nat, times: seq<real>): (free: seq<real>)
    requires threads > 0
    ensures |free| == threads
  {
    if times == [] then seq(threads, _ => 0.0)
    else
      var before := FreeAfter(threads, times[..|times| - 1]);
      var i := FirstFree(before);
      before[i := before[i] + times[|times| - 1]]
  }

  /** When the fetch submitted as number k gets its thread. */
  function Start(threads: nat, times: seq<real>, k: nat): real
    requires threads > 0 && k < |times|
  {
    var free := FreeAfter(threads, times[..k]);
    free[FirstFree(free)]
  }

  predicate Late(threads: nat, times: seq<real>, k: nat, deadline: real)
    requires threads > 0 && k < |times|
  {
    Start(threads, times, k) + times[k] > deadline
  }

  // ----- Who has to wait -----

  function Idle(free: seq<real>): nat {
    if free == [] then 0 else Idle(free[..|free| - 1]) + if free[|free| - 1] == 0.0 then 1 else 0
  }

  lemma {:induction false} IdleMoves(free: seq<real>, i: nat, t: real)
    requires i < |free|
    ensures Idle(free[i := t]) == Idle(free) - (if free[i] == 0.0 then 1 else 0) + (if t == 0.0 then 1 else 0)
  {
    var last := |free| - 1;
    if i == last {
      assert free[i := t][..last] == free[..last];
    } else {
      assert free[i := t][..last] == free[..last][i := t];
      IdleMoves(free[..last], i, t);
    }
  }

  lemma {:induction false} IdleHas(free: seq<real>)
    ensures Idle(free) > 0 <==> exists k :: 0 <= k < |free| && free[k] == 0.0
  {
    if free != [] {
      var last := |free| - 1;
      IdleHas(free[..last]);
      if Idle(free) > 0 && free[last] != 0.0 {
        var k :| 0 <= k < last && free[..last][k] == 0.0;
        assert free[k] == 0.0;
      }
      if Idle(free[..last]) == 0 {
        assert forall k :: 0 <= k < last ==> free[..last][k] == free[k];
      }
    }
  }

  lemma {:induction false} AllIdle(threads: nat)
    ensures Idle(seq(threads, _ => 0.0)) == threads
  {
    if threads > 0 {
      AllIdle(threads - 1);
      assert seq(threads, _ => 0.0)[..threads - 1] == seq(threads - 1, _ => 0.0);
    }
  }

  /** A fetch from memory keeps no thread; any other keeps at most one. */
  lemma {:induction false} RemotesKeepThreads(threads: nat, pending: Plans.Plan, times: seq<real>)
    requires threads > 0 && Possible(pending, times)
    ensures forall k :: 0 <= k < threads ==> FreeAfter(threads, times)[k] >= 0.0
    ensures Idle(FreeAfter(threads, times)) + CacheableIn(pending) >= threads
  {
    if times == [] {
      AllIdle(threads);
    } else {
      var n := |times| - 1;
      RemotesKeepThreads(threads, pending[..n], times[..n]);
      var before := FreeAfter(threads, times[..n]);
      var i := FirstFree(before);
      IdleMoves(before, i, before[i] + times[n]);
      hide Idle;
    }
  }

  /** Every fetch from the network outlasts the deadline. */
  function Hung(pending: Plans.Plan, deadline: real): (times: seq<real>)
    requires deadline >= 0.0
    ensures Possible(pending, times)
    ensures forall k :: 0 <= k < |pending| ==>
              times[k] == if pending[k].checker.kind.Local? then 0.0 else deadline + 1.0
  {
    seq(|pending|, k requires 0 <= k < |pending| => if pending[k].checker.kind.Local? then 0.0 else deadline + 1.0)
  }

  lemma {:induction false} HungThreads(threads: nat, pending: Plans.Plan, deadline: real)
    requires threads > 0 && deadline >= 0.0
    ensures var free := FreeAfter(threads, Hung(pending, deadline));
            && (forall k :: 0 <= k < threads ==> free[k] == 0.0 || free[k] > deadline)
            && (Idle(free) == if CacheableIn(pending) < threads then threads - CacheableIn(pending) else 0)
  {
    hide Idle, FirstFree;
    if pending == [] {
      AllIdle(threads);
    } else {
      var n := |pending| - 1;
      var times := Hung(pending, deadline);
      HungThreads(threads, pending[..n], deadline);
      PrefixOfHung(pending, n, deadline);
      hide Hung, CacheableIn, Possible;
      GiveThread(FreeAfter(threads, times[..n]), times[n], deadline);
      LastCounts(pending);
    }
  }

  lemma LastCounts(pending: Plans.Plan)
    requires pending != []
    ensures var n := |pending| - 1;
            CacheableIn(pending) == CacheableIn(pending[..n]) + if pending[n].checker.kind.Local? then 0 else 1
  {
  }

  lemma GiveThread(free: seq<real>, time: real, deadline: real)
    requires free != [] && deadline >= 0.0 && (time == 0.0 || time > deadline)
    requires forall k :: 0 <= k < |free| ==> free[k] == 0.0 || free[k] > deadline
    ensures var i := FirstFree(free);
            var after := free[i := free[i] + time];
            && (forall k :: 0 <= k < |free| ==> after[k] == 0.0 || after[k] > deadline)
            && Idle(after) == if time == 0.0 || Idle(free) == 0 then Idle(free) else Idle(free) - 1
  {
    hide Idle;
    var i := FirstFree(free);
    IdleHas(free);
    IdleMoves(free, i, free[i] + time);
  }

  lemma PrefixOfHung(pending: Plans.Plan, k: nat, deadline: real)
    requires deadline >= 0.0 && k < |pending|
    ensures Hung(pending, deadline)[..k] == Hung(pending[..k], deadline)
  {
  }

  ghost predicate NeverLate(threads: nat, pending: Plans.Plan, k: nat, deadline: real)
    requires threads > 0 && k < |pending|
  {
    forall times :: Possible(pending, times) ==> !Late(threads, times, k, deadline)
  }

  /** A fetch from memory can miss the deadline if and only if as many network fetches are submitted before it as there
      are threads. */
  lemma LocalWaitsExactly(threads: nat, pending: Plans.Plan, k: nat, deadline: real)
    requires threads > 0 && k < |pending| && pending[k].checker.kind.Local? && deadline >= 0.0
    ensures NeverLate(threads, pending, k, deadline) <==> CacheableIn(pending[..k]) < threads
  {
    if CacheableIn(pending[..k]) < threads {
      forall times | Possible(pending, times)
        ensures !Late(threads, times, k, deadline)
      {
        RemotesKeepThreads(threads, pending[..k], times[..k]);
        IdleHas(FreeAfter(threads, times[..k]));
      }
    } else {
      HungThreads(threads, pending[..k], deadline);
      PrefixOfHung(pending, k, deadline);
      IdleHas(FreeAfter(threads, Hung(pending, deadline)[..k]));
      assert Late(threads, Hung(pending, deadline), k, deadline);
    }
  }

  // ----- What this makes of a denylist check -----

  function IndexOf(pending: Plans.Plan, key: CacheKey): (k: nat)
    ensures k <= |pending| && (k < |pending| ==> pending[k].key == key)
    ensures k == |pending| ==> forall i :: 0 <= i < |pending| ==> pending[i].key != key
  {
    if pending == [] then 0
    else if pending[0].key == key then 0
    else IndexOf(pending[1..], key) + 1
  }

  /** What becomes of each fetch, given how long each would take and what each would answer: a late one has timed out,
      and one from memory answers its bucket. */
  function OutcomesUnder(threads: nat, pending: Plans.Plan, times: seq<real>, deadline: real,
                         answers: Outcomes): Outcomes
    requires threads > 0 && |times| == |pending|
  {
    key =>
      var k := IndexOf(pending, key);
      if k == |pending| then answers(key)
      else if Late(threads, times, k, deadline) then TimedOut(deadline)
      else if pending[k].checker.kind.Local? then
        Returned(RangeFetch(Some(DenylistRange(pending[k].checker.kind.buckets, pending[k].prefix)), None), times[k])
      else answers(key)
  }

  /** Where an item's denylist fetch stands in the queue: it is never cached, so it is always there. */
  lemma LocalIsPending(checkers: seq<Checker>, items: seq<Item>, a: Algorithm, es: Entries, enabled: bool, clock: Clock,
                       c: Checker, item: Item)
    requires DistinctNames(checkers) && c in checkers && c.kind.Local? && c.Supports(a) && item in items
    ensures var pending := Pending(PlanOf(checkers, items, a), es, enabled, clock);
            var k := IndexOf(pending, c.KeyFor(item.digest, a));
            k < |pending| && pending[k].checker == c && pending[k].prefix == c.PrefixOf(item.digest)
  {
    var plan, p := PlanOf(checkers, items, a), Plans.Entry(c, item.digest, a);
    ItemIsPlanned(checkers, items, a, c, item);
    PlanIsExact(checkers, items, a);
    PendingHolds(plan, es, enabled, clock);
    PendingDistinct(plan, es, enabled, clock);
    assert p in Pending(plan, es, enabled, clock);
    hide PlanOf, Pending, DistinctKeys, IndexOf, DistinctNames;
    IndexFinds(Pending(plan, es, enabled, clock), p);
  }

  lemma IndexFinds(pending: Plans.Plan, p: Planned)
    requires DistinctKeys(pending) && p in pending
    ensures IndexOf(pending, p.key) < |pending| && pending[IndexOf(pending, p.key)] == p
  {
    hide IndexOf;
  }

  /** `min(max_workers, len(pending))`. */
  function PoolSize(maxWorkers: nat, pending: Plans.Plan): nat {
    if maxWorkers <= |pending| then maxWorkers else |pending|
  }

  lemma {:induction false} RemotesAmong(pending: Plans.Plan)
    ensures CacheableIn(pending) <= |pending|
  {
    if pending != [] {
      RemotesAmong(pending[..|pending| - 1]);
    }
  }

  ghost predicate NeverFails(threads: nat, pending: Plans.Plan, deadline: real, answers: Outcomes, plan: Plans.Plan,
                             es: Entries, enabled: bool, clock: Clock, c: Checker, digest: string, a: Algorithm)
    requires threads > 0
  {
    forall times, ranges ::
      Possible(pending, times)
      && FetchedFor(ranges, plan, es, enabled, clock, OutcomesUnder(threads, pending, times, deadline, answers)) ==>
        !Fails(c, ranges, digest, a)
  }

  /** Given the schedule, an item's denylist check fails, as a timeout, if and only if its fetch is late; otherwise it
      looks the digest up in its own bucket. */
  lemma LocalFailsWhenLate(checkers: seq<Checker>, items: seq<Item>, a: Algorithm, es: Entries, enabled: bool,
                           clock: Clock, c: Checker, item: Item, threads: nat, deadline: real, answers: Outcomes,
                           times: seq<real>, ranges: Fetched)
    requires DistinctNames(checkers) && c in checkers && c.kind.Local? && c.Supports(a) && item in items && threads > 0
    requires var pending := Pending(PlanOf(checkers, items, a), es, enabled, clock);
             && Possible(pending, times)
             && FetchedFor(ranges, PlanOf(checkers, items, a), es, enabled, clock,
                           OutcomesUnder(threads, pending, times, deadline, answers))
    ensures var k := IndexOf(Pending(PlanOf(checkers, items, a), es, enabled, clock), c.KeyFor(item.digest, a));
            && k < |times| && (Fails(c, ranges, item.digest, a) <==> Late(threads, times, k, deadline))
            && ResultOf(c, ranges, item.digest, a) ==
               if Late(threads, times, k, deadline)
               then CheckResult(c.name, true, None, None, Some("timeout"), true, false)
               else c.Lookup(DenylistRange(c.kind.buckets, c.PrefixOf(item.digest)), item.digest)
  {
    LocalIsPending(checkers, items, a, es, enabled, clock, c, item);
    ItemIsPlanned(checkers, items, a, c, item);
    var p := Plans.Entry(c, item.digest, a);
    var pending := Pending(PlanOf(checkers, items, a), es, enabled, clock);
    var outcomes := OutcomesUnder(threads, pending, times, deadline, answers);
    assert ranges[p.key] == RangeFor(p, es, enabled, clock, outcomes) == Settled(outcomes(p.key));
    hide PlanOf, Pending, IndexOf, Late;
  }

  /** The exact condition: whatever the network does, an item's denylist check completes if and only if fewer network
      fetches are submitted before its own than the pool may have workers.  It can be read off the plan before anything
      is fetched. */
  lemma DenylistFailsExactly(checkers: seq<Checker>, items: seq<Item>, a: Algorithm, es: Entries, enabled: bool,
                             clock: Clock, c: Checker, item: Item, maxWorkers: nat, deadline: real, answers: Outcomes)
    requires DistinctNames(checkers) && c in checkers && c.kind.Local? && c.Supports(a) && item in items
    requires maxWorkers > 0 && deadline >= 0.0
    ensures var plan := PlanOf(checkers, items, a);
            var pending := Pending(plan, es, enabled, clock);
            var threads, k := PoolSize(maxWorkers, pending), IndexOf(pending, c.KeyFor(item.digest, a));
            && k < |pending| && threads > 0
            && (NeverFails(threads, pending, deadline, answers, plan, es, enabled, clock, c, item.digest, a) <==>
                CacheableIn(pending[..k]) < maxWorkers)
  {
    var plan := PlanOf(checkers, items, a);
    var pending := Pending(plan, es, enabled, clock);
    var threads, k := PoolSize(maxWorkers, pending), IndexOf(pending, c.KeyFor(item.digest, a));
    LocalIsPending(checkers, items, a, es, enabled, clock, c, item);
    RemotesAmong(pending[..k]);
    LocalWaitsExactly(threads, pending, k, deadline);
    PlanIsExact(checkers, items, a);
    hide PlanOf, Pending, IndexOf, Late, Possible, FetchedFor, OutcomesUnder, Fails;
    forall times, ranges | Possible(pending, times)
                           && FetchedFor(ranges, plan, es, enabled, clock,
                                         OutcomesUnder(threads, pending, times, deadline, answers))
      ensures Fails(c, ranges, item.digest, a) <==> Late(threads, times, k, deadline)
    {
      LocalFailsWhenLate(checkers, items, a, es, enabled, clock, c, item, threads, deadline, answers, times, ranges);
    }
    if !NeverLate(threads, pending, k, deadline) {
      var times :| Possible(pending, times) && Late(threads, times, k, deadline);
      var outcomes := OutcomesUnder(threads, pending, times, deadline, answers);
      var ranges := CachedRanges(plan, es, enabled, clock) + SettledRanges(pending, outcomes);
      RangesJoin(plan, es, enabled, clock, outcomes);
      assert Fails(c, ranges, item.digest, a);
    }
  }

  /** A digest checked alone gets a worker for every planned prefix, so its denylist check always completes. */
  lemma AloneNeverFails(checkers: seq<Checker>, a: Algorithm, es: Entries, enabled: bool, clock: Clock, c: Checker,
                        digest: string, deadline: real, answers: Outcomes)
    requires DistinctNames(checkers) && c in checkers && c.kind.Local? && c.Supports(a) && deadline >= 0.0
    ensures var plan := PlanOf(checkers, [Item("", digest)], a);
            var pending := Pending(plan, es, enabled, clock);
            && PoolSize(|plan|, pending) > 0
            && NeverFails(PoolSize(|plan|, pending), pending, deadline, answers, plan, es, enabled, clock, c, digest, a)
  {
    var item := Item("", digest);
    var plan := PlanOf(checkers, [item], a);
    var pending := Pending(plan, es, enabled, clock);
    LocalIsPending(checkers, [item], a, es, enabled, clock, c, item);
    PendingShrinks(plan, es, enabled, clock);
    RemotesAmong(pending[..IndexOf(pending, c.KeyFor(digest, a))]);
    hide PlanOf, Pending, NeverFails;
    DenylistFailsExactly(checkers, [item], a, es, enabled, clock, c, item, |plan|, deadline, answers);
  }

  lemma {:induction false} PendingShrinks(plan: Plans.Plan, es: Entries, enabled: bool, clock: Clock)
    ensures |Pending(plan, es, enabled, clock)| <= |plan|
  {
    if plan != [] {
      PendingShrinks(plan[..|plan| - 1], es, enabled, clock);
    }
  }

  /** A batch of one item in which it does fail: one worker, an upstream that hangs, and the denylist behind it. */
  lemma DenylistCanFail(configs: seq<CheckConfig>, digest: string, clock: Clock, deadline: real, answers: Outcomes)
    returns (checkers: seq<Checker>, times: seq<real>, ranges: Fetched)
    requires DistinctConfigs(configs) && deadline >= 0.0
    ensures |checkers| == 2 && DistinctNames(checkers) && checkers[1].kind.Local? && checkers[1].name == "denylist"
    ensures var plan := PlanOf(checkers, [Item("", digest)], SHA1);
            && Possible(Pending(plan, [], true, clock), times)
            && FetchedFor(ranges, plan, [], true, clock,
                          OutcomesUnder(1, Pending(plan, [], true, clock), times, deadline, answers))
    ensures Evaluated(configs, checkers, ranges, digest, SHA1).degraded
    ensures FailsClosed(configs, "denylist") ==> Evaluated(configs, checkers, ranges, digest, SHA1).verdict == ERROR
  {
    var remote, local := Checker(Hibp, "hibp", {SHA1}), Checker(Local(map[]), "denylist", {SHA1});
    checkers := [remote, local];
    assert remote.name != local.name;
    times, ranges := QueuedBehind(remote, local, digest, clock, deadline, answers);
    hide PlanOf, Pending, Evaluated, Fails, FetchedFor, Possible, OutcomesUnder;
    EvaluationIsExact(configs, checkers, ranges, digest, SHA1);
  }

  lemma QueuedBehind(remote: Checker, local: Checker, digest: string, clock: Clock, deadline: real, answers: Outcomes)
    returns (times: seq<real>, ranges: Fetched)
    requires remote.name != local.name && remote.Supports(SHA1) && local.Supports(SHA1) && deadline >= 0.0
    requires !remote.kind.Local? && local.kind.Local?
    ensures var plan := PlanOf([remote, local], [Item("", digest)], SHA1);
            && Possible(Pending(plan, [], true, clock), times)
            && FetchedFor(ranges, plan, [], true, clock,
                          OutcomesUnder(1, Pending(plan, [], true, clock), times, deadline, answers))
    ensures Fails(local, ranges, digest, SHA1)
  {
    var item, checkers := Item("", digest), [remote, local];
    TwoPlanned(remote, local, item, clock);
    RemoteFirst(remote, local, digest);
    var plan := PlanOf(checkers, [item], SHA1);
    var pending := Pending(plan, [], true, clock);
    hide PlanOf, Pending, Fails, FetchedFor, Possible, OutcomesUnder, IndexOf, CacheableIn;
    DenylistFailsExactly(checkers, [item], SHA1, [], true, clock, local, item, 1, deadline, answers);
    times, ranges :| Possible(pending, times)
                     && FetchedFor(ranges, plan, [], true, clock, OutcomesUnder(1, pending, times, deadline, answers))
                     && Fails(local, ranges, digest, SHA1);
  }

  lemma RemoteFirst(remote: Checker, local: Checker, digest: string)
    requires remote.name != local.name && !remote.kind.Local?
    ensures var plan := [Plans.Entry(remote, digest, SHA1), Plans.Entry(local, digest, SHA1)];
            IndexOf(plan, local.KeyFor(digest, SHA1)) == 1 && CacheableIn(plan[..1]) == 1
  {
    var e0, e1 := Plans.Entry(remote, digest, SHA1), Plans.Entry(local, digest, SHA1);
    assert [e0, e1][..1] == [e0] && [e0][..0] == [] && [e0, e1][1..] == [e1];
    assert CacheableIn([e0][..0]) == 0;
  }

  lemma TwoPlanned(first: Checker, second: Checker, item: Item, clock: Clock)
    requires first.name != second.name && first.Supports(SHA1) && second.Supports(SHA1)
    ensures var plan := [Plans.Entry(first, item.digest, SHA1), Plans.Entry(second, item.digest, SHA1)];
            && PlanOf([first, second], [item], SHA1) == plan
            && Pending(plan, [], true, clock) == plan
  {
    var e0, e1 := Plans.Entry(first, item.digest, SHA1), Plans.Entry(second, item.digest, SHA1);
    assert [first, second][..1] == [first] && [first][..0] == [] && [item][..0] == [];
    assert WithItems([], first, [item], SHA1) == Assigned([], e0) == [e0];
    assert PlanOf([first], [item], SHA1) == [e0];
    assert Assigned([e0], e1) == [e0] + Assigned([], e1) == [e0, e1] by {
      assert [e0][1..] == [];
    }
    assert WithItems([e0], second, [item], SHA1) == [e0, e1];
    assert [e0, e1][..1] == [e0] && [e0][..0] == [];
    assert Pending([e0], [], true, clock) == [e0];
  }
}
