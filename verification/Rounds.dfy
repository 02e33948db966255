/** Runs of batches through one runner: what its cache can hold, and what that makes of every later batch.
    Source: amiweak/checks/runner.py:213-313, amiweak/cache.py:38-78. */
module Rounds {
  import opened Wrappers
  import opened CheckBase
  import opened Cache
  import opened CacheLaws
  import opened Checkers
  import opened Plans
  import opened Verdicts
  import opened FanOut

  /** One batch, or one digest alone, and what surrounds its fan-out. */
  datatype Round = Round(items: seq<Item>, a: Algorithm, weather: Weather)

  function CacheAfter(checkers: seq<Checker>, rounds: seq<Round>, es: Entries, enabled: bool, max: nat,
                      ttl: real): Entries {
    if rounds == [] then es
    else
      var r := rounds[|rounds| - 1];
      LeftBy(CacheAfter(checkers, rounds[..|rounds| - 1], es, enabled, max, ttl), PlanOf(checkers, r.items, r.a),
             enabled, r.weather, max, ttl)
  }

  lemma CacheAfterOneMore(checkers: seq<Checker>, rounds: seq<Round>, r: Round, es: Entries, enabled: bool, max: nat,
                          ttl: real)
    ensures CacheAfter(checkers, rounds + [r], es, enabled, max, ttl) ==
            LeftBy(CacheAfter(checkers, rounds, es, enabled, max, ttl), PlanOf(checkers, r.items, r.a), enabled,
                   r.weather, max, ttl)
  {
    assert (rounds + [r])[..|rounds|] == rounds;
  }

  /** The entry is the data some planned fetch of this round returned, under that fetch's own key, to be kept for a
      ttl from the reading it was stored at. */
  ghost predicate FetchedIn(e: Cache.Entry, r: Round, checkers: seq<Checker>, ttl: real) {
    exists p :: p in PlanOf(checkers, r.items, r.a) && Keeps(p, r.weather.outcomes) && e.key == p.key
                && Some(e.data) == r.weather.outcomes(p.key).fetch.data && e.expires == r.weather.puts(p.key) + ttl
  }

  ghost predicate FetchedInSome(e: Cache.Entry, rounds: seq<Round>, checkers: seq<Checker>, ttl: real) {
    exists r :: r in rounds && FetchedIn(e, r, checkers, ttl)
  }

  lemma {:induction false} GetsOnlyDrop(es: Entries, plan: Plan, enabled: bool, clock: Clock, max: nat)
    requires WellFormed(es, max)
    ensures WellFormed(AfterGets(es, plan, enabled, clock), max)
    ensures forall e :: e in AfterGets(es, plan, enabled, clock) ==> e in es
  {
    if plan != [] {
      var n := |plan| - 1;
      GetsOnlyDrop(es, plan[..n], enabled, clock, max);
      hide Distinct, AfterGet;
      GetForm(AfterGets(es, plan[..n], enabled, clock), plan[n].key, clock(plan[n].key));
    }
  }

  lemma RoundComesFromFetches(checkers: seq<Checker>, r: Round, es: Entries, enabled: bool, max: nat, ttl: real)
    requires WellFormed(es, max)
    ensures WellFormed(LeftBy(es, PlanOf(checkers, r.items, r.a), enabled, r.weather, max, ttl), max)
    ensures forall e :: e in LeftBy(es, PlanOf(checkers, r.items, r.a), enabled, r.weather, max, ttl) ==>
              e in es || FetchedIn(e, r, checkers, ttl)
  {
    var plan, w := PlanOf(checkers, r.items, r.a), r.weather;
    var pending, kept := Pending(plan, es, enabled, w.gets), AfterGets(es, plan, enabled, w.gets);
    hide PlanOf, Keeps, WellFormed, AfterGets, AfterPuts, Pending;
    GetsOnlyDrop(es, plan, enabled, w.gets, max);
    PutsComeFromFetches(kept, pending, enabled, w.puts, w.outcomes, max, ttl);
    PendingHolds(plan, es, enabled, w.gets);
  }

  /** Over any run of batches, whatever upstreams do: the cache keeps its bound, and every entry was there at the start
      or is the data of a fetch that returned data, of exactly that backend, algorithm and prefix, expiring a ttl after
      it was stored.  Errors, raises and timeouts never become entries. */
  lemma {:induction false} EntriesAreFetches(checkers: seq<Checker>, rounds: seq<Round>, es: Entries, enabled: bool,
                                             max: nat, ttl: real)
    requires WellFormed(es, max)
    ensures WellFormed(CacheAfter(checkers, rounds, es, enabled, max, ttl), max)
    ensures forall e :: e in CacheAfter(checkers, rounds, es, enabled, max, ttl) ==>
              e in es || FetchedInSome(e, rounds, checkers, ttl)
  {
    if rounds != [] {
      hide WellFormed, FetchedIn, LeftBy;
      var n := |rounds| - 1;
      EntriesAreFetches(checkers, rounds[..n], es, enabled, max, ttl);
      var before := CacheAfter(checkers, rounds[..n], es, enabled, max, ttl);
      RoundComesFromFetches(checkers, rounds[n], before, enabled, max, ttl);
      assert rounds[n] in rounds && forall r :: r in rounds[..n] ==> r in rounds;
    }
  }

  /** The key under which a fetch is kept names its own backend, algorithm and prefix. */
  lemma FetchedKey(e: Cache.Entry, r: Round, checkers: seq<Checker>, ttl: real)
    requires DistinctNames(checkers) && FetchedIn(e, r, checkers, ttl)
    ensures exists c, prefix :: c in checkers && c.Supports(r.a) && e.key == CacheKey(c.name, r.a, prefix)
  {
    var p :| p in PlanOf(checkers, r.items, r.a) && e.key == p.key;
    PlannedKey(p, checkers, r.items, r.a);
  }

  /** From an empty cache, a range a batch takes from the cache is what a fetch of an earlier batch returned for that
      very prefix, stored less than a ttl before. */
  lemma ServedIsFresh(checkers: seq<Checker>, rounds: seq<Round>, p: Planned, now: real, enabled: bool, max: nat,
                      ttl: real)
    requires Got(CacheAfter(checkers, rounds, [], enabled, max, ttl), p.key, now).Some?
    ensures exists r, q ::
              && r in rounds && q in PlanOf(checkers, r.items, r.a) && q.key == p.key && q.checker.Cacheable()
              && r.weather.outcomes(p.key).Returned?
              && r.weather.outcomes(p.key).fetch.data == Got(CacheAfter(checkers, rounds, [], enabled, max, ttl),
                                                             p.key, now)
              && now < r.weather.puts(p.key) + ttl
  {
    var es := CacheAfter(checkers, rounds, [], enabled, max, ttl);
    EntriesAreFetches(checkers, rounds, [], enabled, max, ttl);
    hide CacheAfter, PlanOf;
    FindLocates(es, p.key);
    var e := Find(es, p.key).value;
    var r :| r in rounds && FetchedIn(e, r, checkers, ttl);
    var q :| q in PlanOf(checkers, r.items, r.a) && Keeps(q, r.weather.outcomes) && e.key == q.key
             && Some(e.data) == r.weather.outcomes(q.key).fetch.data && e.expires == r.weather.puts(q.key) + ttl;
  }

  /** Every fetch of the round told the truth or failed. */
  ghost predicate HonestRound(checkers: seq<Checker>, r: Round, up: Upstream) {
    AllHonest(PlanOf(checkers, r.items, r.a), r.weather.outcomes, up, r.a)
  }

  lemma {:induction false} RoundsStayTrue(checkers: seq<Checker>, rounds: seq<Round>, up: Upstream, es: Entries,
                                          enabled: bool,
                                          max: nat, ttl: real)
    requires DistinctNames(checkers) && WellFormed(es, max) && TrueEntries(es, up)
    requires forall r :: r in rounds ==> HonestRound(checkers, r, up)
    ensures WellFormed(CacheAfter(checkers, rounds, es, enabled, max, ttl), max)
    ensures TrueEntries(CacheAfter(checkers, rounds, es, enabled, max, ttl), up)
  {
    if rounds != [] {
      hide WellFormed, TrueEntries, AllHonest, PlanOf;
      var n := |rounds| - 1;
      var r := rounds[n];
      assert HonestRound(checkers, r, up) && forall q :: q in rounds[..n] ==> q in rounds;
      RoundsStayTrue(checkers, rounds[..n], up, es, enabled, max, ttl);
      FanOutKeepsTrue(checkers, r.items, r.a, up, CacheAfter(checkers, rounds[..n], es, enabled, max, ttl), enabled,
                      r.weather.gets, r.weather.puts, r.weather.outcomes, max, ttl);
    }
  }

  /** Over a whole run from an empty cache, every batch refines the single check: every item gets from every checker
      exactly what that checker owes it, whatever earlier batches left in the cache. */
  lemma RunRefinesCheck(checkers: seq<Checker>, rounds: seq<Round>, k: nat, up: Upstream, enabled: bool, max: nat,
                        ttl: real, ranges: Fetched, c: Checker, item: Item)
    requires DistinctNames(checkers) && k < |rounds| && c in checkers && item in rounds[k].items
    requires forall r :: r in rounds ==> HonestRound(checkers, r, up)
    requires var r, es := rounds[k], CacheAfter(checkers, rounds[..k], [], enabled, max, ttl);
             FetchedFor(ranges, PlanOf(checkers, r.items, r.a), es, enabled, r.weather.gets, r.weather.outcomes)
    ensures var r, es := rounds[k], CacheAfter(checkers, rounds[..k], [], enabled, max, ttl);
            ResultOf(c, ranges, item.digest, r.a) ==
            Due(c, item.digest, r.a, up, es, enabled, r.weather.gets, r.weather.outcomes)
  {
    var r, es := rounds[k], CacheAfter(checkers, rounds[..k], [], enabled, max, ttl);
    assert r in rounds && forall q :: q in rounds[..k] ==> q in rounds;
    assert HonestRound(checkers, r, up);
    hide PlanOf, AllHonest, FetchedFor, ResultOf;
    RoundsStayTrue(checkers, rounds[..k], up, [], enabled, max, ttl);
    BatchRefinesCheck(checkers, r.items, r.a, up, es, enabled, r.weather.gets, r.weather.outcomes, ranges, c, item);
  }
}
