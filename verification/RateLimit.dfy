/** TokenBucket of amiweak/rate_limit.py over a ResilientStore. */
module RateLimit {
  import opened Buckets
  import opened Ledger
  import opened Tables
  import opened Resilience
  import opened Stores

  const EVICTION_INTERVAL_SECONDS := 60.0

  class TokenBucket {
    const lim: Limits
    const store: ResilientStore
    const ns: string
    var nextEviction: real

    constructor (requests: int, perSeconds: int, store: ResilientStore, ns: string)
      requires requests > 0 && perSeconds > 0
      ensures lim == Configured(requests, perSeconds) && lim.Valid()
      ensures this.store == store && this.ns == ns && nextEviction == 0.0
    {
      this.lim := Configured(requests, perSeconds);
      this.store, this.ns, this.nextEviction := store, ns, 0.0;
    }

    ghost function SpendFor(client: string, cost: int, now: real): BucketOp {
      SpendOn(BucketKey(ns, client), cost as real, lim.capacity, lim.rate, now)
    }

    /** The sweep that the fallback, or the primary, takes of one call: none unless one is due, and then on the fallback
        exactly when the primary raised, where a small table is not swept. */
    ghost function SweepTaken(fallback: bool, now: real, due: bool, raised: bool, big: bool): seq<BucketOp> {
      if due && raised == fallback then [SweepOf(ns, now - lim.IdleTtl(), fallback ==> big)] else []
    }

    /** What one call commits to each store: at most one sweep, then one spend, all under the one reading `now`, and
        each on the fallback exactly when its primary call raised.  The answer is that of the store spent on. */
    method Allow(client: string, cost: int, now: real, evictRaises: bool, spendRaises: bool) returns (allowed: bool)
      requires store.Valid()
      modifies this`nextEviction, store`calls
      modifies store.primary`buckets, store.primary`trail
      modifies store.fallback`buckets, store.fallback`trail, store.fallback`counters
      ensures store.Valid()
      ensures cost <= 0 ==>
                && allowed && nextEviction == old(nextEviction) && store.calls == old(store.calls)
                && store.primary.trail == old(store.primary.trail) && store.fallback.trail == old(store.fallback.trail)
      ensures cost > 0 ==>
                && var due := now >= old(nextEviction);
                   && nextEviction == (if due then now + 60.0 else old(nextEviction))
                   && store.calls ==
                       old(store.calls) + (if due then [Limit(evictRaises)] else []) + [Limit(spendRaises)]
      ensures cost > 0 ==>
                var due, big := now >= old(nextEviction), |old(store.fallback.buckets)| >= 1024;
                var p := old(store.primary.trail) + SweepTaken(false, now, due, evictRaises, big);
                var f := old(store.fallback.trail) + SweepTaken(true, now, due, evictRaises, big);
                && store.primary.trail == (if spendRaises then p else p + [SpendFor(client, cost, now)])
                && store.fallback.trail == (if spendRaises then f + [SpendFor(client, cost, now)] else f)
                && allowed == Allows(RowsAfter(if spendRaises then f else p), SpendFor(client, cost, now))
    {
      hide RowsAfter, Allows, Replay, FallbackOps, SweepTaken;
      if cost <= 0 {
        return true;
      }
      MaybeEvict(now, evictRaises);
      allowed := store.Spend(BucketKey(ns, client), cost as real, lim.capacity, lim.rate, now, spendRaises);
    }

    method MaybeEvict(now: real, raises: bool)
      requires store.Valid()
      modifies this`nextEviction, store`calls
      modifies store.primary`buckets, store.primary`trail
      modifies store.fallback`buckets, store.fallback`trail, store.fallback`counters
      ensures store.Valid()
      ensures var due, big := now >= old(nextEviction), |old(store.fallback.buckets)| >= 1024;
              && nextEviction == (if due then now + 60.0 else old(nextEviction))
              && store.calls == old(store.calls) + (if due then [Limit(raises)] else [])
              && store.primary.trail == old(store.primary.trail) + SweepTaken(false, now, due, raises, big)
              && store.fallback.trail == old(store.fallback.trail) + SweepTaken(true, now, due, raises, big)
    {
      hide RowsAfter, Replay, FallbackOps;
      if now < nextEviction {
        return;
      }
      nextEviction := now + EVICTION_INTERVAL_SECONDS;
      store.EvictBuckets(ns, now - lim.IdleTtl(), raises);
    }
  }
}
