# AmIWeak, verified

A Dafny model of the stateful core of the AmIWeak backend: the shared token bucket, the degrading state store, the
prefix cache, the batch runner that must agree with checking every digest alone, the denylist's digest file and index,
and the strength scorer's child process. `dafny verify dfyconfig.toml` checks all of it.

## How it is laid out

| file | what it holds |
|---|---|
| `Wrappers.dfy`, `Text.dfy`, `CheckBase.dfy` | options, ASCII strings, the value types every check shares |
| `Buckets.dfy` | one bucket: spends, evictions, and what whole runs guarantee |
| `Ledger.dfy` | a whole bucket table, and the exact view one key has of it |
| `Workers.dfy` | N workers over one SQLite file, as a step system |
| `Fleet.dfy` | W workers over one shared primary that may fail, with a fallback each: values and objects |
| `Tables.dfy`, `Resilience.dfy` | counters, latency and health as values; conservation under failure |
| `Stores.dfy`, `RateLimit.dfy`, `Metrics.dfy` | the store, limiter and metrics objects |
| `Cache.dfy`, `CacheLaws.dfy` | the prefix cache object, and the laws of its runs |
| `Ranges.dfy`, `Checkers.dfy` | the two range parsers, and the three checkers behind one interface |
| `Plans.dfy`, `FanOut.dfy`, `Verdicts.dfy` | the fetch plan and its price, the fan-out as values, the verdict |
| `Answers.dfy` | from the bodies backends publish to what an item is told |
| `Pool.dfy`, `Rounds.dfy`, `Retention.dfy` | the thread pool behind a fan-out, runs of fan-outs over one cache, what one leaves for the next |
| `Runner.dfy`, `Accounting.dfy`, `BatchApi.dfy` | the runner object, its counters, the batch endpoint |
| `DigestStore.dfy`, `Denylist.dfy`, `Startup.dfy` | the file format, generation and index, workers racing to generate |
| `Strength.dfy` | the scorer object and its children |

## Main results

- **Rate limiting.** For every interleaving of workers, from any spend to any granted spend in commit order, no more is
  granted than the capacity plus what refills between their readings: with no assumption on the clock when nothing is
  evicted, and with evictions as long as no reading is more than 4.5 windows behind the largest. That 4.5 is exact:
  `EvictionInvisibleExactly` is an if-and-only-if, with a run that tells the two stores apart for every larger skew.
  The bucket is also no stricter than that: a spend is granted if and only if every window ending with it fits.
  In true time the bound needs no limit on the skew: with any sweeps it holds if and only if no reading gains on true
  time. Refused requests are free if and only if the clock never steps back. With W workers over one primary, any
  failures and commits in any order within that skew, callers get at most W + 1 allowances together.
- **Conservation.** Whatever primary calls fail, the merged snapshot's counters and latency are those of one store that
  received everything, and the error counter is the number of raised calls. With many workers over one primary a
  worker's scrape misses exactly what other workers' fallbacks hold.
- **Cache.** A hit is the last thing put for that key, less than a ttl ago; the entry used last survives if fewer than
  `max_entries` other keys are used since, and exactly then when nothing expires; a larger cache always holds what a
  smaller one does, in the same order. Over any run of batches every entry is the data of a returned fetch of that key,
  and a batch that fits the cache costs nothing when repeated if and only if no range has expired.
- **Batches.** With a fixed upstream each item of a batch gets, from each supporting checker, exactly the lookup in the
  true range or that prefix's one error; with no failures it is evaluated as it would be alone. From the bodies the
  backends publish, an item's verdict is that of the worst backend whose corpus holds the digest: degraded, error, safe
  and hit verdicts are characterised exactly. Price equals egress, and any window of any client's batches stays, for
  each bucket that answers, within one allowance.
- **Denylist.** The file format is a bijection between well-sized contents and accepted files, prefix-free in the
  strong sense that truncations and extensions are rejected; workers with one fingerprint generate once more than
  crashes and failed writes throw away, at most, and one within its cap can always finish; a digest hits exactly when it is that of an entry or an expansion.
- **Strength.** A score returned for a password is the worker's answer to that password, over every history of hangs,
  deaths, kills and late lines; recorded failures are at least five seconds apart.

## Where the code and its documentation disagree

- amiweak/rate_limit.py:10-13 and README.md:388-394 say a clock stepping back briefly grants extra allowance. In true
  time it does not, however often and far it steps and whatever is swept: the allowance holds on all runs if and only
  if no reading gains on true time over an earlier commit (`Buckets.TrueTimeBoundExactly`,
  `Workers.WorkersBoundInTrueTime`). Extra allowance comes from such a gain: a step forward, or a reading taken before a
  step back that is committed after one taken behind it.
- amiweak/rate_limit.py:42-46 says a rejected request spends nothing. Under a clock that never steps back it costs
  nothing at all; after any step back it can cost a later request its grant, because it moved `last_seen`
  (`Buckets.RefusalsFreeExactly`).
- README.md describes the algorithm counter as successful fetches; the code counts every fetch that returns. The two
  agree if and only if no fetch of that backend returned an error (`Accounting.AlgorithmsCountSuccesses`).
- amiweak/checks/denylist.py:33-34 says a denylist fetch cannot fail, so that `on_error` never fires. The fetch cannot,
  but its slot in the pool can still be waiting at the deadline: the check always completes if and only if fewer network
  fetches are submitted before it than the pool may have workers (`Pool.DenylistFailsExactly`, with a batch in
  `Pool.DenylistCanFail`). A digest checked alone always has enough (`Pool.AloneNeverFails`).

## Model

| member | source | states |
|---|---|---|
| Buckets.Configured | amiweak/rate_limit.py:15-27 | every configuration gives a positive rate that refills exactly the capacity in one window |
| Buckets.PotentialNeverIncreases | amiweak/store.py:78-86 | tokens minus rate times last_seen, after paying for every grant, never increases over a run, for any clock readings |
| Buckets.RunRateBound | amiweak/store.py:78-86 | from any row at all, a run from a spend to a granted spend grants at most the capacity plus the refill between the two readings |
| Buckets.WindowRateBound | amiweak/store.py:219-247 | the same for every window of one long run without evictions, readings in any order |
| Buckets.EvictionInvisible | amiweak/rate_limit.py:59-69 | with readings at most 4.5 windows behind the largest, any schedule of sweeps gives the decision stream of no sweeps |
| Buckets.EvictionVisible | amiweak/rate_limit.py:59-69 | for any larger skew there is a run in which one sweep turns a refusal into a grant |
| Buckets.EvictionInvisibleExactly | amiweak/rate_limit.py:32-69 | for every configuration sweeps are invisible on all runs of a given skew if and only if the skew is at most 4.5 windows |
| Buckets.SweptRateBound | amiweak/store.py:249-262 | the window rate bound with sweeps, under the skew bound |
| Buckets.RefillComposes | amiweak/store.py:80-81 | looking at a bucket and writing back the refilled level changes no later level |
| Buckets.RejectedRequestsAreFree | amiweak/store.py:78-86 | under a non-decreasing clock, deleting any set of refused spends leaves every other decision unchanged, sweeps included |
| Buckets.RefusalsFreeExactly | amiweak/rate_limit.py:42-46 | for every configuration deleting refusals is invisible on all runs of a given skew if and only if the skew is not positive |
| Buckets.TrueTimeWindow | amiweak/rate_limit.py:10-13 | however far and often the clock steps back, and whatever is swept, a window of true time grants at most the capacity plus its refill |
| Buckets.TrueTimeBoundExactly | amiweak/rate_limit.py:10-13 | for every configuration that bound holds on all windows of all runs if and only if no reading gains on true time |
| Buckets.LevelIsTightestWindow | amiweak/store.py:78-86 | after any run and for any clock, a bucket's level is the least that any window of its spends leaves |
| Buckets.GrantedExactly | amiweak/store.py:78-86 | a spend is granted if and only if it keeps every window that ends with it within the capacity plus the refill, for any clock |
| Buckets.SweptGrantedExactly | amiweak/store.py:219-262 | the same with sweeps, under the skew bound |
| Ledger.ViewIsExact | amiweak/store.py:78-99 | a table shared by many keys and limiters behaves, for each key, exactly as that key's bucket alone |
| Ledger.NamespacesAreDisjoint | amiweak/store.py:88-99 | sweeping one limiter's namespace leaves every key of another's as it was |
| Ledger.TableRateBound | amiweak/store.py:219-262 | the rate bound on any window of one key's events in a whole table with sweeps |
| Ledger.StoresDecideAlike | amiweak/store.py:88-99 | two stores given the same calls that sweep on different occasions answer a key identically |
| Ledger.StretchBound | amiweak/store.py:78-99 | whatever a table took before and however it is swept, operations with ascending readings in an interval grant a key at most the capacity plus its refill |
| Workers.StepKeepsInv | amiweak/store.py:219-247 | every step of every worker keeps the table equal to the committed log replayed, with one fresh transaction open at most |
| Workers.LogIsAsked | amiweak/store.py:219-262 | what the committed log does to a client is what the requests behind its steps ask for, and its replies are what their callers are told |
| Workers.WorkersAreSerializable | amiweak/store.py:219-247 | in every interleaving with rollbacks a client's callers are told what one bucket decides that is fed, in commit order, each commit at the cost and reading its worker was last asked for and each sweep at that reading |
| Workers.WorkersRateBound | amiweak/rate_limit.py:39-57 | the rate bound on what was asked for and granted, over every interleaving with sweeps, under the skew bound |
| Workers.WorkersGrantExactly | amiweak/store.py:219-247 | in every interleaving a caller is granted its request if and only if no window of the client's committed requests would be exceeded |
| Workers.WorkersRateBoundAnyClock | amiweak/rate_limit.py:39-57 | the rate bound on what was asked for and granted, over every interleaving without sweeps, for any clock |
| Workers.WorkersBoundInTrueTime | amiweak/rate_limit.py:10-13 | over every interleaving with sweeps and steps back, the bound on requests in true time, as long as no reading gains on true time |
| Workers.RequestCompletes | amiweak/store.py:219-247 | from every reachable state with a free lock an idle worker's request runs to its commit, swept before or not, and its caller is told what the bucket decides after everything before |
| Workers.LockCanBeFreed | amiweak/store.py:219-247 | in every reachable state whoever holds the lock can give it back by steps of its own |
| Fleet.BucketDuring | amiweak/store.py:78-99 | one bucket, swept at any time, with commits in any order within 4.5 windows of skew: readings in any interval are granted at most the capacity plus its refill |
| Fleet.TrailsBound | amiweak/store.py:339-344 | any number of such buckets grant readings in an interval at most that many allowances |
| Fleet.Operate | amiweak/store.py:306-351 | running W workers' calls on W ResilientStore objects over one primary gives every caller the run's reply and leaves every store with exactly what the run sent it |
| Fleet.RunGrants | amiweak/store.py:339-344 | what a client's callers were granted over a run is what its buckets granted, no more and no less |
| Fleet.DegradedRateBound | amiweak/store.py:339-351 | over every run of W workers, from any stores, with any failures and sweeps and commits within 4.5 windows of skew, a client's callers are granted on readings in any interval at most W + 1 times the capacity plus its refill |
| Fleet.ScrapeAfter | amiweak/store.py:353-388 | after any run of W workers a readable scrape shows one store that received every call but those other workers' fallbacks hold |
| Stores.MemoryStore.Incr | amiweak/store.py:62-65 | adds to one labelled counter and leaves everything else |
| Stores.MemoryStore.Observe | amiweak/store.py:67-72 | counts, sums and takes the maximum, from a zero entry |
| Stores.MemoryStore.SetHealth | amiweak/store.py:74-76 | replaces one backend's health |
| Stores.MemoryStore.Spend | amiweak/store.py:78-86 | the table stays the replay of its trail, which grows by this spend, and the answer is the trail's |
| Stores.MemoryStore.EvictBuckets | amiweak/store.py:88-99 | removes exactly the namespace's stale buckets, and only from a table of at least 1024 |
| Stores.SqliteStore.Incr | amiweak/store.py:194-199 | as MemoryStore's over a flat table, or no effect when it raises |
| Stores.SqliteStore.Observe | amiweak/store.py:201-209 | as MemoryStore's but seeded by the first observation, or no effect when it raises |
| Stores.SqliteStore.SetHealth | amiweak/store.py:211-217 | replaces one backend's health, or no effect when it raises |
| Stores.SqliteStore.Spend | amiweak/store.py:219-247 | the committed transaction: the trail grows by this spend and its answer is given, or nothing happens |
| Stores.SqliteStore.EvictBuckets | amiweak/store.py:249-262 | always sweeps the namespace's stale buckets, or no effect when it raises |
| Stores.SqliteStore.TakeSnapshot | amiweak/store.py:264-281 | rebuilds the nested counters from the rows |
| Stores.NestedUpsert | amiweak/store.py:194-199 | an upsert of one row is an update of one nested counter and of no other |
| Stores.ResilientStore.Incr | amiweak/store.py:318-323 | goes to the primary, whatever else it holds, or is noted and replayed on the fallback, never both |
| Stores.ResilientStore.Observe | amiweak/store.py:325-330 | the same for a latency observation |
| Stores.ResilientStore.SetHealth | amiweak/store.py:332-337 | the same for a health write |
| Stores.ResilientStore.Spend | amiweak/store.py:339-344 | exactly one store's trail grows, and that store's answer is the answer |
| Stores.ResilientStore.EvictBuckets | amiweak/store.py:346-351 | exactly one store's trail grows by the sweep |
| Stores.ResilientStore.TakeSnapshot | amiweak/store.py:353-388 | the merge of both views; with a readable primary its sums are those of one store that received everything |
| Stores.AddCounters | amiweak/store.py:362-368 | the nested merge loop adds label by label |
| Stores.AddLatencies | amiweak/store.py:370-375 | the latency merge loop adds counts and sums and takes the larger maximum |
| Stores.FillHealth | amiweak/store.py:383-386 | the primary's health wins wherever it has an entry |
| Tables.RecordLeft | amiweak/store.py:353-388 | recording on the primary and then merging equals merging and then recording |
| Tables.RecordRight | amiweak/store.py:353-388 | recording on the fallback and then merging equals merging and then recording |
| Tables.CountIsTotal | amiweak/store.py:62-65 | a replayed counter is the sum of the amounts handed in |
| Tables.LatencySummarises | amiweak/store.py:67-72 | a replayed latency entry is the count, the sum and the maximum of the seconds observed, in memory never below zero |
| Resilience.Conservation | amiweak/store.py:306-388 | for every run and failure pattern the merged counters and latency equal those of one store that received every operation |
| Resilience.FleetConservation | amiweak/store.py:306-388 | the same for many workers over one primary: a worker's merged sums are those of one store that received every call but those other workers' fallbacks hold |
| Resilience.MergeIsOneStore | amiweak/store.py:353-388 | merged sums depend only on what the two stores took, not on when or from whom |
| Resilience.MergedTotals | amiweak/store.py:310-388 | each merged counter is the sum of the amounts callers gave, plus, for the error counter, the number of raised primary calls |
| Resilience.MergedHealth | amiweak/store.py:377-386 | merged health is the last write the primary took, however old, else the last the fallback took |
| RateLimit.TokenBucket.constructor | amiweak/rate_limit.py:15-27 | limits derived from the configuration, nothing evicted yet |
| RateLimit.TokenBucket.Allow | amiweak/rate_limit.py:29-57 | no cost means no store call; otherwise at most one sweep and then one spend under one reading, each on the store that took it, and that store's answer |
| RateLimit.TokenBucket.MaybeEvict | amiweak/rate_limit.py:59-69 | sweeps if and only if the interval is over, with the idle cutoff |
| Cache.PrefixCache.Get | amiweak/cache.py:38-55 | a live entry moves to the end and is a hit; an expired one goes and is a miss |
| Cache.PrefixCache.Contains | amiweak/cache.py:57-68 | live or not, with nothing counted or moved |
| Cache.PrefixCache.Put | amiweak/cache.py:70-78 | the entry becomes the newest and only the oldest beyond the bound go |
| CacheLaws.GetIsExact | amiweak/cache.py:38-55 | a lookup forgets its entry exactly when it has expired, keeps every other, and makes a live one the newest |
| CacheLaws.HitsAreFreshPuts | amiweak/cache.py:38-78 | over any run the size stays within the bound and a hit is the data last put for the key, less than a ttl ago |
| CacheLaws.LruGuarantee | amiweak/cache.py:38-78 | the entry used last is still there while fewer than the bound of distinct other keys were put or hit |
| CacheLaws.PutIsServed | amiweak/cache.py:38-78 | a range that was put is served exactly until it is a ttl old, while fewer than the bound of distinct other keys were put or hit |
| CacheLaws.LruExactly | amiweak/cache.py:38-78 | with nothing expiring it is there if and only if fewer than the bound were used |
| CacheLaws.LargerHoldsMore | amiweak/cache.py:38-78 | for any common run the smaller cache is the larger with entries left out, in the same order, and its hits are the larger's |
| Ranges.ParseHibpRange | amiweak/checks/hibp.py:28-47 | the loop computes the range of its lines |
| Ranges.HibpRangeHolds | amiweak/checks/hibp.py:28-47 | a suffix is in the range if and only if some line carries it with a positive count, and the last such line gives the count |
| Ranges.HibpRowReads | amiweak/checks/hibp.py:36-46 | a padded row in any letter case yields its upper-case suffix and its count, or nothing for padding |
| Ranges.HibpRowRejects | amiweak/checks/hibp.py:36-42 | a row without a colon or without a suffix lists nothing |
| Ranges.HibpHitIsMembership | amiweak/checks/hibp.py:88-90 | parse then lookup hits exactly when the digest is in the corpus the body lists |
| Ranges.ParseWeakpassRange | amiweak/checks/weakpass.py:26-38 | the loop computes the range of its lines |
| Ranges.WeakpassRangeHolds | amiweak/checks/weakpass.py:26-38 | a hash is in the range if and only if some line is that hash in any case |
| Ranges.WeakpassRowReads | amiweak/checks/weakpass.py:33-38 | a padded hash in any letter case yields its lower-case form, and a row that is not all hexadecimal nothing |
| Ranges.WeakpassHitIsMembership | amiweak/checks/weakpass.py:80-82 | parse then lookup hits exactly when the digest is in the corpus the body lists |
| Text.Letters | amiweak/checks/hibp.py:36-46 | the 26 letters change case in pairs and nothing else changes |
| Text.CaseBlind | amiweak/checks/weakpass.py:80-82 | two texts agree in upper case exactly when they agree in lower case |
| Text.HexCharacters | amiweak/checks/weakpass.py:33-38 | the sixteen digits a hash row may consist of |
| Text.SpaceCharacters | amiweak/checks/weakpass.py:33-38 | the twelve characters stripping takes for space |
| Plans.PlanIsExact | amiweak/checks/runner.py:187-196 | the plan is exactly the distinct prefixes the supporting checkers need, each key once |
| Plans.PriceIsEgress | amiweak/checks/runner.py:198-211 | the price equals the cacheable fetches submitted when no planned key turned live or stale in between |
| Plans.OwedIsPending | amiweak/checks/runner.py:198-211 | the price is the number of cacheable keys left pending under the same readings, at most one per planned key |
| Verdicts.Ordered | amiweak/checks/runner.py:367-382 | config order first with placeholders for what did not run, then the rest |
| Verdicts.OrderedHolds | amiweak/checks/runner.py:367-382 | ordering loses no completed result and repeats no name |
| Verdicts.OrderedKeepsConfigs | amiweak/checks/runner.py:367-382 | the configured names come first and in their order, one that did not complete as a placeholder for its own configuration, and only completed results follow |
| Verdicts.EvaluationIsExact | amiweak/checks/runner.py:315-403 | degraded if and only if a supporting checker failed; error if and only if one that fails closed did; otherwise the worst hit in the table, else safe |
| Verdicts.NoFalseAllClear | amiweak/checks/runner.py:384-403 | safe and not degraded if and only if every supporting checker's range arrived and missed |
| FanOut.RangeIsTrueOrError | amiweak/checks/runner.py:230-313 | a planned key's range is the true one if it was cached or returned, and otherwise absent with the returned error, "internal" for a raise or "timeout" for a timeout |
| FanOut.BatchRefinesCheck | amiweak/checks/runner.py:213-334 | each item gets from each checker what it is owed: not applicable, its own check against the true range, or unreachable with its prefix's returned error, "internal" or "timeout" |
| FanOut.BatchEqualsAlone | amiweak/checks/runner.py:154-228 | with no failures every item is evaluated as if checked alone, whatever the duplicates and the cache |
| FanOut.FanOutKeepsTrue | amiweak/checks/runner.py:286-313 | a fan-out leaves a cache of true ranges a cache of true ranges within its bound |
| FanOut.PutsComeFromFetches | amiweak/checks/runner.py:309-312 | every entry one fan-out adds is the data of a returned fetch of that exact key, expiring a ttl after it was stored |
| FanOut.RangesJoin | amiweak/checks/runner.py:238-284 | cached and settled ranges together cover exactly the plan |
| Answers.HibpAnswers | amiweak/checks/hibp.py:28-90 | from a range body to the result: a hit exactly for a digest of the corpus, with the count of the last row for it |
| Answers.WeakpassAnswers | amiweak/checks/weakpass.py:26-82 | from a range body to the result: a hit exactly for a digest of the corpus |
| Answers.DenylistAnswers | amiweak/checks/denylist.py:29-48 | from the index to the result: a hit exactly for an indexed digest |
| Answers.CheckIsMembership | amiweak/checks/base.py:108-115 | whichever backend it is, its own check of the range its prefix truly has is membership in its corpus |
| Answers.ItemVerdict | amiweak/checks/runner.py:213-403 | an item is degraded exactly when an applicable backend's range is missing, an error exactly when one that fails closed is, and otherwise named after the worst backend that knows the digest, or safe |
| Pool.LocalWaitsExactly | amiweak/checks/runner.py:254-278 | a fetch from memory can miss the deadline if and only if as many network fetches are submitted before it as there are threads |
| Pool.LocalFailsWhenLate | amiweak/checks/runner.py:254-284 | given the schedule an item's denylist check is a timeout if and only if its fetch is late, and otherwise looks the digest up in its own bucket |
| Pool.DenylistFailsExactly | amiweak/checks/denylist.py:32-35 | an item's denylist check completes under every schedule if and only if fewer network fetches are submitted before it than the pool may have workers |
| Pool.AloneNeverFails | amiweak/checks/runner.py:164-171 | with a worker for every planned prefix the denylist check of a digest alone always completes |
| Pool.DenylistCanFail | amiweak/checks/runner.py:262-278 | one worker and an upstream that hangs: the batch is degraded, and an error if the denylist fails closed |
| Rounds.EntriesAreFetches | amiweak/checks/runner.py:309-312 | over any run of batches every cache entry is the data of a returned fetch of exactly that key, expiring a ttl after it was stored, and the bound is kept |
| Rounds.ServedIsFresh | amiweak/checks/runner.py:241-249 | from an empty cache, a range a batch takes from the cache was returned by an earlier batch's fetch of that very prefix, stored less than a ttl before |
| Rounds.FetchedKey | amiweak/checks/runner.py:187-196 | the key it is kept under names a supporting checker, the algorithm asked for and the prefix |
| Rounds.RoundsStayTrue | amiweak/checks/runner.py:286-313 | over any run of batches with truthful upstreams the cache holds true ranges only |
| Rounds.RunRefinesCheck | amiweak/checks/runner.py:213-334 | every item of every batch of such a run gets from each checker what it is owed, whatever earlier batches left in the cache |
| Retention.BatchStaysCached | amiweak/checks/runner.py:230-313 | a batch that needs no more cacheable prefixes than the cache holds leaves every range it had or fetched in the cache, each with its own expiry |
| Retention.RepeatIsFreeExactly | amiweak/checks/runner.py:198-211 | after such a batch that lost no fetch, the same batch again sends nothing upstream if and only if no range has reached its expiry |
| Retention.DisabledIsUntouched | amiweak/cache.py:38-78 | with the cache switched off a batch leaves it alone and owes every cacheable prefix every time |
| Runner.CheckRunner.Plan | amiweak/checks/runner.py:187-196 | the nested loops build the plan |
| Runner.CheckRunner.PrefixCost | amiweak/checks/runner.py:198-211 | the price, with the cache untouched |
| Runner.CheckRunner.Split | amiweak/checks/runner.py:241-249 | cached ranges, pending keys, the cache after the lookups and the counted hits and misses |
| Runner.CheckRunner.Collect | amiweak/checks/runner.py:263-279 | a range for every pending key, the cache after the stores, and one timeout record for each backend |
| Runner.CheckRunner.Settle | amiweak/checks/runner.py:286-313 | one future: its range, its records, and its data stored if it has any |
| Runner.CheckRunner.FetchPlan | amiweak/checks/runner.py:230-284 | a range for exactly the planned keys, the cache it leaves and everything it records |
| Runner.CheckRunner.EvaluateFrom | amiweak/checks/runner.py:315-334 | one digest's evaluation from the ranges in hand, counted once |
| Runner.CheckRunner.EvaluateBatch | amiweak/checks/runner.py:213-228 | one outcome for each item in order, from one fetch for each distinct prefix, and counters that stay balanced |
| Runner.CheckRunner.EvaluateDigest | amiweak/checks/runner.py:154-172 | the evaluation of one digest from its own plan, and counters that stay balanced |
| Metrics.Recorder.RecordCheck | amiweak/metrics.py:37-39 | one check and one verdict |
| Metrics.Recorder.RecordBackend | amiweak/metrics.py:41-55 | one request, one error if failed, one observation; a success becomes the last one and clears the error, a failure keeps the last success |
| Metrics.CheckKeepsBalance | amiweak/metrics.py:37-39 | a recorded check adds one to the checks and one to the sum of verdicts |
| Metrics.RecordedTotals | amiweak/metrics.py:37-69 | each counter moves by exactly what the operations add to it |
| Accounting.LookupsCount | amiweak/checks/runner.py:241-249 | per backend, hits are the planned keys the cache answered and misses the other cacheable ones |
| Accounting.SettlesCount | amiweak/checks/runner.py:263-307 | per backend, requests rise by the completed fetches plus one if any timed out, errors by the failed ones plus the same one |
| Accounting.TimingsAreElapsed | amiweak/checks/runner.py:263-307 | per backend, one observation for each request counted: how long each completed fetch took, and how long one that timed out was waited for |
| Accounting.AlgorithmsCount | amiweak/checks/runner.py:307-308 | the algorithm counter rises by every fetch that returned, returned errors included |
| Accounting.AlgorithmsCountSuccesses | amiweak/checks/runner.py:307-308 | that is the successful fetches if and only if none of the backend's fetches returned an error |
| Accounting.VerdictsCount | amiweak/checks/runner.py:405-408 | each item counts once as a check and once under its own verdict |
| Accounting.BatchKeepsBalance | amiweak/checks/runner.py:405-408 | a store whose `checks_total` is the sum of its `verdicts_total` before a batch is such a store after it, and only then |
| Accounting.DigestKeepsBalance | amiweak/checks/runner.py:405-408 | the same for one digest |
| BatchApi.BatchVerdicts | amiweak/routes/api.py:110-116 | an evaluated digest carries one of the five summary verdicts |
| BatchApi.Summarize | amiweak/routes/api.py:200-212 | the summary has exactly the six keys, the total and the count of each verdict under its own name |
| BatchApi.SummaryAddsUp | amiweak/routes/api.py:200-212 | the five counts add up to the total |
| BatchApi.ChargeOnce | amiweak/rate_limit.py:29-57 | one request is at most one sweep and one spend, each on one bucket, and gets the answer of the bucket that took the spend |
| BatchApi.CheckBatch | amiweak/routes/api.py:168-226 | a refused batch changes nothing but its bucket; an accepted one submits exactly its price while no planned key turned live or stale, answers every item with its evaluation, summarised, and records its lookups, fetches, verdicts and itself |
| BatchApi.BatchIsMetered | amiweak/metrics.py:37-69 | what an answered batch adds to /metrics: one batch, its items, a check and a verdict each, and per backend its hits, misses and requests |
| BatchApi.EgressBound | amiweak/routes/api.py:180-191 | for any window of any client's batches among others', from any table, with any store failures and sweeps, the fetches submitted on one bucket's word stay within its capacity plus refill |
| BatchApi.EgressIsSum | amiweak/routes/api.py:180-191 | what is bounded is the sum of the fetches submitted to the client on that bucket's word |
| BatchApi.Serve | amiweak/routes/api.py:168-226 | any clients' batches through limiter, cache and runner: every turn priced and decided on what was there, and the bound on every window of every client |
| DigestStore.UnpackPacks | amiweak/digest_store.py:20 | unpacking a packed count gives the count |
| DigestStore.PackUnpacks | amiweak/digest_store.py:20 | packing an unpacked field gives the field |
| DigestStore.ReadUndoesWrite | amiweak/digest_store.py:29-57 | reading a written file gives back fingerprint and digests |
| DigestStore.Layout | amiweak/digest_store.py:17-20 | where a written file has its magic, version, fingerprint, count with the low byte first, and each digest |
| DigestStore.AcceptedIsWritten | amiweak/digest_store.py:29-44 | every accepted file is byte for byte the writing of what was read from it |
| DigestStore.PartialAndExtendedRejected | amiweak/digest_store.py:41-42 | every proper prefix and every proper extension of a written file is rejected |
| DigestStore.Disk.ReadCache | amiweak/digest_store.py:29-44 | a path reads as given contents if and only if its file is byte for byte their writing |
| DigestStore.Disk.WriteThenRead | amiweak/digest_store.py:29-57 | reading after a write gives what was written, and after a failed write what was readable before |
| DigestStore.Disk.WriteCache | amiweak/digest_store.py:47-57 | the whole file or no change at the path, whatever write fails |
| DigestStore.FramingIsUnique | amiweak/denylist.py:126-137 | the length-prefixed input determines the list of blobs |
| DigestStore.FingerprintInputIsUnique | amiweak/denylist.py:120-138 | equal fingerprint inputs have equal versions and equal files |
| DigestStore.FingerprintLayout | amiweak/denylist.py:120-138 | where the hasher sees the version, the library's version and the files, each behind its length |
| Denylist.GenerateDigests | amiweak/denylist.py:80-109 | the sorted set of every entry's and expansion's digest, or failure at the very word that exceeds the cap |
| Denylist.AddWords | amiweak/denylist.py:98-102 | words are added up to the first that takes the set past the cap |
| Denylist.WordsAreDerived | amiweak/denylist.py:104-108 | the words hashed are exactly the entries and their expansions |
| Denylist.Sorted | amiweak/denylist.py:109 | strictly ascending with exactly the set's members |
| Denylist.LessIsLexicographic | amiweak/denylist.py:109 | the order is that of the first byte that differs, a proper prefix first |
| Denylist.Bucket | amiweak/denylist.py:112-117 | the buckets hold exactly the split hex of the digests |
| Denylist.HexReads | amiweak/denylist.py:112-117 | each byte is two lower-case hexadecimal digits, the high one first |
| Denylist.IndexIsMembership | amiweak/checks/denylist.py:29-48 | a digest in any letter case hits exactly when it is the hex of an indexed digest |
| Denylist.DenylistHitsItsWords | amiweak/denylist.py:80-117 | through generation, file and index, a digest hits exactly when it is that of an entry or an expansion |
| Startup.StepKeepsInv | amiweak/denylist.py:141-168 | every step keeps the file whole and truthful and the lock exclusive |
| Startup.StartupIsSafe | amiweak/denylist.py:141-168 | whatever crashes and whatever the fingerprints, a worker that returns returns its own inputs' digests and the file is always a complete one |
| Startup.AbandonedFileIsRejected | amiweak/digest_store.py:47-57 | a temporary file abandoned part-way would be rejected by any reader |
| Startup.GenerationsAreCounted | amiweak/denylist.py:141-168 | whatever fails, workers with one fingerprint generate once for each time a writer crashed or its write failed, and at most once more, exactly so if any returns |
| Startup.GeneratesAtMostOnce | amiweak/denylist.py:141-168 | so with no crash in mid-write and no failed write they generate at most once from a missing or corrupt file, and exactly once if any returns |
| Startup.ReadyFileIsReturned | amiweak/denylist.py:147-158 | in every reachable state a file with the worker's fingerprint is returned as it is, at once or by one that waited for the lock, with nothing generated |
| Startup.OtherFileIsMissed | amiweak/denylist.py:147-158 | any other file, or none, sends the worker to the lock, and one that has the lock to generate |
| Startup.GivingUp | amiweak/denylist.py:141-168 | a worker that times out, fails to write or dies changes nothing but itself and the lock it held |
| Startup.OthersUntouched | amiweak/denylist.py:141-168 | no step moves another worker, and only a replacement changes the file, to its worker's whole file |
| Startup.GenerateFailsExactly | amiweak/denylist.py:98-109 | in every reachable state generation fails if and only if there are more digests than the cap allows, and then gives the lock back |
| Startup.WorkerFinishes | amiweak/denylist.py:141-168 | from every reachable state a worker within its cap that has the lock or finds it free has a run of its own steps that ends with its digests returned and its file in place |
| Strength.StrengthScorer.EnsureRunning | amiweak/strength.py:97-127 | runs if and only if a child is alive or may be spawned; a spawned child has its own empty queue; a spawn that fails is recorded |
| Strength.StrengthScorer.Happen | amiweak/strength.py:129-132 | no move makes a quiet child speak, and a child with one open request yields at most that answer |
| Strength.StrengthScorer.Kill | amiweak/strength.py:139-143 | the child is gone and no other is touched |
| Strength.StrengthScorer.Collect | amiweak/strength.py:75-95 | the one line there graded as the worker's payload says, or a timeout that kills and records |
| Strength.StrengthScorer.Score | amiweak/strength.py:62-95 | a score returned for a password is the worker's answer to it, and an able, prompt worker's payload is returned: its score, or "internal" for one without |
| Strength.StrengthScorer.Serve | amiweak/strength.py:62-127 | over any run of calls every score is the answer to its own password and recorded failures stay spaced; calls to a healthy worker are all graded by its answers |
| Strength.ChildrenKeepOrder | amiweak/strength.py:129-132 | a child deals with its open requests one at a time and in order; its queue gains exactly the answers, and it is alive until it dies |
| Strength.FailuresTakeTime | amiweak/strength.py:97-118 | n recorded failures span at least n minus one backoffs |

## Left out

- Flask routing, templates, OpenAPI, logging, configuration, Prometheus text and uptime: I/O and formatting around the core.
- Parsing of request bodies (`_load_json`, `_parse_batch`, `_parse_hash`): validation by cases with no state.
- `CheckRunner.evaluate`: the strength, length and plaintext gates in front of `evaluate_digest`, and `normalize` and `matches` behind the last of them; a short chain of early returns.
- The HTTP session: a fetch is a parameter that returned data, returned an error, raised or timed out, with one clock reading for each planned key.
- SHA-1, SHA-256, the rule engine, `int()` and JSON parsing are parameters. The fingerprint is assumed to determine the generated digests, and `splitlines` is taken as done: a range body is a list of lines.
- Unicode: upper, lower and strip are ASCII (plus the Latin-1 spaces), which covers hexadecimal text.
- Floating-point rounding: tokens, seconds and clock readings are reals.
- SQLite internals: a raising call leaves the file unchanged and `BEGIN IMMEDIATE` is exclusive; the case-insensitivity of `LIKE` is not modelled, as namespaces are fixed lower-case literals.
- Threads inside one worker process: each object method is one step, as the source's locks make it; `MemoryStore.snapshot`'s use inside `record_backend` is therefore not raced.
- BatchApi.CheckBatch: the metrics recorder here has a MemoryStore of its own, where the application shares one store object between metrics and limiters.
- BatchApi.Serve: one worker takes one request after another; a window is bounded while none of its batches had a planned key turn live or stale between pricing and fetching.
- Answers.ItemVerdict: for digests of more than six characters; request parsing, which is left out, admits only those of 32 or 40.
- Pool: a fetch from memory is taken to need no time, and a free thread to take up the next submitted fetch at once.
- CheckRunner without a cache or without metrics: a disabled cache behaves as no cache does, and the recorder is always present.
