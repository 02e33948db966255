/** The wired checkers behind one interface, and the single-digest check that serves as the simple specification.
    Source: amiweak/checks/base.py:79-115, hibp.py, weakpass.py, denylist.py. */
module Checkers {
  import opened Wrappers
  import opened CheckBase
  import opened Text
  import opened Ranges
  import opened Denylist

  datatype Kind = Hibp | Weakpass | Local(buckets: Buckets)

  datatype Checker = Checker(kind: Kind, name: string, algorithms: set<Algorithm>) {
    predicate Cacheable() { !kind.Local? }

    predicate Supports(a: Algorithm) { a in algorithms && (kind.Local? ==> a == SHA1) }

    function PrefixOf(digest: string): string {
      match kind
      case Hibp => Take(Upper(digest), HIBP_PREFIX_LENGTH)
      case Weakpass => Take(Lower(digest), WEAKPASS_PREFIX_LENGTH)
      case Local(_) => Take(Lower(digest), DENYLIST_PREFIX_LENGTH)
    }

    function KeyFor(digest: string, a: Algorithm): CacheKey { CacheKey(name, a, PrefixOf(digest)) }

    function Lookup(data: RangeData, digest: string): (r: CheckResult)
      ensures r.name == name && r.hit.Some? && r.error.None?
    {
      var (hit, count) := match kind
        case Hibp => HibpLookup(data, digest)
        case Weakpass => WeakpassLookup(data, digest)
        case Local(_) => DenylistLookup(data, digest);
      CheckResult(name, true, hit, count, None, true, false)
    }

    function NotApplicable(): CheckResult { CheckResult(name, true, None, None, None, false, false) }

    function Unreachable(error: Option<string>): CheckResult { CheckResult(name, true, None, None, error, true, false) }

    /** `check`: one fetch, one lookup, no cache. */
    function Check(digest: string, a: Algorithm, fetched: RangeFetch): CheckResult {
      if !Supports(a) then NotApplicable()
      else if fetched.data.None? then Unreachable(fetched.error)
      else Lookup(fetched.data.value, digest)
    }
  }

  /** What each upstream would truly answer for each key. */
  type Upstream = CacheKey -> RangeData

  /** The true range behind a prefix: the provider's, or the bucket already in memory. */
  function TrueRange(c: Checker, up: Upstream, prefix: string, a: Algorithm): RangeData {
    if c.kind.Local? then DenylistRange(c.kind.buckets, prefix) else up(CacheKey(c.name, a, prefix))
  }

  /** What became of one submitted fetch when the fan-out was collected. */
  datatype FetchOutcome =
    | Returned(fetch: RangeFetch, elapsed: real)
    | RaisedIn(elapsed: real)
    | TimedOut(elapsed: real)

  function Settled(o: FetchOutcome): RangeFetch {
    match o
    case Returned(fetch, _) => fetch
    case RaisedIn(_) => RangeFetch(None, Some(ERROR_INTERNAL))
    case TimedOut(_) => RangeFetch(None, Some(ERROR_TIMEOUT))
  }

  /** A fetch that returned told the truth or an error; raises and timeouts are as they come. */
  predicate Honest(o: FetchOutcome, truth: RangeData) {
    o.Returned? ==> o.fetch.Proper() && (o.fetch.data.Some? ==> o.fetch.data.value == truth)
  }

  predicate DistinctNames(checkers: seq<Checker>) {
    forall i, j :: 0 <= i < j < |checkers| ==> checkers[i].name != checkers[j].name
  }
}
