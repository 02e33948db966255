/** The value types every check shares.  Source: amiweak/checks/base.py, amiweak/algorithms.py. */
module CheckBase {
  import opened Wrappers

  const ERROR_TIMEOUT := "timeout"
  const ERROR_INTERNAL := "internal"

  datatype Algorithm = SHA1 | NTLM {
    function Name(): string { if SHA1? then "sha1" else "ntlm" }
  }

  /** A parsed range: suffix or full hash, mapped to a count when the provider reports one. */
  type RangeData = map<string, Option<int>>

  /** One prefix fetch; exactly one of `data` and `error` is set. */
  datatype RangeFetch = RangeFetch(data: Option<RangeData>, error: Option<string>) {
    predicate Proper() { data.Some? != error.Some? }
  }

  /** `hit` is None when the check did not complete. */
  datatype CheckResult = CheckResult(name: string, enabled: bool, hit: Option<bool>, count: Option<int>,
      error: Option<string>,
                                     applicable: bool, skipped: bool)

  /** (backend name, algorithm, prefix). */
  datatype CacheKey = CacheKey(backend: string, algorithm: Algorithm, prefix: string)
}
