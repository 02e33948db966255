/** From ranges to a verdict: `_evaluate_from`, `_ordered`, `_resolve`.  Source: amiweak/checks/runner.py:315-403. */
module Verdicts {
  import opened Wrappers
  import opened CheckBase
  import opened Checkers

  datatype Verdict = SAFE | LEAKED | PRECOMPUTED | DENYLISTED | TOO_SHORT | WEAK | ERROR {
    function Name(): string {
      match this
      case SAFE => "safe"
      case LEAKED => "leaked"
      case PRECOMPUTED => "precomputed"
      case DENYLISTED => "denylisted"
      case TOO_SHORT => "too_short"
      case WEAK => "weak"
      case ERROR => "error"
    }
  }

  /** Which backend produces which verdict, worst first. */
  const VERDICT_BY_CHECK: seq<(string, Verdict)> := [("hibp", LEAKED), ("weakpass", PRECOMPUTED),
      ("denylist", DENYLISTED)]

  datatype CheckConfig = CheckConfig(name: string, enabled: bool, failClosed: bool)

  datatype Evaluation = Evaluation(verdict: Verdict, degraded: bool, results: seq<CheckResult>)

  type Fetched = map<CacheKey, RangeFetch>

  /** One checker's result for one digest, from the ranges in hand. */
  function ResultOf(c: Checker, ranges: Fetched, digest: string, a: Algorithm): (r: CheckResult)
    ensures r.name == c.name
  {
    if !c.Supports(a) then c.NotApplicable()
    else
      var fetched := Lookup(ranges, c.KeyFor(digest, a));
      if fetched.None? then c.Unreachable(Some(ERROR_INTERNAL))
      else if fetched.value.data.None? then c.Unreachable(fetched.value.error)
      else c.Lookup(fetched.value.data.value, digest)
  }

  function Completed(checkers: seq<Checker>, ranges: Fetched, digest: string, a: Algorithm): (rs: seq<CheckResult>)
    ensures |rs| == |checkers| && forall k :: 0 <= k < |rs| ==> rs[k] == ResultOf(checkers[k], ranges, digest, a)
  {
    seq(|checkers|, k requires 0 <= k < |checkers| => ResultOf(checkers[k], ranges, digest, a))
  }

  /** The last result under a name, as in a dict built from the list. */
  function ByName(rs: seq<CheckResult>, name: string): (r: Option<CheckResult>)
    ensures r.Some? ==> r.value in rs && r.value.name == name
  {
    if rs == [] then None
    else if rs[|rs| - 1].name == name then Some(rs[|rs| - 1])
    else ByName(rs[..|rs| - 1], name)
  }

  function Placeholder(config: CheckConfig, skipped: bool): CheckResult {
    CheckResult(config.name, config.enabled, None, None, None, true, skipped)
  }

  function Slot(config: CheckConfig, completed: seq<CheckResult>, skipped: bool): CheckResult {
    ByName(completed, config.name).GetOr(Placeholder(config, skipped))
  }

  predicate Configured(configs: seq<CheckConfig>, name: string) {
    exists c :: c in configs && c.name == name
  }

  function Slots(configs: seq<CheckConfig>, completed: seq<CheckResult>, skipped: bool): seq<CheckResult> {
    if configs == [] then []
        else Slots(configs[..|configs| - 1], completed, skipped) + [Slot(configs[|configs| - 1], completed, skipped)]
  }

  function Extras(configs: seq<CheckConfig>, completed: seq<CheckResult>): seq<CheckResult> {
    if completed == [] then []
    else
      var r := completed[|completed| - 1];
      Extras(configs, completed[..|completed| - 1]) + if Configured(configs, r.name) then [] else [r]
  }

  method Ordered(configs: seq<CheckConfig>, completed: seq<CheckResult>, skipped: bool)
    returns (results: seq<CheckResult>)
    ensures results == Slots(configs, completed, skipped) + Extras(configs, completed)
  {
    results := [];
    for i := 0 to |configs|
      invariant results == Slots(configs[..i], completed, skipped)
    {
      assert configs[..i + 1][..i] == configs[..i];
      var found := ByName(completed, configs[i].name);
      if found.Some? {
        results := results + [found.value];
      } else {
        results := results + [CheckResult(configs[i].name, configs[i].enabled, None, None, None, true, skipped)];
      }
    }
    assert configs[..|configs|] == configs;
    for i := 0 to |completed|
      invariant results == Slots(configs, completed, skipped) + Extras(configs, completed[..i])
    {
      assert completed[..i + 1][..i] == completed[..i];
      if !Configured(configs, completed[i].name) {
        results := results + [completed[i]];
      }
    }
    assert completed[..|completed|] == completed;
  }

  predicate IsFailure(r: CheckResult) { r.enabled && r.applicable && r.hit.None? && r.error.Some? }

  predicate FailsClosed(configs: seq<CheckConfig>, name: string) {
    exists c :: c in configs && c.name == name && c.failClosed
  }

  predicate Hits(rs: seq<CheckResult>, name: string) {
    var r := ByName(rs, name);
    r.Some? && r.value.hit == Some(true)
  }

  /** The verdict of the first name in the table that hit, from entry k on. */
  function FirstHit(rs: seq<CheckResult>, k: nat): Verdict
    requires k <= |VERDICT_BY_CHECK|
    decreases |VERDICT_BY_CHECK| - k
  {
    if k == |VERDICT_BY_CHECK| then SAFE
    else if Hits(rs, VERDICT_BY_CHECK[k].0) then VERDICT_BY_CHECK[k].1
    else FirstHit(rs, k + 1)
  }

  function Resolve(configs: seq<CheckConfig>, results: seq<CheckResult>): (Verdict, bool) {
    var degraded := exists r :: r in results && IsFailure(r);
    if exists r :: r in results && IsFailure(r) && FailsClosed(configs, r.name) then (ERROR, degraded)
    else (FirstHit(results, 0), degraded)
  }

  /** The whole of `_evaluate_from`. */
  function Evaluated(configs: seq<CheckConfig>, checkers: seq<Checker>, ranges: Fetched, digest: string,
                     a: Algorithm): Evaluation {
    var completed := Completed(checkers, ranges, digest, a);
    var results := Slots(configs, completed, false) + Extras(configs, completed);
    var (verdict, degraded) := Resolve(configs, results);
    Evaluation(verdict, degraded, results)
  }

  // ----- What an evaluation says about its checkers -----

  predicate DistinctConfigs(configs: seq<CheckConfig>) {
    forall i, j :: 0 <= i < j < |configs| ==> configs[i].name != configs[j].name
  }

  predicate DistinctResults(rs: seq<CheckResult>) {
    forall i, j :: 0 <= i < j < |rs| ==> rs[i].name != rs[j].name
  }

  lemma {:induction false} ByNameFinds(rs: seq<CheckResult>, name: string)
    ensures ByName(rs, name).None? <==> forall r :: r in rs ==> r.name != name
    ensures DistinctResults(rs) ==> forall r :: r in rs && r.name == name ==> ByName(rs, name) == Some(r)
  {
    if rs != [] {
      var n := |rs| - 1;
      ByNameFinds(rs[..n], name);
      assert forall r :: r in rs <==> r in rs[..n] || r == rs[n];
    }
  }

  lemma {:induction false} SlotsHold(configs: seq<CheckConfig>, completed: seq<CheckResult>, skipped: bool)
    ensures |Slots(configs, completed, skipped)| == |configs|
    ensures forall k :: 0 <= k < |configs| ==>
              Slots(configs, completed, skipped)[k] == Slot(configs[k], completed, skipped)
    ensures forall k :: 0 <= k < |configs| ==> Slots(configs, completed, skipped)[k].name == configs[k].name
  {
    if configs != [] {
      SlotsHold(configs[..|configs| - 1], completed, skipped);
    }
  }

  lemma {:induction false} ExtrasHold(configs: seq<CheckConfig>, completed: seq<CheckResult>)
    ensures forall r :: r in Extras(configs, completed) <==> r in completed && !Configured(configs, r.name)
    ensures DistinctResults(completed) ==> DistinctResults(Extras(configs, completed))
  {
    hide Configured;
    if completed != [] {
      var n := |completed| - 1;
      ExtrasHold(configs, completed[..n]);
      assert forall r :: r in completed <==> r in completed[..n] || r == completed[n];
      var before := Extras(configs, completed[..n]);
      if DistinctResults(completed) {
        forall k | 0 <= k < |before|
          ensures before[k].name != completed[n].name
        {
          assert before[k] in completed[..n];
        }
      }
    }
  }

  /** The ordered results are the completed ones and placeholders, each name once. */
  lemma OrderedHolds(configs: seq<CheckConfig>, completed: seq<CheckResult>, skipped: bool)
    requires DistinctConfigs(configs) && DistinctResults(completed)
    ensures var results := Slots(configs, completed, skipped) + Extras(configs, completed);
            && DistinctResults(results)
            && (forall r :: r in completed ==> r in results)
  {
    SlotsHold(configs, completed, skipped);
    ExtrasHold(configs, completed);
    var slots, extras := Slots(configs, completed, skipped), Extras(configs, completed);
    forall i, j | 0 <= i < |slots| && 0 <= j < |extras|
      ensures slots[i].name != extras[j].name
    {
      assert extras[j] in extras && configs[i] in configs;
    }
    forall r | r in completed
      ensures r in slots + extras
    {
      if Configured(configs, r.name) {
        var c :| c in configs && c.name == r.name;
        var k :| 0 <= k < |configs| && configs[k] == c;
        ByNameFinds(completed, r.name);
        assert slots[k] == r;
      }
    }
  }

  /** The configured names come first and in their order, one that did not complete as a placeholder; only completed
      results follow. */
  lemma OrderedKeepsConfigs(configs: seq<CheckConfig>, completed: seq<CheckResult>, skipped: bool, k: nat)
    requires k < |Slots(configs, completed, skipped) + Extras(configs, completed)|
    ensures var r := (Slots(configs, completed, skipped) + Extras(configs, completed))[k];
            if k < |configs| then
              && r.name == configs[k].name
              && (if exists done :: done in completed && done.name == r.name then r in completed
                  else r == CheckResult(configs[k].name, configs[k].enabled, None, None, None, true, skipped))
            else r in completed && forall c :: c in configs ==> c.name != r.name
  {
    SlotsHold(configs, completed, skipped);
    ExtrasHold(configs, completed);
    hide Slots, Extras;
    if k < |configs| {
      ByNameFinds(completed, configs[k].name);
    } else {
      assert Extras(configs, completed)[k - |configs|] in Extras(configs, completed);
    }
  }

  /** A supporting checker whose range did not arrive. */
  predicate Fails(c: Checker, ranges: Fetched, digest: string, a: Algorithm) {
    c.Supports(a) && IsFailure(ResultOf(c, ranges, digest, a))
  }

  predicate CheckHits(c: Checker, ranges: Fetched, digest: string, a: Algorithm) {
    c.Supports(a) && ResultOf(c, ranges, digest, a).hit == Some(true)
  }

  ghost predicate SomeFails(checkers: seq<Checker>, ranges: Fetched, digest: string, a: Algorithm) {
    exists c :: c in checkers && Fails(c, ranges, digest, a)
  }

  ghost predicate SomeFailsClosed(configs: seq<CheckConfig>, checkers: seq<Checker>, ranges: Fetched, digest: string,
                                  a: Algorithm) {
    exists c :: c in checkers && Fails(c, ranges, digest, a) && FailsClosed(configs, c.name)
  }

  ghost predicate NamedHits(checkers: seq<Checker>, name: string, ranges: Fetched, digest: string, a: Algorithm) {
    exists c :: c in checkers && c.name == name && CheckHits(c, ranges, digest, a)
  }

  /** Failures and hits among the results are exactly those of the checkers. */
  lemma ResultsAreCheckers(configs: seq<CheckConfig>, checkers: seq<Checker>, ranges: Fetched, digest: string,
                           a: Algorithm)
    requires DistinctConfigs(configs) && DistinctNames(checkers)
    ensures var results := Evaluated(configs, checkers, ranges, digest, a).results;
            && DistinctResults(results)
            && (forall c :: c in checkers ==> ResultOf(c, ranges, digest, a) in results)
            && (forall r :: r in results && (r.hit.Some? || r.error.Some?) ==>
                exists c :: c in checkers && r == ResultOf(c, ranges, digest, a))
  {
    var completed := Completed(checkers, ranges, digest, a);
    assert DistinctResults(completed);
    OrderedHolds(configs, completed, false);
    forall c | c in checkers
      ensures ResultOf(c, ranges, digest, a) in completed
    {
      var k :| 0 <= k < |checkers| && checkers[k] == c;
      assert completed[k] == ResultOf(c, ranges, digest, a);
    }
    forall r | r in completed
      ensures exists c :: c in checkers && r == ResultOf(c, ranges, digest, a)
    {
      var k :| 0 <= k < |completed| && completed[k] == r;
      assert checkers[k] in checkers;
    }
    var results := Evaluated(configs, checkers, ranges, digest, a).results;
    hide Completed, Slots, Extras, ResultOf, DistinctResults, DistinctNames;
    forall r | r in results && (r.hit.Some? || r.error.Some?)
      ensures r in completed
    {
      var k :| 0 <= k < |results| && results[k] == r;
      OrderedKeepsConfigs(configs, completed, false, k);
    }
  }

  lemma FailureOfChecker(c: Checker, ranges: Fetched, digest: string, a: Algorithm)
    ensures IsFailure(ResultOf(c, ranges, digest, a)) ==>
              Fails(c, ranges, digest, a) && ResultOf(c, ranges, digest, a).error.Some?
    ensures ResultOf(c, ranges, digest, a).hit == Some(true) ==> CheckHits(c, ranges, digest, a)
    ensures Fails(c, ranges, digest, a) || CheckHits(c, ranges, digest, a) ==> c.Supports(a)
    ensures Fails(c, ranges, digest, a) ==> !CheckHits(c, ranges, digest, a)
  {
  }

  lemma HitsByName(configs: seq<CheckConfig>, checkers: seq<Checker>, ranges: Fetched, digest: string, a: Algorithm,
                   name: string)
    requires DistinctConfigs(configs) && DistinctNames(checkers)
    ensures Hits(Evaluated(configs, checkers, ranges, digest, a).results, name) <==>
              NamedHits(checkers, name, ranges, digest, a)
  {
    ResultsAreCheckers(configs, checkers, ranges, digest, a);
    hide ResultOf, Fails, Evaluated;
    var results := Evaluated(configs, checkers, ranges, digest, a).results;
    ByNameFinds(results, name);
    if Hits(results, name) {
      var c :| c in checkers && ByName(results, name).value == ResultOf(c, ranges, digest, a);
      FailureOfChecker(c, ranges, digest, a);
    }
  }

  /** Exactly when an evaluation is degraded, an error, safe, or one of the three hits: a statement about the set of
      checkers and their fetches alone, whatever their order. */
  lemma EvaluationIsExact(configs: seq<CheckConfig>, checkers: seq<Checker>, ranges: Fetched, digest: string,
                          a: Algorithm)
    requires DistinctConfigs(configs) && DistinctNames(checkers)
    ensures var e := Evaluated(configs, checkers, ranges, digest, a);
            && (e.degraded <==> SomeFails(checkers, ranges, digest, a))
            && (e.verdict == ERROR <==> SomeFailsClosed(configs, checkers, ranges, digest, a))
            && (e.verdict != ERROR ==>
                  e.verdict == if NamedHits(checkers, "hibp", ranges, digest, a) then LEAKED
                               else if NamedHits(checkers, "weakpass", ranges, digest, a) then PRECOMPUTED
                               else if NamedHits(checkers, "denylist", ranges, digest, a) then DENYLISTED
                               else SAFE)
  {
    var e := Evaluated(configs, checkers, ranges, digest, a);
    ResultsAreCheckers(configs, checkers, ranges, digest, a);
    HitsByName(configs, checkers, ranges, digest, a, "hibp");
    HitsByName(configs, checkers, ranges, digest, a, "weakpass");
    HitsByName(configs, checkers, ranges, digest, a, "denylist");
    forall r | r in e.results && IsFailure(r)
      ensures exists c :: c in checkers && c.name == r.name && Fails(c, ranges, digest, a)
    {
      var c :| c in checkers && r == ResultOf(c, ranges, digest, a);
      FailureOfChecker(c, ranges, digest, a);
    }
    hide ResultOf, Hits, NamedHits, Slots, Extras, Completed;
    assert FirstHit(e.results, 3) == SAFE;
    assert FirstHit(e.results, 2) == if Hits(e.results, "denylist") then DENYLISTED else SAFE;
    assert FirstHit(e.results, 1) == if Hits(e.results, "weakpass") then PRECOMPUTED else FirstHit(e.results, 2);
    assert FirstHit(e.results, 0) == if Hits(e.results, "hibp") then LEAKED else FirstHit(e.results, 1);
  }

  predicate Listed(c: Checker) { c.name in {"hibp", "weakpass", "denylist"} }

  /** No false all-clear: SAFE and not degraded means every checker that supports the algorithm completed and missed. */
  lemma NoFalseAllClear(configs: seq<CheckConfig>, checkers: seq<Checker>, ranges: Fetched, digest: string,
                        a: Algorithm)
    requires DistinctConfigs(configs) && DistinctNames(checkers) && forall c :: c in checkers ==> Listed(c)
    requires forall k :: k in ranges ==> ranges[k].Proper()
    ensures var e := Evaluated(configs, checkers, ranges, digest, a);
            (e.verdict == SAFE && !e.degraded) <==>
            forall c :: c in checkers && c.Supports(a) ==>
              && c.KeyFor(digest, a) in ranges && ranges[c.KeyFor(digest, a)].data.Some?
              && c.Lookup(ranges[c.KeyFor(digest, a)].data.value, digest).hit == Some(false)
  {
    EvaluationIsExact(configs, checkers, ranges, digest, a);
    var e := Evaluated(configs, checkers, ranges, digest, a);
    forall c | c in checkers && c.Supports(a)
      ensures Fails(c, ranges, digest, a) <==>
                !(c.KeyFor(digest, a) in ranges && ranges[c.KeyFor(digest, a)].data.Some?)
      ensures !Fails(c, ranges, digest, a) ==>
                ResultOf(c, ranges, digest, a) == c.Lookup(ranges[c.KeyFor(digest, a)].data.value, digest)
      ensures !Fails(c, ranges, digest, a) && !CheckHits(c, ranges, digest, a) <==>
                c.KeyFor(digest, a) in ranges && ranges[c.KeyFor(digest, a)].data.Some? &&
                c.Lookup(ranges[c.KeyFor(digest, a)].data.value, digest).hit == Some(false)
    {
    }
    hide Evaluated, ResultOf, Fails, CheckHits;
    if e.verdict == SAFE && !e.degraded {
      forall c | c in checkers && c.Supports(a)
        ensures !Fails(c, ranges, digest, a) && !CheckHits(c, ranges, digest, a)
      {
        assert Listed(c);
      }
    }
  }
}
