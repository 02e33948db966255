/** From what the upstreams know to what a caller is told: parse, fetch or cache, look up, resolve.
    Source: amiweak/checks/runner.py:213-403, amiweak/checks/hibp.py, amiweak/checks/weakpass.py,
    amiweak/checks/denylist.py. */
module Answers {
  import opened Wrappers
  import opened CheckBase
  import opened Text
  import opened Ranges
  import opened DigestStore
  import opened Denylist
  import opened Cache
  import opened Checkers
  import opened Plans
  import opened Verdicts
  import opened FanOut

  /** What a backend knows: upper-case digests for HIBP, lower-case ones for the others. */
  type Corpus = set<string>

  ghost predicate Knows(c: Checker, corpus: Corpus, digest: string) {
    if c.kind.Hibp? then Upper(digest) in corpus else Lower(digest) in corpus
  }

  /** Every range a backend serves is the parse of a body that lists its corpus behind that prefix; the denylist's
      buckets index its digests. */
  ghost predicate Publishes(c: Checker, a: Algorithm, up: Upstream, toInt: IntParser, corpus: Corpus) {
    match c.kind
    case Hibp => forall prefix :: |prefix| == 5 ==> HibpServes(up(CacheKey(c.name, a, prefix)), toInt, corpus, prefix)
    case Weakpass => forall prefix :: |prefix| == 6 ==> WeakpassServes(up(CacheKey(c.name, a, prefix)), corpus, prefix)
    case Local(buckets) => exists digests :: IndexesCorpus(buckets, digests, corpus)
  }

  ghost predicate HibpServes(range: RangeData, toInt: IntParser, corpus: Corpus, prefix: string) {
    exists lines :: HibpLists(lines, toInt, corpus, prefix) && range == AsRange(HibpRange(lines, toInt))
  }

  ghost predicate WeakpassServes(range: RangeData, corpus: Corpus, prefix: string) {
    exists lines :: WeakpassLists(lines, corpus, prefix) && range == WeakpassRange(lines)
  }

  ghost predicate IndexesCorpus(buckets: Buckets, digests: seq<Bytes>, corpus: Corpus) {
    && Indexes(buckets, digests)
    && (forall d :: d in digests ==> |d| == 20)
    && forall s :: s in corpus <==> exists d :: d in digests && Hex(d) == s
  }

  // ----- One backend -----

  /** HIBP, from the body of the prefix's response: a hit exactly for a digest of the corpus, with the count of the last
      row that carries its suffix. */
  lemma HibpAnswers(c: Checker, a: Algorithm, lines: seq<string>, toInt: IntParser, corpus: Corpus, digest: string)
    requires c.kind.Hibp? && c.Supports(a) && |digest| > 5 && HibpLists(lines, toInt, corpus, Upper(digest)[..5])
    ensures c.KeyFor(digest, a) == CacheKey(c.name, a, Upper(digest)[..5])
    ensures var r := c.Check(digest, a, RangeFetch(Some(AsRange(HibpRange(lines, toInt))), None));
            && r == CheckResult(c.name, true, Some(Upper(digest) in corpus), r.count, None, true, false)
            && (r.count.Some? <==> Upper(digest) in corpus)
            && forall i :: 0 <= i < |lines| && LastRow(lines, toInt, i, Upper(digest)[5..]) ==>
                 r.count == Some(HibpRow(lines[i], toInt).value.1)
  {
    hide HibpRow;
    HibpHitIsMembership(lines, toInt, corpus, Upper(digest)[..5], digest);
    HibpRangeHolds(lines, toInt, Upper(digest)[5..]);
  }

  /** Line i is the last to carry the suffix. */
  predicate LastRow(lines: seq<string>, toInt: IntParser, i: nat, suffix: string)
    requires i < |lines|
  {
    && HibpRow(lines[i], toInt).Some? && HibpRow(lines[i], toInt).value.0 == suffix
    && forall k :: i < k < |lines| && HibpRow(lines[k], toInt).Some? ==> HibpRow(lines[k], toInt).value.0 != suffix
  }

  lemma WeakpassAnswers(c: Checker, a: Algorithm, lines: seq<string>, corpus: Corpus, digest: string)
    requires c.kind.Weakpass? && c.Supports(a) && |digest| >= 6 && WeakpassLists(lines, corpus, Lower(digest)[..6])
    ensures c.KeyFor(digest, a) == CacheKey(c.name, a, Lower(digest)[..6])
    ensures c.Check(digest, a, RangeFetch(Some(WeakpassRange(lines)), None)) ==
            CheckResult(c.name, true, Some(Lower(digest) in corpus), None, None, true, false)
  {
    hide WeakpassRow;
    WeakpassHitIsMembership(lines, corpus, Lower(digest)[..6], digest);
  }

  lemma DenylistAnswers(c: Checker, a: Algorithm, digests: seq<Bytes>, corpus: Corpus, digest: string)
    requires c.kind.Local? && c.Supports(a) && |digest| >= 5 && IndexesCorpus(c.kind.buckets, digests, corpus)
    ensures c.KeyFor(digest, a) == CacheKey(c.name, a, Lower(digest)[..5])
    ensures c.Check(digest, a, RangeFetch(Some(DenylistRange(c.kind.buckets, Lower(digest)[..5])), None)) ==
            CheckResult(c.name, true, Some(Lower(digest) in corpus), None, None, true, false)
  {
    hide Indexes, Hex;
    IndexIsMembership(c.kind.buckets, digests, digest);
  }

  /** Whichever backend it is: its own check of the range its prefix truly has is membership in its corpus. */
  lemma CheckIsMembership(c: Checker, a: Algorithm, up: Upstream, toInt: IntParser, corpus: Corpus, digest: string)
    requires c.Supports(a) && Publishes(c, a, up, toInt, corpus) && |digest| > 6
    ensures var r := c.Check(digest, a, RangeFetch(Some(TrueRange(c, up, c.PrefixOf(digest), a)), None));
            && r == CheckResult(c.name, true, Some(Knows(c, corpus, digest)), r.count, None, true, false)
            && (r.count.Some? <==> c.kind.Hibp? && Knows(c, corpus, digest))
  {
    hide HibpRange, WeakpassRange, HibpLists, WeakpassLists, IndexesCorpus, Upper, Lower;
    match c.kind
    case Hibp =>
      var prefix := Upper(digest)[..5];
      assert HibpServes(up(CacheKey(c.name, a, prefix)), toInt, corpus, prefix);
      var lines :| HibpLists(lines, toInt, corpus, prefix)
                   && up(CacheKey(c.name, a, prefix)) == AsRange(HibpRange(lines, toInt));
      HibpAnswers(c, a, lines, toInt, corpus, digest);
    case Weakpass =>
      var prefix := Lower(digest)[..6];
      assert WeakpassServes(up(CacheKey(c.name, a, prefix)), corpus, prefix);
      var lines :| WeakpassLists(lines, corpus, prefix) && up(CacheKey(c.name, a, prefix)) == WeakpassRange(lines);
      WeakpassAnswers(c, a, lines, corpus, digest);
    case Local(buckets) =>
      var digests :| IndexesCorpus(buckets, digests, corpus);
      DenylistAnswers(c, a, digests, corpus, digest);
  }

  // ----- One item of one batch -----

  /** The checker has been asked for an algorithm it can answer for; the denylist holds SHA-1 digests only. */
  predicate Applies(c: Checker, a: Algorithm) { a in c.algorithms && (c.kind.Local? ==> a == SHA1) }

  ghost predicate Finds(checkers: seq<Checker>, corpora: string -> Corpus, name: string, digest: string, a: Algorithm,
                        es: Entries, enabled: bool, clock: Clock, outcomes: Outcomes)
  {
    exists c :: c in checkers && c.name == name && Applies(c, a) && Knows(c, corpora(c.name), digest)
                && !Missing(c, digest, a, es, enabled, clock, outcomes)
  }

  ghost predicate Lacks(checkers: seq<Checker>, digest: string, a: Algorithm, es: Entries, enabled: bool, clock: Clock,
                        outcomes: Outcomes)
  {
    exists c :: c in checkers && Applies(c, a) && Missing(c, digest, a, es, enabled, clock, outcomes)
  }

  ghost predicate LacksRequired(configs: seq<CheckConfig>, checkers: seq<Checker>, digest: string, a: Algorithm,
                                es: Entries, enabled: bool, clock: Clock, outcomes: Outcomes)
  {
    exists c, config :: c in checkers && config in configs && config.name == c.name && config.failClosed
                        && Applies(c, a) && Missing(c, digest, a, es, enabled, clock, outcomes)
  }

  /** What the checkers of an item come to, result by result. */
  lemma ItemResults(checkers: seq<Checker>, items: seq<Item>, a: Algorithm, up: Upstream, toInt: IntParser,
                    corpora: string -> Corpus, es: Entries, enabled: bool, clock: Clock, outcomes: Outcomes,
                    ranges: Fetched, c: Checker, item: Item)
    requires DistinctNames(checkers) && c in checkers && item in items && |item.digest| > 6
    requires forall d :: d in checkers ==> Publishes(d, a, up, toInt, corpora(d.name))
    requires TrueEntries(es, up) && AllHonest(PlanOf(checkers, items, a), outcomes, up, a)
    requires FetchedFor(ranges, PlanOf(checkers, items, a), es, enabled, clock, outcomes)
    ensures var missing := Missing(c, item.digest, a, es, enabled, clock, outcomes);
            && (Fails(c, ranges, item.digest, a) <==> Applies(c, a) && missing)
            && (CheckHits(c, ranges, item.digest, a) <==>
                Applies(c, a) && !missing && Knows(c, corpora(c.name), item.digest))
  {
    hide PlanOf, Publishes, TrueEntries, AllHonest, FetchedFor, TrueRange, Missing;
    BatchRefinesCheck(checkers, items, a, up, es, enabled, clock, outcomes, ranges, c, item);
    if c.Supports(a) {
      CheckIsMembership(c, a, up, toInt, corpora(c.name), item.digest);
    }
  }

  /** What a caller is told about an item, in terms of what the backends know and which fetches came back: degraded
      exactly when an applicable backend's range is missing, an error exactly when one that fails closed is, and
      otherwise the worst backend that knows the digest, or safe. */
  lemma ItemVerdict(configs: seq<CheckConfig>, checkers: seq<Checker>, items: seq<Item>, a: Algorithm, up: Upstream,
                    toInt: IntParser, corpora: string -> Corpus, es: Entries, enabled: bool, clock: Clock,
                    outcomes: Outcomes, ranges: Fetched, item: Item)
    requires DistinctConfigs(configs) && DistinctNames(checkers) && item in items && |item.digest| > 6
    requires forall c :: c in checkers ==> Publishes(c, a, up, toInt, corpora(c.name))
    requires TrueEntries(es, up) && AllHonest(PlanOf(checkers, items, a), outcomes, up, a)
    requires FetchedFor(ranges, PlanOf(checkers, items, a), es, enabled, clock, outcomes)
    ensures var e := Evaluated(configs, checkers, ranges, item.digest, a);
            && (e.degraded <==> Lacks(checkers, item.digest, a, es, enabled, clock, outcomes))
            && (e.verdict == ERROR <==> LacksRequired(configs, checkers, item.digest, a, es, enabled, clock, outcomes))
            && (e.verdict != ERROR ==>
                  e.verdict ==
                  if Finds(checkers, corpora, "hibp", item.digest, a, es, enabled, clock, outcomes) then LEAKED
                  else if Finds(checkers, corpora, "weakpass", item.digest, a, es, enabled, clock, outcomes)
                  then PRECOMPUTED
                  else if Finds(checkers, corpora, "denylist", item.digest, a, es, enabled, clock, outcomes)
                  then DENYLISTED
                  else SAFE)
  {
    forall c | c in checkers
      ensures Fails(c, ranges, item.digest, a) <==>
                Applies(c, a) && Missing(c, item.digest, a, es, enabled, clock, outcomes)
      ensures CheckHits(c, ranges, item.digest, a) <==>
                Applies(c, a) && !Missing(c, item.digest, a, es, enabled, clock, outcomes)
                && Knows(c, corpora(c.name), item.digest)
    {
      ItemResults(checkers, items, a, up, toInt, corpora, es, enabled, clock, outcomes, ranges, c, item);
    }
    hide Fails, CheckHits, Missing, Knows, Applies, Evaluated;
    EvaluationIsExact(configs, checkers, ranges, item.digest, a);
    if SomeFailsClosed(configs, checkers, ranges, item.digest, a) {
      var c :| c in checkers && Fails(c, ranges, item.digest, a) && FailsClosed(configs, c.name);
      var config :| config in configs && config.name == c.name && config.failClosed;
    }
  }
}
