/** The organisation denylist: generation of its digest set, the prefix-bucketed index, and the checker over it.
    SHA-1 and the rule engine are parameters.  Source: amiweak/denylist.py:80-117, amiweak/checks/denylist.py. */
module Denylist {
  import opened Wrappers
  import opened CheckBase
  import opened Text
  import opened DigestStore

  const DENYLIST_PREFIX_LENGTH := 5

  datatype GenerationError = BadRules | TooManyDigests

  // ----- Every word that is hashed -----

  type Expansion = string -> seq<string>

  function WordsOf(entry: string, hasRules: bool, expand: Expansion): seq<string> {
    [entry] + if hasRules then expand(entry) else []
  }

  function Words(entries: seq<string>, hasRules: bool, expand: Expansion): seq<string> {
    if entries == [] then []
    else Words(entries[..|entries| - 1], hasRules, expand) + WordsOf(entries[|entries| - 1], hasRules, expand)
  }

  function Hashes(words: seq<string>, sha1: string -> Bytes): set<Bytes> {
    set w | w in words :: sha1(w)
  }

  /** `word` is the entry itself or one of its rule expansions. */
  predicate Derives(entry: string, word: string, hasRules: bool, expand: Expansion) {
    word == entry || (hasRules && word in expand(entry))
  }

  lemma {:induction false} WordsAreDerived(entries: seq<string>, hasRules: bool, expand: Expansion, word: string)
    ensures word in Words(entries, hasRules, expand) <==> exists e :: e in entries && Derives(e, word, hasRules, expand)
  {
    if entries != [] {
      var n := |entries| - 1;
      WordsAreDerived(entries[..n], hasRules, expand, word);
      assert word in WordsOf(entries[n], hasRules, expand) <==> Derives(entries[n], word, hasRules, expand);
      hide WordsOf, Derives;
      assert forall e :: e in entries <==> e in entries[..n] || e == entries[n];
    }
  }

  lemma HashesAdd(a: seq<string>, b: seq<string>, sha1: string -> Bytes)
    ensures Hashes(a + b, sha1) == Hashes(a, sha1) + Hashes(b, sha1)
  {
    assert forall w :: w in a + b <==> w in a || w in b;
  }

  lemma HashesGrow(words: seq<string>, k: nat, sha1: string -> Bytes)
    requires k <= |words|
    ensures |Hashes(words[..k], sha1)| <= |Hashes(words, sha1)|
  {
    var part, all := Hashes(words[..k], sha1), Hashes(words, sha1);
    assert all == part + (all - part);
  }

  /** Adding `todo`, the words from position n on, to a set that holds the hashes of the words before them,
      up to the first word past the cap. */
  method AddWords(ghost words: seq<string>, n: nat, todo: seq<string>, seen: set<Bytes>, sha1: string -> Bytes,
                  maxDigests: nat)
    returns (r: set<Bytes>, reached: nat, ok: bool)
    requires n + |todo| <= |words| && words[n..n + |todo|] == todo
    requires seen == Hashes(words[..n], sha1) && |seen| <= maxDigests
    ensures n <= reached <= n + |todo| && r == Hashes(words[..reached], sha1)
    ensures ok ==> reached == n + |todo| && |r| <= maxDigests
    ensures !ok ==> reached > n && |r| > maxDigests && |Hashes(words[..reached - 1], sha1)| <= maxDigests
  {
    r, reached, ok := seen, n, true;
    hide Hashes;
    while reached < n + |todo| && ok
      invariant n <= reached <= n + |todo| && r == Hashes(words[..reached], sha1)
      invariant ok ==> |r| <= maxDigests
      invariant !ok ==> reached > n && |r| > maxDigests && |Hashes(words[..reached - 1], sha1)| <= maxDigests
      decreases n + |todo| - reached
    {
      OneMoreHash(words, reached, sha1);
      assert todo[reached - n] == words[reached];
      r := r + {sha1(todo[reached - n])};
      reached := reached + 1;
      ok := |r| <= maxDigests;
    }
  }

  lemma OneMoreHash(words: seq<string>, k: nat, sha1: string -> Bytes)
    requires k < |words|
    ensures Hashes(words[..k + 1], sha1) == Hashes(words[..k], sha1) + {sha1(words[k])}
  {
    HashesAdd(words[..k], [words[k]], sha1);
    assert words[..k] + [words[k]] == words[..k + 1];
  }

  /** Hash every word in order and give up at the word that takes the set past the cap. */
  method HashEntries(entries: seq<string>, hasRules: bool, expand: Expansion, sha1: string -> Bytes, maxDigests: nat,
                     ghost words: seq<string>)
    returns (seen: set<Bytes>, hashed: nat, ok: bool)
    requires words == Words(entries, hasRules, expand)
    ensures hashed <= |words| && seen == Hashes(words[..hashed], sha1)
    ensures ok ==> hashed == |words| && |seen| <= maxDigests
    ensures !ok ==> hashed > 0 && |seen| > maxDigests && |Hashes(words[..hashed - 1], sha1)| <= maxDigests
  {
    seen, hashed := {}, 0;
    assert Words(entries[..0], hasRules, expand) == [] && Hashes(words[..0], sha1) == {};
    hide Hashes, Words, WordsOf;
    for i := 0 to |entries|
      invariant hashed == |Words(entries[..i], hasRules, expand)| <= |words|
      invariant seen == Hashes(words[..hashed], sha1) && |seen| <= maxDigests
    {
      var todo := WordsOf(entries[i], hasRules, expand);
      NextWords(entries, i, hasRules, expand);
      seen, hashed, ok := AddWords(words, hashed, todo, seen, sha1, maxDigests);
      if !ok {
        return;
      }
    }
    assert entries[..|entries|] == entries;
    ok := true;
  }

  /** The sorted digest set, or an error: with sound rules it fails exactly when the set exceeds the cap, having
      consumed `hashed` words, no more than it takes to see that. */
  method GenerateDigests(entries: seq<string>, rulesBroken: bool, hasRules: bool, expand: Expansion,
                         sha1: string -> Bytes, maxDigests: nat)
    returns (r: Result<seq<Bytes>, GenerationError>, hashed: nat)
    ensures r == Err(BadRules) <==> rulesBroken
    ensures !rulesBroken ==> (r.Ok? <==> |Hashes(Words(entries, hasRules, expand), sha1)| <= maxDigests)
    ensures r.Ok? ==>
              && Ascending(r.value)
              && forall d :: d in r.value <==> d in Hashes(Words(entries, hasRules, expand), sha1)
    ensures r == Err(TooManyDigests) ==>
              && 0 < hashed <= |Words(entries, hasRules, expand)|
              && |Hashes(Words(entries, hasRules, expand)[..hashed], sha1)| > maxDigests
              && |Hashes(Words(entries, hasRules, expand)[..hashed - 1], sha1)| <= maxDigests
  {
    if rulesBroken {
      return Err(BadRules), 0;
    }
    ghost var words := Words(entries, hasRules, expand);
    hide Words, Hashes, Ascending;
    var seen, n, ok := HashEntries(entries, hasRules, expand, sha1, maxDigests, words);
    hashed := n;
    HashesGrow(words, hashed, sha1);
    if !ok {
      return Err(TooManyDigests), hashed;
    }
    assert words[..|words|] == words;
    var sorted := Sorted(seen);
    r := Ok(sorted);
  }

  /** The words of entry i follow those of the entries before it. */
  lemma NextWords(entries: seq<string>, i: nat, hasRules: bool, expand: Expansion)
    requires i < |entries|
    ensures var words, n, todo := Words(entries, hasRules, expand), |Words(entries[..i], hasRules, expand)|,
              WordsOf(entries[i], hasRules, expand);
            n + |todo| <= |words| && words[n..n + |todo|] == todo
                && |Words(entries[..i + 1], hasRules, expand)| == n + |todo|
  {
    hide WordsOf;
    assert entries[..i + 1][..i] == entries[..i];
    WordsPrefix(entries, i + 1, hasRules, expand);
  }

  lemma {:induction false} WordsPrefix(entries: seq<string>, k: nat, hasRules: bool, expand: Expansion)
    requires k <= |entries|
    ensures Words(entries[..k], hasRules, expand) <= Words(entries, hasRules, expand)
    decreases |entries|
  {
    if k < |entries| {
      var n := |entries| - 1;
      assert entries[..n][..k] == entries[..k];
      WordsPrefix(entries[..n], k, hasRules, expand);
    } else {
      assert entries[..k] == entries;
    }
  }

  // ----- sorted(seen) -----

  /** Python's order on bytes. */
  predicate Less(a: Bytes, b: Bytes) {
    b != [] && (a == [] || a[0] < b[0] || (a[0] == b[0] && Less(a[1..], b[1..])))
  }

  /** The first `k` bytes agree, and then `a` ends first or has the smaller byte. */
  predicate LessAt(a: Bytes, b: Bytes, k: int) {
    0 <= k <= |a| && k < |b| && a[..k] == b[..k] && (k == |a| || a[k] < b[k])
  }

  lemma {:induction false} LessIsLexicographic(a: Bytes, b: Bytes)
    ensures Less(a, b) <==> exists k :: LessAt(a, b, k)
  {
    if a == [] || b == [] || a[0] != b[0] {
      if Less(a, b) {
        assert LessAt(a, b, 0);
      }
    } else {
      LessIsLexicographic(a[1..], b[1..]);
      if k :| LessAt(a[1..], b[1..], k) {
        assert a[..k + 1] == [a[0]] + a[1..][..k] && b[..k + 1] == [b[0]] + b[1..][..k];
        assert LessAt(a, b, k + 1);
      }
      if k :| LessAt(a, b, k) {
        assert k > 0;
        assert a[1..][..k - 1] == a[..k][1..] && b[1..][..k - 1] == b[..k][1..];
        assert LessAt(a[1..], b[1..], k - 1);
      }
    }
  }

  ghost predicate Ascending(s: seq<Bytes>) {
    forall i, j :: 0 <= i < j < |s| ==> Less(s[i], s[j])
  }

  lemma {:induction false} LessIsTotal(a: Bytes, b: Bytes)
    ensures a == b || Less(a, b) || Less(b, a)
  {
    if a != [] && b != [] {
      LessIsTotal(a[1..], b[1..]);
      assert a == [a[0]] + a[1..] && b == [b[0]] + b[1..];
    }
  }

  lemma {:induction false} LessIsTransitive(a: Bytes, b: Bytes, c: Bytes)
    requires Less(a, b) && Less(b, c)
    ensures Less(a, c)
  {
    if a != [] && a[0] == b[0] == c[0] {
      LessIsTransitive(a[1..], b[1..], c[1..]);
    }
  }

  method Sorted(s: set<Bytes>) returns (r: seq<Bytes>)
    ensures Ascending(r) && forall d :: d in r <==> d in s
  {
    r := [];
    var todo := s;
    while todo != {}
      invariant todo <= s && Ascending(r) && forall d :: d in r <==> d in s - todo
      decreases |todo|
    {
      var d :| d in todo;
      r := Insert(r, d);
      todo := todo - {d};
    }
  }

  method Insert(s: seq<Bytes>, d: Bytes) returns (r: seq<Bytes>)
    requires Ascending(s) && d !in s
    ensures Ascending(r) && forall x :: x in r <==> x in s || x == d
  {
    var k := 0;
    while k < |s| && Less(s[k], d)
      invariant k <= |s| && forall i :: 0 <= i < k ==> Less(s[i], d)
    {
      k := k + 1;
    }
    if k < |s| {
      LessIsTotal(s[k], d);
    }
    forall i | k <= i < |s|
      ensures Less(d, s[i])
    {
      if i > k {
        LessIsTransitive(d, s[k], s[i]);
      }
    }
    r := s[..k] + [d] + s[k..];
    assert forall x :: x in s <==> x in s[..k] || x in s[k..];
  }

  // ----- The index -----

  function HexDigit(n: nat): char
    requires n < 16
  {
    "0123456789abcdef"[n]
  }

  function Hex(digest: Bytes): (s: string)
    ensures |s| == 2 * |digest|
  {
    if digest == [] then "" else [HexDigit(digest[0] / 16), HexDigit(digest[0] % 16)] + Hex(digest[1..])
  }

  /** Each byte is two lower-case digits, the high one first. */
  lemma {:induction false} HexReads(digest: Bytes, k: nat)
    requires k < |digest|
    ensures Hex(digest)[2 * k] in HEX_DIGITS && Hex(digest)[2 * k + 1] in HEX_DIGITS
    ensures DigitValue(Hex(digest)[2 * k]) * 16 + DigitValue(Hex(digest)[2 * k + 1]) == digest[k] as int
  {
    hide HexDigit, DigitValue, Hex;
    if k == 0 {
      HexStarts(digest);
      HexDigitReads(digest[0] as int / 16);
      HexDigitReads(digest[0] as int % 16);
    } else {
      HexReads(digest[1..], k - 1);
      HexShifts(digest, k);
    }
  }

  lemma HexStarts(digest: Bytes)
    requires digest != []
    ensures Hex(digest)[0] == HexDigit(digest[0] / 16) && Hex(digest)[1] == HexDigit(digest[0] % 16)
  {
    hide HexDigit;
  }

  lemma HexShifts(digest: Bytes, k: nat)
    requires 0 < k < |digest|
    ensures Hex(digest)[2 * k] == Hex(digest[1..])[2 * (k - 1)]
    ensures Hex(digest)[2 * k + 1] == Hex(digest[1..])[2 * (k - 1) + 1]
  {
    hide HexDigit;
  }

  lemma HexDigitReads(n: nat)
    requires n < 16
    ensures HexDigit(n) in HEX_DIGITS && DigitValue(HexDigit(n)) == n
  {
    assert HexDigit(n) == HEX_DIGITS[n];
  }

  /** The value of a lower-case hexadecimal digit. */
  function DigitValue(c: char): int {
    if '0' <= c <= '9' then c as int - '0' as int else c as int - 'a' as int + 10
  }

  type Buckets = map<string, RangeData>

  predicate Holds(buckets: Buckets, prefix: string, suffix: string) {
    prefix in buckets && suffix in buckets[prefix]
  }

  /** The buckets hold exactly the split hex of the digests. */
  ghost predicate Indexes(buckets: Buckets, digests: seq<Bytes>) {
    forall prefix, suffix :: Holds(buckets, prefix, suffix) <==> exists d :: d in digests && Splits(d, prefix, suffix)
  }

  predicate Splits(d: Bytes, prefix: string, suffix: string) {
    Take(Hex(d), DENYLIST_PREFIX_LENGTH) == prefix && Drop(Hex(d), DENYLIST_PREFIX_LENGTH) == suffix
  }

  method Bucket(digests: seq<Bytes>) returns (buckets: Buckets)
    ensures Indexes(buckets, digests)
  {
    buckets := map[];
    for i := 0 to |digests|
      invariant Indexes(buckets, digests[..i])
    {
      var hexed := Hex(digests[i]);
      var prefix, suffix := Take(hexed, DENYLIST_PREFIX_LENGTH), Drop(hexed, DENYLIST_PREFIX_LENGTH);
      ghost var before := buckets;
      var range := if prefix in buckets then buckets[prefix] else map[];
      buckets := buckets[prefix := range[suffix := None]];
      assert forall d :: d in digests[..i + 1] <==> d in digests[..i] || d == digests[i];
      assert forall p, s :: Holds(buckets, p, s) <==> Holds(before, p, s) || (p == prefix && s == suffix);
      assert Splits(digests[i], prefix, suffix);
    }
    assert digests[..|digests|] == digests;
  }

  /** DenylistChecker.fetch: an absent prefix is an empty range. */
  function DenylistRange(buckets: Buckets, prefix: string): RangeData {
    Lookup(buckets, prefix).GetOr(map[])
  }

  function DenylistLookup(data: RangeData, digest: string): (Option<bool>, Option<int>) {
    (Some(Drop(Lower(digest), DENYLIST_PREFIX_LENGTH) in data), None)
  }

  /** Fetch then look up, as `DenylistChecker.check` does for a supported algorithm. */
  predicate DenylistHit(buckets: Buckets, digest: string) {
    DenylistLookup(DenylistRange(buckets, Take(Lower(digest), DENYLIST_PREFIX_LENGTH)), digest).0 == Some(true)
  }

  /** The index is the set: a digest string in any letter case hits exactly when it is the hex of an indexed digest. */
  lemma IndexIsMembership(buckets: Buckets, digests: seq<Bytes>, digest: string)
    requires Indexes(buckets, digests) && forall d :: d in digests ==> |d| == DIGEST_SIZE
    ensures DenylistHit(buckets, digest) <==> exists d :: d in digests && Hex(d) == Lower(digest)
  {
    var wanted := Lower(digest);
    var prefix, suffix := Take(wanted, DENYLIST_PREFIX_LENGTH), Drop(wanted, DENYLIST_PREFIX_LENGTH);
    assert DenylistHit(buckets, digest) <==> Holds(buckets, prefix, suffix);
    forall d | d in digests
      ensures Splits(d, prefix, suffix) <==> Hex(d) == wanted
    {
      SplitDetermines(Hex(d), wanted);
    }
  }

  lemma SplitDetermines(a: string, b: string)
    requires |a| >= DENYLIST_PREFIX_LENGTH
    ensures (Take(a, DENYLIST_PREFIX_LENGTH) == Take(b, DENYLIST_PREFIX_LENGTH) &&
             Drop(a, DENYLIST_PREFIX_LENGTH) == Drop(b, DENYLIST_PREFIX_LENGTH)) <==> a == b
  {
    var n := DENYLIST_PREFIX_LENGTH;
    if Take(a, n) == Take(b, n) && Drop(a, n) == Drop(b, n) {
      assert |Take(b, n)| == n;
      assert a == a[..n] + a[n..] == b[..n] + b[n..] == b;
    }
  }

  /** From word list to answer, through the file: generate, write, read back, index, look up. */
  lemma DenylistHitsItsWords(entries: seq<string>, hasRules: bool, expand: Expansion, sha1: string -> Bytes,
                             f: CacheFile, buckets: Buckets, digest: string)
    requires forall w :: |sha1(w)| == DIGEST_SIZE
    requires forall d :: d in f.digests <==> d in Hashes(Words(entries, hasRules, expand), sha1)
    requires |f.fingerprint| == FINGERPRINT_SIZE && |f.digests| < Pow256(4)
    requires Decoded(Encoded(f)).Some? ==> Indexes(buckets, Decoded(Encoded(f)).value.digests)
    ensures DenylistHit(buckets, digest) <==>
            exists e, w :: e in entries && Derives(e, w, hasRules, expand) && Hex(sha1(w)) == Lower(digest)
  {
    hide Derives, Hex, Encoded, Decoded, Indexes, DenylistHit, Words, Pow256;
    forall d | d in f.digests
      ensures |d| == DIGEST_SIZE
    {
      var w :| w in Words(entries, hasRules, expand) && sha1(w) == d;
    }
    ReadUndoesWrite(f);
    IndexIsMembership(buckets, f.digests, digest);
    HashedWord(entries, hasRules, expand, sha1, Lower(digest));
  }

  lemma HashedWord(entries: seq<string>, hasRules: bool, expand: Expansion, sha1: string -> Bytes, wanted: string)
    ensures (exists d :: d in Hashes(Words(entries, hasRules, expand), sha1) && Hex(d) == wanted) <==>
            (exists e, w :: e in entries && Derives(e, w, hasRules, expand) && Hex(sha1(w)) == wanted)
  {
    hide Derives, Hex, Words;
    var words := Words(entries, hasRules, expand);
    if d :| d in Hashes(words, sha1) && Hex(d) == wanted {
      var w :| w in words && sha1(w) == d;
      WordsAreDerived(entries, hasRules, expand, w);
    }
    if e, w :| e in entries && Derives(e, w, hasRules, expand) && Hex(sha1(w)) == wanted {
      WordsAreDerived(entries, hasRules, expand, w);
      assert sha1(w) in Hashes(words, sha1);
    }
  }
}
