/** The two range parsers and what a lookup in a parsed range means.
    Source: amiweak/checks/hibp.py:28-47, 88-90, amiweak/checks/weakpass.py:26-38, 80-82. */
module Ranges {
  import opened Wrappers
  import opened CheckBase
  import opened Text

  const HIBP_PREFIX_LENGTH := 5
  const WEAKPASS_PREFIX_LENGTH := 6

  /** Python's `int(text)`: None where it raises ValueError. */
  type IntParser = string -> Option<int>

  /** What one `SUFFIX:COUNT` line contributes; None for malformed rows and for padding. */
  function HibpRow(line: string, toInt: IntParser): Option<(string, int)> {
    var text := Strip(line);
    var colon := IndexOf(text, ':');
    if colon == |text| || colon == 0 then None
    else
      var count := toInt(text[colon + 1..]);
      if count.None? || count.value <= 0 then None else Some((Upper(text[..colon]), count.value))
  }

  function HibpRange(lines: seq<string>, toInt: IntParser): map<string, int> {
    if lines == [] then map[]
    else
      var before, row := HibpRange(lines[..|lines| - 1], toInt), HibpRow(lines[|lines| - 1], toInt);
      if row.None? then before else before[row.value.0 := row.value.1]
  }

  method ParseHibpRange(lines: seq<string>, toInt: IntParser) returns (counts: map<string, int>)
    ensures counts == HibpRange(lines, toInt)
  {
    counts := map[];
    for i := 0 to |lines|
      invariant counts == HibpRange(lines[..i], toInt)
    {
      assert lines[..i + 1][..i] == lines[..i];
      var text := Strip(lines[i]);
      var colon := IndexOf(text, ':');
      if colon == |text| || colon == 0 {
        continue;
      }
      var count := toInt(text[colon + 1..]);
      if count.None? {
        continue;
      }
      if count.value <= 0 {
        continue;
      }
      counts := counts[Upper(text[..colon]) := count.value];
    }
    assert lines[..|lines|] == lines;
  }

  /** `dict(parse_hibp_range(...))` as a range. */
  function AsRange(counts: map<string, int>): RangeData {
    map suffix | suffix in counts :: Some(counts[suffix])
  }

  function WeakpassRow(line: string): Option<string> {
    var candidate := Lower(Strip(line));
    if candidate != "" && IsHex(candidate) then Some(candidate) else None
  }

  function WeakpassRange(lines: seq<string>): RangeData {
    if lines == [] then map[]
    else
      var before, row := WeakpassRange(lines[..|lines| - 1]), WeakpassRow(lines[|lines| - 1]);
      if row.None? then before else before[row.value := None]
  }

  method ParseWeakpassRange(lines: seq<string>) returns (hashes: RangeData)
    ensures hashes == WeakpassRange(lines)
  {
    hashes := map[];
    for i := 0 to |lines|
      invariant hashes == WeakpassRange(lines[..i])
    {
      assert lines[..i + 1][..i] == lines[..i];
      var candidate := Lower(Strip(lines[i]));
      if candidate != "" && IsHex(candidate) {
        hashes := hashes[candidate := None];
      }
    }
    assert lines[..|lines|] == lines;
  }

  // ----- Which rows count -----

  /** A suffix is in the parsed range exactly when some line carries it with a positive count; the last such line
      gives the count.  Malformed and padding lines erase nothing. */
  lemma {:induction false} HibpRangeHolds(lines: seq<string>, toInt: IntParser, suffix: string)
    ensures suffix in HibpRange(lines, toInt) <==>
            exists i :: 0 <= i < |lines| && HibpRow(lines[i], toInt).Some? && HibpRow(lines[i], toInt).value.0 == suffix
    ensures forall i :: 0 <= i < |lines| && HibpRow(lines[i], toInt).Some? && HibpRow(lines[i], toInt).value.0 == suffix
              && (forall k :: i < k < |lines| && HibpRow(lines[k], toInt).Some? ==>
                  HibpRow(lines[k], toInt).value.0 != suffix)
              ==> suffix in HibpRange(lines, toInt)
                  && HibpRange(lines, toInt)[suffix] == HibpRow(lines[i], toInt).value.1
  {
    hide HibpRow;
    if lines != [] {
      var n := |lines| - 1;
      HibpRangeHolds(lines[..n], toInt, suffix);
      assert forall i :: 0 <= i < n ==> lines[..n][i] == lines[i];
    }
  }

  lemma {:induction false} WeakpassRangeHolds(lines: seq<string>, hash: string)
    ensures hash in WeakpassRange(lines) <==> exists i :: 0 <= i < |lines| && WeakpassRow(lines[i]) == Some(hash)
  {
    hide WeakpassRow;
    if lines != [] {
      var n := |lines| - 1;
      WeakpassRangeHolds(lines[..n], hash);
      assert forall i :: 0 <= i < n ==> lines[..n][i] == lines[i];
    }
  }

  /** How a provider writes one row: any padding, any letter case, any count text `int` reads. */
  lemma HibpRowReads(left: string, suffix: string, text: string, right: string, toInt: IntParser)
    requires AllSpace(left) && AllSpace(right)
    requires suffix != "" && ':' !in suffix && !IsSpace(suffix[0]) && text != "" && !IsSpace(text[|text| - 1])
    ensures HibpRow(left + (suffix + ":" + text) + right, toInt) ==
            if toInt(text).Some? && toInt(text).value > 0 then Some((Upper(suffix), toInt(text).value)) else None
  {
    var row := suffix + ":" + text;
    StripPadded(left, row, right);
    FirstIndex(suffix, ':', text);
    assert row == suffix + [':'] + text;
    assert row[..|suffix|] == suffix && row[|suffix| + 1..] == text;
  }

  /** And what carries nothing: a row without a colon, and one without a suffix. */
  lemma HibpRowRejects(left: string, text: string, right: string, toInt: IntParser)
    requires AllSpace(left) && AllSpace(right) && text != "" && !IsSpace(text[0]) && !IsSpace(text[|text| - 1])
    requires ':' !in text || text[0] == ':'
    ensures HibpRow(left + text + right, toInt) == None
  {
    StripPadded(left, text, right);
    if ':' in text {
      assert text == [] + [':'] + text[1..];
      FirstIndex([], ':', text[1..]);
    }
  }

  /** How a provider writes one hash: any padding, any letter case; a row that is not all hexadecimal is none. */
  lemma WeakpassRowReads(left: string, text: string, right: string)
    requires AllSpace(left) && AllSpace(right) && text != "" && !IsSpace(text[0]) && !IsSpace(text[|text| - 1])
    ensures WeakpassRow(left + text + right) ==
            if forall k :: 0 <= k < |text| ==> Lower(text)[k] in HEX_DIGITS then Some(Lower(text)) else None
    ensures WeakpassRow(left) == None
  {
    StripPadded(left, text, right);
    HexCharacters(Lower(text));
    assert (forall c :: c in Lower(text) ==> c in HEX_DIGITS) <==>
           (forall k :: 0 <= k < |text| ==> Lower(text)[k] in HEX_DIGITS);
    StripBlank(left);
  }

  lemma {:induction false} StripBlank(s: string)
    requires AllSpace(s)
    ensures Strip(s) == ""
  {
    if s != "" {
      assert s[0] in s && forall c :: c in s[1..] ==> c in s;
      StripBlank(s[1..]);
    }
  }

  // ----- Lookups -----

  /** HibpChecker.lookup: the hit and the count. */
  function HibpLookup(data: RangeData, digest: string): (Option<bool>, Option<int>) {
    var count := Lookup(data, Drop(Upper(digest), HIBP_PREFIX_LENGTH)).GetOr(None);
    (Some(count.Some?), count)
  }

  function WeakpassLookup(data: RangeData, digest: string): (Option<bool>, Option<int>) {
    (Some(Lower(digest) in data), None)
  }

  /** The body lists exactly the corpus rows of this prefix, in any order, amid rows that contribute nothing. */
  ghost predicate HibpLists(lines: seq<string>, toInt: IntParser, corpus: set<string>, prefix: string) {
    && (forall i :: 0 <= i < |lines| && HibpRow(lines[i], toInt).Some? ==>
        prefix + HibpRow(lines[i], toInt).value.0 in corpus)
    && (forall suffix :: prefix + suffix in corpus ==>
          exists i :: 0 <= i < |lines| && HibpRow(lines[i], toInt).Some? && HibpRow(lines[i], toInt).value.0 == suffix)
  }

  /** Parse then look up is corpus membership, for a digest in any letter case; `corpus` holds upper-case digests. */
  lemma HibpHitIsMembership(lines: seq<string>, toInt: IntParser, corpus: set<string>, prefix: string, digest: string)
    requires HibpLists(lines, toInt, corpus, prefix)
    requires |digest| >= HIBP_PREFIX_LENGTH && prefix == Take(Upper(digest), HIBP_PREFIX_LENGTH)
    ensures HibpLookup(AsRange(HibpRange(lines, toInt)), digest).0 == Some(Upper(digest) in corpus)
  {
    hide HibpRow;
    var suffix := Drop(Upper(digest), HIBP_PREFIX_LENGTH);
    assert prefix + suffix == Upper(digest);
    HibpRangeHolds(lines, toInt, suffix);
  }

  ghost predicate WeakpassLists(lines: seq<string>, corpus: set<string>, prefix: string) {
    && (forall i :: 0 <= i < |lines| && WeakpassRow(lines[i]).Some? ==> WeakpassRow(lines[i]).value in corpus)
    && (forall hash :: hash in corpus && Take(hash, WEAKPASS_PREFIX_LENGTH) == prefix ==>
          exists i :: 0 <= i < |lines| && WeakpassRow(lines[i]) == Some(hash))
  }

  lemma WeakpassHitIsMembership(lines: seq<string>, corpus: set<string>, prefix: string, digest: string)
    requires WeakpassLists(lines, corpus, prefix) && prefix == Take(Lower(digest), WEAKPASS_PREFIX_LENGTH)
    ensures WeakpassLookup(WeakpassRange(lines), digest).0 == Some(Lower(digest) in corpus)
  {
    hide WeakpassRow;
    WeakpassRangeHolds(lines, Lower(digest));
  }
}
