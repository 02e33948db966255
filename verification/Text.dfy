/** The string operations the parsers use, over ASCII. */
module Text {

  function UpperChar(c: char): char {
    if 'a' <= c <= 'z' then c - 'a' + 'A' else c
  }

  function LowerChar(c: char): char {
    if 'A' <= c <= 'Z' then c - 'A' + 'a' else c
  }

  function Upper(s: string): (r: string)
    ensures |r| == |s|
  {
    seq(|s|, i requires 0 <= i < |s| => UpperChar(s[i]))
  }

  function Lower(s: string): (r: string)
    ensures |r| == |s|
  {
    seq(|s|, i requires 0 <= i < |s| => LowerChar(s[i]))
  }

  /** `s[:n]` and `s[n:]`. */
  function Take(s: string, n: nat): string { if n <= |s| then s[..n] else s }

  function Drop(s: string, n: nat): string { if n <= |s| then s[n..] else "" }

  /** The two parts are the text, the first as long as asked or all there is. */
  lemma TakeAndDrop(s: string, n: nat)
    ensures Take(s, n) + Drop(s, n) == s && |Take(s, n)| == if n <= |s| then n else |s|
  {
  }

  predicate IsSpace(c: char) {
    c in {' ', '\t', '\n', '\r'} || '\U{0b}' <= c <= '\U{0c}' || '\U{1c}' <= c <= '\U{1f}' || c == '\U{85}'
        || c == '\U{a0}'
  }

  function LeftStrip(s: string): string {
    if s != "" && IsSpace(s[0]) then LeftStrip(s[1..]) else s
  }

  function RightStrip(s: string): string {
    if s != "" && IsSpace(s[|s| - 1]) then RightStrip(s[..|s| - 1]) else s
  }

  function Strip(s: string): string { RightStrip(LeftStrip(s)) }

  /** The index of the first occurrence of `c`, or the length. */
  function IndexOf(s: string, c: char): (i: nat)
    ensures i <= |s| && (i < |s| ==> s[i] == c) && c !in s[..i]
  {
    if s == "" || s[0] == c then 0
    else
      var j := IndexOf(s[1..], c);
      assert s[..j + 1] == [s[0]] + s[1..][..j];
      j + 1
  }

  predicate IsHex(s: string) {
    forall c :: c in s ==> '0' <= c <= '9' || 'a' <= c <= 'f'
  }

  predicate AllSpace(s: string) { forall c :: c in s ==> IsSpace(c) }

  /** Stripping removes exactly the padding around text that neither starts nor ends with a space. */
  lemma {:induction false} StripPadded(left: string, text: string, right: string)
    requires AllSpace(left) && AllSpace(right)
    requires text != "" && !IsSpace(text[0]) && !IsSpace(text[|text| - 1])
    ensures Strip(left + text + right) == text
  {
    LeftPadded(left, text + right);
    assert left + text + right == left + (text + right);
    RightPadded(text, right);
  }

  lemma {:induction false} LeftPadded(left: string, rest: string)
    requires AllSpace(left) && rest != "" && !IsSpace(rest[0])
    ensures LeftStrip(left + rest) == rest
  {
    if left == "" {
      assert left + rest == rest;
    } else {
      assert left[0] in left && forall c :: c in left[1..] ==> c in left;
      assert (left + rest)[1..] == left[1..] + rest;
      LeftPadded(left[1..], rest);
    }
  }

  lemma {:induction false} RightPadded(text: string, right: string)
    requires AllSpace(right) && text != "" && !IsSpace(text[|text| - 1])
    ensures RightStrip(text + right) == text
  {
    if right == "" {
      assert text + right == text;
    } else {
      var last := |right| - 1;
      assert right[last] in right && forall c :: c in right[..last] ==> c in right;
      assert (text + right)[..|text + right| - 1] == text + right[..last];
      RightPadded(text, right[..last]);
    }
  }

  lemma FirstIndex(a: string, c: char, b: string)
    requires c !in a
    ensures IndexOf(a + [c] + b, c) == |a|
  {
    var s := a + [c] + b;
    assert s[|a|] == c;
    assert forall k :: 0 <= k < |a| ==> s[k] == a[k] && a[k] in a;
    assert forall i :: |a| < i <= |s| ==> s[..i][|a|] == c;
  }

  // ----- The alphabets -----

  const SMALL := "abcdefghijklmnopqrstuvwxyz"
  const CAPITAL := "ABCDEFGHIJKLMNOPQRSTUVWXYZ"

  /** Letters change case in pairs, and nothing else changes. */
  lemma Letters(c: char)
    ensures forall k :: 0 <= k < 26 ==> UpperChar(SMALL[k]) == CAPITAL[k] == UpperChar(CAPITAL[k])
    ensures forall k :: 0 <= k < 26 ==> LowerChar(CAPITAL[k]) == SMALL[k] == LowerChar(SMALL[k])
    ensures c !in SMALL && c !in CAPITAL ==> UpperChar(c) == c == LowerChar(c)
  {
    forall k | 0 <= k < 26
      ensures UpperChar(SMALL[k]) == CAPITAL[k] == UpperChar(CAPITAL[k])
      ensures LowerChar(CAPITAL[k]) == SMALL[k] == LowerChar(SMALL[k])
    {
      LetterCodes(k);
    }
    if 'a' <= c <= 'z' {
      LetterCodes(c as int - 'a' as int);
    }
    if 'A' <= c <= 'Z' {
      LetterCodes(c as int - 'A' as int);
    }
  }

  lemma LetterCodes(k: nat)
    requires k < 26
    ensures SMALL[k] as int == 'a' as int + k && CAPITAL[k] as int == 'A' as int + k
  {
  }

  /** Two texts differ in letter case only, seen from either side. */
  lemma CaseBlind(a: string, b: string)
    ensures Upper(a) == Upper(b) <==> Lower(a) == Lower(b)
    ensures Upper(Lower(a)) == Upper(a) && Lower(Upper(a)) == Lower(a)
  {
    forall i | 0 <= i < |a|
      ensures UpperChar(LowerChar(a[i])) == UpperChar(a[i]) && LowerChar(UpperChar(a[i])) == LowerChar(a[i])
    {
      CaseBlindChar(a[i], a[i]);
    }
    assert Upper(Lower(a)) == Upper(a) && Lower(Upper(a)) == Lower(a);
    if Upper(a) == Upper(b) || Lower(a) == Lower(b) {
      forall i | 0 <= i < |a|
        ensures UpperChar(a[i]) == UpperChar(b[i]) && LowerChar(a[i]) == LowerChar(b[i])
      {
        assert Upper(a)[i] == Upper(b)[i] || Lower(a)[i] == Lower(b)[i];
        CaseBlindChar(a[i], b[i]);
      }
      assert Upper(a) == Upper(b) && Lower(a) == Lower(b);
    }
  }

  lemma CaseBlindChar(c: char, d: char)
    ensures UpperChar(c) == UpperChar(d) <==> LowerChar(c) == LowerChar(d)
    ensures UpperChar(LowerChar(c)) == UpperChar(c) && LowerChar(UpperChar(c)) == LowerChar(c)
  {
  }

  const HEX_DIGITS := "0123456789abcdef"

  lemma HexCharacters(s: string)
    ensures IsHex(s) <==> forall c :: c in s ==> c in HEX_DIGITS
  {
    forall c: char
      ensures c in HEX_DIGITS <==> '0' <= c <= '9' || 'a' <= c <= 'f'
    {
      assert forall k :: 0 <= k < 10 ==> HEX_DIGITS[k] as int == '0' as int + k;
      assert forall k :: 10 <= k < 16 ==> HEX_DIGITS[k] as int == 'a' as int + (k - 10);
      if '0' <= c <= '9' {
        assert HEX_DIGITS[c as int - '0' as int] == c;
      }
      if 'a' <= c <= 'f' {
        assert HEX_DIGITS[c as int - 'a' as int + 10] == c;
      }
    }
  }

  /** Python's `str.strip` on the first 256 characters. */
  const SPACES := [9, 10, 11, 12, 13, 28, 29, 30, 31, 32, 133, 160]

  lemma SpaceCharacters(c: char)
    ensures IsSpace(c) <==> c as int in SPACES
  {
    assert SPACES == [9, 10, 11, 12, 13] + [28, 29, 30, 31, 32] + [133, 160];
    assert c as int in SPACES <==>
             9 <= c as int <= 13 || 28 <= c as int <= 32 || c as int == 133 || c as int == 160 by {
      assert SPACES[0] == 9 && SPACES[1] == 10 && SPACES[2] == 11 && SPACES[3] == 12 && SPACES[4] == 13;
      assert SPACES[5] == 28 && SPACES[6] == 29 && SPACES[7] == 30 && SPACES[8] == 31 && SPACES[9] == 32;
      assert SPACES[10] == 133 && SPACES[11] == 160;
    }
  }
}
