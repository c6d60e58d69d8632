/**
 * The few Python string operations the core relies on: `str.strip()`,
 * `str.lower()`, `str.upper()`, the substring test `sub in s`, and the
 * decimal rendering of a non-negative integer in an f-string.
 */
module Text {

  /** Python's `str.isspace()` for one character. */
  predicate IsSpace(c: char) {
    || c == ' '
    || ('\t' <= c <= '\r')
    || ('\U{1C}' <= c <= '\U{1F}')
    || c == '\U{85}' || c == '\U{A0}' || c == '\U{1680}'
    || ('\U{2000}' <= c <= '\U{200A}')
    || c == '\U{2028}' || c == '\U{2029}' || c == '\U{202F}' || c == '\U{205F}'
    || c == '\U{3000}'
  }

  /** Drops leading whitespace (Python's `str.lstrip()`). */
  function TrimStart(s: string): (r: string)
    ensures |r| <= |s| && r == s[|s| - |r|..]
    ensures forall k :: 0 <= k < |s| - |r| ==> IsSpace(s[k])
    ensures r != [] ==> !IsSpace(r[0])
  {
    if s != [] && IsSpace(s[0]) then TrimStart(s[1..]) else s
  }

  /** Drops trailing whitespace (Python's `str.rstrip()`). */
  function TrimEnd(s: string): (r: string)
    ensures |r| <= |s| && r == s[..|r|]
    ensures forall k :: |r| <= k < |s| ==> IsSpace(s[k])
    ensures r != [] ==> !IsSpace(r[|r| - 1])
  {
    if s != [] && IsSpace(s[|s| - 1]) then TrimEnd(s[..|s| - 1]) else s
  }

  /** Python's `str.strip()`. */
  function Strip(s: string): (r: string)
    ensures r == [] <==> forall k :: 0 <= k < |s| ==> IsSpace(s[k])
    ensures r != [] ==> !IsSpace(r[0]) && !IsSpace(r[|r| - 1])
  {
    var t := TrimStart(s);
    var r := TrimEnd(t);
    assert r == [] ==> t == [];
    assert r != [] ==> r[0] == t[0];
    r
  }

  /** `s[i..j]` is what remains of `s` once a leading and a trailing run of white space are removed. */
  ghost predicate IsPaddedSlice(s: string, i: int, j: int) {
    && 0 <= i <= j <= |s|
    && (forall k :: 0 <= k < i ==> IsSpace(s[k]))
    && (forall k :: j <= k < |s| ==> IsSpace(s[k]))
  }

  /** Where the stripped text starts in `s`: the length of its leading white space. */
  function StripOffset(s: string): (i: nat)
    ensures i <= |s|
  {
    |s| - |TrimStart(s)|
  }

  /** Everything before the offset is white space. */
  lemma StripRemovesLeadingSpace(s: string)
    ensures forall k :: 0 <= k < StripOffset(s) ==> IsSpace(s[k])
  {
  }

  /** The stripped text is the slice of `s` that starts at the offset. */
  lemma StripKeepsSlice(s: string)
    ensures StripOffset(s) + |Strip(s)| <= |s|
    ensures Strip(s) == s[StripOffset(s)..StripOffset(s) + |Strip(s)|]
  {
    var t := TrimStart(s);
    assert Strip(s) == TrimEnd(t);
    assert t == s[StripOffset(s)..];
  }

  /** Everything after the stripped text is white space. */
  lemma StripRemovesTrailingSpace(s: string)
    ensures StripOffset(s) + |Strip(s)| <= |s|
    ensures forall k :: StripOffset(s) + |Strip(s)| <= k < |s| ==> IsSpace(s[k])
  {
    var t := TrimStart(s);
    var i := StripOffset(s);
    assert Strip(s) == TrimEnd(t);
    assert t == s[i..];
    forall k | i + |Strip(s)| <= k < |s| ensures IsSpace(s[k]) {
      assert s[k] == t[k - i];
    }
  }

  /** `Strip` keeps the inner text: it removes exactly a leading and a trailing run of white space. */
  lemma StripIsSlice(s: string)
    ensures var i := StripOffset(s);
      IsPaddedSlice(s, i, i + |Strip(s)|) && Strip(s) == s[i..i + |Strip(s)|]
  {
    StripRemovesLeadingSpace(s);
    StripKeepsSlice(s);
    StripRemovesTrailingSpace(s);
  }

  /** A string with no white space at either end is its own strip. */
  lemma StripUnpadded(s: string)
    requires s != [] && !IsSpace(s[0]) && !IsSpace(s[|s| - 1])
    ensures Strip(s) == s
  {
    assert TrimStart(s) == s;
    assert TrimEnd(s) == s;
  }

  /** Stripping a stripped string changes nothing. */
  lemma {:induction false} StripIdempotent(s: string)
    ensures Strip(Strip(s)) == Strip(s)
  {
    var r := Strip(s);
    if r != [] {
      StripUnpadded(r);
    }
  }

  predicate IsUpperAscii(c: char) { 'A' <= c <= 'Z' }
  predicate IsLowerAscii(c: char) { 'a' <= c <= 'z' }

  /** Python's `lower()` on one character: A-Z become a-z, every other character is kept. */
  function LowerChar(c: char): (d: char)
    ensures IsUpperAscii(c) ==> IsLowerAscii(d) && d as int == c as int + 32
    ensures !IsUpperAscii(c) ==> d == c
    ensures !IsUpperAscii(d)
  {
    if IsUpperAscii(c) then (c as int + 32) as char else c
  }

  /** Python's `upper()` on one character: a-z become A-Z, every other character is kept. */
  function UpperChar(c: char): (d: char)
    ensures IsLowerAscii(c) ==> IsUpperAscii(d) && d as int == c as int - 32
    ensures !IsLowerAscii(c) ==> d == c
    ensures !IsLowerAscii(d)
  {
    if IsLowerAscii(c) then (c as int - 32) as char else c
  }

  /** `str.lower()` on the ASCII letters. */
  function Lower(s: string): (r: string)
    ensures |r| == |s|
    ensures forall k :: 0 <= k < |s| ==> r[k] == LowerChar(s[k])
  {
    if s == [] then [] else [LowerChar(s[0])] + Lower(s[1..])
  }

  /** `str.upper()` on the ASCII letters. */
  function Upper(s: string): (r: string)
    ensures |r| == |s|
    ensures forall k :: 0 <= k < |s| ==> r[k] == UpperChar(s[k])
  {
    if s == [] then [] else [UpperChar(s[0])] + Upper(s[1..])
  }

  /** Lower-casing twice is lower-casing once. */
  lemma LowerIdempotent(s: string)
    ensures Lower(Lower(s)) == Lower(s)
  {
  }

  /** Upper-casing undoes lower-casing on a string with no lower-case letter. */
  lemma {:induction false} UpperOfLower(s: string)
    requires forall k :: 0 <= k < |s| ==> !IsLowerAscii(s[k])
    ensures Upper(Lower(s)) == s
  {
    if s != [] {
      UpperOfLower(s[1..]);
      assert Lower(s) == [LowerChar(s[0])] + Lower(s[1..]);
      assert Lower(s)[1..] == Lower(s[1..]);
    }
  }

  predicate StartsWith(s: string, prefix: string) {
    |prefix| <= |s| && s[..|prefix|] == prefix
  }

  predicate EndsWith(s: string, suffix: string) {
    |suffix| <= |s| && s[|s| - |suffix|..] == suffix
  }

  lemma ConcatAssociative(a: string, b: string, c: string)
    ensures (a + b) + c == a + (b + c)
  {
  }

  lemma ConcatStartsWith(a: string, b: string)
    ensures StartsWith(a + b, a)
  {
    assert (a + b)[..|a|] == a;
  }

  lemma ConcatEndsWith(a: string, b: string)
    ensures EndsWith(a + b, b)
  {
    assert (a + b)[|a|..] == b;
  }

  /** `sub` occurs in `s` starting at index `i`. */
  ghost predicate OccursAt(s: string, sub: string, i: int) {
    0 <= i && i + |sub| <= |s| && s[i..i + |sub|] == sub
  }

  /** Python's `sub in s` on strings, scanning from the left. */
  function Contains(s: string, sub: string): bool
  {
    StartsWith(s, sub) || (s != [] && Contains(s[1..], sub))
  }

  /** The scan finds `sub` exactly when it occurs somewhere in `s`. */
  lemma {:induction false} ContainsIff(s: string, sub: string)
    ensures Contains(s, sub) <==> exists i :: OccursAt(s, sub, i)
  {
    if s == [] {
      if sub == [] {
        assert OccursAt(s, sub, 0);
      }
    } else {
      ContainsIff(s[1..], sub);
      if StartsWith(s, sub) {
        assert OccursAt(s, sub, 0);
      } else if Contains(s[1..], sub) {
        var i :| OccursAt(s[1..], sub, i);
        assert s[1..][i..i + |sub|] == s[i + 1..i + 1 + |sub|];
        assert OccursAt(s, sub, i + 1);
      }
      forall i | OccursAt(s, sub, i) ensures Contains(s, sub) {
        if i == 0 {
          assert StartsWith(s, sub);
        } else {
          assert s[1..][i - 1..i - 1 + |sub|] == s[i..i + |sub|];
          assert OccursAt(s[1..], sub, i - 1);
        }
      }
    }
  }

  predicate IsDigit(c: char) { '0' <= c <= '9' }

  function DigitChar(d: nat): (c: char)
    requires d < 10
    ensures IsDigit(c) && c as int - '0' as int == d
  {
    (d + '0' as int) as char
  }

  /** Decimal digits of `n`, most significant first, as `str(n)` prints them. */
  function NatToString(n: nat): (r: string)
    ensures r != [] && forall k :: 0 <= k < |r| ==> IsDigit(r[k])
    ensures r[0] == '0' ==> n == 0 && r == "0"
  {
    if n < 10 then [DigitChar(n)] else NatToString(n / 10) + [DigitChar(n % 10)]
  }

  /** Reads back a string of decimal digits (Python's `int(s)` on such a string). */
  function ParseDigits(s: string): nat
    requires forall k :: 0 <= k < |s| ==> IsDigit(s[k])
  {
    if s == [] then 0
    else
      assert IsDigit(s[|s| - 1]);
      ParseDigits(s[..|s| - 1]) * 10 + (s[|s| - 1] as int - '0' as int)
  }

  /** The decimal rendering reads back as the same number. */
  lemma {:induction false} NatToStringRoundTrip(n: nat)
    ensures ParseDigits(NatToString(n)) == n
  {
    if n >= 10 {
      NatToStringRoundTrip(n / 10);
      var r := NatToString(n);
      assert r[..|r| - 1] == NatToString(n / 10);
    }
  }

  /** Distinct numbers render as distinct strings. */
  lemma NatToStringInjective(m: nat, n: nat)
    requires NatToString(m) == NatToString(n)
    ensures m == n
  {
    NatToStringRoundTrip(m);
    NatToStringRoundTrip(n);
  }
}
