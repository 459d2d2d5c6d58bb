/**
 * String helpers with the semantics of the Rust standard library calls the
 * CLI makes: `char::is_whitespace`, `str::trim`, `to_ascii_lowercase`,
 * `starts_with`, `contains`, `trim_end_matches`, `find`/`rfind` and
 * `str::parse` for unsigned integers, plus decimal formatting of naturals.
 */
module Text {
  import opened Wrappers

  /** Rust `char::is_whitespace`: the Unicode White_Space property. */
  predicate IsWhitespace(c: char)
  {
    ('\t' <= c <= '\r') || c == ' ' || c == '\U{85}' || c == '\U{A0}' || c == '\U{1680}'
    || ('\U{2000}' <= c <= '\U{200A}') || c == '\U{2028}' || c == '\U{2029}'
    || c == '\U{202F}' || c == '\U{205F}' || c == '\U{3000}'
  }

  predicate IsAsciiDigit(c: char) { '0' <= c <= '9' }
  predicate IsAsciiAlpha(c: char) { ('a' <= c <= 'z') || ('A' <= c <= 'Z') }
  predicate IsAsciiAlnum(c: char) { IsAsciiAlpha(c) || IsAsciiDigit(c) }

  predicate AllDigits(s: string) { forall i :: 0 <= i < |s| ==> IsAsciiDigit(s[i]) }

  /** `str::trim_start`: drop the longest whitespace prefix. */
  function TrimStart(s: string): (r: string)
    ensures |r| <= |s| && r == s[|s| - |r|..]
    ensures r == [] || !IsWhitespace(r[0])
    ensures forall k :: 0 <= k < |s| - |r| ==> IsWhitespace(s[k])
  {
    if s == [] || !IsWhitespace(s[0]) then s else TrimStart(s[1..])
  }

  /** `str::trim_end`: drop the longest whitespace suffix. */
  function TrimEnd(s: string): (r: string)
    ensures |r| <= |s| && r == s[..|r|]
    ensures r == [] || !IsWhitespace(r[|r| - 1])
    ensures forall k :: |r| <= k < |s| ==> IsWhitespace(s[k])
  {
    if s == [] || !IsWhitespace(s[|s| - 1]) then s else TrimEnd(s[..|s| - 1])
  }

  /** `str::trim`. */
  function Trim(s: string): (r: string)
  {
    TrimEnd(TrimStart(s))
  }

  /** A string with no surrounding whitespace. */
  predicate IsTrimmed(s: string)
  {
    s == [] || (!IsWhitespace(s[0]) && !IsWhitespace(s[|s| - 1]))
  }

  lemma TrimmedFixed(s: string)
    requires IsTrimmed(s)
    ensures Trim(s) == s
  {
  }

  /** `trim` leaves no surrounding whitespace, so trimming again changes nothing. */
  lemma TrimIsTrimmed(s: string)
    ensures IsTrimmed(Trim(s))
    ensures Trim(Trim(s)) == Trim(s)
  {
    var a := TrimStart(s);
    var r := TrimEnd(a);
    if r != [] {
      assert r[0] == a[0];
    }
    TrimmedFixed(r);
  }

  /** Trimming only removes whitespace from the two ends: the result is a slice of s. */
  lemma TrimIsSlice(s: string)
    ensures exists i, j :: 0 <= i <= j <= |s| && Trim(s) == s[i..j]
  {
    var a := TrimStart(s);
    var i := |s| - |a|;
    var r := TrimEnd(a);
    assert r == s[i..i + |r|];
  }

  function LowerChar(c: char): (r: char)
  {
    if 'A' <= c <= 'Z' then (c as int + 32) as char else c
  }

  /** `to_ascii_lowercase`: ASCII capitals become small letters, all else is kept. */
  function Lower(s: string): (r: string)
    ensures |r| == |s|
    ensures forall i :: 0 <= i < |s| ==> r[i] == LowerChar(s[i])
  {
    if s == [] then [] else [LowerChar(s[0])] + Lower(s[1..])
  }

  lemma LowerIdempotent(s: string)
    ensures Lower(Lower(s)) == Lower(s)
  {
    assert forall i :: 0 <= i < |s| ==> Lower(Lower(s))[i] == Lower(s)[i];
  }

  lemma LowerAppend(a: string, b: string)
    ensures Lower(a + b) == Lower(a) + Lower(b)
  {
    assert forall i :: 0 <= i < |a + b| ==> Lower(a + b)[i] == (Lower(a) + Lower(b))[i];
  }

  /** No ASCII capital letter occurs in s. */
  predicate NoUpper(s: string)
  {
    forall i :: 0 <= i < |s| ==> !('A' <= s[i] <= 'Z')
  }

  /** A string without ASCII capitals is its own lower-case form. */
  lemma LowerFixed(s: string)
    requires NoUpper(s)
    ensures Lower(s) == s
  {
    assert forall i :: 0 <= i < |s| ==> Lower(s)[i] == s[i];
  }

  /** Lower-casing a concatenation whose parts have no capitals changes nothing. */
  lemma LowerFixed3(a: string, b: string, c: string)
    requires NoUpper(a) && NoUpper(b) && NoUpper(c)
    ensures Lower(a + b + c) == a + b + c
  {
    var s := a + b + c;
    forall i | 0 <= i < |s|
      ensures !('A' <= s[i] <= 'Z')
    {
      if i < |a| {
        assert s[i] == a[i];
      } else if i < |a| + |b| {
        assert s[i] == b[i - |a|];
      } else {
        assert s[i] == c[i - |a| - |b|];
      }
    }
    LowerFixed(s);
  }

  lemma LowerCharWhitespace(c: char)
    ensures IsWhitespace(LowerChar(c)) == IsWhitespace(c)
  {
  }

  /** Lower-casing changes no character's whitespace status, so it commutes with trimming. */
  lemma {:induction false} TrimStartLower(s: string)
    ensures TrimStart(Lower(s)) == Lower(TrimStart(s))
  {
    if s != [] {
      var l := Lower(s);
      assert l[0] == LowerChar(s[0]);
      LowerCharWhitespace(s[0]);
      if IsWhitespace(s[0]) {
        assert l[1..] == Lower(s[1..]);
        TrimStartLower(s[1..]);
      }
    }
  }

  lemma {:induction false} TrimEndLower(s: string)
    ensures TrimEnd(Lower(s)) == Lower(TrimEnd(s))
  {
    if s != [] {
      var l := Lower(s);
      assert l[|s| - 1] == LowerChar(s[|s| - 1]);
      LowerCharWhitespace(s[|s| - 1]);
      if IsWhitespace(s[|s| - 1]) {
        assert l[..|s| - 1] == Lower(s[..|s| - 1]);
        TrimEndLower(s[..|s| - 1]);
      }
    }
  }

  lemma TrimLower(s: string)
    ensures Trim(Lower(s)) == Lower(Trim(s))
  {
    TrimStartLower(s);
    TrimEndLower(TrimStart(s));
  }

  predicate StartsWith(s: string, p: string)
  {
    |p| <= |s| && s[..|p|] == p
  }

  predicate EndsWith(s: string, p: string)
  {
    |p| <= |s| && s[|s| - |p|..] == p
  }

  /** `str::contains` for a string pattern. */
  predicate Contains(s: string, sub: string)
    decreases |s|
  {
    StartsWith(s, sub) || (s != [] && Contains(s[1..], sub))
  }

  /** `str::find`: the first index at which sub occurs. */
  function IndexOf(s: string, sub: string): (r: Option<nat>)
    ensures r.Some? ==> r.value + |sub| <= |s| && s[r.value..r.value + |sub|] == sub
    ensures r.Some? ==> forall k :: 0 <= k < r.value ==> !StartsWith(s[k..], sub)
    ensures r.None? <==> !Contains(s, sub)
    decreases |s|
  {
    if StartsWith(s, sub) then Some(0)
    else if s == [] then None
    else match IndexOf(s[1..], sub)
      case None => None
      case Some(k) =>
        assert s[k + 1..] == s[1..][k..];
        assert forall j :: 1 <= j < k + 1 ==> s[j..] == s[1..][j - 1..];
        Some(k + 1)
  }

  /** `str::find` for one character. */
  function FindChar(s: string, c: char): (r: Option<nat>)
    ensures r.Some? ==> r.value < |s| && s[r.value] == c && c !in s[..r.value]
    ensures r.None? ==> c !in s
  {
    if s == [] then None
    else if s[0] == c then Some(0)
    else match FindChar(s[1..], c)
      case None => None
      case Some(k) => assert s[..k + 1] == [s[0]] + s[1..][..k]; Some(k + 1)
  }

  /** `str::rfind` for one character. */
  function RFindChar(s: string, c: char): (r: Option<nat>)
    ensures r.Some? ==> r.value < |s| && s[r.value] == c && c !in s[r.value + 1..]
    ensures r.None? ==> c !in s
  {
    if s == [] then None
    else if s[|s| - 1] == c then Some(|s| - 1)
    else match RFindChar(s[..|s| - 1], c)
      case None => None
      case Some(k) => assert s[k + 1..] == s[..|s| - 1][k + 1..] + [s[|s| - 1]]; Some(k)
  }

  /** `trim_end_matches(c)`: drop every trailing copy of c. */
  function TrimEndMatches(s: string, c: char): (r: string)
    ensures |r| <= |s| && r == s[..|r|]
    ensures r == [] || r[|r| - 1] != c
    ensures forall k :: |r| <= k < |s| ==> s[k] == c
  {
    if s == [] || s[|s| - 1] != c then s else TrimEndMatches(s[..|s| - 1], c)
  }

  /** Dropping the trailing copies of c from p followed only by c gives p back, when p does not end in c. */
  lemma {:induction false} TrimEndMatchesPadding(p: string, s: string, c: char)
    requires p == [] || p[|p| - 1] != c
    requires |p| <= |s| && s[..|p|] == p
    requires forall k :: |p| <= k < |s| ==> s[k] == c
    ensures TrimEndMatches(s, c) == p
    decreases |s|
  {
    if |s| == |p| {
      assert s == p;
    } else {
      var t := s[..|s| - 1];
      assert t[..|p|] == p;
      TrimEndMatchesPadding(p, t, c);
    }
  }

  /** Appending copies of c does not change what dropping trailing copies of c leaves. */
  lemma TrimEndMatchesSuffix(a: string, b: string, c: char)
    requires forall k :: 0 <= k < |b| ==> b[k] == c
    ensures TrimEndMatches(a + b, c) == TrimEndMatches(a, c)
  {
    var r := TrimEndMatches(a, c);
    var s := a + b;
    assert s[..|r|] == r;
    forall k | |r| <= k < |s|
      ensures s[k] == c
    {
      if k < |a| {
        assert s[k] == a[k];
      } else {
        assert s[k] == b[k - |a|];
      }
    }
    TrimEndMatchesPadding(r, s, c);
  }

  /** A trimmed string followed by non-whitespace characters is still trimmed. */
  lemma TrimmedAppend(t: string, b: string)
    requires IsTrimmed(t)
    requires forall k :: 0 <= k < |b| ==> !IsWhitespace(b[k])
    ensures IsTrimmed(t + b)
  {
    if t == [] {
      assert t + b == b;
    } else if b != [] {
      assert (t + b)[0] == t[0];
      assert (t + b)[|t + b| - 1] == b[|b| - 1];
    } else {
      assert t + b == t;
    }
  }

  /** `trim_start_matches(c)`: drop every leading copy of c. */
  function TrimStartMatches(s: string, c: char): (r: string)
    ensures |r| <= |s| && r == s[|s| - |r|..]
    ensures r == [] || r[0] != c
    ensures forall k :: 0 <= k < |s| - |r| ==> s[k] == c
  {
    if s == [] || s[0] != c then s else TrimStartMatches(s[1..], c)
  }

  /** `" ".repeat(n)`-style repetition. */
  function Repeat(s: string, n: nat): (r: string)
    ensures |r| == n * |s|
  {
    if n == 0 then [] else s + Repeat(s, n - 1)
  }

  function DigitChar(d: nat): (c: char)
    requires d < 10
  {
    ('0' as int + d) as char
  }

  function DigitValue(c: char): (d: nat)
    requires IsAsciiDigit(c)
  {
    c as int - '0' as int
  }

  /** The value of a string of decimal digits, most significant first. */
  function DigitsValue(s: string): (v: nat)
    requires AllDigits(s)
  {
    if s == [] then 0 else DigitsValue(s[..|s| - 1]) * 10 + DigitValue(s[|s| - 1])
  }

  /** Decimal formatting of a natural (`format!("{}", n)`). */
  function NatToString(n: nat): (r: string)
    ensures |r| > 0 && AllDigits(r)
  {
    if n < 10 then [DigitChar(n)] else NatToString(n / 10) + [DigitChar(n % 10)]
  }

  lemma {:induction false} NatToStringValue(n: nat)
    ensures DigitsValue(NatToString(n)) == n
  {
    if n >= 10 {
      var s := NatToString(n);
      assert s[..|s| - 1] == NatToString(n / 10);
      NatToStringValue(n / 10);
    }
  }

  /** Different naturals format differently. */
  lemma NatToStringInjective(a: nat, b: nat)
    requires NatToString(a) == NatToString(b)
    ensures a == b
  {
    NatToStringValue(a);
    NatToStringValue(b);
  }

  /**
   * `str::parse::<uN>()` where max is the type's largest value: an optional
   * leading '+', then at least one ASCII digit, and a value not above max.
   */
  function ParseUnsigned(s: string, max: nat): (r: Option<nat>)
    ensures r.Some? ==> r.value <= max
    ensures r.Some? <==> (
      var d := if |s| > 0 && s[0] == '+' then s[1..] else s;
      |d| > 0 && AllDigits(d) && DigitsValue(d) <= max)
  {
    var d := if |s| > 0 && s[0] == '+' then s[1..] else s;
    if |d| > 0 && AllDigits(d) && DigitsValue(d) <= max then Some(DigitsValue(d)) else None
  }

  /** Parsing the decimal form of a representable natural gives it back. */
  lemma FormatParseRoundTrip(n: nat, max: nat)
    requires n <= max
    ensures ParseUnsigned(NatToString(n), max) == Some(n)
  {
    NatToStringValue(n);
  }

  lemma {:induction false} ContainsAt(s: string, sub: string, k: nat)
    requires k + |sub| <= |s| && s[k..k + |sub|] == sub
    ensures Contains(s, sub)
    decreases k
  {
    if k > 0 {
      assert s[1..][k - 1..k - 1 + |sub|] == sub;
      ContainsAt(s[1..], sub, k - 1);
    }
  }

  /** `find` returns a position where sub occurs when no earlier position has it. */
  lemma IndexOfAt(s: string, sub: string, n: nat)
    requires n + |sub| <= |s| && s[n..n + |sub|] == sub
    requires forall k :: 0 <= k < n ==> !StartsWith(s[k..], sub)
    ensures IndexOf(s, sub) == Some(n)
  {
    ContainsAt(s, sub, n);
    var m := IndexOf(s, sub).value;
    assert s[n..][..|sub|] == sub;
    assert s[m..][..|sub|] == sub;
    assert StartsWith(s[m..], sub);
  }

  lemma {:induction false} FindCharAppend(a: string, b: string, c: char)
    requires c !in a
    ensures FindChar(a + b, c) == (match FindChar(b, c) case None => None case Some(k) => Some(|a| + k))
    decreases |a|
  {
    if a != [] {
      assert (a + b)[1..] == a[1..] + b;
      FindCharAppend(a[1..], b, c);
    } else {
      assert a + b == b;
    }
  }

  lemma {:induction false} RFindCharAppend(a: string, b: string, c: char)
    requires c !in b
    ensures RFindChar(a + b, c) == RFindChar(a, c)
    decreases |b|
  {
    if b != [] {
      assert (a + b)[..|a + b| - 1] == a + b[..|b| - 1];
      RFindCharAppend(a, b[..|b| - 1], c);
    } else {
      assert a + b == a;
    }
  }

  /** Appending nothing; stated once so that the empty-append branches stay cheap. */
  lemma AppendEmpty(s: string)
    ensures s + "" == s
  {
  }

  lemma AppendAssoc(a: string, b: string, c: string)
    ensures a + b + c == a + (b + c)
  {
  }

  const U16_MAX: nat := 0xFFFF
  const U32_MAX: nat := 0xFFFF_FFFF
  const U64_MAX: nat := 0xFFFF_FFFF_FFFF_FFFF
}
