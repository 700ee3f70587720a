/**
 * The string primitives the screens rely on: JavaScript's `trim`,
 * `toLowerCase` (restricted to ASCII letters), `includes`, and `length`,
 * which counts UTF-16 code units rather than characters.
 */
module Text {
  import opened Wrappers

  /** The WhiteSpace and LineTerminator code points of ECMAScript, which `trim` strips. */
  predicate IsSpace(c: char) {
    || c == '\t' || c == '\n' || c == '\U{000B}' || c == '\U{000C}' || c == '\r' || c == ' '
    || c == '\U{00A0}' || c == '\U{1680}' || ('\U{2000}' <= c <= '\U{200A}')
    || c == '\U{2028}' || c == '\U{2029}' || c == '\U{202F}' || c == '\U{205F}'
    || c == '\U{3000}' || c == '\U{FEFF}'
  }

  /** The first index from `i` on that does not hold white space, or `|s|`. */
  function SpaceEnd(s: string, i: nat): (n: nat)
    requires i <= |s|
    ensures i <= n <= |s|
    ensures forall k :: i <= k < n ==> IsSpace(s[k])
    ensures n < |s| ==> !IsSpace(s[n])
    decreases |s| - i
  {
    if i == |s| || !IsSpace(s[i]) then i else SpaceEnd(s, i + 1)
  }

  /** The end of `s[..j]` once trailing white space down to `lo` is dropped. */
  function SpaceStart(s: string, j: nat, lo: nat): (n: nat)
    requires lo <= j <= |s|
    ensures lo <= n <= j
    ensures forall k :: n <= k < j ==> IsSpace(s[k])
    ensures n > lo ==> !IsSpace(s[n - 1])
    decreases j
  {
    if j == lo || !IsSpace(s[j - 1]) then j else SpaceStart(s, j - 1, lo)
  }

  /** Where the trimmed string starts in `s`. */
  function TrimFrom(s: string): nat
    ensures TrimFrom(s) <= |s|
  {
    SpaceEnd(s, 0)
  }

  /** Drops leading white space. */
  function TrimStart(s: string): string {
    s[SpaceEnd(s, 0)..]
  }

  /** `String.prototype.trim`: drops leading and trailing white space. */
  function Trim(s: string): (r: string)
    ensures |r| <= |s|
    ensures |r| > 0 ==> !IsSpace(r[0]) && !IsSpace(r[|r| - 1])
    ensures forall k :: 0 <= k < |s| && !IsSpace(s[k]) ==> s[k] in r
  {
    s[TrimFrom(s)..SpaceStart(s, |s|, TrimFrom(s))]
  }

  /**
   * The trimmed string is the slice of `s` between a white-space prefix and a
   * white-space suffix, and neither starts nor ends with white space.
   */
  lemma TrimFacts(s: string)
    ensures var r, a := Trim(s), TrimFrom(s);
      && (|r| > 0 ==> !IsSpace(r[0]) && !IsSpace(r[|r| - 1]))
      && 0 <= a <= |s| - |r|
      && r == s[a..a + |r|]
      && (forall k :: 0 <= k < a ==> IsSpace(s[k]))
      && (forall k :: a + |r| <= k < |s| ==> IsSpace(s[k]))
  {
    var a := TrimFrom(s);
    var b := SpaceStart(s, |s|, a);
    var r := Trim(s);
    assert r == s[a..b];
    if |r| > 0 {
      assert r[0] == s[a] && r[|r| - 1] == s[b - 1];
    }
  }

  /** Trimming twice is trimming once. */
  lemma TrimIdempotent(s: string)
    ensures Trim(Trim(s)) == Trim(s)
  {
    var r := Trim(s);
    TrimFacts(s);
    assert TrimFrom(r) == 0;
    assert SpaceStart(r, |r|, 0) == |r|;
  }

  /** ASCII upper-case letters map to lower case; every other character is kept. */
  function LowerChar(c: char): char {
    if 'A' <= c <= 'Z' then (c as int + 32) as char else c
  }

  /**
   * `toLowerCase`, for the ASCII letters: no upper-case letter is left, each
   * one becomes its lower-case letter 32 code points on, and every other
   * character stays where it was.
   */
  function ToLower(s: string): (r: string)
    ensures |r| == |s|
    ensures forall k :: 0 <= k < |r| ==> !('A' <= r[k] <= 'Z')
    ensures forall k :: 0 <= k < |s| && 'A' <= s[k] <= 'Z' ==> r[k] as int == s[k] as int + 32
    ensures forall k :: 0 <= k < |s| && !('A' <= s[k] <= 'Z') ==> r[k] == s[k]
  {
    seq(|s|, k requires 0 <= k < |s| => LowerChar(s[k]))
  }

  /** `needle` occurs in `hay` starting at index `i`. */
  predicate OccursAt(hay: string, needle: string, i: int) {
    0 <= i <= |hay| - |needle| && hay[i..i + |needle|] == needle
  }

  /** `hay.includes(needle)`: `needle` occurs as a contiguous slice of `hay`. */
  predicate Contains(hay: string, needle: string): (ok: bool)
    ensures ok ==> |needle| <= |hay|
    ensures needle <= hay ==> ok
  {
    assert needle <= hay ==> OccursAt(hay, needle, 0);
    exists i :: 0 <= i <= |hay| && OccursAt(hay, needle, i)
  }

  /** Every string includes the empty string. */
  lemma ContainsEmpty(hay: string)
    ensures Contains(hay, "")
  {
    assert OccursAt(hay, "", 0);
  }

  // Decimal numerals: `Number.prototype.toString` on integers and `parseInt`.

  predicate IsDigit(c: char) {
    '0' <= c <= '9'
  }

  function DigitChar(d: nat): (c: char)
    requires d < 10
    ensures IsDigit(c) && c as int - '0' as int == d
  {
    (48 + d) as char
  }

  function DigitValue(c: char): nat
    requires IsDigit(c)
  {
    c as int - '0' as int
  }

  /** The shortest decimal numeral of `n`: non-empty, all digits, no leading zero unless `n` is 0. */
  function NatToString(n: nat): (r: string)
    ensures |r| > 0 && (forall k :: 0 <= k < |r| ==> IsDigit(r[k]))
    ensures r[0] == '0' ==> n == 0
    decreases n
  {
    if n < 10 then [DigitChar(n)] else NatToString(n / 10) + [DigitChar(n % 10)]
  }

  /** `String(i)` for an integer value. */
  function IntToString(i: int): string {
    if i < 0 then "-" + NatToString(-i) else NatToString(i)
  }

  /** The value of a string of decimal digits, most significant first. */
  function DigitsValue(ds: string): nat
    requires forall k :: 0 <= k < |ds| ==> IsDigit(ds[k])
  {
    if |ds| == 0 then 0 else DigitsValue(ds[..|ds| - 1]) * 10 + DigitValue(ds[|ds| - 1])
  }

  /** The longest prefix of `s` made of decimal digits. */
  function LeadingDigits(s: string): (r: string)
    ensures r <= s
    ensures forall k :: 0 <= k < |r| ==> IsDigit(r[k])
    ensures |r| < |s| ==> !IsDigit(s[|r|])
  {
    if |s| > 0 && IsDigit(s[0]) then [s[0]] + LeadingDigits(s[1..]) else []
  }

  /** What follows one optional leading sign character. */
  function AfterSign(t: string): (u: string)
    ensures u == t || (|t| > 0 && (t[0] == '-' || t[0] == '+') && u == t[1..])
  {
    if |t| > 0 && (t[0] == '-' || t[0] == '+') then t[1..] else t
  }

  /**
   * `parseInt(s)` in base 10: leading white space is skipped, one optional
   * sign is read, then the longest run of digits; `None` stands for NaN,
   * the result when no digit follows.
   */
  function ParseInt(s: string): (r: Option<int>)
    ensures var u := AfterSign(TrimStart(s));
      r.Some? <==> |u| > 0 && IsDigit(u[0])
  {
    var t := TrimStart(s);
    var ds := LeadingDigits(AfterSign(t));
    var v: int := if |ds| == 0 then 0 else DigitsValue(ds);
    if |ds| == 0 then None
    else if |t| > 0 && t[0] == '-' then Some(-v)
    else Some(v)
  }

  lemma {:induction false} NatToStringValue(n: nat)
    ensures DigitsValue(NatToString(n)) == n
    decreases n
  {
    var r := NatToString(n);
    if n >= 10 {
      NatToStringValue(n / 10);
      assert r[..|r| - 1] == NatToString(n / 10);
    }
  }

  lemma {:induction false} LeadingDigitsAll(s: string)
    requires forall k :: 0 <= k < |s| ==> IsDigit(s[k])
    ensures LeadingDigits(s) == s
    decreases |s|
  {
    if |s| > 0 {
      LeadingDigitsAll(s[1..]);
    }
  }

  /** The digits of a numeral with no sign in front read back as its value. */
  lemma UnsignedRoundTrip(n: nat)
    ensures ParseInt(NatToString(n)) == Some(n as int)
  {
    var ds := NatToString(n);
    assert !IsSpace(ds[0]);
    assert TrimStart(ds) == ds;
    assert AfterSign(ds) == ds;
    LeadingDigitsAll(ds);
    NatToStringValue(n);
  }

  lemma NegativeRoundTrip(n: nat)
    requires n > 0
    ensures ParseInt("-" + NatToString(n)) == Some(0 - n as int)
  {
    var ds := NatToString(n);
    var s := "-" + ds;
    assert !IsSpace(s[0]);
    assert TrimStart(s) == s;
    assert AfterSign(s) == ds;
    LeadingDigitsAll(ds);
    NatToStringValue(n);
  }

  /** The round trip for every integer at once. */
  lemma IntStringRoundTripAll()
    ensures forall i :: |IntToString(i)| > 0 && ParseInt(IntToString(i)) == Some(i)
  {
    forall i ensures |IntToString(i)| > 0 && ParseInt(IntToString(i)) == Some(i) {
      IntStringRoundTrip(i);
    }
  }

  /** Reading back what `String(i)` wrote gives `i`, and the written text is never empty. */
  lemma IntStringRoundTrip(i: int)
    ensures |IntToString(i)| > 0
    ensures ParseInt(IntToString(i)) == Some(i)
  {
    if i < 0 {
      NegativeRoundTrip(-i);
    } else {
      UnsignedRoundTrip(i);
    }
  }

  // ------------------------------------------------------ UTF-16 length

  /** The UTF-16 code units of one character: two beyond the Basic Multilingual Plane. */
  function CodeUnits(c: char): nat {
    if c as int >= 0x1_0000 then 2 else 1
  }

  /** JavaScript's `length`: the number of UTF-16 code units of `s`. */
  function Utf16Length(s: string): (n: nat)
    ensures |s| <= n <= 2 * |s|
    decreases |s|
  {
    if |s| == 0 then 0 else Utf16Length(s[..|s| - 1]) + CodeUnits(s[|s| - 1])
  }

  lemma {:induction false} Utf16LengthAppend(a: string, b: string)
    ensures Utf16Length(a + b) == Utf16Length(a) + Utf16Length(b)
    decreases |b|
  {
    if |b| == 0 {
      assert a + b == a;
    } else {
      assert (a + b)[..|a + b| - 1] == a + b[..|b| - 1];
      Utf16LengthAppend(a, b[..|b| - 1]);
    }
  }

  /** A slice is never longer, in code units, than the whole. */
  lemma Utf16LengthSlice(s: string, i: nat, j: nat)
    requires i <= j <= |s|
    ensures Utf16Length(s[i..j]) <= Utf16Length(s)
  {
    assert s[..j] == s[..i] + s[i..j];
    assert s == s[..j] + s[j..];
    Utf16LengthAppend(s[..i], s[i..j]);
    Utf16LengthAppend(s[..j], s[j..]);
  }

  /**
   * The longest prefix of `s` within `max` code units, cut between
   * characters: one more character would exceed `max`.
   */
  function CapUtf16(s: string, max: nat): (r: string)
    ensures r <= s && Utf16Length(r) <= max
    ensures Utf16Length(s) <= max ==> r == s
    ensures |r| < |s| ==> Utf16Length(s[..|r| + 1]) > max
    decreases |s|
  {
    if Utf16Length(s) <= max then s
    else
      var r := CapUtf16(s[..|s| - 1], max);
      assert |r| < |s| - 1 ==> s[..|s| - 1][..|r| + 1] == s[..|r| + 1];
      assert |r| == |s| - 1 ==> s[..|r| + 1] == s;
      r
  }
}
