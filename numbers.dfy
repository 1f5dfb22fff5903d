/**
 * The `strconv` behaviour the converter relies on, for Go's 64-bit `int`
 * and `uint`: `ParseBool`, decimal `ParseInt`/`ParseUint` with their range
 * errors, `FormatInt`/`FormatUint`, and the two-complement casts
 * `int64(u)` and `uint64(i)`.
 */
module Numbers {
  import opened Wrappers

  const TwoTo63: nat := 0x8000_0000_0000_0000
  const TwoTo64: nat := 0x1_0000_0000_0000_0000

  predicate IsInt64(i: int) { -(TwoTo63 as int) <= i < TwoTo63 }
  predicate IsUint64(u: int) { 0 <= u < TwoTo64 }

  /** `uint64(i)` for an `int64` value: two's-complement reinterpretation. */
  function ToUnsigned(i: int): (u: nat)
    ensures IsUint64(u)
    ensures IsInt64(i) && i >= 0 ==> u == i
  {
    i % TwoTo64
  }

  /** `int64(u)`: two's-complement reinterpretation of the low 64 bits. */
  function ToSigned(u: nat): (i: int)
    ensures IsInt64(i)
    ensures u < TwoTo63 ==> i == u
  {
    var w := u % TwoTo64;
    if w >= TwoTo63 then w - TwoTo64 else w
  }

  /** The two casts undo each other on the 64-bit ranges. */
  lemma CastsRoundTrip(i: int, u: nat)
    requires IsInt64(i) && IsUint64(u)
    ensures ToSigned(ToUnsigned(i)) == i
    ensures ToUnsigned(ToSigned(u)) == u
  {
    if i < 0 { assert ToUnsigned(i) == i + TwoTo64; }
  }

  // ---------------------------------------------------------------------
  // Booleans

  /** `strconv.ParseBool`: the fixed literal set, anything else fails. */
  function ParseBool(s: string): (r: Option<bool>)
    ensures r == Some(true) <==> s in {"1", "t", "T", "TRUE", "true", "True"}
    ensures r == Some(false) <==> s in {"0", "f", "F", "FALSE", "false", "False"}
  {
    if s in {"1", "t", "T", "TRUE", "true", "True"} then Some(true)
    else if s in {"0", "f", "F", "FALSE", "false", "False"} then Some(false)
    else None
  }

  // ---------------------------------------------------------------------
  // Decimal digits

  predicate IsDigit(c: char) { '0' <= c <= '9' }

  predicate AllDigits(s: string) { forall i :: 0 <= i < |s| ==> IsDigit(s[i]) }

  function DigitChar(d: nat): (c: char)
    requires d < 10
    ensures IsDigit(c)
  {
    ('0' as int + d) as char
  }

  /** The value of a string of decimal digits, most significant first. */
  function DigitsValue(s: string): nat
    requires AllDigits(s)
  {
    if s == [] then 0
    else DigitsValue(s[..|s| - 1]) * 10 + (s[|s| - 1] as int - '0' as int)
  }

  /** The shortest decimal spelling of `n` (`strconv.FormatUint(n, 10)`). */
  function FormatNat(n: nat): (s: string)
    ensures |s| >= 1 && AllDigits(s)
    ensures |s| > 1 ==> s[0] != '0'
  {
    if n < 10 then [DigitChar(n)] else FormatNat(n / 10) + [DigitChar(n % 10)]
  }

  /** Reading back the decimal spelling of `n` gives `n`. */
  lemma {:induction false} DigitsOfFormat(n: nat)
    ensures DigitsValue(FormatNat(n)) == n
  {
    if n >= 10 {
      DigitsOfFormat(n / 10);
      var s := FormatNat(n);
      assert s[..|s| - 1] == FormatNat(n / 10);
    }
  }

  // ---------------------------------------------------------------------
  // Parsing and formatting 64-bit integers

  /** `strconv.FormatInt(i, 10)`. */
  function FormatInt(i: int): (s: string)
    ensures |s| >= 1
    ensures i < 0 <==> s[0] == '-'
  {
    if i < 0 then "-" + FormatNat(-i) else FormatNat(i)
  }

  /** `strconv.FormatUint(u, 10)`. */
  function FormatUint(u: nat): (s: string)
    ensures |s| >= 1 && AllDigits(s)
  {
    FormatNat(u)
  }

  /**
   * `strconv.ParseUint(s, 10, 64)`: one or more decimal digits whose value
   * fits in 64 bits; an empty string, any other character or an out-of-range
   * value is an error.
   */
  function ParseUint(s: string): (r: Option<nat>)
    ensures r.Some? <==> |s| > 0 && AllDigits(s) && IsUint64(DigitsValue(s))
    ensures r.Some? ==> r.value == DigitsValue(s)
  {
    if |s| > 0 && AllDigits(s) && IsUint64(DigitsValue(s)) then Some(DigitsValue(s)) else None
  }

  /**
   * `strconv.ParseInt(s, 10, 64)`: an optional `+` or `-` sign, then one or
   * more decimal digits, and the signed value must fit in 64 bits.
   */
  function ParseInt(s: string): (r: Option<int>)
    ensures r.Some? ==> IsInt64(r.value)
    ensures r.Some? && |s| > 0 && IsDigit(s[0]) ==> r.value >= 0
  {
    if |s| > 0 && (s[0] == '-' || s[0] == '+') then
      var digits := s[1..];
      if |digits| > 0 && AllDigits(digits) then
        var magnitude: int := DigitsValue(digits);
        var value: int := if s[0] == '-' then -magnitude else magnitude;
        if IsInt64(value) then Some(value) else None
      else None
    else if |s| > 0 && AllDigits(s) && IsInt64(DigitsValue(s)) then Some(DigitsValue(s))
    else None
  }

  /** Formatting then parsing an `int64` gives it back. */
  lemma ParseFormatInt(i: int)
    requires IsInt64(i)
    ensures ParseInt(FormatInt(i)) == Some(i)
  {
    if i < 0 {
      DigitsOfFormat(-i);
      assert FormatInt(i)[1..] == FormatNat(-i);
    } else {
      DigitsOfFormat(i);
    }
  }

  /** Formatting then parsing a `uint64` gives it back. */
  lemma ParseFormatUint(u: nat)
    requires IsUint64(u)
    ensures ParseUint(FormatUint(u)) == Some(u)
  {
    DigitsOfFormat(u);
  }

  /** A value that parses is the value the digits spell, so parsing is inverted by formatting on canonical spellings. */
  lemma FormatParseUint(s: string)
    requires ParseUint(s).Some?
    requires |s| == 1 || s[0] != '0'
    ensures FormatUint(ParseUint(s).value) == s
  {
    FormatOfDigits(s);
  }

  lemma {:induction false} FormatOfDigits(s: string)
    requires |s| >= 1 && AllDigits(s)
    requires |s| == 1 || s[0] != '0'
    ensures FormatNat(DigitsValue(s)) == s
    decreases |s|
  {
    if |s| > 1 {
      var init := s[..|s| - 1];
      assert init[0] == s[0];
      FormatOfDigits(init);
      LeadingNonZero(init);
      var n := DigitsValue(s);
      var d := s[|s| - 1] as int - '0' as int;
      assert n == DigitsValue(init) * 10 + d;
      assert n / 10 == DigitsValue(init) && n % 10 == d;
      assert DigitChar(d) == s[|s| - 1];
      assert s == init + [s[|s| - 1]];
    } else {
      assert s[..0] == [];
      assert DigitsValue(s) == s[0] as int - '0' as int;
    }
  }

  /** A digit string longer than one character without a leading zero has a value of at least 10 to its length minus one, so at least 1. */
  lemma {:induction false} LeadingNonZero(s: string)
    requires |s| >= 1 && AllDigits(s) && s[0] != '0'
    ensures DigitsValue(s) >= 1
    decreases |s|
  {
    if |s| > 1 {
      var init := s[..|s| - 1];
      assert init[0] == s[0];
      LeadingNonZero(init);
    }
  }
}
