/**
 * Value Encoder: every leaf value becomes text a flag reads back. Strings
 * pass through unchanged, booleans become `true`/`false`, integers become
 * decimal with no leading zeros. The readers here are the flag layer's:
 * a string flag takes the text as is, an integer flag parses a signed
 * 64-bit decimal, a boolean flag accepts the spellings Go's
 * `strconv.ParseBool` accepts.
 */
module ValueEncoder {
  import opened Wrappers
  import opened Document

  predicate IsDigit(c: char)
  {
    '0' <= c <= '9'
  }

  predicate AllDigits(s: string)
  {
    forall i :: 0 <= i < |s| ==> IsDigit(s[i])
  }

  function DigitChar(d: nat): char
    requires d < 10
  {
    ('0' as int + d) as char
  }

  function DigitValue(c: char): nat
    requires IsDigit(c)
  {
    c as int - '0' as int
  }

  /** The decimal digits of `n`, most significant first. */
  function FormatNat(n: nat): (r: string)
    ensures |r| > 0 && AllDigits(r)
    ensures r[0] == '0' <==> n == 0
    ensures n == 0 ==> r == "0"
    decreases n
  {
    if n < 10 then [DigitChar(n)]
    else FormatNat(n / 10) + [DigitChar(n % 10)]
  }

  /** The number a string of decimal digits denotes (empty denotes 0). */
  function DigitsValue(s: string): nat
    requires AllDigits(s)
  {
    if |s| == 0 then 0
    else DigitsValue(s[..|s| - 1]) * 10 + DigitValue(s[|s| - 1])
  }

  /** Decimal text of an integer: a `-` for negatives, then the digits. */
  function FormatInt(i: int): string
  {
    if i < 0 then "-" + FormatNat(-i) else FormatNat(i)
  }

  /**
   * The integer flag's reader: an optional sign, then one or more decimal
   * digits, and the value must fit in 64 bits; anything else is rejected.
   */
  function ParseInt(s: string): (r: Option<Int64>)
    ensures r.Some? ==> |s| > 0
  {
    var negative := |s| > 0 && s[0] == '-';
    var body := if |s| > 0 && (s[0] == '-' || s[0] == '+') then s[1..] else s;
    if |body| == 0 || !AllDigits(body) then None
    else
      var v: int := DigitsValue(body);
      var x: int := if negative then -v else v;
      if MinInt64 <= x <= MaxInt64 then Some(x) else None
  }

  /** The text a boolean is written as. */
  function FormatBool(b: bool): string
  {
    if b then "true" else "false"
  }

  /** The boolean flag's reader, accepting the spellings of `strconv.ParseBool`. */
  function ParseBool(s: string): Option<bool>
  {
    if s in {"1", "t", "T", "TRUE", "true", "True"} then Some(true)
    else if s in {"0", "f", "F", "FALSE", "false", "False"} then Some(false)
    else None
  }

  /** The text handed to the flag layer for one scalar. */
  function Encode(v: Scalar): string
  {
    match v
    case Str(s) => s
    case Int(i) => FormatInt(i)
    case Bool(b) => FormatBool(b)
    case Float(text) => text
  }

  /** A string is handed over as itself. */
  lemma EncodeStr(t: string)
    ensures Encode(Str(t)) == t
  {
  }

  /** A float is handed over as the text it carries. */
  lemma EncodeFloat(t: string)
    ensures Encode(Float(t)) == t
  {
  }

  /** The destination a flag value is read into. */
  datatype FlagKind = StringFlag | IntFlag | BoolFlag | FloatFlag

  /** The kind of flag a scalar of this type is meant for. */
  function KindOf(v: Scalar): FlagKind
  {
    match v
    case Str(_) => StringFlag
    case Int(_) => IntFlag
    case Bool(_) => BoolFlag
    case Float(_) => FloatFlag
  }

  /** What a flag of the given kind makes of `text`. */
  function ReadBack(kind: FlagKind, text: string): Option<Scalar>
  {
    match kind
    case StringFlag => Some(Str(text))
    case IntFlag => (match ParseInt(text) case Some(i) => Some(Int(i)) case None => None)
    case BoolFlag => (match ParseBool(text) case Some(b) => Some(Bool(b)) case None => None)
    case FloatFlag => Some(Float(text))
  }

  lemma DigitRoundTrip(d: nat)
    requires d < 10
    ensures IsDigit(DigitChar(d)) && DigitValue(DigitChar(d)) == d
  {
  }

  /** Reading the digits `FormatNat` writes gives back the number. */
  lemma {:induction false} DigitsValueFormatNat(n: nat)
    ensures DigitsValue(FormatNat(n)) == n
    decreases n
  {
    var s := FormatNat(n);
    if n < 10 {
      DigitRoundTrip(n);
      assert s[..|s| - 1] == [];
    } else {
      DigitsValueFormatNat(n / 10);
      DigitRoundTrip(n % 10);
      assert s[..|s| - 1] == FormatNat(n / 10);
    }
  }

  /** A digit string that does not start with `0` denotes a positive number. */
  lemma {:induction false} DigitsValuePositive(s: string)
    requires |s| > 0 && AllDigits(s) && s[0] != '0'
    ensures DigitsValue(s) > 0
    decreases |s|
  {
    if |s| > 1 {
      var p := s[..|s| - 1];
      assert p[0] == s[0];
      DigitsValuePositive(p);
    }
  }

  /** A digit string without leading zeros is exactly what `FormatNat` writes for its value. */
  lemma {:induction false} FormatNatDigitsValue(s: string)
    requires |s| > 0 && AllDigits(s) && (s[0] != '0' || s == "0")
    ensures FormatNat(DigitsValue(s)) == s
    decreases |s|
  {
    var c := s[|s| - 1];
    var v := DigitValue(c);
    assert DigitChar(v) == c;
    if |s| == 1 {
      assert s[..0] == [];
      assert s == [c];
    } else {
      var p := s[..|s| - 1];
      assert p[0] == s[0];
      DigitsValuePositive(p);
      FormatNatDigitsValue(p);
      var n := DigitsValue(s);
      assert n == DigitsValue(p) * 10 + v;
      assert n / 10 == DigitsValue(p) && n % 10 == v;
      assert s == p + [c];
    }
  }

  /** The canonical decimal spelling of an integer: no `+`, no leading zeros, no `-0`. */
  predicate CanonicalDecimal(s: string)
  {
    var body := if |s| > 0 && s[0] == '-' then s[1..] else s;
    && |body| > 0
    && AllDigits(body)
    && (body[0] != '0' || body == "0")
    && (|s| > 0 && s[0] == '-' ==> body != "0")
  }

  /** The text of a negative 64-bit integer: `-` and the digits of its magnitude. */
  lemma NegativeRoundTrip(i: Int64)
    requires i < 0
    ensures ParseInt(FormatInt(i)) == Some(i)
    ensures CanonicalDecimal(FormatInt(i))
  {
    var digits := FormatNat(-(i as int));
    DigitsValueFormatNat(-(i as int));
    assert FormatInt(i) == "-" + digits;
    assert FormatInt(i)[1..] == digits;
  }

  /** The text of a non-negative 64-bit integer: its digits alone. */
  lemma NonNegativeRoundTrip(i: Int64)
    requires i >= 0
    ensures ParseInt(FormatInt(i)) == Some(i)
    ensures CanonicalDecimal(FormatInt(i))
  {
    DigitsValueFormatNat(i);
  }

  /**
   * An integer flag reads back exactly the 64-bit integer that was
   * encoded, and the encoding is the canonical decimal spelling.
   */
  lemma IntRoundTrip(i: Int64)
    ensures ParseInt(FormatInt(i)) == Some(i)
    ensures CanonicalDecimal(FormatInt(i))
  {
    if i < 0 {
      NegativeRoundTrip(i);
    } else {
      NonNegativeRoundTrip(i);
    }
  }

  /** Canonical text with a `-` that reads as `i` is `-` and the digits of `-i`. */
  lemma NegativeCanonical(s: string, i: Int64)
    requires CanonicalDecimal(s) && |s| > 0 && s[0] == '-'
    requires ParseInt(s) == Some(i)
    ensures FormatInt(i) == s
  {
    var body := s[1..];
    FormatNatDigitsValue(body);
    DigitsValuePositive(body);
    assert DigitsValue(body) == -(i as int);
    assert s == "-" + body;
  }

  /** Conversely, canonical decimal text an integer flag accepts is the encoding of the value it reads. */
  lemma CanonicalIntRoundTrip(s: string, i: Int64)
    requires CanonicalDecimal(s)
    requires ParseInt(s) == Some(i)
    ensures FormatInt(i) == s
  {
    if s[0] == '-' {
      NegativeCanonical(s, i);
    } else {
      FormatNatDigitsValue(s);
    }
  }

  /**
   * Every scalar, encoded and read back by the flag of its own kind, is
   * the scalar itself: "s" stays "s", 10 reads as 10, true as true.
   */
  lemma EncodeReadBack(v: Scalar)
    ensures ReadBack(KindOf(v), Encode(v)) == Some(v)
  {
    if v.Int? {
      IntRoundTrip(v.i);
    }
  }
}
