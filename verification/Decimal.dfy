/** Decimal text: how Rust prints and parses `i64`, `u64` and `usize`. */
module Decimal {
  import opened Basics

  const MINUS_SIGN: byte := 45
  const PLUS_SIGN: byte := 43

  predicate IsDigit(b: byte) { 48 <= b <= 57 }

  predicate AllDigits(s: Bytes) { forall i :: 0 <= i < |s| ==> IsDigit(s[i]) }

  function PrintNat(n: nat): (s: Bytes)
    ensures s != [] && AllDigits(s)
  {
    if n < 10 then [48 + n] else PrintNat(n / 10) + [48 + n % 10]
  }

  /** `i64::to_string`. */
  function PrintI64(n: int): (s: Bytes)
    ensures s != []
    ensures forall i :: 0 <= i < |s| ==> IsDigit(s[i]) || s[i] == MINUS_SIGN
  {
    if n < 0 then [MINUS_SIGN] + PrintNat(-n) else PrintNat(n)
  }

  function Value(s: Bytes): nat
    requires AllDigits(s)
  {
    if s == [] then 0 else 10 * Value(s[..|s| - 1]) + (s[|s| - 1] - 48)
  }

  function ParseDigits(s: Bytes): Option<nat> {
    if s != [] && AllDigits(s) then Some(Value(s)) else None
  }

  /** `str::parse::<i64>`: an optional sign, at least one digit, no overflow. */
  function ParseI64(s: Bytes): Option<i64> {
    if s != [] && s[0] == MINUS_SIGN then
      match ParseDigits(s[1..])
      case Some(v) => if v <= I64_MAX + 1 then Some(0 - v as int) else None
      case None => None
    else
      match ParseDigits(if s != [] && s[0] == PLUS_SIGN then s[1..] else s)
      case Some(v) => if v <= I64_MAX then Some(v) else None
      case None => None
  }

  /** `str::parse::<u64>`: as above without the minus sign. */
  function ParseU64(s: Bytes): Option<nat> {
    match ParseDigits(if s != [] && s[0] == PLUS_SIGN then s[1..] else s)
    case Some(v) => if v <= U64_MAX then Some(v) else None
    case None => None
  }

  lemma {:induction false} ValueOfPrint(n: nat)
    ensures Value(PrintNat(n)) == n
  {
    if n >= 10 {
      var s := PrintNat(n);
      assert s[..|s| - 1] == PrintNat(n / 10);
      ValueOfPrint(n / 10);
    }
  }

  /** Every `i64` survives printing and parsing. */
  lemma ParsePrintI64(n: i64)
    ensures ParseI64(PrintI64(n)) == Some(n)
  {
    if n < 0 {
      var m: nat := 0 - n as int;
      assert PrintI64(n)[1..] == PrintNat(m);
      ValueOfPrint(m);
    } else {
      ValueOfPrint(n);
    }
  }

  lemma ParsePrintU64(n: nat)
    requires n <= U64_MAX
    ensures ParseU64(PrintNat(n)) == Some(n)
  {
    ValueOfPrint(n);
  }

  /** Whatever parses holds only signs and digits, so it is ASCII and has no line ending in it. */
  lemma ParsedIsPlain(s: Bytes)
    requires ParseI64(s).Some?
    ensures s != []
    ensures forall i :: 0 <= i < |s| ==> s[i] < 128 && s[i] != CR && s[i] != LF
  {
    forall i | 0 <= i < |s|
      ensures s[i] < 128 && s[i] != CR && s[i] != LF
    {
      if i > 0 {
        assert s[i] == s[1..][i - 1];
      }
    }
  }

  // ---------- What parses

  /** `t` is a sign and decimal digits, and stands for `n`. */
  ghost predicate Signed(sign: Bytes, digits: Bytes, n: int) {
    && (sign == [] || sign == [PLUS_SIGN] || sign == [MINUS_SIGN])
    && digits != [] && AllDigits(digits)
    && n == if sign == [MINUS_SIGN] then 0 - Value(digits) as int else Value(digits)
  }

  ghost predicate Numeral(t: Bytes, n: int) {
    -0x8000_0000_0000_0000 <= n <= 0x7fff_ffff_ffff_ffff
    && exists sign: Bytes, digits: Bytes :: t == sign + digits && Signed(sign, digits, n)
  }

  /** The same without a minus sign, for 64 unsigned bits. */
  ghost predicate Unsigned(t: Bytes, n: int) {
    n <= 0xffff_ffff_ffff_ffff
    && exists sign: Bytes, digits: Bytes :: t == sign + digits && sign != [MINUS_SIGN] && Signed(sign, digits, n)
  }

  lemma SignSplits(sign: Bytes, digits: Bytes)
    requires sign == [PLUS_SIGN] || sign == [MINUS_SIGN]
    ensures (sign + digits)[0] == sign[0] && (sign + digits)[1..] == digits && sign + digits != []
  {
  }

  lemma SignedIsParsed(sign: Bytes, digits: Bytes, n: int)
    requires Signed(sign, digits, n)
    ensures I64_MIN <= n <= I64_MAX ==> ParseI64(sign + digits) == Some(n)
    ensures sign != [MINUS_SIGN] && n <= U64_MAX ==> ParseU64(sign + digits) == Some(n)
  {
    hide Value;
    if sign == [] {
      assert sign + digits == digits;
      assert IsDigit(digits[0]);
    } else {
      SignSplits(sign, digits);
    }
  }

  lemma ParsedIsNumeral(t: Bytes)
    ensures ParseI64(t).Some? ==> Numeral(t, ParseI64(t).value)
    ensures ParseU64(t).Some? ==> Unsigned(t, ParseU64(t).value)
  {
    var signed := t != [] && (t[0] == MINUS_SIGN || t[0] == PLUS_SIGN);
    var sign, digits := if signed then [t[0]] else [], if signed then t[1..] else t;
    assert t == sign + digits;
    if ParseI64(t).Some? {
      assert Signed(sign, digits, ParseI64(t).value);
    }
    if ParseU64(t).Some? {
      assert Signed(sign, digits, ParseU64(t).value);
    }
  }

  /** A text parses as a signed number exactly when it is a numeral for it. */
  lemma ParseI64Iff(t: Bytes, n: int)
    ensures ParseI64(t) == Some(n) <==> Numeral(t, n)
  {
    hide ParseI64, ParseU64;
    ParsedIsNumeral(t);
    if Numeral(t, n) {
      var sign: Bytes, digits: Bytes :| t == sign + digits && Signed(sign, digits, n);
      SignedIsParsed(sign, digits, n);
    }
  }

  lemma ParseU64Iff(t: Bytes, n: int)
    ensures ParseU64(t) == Some(n) <==> Unsigned(t, n)
  {
    hide ParseI64, ParseU64;
    ParsedIsNumeral(t);
    if Unsigned(t, n) {
      var sign: Bytes, digits: Bytes :| t == sign + digits && sign != [MINUS_SIGN] && Signed(sign, digits, n);
      SignedIsParsed(sign, digits, n);
    }
  }

  lemma NumeralIsPlain(t: Bytes, n: int)
    requires Numeral(t, n)
    ensures ParseI64(t) == Some(n) && t != [] && IsDigit(t[|t| - 1])
    ensures forall i :: 0 <= i < |t| ==> t[i] < 128 && t[i] != LF && t[i] != CR
  {
    hide ParseI64;
    ParseI64Iff(t, n);
    var sign: Bytes, digits: Bytes :| t == sign + digits && Signed(sign, digits, n);
    assert t[|t| - 1] == digits[|digits| - 1];
    ParsedIsPlain(t);
  }
}
