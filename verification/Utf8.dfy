/** Well-formed UTF-8 (RFC 3629, section 4) and the facts the codec needs about it. */
module Utf8 {
  import opened Basics

  predicate Tail(b: byte) { 0x80 <= b <= 0xBF }

  /** The length of the well-formed character at the head of `s`, 0 when there is none. */
  function HeadLen(s: Bytes): (n: nat)
    ensures n <= |s| && n <= 4
  {
    if s == [] then 0
    else if s[0] <= 0x7F then 1
    else if 0xC2 <= s[0] <= 0xDF then
      if |s| >= 2 && Tail(s[1]) then 2 else 0
    else if 0xE0 <= s[0] <= 0xEF then
      if |s| >= 3 && Tail(s[1]) && Tail(s[2])
         && (s[0] == 0xE0 ==> s[1] >= 0xA0) && (s[0] == 0xED ==> s[1] <= 0x9F) then 3 else 0
    else if 0xF0 <= s[0] <= 0xF4 then
      if |s| >= 4 && Tail(s[1]) && Tail(s[2]) && Tail(s[3])
         && (s[0] == 0xF0 ==> s[1] >= 0x90) && (s[0] == 0xF4 ==> s[1] <= 0x8F) then 4 else 0
    else 0
  }

  /** `std::str::from_utf8(s).is_ok()`. */
  predicate Valid(s: Bytes) {
    s == [] || (HeadLen(s) > 0 && Valid(s[HeadLen(s)..]))
  }

  lemma HeadLenOfConcat(s: Bytes, t: Bytes)
    requires HeadLen(s) > 0
    ensures HeadLen(s + t) == HeadLen(s)
  {
    var u := s + t;
    assert u[0] == s[0];
    assert |s| >= 2 ==> u[1] == s[1];
    assert |s| >= 3 ==> u[2] == s[2];
    assert |s| >= 4 ==> u[3] == s[3];
  }

  lemma {:induction false} ValidConcat(s: Bytes, t: Bytes)
    requires Valid(s) && Valid(t)
    ensures Valid(s + t)
  {
    hide HeadLen;
    if s == [] {
      assert s + t == t;
    } else {
      var n := HeadLen(s);
      HeadLenOfConcat(s, t);
      ValidConcat(s[n..], t);
      assert (s + t)[n..] == s[n..] + t;
    }
  }

  lemma {:induction false} AsciiIsValid(s: Bytes)
    requires forall i :: 0 <= i < |s| ==> s[i] < 128
    ensures Valid(s)
  {
    if s != [] {
      AsciiIsValid(s[1..]);
    }
  }

  // ---------- What is well-formed

  /** A Unicode scalar value. */
  type Scalar = c: int | 0 <= c <= 0xD7FF || 0xE000 <= c <= 0x10FFFF

  /** The table of RFC 3629, section 3. */
  function EncodeScalar(c: Scalar): (s: Bytes)
    ensures 1 <= |s| <= 4
  {
    var n: nat := c;
    if n <= 0x7F then Encode1(n) else if n <= 0x7FF then Encode2(n) else if n <= 0xFFFF then Encode3(n) else Encode4(n)
  }

  function Encode1(n: nat): Bytes
    requires n <= 0x7F
  {
    [n]
  }

  function Encode2(n: nat): Bytes
    requires n <= 0x7FF
  {
    [0xC0 + n / 64, 0x80 + n % 64]
  }

  function Encode3(n: nat): Bytes
    requires n <= 0xFFFF
  {
    [0xE0 + n / 4096, 0x80 + n / 64 % 64, 0x80 + n % 64]
  }

  function Encode4(n: nat): Bytes
    requires n <= 0x10FFFF
  {
    [0xF0 + n / 262144, 0x80 + n / 4096 % 64, 0x80 + n / 64 % 64, 0x80 + n % 64]
  }

  function EncodeScalars(cs: seq<Scalar>): Bytes {
    if cs == [] then [] else EncodeScalar(cs[0]) + EncodeScalars(cs[1..])
  }

  /** The scalar value at the head of a text. */
  lemma HeadIsEncoded(s: Bytes) returns (c: Scalar)
    requires HeadLen(s) > 0
    ensures s[..HeadLen(s)] == EncodeScalar(c)
  {
    var a: int := s[0];
    if HeadLen(s) == 1 {
      c := a;
    } else if HeadLen(s) == 2 {
      var b: int := s[1];
      c := (a - 0xC0) * 64 + (b - 0x80);
      assert s[..2] == Encode2(c);
    } else if HeadLen(s) == 3 {
      c := HeadOfThree(s[0], s[1], s[2]);
      assert s[..3] == [s[0], s[1], s[2]];
    } else {
      c := HeadOfFour(s[0], s[1], s[2], s[3]);
      assert s[..4] == [s[0], s[1], s[2], s[3]];
    }
  }

  lemma HeadOfThree(x: byte, y: byte, z: byte) returns (c: Scalar)
    requires HeadLen([x, y, z]) == 3
    ensures 0x7FF < c <= 0xFFFF && Encode3(c) == [x, y, z]
  {
    var i: int, j: int, k: int := x, y, z;
    c := (i - 0xE0) * 4096 + (j - 0x80) * 64 + (k - 0x80);
    assert c / 64 == (i - 0xE0) * 64 + (j - 0x80);
  }

  lemma HeadOfFour(x: byte, y: byte, z: byte, u: byte) returns (c: Scalar)
    requires HeadLen([x, y, z, u]) == 4
    ensures 0xFFFF < c <= 0x10FFFF && Encode4(c) == [x, y, z, u]
  {
    var i: int, j: int, k: int, l: int := x, y, z, u;
    c := (i - 0xF0) * 262144 + (j - 0x80) * 4096 + (k - 0x80) * 64 + (l - 0x80);
    assert c / 64 == (i - 0xF0) * 4096 + (j - 0x80) * 64 + (k - 0x80);
    assert c / 4096 == (i - 0xF0) * 64 + (j - 0x80);
  }

  lemma EncodedIsHead(c: Scalar)
    ensures HeadLen(EncodeScalar(c)) == |EncodeScalar(c)|
  {
    if 0x7FF < c <= 0xFFFF {
      ThreeIsHead(c);
    } else if 0xFFFF < c {
      FourIsHead(c);
    }
  }

  lemma ThreeIsHead(n: nat)
    requires 0x7FF < n <= 0xD7FF || 0xE000 <= n <= 0xFFFF
    ensures HeadLen(Encode3(n)) == 3
  {
    var high, low := n / 4096, n / 64 % 64;
    assert n / 64 == high * 64 + low;
  }

  lemma FourIsHead(n: nat)
    requires 0xFFFF < n <= 0x10FFFF
    ensures HeadLen(Encode4(n)) == 4
  {
    var high, low := n / 262144, n / 4096 % 64;
    assert n / 4096 == high * 64 + low;
  }

  lemma {:induction false} EncodedIsValid(cs: seq<Scalar>)
    ensures Valid(EncodeScalars(cs))
  {
    hide HeadLen, EncodeScalar;
    if cs != [] {
      var x, rest := EncodeScalar(cs[0]), EncodeScalars(cs[1..]);
      EncodedIsHead(cs[0]);
      HeadLenOfConcat(x, rest);
      assert (x + rest)[|x|..] == rest;
      EncodedIsValid(cs[1..]);
    }
  }

  lemma {:induction false} ValidIsEncoded(s: Bytes) returns (cs: seq<Scalar>)
    requires Valid(s)
    ensures s == EncodeScalars(cs)
  {
    hide HeadLen, EncodeScalar;
    if s == [] {
      cs := [];
    } else {
      var c := HeadIsEncoded(s);
      var rest := ValidIsEncoded(s[HeadLen(s)..]);
      cs := [c] + rest;
      assert s == s[..HeadLen(s)] + s[HeadLen(s)..];
    }
  }

  /** The valid byte strings are exactly the encodings of sequences of scalar values. */
  lemma ValidIff(s: Bytes)
    ensures Valid(s) <==> exists cs :: s == EncodeScalars(cs)
  {
    hide EncodeScalars, Valid;
    if Valid(s) {
      var cs := ValidIsEncoded(s);
    }
    if cs :| s == EncodeScalars(cs) {
      EncodedIsValid(cs);
    }
  }
}
