/** RESP2 values and the server's printer (src/protocol/resp.rs). */
module Resp {
  import opened Basics
  import opened Decimal
  import Utf8

  datatype RespValue =
    | Simple(text: Bytes)
    | Error(text: Bytes)
    | Integer(n: i64)
    | Bulk(text: Bytes)
    | Array(items: seq<RespValue>)
    | Nil

  const PLUS: byte := 43
  const MINUS: byte := 45
  const COLON: byte := 58
  const DOLLAR: byte := 36
  const STAR: byte := 42

  const MAX_ARRAY_LEN := 1_000_000
  const MAX_BULK_LEN := 512 * 1024 * 1024

  const ESCAPED_CR: Bytes := [92, 114]
  const ESCAPED_LF: Bytes := [92, 110]
  const ERR_PREFIX: Bytes := [69, 82, 82, 32]

  function SanitizeSingleLine(s: Bytes): Bytes {
    Replace(Replace(s, CR, ESCAPED_CR), LF, ESCAPED_LF)
  }

  function Header(prefix: byte, n: nat): Bytes {
    [prefix] + PrintNat(n) + CRLF
  }

  function EncodeValue(v: RespValue): Bytes
    decreases v
  {
    match v
    case Simple(s) => [PLUS] + SanitizeSingleLine(s) + CRLF
    case Error(s) => [MINUS] + (ERR_PREFIX + SanitizeSingleLine(s)) + CRLF
    case Integer(n) => [COLON] + PrintI64(n) + CRLF
    case Bulk(s) => Header(DOLLAR, |s|) + (s + CRLF)
    case Array(items) => Header(STAR, |items|) + EncodeValues(items)
    case Nil => [DOLLAR] + PrintI64(-1) + CRLF
  }

  /** `encode_resp_values` of src/connection.rs, and the body of an array. */
  function EncodeValues(vs: seq<RespValue>): Bytes
    decreases vs
  {
    if vs == [] then [] else EncodeValue(vs[0]) + EncodeValues(vs[1..])
  }

  /** What a `RespValue` of the program is: UTF-8 texts no longer than a Rust allocation can be,
      and arrays no larger than either reader takes. */
  predicate WellFormed(v: RespValue)
    decreases v
  {
    match v
    case Simple(s) => Utf8.Valid(s)
    case Error(s) => Utf8.Valid(s)
    case Integer(_) => true
    case Bulk(s) => Utf8.Valid(s) && |s| <= I64_MAX
    case Array(items) => |items| <= 1_000_000 && AllWellFormed(items)
    case Nil => true
  }

  predicate AllWellFormed(vs: seq<RespValue>)
    decreases vs
  {
    vs == [] || (WellFormed(vs[0]) && AllWellFormed(vs[1..]))
  }

  /** Every carriage return and line feed written as a backslash and a letter. */
  function EscapeLines(s: Bytes): Bytes {
    if s == [] then []
    else (if s[0] == 13 then Ascii("\\r") else if s[0] == 10 then Ascii("\\n") else [s[0]]) + EscapeLines(s[1..])
  }

  /** What is left of a value after printing: line texts are escaped and errors gain their prefix. */
  function Normal(v: RespValue): RespValue
    decreases v
  {
    match v
    case Simple(s) => Simple(EscapeLines(s))
    case Error(s) => Error(Ascii("ERR ") + EscapeLines(s))
    case Array(items) => Array(Normals(items))
    case _ => v
  }

  function Normals(vs: seq<RespValue>): (r: seq<RespValue>)
    ensures |r| == |vs|
    decreases vs
  {
    if vs == [] then [] else [Normal(vs[0])] + Normals(vs[1..])
  }

  // ---------- Sanitizing

  lemma {:induction false} ReplaceSkips(s: Bytes, c: byte, with: Bytes, n: nat)
    requires n <= |s| && forall k :: 0 <= k < n ==> s[k] != c
    ensures Replace(s, c, with) == s[..n] + Replace(s[n..], c, with)
  {
    if n > 0 {
      ReplaceSkips(s[1..], c, with, n - 1);
      assert s[..n] == [s[0]] + s[1..][..n - 1];
      assert s[1..][n - 1..] == s[n..];
    } else {
      assert s[n..] == s;
    }
  }

  lemma {:induction false} ReplaceKeepsUtf8(s: Bytes, c: byte, with: Bytes)
    requires Utf8.Valid(s) && Utf8.Valid(with) && c < 128
    ensures Utf8.Valid(Replace(s, c, with))
  {
    if s != [] {
      var n := Utf8.HeadLen(s);
      ReplaceKeepsUtf8(s[n..], c, with);
      var rest := Replace(s[n..], c, with);
      if s[0] == c {
        Utf8.ValidConcat(with, rest);
      } else {
        ReplaceSkips(s, c, with, n);
        assert Utf8.HeadLen(s[..n]) == n;
        Utf8.ValidConcat(s[..n], rest);
      }
    }
  }

  lemma SanitizeKeepsUtf8(s: Bytes)
    requires Utf8.Valid(s)
    ensures Utf8.Valid(SanitizeSingleLine(s))
  {
    Utf8.AsciiIsValid(ESCAPED_CR);
    Utf8.AsciiIsValid(ESCAPED_LF);
    ReplaceKeepsUtf8(s, CR, ESCAPED_CR);
    ReplaceKeepsUtf8(Replace(s, CR, ESCAPED_CR), LF, ESCAPED_LF);
  }

  lemma {:induction false} ReplaceRemoves(s: Bytes, c: byte, with: Bytes, d: byte)
    requires c !in with && d !in with && (d == c || d !in s)
    ensures d !in Replace(s, c, with)
  {
    if s != [] {
      ReplaceRemoves(s[1..], c, with, d);
    }
  }

  lemma {:induction false} ReplaceAbsent(s: Bytes, c: byte, with: Bytes)
    requires c !in s
    ensures Replace(s, c, with) == s
  {
    ReplaceSkips(s, c, with, |s|);
  }

  /** The two replacements in a row are one escape per byte. */
  lemma {:induction false} SanitizeIsEscape(s: Bytes)
    ensures SanitizeSingleLine(s) == EscapeLines(s)
  {
    if s != [] {
      var head := if s[0] == CR then ESCAPED_CR else [s[0]];
      EscapedLetters();
      SanitizeIsEscape(s[1..]);
      ReplaceConcat(head, Replace(s[1..], CR, ESCAPED_CR), LF, ESCAPED_LF);
      if s[0] == LF {
        assert Replace([s[0]], LF, ESCAPED_LF) == ESCAPED_LF + [];
      } else {
        ReplaceAbsent(head, LF, ESCAPED_LF);
      }
    }
  }

  lemma EscapedLetters()
    ensures ESCAPED_CR == Ascii("\\r") && ESCAPED_LF == Ascii("\\n") && ERR_PREFIX == Ascii("ERR ")
  {
  }

  /** A printed line text never breaks the line it is on. */
  lemma SanitizedIsOneLine(s: Bytes)
    ensures CR !in SanitizeSingleLine(s) && LF !in SanitizeSingleLine(s)
  {
    var t := Replace(s, CR, ESCAPED_CR);
    ReplaceRemoves(s, CR, ESCAPED_CR, CR);
    ReplaceRemoves(t, LF, ESCAPED_LF, CR);
    ReplaceRemoves(t, LF, ESCAPED_LF, LF);
  }

  /** Sanitizing changes nothing exactly on texts that were one line already. */
  lemma SanitizeIsIdentityIff(s: Bytes)
    ensures SanitizeSingleLine(s) == s <==> CR !in s && LF !in s
  {
    SanitizedIsOneLine(s);
    if CR !in s && LF !in s {
      ReplaceAbsent(s, CR, ESCAPED_CR);
      ReplaceAbsent(s, LF, ESCAPED_LF);
    }
  }
}
