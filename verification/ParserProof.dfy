/** The client's parser depends only on the bytes it consumes, so it reads a prefix-free code; and
    it reads back whatever the server prints. */
module ParserProof {
  import opened Basics
  import opened Decimal
  import opened Resp
  import opened Client
  import Utf8

  // ---------- Locality

  lemma ReadLineLocal(b: Bytes, i: nat, c: Bytes, j: nat, n: nat)
    requires ReadLine(b, i).Got? && ReadLine(b, i).next <= i + n && Same(b, i, c, j, n)
    ensures ReadLine(c, j) == Got(ReadLine(b, i).value, j + (ReadLine(b, i).next - i))
  {
    var e := FindLf(b, i);
    SamePart(b, i, c, j, n, 0, e - 1 - i);
    SameByte(b, i, c, j, n, e - 1 - i);
    FindLfSame(b, i, c, j, n);
  }

  lemma ParseBulkLocal(b: Bytes, i: nat, c: Bytes, j: nat)
    requires ParseBulk(b, i).Got? && Same(b, i, c, j, ParseBulk(b, i).next - i)
    ensures ParseBulk(c, j) == Got(ParseBulk(b, i).value, j + (ParseBulk(b, i).next - i))
  {
    hide Same, ReadLine, ParseLength;
    var n := ParseBulk(b, i).next - i;
    ReadLineLocal(b, i, c, j, n);
    var len := ReadLength(b, i);
    if len.value >= 0 {
      var off := len.next - i;
      SamePart(b, i, c, j, n, off, len.value);
      SameByte(b, i, c, j, n, off + len.value);
      SameByte(b, i, c, j, n, off + len.value + 1);
    }
  }

  lemma ParseScalarLocal(b: Bytes, i: nat, c: Bytes, j: nat)
    requires i < |b| && j < |c| && ParseScalar(b, i).Got?
    requires Same(b, i, c, j, ParseScalar(b, i).next - i)
    ensures ParseScalar(c, j) == Got(ParseScalar(b, i).value, j + (ParseScalar(b, i).next - i))
  {
    hide Same, ReadLine, ParseBulk, ParseLength;
    var n := ParseScalar(b, i).next - i;
    SameByte(b, i, c, j, n, 0);
    SamePart(b, i, c, j, n, 1, n - 1);
    if b[i] == DOLLAR {
      ParseBulkLocal(b, i + 1, c, j + 1);
    } else {
      ReadLineLocal(b, i + 1, c, j + 1, n - 1);
    }
  }

  /** The same bytes at any place of any buffer parse to the same value over the same length. */
  lemma {:induction false} ParseValueLocal(b: Bytes, i: nat, c: Bytes, j: nat)
    requires ParseValue(b, i).Got? && Same(b, i, c, j, ParseValue(b, i).next - i)
    ensures ParseValue(c, j) == Got(ParseValue(b, i).value, j + (ParseValue(b, i).next - i))
    decreases |b| - i, 0
  {
    hide Same, ParseScalar, ParseItems, ReadLine, ParseLength;
    var n := ParseValue(b, i).next - i;
    SameByte(b, i, c, j, n, 0);
    if b[i] != STAR {
      ParseScalarLocal(b, i, c, j);
    } else {
      SamePart(b, i, c, j, n, 1, n - 1);
      ReadLineLocal(b, i + 1, c, j + 1, n - 1);
      var len := ReadLength(b, i + 1);
      var count := CheckedArrayLen(len.value).value;
      if count.Some? {
        var off := len.next - i;
        SamePart(b, i, c, j, n, off, n - off);
        ParseItemsLocal(b, len.next, count.value, c, j + off);
      }
    }
  }

  lemma {:induction false} ParseItemsLocal(b: Bytes, i: nat, k: nat, c: Bytes, j: nat)
    requires ParseItems(b, i, k).Got? && Same(b, i, c, j, ParseItems(b, i, k).next - i)
    ensures ParseItems(c, j, k) == Got(ParseItems(b, i, k).value, j + (ParseItems(b, i, k).next - i))
    decreases |b| - i, k
  {
    hide Same, ParseValue;
    if k > 0 {
      var n := ParseItems(b, i, k).next - i;
      var v := ParseValue(b, i);
      var off := v.next - i;
      SamePart(b, i, c, j, n, 0, off);
      ParseValueLocal(b, i, c, j);
      SamePart(b, i, c, j, n, off, n - off);
      ParseItemsLocal(b, v.next, k - 1, c, j + off);
    }
  }

  /** No accepted encoding is a proper prefix of another. */
  lemma EncodingsArePrefixFree(x: Bytes, y: Bytes)
    requires x <= y && ParseFrame(x).Got? && ParseFrame(y).Got?
    ensures x == y
  {
    assert x[0..|x|] == y[0..|x|];
    ParseValueLocal(x, 0, y, 0);
  }

  // ---------- Round trip

  lemma ReadLineAt(b: Bytes, i: nat, line: Bytes)
    requires At(b, i, line + CRLF) && LF !in line
    ensures ReadLine(b, i) == Got(line, i + |line| + 2)
  {
    var s := line + CRLF;
    var e := i + |line| + 1;
    assert forall k :: i <= k < i + |s| ==> b[k] == s[k - i];
    assert b[e] == LF && b[e - 1] == CR;
    FindLfIs(b, i, e);
    AtSplit(b, i, line, CRLF);
  }

  lemma {:induction false} FindLfIs(b: Bytes, i: nat, e: nat)
    requires i <= e < |b| && b[e] == LF && forall k :: i <= k < e ==> b[k] != LF
    ensures FindLf(b, i) == e
    decreases e - i
  {
    if i < e {
      FindLfIs(b, i + 1, e);
    }
  }

  lemma ReadTextAt(b: Bytes, i: nat, text: Bytes)
    requires At(b, i, text + CRLF) && Utf8.Valid(text) && LF !in text
    ensures ReadText(b, i) == Got(text, i + |text| + 2)
  {
    ReadLineAt(b, i, text);
  }

  lemma ReadLengthAt(b: Bytes, i: nat, n: i64)
    requires At(b, i, PrintI64(n) + CRLF)
    ensures ReadLength(b, i) == Got(n, i + |PrintI64(n)| + 2)
  {
    var s := PrintI64(n);
    assert LF !in s;
    ReadLineAt(b, i, s);
    ParsePrintI64(n);
    ParsedIsPlain(s);
    Utf8.AsciiIsValid(s);
    assert TrimLineEnd(s) == s;
  }

  lemma HeaderAt(b: Bytes, i: nat, prefix: byte, n: nat, body: Bytes)
    requires At(b, i, Header(prefix, n) + body) && n <= I64_MAX
    ensures i < |b| && b[i] == prefix
    ensures var h := i + |Header(prefix, n)|;
            ReadLength(b, i + 1) == Got(n, h) && At(b, h, body)
  {
    hide At, ReadLength;
    var line := PrintI64(n) + CRLF;
    AtSplit(b, i, Header(prefix, n), body);
    assert Header(prefix, n) == [prefix] + line;
    AtHead(b, i, prefix, line);
    ReadLengthAt(b, i + 1, n);
  }

  lemma LineTextAt(b: Bytes, i: nat, prefix: byte, text: Bytes)
    requires At(b, i, [prefix] + text + CRLF) && Utf8.Valid(text) && LF !in text
    ensures i < |b| && b[i] == prefix
    ensures ReadText(b, i + 1) == Got(text, i + |text| + 3)
  {
    hide At, ReadText;
    assert [prefix] + text + CRLF == [prefix] + (text + CRLF);
    AtHead(b, i, prefix, text + CRLF);
    ReadTextAt(b, i + 1, text);
  }

  lemma NumberAt(b: Bytes, i: nat, prefix: byte, n: i64)
    requires At(b, i, [prefix] + PrintI64(n) + CRLF)
    ensures i < |b| && b[i] == prefix
    ensures ReadLength(b, i + 1) == Got(n, i + |PrintI64(n)| + 3)
  {
    hide At, ReadLength;
    assert [prefix] + PrintI64(n) + CRLF == [prefix] + (PrintI64(n) + CRLF);
    AtHead(b, i, prefix, PrintI64(n) + CRLF);
    ReadLengthAt(b, i + 1, n);
  }

  lemma BulkAt(b: Bytes, i: nat, s: Bytes)
    requires At(b, i, EncodeValue(Bulk(s))) && WellFormed(Bulk(s))
    ensures i < |b| && b[i] == DOLLAR
    ensures ParseBulk(b, i + 1) == Got(Bulk(s), i + |EncodeValue(Bulk(s))|)
  {
    hide At, ReadLength, Header;
    HeaderAt(b, i, DOLLAR, |s|, s + CRLF);
    PayloadAt(b, i + |Header(DOLLAR, |s|)|, s);
  }

  lemma NilAt(b: Bytes, i: nat)
    requires At(b, i, EncodeValue(Nil))
    ensures i < |b| && b[i] == DOLLAR
    ensures ParseBulk(b, i + 1) == Got(Nil, i + |EncodeValue(Nil)|)
  {
    hide ReadLength;
    NumberAt(b, i, DOLLAR, -1);
  }

  lemma ParseScalarAt(b: Bytes, i: nat, v: RespValue)
    requires At(b, i, EncodeValue(v)) && WellFormed(v) && !v.Array?
    ensures i < |b| && b[i] != STAR
    ensures ParseScalar(b, i) == Got(Normal(v), i + |EncodeValue(v)|)
  {
    hide At, ReadText, ReadLength, ParseBulk, SanitizeSingleLine, EscapeLines, PrintI64, Header, Ascii;
    EscapedLetters();
    match v
    case Simple(s) =>
      SanitizeIsEscape(s);
      SanitizeKeepsUtf8(s);
      SanitizedIsOneLine(s);
      LineTextAt(b, i, PLUS, SanitizeSingleLine(s));
    case Error(s) =>
      SanitizeIsEscape(s);
      SanitizeKeepsUtf8(s);
      SanitizedIsOneLine(s);
      Utf8.AsciiIsValid(ERR_PREFIX);
      Utf8.ValidConcat(ERR_PREFIX, SanitizeSingleLine(s));
      LineTextAt(b, i, MINUS, ERR_PREFIX + SanitizeSingleLine(s));
    case Integer(n) =>
      NumberAt(b, i, COLON, n);
    case Nil =>
      NilAt(b, i);
    case Bulk(s) =>
      BulkAt(b, i, s);
  }

  /** Wherever an encoded value lies, the parser reads it back, normalised, to its last byte. */
  lemma {:induction false} ParseEncoded(v: RespValue, b: Bytes, i: nat)
    requires At(b, i, EncodeValue(v)) && WellFormed(v)
    ensures ParseValue(b, i) == Got(Normal(v), i + |EncodeValue(v)|)
    decreases v
  {
    hide At, ParseScalar, ReadLength, Header;
    if v.Array? {
      HeaderAt(b, i, STAR, |v.items|, EncodeValues(v.items));
      ParseEncodedItems(v.items, b, i + |Header(STAR, |v.items|)|);
    } else {
      ParseScalarAt(b, i, v);
    }
  }

  lemma {:induction false} ParseEncodedItems(vs: seq<RespValue>, b: Bytes, i: nat)
    requires At(b, i, EncodeValues(vs)) && AllWellFormed(vs)
    ensures ParseItems(b, i, |vs|) == Got(Normals(vs), i + |EncodeValues(vs)|)
    decreases vs
  {
    hide At, ParseValue, Normal, EncodeValue, WellFormed;
    if vs != [] {
      AtSplit(b, i, EncodeValue(vs[0]), EncodeValues(vs[1..]));
      ParseEncoded(vs[0], b, i);
      ParseEncodedItems(vs[1..], b, i + |EncodeValue(vs[0])|);
    }
  }
}
