/** Two grammars as relations between values and byte strings: RESP2 (simple strings, errors, integers,
    bulk strings and arrays), and the wider one that the client's parser accepts; and the proofs that
    the parser reads exactly the wider one and that the server writes only the narrower. */
module Grammar {
  import opened Basics
  import opened Decimal
  import opened Resp
  import opened Client
  import opened ParserProof
  import FramerProof
  import Utf8

  datatype Dialect = Resp2 | Lenient

  predicate AllCr(s: Bytes) { forall i :: 0 <= i < |s| ==> s[i] == CR }

  /** `d` is a line that stands for the number `n`: carriage returns behind the number are let
      through. */
  ghost predicate NumberLine(d: Bytes, n: int) {
    exists t: Bytes, behind: Bytes :: d == t + behind && Numeral(t, n) && AllCr(behind)
  }

  ghost predicate IntegerLine(g: Dialect, d: Bytes, n: int) { NumberLine(d, n) && (g.Resp2? ==> CR !in d) }

  /** A length has no sign and no zero in front, and -1 is written so. */
  ghost predicate LengthLine(g: Dialect, d: Bytes, n: int) { NumberLine(d, n) && (g.Resp2? ==> d == PrintI64(n)) }

  ghost predicate TextLine(g: Dialect, t: Bytes) { LF !in t && Utf8.Valid(t) && (g.Resp2? ==> CR !in t) }

  function Line(prefix: byte, text: Bytes): Bytes { [prefix] + text + CRLF }

  /** `s` spells the value `v`. */
  ghost predicate Spells(g: Dialect, v: RespValue, s: Bytes)
    decreases v
  {
    match v
    case Simple(t) => TextLine(g, t) && s == Line(PLUS, t)
    case Error(t) => TextLine(g, t) && s == Line(MINUS, t)
    case Integer(n) => exists d :: IntegerLine(g, d, n) && s == Line(COLON, d)
    case Bulk(t) => Utf8.Valid(t) && exists d :: LengthLine(g, d, |t|) && s == Line(DOLLAR, d) + (t + CRLF)
    case Nil => exists d :: LengthLine(g, d, -1) && (s == Line(DOLLAR, d) || s == Line(STAR, d))
    case Array(items) =>
      |items| <= MAX_ARRAY_LEN
      && exists d, body :: LengthLine(g, d, |items|) && s == Line(STAR, d) + body && SpellsAll(g, items, body)
  }

  ghost predicate SpellsAll(g: Dialect, vs: seq<RespValue>, s: Bytes)
    decreases vs
  {
    if vs == [] then s == []
    else exists x, y :: s == x + y && Spells(g, vs[0], x) && SpellsAll(g, vs[1..], y)
  }

  // ---------- Number lines

  lemma {:induction false} TrimStops(t: Bytes, behind: Bytes)
    requires t != [] && IsDigit(t[|t| - 1]) && AllCr(behind)
    ensures TrimLineEnd(t + behind) == t
  {
    if behind == [] {
      assert t + behind == t;
    } else {
      var n := |behind| - 1;
      assert (t + behind)[..|t| + n] == t + behind[..n];
      TrimStops(t, behind[..n]);
    }
  }

  lemma {:induction false} TrimDrops(d: Bytes)
    ensures TrimLineEnd(d) <= d
    ensures forall i :: |TrimLineEnd(d)| <= i < |d| ==> d[i] == CR || d[i] == LF
  {
    if d != [] && (d[|d| - 1] == CR || d[|d| - 1] == LF) {
      TrimDrops(d[..|d| - 1]);
    }
  }

  /** The number lines are what the parser reads as a length. */
  lemma NumberLineIff(d: Bytes, n: int)
    ensures NumberLine(d, n) <==> LF !in d && ParseLength(d) == Some(n)
  {
    hide Numeral, ParseI64;
    if NumberLine(d, n) {
      var t: Bytes, behind: Bytes :| d == t + behind && Numeral(t, n) && AllCr(behind);
      NumeralIsPlain(t, n);
      TrimStops(t, behind);
      Utf8.AsciiIsValid(d);
    }
    if LF !in d && ParseLength(d) == Some(n) {
      var t := TrimLineEnd(d);
      TrimDrops(d);
      ParsedIsNumeral(t);
      assert d == t + d[|t|..];
    }
  }

  lemma PrintedIsNumberLine(n: i64)
    ensures NumberLine(PrintI64(n), n) && CR !in PrintI64(n)
  {
    ParsePrintI64(n);
    ParsedIsPlain(PrintI64(n));
    ParsedIsNumeral(PrintI64(n));
    assert PrintI64(n) == PrintI64(n) + [];
  }

  // ---------- Which accepted frames are RESP2

  /** The parser reads a value at `i`, and what RESP2 asks of its lines holds: no carriage return in a
      text or an integer, no sign and no zero in front of a length. */
  predicate Strict(b: Bytes, i: nat)
    requires ParseValue(b, i).Got?
    decreases |b| - i, 0
  {
    var line := ReadLine(b, i + 1).value;
    if b[i] == DOLLAR then line == PrintI64(ParseLength(line).value)
    else if b[i] != STAR then CR !in line
    else
      var header := ReadLength(b, i + 1);
      && line == PrintI64(header.value)
      && (header.value >= 0 ==> StrictItems(b, header.next, header.value))
  }

  predicate StrictItems(b: Bytes, i: nat, k: nat)
    requires ParseItems(b, i, k).Got?
    decreases |b| - i, k
  {
    k == 0 || (Strict(b, i) && StrictItems(b, ParseValue(b, i).next, k - 1))
  }

  // ---------- Whatever is spelled is parsed

  /** The text of a line, and the line as the parser reads it. */
  lemma LineAt(b: Bytes, i: nat, prefix: byte, d: Bytes)
    requires At(b, i, Line(prefix, d)) && LF !in d
    ensures i < |b| && b[i] == prefix && ReadLine(b, i + 1) == Got(d, i + |Line(prefix, d)|)
  {
    hide At;
    assert Line(prefix, d) == [prefix] + (d + CRLF);
    AtHead(b, i, prefix, d + CRLF);
    ReadLineAt(b, i + 1, d);
  }

  lemma NumberLineAt(b: Bytes, i: nat, prefix: byte, d: Bytes, n: int)
    requires At(b, i, Line(prefix, d)) && NumberLine(d, n)
    ensures i < |b| && b[i] == prefix && ReadLine(b, i + 1) == Got(d, i + |Line(prefix, d)|) && ParseLength(d) == Some(n)
    ensures ReadLength(b, i + 1) == Got(n, i + |Line(prefix, d)|)
  {
    hide At, ReadLine, ParseLength, NumberLine, Line;
    NumberLineIff(d, n);
    LineAt(b, i, prefix, d);
  }

  lemma BulkIsParsed(g: Dialect, t: Bytes, d: Bytes, b: Bytes, i: nat)
    requires LengthLine(g, d, |t|) && Utf8.Valid(t) && At(b, i, Line(DOLLAR, d) + (t + CRLF))
    ensures i < |b| && b[i] == DOLLAR
    ensures ParseValue(b, i) == Got(Bulk(t), i + |Line(DOLLAR, d) + (t + CRLF)|) && (g.Resp2? ==> Strict(b, i))
  {
    hide At, ReadLine, ParseLength, PrintI64, NumberLine, Line, Utf8.Valid;
    AtSplit(b, i, Line(DOLLAR, d), t + CRLF);
    NumberLineAt(b, i, DOLLAR, d, |t|);
    PayloadAt(b, i + |Line(DOLLAR, d)|, t);
  }

  lemma LineIsParsed(g: Dialect, v: RespValue, s: Bytes, b: Bytes, i: nat)
    requires Spells(g, v, s) && At(b, i, s) && (v.Simple? || v.Error? || v.Integer?)
    ensures ParseValue(b, i) == Got(v, i + |s|) && (g.Resp2? ==> Strict(b, i))
  {
    hide At, ReadLine, ParseLength, ParseBulk, NumberLine, Line;
    match v
    case Simple(t) => LineAt(b, i, PLUS, t);
    case Error(t) => LineAt(b, i, MINUS, t);
    case Integer(n) =>
      var d :| IntegerLine(g, d, n) && s == Line(COLON, d);
      NumberLineAt(b, i, COLON, d, n);
  }

  lemma NilIsParsed(g: Dialect, s: Bytes, b: Bytes, i: nat)
    requires Spells(g, Nil, s) && At(b, i, s)
    ensures ParseValue(b, i) == Got(Nil, i + |s|) && (g.Resp2? ==> Strict(b, i))
  {
    hide At, ReadLength, ReadLine, ParseLength, NumberLine, ParseItems, Line;
    var d :| LengthLine(g, d, -1) && (s == Line(DOLLAR, d) || s == Line(STAR, d));
    NumberLineAt(b, i, if s == Line(DOLLAR, d) then DOLLAR else STAR, d, -1);
  }

  lemma ArrayIsParsed(g: Dialect, items: seq<RespValue>, d: Bytes, body: Bytes, b: Bytes, i: nat)
    requires LengthLine(g, d, |items|) && |items| <= MAX_ARRAY_LEN && At(b, i, Line(STAR, d))
    requires var h := i + |Line(STAR, d)|;
             ParseItems(b, h, |items|) == Got(items, h + |body|) && (g.Resp2? ==> StrictItems(b, h, |items|))
    ensures ParseValue(b, i) == Got(Array(items), i + |Line(STAR, d) + body|) && (g.Resp2? ==> Strict(b, i))
  {
    hide At, ReadLength, ReadLine, ParseLength, NumberLine, ParseItems, StrictItems, ParseScalar, Line, PrintI64;
    NumberLineAt(b, i, STAR, d, |items|);
  }

  /** Whatever is spelled is parsed, wherever it stands. */
  lemma {:induction false} SpelledIsParsed(g: Dialect, v: RespValue, s: Bytes, b: Bytes, i: nat)
    requires Spells(g, v, s) && At(b, i, s)
    ensures ParseValue(b, i) == Got(v, i + |s|) && (g.Resp2? ==> Strict(b, i))
    decreases v
  {
    hide At, ReadLength, ReadLine, ParseLength, NumberLine, ParseItems, ParseScalar, Line;
    if v.Nil? {
      NilIsParsed(g, s, b, i);
    } else if v.Bulk? {
      var d :| LengthLine(g, d, |v.text|) && s == Line(DOLLAR, d) + (v.text + CRLF);
      BulkIsParsed(g, v.text, d, b, i);
    } else if v.Array? {
      var d, body :| LengthLine(g, d, |v.items|) && s == Line(STAR, d) + body && SpellsAll(g, v.items, body);
      AtSplit(b, i, Line(STAR, d), body);
      SpelledItemsAreParsed(g, v.items, body, b, i + |Line(STAR, d)|);
      ArrayIsParsed(g, v.items, d, body, b, i);
    } else {
      LineIsParsed(g, v, s, b, i);
    }
  }

  lemma {:induction false} SpelledItemsAreParsed(g: Dialect, vs: seq<RespValue>, s: Bytes, b: Bytes, i: nat)
    requires SpellsAll(g, vs, s) && At(b, i, s)
    ensures ParseItems(b, i, |vs|) == Got(vs, i + |s|) && (g.Resp2? ==> StrictItems(b, i, |vs|))
    decreases vs
  {
    hide At, ParseValue, Spells, Strict;
    if vs != [] {
      var x, y :| s == x + y && Spells(g, vs[0], x) && SpellsAll(g, vs[1..], y);
      AtSplit(b, i, x, y);
      SpelledIsParsed(g, vs[0], x, b, i);
      SpelledItemsAreParsed(g, vs[1..], y, b, i + |x|);
      OneMoreItem(g, b, i, vs);
    }
  }

  lemma OneMoreItem(g: Dialect, b: Bytes, i: nat, vs: seq<RespValue>)
    requires vs != [] && ParseValue(b, i).Got? && ParseValue(b, i).value == vs[0]
    requires var n := ParseValue(b, i).next;
             ParseItems(b, n, |vs| - 1).Got? && ParseItems(b, n, |vs| - 1).value == vs[1..]
    requires g.Resp2? ==> Strict(b, i) && StrictItems(b, ParseValue(b, i).next, |vs| - 1)
    ensures ParseItems(b, i, |vs|) == Got(vs, ParseItems(b, ParseValue(b, i).next, |vs| - 1).next)
    ensures g.Resp2? ==> StrictItems(b, i, |vs|)
  {
    hide ParseValue, Strict;
    assert vs == [vs[0]] + vs[1..];
  }

  // ---------- Whatever is parsed was spelled

  lemma LineWasRead(b: Bytes, i: nat)
    requires i < |b| && ReadLine(b, i + 1).Got?
    ensures var r := ReadLine(b, i + 1);
            LF !in r.value && b[i..r.next] == Line(b[i], r.value)
  {
    var r := ReadLine(b, i + 1);
    var e := r.next - 1;
    assert b[e] == LF && b[e - 1] == CR;
    assert b[i..e + 1] == [b[i]] + b[i + 1..e - 1] + [b[e - 1], b[e]];
  }

  lemma NumberWasRead(b: Bytes, i: nat)
    requires i < |b| && ReadLength(b, i + 1).Got?
    ensures var r := ReadLength(b, i + 1);
            && ReadLine(b, i + 1).Got? && ParseLength(ReadLine(b, i + 1).value) == Some(r.value)
            && NumberLine(ReadLine(b, i + 1).value, r.value) && b[i..r.next] == Line(b[i], ReadLine(b, i + 1).value)
  {
    hide ReadLine, NumberLine, ParseLength;
    LineWasRead(b, i);
    NumberLineIff(ReadLine(b, i + 1).value, ReadLength(b, i + 1).value);
  }

  lemma BulkWasSpelled(g: Dialect, b: Bytes, i: nat)
    requires i < |b| && b[i] == DOLLAR && ParseValue(b, i).Got? && (g.Resp2? ==> Strict(b, i))
    ensures Spells(g, ParseValue(b, i).value, b[i..ParseValue(b, i).next])
  {
    hide ReadLength, ReadLine, ParseLength, NumberLine, Line, PrintI64, Utf8.Valid, ParseItems, StrictItems;
    var r := ParseValue(b, i);
    NumberWasRead(b, i);
    var d := ReadLine(b, i + 1).value;
    var len := ReadLength(b, i + 1);
    assert LengthLine(g, d, len.value);
    if len.value >= 0 {
      var p := len.next + len.value;
      assert [b[p], b[p + 1]] == CRLF;
      assert b[i..r.next] == b[i..len.next] + (b[len.next..p] + [b[p], b[p + 1]]);
      assert |r.value.text| == len.value;
    }
  }

  lemma LineWasSpelled(g: Dialect, b: Bytes, i: nat)
    requires i < |b| && b[i] != DOLLAR && b[i] != STAR && ParseValue(b, i).Got? && (g.Resp2? ==> Strict(b, i))
    ensures Spells(g, ParseValue(b, i).value, b[i..ParseValue(b, i).next])
  {
    hide ReadLine, ParseLength, ParseBulk, NumberLine, Line;
    if b[i] == COLON {
      NumberWasRead(b, i);
      assert IntegerLine(g, ReadLine(b, i + 1).value, ParseValue(b, i).value.n);
    } else {
      LineWasRead(b, i);
    }
  }

  lemma {:induction false} ParsedWasSpelled(g: Dialect, b: Bytes, i: nat)
    requires ParseValue(b, i).Got? && (g.Resp2? ==> Strict(b, i))
    ensures Spells(g, ParseValue(b, i).value, b[i..ParseValue(b, i).next])
    decreases |b| - i, 0
  {
    hide ReadLength, ReadLine, ParseLength, ParseItems, ParseScalar, NumberLine, Line;
    if b[i] == DOLLAR {
      BulkWasSpelled(g, b, i);
    } else if b[i] != STAR {
      LineWasSpelled(g, b, i);
    } else {
      NumberWasRead(b, i);
      var header := ReadLength(b, i + 1);
      assert LengthLine(g, ReadLine(b, i + 1).value, header.value);
      var count := CheckedArrayLen(header.value).value;
      if count.Some? {
        ParsedItemsWereSpelled(g, b, header.next, count.value);
        var r := ParseItems(b, header.next, count.value);
        assert b[i..r.next] == b[i..header.next] + b[header.next..r.next];
      }
    }
  }

  lemma {:induction false} ParsedItemsWereSpelled(g: Dialect, b: Bytes, i: nat, k: nat)
    requires i <= |b| && ParseItems(b, i, k).Got? && (g.Resp2? ==> StrictItems(b, i, k))
    ensures SpellsAll(g, ParseItems(b, i, k).value, b[i..ParseItems(b, i, k).next])
    decreases |b| - i, k
  {
    hide ParseValue, Spells, Strict;
    if k == 0 {
      assert b[i..i] == [];
    } else {
      var v := ParseValue(b, i);
      var rest := ParseItems(b, v.next, k - 1);
      ParsedWasSpelled(g, b, i);
      ParsedItemsWereSpelled(g, b, v.next, k - 1);
      assert b[i..rest.next] == b[i..v.next] + b[v.next..rest.next];
      assert ([v.value] + rest.value)[1..] == rest.value;
    }
  }

  /** A frame parses to a value exactly when it spells that value in the wider grammar, so no bytes
      spell two; and it is RESP2 exactly when its lines are besides as RESP2 asks. */
  lemma ParserReadsTheGrammar(s: Bytes, v: RespValue)
    ensures ParseFrame(s) == Got(v, |s|) <==> Spells(Lenient, v, s)
    ensures ParseFrame(s) == Got(v, |s|) && Strict(s, 0) <==> Spells(Resp2, v, s)
  {
    hide ParseValue, Spells, Strict;
    assert s[0..|s|] == s;
    forall g: Dialect | Spells(g, v, s)
      ensures ParseFrame(s) == Got(v, |s|) && (g.Resp2? ==> Strict(s, 0))
    {
      SpelledIsParsed(g, v, s, s, 0);
    }
    if ParseFrame(s) == Got(v, |s|) {
      ParsedWasSpelled(Lenient, s, 0);
      if Strict(s, 0) {
        ParsedWasSpelled(Resp2, s, 0);
      }
    }
  }

  // ---------- The server writes RESP2

  lemma TextIsResp2(s: Bytes)
    requires Utf8.Valid(s)
    ensures EscapeLines(s) == SanitizeSingleLine(s) && ERR_PREFIX == Ascii("ERR ")
    ensures TextLine(Resp2, SanitizeSingleLine(s)) && TextLine(Resp2, ERR_PREFIX + SanitizeSingleLine(s))
  {
    hide SanitizeSingleLine, EscapeLines, Utf8.Valid, Ascii;
    EscapedLetters();
    SanitizeIsEscape(s);
    SanitizeKeepsUtf8(s);
    SanitizedIsOneLine(s);
    Utf8.AsciiIsValid(ERR_PREFIX);
    Utf8.ValidConcat(ERR_PREFIX, SanitizeSingleLine(s));
  }

  lemma NumberIsResp2(n: i64)
    ensures IntegerLine(Resp2, PrintI64(n), n) && LengthLine(Resp2, PrintI64(n), n)
  {
    PrintedIsNumberLine(n);
  }

  lemma ScalarIsResp2(v: RespValue)
    requires WellFormed(v) && !v.Array?
    ensures Spells(Resp2, Normal(v), EncodeValue(v))
  {
    hide PrintI64, IntegerLine, LengthLine, TextLine, SanitizeSingleLine, EscapeLines, Header, Ascii;
    match v
    case Simple(s) => TextIsResp2(s);
    case Error(s) => TextIsResp2(s);
    case Integer(n) =>
      NumberIsResp2(n);
      assert EncodeValue(v) == Line(COLON, PrintI64(n));
    case Bulk(s) =>
      NumberIsResp2(|s|);
      HeaderIsLine(DOLLAR, |s|);
    case Nil =>
      NumberIsResp2(-1);
      assert EncodeValue(v) == Line(DOLLAR, PrintI64(-1));
  }

  /** The server writes nothing but RESP2. */
  lemma {:induction false} EncodedIsResp2(v: RespValue)
    requires WellFormed(v)
    ensures Spells(Resp2, Normal(v), EncodeValue(v))
    decreases v
  {
    if v.Array? {
      hide PrintI64, LengthLine, Header, Line;
      NumberIsResp2(|v.items|);
      HeaderIsLine(STAR, |v.items|);
      EncodedItemsAreResp2(v.items);
    } else {
      ScalarIsResp2(v);
    }
  }

  lemma HeaderIsLine(prefix: byte, n: nat)
    ensures Header(prefix, n) == Line(prefix, PrintI64(n))
  {
  }

  lemma {:induction false} EncodedItemsAreResp2(vs: seq<RespValue>)
    requires AllWellFormed(vs)
    ensures SpellsAll(Resp2, Normals(vs), EncodeValues(vs))
    decreases vs
  {
    hide EncodeValue, Normal, WellFormed, Spells;
    if vs != [] {
      EncodedIsResp2(vs[0]);
      EncodedItemsAreResp2(vs[1..]);
      assert Normals(vs)[1..] == Normals(vs[1..]);
    }
  }

  // ---------- Each of the three laxities is real

  lemma LineIsInjective(prefix: byte, d: Bytes, d': Bytes)
    requires Line(prefix, d) == Line(prefix, d')
    ensures d == d'
  {
    assert |d| == |d'|;
    assert Line(prefix, d)[1..1 + |d|] == d && Line(prefix, d')[1..1 + |d|] == d';
  }

  /** A carriage return in a text. */
  lemma LenientText(t: Bytes)
    requires LF !in t && Utf8.Valid(t) && CR in t
    ensures Spells(Lenient, Simple(t), Line(PLUS, t)) && !Spells(Resp2, Simple(t), Line(PLUS, t))
  {
  }

  /** A carriage return behind a number. */
  lemma LenientInteger(n: i64)
    ensures var s := Line(COLON, PrintI64(n) + [CR]); Spells(Lenient, Integer(n), s) && !Spells(Resp2, Integer(n), s)
  {
    hide NumberLine, Line;
    var d := PrintI64(n) + [CR];
    PrintedIsNumberLine(n);
    MoreBehind(PrintI64(n), n);
    assert IntegerLine(Lenient, d, n) && d[|d| - 1] == CR;
    if d' :| IntegerLine(Resp2, d', n) && Line(COLON, d) == Line(COLON, d') {
      LineIsInjective(COLON, d, d');
    }
  }

  lemma MoreBehind(d: Bytes, n: int)
    requires NumberLine(d, n)
    ensures NumberLine(d + [CR], n)
  {
    var t: Bytes, behind: Bytes :| d == t + behind && Numeral(t, n) && AllCr(behind);
    assert d + [CR] == t + (behind + [CR]);
  }

  /** A sign or a zero in front of a length. */
  lemma LenientLength(front: byte)
    requires front == PLUS_SIGN || front == MINUS_SIGN || front == 48
    ensures var s := Line(STAR, [front, 48]); Spells(Lenient, Array([]), s) && !Spells(Resp2, Array([]), s)
  {
    hide NumberLine, Line, Spells;
    var d: Bytes := [front, 48];
    ZeroIsWritten(front);
    EmptyArrayLine(Lenient, d);
    EmptyArrayLine(Resp2, d);
    assert |PrintI64(0)| == 1;
  }

  lemma EmptyArrayLine(g: Dialect, d: Bytes)
    ensures Spells(g, Array([]), Line(STAR, d)) <==> LengthLine(g, d, 0)
  {
    hide LengthLine, Line;
    if LengthLine(g, d, 0) {
      var body: Bytes := [];
      assert Line(STAR, d) == Line(STAR, d) + body && SpellsAll(g, [], body);
    }
    if Spells(g, Array([]), Line(STAR, d)) {
      var d', body: Bytes :| LengthLine(g, d', 0) && Line(STAR, d) == Line(STAR, d') + body && SpellsAll(g, [], body);
      assert Line(STAR, d') + body == Line(STAR, d');
      LineIsInjective(STAR, d, d');
    }
  }

  lemma ZeroIsWritten(front: byte)
    requires front == PLUS_SIGN || front == MINUS_SIGN || front == 48
    ensures NumberLine([front, 48], 0)
  {
    var d: Bytes := [front, 48];
    var zero: Bytes := [48];
    assert zero[..0] == [] && Value(zero) == 0;
    assert d[..1] == [front] && front == 48 ==> Value(d) == 0;
    var sign: Bytes, digits: Bytes := if front == 48 then [] else [front], if front == 48 then d else zero;
    assert d == sign + digits && Signed(sign, digits, 0);
    assert d == d + [];
  }
}
