/** The client's readers in the imperative form of src/bin/litredis-cli.rs, each proved against its
    function in `Client`, and the read loop that ties framer and parser together. */
module ClientLoop {
  import opened Basics
  import opened Decimal
  import opened Resp
  import opened Client
  import opened Streams
  import FramerProof
  import ParserProof
  import Utf8

  // ---------- The parser's loops

  method ReadLineAt(bytes: Bytes, idx: nat) returns (r: Read<Bytes>)
    ensures r == ReadLine(bytes, idx)
  {
    if idx >= |bytes| {
      return Bad(UnexpectedEof);
    }
    var end := idx;
    while end < |bytes| && bytes[end] != LF
      invariant idx <= end <= |bytes|
      invariant FindLf(bytes, end) == FindLf(bytes, idx)
    {
      end := end + 1;
    }
    if end == |bytes| || end == idx || bytes[end - 1] != CR {
      return Bad(InvalidData);
    }
    return Got(bytes[idx..end - 1], end + 1);
  }

  method ReadTextAt(bytes: Bytes, idx: nat) returns (r: Read<Bytes>)
    ensures r == ReadText(bytes, idx)
  {
    var line := ReadLineAt(bytes, idx);
    if line.Bad? {
      return Bad(line.error);
    }
    if !Utf8.Valid(line.value) {
      return Bad(InvalidData);
    }
    return Got(line.value, line.next);
  }

  method ReadLengthAt(bytes: Bytes, idx: nat) returns (r: Read<i64>)
    ensures r == ReadLength(bytes, idx)
  {
    var line := ReadLineAt(bytes, idx);
    if line.Bad? {
      return Bad(line.error);
    }
    var len := ParseLength(line.value);
    if len.None? {
      return Bad(InvalidData);
    }
    return Got(len.value, line.next);
  }

  method ParseBulkAt(bytes: Bytes, idx: nat) returns (r: Read<RespValue>)
    ensures r == ParseBulk(bytes, idx)
  {
    hide ReadLength;
    var len := ReadLengthAt(bytes, idx);
    if len.Bad? {
      return Bad(len.error);
    }
    if len.value < -1 {
      return Bad(InvalidData);
    }
    if len.value == -1 {
      return Got(Nil, len.next);
    }
    var i, n: nat := len.next, len.value;
    if i + n + 2 > |bytes| {
      return Bad(UnexpectedEof);
    }
    var data := bytes[i..i + n];
    i := i + n;
    if bytes[i] != CR || bytes[i + 1] != LF {
      return Bad(InvalidData);
    }
    if !Utf8.Valid(data) {
      return Bad(InvalidData);
    }
    return Got(Bulk(data), i + 2);
  }

  method ParseScalarAt(bytes: Bytes, idx: nat) returns (r: Read<RespValue>)
    requires idx < |bytes| && bytes[idx] != STAR
    ensures r == ParseScalar(bytes, idx)
  {
    hide ReadText, ReadLength, ParseBulk;
    if bytes[idx] == PLUS {
      var text := ReadTextAt(bytes, idx + 1);
      return if text.Bad? then Bad(text.error) else Got(Simple(text.value), text.next);
    } else if bytes[idx] == MINUS {
      var text := ReadTextAt(bytes, idx + 1);
      return if text.Bad? then Bad(text.error) else Got(Error(text.value), text.next);
    } else if bytes[idx] == COLON {
      var number := ReadLengthAt(bytes, idx + 1);
      return if number.Bad? then Bad(number.error) else Got(Integer(number.value), number.next);
    } else if bytes[idx] == DOLLAR {
      r := ParseBulkAt(bytes, idx + 1);
    } else {
      return Bad(InvalidData);
    }
  }

  lemma NoItems(b: Bytes, i: nat, items: seq<RespValue>)
    ensures Continued(items, ParseItems(b, i, 0)) == Got(items, i)
  {
    ContinuedEnd<RespValue, IoError>(items, i);
  }

  lemma ItemsContinue(b: Bytes, i: nat, k: nat, items: seq<RespValue>)
    requires k > 0
    ensures Continued(items, ParseItems(b, i, k)) ==
            match ParseValue(b, i)
            case Got(v, n) => Continued(items + [v], ParseItems(b, n, k - 1))
            case Bad(e) => Bad(e)
  {
    hide ParseValue;
    var v := ParseValue(b, i);
    if v.Got? {
      ContinuedNext(items, v.value, ParseItems(b, v.next, k - 1));
    }
  }

  method ParseRespValue(bytes: Bytes, idx: nat) returns (r: Read<RespValue>)
    ensures r == ParseValue(bytes, idx)
    decreases |bytes| - idx
  {
    hide ParseItems, ParseScalar, Continued, ReadLength;
    if idx >= |bytes| {
      return Bad(UnexpectedEof);
    }
    if bytes[idx] != STAR {
      r := ParseScalarAt(bytes, idx);
      return;
    }
    var header := ReadLengthAt(bytes, idx + 1);
    if header.Bad? {
      return Bad(header.error);
    }
    var count := CheckedArrayLen(header.value);
    if count.None? {
      return Bad(InvalidData);
    }
    if count.value.None? {
      return Got(Nil, header.next);
    }
    var k := count.value.value;
    var items: seq<RespValue> := [];
    var i := header.next;
    ContinuedStart(ParseItems(bytes, i, k));
    for n := 0 to k
      invariant |items| == n && header.next <= i <= |bytes|
      invariant ParseItems(bytes, header.next, k) == Continued(items, ParseItems(bytes, i, k - n))
    {
      ItemsContinue(bytes, i, k - n, items);
      var item := ParseRespValue(bytes, i);
      if item.Bad? {
        return Bad(item.error);
      }
      items, i := items + [item.value], item.next;
    }
    NoItems(bytes, i, items);
    return Got(Array(items), i);
  }

  // ---------- The framer's loop

  method Consume(stack: seq<int>) returns (r: seq<int>)
    ensures r == ConsumeItem(stack)
  {
    r := stack;
    if r != [] {
      r := r[..|r| - 1] + [r[|r| - 1] - 1];
    }
    ghost var start := r;
    while r != [] && r[|r| - 1] == 0
      invariant PopZeros(r) == PopZeros(start)
      decreases |r|
    {
      r := r[..|r| - 1];
    }
  }

  /** One line of a frame, with its payload if it has one. */
  method ReadFrameLine(reader: ByteStream, stack: seq<int>) returns (bytes: Bytes, r: Read<seq<int>>)
    requires reader.Valid()
    modifies reader
    ensures reader.Valid() && reader.pos >= old(reader.pos)
    ensures r == FrameStep(reader.data, old(reader.pos), stack)
    ensures r.Got? ==> reader.pos == r.next && bytes == reader.data[old(reader.pos)..r.next]
  {
    hide ParseLength, ConsumeItem;
    ghost var b, i := reader.data, reader.pos;
    bytes := reader.ReadUntilLf();
    if bytes == [] {
      return bytes, Bad(UnexpectedEof);
    }
    var prefix, rest := bytes[0], bytes[1..];
    assert prefix == b[i] && reader.pos == LineEnd(b, i) && rest == b[i + 1..LineEnd(b, i)];
    if prefix == PLUS || prefix == MINUS || prefix == COLON {
      var stack' := Consume(stack);
      return bytes, Got(stack', reader.pos);
    } else if prefix == DOLLAR {
      var len := ParseLength(rest);
      if len.None? {
        return bytes, Bad(InvalidData);
      }
      if len.value >= 0 {
        var n: nat := len.value;
        var body := reader.ReadExact(n + 2);
        if body.None? {
          return bytes, Bad(UnexpectedEof);
        }
        bytes := bytes + body.value;
      }
      var stack' := Consume(stack);
      return bytes, Got(stack', reader.pos);
    } else if prefix == STAR {
      var count := ParseLength(rest);
      if count.None? {
        return bytes, Bad(InvalidData);
      }
      var checked := CheckedArrayLen(count.value);
      if checked.None? {
        return bytes, Bad(InvalidData);
      }
      var stack' := Consume(stack);
      if checked.value.Some? && checked.value.value > 0 {
        return bytes, Got(stack' + [checked.value.value], reader.pos);
      }
      assert stack' + [] == stack';
      return bytes, Got(stack', reader.pos);
    } else {
      return bytes, Bad(InvalidData);
    }
  }

  method ReadRespFrame(reader: ByteStream) returns (r: Read<Bytes>)
    requires reader.Valid()
    modifies reader
    ensures reader.Valid()
    ensures r == ReadFrame(reader.data, old(reader.pos))
    ensures r.Got? ==> reader.pos == r.next
  {
    hide FrameStep;
    ghost var start := reader.pos;
    var raw: Bytes := [];
    var remaining: seq<int> := [];
    while true
      invariant reader.Valid() && start <= reader.pos && raw == reader.data[start..reader.pos]
      invariant FrameLoop(reader.data, start, []) == FrameLoop(reader.data, reader.pos, remaining)
      decreases |reader.data| - reader.pos
    {
      ghost var i, stack := reader.pos, remaining;
      var line, step := ReadFrameLine(reader, remaining);
      if step.Bad? {
        return Bad(step.error);
      }
      raw, remaining := raw + line, step.value;
      if remaining == [] {
        assert FrameLoop(reader.data, i, stack) == Got((), reader.pos);
        assert raw == reader.data[start..reader.pos];
        return Got(raw, reader.pos);
      }
    }
  }

  // ---------- The read loop

  /** The replies shown before the loop ends, and the error it ends with; `None` is a closed stream. */
  datatype LoopResult = LoopResult(replies: seq<RespValue>, error: Option<IoError>)

  function ReadLoop(b: Bytes, i: nat): LoopResult
    requires i <= |b|
    decreases |b| - i
  {
    match ReadFrame(b, i)
    case Bad(UnexpectedEof) => LoopResult([], None)
    case Bad(e) => LoopResult([], Some(e))
    case Got(frame, n) =>
      match ParseFrame(frame)
      case Bad(e) => LoopResult([], Some(e))
      case Got(reply, _) =>
        var rest := ReadLoop(b, n);
        LoopResult([reply] + rest.replies, rest.error)
  }

  method RunReadLoop(reader: ByteStream) returns (replies: seq<RespValue>, error: Option<IoError>)
    requires reader.Valid()
    modifies reader
    ensures LoopResult(replies, error) == ReadLoop(reader.data, old(reader.pos))
  {
    replies := [];
    ghost var start := reader.pos;
    while true
      invariant reader.Valid()
      invariant var rest := ReadLoop(reader.data, reader.pos);
                ReadLoop(reader.data, start) == LoopResult(replies + rest.replies, rest.error)
      decreases |reader.data| - reader.pos
    {
      ghost var i := reader.pos;
      var frame := ReadRespFrame(reader);
      if frame == Bad(UnexpectedEof) {
        return replies, None;
      }
      if frame.Bad? {
        return replies, Some(frame.error);
      }
      var value := ParseRespValue(frame.value, 0);
      if value.Bad? {
        return replies, Some(value.error);
      }
      if value.next != |frame.value| {
        return replies, Some(InvalidData);
      }
      ghost var rest := ReadLoop(reader.data, reader.pos);
      assert replies + ([value.value] + rest.replies) == replies + [value.value] + rest.replies;
      replies := replies + [value.value];
    }
  }

  /** Framing a value where it lies and parsing the frame alone gives that value. */
  lemma FrameThenParse(b: Bytes, i: nat)
    requires i <= |b| && ParseValue(b, i).Got?
    ensures var v := ParseValue(b, i);
            ReadFrame(b, i) == Got(b[i..v.next], v.next) && ParseFrame(b[i..v.next]) == Got(v.value, v.next - i)
  {
    hide ParseValue, ReadFrame;
    var n := ParseValue(b, i).next;
    FramerProof.FramerAgreesWithParser(b, i);
    var frame := b[i..n];
    assert frame[0..n - i] == frame;
    ParserProof.ParseValueLocal(b, i, frame, 0);
  }

  /** The client shows a value for the next `n` bytes exactly when its parser reads that value there:
      framing first loses and adds nothing. */
  lemma NextReplyIff(b: Bytes, i: nat, v: RespValue, n: nat)
    requires i + n <= |b|
    ensures ReadFrame(b, i) == Got(b[i..i + n], i + n) && ParseFrame(b[i..i + n]) == Got(v, n)
       <==> ParseValue(b, i) == Got(v, i + n)
  {
    hide ParseValue, ReadFrame;
    var frame := b[i..i + n];
    if ParseFrame(frame) == Got(v, n) {
      assert frame[0..n] == frame;
      ParserProof.ParseValueLocal(frame, 0, b, i);
    }
    if ParseValue(b, i) == Got(v, i + n) {
      FrameThenParse(b, i);
    }
  }

  lemma {:induction false} ReadLoopAt(vs: seq<RespValue>, b: Bytes, i: nat)
    requires i + |EncodeValues(vs)| == |b| && At(b, i, EncodeValues(vs)) && AllWellFormed(vs)
    ensures ReadLoop(b, i) == LoopResult(Normals(vs), None)
    decreases vs
  {
    hide ParseFrame, ParseValue, ReadFrame, ReadLoop, At, EncodeValue, WellFormed, Normal;
    if vs == [] {
      NothingToShow(b);
    } else {
      var n := i + |EncodeValue(vs[0])|;
      AtSplit(b, i, EncodeValue(vs[0]), EncodeValues(vs[1..]));
      ParserProof.ParseEncoded(vs[0], b, i);
      ShowOne(b, i);
      ReadLoopAt(vs[1..], b, n);
    }
  }

  lemma NothingToShow(b: Bytes)
    ensures ReadLoop(b, |b|) == LoopResult([], None)
  {
  }

  lemma ShowOne(b: Bytes, i: nat)
    requires i <= |b| && ParseValue(b, i).Got?
    ensures var v := ParseValue(b, i);
            var rest := ReadLoop(b, v.next);
            ReadLoop(b, i) == LoopResult([v.value] + rest.replies, rest.error)
  {
    hide ParseFrame, ParseValue, ReadFrame;
    FrameThenParse(b, i);
  }

  /** The client shows exactly the replies the server wrote, in order, up to the normal form. */
  lemma RepliesArrive(vs: seq<RespValue>)
    requires AllWellFormed(vs)
    ensures ReadLoop(EncodeValues(vs), 0) == LoopResult(Normals(vs), None)
  {
    var b := EncodeValues(vs);
    assert b[0..|b|] == b;
    ReadLoopAt(vs, b, 0);
  }
}
