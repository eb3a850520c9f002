/** The server's reader in the imperative form of src/protocol/resp.rs and src/connection.rs: methods
    that consume a stream, each proved against its function in `Server`. */
module ServerLoop {
  import opened Basics
  import opened Decimal
  import opened Resp
  import opened Protocol
  import opened Server
  import opened Streams
  import Utf8

  method ReadLine(reader: ByteStream) returns (r: Read<Bytes>)
    requires reader.Valid()
    modifies reader
    ensures reader.Valid()
    ensures r == ReadCrlfLine(reader.data, old(reader.pos))
    ensures r.Got? ==> reader.pos == r.next
  {
    ghost var i := reader.pos;
    var line := reader.ReadUntilLf();
    if line == [] {
      return Bad(UnexpectedEof);
    }
    var n := |line|;
    if n < 2 || line[n - 1] != LF || line[n - 2] != CR {
      return Bad(InvalidLineEnding);
    }
    assert line[..n - 2] == reader.data[i..reader.pos - 2];
    return Got(line[..n - 2], reader.pos);
  }

  method ReadBulk(reader: ByteStream) returns (r: Read<RespValue>)
    requires reader.Valid()
    modifies reader
    ensures reader.Valid()
    ensures r == ReadBulkString(reader.data, old(reader.pos))
    ensures r.Got? ==> reader.pos == r.next
  {
    var line := ReadLine(reader);
    if line.Bad? {
      return Bad(line.error);
    }
    if !Utf8.Valid(line.value) {
      return Bad(NonUtf8Length);
    }
    var number := ParseI64(line.value);
    if number.None? {
      return Bad(InvalidLength);
    }
    if number.value == -1 {
      return Got(Nil, reader.pos);
    }
    if number.value < -1 {
      return Bad(InvalidBulkLength);
    }
    var len: nat := number.value;
    if len > MAX_BULK_LEN {
      return Bad(BulkTooLarge);
    }
    ghost var n := reader.pos;
    var body := reader.ReadExact(len + 2);
    if body.None? {
      return Bad(EarlyEof);
    }
    assert body.value[..len] == reader.data[n..n + len];
    if body.value[len] != CR || body.value[len + 1] != LF {
      return Bad(InvalidBulkTerminator);
    }
    if !Utf8.Valid(body.value[..len]) {
      return Bad(NonUtf8String);
    }
    return Got(Bulk(body.value[..len]), reader.pos);
  }

  method ReadNonArrayValue(reader: ByteStream, prefix: byte) returns (r: Read<RespValue>)
    requires reader.Valid() && reader.pos > 0 && reader.data[reader.pos - 1] == prefix
    modifies reader
    ensures reader.Valid()
    ensures r == ReadNonArray(reader.data, old(reader.pos) - 1)
    ensures r.Got? ==> reader.pos == r.next
  {
    hide ReadCrlfLine, ReadBulkString;
    if prefix == DOLLAR {
      r := ReadBulk(reader);
      return;
    }
    if prefix != PLUS && prefix != MINUS && prefix != COLON {
      return Bad(UnsupportedPrefix);
    }
    var line := ReadLine(reader);
    if line.Bad? {
      return Bad(line.error);
    }
    if prefix == COLON {
      if !Utf8.Valid(line.value) {
        return Bad(NonUtf8Length);
      }
      var number := ParseI64(line.value);
      if number.None? {
        return Bad(InvalidLength);
      }
      return Got(Integer(number.value), reader.pos);
    }
    if !Utf8.Valid(line.value) {
      return Bad(NonUtf8String);
    }
    return Got(if prefix == PLUS then Simple(line.value) else Error(line.value), reader.pos);
  }

  lemma NoItems(b: Bytes, i: nat, items: seq<RespValue>)
    ensures Continued(items, ReadArrayItems(b, i, 0)) == Got(items, i)
  {
    ContinuedEnd<RespValue, FrameReason>(items, i);
  }

  lemma ItemsContinue(b: Bytes, i: nat, k: nat, items: seq<RespValue>)
    requires k > 0
    ensures Continued(items, ReadArrayItems(b, i, k)) ==
            if i >= |b| then Bad(EarlyEof)
            else if b[i] == STAR then Bad(NestedArray)
            else
              match ReadNonArray(b, i)
              case Got(v, n) => Continued(items + [v], ReadArrayItems(b, n, k - 1))
              case Bad(e) => Bad(e)
  {
    hide ReadNonArray;
    if i < |b| && b[i] != STAR {
      var v := ReadNonArray(b, i);
      if v.Got? {
        ContinuedNext(items, v.value, ReadArrayItems(b, v.next, k - 1));
      }
    }
  }

  method ReadItems(reader: ByteStream, count: nat) returns (r: Read<seq<RespValue>>)
    requires reader.Valid()
    modifies reader
    ensures reader.Valid()
    ensures r == ReadArrayItems(reader.data, old(reader.pos), count)
    ensures r.Got? ==> reader.pos == r.next
  {
    hide ReadNonArray, ReadArrayItems, Continued;
    ghost var b, start := reader.data, reader.pos;
    var values: seq<RespValue> := [];
    ContinuedStart(ReadArrayItems(b, start, count));
    for n := 0 to count
      invariant reader.Valid()
      invariant ReadArrayItems(b, start, count) == Continued(values, ReadArrayItems(b, reader.pos, count - n))
    {
      ghost var i := reader.pos;
      ItemsContinue(b, i, count - n, values);
      var prefix := reader.ReadExact(1);
      if prefix.None? {
        return Bad(EarlyEof);
      }
      if prefix.value[0] == STAR {
        return Bad(NestedArray);
      }
      var item := ReadNonArrayValue(reader, prefix.value[0]);
      if item.Bad? {
        return Bad(item.error);
      }
      values := values + [item.value];
    }
    NoItems(b, reader.pos, values);
    return Got(values, reader.pos);
  }

  method ReadRespValue(reader: ByteStream) returns (r: Read<RespValue>)
    requires reader.Valid()
    modifies reader
    ensures reader.Valid()
    ensures r == ReadValue(reader.data, old(reader.pos))
    ensures r.Got? ==> reader.pos == r.next
  {
    hide ReadNonArray, ReadArrayItems, ReadCrlfLine;
    var prefix := reader.ReadExact(1);
    if prefix.None? {
      return Bad(EarlyEof);
    }
    if prefix.value[0] != STAR {
      r := ReadNonArrayValue(reader, prefix.value[0]);
      return;
    }
    var line := ReadLine(reader);
    if line.Bad? {
      return Bad(line.error);
    }
    if !Utf8.Valid(line.value) {
      return Bad(NonUtf8Length);
    }
    var count := ParseI64(line.value);
    if count.None? {
      return Bad(InvalidLength);
    }
    if count.value == -1 {
      return Bad(NullArray);
    }
    if count.value < -1 {
      return Bad(InvalidArrayLength);
    }
    if count.value > MAX_ARRAY_LEN {
      return Bad(ArrayTooLarge);
    }
    var items := ReadItems(reader, count.value);
    if items.Bad? {
      return Bad(items.error);
    }
    return Got(Array(items.value), items.next);
  }

  method CommandOf(value: RespValue) returns (r: Parse)
    ensures r == CommandFromValue(value)
  {
    hide ParseCommandArgs;
    if !value.Array? {
      return Refused(InvalidFrame(NotAnArray));
    }
    if value.items == [] {
      return Refused(EmptyCommand);
    }
    var args: seq<Bytes> := [];
    for k := 0 to |value.items|
      invariant AllBulk(value.items[..k])
      invariant args == Texts(value.items[..k])
    {
      if !value.items[k].Bulk? {
        return Refused(InvalidFrame(NotABulk));
      }
      assert value.items[..k + 1] == value.items[..k] + [value.items[k]];
      args := args + [value.items[k].text];
    }
    assert value.items[..|value.items|] == value.items;
    return ParseCommandArgs(args);
  }

  method RunReadCommands(reader: ByteStream) returns (sent: seq<ReadItem>)
    requires reader.Valid()
    modifies reader
    ensures sent == ReadCommands(reader.data, old(reader.pos))
  {
    hide ReadValue, CommandFromValue;
    ghost var start := reader.pos;
    sent := [];
    while true
      invariant reader.Valid()
      invariant ReadCommands(reader.data, start) == sent + ReadCommands(reader.data, reader.pos)
      decreases |reader.data| - reader.pos
    {
      ghost var i := reader.pos;
      var value := ReadRespValue(reader);
      if value.Bad? {
        if IsEof(value.error) {
          assert ReadCommands(reader.data, i) == [];
          return sent;
        }
        return sent + [Failed(InvalidFrame(value.error), true)];
      }
      var command := CommandOf(value.value);
      sent := sent + [ItemOf(command)];
    }
  }

  // ---------- encode_command

  lemma {:induction false} EncodeArgsSnoc(args: seq<Bytes>, a: Bytes)
    ensures EncodeArgs(args + [a]) == EncodeArgs(args) + Header(DOLLAR, |a|) + (a + CRLF)
  {
    hide Header;
    var tail := Header(DOLLAR, |a|) + (a + CRLF);
    if args == [] {
      assert (args + [a])[1..] == [];
      assert tail + [] == [] + tail;
    } else {
      assert (args + [a])[1..] == args[1..] + [a];
      EncodeArgsSnoc(args[1..], a);
      var head := Header(DOLLAR, |args[0]|) + (args[0] + CRLF);
      assert head + (EncodeArgs(args[1..]) + tail) == (head + EncodeArgs(args[1..])) + tail;
    }
  }

  method PrintCommand(args: seq<Bytes>) returns (encoded: Bytes)
    ensures encoded == EncodeCommand(args)
  {
    hide Header;
    encoded := Header(STAR, |args|);
    for k := 0 to |args|
      invariant encoded == Header(STAR, |args|) + EncodeArgs(args[..k])
    {
      assert args[..k + 1] == args[..k] + [args[k]];
      EncodeArgsSnoc(args[..k], args[k]);
      encoded := encoded + Header(DOLLAR, |args[k]|);
      encoded := encoded + args[k];
      encoded := encoded + CRLF;
    }
    assert args[..|args|] == args;
  }
}
