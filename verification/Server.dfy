/** The server's reader of one RESP value and the command it stands for
    (src/protocol/resp.rs, src/connection.rs). */
module Server {
  import opened Basics
  import opened Decimal
  import opened Resp
  import opened Protocol
  import Utf8

  type Read<+T> = Parsed<T, FrameReason>

  /** `read_crlf_line`. */
  function ReadCrlfLine(b: Bytes, i: nat): (r: Read<Bytes>)
    ensures r.Got? ==> i + 2 <= r.next <= |b| && r.value == b[i..r.next - 2]
  {
    if i >= |b| then Bad(UnexpectedEof)
    else
      var e := FindLf(b, i);
      if e == |b| || e == i || b[e - 1] != CR then Bad(InvalidLineEnding)
      else Got(b[i..e - 1], e + 1)
  }

  function ReadUtf8Line(b: Bytes, i: nat): (r: Read<Bytes>)
    ensures r.Got? ==> i + 2 <= r.next <= |b|
  {
    var (line, n) :- ReadCrlfLine(b, i);
    if Utf8.Valid(line) then Got(line, n) else Bad(NonUtf8String)
  }

  /** A line holding a number: `read_crlf_line` and `parse_i64`. */
  function ReadNumber(b: Bytes, i: nat): (r: Read<i64>)
    ensures r.Got? ==> i + 2 <= r.next <= |b|
  {
    var (line, n) :- ReadCrlfLine(b, i);
    if !Utf8.Valid(line) then Bad(NonUtf8Length)
    else
      match ParseI64(line)
      case Some(v) => Got(v, n)
      case None => Bad(InvalidLength)
  }

  function ReadBulkString(b: Bytes, i: nat): (r: Read<RespValue>)
    ensures r.Got? ==> i + 2 <= r.next <= |b|
  {
    var (len, n) :- ReadNumber(b, i);
    if len == -1 then Got(Nil, n)
    else if len < -1 then Bad(InvalidBulkLength)
    else if len > MAX_BULK_LEN then Bad(BulkTooLarge)
    else if n + len + 2 > |b| then Bad(EarlyEof)
    else if b[n + len] != CR || b[n + len + 1] != LF then Bad(InvalidBulkTerminator)
    else if !Utf8.Valid(b[n..n + len]) then Bad(NonUtf8String)
    else Got(Bulk(b[n..n + len]), n + len + 2)
  }

  /** `read_resp_non_array_value` behind the prefix at `i`. */
  function ReadNonArray(b: Bytes, i: nat): (r: Read<RespValue>)
    requires i < |b|
    ensures r.Got? ==> i + 2 < r.next <= |b|
  {
    if b[i] == PLUS then var (s, n) :- ReadUtf8Line(b, i + 1); Got(Simple(s), n)
    else if b[i] == MINUS then var (s, n) :- ReadUtf8Line(b, i + 1); Got(Error(s), n)
    else if b[i] == COLON then var (m, n) :- ReadNumber(b, i + 1); Got(Integer(m), n)
    else if b[i] == DOLLAR then ReadBulkString(b, i + 1)
    else Bad(UnsupportedPrefix)
  }

  /** The loop of `read_resp_array`: `k` values, none of them an array. */
  function ReadArrayItems(b: Bytes, i: nat, k: nat): (r: Read<seq<RespValue>>)
    ensures r.Got? ==> i <= r.next && (i <= |b| ==> r.next <= |b|) && |r.value| == k
    decreases k
  {
    if k == 0 then Got([], i)
    else if i >= |b| then Bad(EarlyEof)
    else if b[i] == STAR then Bad(NestedArray)
    else
      var (v, n) :- ReadNonArray(b, i);
      var (rest, m) :- ReadArrayItems(b, n, k - 1);
      Got([v] + rest, m)
  }

  /** `read_resp_value`. */
  function ReadValue(b: Bytes, i: nat): (r: Read<RespValue>)
    ensures r.Got? ==> i + 2 < r.next <= |b|
  {
    if i >= |b| then Bad(EarlyEof)
    else if b[i] != STAR then ReadNonArray(b, i)
    else
      var (count, n) :- ReadNumber(b, i + 1);
      if count == -1 then Bad(NullArray)
      else if count < -1 then Bad(InvalidArrayLength)
      else if count > MAX_ARRAY_LEN then Bad(ArrayTooLarge)
      else var (items, m) :- ReadArrayItems(b, n, count); Got(Array(items), m)
  }

  // ---------- Commands

  predicate AllBulk(items: seq<RespValue>) {
    forall k :: 0 <= k < |items| ==> items[k].Bulk?
  }

  function Texts(items: seq<RespValue>): seq<Bytes>
    requires AllBulk(items)
  {
    seq(|items|, k requires 0 <= k < |items| => items[k].text)
  }

  /** `command_from_resp_value`. */
  function CommandFromValue(v: RespValue): Parse {
    if !v.Array? then Refused(InvalidFrame(NotAnArray))
    else if v.items == [] then Refused(EmptyCommand)
    else if !AllBulk(v.items) then Refused(InvalidFrame(NotABulk))
    else ParseCommandArgs(Texts(v.items))
  }

  /** What the reader task sends to the connection task. */
  datatype ReadItem =
    | Ready(command: Command)
    | Failed(error: ProtocolError, close: bool)

  function ItemOf(p: Parse): ReadItem {
    match p
    case Command(c) => Ready(c)
    case Refused(e) => Failed(e, false)
  }

  /** The two reasons whose text the reader task takes for a closed connection. */
  predicate IsEof(r: FrameReason) { r == UnexpectedEof || r == EarlyEof }

  /** `read_commands`, for a connection task that keeps receiving. */
  function ReadCommands(b: Bytes, i: nat): seq<ReadItem>
    requires i <= |b|
    decreases |b| - i
  {
    match ReadValue(b, i)
    case Got(v, n) => [ItemOf(CommandFromValue(v))] + ReadCommands(b, n)
    case Bad(r) => if IsEof(r) then [] else [Failed(InvalidFrame(r), true)]
  }

  // ---------- The command printer

  function EncodeArgs(args: seq<Bytes>): Bytes {
    if args == [] then []
    else Header(DOLLAR, |args[0]|) + (args[0] + CRLF) + EncodeArgs(args[1..])
  }

  /** `encode_command`. */
  function EncodeCommand(args: seq<Bytes>): Bytes {
    Header(STAR, |args|) + EncodeArgs(args)
  }

  function EncodeCommands(lists: seq<seq<Bytes>>): Bytes {
    if lists == [] then [] else EncodeCommand(lists[0]) + EncodeCommands(lists[1..])
  }
}
