/** The command line client's two readers (src/bin/litredis-cli.rs): a framer that finds the end of
    a reply with a stack of counters, and a recursive descent parser for the framed bytes. */
module Client {
  import opened Basics
  import opened Decimal
  import opened Resp
  import Utf8

  /** `io::ErrorKind`; the message texts are left out. */
  datatype IoError = UnexpectedEof | InvalidData

  type Read<+T> = Parsed<T, IoError>

  // ---------- Lengths

  function TrimLineEnd(s: Bytes): Bytes {
    if s != [] && (s[|s| - 1] == CR || s[|s| - 1] == LF) then TrimLineEnd(s[..|s| - 1]) else s
  }

  /** `parse_i64`; every failure is `InvalidData`. */
  function ParseLength(s: Bytes): Option<i64> {
    if Utf8.Valid(s) then ParseI64(TrimLineEnd(s)) else None
  }

  /** `checked_array_len`: `Some(None)` is the null array, `None` the error. */
  function CheckedArrayLen(count: int): (r: Option<Option<nat>>) {
    if count == -1 then Some(None)
    else if count < -1 || count > MAX_ARRAY_LEN then None
    else Some(Some(count))
  }

  // ---------- The recursive parser

  /** `read_line`: the bytes up to the next CRLF. */
  function ReadLine(b: Bytes, i: nat): (r: Read<Bytes>)
    ensures r.Got? ==> i + 2 <= r.next <= |b| && r.value == b[i..r.next - 2]
  {
    if i >= |b| then Bad(UnexpectedEof)
    else
      var e := FindLf(b, i);
      if e == |b| || e == i || b[e - 1] != CR then Bad(InvalidData)
      else Got(b[i..e - 1], e + 1)
  }

  function ReadText(b: Bytes, i: nat): (r: Read<Bytes>)
    ensures r.Got? ==> i + 2 <= r.next <= |b|
  {
    var (line, n) :- ReadLine(b, i);
    if Utf8.Valid(line) then Got(line, n) else Bad(InvalidData)
  }

  function ReadLength(b: Bytes, i: nat): (r: Read<i64>)
    ensures r.Got? ==> i + 2 <= r.next <= |b|
  {
    var (line, n) :- ReadLine(b, i);
    match ParseLength(line)
    case Some(len) => Got(len, n)
    case None => Bad(InvalidData)
  }

  function ParseBulk(b: Bytes, i: nat): (r: Read<RespValue>)
    ensures r.Got? ==> i + 2 <= r.next <= |b|
  {
    var (len, n) :- ReadLength(b, i);
    if len < -1 then Bad(InvalidData)
    else if len == -1 then Got(Nil, n)
    else if n + len + 2 > |b| then Bad(UnexpectedEof)
    else if b[n + len] != CR || b[n + len + 1] != LF then Bad(InvalidData)
    else if !Utf8.Valid(b[n..n + len]) then Bad(InvalidData)
    else Got(Bulk(b[n..n + len]), n + len + 2)
  }

  /** The value behind any prefix but `*`. */
  function ParseScalar(b: Bytes, i: nat): (r: Read<RespValue>)
    requires i < |b|
    ensures r.Got? ==> i + 2 < r.next <= |b|
  {
    if b[i] == PLUS then var (s, n) :- ReadText(b, i + 1); Got(Simple(s), n)
    else if b[i] == MINUS then var (s, n) :- ReadText(b, i + 1); Got(Error(s), n)
    else if b[i] == COLON then var (m, n) :- ReadLength(b, i + 1); Got(Integer(m), n)
    else if b[i] == DOLLAR then ParseBulk(b, i + 1)
    else Bad(InvalidData)
  }

  /** `parse_resp_value`, the position passed and returned instead of updated. */
  function ParseValue(b: Bytes, i: nat): (r: Read<RespValue>)
    ensures r.Got? ==> i + 2 < r.next <= |b|
    decreases |b| - i, 0
  {
    if i >= |b| then Bad(UnexpectedEof)
    else if b[i] != STAR then ParseScalar(b, i)
    else
      var (count, n) :- ReadLength(b, i + 1);
      match CheckedArrayLen(count)
      case None => Bad(InvalidData)
      case Some(None) => Got(Nil, n)
      case Some(Some(k)) => var (items, m) :- ParseItems(b, n, k); Got(Array(items), m)
  }

  /** `k` values in a row. */
  function ParseItems(b: Bytes, i: nat, k: nat): (r: Read<seq<RespValue>>)
    ensures r.Got? ==> i + k <= r.next && (i <= |b| ==> r.next <= |b|) && |r.value| == k
    decreases |b| - i, k
  {
    if k == 0 then Got([], i)
    else
      var (v, n) :- ParseValue(b, i);
      var (rest, m) :- ParseItems(b, n, k - 1);
      Got([v] + rest, m)
  }

  /** `parse_resp_frame`: one value and nothing behind it. */
  function ParseFrame(b: Bytes): Read<RespValue> {
    var (v, n) :- ParseValue(b, 0);
    if n == |b| then Got(v, n) else Bad(InvalidData)
  }

  // ---------- The framer

  /** `consume_item`: one value fewer is due on the innermost open array; finished arrays close. */
  function ConsumeItem(stack: seq<int>): seq<int> {
    if stack == [] then []
    else PopZeros(stack[..|stack| - 1] + [stack[|stack| - 1] - 1])
  }

  function PopZeros(stack: seq<int>): seq<int> {
    if stack != [] && stack[|stack| - 1] == 0 then PopZeros(stack[..|stack| - 1]) else stack
  }

  /** The end of what `read_until(b'\n')` returns. */
  function LineEnd(b: Bytes, i: nat): (e: nat)
    requires i <= |b|
    ensures i <= e <= |b| && (i < |b| ==> i < e)
  {
    var j := FindLf(b, i);
    if j < |b| then j + 1 else j
  }

  /** One turn of the loop in `read_resp_frame`: the new stack and the new position. */
  function FrameStep(b: Bytes, i: nat, stack: seq<int>): (r: Read<seq<int>>)
    requires i <= |b|
    ensures r.Got? ==> i < r.next <= |b|
  {
    if i == |b| then Bad(UnexpectedEof)
    else
      var e := LineEnd(b, i);
      if b[i] == PLUS || b[i] == MINUS || b[i] == COLON then Got(ConsumeItem(stack), e)
      else if b[i] == DOLLAR then
        match ParseLength(b[i + 1..e])
        case None => Bad(InvalidData)
        case Some(len) =>
          if len < 0 then Got(ConsumeItem(stack), e)
          else if e + len + 2 > |b| then Bad(UnexpectedEof)
          else Got(ConsumeItem(stack), e + len + 2)
      else if b[i] == STAR then
        match ParseLength(b[i + 1..e])
        case None => Bad(InvalidData)
        case Some(count) =>
          match CheckedArrayLen(count)
          case None => Bad(InvalidData)
          case Some(None) => Got(ConsumeItem(stack), e)
          case Some(Some(k)) => Got(ConsumeItem(stack) + (if k > 0 then [k] else []), e)
      else Bad(InvalidData)
  }

  function FrameLoop(b: Bytes, i: nat, stack: seq<int>): (r: Read<()>)
    requires i <= |b|
    ensures r.Got? ==> i < r.next <= |b|
    decreases |b| - i
  {
    var (stack', n) :- FrameStep(b, i, stack);
    if stack' == [] then Got((), n) else FrameLoop(b, n, stack')
  }

  /** `read_resp_frame`: the raw bytes of the next frame. */
  function ReadFrame(b: Bytes, i: nat): (r: Read<Bytes>)
    requires i <= |b|
    ensures r.Got? ==> i < r.next <= |b| && r.value == b[i..r.next]
  {
    var (_, n) :- FrameLoop(b, i, []);
    Got(b[i..n], n)
  }
}
