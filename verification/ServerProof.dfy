/** What the server reads from a stream of encoded commands, and how its reader relates to the
    client's. */
module ServerProof {
  import opened Basics
  import opened Decimal
  import opened Resp
  import opened Protocol
  import opened Server
  import Client
  import FramerProof
  import ParserProof
  import Utf8

  // ---------- The client accepts whatever the server accepts

  lemma NumberAgrees(b: Bytes, i: nat)
    requires ReadNumber(b, i).Got?
    ensures Client.ReadLength(b, i) == Got(ReadNumber(b, i).value, ReadNumber(b, i).next)
  {
    var line := ReadCrlfLine(b, i).value;
    ParsedIsPlain(line);
    FramerProof.TrimKeeps(line);
  }

  lemma TextAgrees(b: Bytes, i: nat)
    requires ReadUtf8Line(b, i).Got?
    ensures Client.ReadText(b, i) == Got(ReadUtf8Line(b, i).value, ReadUtf8Line(b, i).next)
  {
  }

  lemma BulkAgrees(b: Bytes, i: nat)
    requires ReadBulkString(b, i).Got?
    ensures Client.ParseBulk(b, i) == Got(ReadBulkString(b, i).value, ReadBulkString(b, i).next)
  {
    hide ReadNumber, Client.ReadLength;
    NumberAgrees(b, i);
  }

  lemma NonArrayAgrees(b: Bytes, i: nat)
    requires i < |b| && ReadNonArray(b, i).Got?
    ensures b[i] != STAR
    ensures Client.ParseScalar(b, i) == Got(ReadNonArray(b, i).value, ReadNonArray(b, i).next)
  {
    hide ReadNumber, Client.ReadLength, ReadUtf8Line, Client.ReadText, ReadBulkString, Client.ParseBulk;
    if b[i] == PLUS || b[i] == MINUS {
      TextAgrees(b, i + 1);
    } else if b[i] == COLON {
      NumberAgrees(b, i + 1);
    } else {
      BulkAgrees(b, i + 1);
    }
  }

  lemma {:induction false} ItemsAgree(b: Bytes, i: nat, k: nat)
    requires ReadArrayItems(b, i, k).Got?
    ensures Client.ParseItems(b, i, k) == Got(ReadArrayItems(b, i, k).value, ReadArrayItems(b, i, k).next)
    decreases k
  {
    hide ReadNonArray, Client.ParseScalar;
    if k > 0 {
      NonArrayAgrees(b, i);
      ItemsAgree(b, ReadNonArray(b, i).next, k - 1);
    }
  }

  /** A value the server's reader takes from a stream is the value the client's parser would take,
      to the same byte. */
  lemma ServerValueIsClientValue(b: Bytes, i: nat)
    requires ReadValue(b, i).Got?
    ensures Client.ParseValue(b, i) == Got(ReadValue(b, i).value, ReadValue(b, i).next)
  {
    hide ReadNonArray, Client.ParseScalar, ReadArrayItems, Client.ParseItems, ReadNumber, Client.ReadLength;
    if b[i] == STAR {
      NumberAgrees(b, i + 1);
      var header := ReadNumber(b, i + 1);
      ItemsAgree(b, header.next, header.value);
    } else {
      NonArrayAgrees(b, i);
    }
  }

  // ---------- Locality: an accepted frame is accepted wherever it stands

  lemma CrlfLineLocal(b: Bytes, i: nat, c: Bytes, j: nat, n: nat)
    requires ReadCrlfLine(b, i).Got? && ReadCrlfLine(b, i).next <= i + n && Same(b, i, c, j, n)
    ensures ReadCrlfLine(c, j) == Got(ReadCrlfLine(b, i).value, j + (ReadCrlfLine(b, i).next - i))
  {
    var e := FindLf(b, i);
    SamePart(b, i, c, j, n, 0, e - 1 - i);
    SameByte(b, i, c, j, n, e - 1 - i);
    FindLfSame(b, i, c, j, n);
  }

  lemma NumberLocal(b: Bytes, i: nat, c: Bytes, j: nat, n: nat)
    requires ReadNumber(b, i).Got? && ReadNumber(b, i).next <= i + n && Same(b, i, c, j, n)
    ensures ReadNumber(c, j) == Got(ReadNumber(b, i).value, j + (ReadNumber(b, i).next - i))
  {
    hide Same, ReadCrlfLine;
    CrlfLineLocal(b, i, c, j, n);
  }

  lemma BulkLocal(b: Bytes, i: nat, c: Bytes, j: nat)
    requires ReadBulkString(b, i).Got? && Same(b, i, c, j, ReadBulkString(b, i).next - i)
    ensures ReadBulkString(c, j) == Got(ReadBulkString(b, i).value, j + (ReadBulkString(b, i).next - i))
  {
    hide Same, ReadNumber, Utf8.Valid;
    var n := ReadBulkString(b, i).next - i;
    NumberLocal(b, i, c, j, n);
    var len := ReadNumber(b, i);
    if len.value >= 0 {
      var off := len.next - i;
      SamePart(b, i, c, j, n, off, len.value);
      SameByte(b, i, c, j, n, off + len.value);
      SameByte(b, i, c, j, n, off + len.value + 1);
    }
  }

  lemma NonArrayLocal(b: Bytes, i: nat, c: Bytes, j: nat)
    requires i < |b| && j < |c| && ReadNonArray(b, i).Got?
    requires Same(b, i, c, j, ReadNonArray(b, i).next - i)
    ensures c[j] == b[i]
    ensures ReadNonArray(c, j) == Got(ReadNonArray(b, i).value, j + (ReadNonArray(b, i).next - i))
  {
    hide Same, ReadCrlfLine, ReadBulkString;
    var n := ReadNonArray(b, i).next - i;
    SameByte(b, i, c, j, n, 0);
    SamePart(b, i, c, j, n, 1, n - 1);
    if b[i] == DOLLAR {
      BulkLocal(b, i + 1, c, j + 1);
    } else {
      CrlfLineLocal(b, i + 1, c, j + 1, n - 1);
    }
  }

  lemma ItemLocal(b: Bytes, i: nat, k: nat, c: Bytes, j: nat)
    requires k > 0 && ReadArrayItems(b, i, k).Got? && Same(b, i, c, j, ReadArrayItems(b, i, k).next - i)
    ensures i < |b| && b[i] != STAR && j < |c| && c[j] != STAR && ReadNonArray(b, i).Got?
    ensures var v := ReadNonArray(b, i);
            var off := v.next - i;
            && ReadNonArray(c, j) == Got(v.value, j + off)
            && Same(b, i + off, c, j + off, ReadArrayItems(b, i, k).next - i - off)
  {
    hide Same, ReadNonArray;
    var n := ReadArrayItems(b, i, k).next - i;
    var off := ReadNonArray(b, i).next - i;
    SameByte(b, i, c, j, n, 0);
    SamePart(b, i, c, j, n, 0, off);
    NonArrayLocal(b, i, c, j);
    SamePart(b, i, c, j, n, off, n - off);
  }

  lemma {:induction false} ItemsLocal(b: Bytes, i: nat, k: nat, c: Bytes, j: nat)
    requires ReadArrayItems(b, i, k).Got? && Same(b, i, c, j, ReadArrayItems(b, i, k).next - i)
    ensures ReadArrayItems(c, j, k) == Got(ReadArrayItems(b, i, k).value, j + (ReadArrayItems(b, i, k).next - i))
    decreases k
  {
    hide Same, ReadNonArray;
    if k > 0 {
      var v := ReadNonArray(b, i);
      ItemLocal(b, i, k, c, j);
      ItemsLocal(b, v.next, k - 1, c, j + (v.next - i));
    }
  }

  lemma ReadValueLocal(b: Bytes, i: nat, c: Bytes, j: nat)
    requires ReadValue(b, i).Got? && Same(b, i, c, j, ReadValue(b, i).next - i)
    ensures ReadValue(c, j) == Got(ReadValue(b, i).value, j + (ReadValue(b, i).next - i))
  {
    hide Same, ReadNonArray, ReadArrayItems, ReadCrlfLine;
    var n := ReadValue(b, i).next - i;
    SameByte(b, i, c, j, n, 0);
    if b[i] != STAR {
      NonArrayLocal(b, i, c, j);
    } else {
      SamePart(b, i, c, j, n, 1, n - 1);
      CrlfLineLocal(b, i + 1, c, j + 1, n - 1);
      var header := ReadNumber(b, i + 1);
      var off := header.next - i;
      SamePart(b, i, c, j, n, off, n - off);
      ItemsLocal(b, header.next, header.value, c, j + off);
    }
  }

  /** What the connection task hears of a parse: a refused command costs one error and stays open. */
  function Heard(p: Parse): ReadItem {
    if p.Command? then Ready(p.command) else Failed(p.error, false)
  }

  /** A complete frame costs one item, good command or bad, and reading goes on right behind it. */
  lemma FrameCostsOneItem(frame: Bytes, b: Bytes, i: nat)
    requires ReadValue(frame, 0).Got? && ReadValue(frame, 0).next == |frame| && At(b, i, frame)
    ensures ReadCommands(b, i)
         == [Heard(CommandFromValue(ReadValue(frame, 0).value))] + ReadCommands(b, i + |frame|)
  {
    hide ReadValue;
    assert frame[0..0 + |frame|] == frame;
    ReadValueLocal(frame, 0, b, i);
  }

  /** Only the last item can ask for the connection to be closed. */
  lemma {:induction false} FramingErrorIsLast(b: Bytes, i: nat, k: nat)
    requires i <= |b| && k < |ReadCommands(b, i)|
    requires ReadCommands(b, i)[k].Failed? && ReadCommands(b, i)[k].close
    ensures k == |ReadCommands(b, i)| - 1
    decreases |b| - i
  {
    hide ReadValue;
    if k > 0 {
      FramingErrorIsLast(b, ReadValue(b, i).next, k - 1);
    }
  }

  // ---------- Encoded commands

  predicate NoneTooLarge(args: seq<Bytes>) {
    args == [] || (|args[0]| <= 536_870_912 && NoneTooLarge(args[1..]))
  }

  predicate WithinLimits(args: seq<Bytes>) {
    |args| <= 1_000_000 && NoneTooLarge(args)
  }

  /** What every `String` of the client is: UTF-8, and no longer than an allocation can be. */
  predicate AllTexts(args: seq<Bytes>) {
    args == [] || (Utf8.Valid(args[0]) && |args[0]| <= I64_MAX && AllTexts(args[1..]))
  }

  function Bulks(args: seq<Bytes>): seq<RespValue> {
    if args == [] then [] else [Bulk(args[0])] + Bulks(args[1..])
  }

  lemma {:induction false} BulksHoldTexts(args: seq<Bytes>)
    ensures |Bulks(args)| == |args| && AllBulk(Bulks(args)) && Texts(Bulks(args)) == args
  {
    if args != [] {
      var rest := Bulks(args[1..]);
      BulksHoldTexts(args[1..]);
      assert Texts([Bulk(args[0])] + rest) == [args[0]] + Texts(rest);
    }
  }

  lemma CrlfLineAt(b: Bytes, i: nat, line: Bytes)
    requires At(b, i, line + CRLF) && LF !in line
    ensures ReadCrlfLine(b, i) == Got(line, i + |line| + 2)
  {
    ParserProof.ReadLineAt(b, i, line);
  }

  lemma HeaderAt(b: Bytes, i: nat, prefix: byte, n: nat, body: Bytes)
    requires At(b, i, Header(prefix, n) + body) && n <= I64_MAX
    ensures i < |b| && b[i] == prefix
    ensures var h := i + |Header(prefix, n)|;
            ReadNumber(b, i + 1) == Got(n, h) && At(b, h, body)
  {
    hide At, ReadCrlfLine;
    var digits := PrintI64(n);
    AtSplit(b, i, Header(prefix, n), body);
    assert Header(prefix, n) == [prefix] + (digits + CRLF);
    AtHead(b, i, prefix, digits + CRLF);
    ParsePrintI64(n);
    ParsedIsPlain(digits);
    Utf8.AsciiIsValid(digits);
    CrlfLineAt(b, i + 1, digits);
  }

  lemma BulkStringAt(b: Bytes, i: nat, s: Bytes)
    requires At(b, i, Header(DOLLAR, |s|) + (s + CRLF)) && Utf8.Valid(s) && |s| <= I64_MAX
    ensures i < |b| && b[i] == DOLLAR
    ensures ReadBulkString(b, i + 1) ==
            if |s| <= MAX_BULK_LEN then Got(Bulk(s), i + |Header(DOLLAR, |s|) + (s + CRLF)|) else Bad(BulkTooLarge)
  {
    hide At, ReadNumber, Header;
    HeaderAt(b, i, DOLLAR, |s|, s + CRLF);
    PayloadAt(b, i + |Header(DOLLAR, |s|)|, s);
  }

  lemma NoArguments(b: Bytes, i: nat)
    ensures ReadArrayItems(b, i, 0) == Got([], i)
  {
  }

  /** One argument more at the head of `k` others. */
  lemma OneArgument(s: Bytes, b: Bytes, i: nat, k: nat)
    requires At(b, i, Header(DOLLAR, |s|) + (s + CRLF)) && Utf8.Valid(s) && |s| <= I64_MAX
    ensures var rest := ReadArrayItems(b, i + |Header(DOLLAR, |s|) + (s + CRLF)|, k);
            ReadArrayItems(b, i, k + 1) ==
            if |s| > MAX_BULK_LEN then Bad(BulkTooLarge)
            else if rest.Bad? then Bad(rest.error)
            else Got([Bulk(s)] + rest.value, rest.next)
  {
    hide At, ReadBulkString, Header, Utf8.Valid;
    BulkStringAt(b, i, s);
  }

  /** The arguments are read back one by one, up to the first that is too large. */
  lemma {:induction false} ArgumentsAt(args: seq<Bytes>, b: Bytes, i: nat)
    requires At(b, i, EncodeArgs(args)) && AllTexts(args)
    ensures ReadArrayItems(b, i, |args|) ==
            if NoneTooLarge(args) then Got(Bulks(args), i + |EncodeArgs(args)|) else Bad(BulkTooLarge)
    decreases |args|
  {
    hide At, ReadArrayItems, Header, Utf8.Valid;
    if args == [] {
      NoArguments(b, i);
    } else {
      var s, rest := args[0], args[1..];
      var head := Header(DOLLAR, |s|) + (s + CRLF);
      AtSplit(b, i, head, EncodeArgs(rest));
      OneArgument(s, b, i, |rest|);
      ArgumentsAt(rest, b, i + |head|);
    }
  }

  /** The server takes an encoded argument list exactly when it is within the limits. */
  lemma EncodedCommandIsRead(args: seq<Bytes>, b: Bytes, i: nat)
    requires At(b, i, EncodeCommand(args)) && AllTexts(args) && |args| <= I64_MAX
    ensures ReadValue(b, i) ==
            if WithinLimits(args) then Got(Array(Bulks(args)), i + |EncodeCommand(args)|)
            else if |args| > 1_000_000 then Bad(ArrayTooLarge)
            else Bad(BulkTooLarge)
  {
    hide At, ReadNumber, ReadArrayItems, Header, Bulks, NoneTooLarge, AllTexts;
    HeaderAt(b, i, STAR, |args|, EncodeArgs(args));
    ArgumentsAt(args, b, i + |Header(STAR, |args|)|);
  }

  predicate AllSendable(lists: seq<seq<Bytes>>) {
    lists == [] || (AllTexts(lists[0]) && WithinLimits(lists[0]) && AllSendable(lists[1..]))
  }

  function ItemsOf(lists: seq<seq<Bytes>>): seq<ReadItem> {
    if lists == [] then [] else [Heard(ParseCommandArgs(lists[0]))] + ItemsOf(lists[1..])
  }

  /** One encoded command on a longer stream. */
  lemma CommandAt(args: seq<Bytes>, b: Bytes, i: nat)
    requires At(b, i, EncodeCommand(args)) && AllTexts(args) && WithinLimits(args)
    ensures i + |EncodeCommand(args)| <= |b|
    ensures ReadCommands(b, i) == [Heard(ParseCommandArgs(args))] + ReadCommands(b, i + |EncodeCommand(args)|)
  {
    hide AllTexts, NoneTooLarge, ParseCommandArgs, ReadValue, CommandFromValue, Bulks;
    EncodedCommandIsRead(args, b, i);
    OneCommand(args);
  }

  /** Encoded commands at the head of a longer stream cost one item each. */
  lemma {:induction false} CommandsAt(lists: seq<seq<Bytes>>, b: Bytes, i: nat)
    requires At(b, i, EncodeCommands(lists)) && AllSendable(lists)
    ensures i + |EncodeCommands(lists)| <= |b|
    ensures ReadCommands(b, i) == ItemsOf(lists) + ReadCommands(b, i + |EncodeCommands(lists)|)
    decreases |lists|
  {
    hide At, EncodeCommand, ParseCommandArgs, AllTexts, WithinLimits, ReadCommands, Heard;
    if lists == [] {
      EmptyAt(b, i);
      assert [] + ReadCommands(b, i) == ReadCommands(b, i);
    } else {
      AtSplit(b, i, EncodeCommand(lists[0]), EncodeCommands(lists[1..]));
      CommandAt(lists[0], b, i);
      CommandsAt(lists[1..], b, i + |EncodeCommand(lists[0])|);
    }
  }

  lemma EmptyAt(b: Bytes, i: nat)
    requires At(b, i, [])
    ensures i <= |b|
  {
  }

  /** Where a frame is broken, reading ends: with one last item that closes the connection, unless the
      stream was over. */
  lemma BrokenFrameEnds(lists: seq<seq<Bytes>>, tail: Bytes)
    requires AllSendable(lists)
    requires ReadValue(EncodeCommands(lists) + tail, |EncodeCommands(lists)|).Bad?
    ensures var b, n := EncodeCommands(lists) + tail, |EncodeCommands(lists)|;
            var reason := ReadValue(b, n).error;
            ReadCommands(b, 0) ==
            ItemsOf(lists) + if reason in {UnexpectedEof, EarlyEof} then [] else [Failed(InvalidFrame(reason), true)]
  {
    hide ReadValue, EncodeCommands, AllSendable, ItemsOf;
    var b := EncodeCommands(lists) + tail;
    assert b[0..|EncodeCommands(lists)|] == EncodeCommands(lists);
    CommandsAt(lists, b, 0);
  }

  lemma StreamEnds(b: Bytes)
    ensures ReadValue(b, |b|) == Bad(EarlyEof)
  {
  }

  lemma UnknownPrefix(b: Bytes, n: nat)
    requires n < |b| && b[n] !in {PLUS, MINUS, COLON, DOLLAR, STAR}
    ensures ReadValue(b, n) == Bad(UnsupportedPrefix)
  {
  }

  /** A frame with an unknown prefix behind any commands: they are all heard, and then the error. */
  lemma UnknownPrefixCloses(lists: seq<seq<Bytes>>, prefix: byte, rest: Bytes)
    requires AllSendable(lists) && prefix !in {43, 45, 58, 36, 42}
    ensures ReadCommands(EncodeCommands(lists) + [prefix] + rest, 0)
         == ItemsOf(lists) + [Failed(InvalidFrame(UnsupportedPrefix), true)]
  {
    hide ReadValue, ReadCommands, AllSendable, ItemsOf, EncodeCommands;
    var tail := [prefix] + rest;
    assert EncodeCommands(lists) + [prefix] + rest == EncodeCommands(lists) + tail;
    UnknownPrefix(EncodeCommands(lists) + tail, |EncodeCommands(lists)|);
    BrokenFrameEnds(lists, tail);
  }

  lemma OneCommand(args: seq<Bytes>)
    ensures CommandFromValue(Array(Bulks(args))) == ParseCommandArgs(args)
  {
    hide Bulks;
    BulksHoldTexts(args);
  }

  /** Whatever lists of arguments the client sends, the server hears what they parse to, in order. */
  lemma CommandsArrive(lists: seq<seq<Bytes>>)
    requires AllSendable(lists)
    ensures ReadCommands(EncodeCommands(lists), 0) == ItemsOf(lists)
  {
    hide ReadValue, ReadCommands, AllSendable, ItemsOf, EncodeCommands;
    var b := EncodeCommands(lists);
    assert b + [] == b;
    StreamEnds(b);
    BrokenFrameEnds(lists, []);
    assert ItemsOf(lists) + [] == ItemsOf(lists);
  }
}
