/** A connection from end to end (src/connection.rs): bytes come in, commands are executed among those
    of other sessions, replies and messages go out, and the client shows them. */
module EndToEnd {
  import opened Basics
  import opened Decimal
  import opened Resp
  import opened Protocol
  import opened Store
  import opened PubSub
  import opened Session
  import opened Server
  import ServerProof
  import ClientLoop
  import Utf8

  // ---------- Texts

  /** What every `String` of the program is: UTF-8, and no longer than an allocation can be. */
  predicate IsText(s: Bytes) { Utf8.Valid(s) && |s| <= I64_MAX }

  predicate AreTexts(ts: seq<Bytes>) { forall i :: 0 <= i < |ts| ==> IsText(ts[i]) }

  predicate CommandTexts(c: NormalCommand) {
    match c
    case Ping(Some(m)) => IsText(m)
    case Echo(t) => IsText(t)
    case Set(_, v, _) => IsText(v)
    case Publish(channel, payload) => IsText(channel) && IsText(payload)
    case _ => true
  }

  predicate SessionTexts(c: SessionCommand) {
    match c
    case Subscribe(channels) => AreTexts(channels)
    case Unsubscribe(channels) => AreTexts(channels)
    case _ => true
  }

  predicate GoodCommand(c: Command) {
    match c
    case Normal(n) => CommandTexts(n)
    case Session(s) => SessionTexts(s)
    case Auth(_) => true
  }

  predicate GoodError(e: ProtocolError) { e.UnknownCommand? ==> Utf8.Valid(e.name) }

  predicate GoodItem(item: ReadItem) {
    match item
    case Ready(c) => GoodCommand(c)
    case Failed(e, _) => GoodError(e)
  }

  predicate GoodData(d: Data) { forall k :: k in d ==> IsText(TextOf(d[k].value)) }

  predicate GoodMessage(m: Message) { IsText(m.channel) && IsText(m.payload) }

  predicate GoodQueue(q: seq<Message>) { forall i :: 0 <= i < |q| ==> GoodMessage(q[i]) }

  predicate GoodBoxes(boxes: map<ClientId, Mailbox>) { forall c: ClientId :: c in boxes ==> GoodQueue(boxes[c].queue) }

  predicate GoodShared(shared: Shared) { GoodData(shared.data) && GoodBoxes(shared.boxes) }

  predicate GoodSession(session: SessionState) { forall channel :: channel in session.subs ==> IsText(channel) }

  lemma {:induction false} PrintIsShort(n: nat)
    ensures |PrintNat(n)| <= n / 10 + 2
  {
    if n >= 10 {
      PrintIsShort(n / 10);
    }
  }

  lemma PrintIsText(n: i64)
    ensures IsText(PrintI64(n))
  {
    PrintIsShort(if n < 0 then 0 - n as int else n);
    Utf8.AsciiIsValid(PrintI64(n));
  }

  lemma AsciiIsText(s: string)
    requires |s| <= 100
    ensures IsText(Ascii(s))
  {
    Utf8.AsciiIsValid(Ascii(s));
  }

  // ---------- Whatever the server reads is made of texts

  lemma {:induction false} UpperKeepsUtf8(s: Bytes)
    requires Utf8.Valid(s)
    ensures Utf8.Valid(Upper(s))
  {
    if s != [] {
      var n := Utf8.HeadLen(s);
      UpperHead(s);
      UpperKeepsUtf8(s[n..]);
      assert Upper(s)[n..] == Upper(s[n..]);
    }
  }

  lemma UpperHead(s: Bytes)
    requires s != [] && Utf8.HeadLen(s) > 0
    ensures Utf8.HeadLen(Upper(s)) == Utf8.HeadLen(s)
  {
    var u := Upper(s);
    assert u[0] == UpperByte(s[0]);
    assert |s| >= 2 ==> u[1] == UpperByte(s[1]);
    assert |s| >= 3 ==> u[2] == UpperByte(s[2]);
    assert |s| >= 4 ==> u[3] == UpperByte(s[3]);
  }

  lemma ParsedCommandIsGood(args: seq<Bytes>)
    requires AreTexts(args)
    ensures GoodItem(ItemOf(ParseCommandArgs(args)))
  {
    hide Upper, Ascii, ParseU64, ParseI64, IsText;
    if args != [] {
      assert IsText(args[0]);
      assert Utf8.Valid(Upper(args[0])) by { UpperOfText(args[0]); }
    }
  }

  lemma UpperOfText(s: Bytes)
    requires IsText(s)
    ensures Utf8.Valid(Upper(s))
  {
    UpperKeepsUtf8(s);
  }

  predicate BulksAreTexts(items: seq<RespValue>) {
    forall i :: 0 <= i < |items| && items[i].Bulk? ==> IsText(items[i].text)
  }

  lemma {:induction false} ItemsReadAreTexts(b: Bytes, i: nat, k: nat)
    requires ReadArrayItems(b, i, k).Got?
    ensures BulksAreTexts(ReadArrayItems(b, i, k).value)
    decreases k
  {
    hide ReadNumber, ReadUtf8Line;
    if k > 0 {
      ItemsReadAreTexts(b, ReadNonArray(b, i).next, k - 1);
    }
  }

  lemma ReadItemIsGood(b: Bytes, i: nat)
    requires ReadValue(b, i).Got?
    ensures GoodItem(ItemOf(CommandFromValue(ReadValue(b, i).value)))
  {
    hide ReadNonArray, ReadArrayItems, ReadNumber, ParseCommandArgs, IsText;
    var v := ReadValue(b, i).value;
    NoArray(b, i);
    if v.Array? && v.items != [] && AllBulk(v.items) {
      var header := ReadNumber(b, i + 1);
      ItemsReadAreTexts(b, header.next, header.value);
      ParsedCommandIsGood(Texts(v.items));
    }
  }

  lemma NoArray(b: Bytes, i: nat)
    requires i < |b|
    ensures ReadNonArray(b, i).Got? ==> !ReadNonArray(b, i).value.Array?
  {
  }

  predicate GoodItems(items: seq<ReadItem>) { forall k :: 0 <= k < |items| ==> GoodItem(items[k]) }

  /** On any bytes at all: what reaches the connection task is made of texts. */
  lemma {:induction false} ReadCommandsAreGood(b: Bytes, i: nat)
    requires i <= |b|
    ensures GoodItems(ReadCommands(b, i))
    decreases |b| - i
  {
    hide ReadValue, CommandFromValue;
    if ReadValue(b, i).Got? {
      ReadItemIsGood(b, i);
      ReadCommandsAreGood(b, ReadValue(b, i).next);
    }
  }

  // ---------- Whatever a session answers can be read

  lemma CounterKeepsTexts(d: Data, now: Time, k: Bytes, delta: i64)
    requires GoodData(d)
    ensures GoodData(IncrByKey(d, now, k, delta).0)
  {
    hide PrintI64, ParseI64, IsText;
    assert IsText([]) by { EmptyIsText(); }
    PrintIsText(0);
    var r := IncrByKey(d, now, k, delta).1;
    if r.Count? {
      PrintIsText(r.n);
    }
  }

  lemma EmptyIsText()
    ensures IsText([])
  {
  }

  lemma {:induction false} DelKeepsTexts(d: Data, now: Time, ks: seq<Bytes>)
    requires GoodData(d)
    ensures GoodData(DelAll(d, now, ks).0)
  {
    hide IsText;
    if ks != [] {
      DelKeepsTexts(d - {ks[0]}, now, ks[1..]);
    }
  }

  lemma StoreKeepsTexts(d: Data, now: Time, c: NormalCommand)
    requires IsStoreCommand(c) && GoodData(d) && CommandTexts(c)
    ensures GoodData(Executed(d, now, c).0)
  {
    hide IsText, CastI64, DelAll, IncrByKey, CountedReply, TextReply, BoolReply;
    if DeltaOf(c).Some? {
      CounterKeepsTexts(d, now, DeltaOf(c).value.0, DeltaOf(c).value.1);
    } else if c.Del? {
      DelKeepsTexts(d, now, c.keys);
    }
  }

  lemma StoreReplyIsGood(d: Data, now: Time, c: NormalCommand)
    requires IsStoreCommand(c) && GoodData(d) && CommandTexts(c)
    ensures WellFormed(Executed(d, now, c).1)
  {
    hide IsText, Ascii, CastI64, DelAll, IncrByKey, SetKey, ExpireKey, PersistKey, CopyKey, TtlKey, Live, GetKey,
      WellFormed, TextReply, CountedReply, BoolReply, GoodData;
    if DeltaOf(c).Some? {
      CountIsWellFormed(IncrByKey(d, now, DeltaOf(c).value.0, DeltaOf(c).value.1).1);
    } else {
      match c
      case Get(k) => GottenIsWellFormed(d, now, k);
      case Set(_, _, _) => ConstantsAreGood();
      case Del(ks) => IntegerIsWellFormed(CastI64(DelAll(d, now, ks).1));
      case Exists(k) => BoolIsWellFormed(Live(d, k, now));
      case Expire(k, secs) => BoolIsWellFormed(ExpireKey(d, now, k, secs).1);
      case Ttl(k) => IntegerIsWellFormed(TtlKey(d, now, k));
      case Persist(k) => BoolIsWellFormed(PersistKey(d, now, k).1);
      case Copy(s, t, replace) => BoolIsWellFormed(CopyKey(d, now, s, t, replace).1);
      case _ =>
    }
  }

  lemma GottenIsWellFormed(d: Data, now: Time, k: Bytes)
    requires GoodData(d)
    ensures WellFormed(TextReply(GetKey(d, now, k).1))
  {
    hide IsText, TextOf;
    if k in d {
      TextIsWellFormed(TextOf(d[k].value));
    }
  }

  lemma CountIsWellFormed(r: Counted)
    ensures WellFormed(CountedReply(r))
  {
    hide Ascii;
    ConstantsAreGood();
  }

  lemma IntegerIsWellFormed(n: i64)
    ensures WellFormed(Integer(n))
  {
  }

  lemma BoolIsWellFormed(b: bool)
    ensures WellFormed(BoolReply(b))
  {
  }

  lemma TextIsWellFormed(s: Bytes)
    requires IsText(s)
    ensures WellFormed(Bulk(s)) && WellFormed(Simple(s)) && WellFormed(Error(s))
  {
  }

  lemma ConstantsAreGood()
    ensures WellFormed(OK_REPLY) && WellFormed(NOT_AN_INTEGER) && WellFormed(WOULD_OVERFLOW)
    ensures WellFormed(Simple(Ascii("PONG"))) && WellFormed(Simple(Ascii("RESET")))
    ensures WellFormed(NOAUTH) && WellFormed(NO_PASSWORD_SET) && WellFormed(WRONGPASS) && WellFormed(SUBSCRIBED_MODE)
  {
    hide Utf8.Valid, Ascii;
    AsciiIsText("OK");
    AsciiIsText("value is not an integer or out of range");
    AsciiIsText("increment or decrement would overflow");
    AsciiIsText("PONG");
    AsciiIsText("RESET");
    AsciiIsText("NOAUTH Authentication required");
    AsciiIsText("Client sent AUTH but no password is set");
    AsciiIsText("WRONGPASS invalid password");
    AsciiIsText("Can't execute command in subscribed mode");
  }

  lemma {:induction false} WellFormedConcat(vs: seq<RespValue>, ws: seq<RespValue>)
    requires AllWellFormed(vs) && AllWellFormed(ws)
    ensures AllWellFormed(vs + ws)
  {
    hide WellFormed;
    if vs == [] {
      assert vs + ws == ws;
    } else {
      WellFormedConcat(vs[1..], ws);
      assert (vs + ws)[1..] == vs[1..] + ws;
    }
  }

  lemma OneWellFormed(v: RespValue)
    requires WellFormed(v)
    ensures AllWellFormed([v])
  {
    hide WellFormed;
    assert [v][1..] == [];
  }

  lemma TripleIsWellFormed(a: RespValue, b: RespValue, c: RespValue)
    requires WellFormed(a) && WellFormed(b) && WellFormed(c)
    ensures WellFormed(Array([a, b, c]))
  {
    OneWellFormed(c);
    assert [b, c][1..] == [c] && [a, b, c][1..] == [b, c];
    assert AllWellFormed([b, c]) && AllWellFormed([a, b, c]);
  }

  lemma PairIsWellFormed(a: RespValue, b: RespValue)
    requires WellFormed(a) && WellFormed(b)
    ensures WellFormed(Array([a, b]))
  {
    OneWellFormed(b);
    assert [a, b][1..] == [b];
    assert AllWellFormed([a, b]);
  }

  lemma SubscribeReplyIsGood(channel: Bytes, count: nat)
    requires IsText(channel)
    ensures WellFormed(SubscribeReply(channel, count)) && WellFormed(UnsubscribeReply(Some(channel), count))
    ensures WellFormed(UnsubscribeReply(None, count))
  {
    hide Utf8.Valid, Ascii, CastI64;
    AsciiIsText("subscribe");
    AsciiIsText("unsubscribe");
    TripleIsWellFormed(Bulk(Ascii("subscribe")), Bulk(channel), Integer(CastI64(count)));
    TripleIsWellFormed(Bulk(Ascii("unsubscribe")), Bulk(channel), Integer(CastI64(count)));
    TripleIsWellFormed(Bulk(Ascii("unsubscribe")), Nil, Integer(CastI64(count)));
  }

  lemma PongIsGood(message: Option<Bytes>)
    requires message.Some? ==> IsText(message.value)
    ensures WellFormed(SubscribedPongReply(message))
  {
    hide Utf8.Valid, Ascii;
    AsciiIsText("pong");
    EmptyIsText();
    PairIsWellFormed(Bulk(Ascii("pong")), Bulk(match message case Some(m) => m case None => []));
  }

  /** What holds of a session's outcome. */
  predicate GoodOutcome(o: Outcome) { GoodSession(o.session) && GoodShared(o.shared) && AllWellFormed(o.replies) }

  lemma {:induction false} SubscribeAllIsGood(session: SessionState, shared: Shared, channels: seq<Bytes>)
    requires GoodSession(session) && GoodShared(shared) && AreTexts(channels)
    ensures GoodOutcome(SubscribeAll(session, shared, channels))
    decreases |channels|
  {
    hide Enter, SubscribeReply, WellFormed, IsText, GoodData, GoodBoxes;
    if channels != [] {
      var session' := session.(subs := session.subs + {channels[0]});
      var shared' := shared.(channels := Enter(shared.channels, session.id, channels[0]));
      SubscribeAllIsGood(session', shared', channels[1..]);
      SubscribeReplyIsGood(channels[0], |session'.subs|);
      assert SubscribeAll(session, shared, channels).replies[1..] == SubscribeAll(session', shared', channels[1..]).replies;
    }
  }

  lemma {:induction false} UnsubscribeAllIsGood(session: SessionState, shared: Shared, channels: seq<Bytes>)
    requires GoodSession(session) && GoodShared(shared) && AreTexts(channels)
    ensures GoodOutcome(UnsubscribeAll(session, shared, channels))
    decreases |channels|
  {
    hide Leave, UnsubscribeReply, WellFormed, IsText, GoodData, GoodBoxes;
    if channels != [] {
      var session' := session.(subs := session.subs - {channels[0]});
      var shared' := shared.(channels := Leave(shared.channels, {session.id}, channels[0]));
      UnsubscribeAllIsGood(session', shared', channels[1..]);
      SubscribeReplyIsGood(channels[0], |session'.subs|);
      assert UnsubscribeAll(session, shared, channels).replies[1..] == UnsubscribeAll(session', shared', channels[1..]).replies;
    }
  }

  lemma SingleIsGood(session: SessionState, shared: Shared, reply: RespValue)
    requires GoodSession(session) && GoodShared(shared) && WellFormed(reply)
    ensures GoodOutcome(Single(session, shared, reply))
  {
    OneWellFormed(reply);
  }

  lemma SessionCommandIsGood(session: SessionState, shared: Shared, c: SessionCommand, order: seq<Bytes>)
    requires GoodSession(session) && GoodShared(shared) && SessionTexts(c) && AreTexts(order)
    ensures GoodOutcome(ExecuteSession(session, shared, c, order))
  {
    hide SubscribeAll, UnsubscribeAll, LeaveAll, WellFormed, AllWellFormed, IsText, GoodData, GoodBoxes, UnsubscribeReply, Ascii;
    ConstantsAreGood();
    match c
    case Subscribe(channels) => SubscribeAllIsGood(session, shared, channels);
    case Unsubscribe(channels) =>
      UnsubscribeAllIsGood(session, shared, if channels == [] then order else channels);
      EmptyIsText();
      SubscribeReplyIsGood([], 0);
      OneWellFormed(UnsubscribeReply(None, 0));
    case Quit => OneWellFormed(OK_REPLY);
    case Reset => OneWellFormed(Simple(Ascii("RESET")));
  }

  lemma OfferedAreGood(boxes: map<ClientId, Mailbox>, cs: set<ClientId>, m: Message)
    requires GoodBoxes(boxes) && GoodMessage(m)
    ensures GoodBoxes(Offered(boxes, cs, m))
  {
    hide GoodMessage;
  }

  lemma NormalCommandIsGood(shared: Shared, now: Time, c: NormalCommand)
    requires GoodShared(shared) && CommandTexts(c)
    ensures GoodShared(ExecuteNormal(shared, now, c).0) && WellFormed(ExecuteNormal(shared, now, c).1)
  {
    hide Executed, Offered, Refusing, Taking, Leave, IsText, GoodData, GoodBoxes, CastI64, Ascii;
    ConstantsAreGood();
    if c.Publish? {
      OfferedAreGood(shared.boxes, Subscribers(shared.channels, c.channel), Message(c.channel, c.payload));
    } else if c.Ping? {
      if c.message.Some? {
        TextIsWellFormed(c.message.value);
      }
    } else if c.Echo? {
      TextIsWellFormed(c.text);
    } else {
      StoreKeepsTexts(shared.data, now, c);
      StoreReplyIsGood(shared.data, now, c);
    }
  }

  /** Every reply of every command can be framed and parsed, and what a command stores, queues or
      remembers are texts again. */
  lemma CommandIsGood(session: SessionState, shared: Shared, now: Time, c: Command, order: seq<Bytes>)
    requires GoodSession(session) && GoodShared(shared) && GoodCommand(c) && AreTexts(order)
    ensures GoodOutcome(Execute(session, shared, now, c, order))
  {
    hide ExecuteNormal, ExecuteSession, WellFormed, AllWellFormed, IsText, GoodShared, Ascii, SubscribedPongReply;
    ConstantsAreGood();
    if c.Auth? {
      SingleIsGood(session, shared, NO_PASSWORD_SET);
      SingleIsGood(session.(isAuthed := true), shared, OK_REPLY);
      SingleIsGood(session, shared, WRONGPASS);
    } else if !session.isAuthed {
      SingleIsGood(session, shared, NOAUTH);
      if c.Normal? && c.normal.Ping? {
        PingIsGood(c.normal.message);
        SingleIsGood(session, shared, PingReply(c.normal.message));
      }
    } else if c.Session? {
      SessionCommandIsGood(session, shared, c.session, order);
    } else if session.subs != {} {
      SingleIsGood(session, shared, SUBSCRIBED_MODE);
      if c.normal.Ping? {
        PongIsGood(c.normal.message);
        SingleIsGood(session, shared, SubscribedPongReply(c.normal.message));
      }
    } else {
      NormalCommandIsGood(shared, now, c.normal);
      var (shared', reply) := ExecuteNormal(shared, now, c.normal);
      SingleIsGood(session, shared', reply);
    }
  }

  lemma PingIsGood(message: Option<Bytes>)
    requires message.Some? ==> IsText(message.value)
    ensures WellFormed(PingReply(message))
  {
    hide Ascii;
    ConstantsAreGood();
    if message.Some? {
      TextIsWellFormed(message.value);
    }
  }

  // ---------- A connection

  /** The task of one connection: its session, the shared state as it is now, what the reader task has
      sent and is not taken yet, and what was written to the socket, as replies and as bytes. */
  datatype Connection = Connection(
    session: SessionState,
    shared: Shared,
    items: seq<ReadItem>,
    written: seq<RespValue>,
    bytes: Bytes,
    open: bool)

  /** `Others` is anything the rest of the server does to the shared state; `Take` executes the next
      item of the reader task, with the session's set walked in the order given; `Drain` writes the
      next message of the session's queue; `Stop` leaves the loop for any other reason. */
  datatype Turn =
    | Others(shared: Shared)
    | Take(now: Time, order: seq<Bytes>)
    | Drain
    | Stop

  function MessageReply(m: Message): RespValue {
    Array([Bulk(Ascii("message")), Bulk(m.channel), Bulk(m.payload)])
  }

  function Wrote(c: Connection, replies: seq<RespValue>): Connection {
    c.(written := c.written + replies, bytes := c.bytes + EncodeValues(replies))
  }

  /** One turn of the loop of `handle_connection`. `texts` are the error texts, which the model leaves
      out. */
  function After(c: Connection, t: Turn, texts: ProtocolError -> Bytes): Connection {
    if !c.open then c
    else
      match t
      case Others(shared) => c.(shared := shared)
      case Take(now, order) =>
        if c.items == [] then c
        else
          (match c.items[0]
           case Failed(e, close) => Wrote(c, [Error(texts(e))]).(items := c.items[1..], open := !close)
           case Ready(command) =>
             var o := Execute(c.session, c.shared, now, command, order);
             Wrote(c, o.replies).(session := o.session, shared := o.shared, items := c.items[1..], open := !o.close))
      case Stop => c.(open := false)
      case Drain =>
        if c.session.id !in c.shared.boxes || c.shared.boxes[c.session.id].queue == [] then c
        else
          var box := c.shared.boxes[c.session.id];
          Wrote(c, [MessageReply(box.queue[0])]).(
            shared := c.shared.(boxes := c.shared.boxes[c.session.id := box.(queue := box.queue[1..])]))
  }

  function AfterAll(c: Connection, turns: seq<Turn>, texts: ProtocolError -> Bytes): Connection
    decreases |turns|
  {
    if turns == [] then c else AfterAll(After(c, turns[0], texts), turns[1..], texts)
  }

  /** Nobody else puts anything but texts into the shared state, and the set holds texts; by
      `CommandIsGood` no command of any session ever does otherwise. */
  predicate GoodTurn(t: Turn) {
    match t
    case Others(shared) => GoodShared(shared)
    case Take(_, order) => AreTexts(order)
    case _ => true
  }

  predicate GoodTurns(turns: seq<Turn>) { turns == [] || (GoodTurn(turns[0]) && GoodTurns(turns[1..])) }

  ghost predicate GoodTexts(texts: ProtocolError -> Bytes) { forall e :: GoodError(e) ==> Utf8.Valid(texts(e)) }

  predicate GoodConnection(c: Connection) {
    && GoodSession(c.session) && GoodShared(c.shared) && GoodItems(c.items)
    && AllWellFormed(c.written) && c.bytes == EncodeValues(c.written)
  }

  lemma {:induction false} EncodeConcat(vs: seq<RespValue>, ws: seq<RespValue>)
    ensures EncodeValues(vs + ws) == EncodeValues(vs) + EncodeValues(ws)
  {
    hide EncodeValue;
    if vs == [] {
      assert vs + ws == ws;
    } else {
      EncodeConcat(vs[1..], ws);
      assert (vs + ws)[1..] == vs[1..] + ws;
    }
  }

  lemma WroteIsGood(c: Connection, replies: seq<RespValue>)
    requires GoodConnection(c) && AllWellFormed(replies)
    ensures GoodConnection(Wrote(c, replies))
  {
    hide AllWellFormed, EncodeValues, GoodShared, GoodItem, IsText;
    EncodeConcat(c.written, replies);
    WellFormedConcat(c.written, replies);
  }

  lemma DrainIsGood(shared: Shared, id: ClientId)
    requires GoodShared(shared) && id in shared.boxes && shared.boxes[id].queue != []
    ensures var box := shared.boxes[id];
            && AllWellFormed([MessageReply(box.queue[0])])
            && GoodShared(shared.(boxes := shared.boxes[id := box.(queue := box.queue[1..])]))
  {
    hide Utf8.Valid, Ascii, GoodData, WellFormed;
    var m := shared.boxes[id].queue[0];
    assert GoodMessage(m);
    AsciiIsText("message");
    TextIsWellFormed(Ascii("message"));
    TextIsWellFormed(m.channel);
    TextIsWellFormed(m.payload);
    TripleIsWellFormed(Bulk(Ascii("message")), Bulk(m.channel), Bulk(m.payload));
    OneWellFormed(MessageReply(m));
  }

  lemma TurnKeepsGood(c: Connection, t: Turn, texts: ProtocolError -> Bytes)
    requires GoodConnection(c) && GoodTurn(t) && GoodTexts(texts)
    ensures GoodConnection(After(c, t, texts))
  {
    hide Execute, AllWellFormed, EncodeValues, GoodShared, GoodCommand, IsText, MessageReply;
    match t
    case Others(_) =>
    case Stop =>
    case Drain =>
      if c.session.id in c.shared.boxes && c.shared.boxes[c.session.id].queue != [] {
        DrainIsGood(c.shared, c.session.id);
        WroteIsGood(c, [MessageReply(c.shared.boxes[c.session.id].queue[0])]);
      }
    case Take(now, order) =>
      if c.items != [] {
        assert GoodItem(c.items[0]);
        match c.items[0]
        case Failed(e, _) =>
          OneWellFormed(Error(texts(e)));
          WroteIsGood(c, [Error(texts(e))]);
        case Ready(command) =>
          CommandIsGood(c.session, c.shared, now, command, order);
          WroteIsGood(c, Execute(c.session, c.shared, now, command, order).replies);
      }
  }

  lemma {:induction false} TurnsKeepGood(c: Connection, turns: seq<Turn>, texts: ProtocolError -> Bytes)
    requires GoodConnection(c) && GoodTurns(turns) && GoodTexts(texts)
    ensures GoodConnection(AfterAll(c, turns, texts))
    decreases |turns|
  {
    hide GoodConnection, After, GoodTurn, GoodTexts;
    if turns != [] {
      TurnKeepsGood(c, turns[0], texts);
      TurnsKeepGood(After(c, turns[0], texts), turns[1..], texts);
    }
  }

  function Fresh(session: SessionState, shared: Shared, input: Bytes): Connection {
    Connection(session, shared, ReadCommands(input, 0), [], [], true)
  }

  /** A server starts with texts only, and so does every session. */
  lemma StartsGood(password: Option<Bytes>, shared: Shared, id: ClientId)
    ensures GoodShared(Shared(password, map[], map[], map[])) && GoodSession(NewSession(shared, id))
  {
  }

  // ---------- What a client is owed

  /** What a session says to the items of its reader task, one `Take` after the other, each in the state
      that the commands so far and the rest of the server have left: the replies of `Execute`, one error
      for a refused item, and for each `Drain` the oldest message of the queue. Nothing is said behind
      an item that closes the connection. */
  function Answers(
    session: SessionState, shared: Shared, items: seq<ReadItem>, turns: seq<Turn>, texts: ProtocolError -> Bytes)
    : seq<RespValue>
    decreases |turns|
  {
    if turns == [] || turns[0].Stop? then []
    else
      var rest := turns[1..];
      match turns[0]
      case Others(now) => Answers(session, now, items, rest, texts)
      case Drain =>
        var q := if session.id in shared.boxes then shared.boxes[session.id].queue else [];
        if q == [] then Answers(session, shared, items, rest, texts)
        else
          [Array([Bulk(Ascii("message")), Bulk(q[0].channel), Bulk(q[0].payload)])]
          + Answers(session, WithQueue(shared, session.id, q[1..]), items, rest, texts)
      case Take(now, order) =>
        if items == [] then Answers(session, shared, items, rest, texts)
        else
          match items[0]
          case Failed(e, true) => [Error(texts(e))]
          case Failed(e, false) => [Error(texts(e))] + Answers(session, shared, items[1..], rest, texts)
          case Ready(command) =>
            var o := Execute(session, shared, now, command, order);
            o.replies + if o.close then [] else Answers(o.session, o.shared, items[1..], rest, texts)
  }

  function WithQueue(shared: Shared, id: ClientId, q: seq<Message>): Shared
    requires id in shared.boxes
  {
    shared.(boxes := shared.boxes[id := shared.boxes[id].(queue := q)])
  }

  /** A connection that is closed writes nothing more. */
  lemma {:induction false} ClosedIsSilent(c: Connection, turns: seq<Turn>, texts: ProtocolError -> Bytes)
    requires !c.open
    ensures AfterAll(c, turns, texts) == c
    decreases |turns|
  {
    if turns != [] {
      ClosedIsSilent(c, turns[1..], texts);
    }
  }

  /** What the later turns owe. */
  function Later(c: Connection, turns: seq<Turn>, texts: ProtocolError -> Bytes): seq<RespValue> {
    if c.open then Answers(c.session, c.shared, c.items, turns, texts) else []
  }

  lemma TakePays(c: Connection, now: Time, order: seq<Bytes>, rest: seq<Turn>, texts: ProtocolError -> Bytes)
    requires c.open && c.items != []
    ensures var c' := After(c, Take(now, order), texts);
            c'.written + Later(c', rest, texts) ==
            c.written + Answers(c.session, c.shared, c.items, [Take(now, order)] + rest, texts)
  {
    hide Execute, EncodeValues, Ascii;
    assert ([Take(now, order)] + rest)[1..] == rest;
    var c' := After(c, Take(now, order), texts);
    var later := Later(c', rest, texts);
    if c.items[0].Ready? {
      var replies := Execute(c.session, c.shared, now, c.items[0].command, order).replies;
      assert c.written + (replies + later) == c.written + replies + later;
    } else {
      var error: RespValue := Error(texts(c.items[0].error));
      assert c.written + ([error] + later) == c.written + [error] + later;
      assert [error] + [] == [error];
    }
  }

  lemma DrainPays(c: Connection, rest: seq<Turn>, texts: ProtocolError -> Bytes)
    requires c.open && c.session.id in c.shared.boxes && c.shared.boxes[c.session.id].queue != []
    ensures var c' := After(c, Drain, texts);
            c'.written + Later(c', rest, texts) ==
            c.written + Answers(c.session, c.shared, c.items, [Drain] + rest, texts)
  {
    hide EncodeValues, Ascii;
    assert ([Drain] + rest)[1..] == rest;
    var later := Later(After(c, Drain, texts), rest, texts);
    var reply := MessageReply(c.shared.boxes[c.session.id].queue[0]);
    assert c.written + ([reply] + later) == c.written + [reply] + later;
  }

  /** What one turn owes, with what the later ones do. */
  lemma TurnPays(c: Connection, turns: seq<Turn>, texts: ProtocolError -> Bytes)
    requires c.open && turns != []
    ensures var c' := After(c, turns[0], texts);
            c'.written + Later(c', turns[1..], texts) ==
            c.written + Answers(c.session, c.shared, c.items, turns, texts)
  {
    assert turns == [turns[0]] + turns[1..];
    if turns[0].Take? && c.items != [] {
      hide After, Answers, Later;
      TakePays(c, turns[0].now, turns[0].order, turns[1..], texts);
    } else if turns[0].Drain? && c.session.id in c.shared.boxes && c.shared.boxes[c.session.id].queue != [] {
      hide After, Answers, Later;
      DrainPays(c, turns[1..], texts);
    } else {
      hide Execute, EncodeValues, Ascii;
    }
  }

  /** What is written is what is owed, in order and in full. */
  lemma {:induction false} WrittenAreAnswers(c: Connection, turns: seq<Turn>, texts: ProtocolError -> Bytes)
    requires c.open
    ensures AfterAll(c, turns, texts).written == c.written + Answers(c.session, c.shared, c.items, turns, texts)
    decreases |turns|
  {
    hide After;
    if turns != [] {
      var c' := After(c, turns[0], texts);
      TurnPays(c, turns, texts);
      if c'.open {
        WrittenAreAnswers(c', turns[1..], texts);
      } else {
        ClosedIsSilent(c', turns[1..], texts);
        assert c'.written + [] == c'.written;
      }
    }
  }

  /** Whatever bytes a client sends, and whatever goes on in the server, the bytes written back frame and
      parse as exactly what the session says to the items read from them, in order, up to the normal
      form. */
  lemma WrittenIsShown(session: SessionState, shared: Shared, input: Bytes, turns: seq<Turn>, texts: ProtocolError -> Bytes)
    requires GoodSession(session) && GoodShared(shared) && GoodTurns(turns) && GoodTexts(texts)
    ensures ClientLoop.ReadLoop(AfterAll(Fresh(session, shared, input), turns, texts).bytes, 0)
         == ClientLoop.LoopResult(Normals(Answers(session, shared, ReadCommands(input, 0), turns, texts)), None)
  {
    hide GoodSession, GoodShared, GoodTurns, GoodTexts, GoodItems, AfterAll, Answers;
    var c := Fresh(session, shared, input);
    ReadCommandsAreGood(input, 0);
    TurnsKeepGood(c, turns, texts);
    WrittenAreAnswers(c, turns, texts);
    assert [] + Answers(session, shared, ReadCommands(input, 0), turns, texts)
        == Answers(session, shared, ReadCommands(input, 0), turns, texts);
    ClientLoop.RepliesArrive(AfterAll(c, turns, texts).written);
  }

  /** From one end to the other: a client that sends argument lists is shown the normal forms of what
      the session says to the commands they parse to. */
  lemma CommandsAreAnswered(
    session: SessionState, shared: Shared, lists: seq<seq<Bytes>>, turns: seq<Turn>, texts: ProtocolError -> Bytes)
    requires ServerProof.AllSendable(lists)
    requires GoodSession(session) && GoodShared(shared) && GoodTurns(turns) && GoodTexts(texts)
    ensures ClientLoop.ReadLoop(AfterAll(Fresh(session, shared, EncodeCommands(lists)), turns, texts).bytes, 0)
         == ClientLoop.LoopResult(Normals(Answers(session, shared, ServerProof.ItemsOf(lists), turns, texts)), None)
  {
    hide GoodSession, GoodShared, GoodTurns, GoodTexts, AfterAll, Answers, ClientLoop.ReadLoop, ReadCommands;
    ServerProof.CommandsArrive(lists);
    WrittenIsShown(session, shared, EncodeCommands(lists), turns, texts);
  }
}
