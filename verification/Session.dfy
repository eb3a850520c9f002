/** One client's session: authentication, subscribed mode and the commands it passes on
    (src/session.rs, src/commands/mod.rs, src/commands/misc.rs). */
module Session {
  import opened Basics
  import opened Resp
  import opened Protocol
  import opened Store
  import opened StoreLoop
  import opened PubSub

  datatype SessionState = SessionState(isAuthed: bool, id: ClientId, subs: set<Bytes>)

  /** What all sessions share: the configured password, the store and the registry. */
  datatype Shared = Shared(password: Option<Bytes>, data: Data, channels: Registry, boxes: map<ClientId, Mailbox>)

  /** A `CommandOutcome` together with the state it leaves. */
  datatype Outcome = Outcome(session: SessionState, shared: Shared, replies: seq<RespValue>, close: bool)

  // ---------- Replies

  const NOAUTH := Error(Ascii("NOAUTH Authentication required"))
  const NO_PASSWORD_SET := Error(Ascii("Client sent AUTH but no password is set"))
  const WRONGPASS := Error(Ascii("WRONGPASS invalid password"))
  const SUBSCRIBED_MODE := Error(Ascii("Can't execute command in subscribed mode"))

  function PingReply(message: Option<Bytes>): RespValue {
    match message
    case None => Simple(Ascii("PONG"))
    case Some(m) => Bulk(m)
  }

  function SubscribedPongReply(message: Option<Bytes>): RespValue {
    Array([Bulk(Ascii("pong")), Bulk(match message case Some(m) => m case None => [])])
  }

  function SubscribeReply(channel: Bytes, count: nat): RespValue {
    Array([Bulk(Ascii("subscribe")), Bulk(channel), Integer(CastI64(count))])
  }

  function UnsubscribeReply(channel: Option<Bytes>, count: nat): RespValue {
    Array([Bulk(Ascii("unsubscribe")), TextReply(channel), Integer(CastI64(count))])
  }

  // ---------- Commands

  /** `commands::execute`. */
  function ExecuteNormal(shared: Shared, now: Time, c: NormalCommand): (Shared, RespValue) {
    match c
    case Ping(m) => (shared, PingReply(m))
    case Echo(t) => (shared, Bulk(t))
    case Publish(channel, payload) =>
      var subs, m := Subscribers(shared.channels, channel), Message(channel, payload);
      (shared.(channels := Leave(shared.channels, Refusing(shared.boxes, subs, m), channel),
               boxes := Offered(shared.boxes, subs, m)),
       Integer(CastI64(Taking(shared.boxes, subs, m))))
    case _ =>
      var (d, r) := Executed(shared.data, now, c);
      (shared.(data := d), r)
  }

  function Single(session: SessionState, shared: Shared, reply: RespValue): Outcome {
    Outcome(session, shared, [reply], false)
  }

  function ExecuteAuth(session: SessionState, shared: Shared, password: Bytes): Outcome {
    match shared.password
    case None => Single(session, shared, NO_PASSWORD_SET)
    case Some(expected) =>
      if expected == password then Single(session.(isAuthed := true), shared, OK_REPLY)
      else Single(session, shared, WRONGPASS)
  }

  function SubscribeAll(session: SessionState, shared: Shared, channels: seq<Bytes>): Outcome
    decreases |channels|
  {
    if channels == [] then Outcome(session, shared, [], false)
    else
      var channel := channels[0];
      var session' := session.(subs := session.subs + {channel});
      var shared' := shared.(channels := Enter(shared.channels, session.id, channel));
      var rest := SubscribeAll(session', shared', channels[1..]);
      rest.(replies := [SubscribeReply(channel, |session'.subs|)] + rest.replies)
  }

  function UnsubscribeAll(session: SessionState, shared: Shared, channels: seq<Bytes>): Outcome
    decreases |channels|
  {
    if channels == [] then Outcome(session, shared, [], false)
    else
      var channel := channels[0];
      var session' := session.(subs := session.subs - {channel});
      var shared' := shared.(channels := Leave(shared.channels, {session.id}, channel));
      var rest := UnsubscribeAll(session', shared', channels[1..]);
      rest.(replies := [UnsubscribeReply(Some(channel), |session'.subs|)] + rest.replies)
  }

  /** `order` is the order in which the session's own set is walked. */
  function ExecuteSession(session: SessionState, shared: Shared, c: SessionCommand, order: seq<Bytes>): Outcome {
    match c
    case Subscribe(channels) => SubscribeAll(session, shared, channels)
    case Unsubscribe(channels) =>
      var gone := if channels == [] then order else channels;
      if gone == [] then Single(session, shared, UnsubscribeReply(None, 0))
      else UnsubscribeAll(session, shared, gone)
    case Quit =>
      Outcome(session, shared.(channels := LeaveAll(shared.channels, session.id)), [OK_REPLY], true)
    case Reset =>
      Single(session.(subs := {}), shared.(channels := LeaveAll(shared.channels, session.id)), Simple(Ascii("RESET")))
  }

  function Execute(session: SessionState, shared: Shared, now: Time, c: Command, order: seq<Bytes>): Outcome {
    if c.Auth? then ExecuteAuth(session, shared, c.password)
    else if !session.isAuthed then
      Single(session, shared, if c.Normal? && c.normal.Ping? then PingReply(c.normal.message) else NOAUTH)
    else if c.Session? then ExecuteSession(session, shared, c.session, order)
    else if session.subs != {} then
      Single(session, shared, if c.normal.Ping? then SubscribedPongReply(c.normal.message) else SUBSCRIBED_MODE)
    else
      var (shared', r) := ExecuteNormal(shared, now, c.normal);
      Single(session, shared', r)
  }

  function NewSession(shared: Shared, id: ClientId): SessionState {
    SessionState(shared.password.None?, id, {})
  }

  // ---------- The objects

  class SharedState {
    const password: Option<Bytes>
    const store: DataStore
    const pubsub: PubSub

    ghost function State(): Shared
      reads this, store, pubsub
    {
      Shared(password, store.data, pubsub.channels, pubsub.boxes)
    }

    constructor (password: Option<Bytes>)
      ensures State() == Shared(password, map[], map[], map[]) && pubsub.Valid() && fresh(store) && fresh(pubsub)
    {
      this.password := password;
      store := new DataStore();
      pubsub := new PubSub();
    }
  }

  /** `order` lists a set, each element once. */
  ghost predicate Lists(order: seq<Bytes>, subs: set<Bytes>) {
    && (forall x :: x in subs <==> x in order)
    && (forall i, j :: 0 <= i < j < |order| ==> order[i] != order[j])
  }

  function Prefixed(replies: seq<RespValue>, o: Outcome): Outcome { o.(replies := replies + o.replies) }

  /** One turn of the loop behind SUBSCRIBE. */
  lemma SubscribeLoop(session: SessionState, shared: Shared, channels: seq<Bytes>, replies: seq<RespValue>)
    ensures Prefixed([], SubscribeAll(session, shared, channels)) == SubscribeAll(session, shared, channels)
    ensures channels == [] ==>
            Prefixed(replies, SubscribeAll(session, shared, channels)) == Outcome(session, shared, replies, false)
    ensures channels != [] ==>
            var session' := session.(subs := session.subs + {channels[0]});
            var shared' := shared.(channels := Enter(shared.channels, session.id, channels[0]));
            Prefixed(replies, SubscribeAll(session, shared, channels)) ==
            Prefixed(replies + [SubscribeReply(channels[0], |session'.subs|)], SubscribeAll(session', shared', channels[1..]))
  {
    hide SubscribeReply, UnsubscribeReply, Enter, Leave;
    assert replies + [] == replies;
    var all := SubscribeAll(session, shared, channels).replies;
    assert [] + all == all;
    if channels != [] {
      var session' := session.(subs := session.subs + {channels[0]});
      var rest := SubscribeAll(session', shared.(channels := Enter(shared.channels, session.id, channels[0])), channels[1..]).replies;
      var r := SubscribeReply(channels[0], |session'.subs|);
      assert replies + ([r] + rest) == replies + [r] + rest;
    }
  }

  /** One turn of the loop behind UNSUBSCRIBE. */
  lemma UnsubscribeLoop(session: SessionState, shared: Shared, channels: seq<Bytes>, replies: seq<RespValue>)
    ensures Prefixed([], UnsubscribeAll(session, shared, channels)) == UnsubscribeAll(session, shared, channels)
    ensures channels == [] ==>
            Prefixed(replies, UnsubscribeAll(session, shared, channels)) == Outcome(session, shared, replies, false)
    ensures channels != [] ==>
            var session' := session.(subs := session.subs - {channels[0]});
            var shared' := shared.(channels := Leave(shared.channels, {session.id}, channels[0]));
            Prefixed(replies, UnsubscribeAll(session, shared, channels)) ==
            Prefixed(replies + [UnsubscribeReply(Some(channels[0]), |session'.subs|)], UnsubscribeAll(session', shared', channels[1..]))
  {
    hide SubscribeReply, UnsubscribeReply, Enter, Leave;
    assert replies + [] == replies;
    var all := UnsubscribeAll(session, shared, channels).replies;
    assert [] + all == all;
    if channels != [] {
      var session' := session.(subs := session.subs - {channels[0]});
      var rest := UnsubscribeAll(session', shared.(channels := Leave(shared.channels, {session.id}, channels[0])), channels[1..]).replies;
      var r := UnsubscribeReply(Some(channels[0]), |session'.subs|);
      assert replies + ([r] + rest) == replies + [r] + rest;
    }
  }

  class ClientSession {
    var isAuthed: bool
    const clientId: ClientId
    var subscribedChannels: set<Bytes>

    ghost function State(): SessionState
      reads this
    {
      SessionState(isAuthed, clientId, subscribedChannels)
    }

    constructor (shared: SharedState)
      requires shared.pubsub.Valid()
      modifies shared.pubsub
      ensures State() == NewSession(shared.State(), old(shared.pubsub.nextClientId))
      ensures shared.pubsub.Valid() && clientId in shared.pubsub.boxes
      ensures shared.pubsub.channels == old(shared.pubsub.channels) && shared.store.data == old(shared.store.data)
    {
      var id := shared.pubsub.NextClientId();
      clientId := id;
      isAuthed := shared.password.None?;
      subscribedChannels := {};
    }

    method SubscribeTo(channels: seq<Bytes>, shared: SharedState) returns (replies: seq<RespValue>)
      requires shared.pubsub.Valid() && clientId in shared.pubsub.boxes
      modifies this`subscribedChannels, shared.pubsub`channels
      ensures shared.pubsub.Valid()
      ensures Outcome(State(), shared.State(), replies, false)
           == SubscribeAll(old(State()), old(shared.State()), channels)
    {
      hide Prefixed, SubscribeAll, Enter, Leave, SubscribeReply, UnsubscribeReply;
      replies := [];
      ghost var before, shared0 := State(), shared.State();
      SubscribeLoop(before, shared0, channels, replies);
      assert channels[0..] == channels;
      for i := 0 to |channels|
        invariant shared.pubsub.Valid()
        invariant SubscribeAll(before, shared0, channels) == Prefixed(replies, SubscribeAll(State(), shared.State(), channels[i..]))
      {
        assert channels[i..][0] == channels[i] && channels[i..][1..] == channels[i + 1..];
        SubscribeLoop(State(), shared.State(), channels[i..], replies);
        subscribedChannels := subscribedChannels + {channels[i]};
        shared.pubsub.Subscribe(clientId, channels[i]);
        replies := replies + [SubscribeReply(channels[i], |subscribedChannels|)];
      }
      assert channels[|channels|..] == [];
      SubscribeLoop(State(), shared.State(), [], replies);
    }

    method UnsubscribeFrom(channels: seq<Bytes>, shared: SharedState) returns (replies: seq<RespValue>)
      requires shared.pubsub.Valid()
      modifies this`subscribedChannels, shared.pubsub`channels
      ensures shared.pubsub.Valid()
      ensures Outcome(State(), shared.State(), replies, false)
           == UnsubscribeAll(old(State()), old(shared.State()), channels)
    {
      hide Prefixed, UnsubscribeAll, Enter, Leave, SubscribeReply, UnsubscribeReply;
      replies := [];
      ghost var before, shared0 := State(), shared.State();
      UnsubscribeLoop(before, shared0, channels, replies);
      assert channels[0..] == channels;
      for i := 0 to |channels|
        invariant shared.pubsub.Valid()
        invariant UnsubscribeAll(before, shared0, channels) == Prefixed(replies, UnsubscribeAll(State(), shared.State(), channels[i..]))
      {
        assert channels[i..][0] == channels[i] && channels[i..][1..] == channels[i + 1..];
        UnsubscribeLoop(State(), shared.State(), channels[i..], replies);
        subscribedChannels := subscribedChannels - {channels[i]};
        shared.pubsub.Unsubscribe(clientId, channels[i]);
        replies := replies + [UnsubscribeReply(Some(channels[i]), |subscribedChannels|)];
      }
      assert channels[|channels|..] == [];
      UnsubscribeLoop(State(), shared.State(), [], replies);
    }

    /** The set in some order. */
    method WalkSubscriptions() returns (order: seq<Bytes>)
      ensures Lists(order, subscribedChannels)
    {
      order := [];
      var left := subscribedChannels;
      while left != {}
        invariant left <= subscribedChannels && Lists(order, subscribedChannels - left)
      {
        var channel :| channel in left;
        left := left - {channel};
        order := order + [channel];
      }
      assert subscribedChannels - {} == subscribedChannels;
    }

    method ExecuteSessionCommand(c: SessionCommand, shared: SharedState)
      returns (replies: seq<RespValue>, close: bool, order: seq<Bytes>)
      requires shared.pubsub.Valid() && clientId in shared.pubsub.boxes
      modifies this`subscribedChannels, shared.pubsub`channels
      ensures shared.pubsub.Valid() && Lists(order, old(subscribedChannels))
      ensures Outcome(State(), shared.State(), replies, close)
           == ExecuteSession(old(State()), old(shared.State()), c, order)
    {
      close := false;
      order := WalkSubscriptions();
      match c
      case Subscribe(channels) =>
        replies := SubscribeTo(channels, shared);
      case Unsubscribe(channels) =>
        var gone := if channels == [] then order else channels;
        if gone == [] {
          replies := [UnsubscribeReply(None, 0)];
        } else {
          replies := UnsubscribeFrom(gone, shared);
        }
      case Quit =>
        Cleanup(shared);
        replies, close := [OK_REPLY], true;
      case Reset =>
        Cleanup(shared);
        subscribedChannels := {};
        replies := [Simple(Ascii("RESET"))];
    }

    method Cleanup(shared: SharedState)
      requires shared.pubsub.Valid()
      modifies shared.pubsub`channels
      ensures shared.pubsub.Valid()
      ensures shared.pubsub.channels == LeaveAll(old(shared.pubsub.channels), clientId)
    {
      shared.pubsub.UnsubscribeAll(clientId);
    }

    method RunNormal(now: Time, c: NormalCommand, shared: SharedState) returns (reply: RespValue)
      requires shared.pubsub.Valid()
      modifies shared.store, shared.pubsub
      ensures shared.pubsub.Valid() && shared.pubsub.boxes.Keys == old(shared.pubsub.boxes.Keys)
      ensures (shared.State(), reply) == ExecuteNormal(old(shared.State()), now, c)
    {
      hide Executed, Taking, Refusing, Offer;
      if c.Ping? {
        return PingReply(c.message);
      }
      if c.Echo? {
        return Bulk(c.text);
      }
      if c.Publish? {
        var delivered := shared.pubsub.Publish(c.channel, c.payload);
        return Integer(CastI64(delivered));
      }
      reply := shared.store.Execute(now, c);
    }

    method ExecuteCommand(now: Time, c: Command, shared: SharedState)
      returns (replies: seq<RespValue>, close: bool, order: seq<Bytes>)
      requires shared.pubsub.Valid() && clientId in shared.pubsub.boxes
      modifies this, shared.store, shared.pubsub
      ensures shared.pubsub.Valid() && clientId in shared.pubsub.boxes && Lists(order, old(subscribedChannels))
      ensures Outcome(State(), shared.State(), replies, close)
           == Execute(old(State()), old(shared.State()), now, c, order)
    {
      hide ExecuteNormal, ExecuteSession;
      close := false;
      order := WalkSubscriptions();
      if c.Auth? {
        if shared.password.None? {
          replies := [NO_PASSWORD_SET];
        } else if shared.password.value == c.password {
          isAuthed := true;
          replies := [OK_REPLY];
        } else {
          replies := [WRONGPASS];
        }
      } else if !isAuthed {
        replies := [if c.Normal? && c.normal.Ping? then PingReply(c.normal.message) else NOAUTH];
      } else if c.Session? {
        replies, close, order := ExecuteSessionCommand(c.session, shared);
      } else if subscribedChannels != {} {
        replies := [if c.normal.Ping? then SubscribedPongReply(c.normal.message) else SUBSCRIBED_MODE];
      } else {
        var reply := RunNormal(now, c.normal, shared);
        replies := [reply];
      }
    }
  }
}
