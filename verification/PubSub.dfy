/** The publish/subscribe registry (src/pubsub.rs). */
module PubSub {
  import opened Basics

  type ClientId = nat

  /** The capacity of a client's message queue. */
  const PUBSUB_BUFFER_SIZE := 1024

  datatype Message = Message(channel: Bytes, payload: Bytes)

  /** Who is subscribed where. A `Subscriber` holds the two senders of its own session, so the client
      id stands for it. */
  type Registry = map<Bytes, set<ClientId>>

  /** What the two senders of a session lead to: its bounded queue, closed once the session is gone,
      and the signal that it is too slow. */
  datatype Mailbox = Mailbox(queue: seq<Message>, closed: bool, signalled: bool)

  datatype Sending = Delivered | Full | Closed

  function Subscribers(reg: Registry, channel: Bytes): set<ClientId> {
    if channel in reg then reg[channel] else {}
  }

  predicate Registered(reg: Registry, c: ClientId, channel: Bytes) { c in Subscribers(reg, channel) }

  function Enter(reg: Registry, c: ClientId, channel: Bytes): Registry {
    reg[channel := Subscribers(reg, channel) + {c}]
  }

  /** Takes clients off a channel, and the channel off the registry when it was the last of them. */
  function Leave(reg: Registry, cs: set<ClientId>, channel: Bytes): Registry {
    if channel !in reg then reg
    else if reg[channel] - cs == {} then reg - {channel}
    else reg[channel := reg[channel] - cs]
  }

  function LeaveAll(reg: Registry, c: ClientId): Registry {
    map channel | channel in reg && reg[channel] - {c} != {} :: reg[channel] - {c}
  }

  /** `try_send`, and the disconnect signal for a full queue. */
  function Offer(box: Mailbox, m: Message): (Mailbox, Sending) {
    if box.closed then (box, Closed)
    else if |box.queue| >= PUBSUB_BUFFER_SIZE then (box.(signalled := true), Full)
    else (box.(queue := box.queue + [m]), Delivered)
  }

  /** The clients that cannot take the message. */
  function Refusing(boxes: map<ClientId, Mailbox>, cs: set<ClientId>, m: Message): set<ClientId> {
    set c | c in cs && c in boxes && Offer(boxes[c], m).1 != Delivered
  }

  /** The mailboxes once the message was offered to `cs`. */
  function Offered(boxes: map<ClientId, Mailbox>, cs: set<ClientId>, m: Message): map<ClientId, Mailbox> {
    map c | c in boxes :: if c in cs then Offer(boxes[c], m).0 else boxes[c]
  }

  /** How many of `cs` take the message. */
  function Taking(boxes: map<ClientId, Mailbox>, cs: set<ClientId>, m: Message): nat {
    |cs - Refusing(boxes, cs, m)|
  }

  lemma NobodyYet(boxes: map<ClientId, Mailbox>, m: Message)
    ensures Refusing(boxes, {}, m) == {} && Offered(boxes, {}, m) == boxes && Taking(boxes, {}, m) == 0
  {
  }

  lemma OneMore(boxes: map<ClientId, Mailbox>, done: set<ClientId>, c: ClientId, m: Message)
    requires c in boxes && c !in done && done <= boxes.Keys
    ensures c in Offered(boxes, done, m) && Offered(boxes, done, m)[c] == boxes[c]
    ensures var (box, sending) := Offer(boxes[c], m);
            && Offered(boxes, done + {c}, m) == Offered(boxes, done, m)[c := box]
            && Refusing(boxes, done + {c}, m) == Refusing(boxes, done, m) + (if sending != Delivered then {c} else {})
            && Taking(boxes, done + {c}, m) == Taking(boxes, done, m) + (if sending != Delivered then 0 else 1)
  {
    hide Offer;
    var r := Refusing(boxes, done, m);
    if Offer(boxes[c], m).1 != Delivered {
      assert done + {c} - (r + {c}) == done - r;
    } else {
      assert done + {c} - r == (done - r) + {c};
    }
  }

  // ---------- What a publish comes to

  predicate NoEmptyChannel(reg: Registry) { forall channel :: channel in reg ==> reg[channel] != {} }

  /** A mailbox that can take one more message. */
  predicate HasRoom(box: Mailbox) { !box.closed && |box.queue| < 1024 }

  /** What one message does to one mailbox: a queue with room gains it at its end, a full one is
      signalled, a closed one stays as it is. */
  predicate Reached(box: Mailbox, box': Mailbox, m: Message) {
    && box'.closed == box.closed
    && box'.queue == (if HasRoom(box) then box.queue + [m] else box.queue)
    && (box'.signalled <==> box.signalled || (!box.closed && |box.queue| >= 1024))
  }

  /** The mailboxes after a message to the subscribers `subs`. */
  ghost predicate AllReached(boxes: map<ClientId, Mailbox>, boxes': map<ClientId, Mailbox>, subs: set<ClientId>, m: Message) {
    && boxes'.Keys == boxes.Keys
    && forall c: ClientId :: c in boxes ==> if c in subs then Reached(boxes[c], boxes'[c], m) else boxes'[c] == boxes[c]
  }

  /** The subscribers whose mailbox has room. */
  function WithRoom(boxes: map<ClientId, Mailbox>, subs: set<ClientId>): set<ClientId>
    requires subs <= boxes.Keys
  {
    set c | c in subs && HasRoom(boxes[c])
  }

  /** A whole publish: whoever has room is counted and gets the message, and of the registry only the
      entries of those without room under this channel are gone. */
  ghost predicate PublishEffect(
    reg: Registry, boxes: map<ClientId, Mailbox>, m: Message, reg': Registry, boxes': map<ClientId, Mailbox>, delivered: nat)
  {
    var subs := if m.channel in reg then reg[m.channel] else {};
    && subs <= boxes.Keys
    && delivered == |WithRoom(boxes, subs)|
    && AllReached(boxes, boxes', subs, m)
    && (forall c: ClientId, channel: Bytes :: Registered(reg', c, channel) <==>
          Registered(reg, c, channel) && !(channel == m.channel && c !in WithRoom(boxes, subs)))
    && NoEmptyChannel(reg')
  }

  lemma OfferReaches(box: Mailbox, m: Message)
    ensures Reached(box, Offer(box, m).0, m)
    ensures Offer(box, m).1 == Delivered <==> HasRoom(box)
  {
  }

  lemma SendsReach(boxes: map<ClientId, Mailbox>, subs: set<ClientId>, m: Message)
    requires subs <= boxes.Keys
    ensures AllReached(boxes, Offered(boxes, subs, m), subs, m)
    ensures subs - Refusing(boxes, subs, m) == WithRoom(boxes, subs)
  {
    hide Offer, Reached, HasRoom;
    forall c: ClientId | c in boxes
      ensures Reached(boxes[c], Offer(boxes[c], m).0, m) && (Offer(boxes[c], m).1 == Delivered <==> HasRoom(boxes[c]))
    {
      OfferReaches(boxes[c], m);
    }
  }

  lemma LeavingEntries(reg: Registry, cs: set<ClientId>, channel: Bytes)
    requires NoEmptyChannel(reg)
    ensures NoEmptyChannel(Leave(reg, cs, channel))
    ensures forall c: ClientId, other: Bytes ::
              Registered(Leave(reg, cs, channel), c, other) <==> Registered(reg, c, other) && !(other == channel && c in cs)
  {
  }

  lemma PublishComesTo(reg: Registry, boxes: map<ClientId, Mailbox>, m: Message)
    requires NoEmptyChannel(reg) && Subscribers(reg, m.channel) <= boxes.Keys
    ensures var subs := Subscribers(reg, m.channel);
            PublishEffect(reg, boxes, m, Leave(reg, Refusing(boxes, subs, m), m.channel), Offered(boxes, subs, m), Taking(boxes, subs, m))
    ensures Offered(boxes, Subscribers(reg, m.channel), m).Keys == boxes.Keys
  {
    hide Offer, Leave, Offered, HasRoom, Reached;
    var subs := Subscribers(reg, m.channel);
    SendsReach(boxes, subs, m);
    LeavingEntries(reg, Refusing(boxes, subs, m), m.channel);
    forall c: ClientId | c in subs
      ensures c in Refusing(boxes, subs, m) <==> c !in WithRoom(boxes, subs)
    {
      assert c in subs - Refusing(boxes, subs, m) <==> c in WithRoom(boxes, subs);
    }
  }

  lemma LeaveNobody(reg: Registry, channel: Bytes)
    requires NoEmptyChannel(reg)
    ensures Leave(reg, {}, channel) == reg
  {
    if channel in reg {
      var same: set<ClientId> := reg[channel] - {};
      assert same == reg[channel];
    }
  }

  lemma RoomIsTaking(boxes: map<ClientId, Mailbox>, subs: set<ClientId>, m: Message)
    requires subs <= boxes.Keys
    ensures AllReached(boxes, Offered(boxes, subs, m), subs, m)
    ensures Taking(boxes, subs, m) == |WithRoom(boxes, subs)| && Refusing(boxes, subs, m) == subs - WithRoom(boxes, subs)
  {
    hide Offer, Offered, AllReached, HasRoom;
    SendsReach(boxes, subs, m);
    assert subs - (subs - Refusing(boxes, subs, m)) == Refusing(boxes, subs, m);
  }

  class PubSub {
    var nextClientId: ClientId
    var channels: Registry
    var boxes: map<ClientId, Mailbox>

    constructor ()
      ensures nextClientId == 1 && channels == map[] && boxes == map[]
    {
      nextClientId := 1;
      channels := map[];
      boxes := map[];
    }

    ghost predicate Valid()
      reads this
    {
      NoEmptyChannel(channels) && forall channel :: channel in channels ==> channels[channel] <= boxes.Keys
    }

    /** A new id with the mailbox of the session that asked for it. */
    method NextClientId() returns (id: ClientId)
      modifies this
      ensures id == old(nextClientId) && nextClientId == id + 1
      ensures boxes == old(boxes)[id := Mailbox([], false, false)] && channels == old(channels)
      ensures old(Valid()) ==> Valid()
    {
      id := nextClientId;
      nextClientId := nextClientId + 1;
      boxes := boxes[id := Mailbox([], false, false)];
    }

    method Subscribe(c: ClientId, channel: Bytes)
      modifies this`channels
      ensures channels == Enter(old(channels), c, channel)
      ensures forall d: ClientId, other: Bytes ::
                Registered(channels, d, other) <==> Registered(old(channels), d, other) || (d == c && other == channel)
      ensures old(Valid()) && c in boxes ==> Valid()
    {
      if channel !in channels {
        channels := channels[channel := {}];
      }
      channels := channels[channel := channels[channel] + {c}];
      assert channels == Enter(old(channels), c, channel);
    }

    method Unsubscribe(c: ClientId, channel: Bytes)
      modifies this`channels
      ensures channels == Leave(old(channels), {c}, channel)
      ensures forall d: ClientId, other: Bytes ::
                Registered(channels, d, other) <==> Registered(old(channels), d, other) && !(d == c && other == channel)
      ensures old(Valid()) ==> Valid()
    {
      if channel in channels {
        channels := channels[channel := channels[channel] - {c}];
        if channels[channel] == {} {
          channels := channels - {channel};
        }
      }
      assert channels == Leave(old(channels), {c}, channel);
    }

    method UnsubscribeAll(c: ClientId)
      modifies this`channels
      ensures channels == LeaveAll(old(channels), c)
      ensures forall d: ClientId, other: Bytes ::
                Registered(channels, d, other) <==> Registered(old(channels), d, other) && d != c
      ensures old(Valid()) ==> Valid()
    {
      channels := map channel | channel in channels && channels[channel] - {c} != {} :: channels[channel] - {c};
    }

    /** The sends of a publish, outside the lock and in any order. */
    method SendAll(subscribers: set<ClientId>, m: Message) returns (delivered: nat, disconnected: set<ClientId>)
      requires subscribers <= boxes.Keys
      modifies this`boxes
      ensures boxes == Offered(old(boxes), subscribers, m)
      ensures disconnected == Refusing(old(boxes), subscribers, m)
      ensures delivered == Taking(old(boxes), subscribers, m)
      ensures AllReached(old(boxes), boxes, subscribers, m)
      ensures delivered == |WithRoom(old(boxes), subscribers)| && disconnected == subscribers - WithRoom(old(boxes), subscribers)
    {
      hide Offer, Refusing, Offered, Taking, AllReached, WithRoom;
      delivered := 0;
      disconnected := {};
      var left := subscribers;
      ghost var before := boxes;
      ghost var done: set<ClientId> := {};
      NobodyYet(before, m);
      while left != {}
        invariant left <= subscribers && done == subscribers - left
        invariant boxes == Offered(before, done, m)
        invariant disconnected == Refusing(before, done, m) && delivered == Taking(before, done, m)
      {
        var c :| c in left;
        OneMore(before, done, c, m);
        var (box, sending) := Offer(boxes[c], m);
        boxes := boxes[c := box];
        left, done := left - {c}, done + {c};
        if sending == Delivered {
          delivered := delivered + 1;
        } else {
          disconnected := disconnected + {c};
        }
      }
      assert done == subscribers;
      RoomIsTaking(before, subscribers, m);
    }

    /** One message to everyone in the snapshot; whoever could not take it is evicted. */
    method Publish(channel: Bytes, payload: Bytes) returns (delivered: nat)
      requires Valid()
      modifies this`channels, this`boxes
      ensures Valid()
      ensures var subs, m := Subscribers(old(channels), channel), Message(channel, payload);
              && delivered == Taking(old(boxes), subs, m)
              && channels == Leave(old(channels), Refusing(old(boxes), subs, m), channel)
              && boxes == Offered(old(boxes), subs, m)
      ensures PublishEffect(old(channels), old(boxes), Message(channel, payload), channels, boxes, delivered)
    {
      hide Offer, Refusing, Taking, Offered, PublishEffect, AllReached, WithRoom, Registered;
      PublishComesTo(channels, boxes, Message(channel, payload));
      if channel !in channels {
        NobodyYet(boxes, Message(channel, payload));
        return 0;
      }
      var disconnected: set<ClientId>;
      delivered, disconnected := SendAll(channels[channel], Message(channel, payload));
      LeaveNobody(channels, channel);
      if disconnected != {} {
        channels := channels[channel := channels[channel] - disconnected];
        if channels[channel] == {} {
          channels := channels - {channel};
        }
      }
      assert channels == Leave(old(channels), disconnected, channel);
    }
  }
}
