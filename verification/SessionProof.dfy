/** What holds of every run of one session, whatever the other sessions do in between. */
module SessionProof {
  import opened Basics
  import opened Resp
  import opened Protocol
  import opened Store
  import opened PubSub
  import opened Session

  /** One command as it reaches the session: the shared state it finds, which other sessions may have
      changed at will, the time, and the order in which a bare UNSUBSCRIBE would walk the set. */
  datatype Input = Input(shared: Shared, now: Time, command: Command, order: seq<Bytes>)

  function Step(session: SessionState, i: Input): Outcome {
    Execute(session, i.shared, i.now, i.command, i.order)
  }

  /** The session after the first `n` commands. */
  function After(session: SessionState, inputs: seq<Input>, n: nat): SessionState
    requires n <= |inputs|
  {
    if n == 0 then session else Step(After(session, inputs, n - 1), inputs[n - 1]).session
  }

  /** All commands meet the same configuration. */
  predicate SamePassword(inputs: seq<Input>, password: Option<Bytes>) {
    forall i :: 0 <= i < |inputs| ==> inputs[i].shared.password == password
  }

  // ---------- Authentication

  predicate OpensWith(c: Command, password: Bytes) { c == Auth(password) }

  lemma LoopsKeepAuth(session: SessionState, shared: Shared, channels: seq<Bytes>)
    ensures SubscribeAll(session, shared, channels).session.isAuthed == session.isAuthed
    ensures UnsubscribeAll(session, shared, channels).session.isAuthed == session.isAuthed
    ensures SubscribeAll(session, shared, channels).session.id == session.id
    ensures UnsubscribeAll(session, shared, channels).session.id == session.id
    decreases |channels|
  {
    hide Enter, Leave, SubscribeReply, UnsubscribeReply;
    if channels != [] {
      var c := channels[0];
      LoopsKeepAuth(session.(subs := session.subs + {c}),
                    shared.(channels := Enter(shared.channels, session.id, c)), channels[1..]);
      LoopsKeepAuth(session.(subs := session.subs - {c}),
                    shared.(channels := Leave(shared.channels, {session.id}, c)), channels[1..]);
    }
  }

  /** Authentication is never lost, and it is gained by the right password alone. */
  lemma StepAuth(session: SessionState, i: Input)
    ensures Step(session, i).session.isAuthed <==>
            session.isAuthed || (i.shared.password.Some? && OpensWith(i.command, i.shared.password.value))
    ensures Step(session, i).session.id == session.id
  {
    hide ExecuteNormal, SubscribeAll, UnsubscribeAll;
    if i.command.Session? {
      match i.command.session
      case Subscribe(channels) => LoopsKeepAuth(session, i.shared, channels);
      case Unsubscribe(channels) => LoopsKeepAuth(session, i.shared, if channels == [] then i.order else channels);
      case _ =>
    }
  }

  /** An unauthenticated session leaves everything shared alone, and stays open. */
  lemma UnauthenticatedTouchesNothing(session: SessionState, i: Input)
    requires !session.isAuthed
    ensures Step(session, i).shared == i.shared && !Step(session, i).close
    ensures Step(session, i).session.subs == session.subs
  {
    hide ExecuteNormal, ExecuteSession;
  }

  predicate NoneOpens(inputs: seq<Input>, password: Bytes, n: nat)
    requires n <= |inputs|
  {
    forall i :: 0 <= i < n ==> !OpensWith(inputs[i].command, password)
  }

  /** On a server with a password a session is authenticated exactly when the right AUTH was among its
      commands, and a session with a channel is authenticated. */
  lemma {:induction false} AuthenticatedIff(id: ClientId, inputs: seq<Input>, password: Bytes, n: nat)
    requires n <= |inputs| && SamePassword(inputs, Some(password))
    ensures var s := After(SessionState(false, id, {}), inputs, n);
            (s.isAuthed <==> !NoneOpens(inputs, password, n)) && (s.subs != {} ==> s.isAuthed)
  {
    hide Step;
    if n > 0 {
      var s := After(SessionState(false, id, {}), inputs, n - 1);
      AuthenticatedIff(id, inputs, password, n - 1);
      StepAuth(s, inputs[n - 1]);
      if !s.isAuthed {
        UnauthenticatedTouchesNothing(s, inputs[n - 1]);
      }
    }
  }

  /** No command before the right AUTH touches the store or the registry. */
  lemma NothingBeforeAuth(shared: Shared, id: ClientId, inputs: seq<Input>, password: Bytes, n: nat)
    requires n < |inputs| && SamePassword(inputs, Some(password)) && shared.password == Some(password)
    requires NoneOpens(inputs, password, n)
    ensures var s := After(NewSession(shared, id), inputs, n);
            !s.isAuthed && s.subs == {} && Step(s, inputs[n]).shared == inputs[n].shared
  {
    hide Step;
    AuthenticatedIff(id, inputs, password, n);
    UnauthenticatedTouchesNothing(After(NewSession(shared, id), inputs, n), inputs[n]);
  }

  // ---------- Subscribed mode

  lemma LoopsLeaveStore(session: SessionState, shared: Shared, channels: seq<Bytes>)
    ensures SubscribeAll(session, shared, channels).shared.data == shared.data
    ensures SubscribeAll(session, shared, channels).shared.boxes == shared.boxes
    ensures UnsubscribeAll(session, shared, channels).shared.data == shared.data
    ensures UnsubscribeAll(session, shared, channels).shared.boxes == shared.boxes
    decreases |channels|
  {
    hide Enter, Leave, SubscribeReply, UnsubscribeReply;
    if channels != [] {
      var c := channels[0];
      LoopsLeaveStore(session.(subs := session.subs + {c}),
                      shared.(channels := Enter(shared.channels, session.id, c)), channels[1..]);
      LoopsLeaveStore(session.(subs := session.subs - {c}),
                      shared.(channels := Leave(shared.channels, {session.id}, c)), channels[1..]);
    }
  }

  /** While its set is not empty a session changes nothing in the store and sends nobody a message,
      whatever it is told. */
  lemma SubscribedIsSilent(session: SessionState, i: Input)
    requires session.subs != {}
    ensures Step(session, i).shared.data == i.shared.data && Step(session, i).shared.boxes == i.shared.boxes
  {
    hide ExecuteNormal, SubscribeAll, UnsubscribeAll, LeaveAll;
    if i.command.Session? {
      match i.command.session
      case Subscribe(channels) => LoopsLeaveStore(session, i.shared, channels);
      case Unsubscribe(channels) => LoopsLeaveStore(session, i.shared, if channels == [] then i.order else channels);
      case _ =>
    }
  }

  // ---------- The counts in the replies

  lemma SetOfNone(subs: set<Bytes>, channels: seq<Bytes>)
    ensures subs + SetOf(channels[..0]) == subs && subs - SetOf(channels[..0]) == subs
  {
  }

  /** The head of a list and the rest of it, as sets. */
  lemma SetOfHead(channels: seq<Bytes>, k: nat, subs: set<Bytes>)
    requires k < |channels|
    ensures var c, rest := channels[0], SetOf(channels[1..][..k]);
            && (subs + {c}) + rest == subs + SetOf(channels[..k + 1])
            && (subs - {c}) - rest == subs - SetOf(channels[..k + 1])
  {
    assert channels[..k + 1] == [channels[0]] + channels[1..][..k];
    assert SetOf(channels[..k + 1]) == {channels[0]} + SetOf(channels[1..][..k]);
  }

  lemma {:induction false} SubscribeReplyAt(session: SessionState, shared: Shared, channels: seq<Bytes>, k: nat)
    requires k < |channels|
    ensures var o := SubscribeAll(session, shared, channels);
            && |o.replies| == |channels|
            && o.replies[k] == SubscribeReply(channels[k], |session.subs + SetOf(channels[..k + 1])|)
    decreases |channels|
  {
    hide Enter, SetOf, SubscribeReply;
    SetOfHead(channels, k, session.subs);
    var c, rest := channels[0], channels[1..];
    var session' := session.(subs := session.subs + {c});
    var shared' := shared.(channels := Enter(shared.channels, session.id, c));
    SubscribeLength(session', shared', rest);
    if k == 0 {
      SetOfNone(session'.subs, rest);
    } else {
      SubscribeReplyAt(session', shared', rest, k - 1);
    }
  }

  /** The `k`-th reply to SUBSCRIBE counts the old set united with the channels up to the `k`-th. */
  lemma SubscribeCounts(session: SessionState, shared: Shared, channels: seq<Bytes>, k: nat)
    requires k < |channels|
    ensures var o := SubscribeAll(session, shared, channels);
            && |o.replies| == |channels|
            && o.replies[k] ==
               Array([Bulk(Ascii("subscribe")), Bulk(channels[k]), Integer(CastI64(|session.subs + SetOf(channels[..k + 1])|))])
  {
    hide SubscribeAll, Ascii;
    SubscribeReplyAt(session, shared, channels, k);
  }

  lemma SubscribeLength(session: SessionState, shared: Shared, channels: seq<Bytes>)
    ensures |SubscribeAll(session, shared, channels).replies| == |channels|
    ensures |UnsubscribeAll(session, shared, channels).replies| == |channels|
    decreases |channels|
  {
    hide Enter, Leave, SubscribeReply, UnsubscribeReply;
    if channels != [] {
      var c := channels[0];
      SubscribeLength(session.(subs := session.subs + {c}),
                      shared.(channels := Enter(shared.channels, session.id, c)), channels[1..]);
      SubscribeLength(session.(subs := session.subs - {c}),
                      shared.(channels := Leave(shared.channels, {session.id}, c)), channels[1..]);
    }
  }

  lemma {:induction false} UnsubscribeReplyAt(session: SessionState, shared: Shared, channels: seq<Bytes>, k: nat)
    requires k < |channels|
    ensures var o := UnsubscribeAll(session, shared, channels);
            && |o.replies| == |channels|
            && o.replies[k] == UnsubscribeReply(Some(channels[k]), |session.subs - SetOf(channels[..k + 1])|)
    decreases |channels|
  {
    hide Leave, SetOf, UnsubscribeReply;
    SetOfHead(channels, k, session.subs);
    var c, rest := channels[0], channels[1..];
    var session' := session.(subs := session.subs - {c});
    var shared' := shared.(channels := Leave(shared.channels, {session.id}, c));
    SubscribeLength(session', shared', rest);
    if k == 0 {
      SetOfNone(session'.subs, rest);
    } else {
      UnsubscribeReplyAt(session', shared', rest, k - 1);
    }
  }

  /** The `k`-th reply to UNSUBSCRIBE counts what the channels up to the `k`-th leave of the set. */
  lemma UnsubscribeCounts(session: SessionState, shared: Shared, channels: seq<Bytes>, k: nat)
    requires k < |channels|
    ensures var o := UnsubscribeAll(session, shared, channels);
            && |o.replies| == |channels|
            && o.replies[k] ==
               Array([Bulk(Ascii("unsubscribe")), Bulk(channels[k]), Integer(CastI64(|session.subs - SetOf(channels[..k + 1])|))])
  {
    hide UnsubscribeAll, Ascii;
    UnsubscribeReplyAt(session, shared, channels, k);
  }

  lemma ListsRemaining(order: seq<Bytes>, subs: set<Bytes>, k: nat)
    requires Lists(order, subs) && k <= |order|
    ensures Lists(order[k..], subs - SetOf(order[..k]))
  {
    var left, rest := subs - SetOf(order[..k]), order[k..];
    forall x
      ensures x in left <==> x in rest
    {
      if x in rest {
        var i :| 0 <= i < |rest| && rest[i] == x;
        assert x == order[k + i];
      }
      if x in left {
        var i :| 0 <= i < |order| && order[i] == x;
        assert i >= k;
        assert rest[i - k] == x;
      }
    }
    forall i, j | 0 <= i < j < |rest|
      ensures rest[i] != rest[j]
    {
      assert rest[i] == order[k + i] && rest[j] == order[k + j];
    }
  }

  lemma {:induction false} ListLength(order: seq<Bytes>, subs: set<Bytes>)
    requires Lists(order, subs)
    ensures |subs| == |order|
  {
    if order == [] {
      assert subs == {};
    } else {
      var n := |order| - 1;
      assert Lists(order[..n], subs - {order[n]});
      ListLength(order[..n], subs - {order[n]});
    }
  }

  /** A bare UNSUBSCRIBE on `n` channels answers once per channel, counting `n - 1` down to 0 in
      whatever order the set is walked; on none it answers a single nil and 0. */
  lemma BareUnsubscribe(session: SessionState, shared: Shared, order: seq<Bytes>, k: nat)
    requires Lists(order, session.subs)
    ensures var o := ExecuteSession(session, shared, SessionCommand.Unsubscribe([]), order);
            && |order| == |session.subs|
            && (session.subs == {} ==> o.replies == [Array([Bulk(Ascii("unsubscribe")), Nil, Integer(0)])])
            && (session.subs != {} ==> |o.replies| == |session.subs|)
            && (k < |session.subs| ==>
                  o.replies[k] == Array([Bulk(Ascii("unsubscribe")), Bulk(order[k]), Integer(CastI64(|session.subs| - 1 - k))]))
  {
    hide Leave, SetOf, Lists, UnsubscribeAll, Ascii;
    ListLength(order, session.subs);
    SubscribeLength(session, shared, order);
    if k < |order| {
      UnsubscribeCounts(session, shared, order, k);
      ListsRemaining(order, session.subs, k + 1);
      ListLength(order[k + 1..], session.subs - SetOf(order[..k + 1]));
    }
  }

  // ---------- The other answers

  /** AUTH: an error without a password, OK for the right one, an error for any other. */
  lemma AuthAnswers(session: SessionState, i: Input)
    requires i.command.Auth?
    ensures Step(session, i) ==
            match i.shared.password
            case None => Outcome(session, i.shared, [Error(Ascii("Client sent AUTH but no password is set"))], false)
            case Some(p) =>
              if i.command.password == p then Outcome(session.(isAuthed := true), i.shared, [Simple(Ascii("OK"))], false)
              else Outcome(session, i.shared, [Error(Ascii("WRONGPASS invalid password"))], false)
  {
  }

  /** Before the right AUTH: a pong for PING, one refusal for anything else. */
  lemma UnauthenticatedAnswers(session: SessionState, i: Input)
    requires !session.isAuthed && !i.command.Auth?
    ensures Step(session, i).replies ==
            match i.command
            case Normal(Ping(None)) => [Simple(Ascii("PONG"))]
            case Normal(Ping(Some(m))) => [Bulk(m)]
            case _ => [Error(Ascii("NOAUTH Authentication required"))]
  {
    hide Ascii;
  }

  /** In subscribed mode: a pong of two parts for PING, one refusal for any other command of the store. */
  lemma SubscribedAnswers(session: SessionState, i: Input)
    requires session.isAuthed && session.subs != {} && i.command.Normal?
    ensures Step(session, i) == Outcome(session, i.shared,
              match i.command.normal
              case Ping(m) => [Array([Bulk(Ascii("pong")), Bulk(if m.Some? then m.value else [])])]
              case _ => [Error(Ascii("Can't execute command in subscribed mode"))], false)
  {
    hide Ascii;
  }

  /** Otherwise: PING, ECHO and the commands of the store are answered on the spot, PUBLISH with the
      number of clients it reached. */
  lemma PlainAnswers(session: SessionState, i: Input, c: NormalCommand)
    requires session.isAuthed && session.subs == {} && i.command == Normal(c)
    ensures c.Ping? ==>
              Step(session, i) == Outcome(session, i.shared,
                [if c.message.Some? then Bulk(c.message.value) else Simple(Ascii("PONG"))], false)
    ensures c.Echo? ==> Step(session, i) == Outcome(session, i.shared, [Bulk(c.text)], false)
    ensures IsStoreCommand(c) ==>
              var (d, reply) := Executed(i.shared.data, i.now, c);
              Step(session, i) == Outcome(session, i.shared.(data := d), [reply], false)
  {
    hide Ascii, Executed;
  }

  lemma PublishAnswers(session: SessionState, i: Input)
    requires session.isAuthed && session.subs == {} && i.command.Normal? && i.command.normal.Publish?
    requires NoEmptyChannel(i.shared.channels)
    requires forall channel :: channel in i.shared.channels ==> i.shared.channels[channel] <= i.shared.boxes.Keys
    ensures var o, c := Step(session, i), i.command.normal;
            && o.session == session && !o.close && o.shared.data == i.shared.data
            && exists n: nat :: o.replies == [Integer(CastI64(n))] &&
                 PublishEffect(i.shared.channels, i.shared.boxes, Message(c.channel, c.payload), o.shared.channels, o.shared.boxes, n)
  {
    hide Refusing, Offered, Taking, Leave, PublishEffect, CastI64;
    PublishComesTo(i.shared.channels, i.shared.boxes, Message(i.command.normal.channel, i.command.normal.payload));
  }

  /** QUIT answers OK and closes, RESET answers RESET and empties the set; SUBSCRIBE and UNSUBSCRIBE add
      and take away their channels. */
  lemma SessionAnswers(session: SessionState, i: Input)
    requires session.isAuthed && i.command.Session?
    ensures var o := Step(session, i);
            && (o.close <==> i.command.session.Quit?)
            && match i.command.session
               case Quit => o.replies == [Simple(Ascii("OK"))]
               case Reset => o.replies == [Simple(Ascii("RESET"))] && o.session.subs == {}
               case Subscribe(channels) => o.session.subs == session.subs + SetOf(channels)
               case Unsubscribe(channels) => o.session.subs == session.subs - SetOf(if channels == [] then i.order else channels)
  {
    hide Ascii, SubscribeAll, UnsubscribeAll, LeaveAll, SetOf, SubscribeReply, UnsubscribeReply;
    match i.command.session
    case Subscribe(channels) => SetAfter(session, i.shared, channels);
    case Unsubscribe(channels) => SetAfter(session, i.shared, if channels == [] then i.order else channels);
    case _ =>
  }

  lemma SetAfter(session: SessionState, shared: Shared, channels: seq<Bytes>)
    ensures var o := SubscribeAll(session, shared, channels);
            o.session.subs == session.subs + SetOf(channels) && !o.close
    ensures var o := UnsubscribeAll(session, shared, channels);
            o.session.subs == session.subs - SetOf(channels) && !o.close
    ensures channels == [] ==> session.subs - SetOf(channels) == session.subs
  {
    hide SubscribeAll, UnsubscribeAll;
    SetAfterSubscribe(session, shared, channels);
    SetAfterUnsubscribe(session, shared, channels);
    assert channels == [] ==> SetOf(channels) == {};
  }

  lemma {:induction false} SetAfterSubscribe(session: SessionState, shared: Shared, channels: seq<Bytes>)
    ensures var o := SubscribeAll(session, shared, channels);
            o.session.subs == session.subs + SetOf(channels) && !o.close
    decreases |channels|
  {
    hide Enter, SubscribeReply, SetOf;
    if channels == [] {
      SetOfNone(session.subs, channels);
      assert channels[..0] == channels;
    } else {
      SetAfterSubscribe(session.(subs := session.subs + {channels[0]}),
                        shared.(channels := Enter(shared.channels, session.id, channels[0])), channels[1..]);
      SetOfAll(channels, session.subs);
    }
  }

  lemma {:induction false} SetAfterUnsubscribe(session: SessionState, shared: Shared, channels: seq<Bytes>)
    ensures var o := UnsubscribeAll(session, shared, channels);
            o.session.subs == session.subs - SetOf(channels) && !o.close
    decreases |channels|
  {
    hide Leave, UnsubscribeReply, SetOf;
    if channels == [] {
      SetOfNone(session.subs, channels);
      assert channels[..0] == channels;
    } else {
      SetAfterUnsubscribe(session.(subs := session.subs - {channels[0]}),
                          shared.(channels := Leave(shared.channels, {session.id}, channels[0])), channels[1..]);
      SetOfAll(channels, session.subs);
    }
  }

  lemma SetOfAll(channels: seq<Bytes>, subs: set<Bytes>)
    requires channels != []
    ensures (subs + {channels[0]}) + SetOf(channels[1..]) == subs + SetOf(channels)
    ensures (subs - {channels[0]}) - SetOf(channels[1..]) == subs - SetOf(channels)
  {
    assert SetOf(channels) == {channels[0]} + SetOf(channels[1..]);
  }

  // ---------- The session's set and the registry

  /** The session's own set is what the registry holds under its id. */
  ghost predicate Mirrored(session: SessionState, shared: Shared) {
    forall channel: Bytes :: channel in session.subs <==> Registered(shared.channels, session.id, channel)
  }

  lemma LeaveEntries(reg: Registry, cs: set<ClientId>, other: Bytes, c: ClientId, channel: Bytes)
    ensures Registered(Leave(reg, cs, other), c, channel) <==>
            Registered(reg, c, channel) && !(channel == other && c in cs)
    ensures !Registered(LeaveAll(reg, c), c, channel)
    ensures Registered(Enter(reg, c, other), c, channel) <==> Registered(reg, c, channel) || channel == other
  {
  }

  lemma {:induction false} SubscribingKeepsMirror(session: SessionState, shared: Shared, channels: seq<Bytes>)
    requires Mirrored(session, shared)
    ensures var o := SubscribeAll(session, shared, channels); Mirrored(o.session, o.shared) && !o.close
    decreases |channels|
  {
    hide Enter, Leave, SubscribeReply, UnsubscribeReply, Registered;
    if channels != [] {
      var c := channels[0];
      forall channel: Bytes {
        LeaveEntries(shared.channels, {session.id}, c, session.id, channel);
      }
      SubscribingKeepsMirror(session.(subs := session.subs + {c}),
                     shared.(channels := Enter(shared.channels, session.id, c)), channels[1..]);
    }
  }

  lemma {:induction false} UnsubscribingKeepsMirror(session: SessionState, shared: Shared, channels: seq<Bytes>)
    requires Mirrored(session, shared)
    ensures var o := UnsubscribeAll(session, shared, channels); Mirrored(o.session, o.shared) && !o.close
    decreases |channels|
  {
    hide Enter, Leave, SubscribeReply, UnsubscribeReply, Registered;
    if channels != [] {
      var c := channels[0];
      forall channel: Bytes {
        LeaveEntries(shared.channels, {session.id}, c, session.id, channel);
      }
      UnsubscribingKeepsMirror(session.(subs := session.subs - {c}),
                     shared.(channels := Leave(shared.channels, {session.id}, c)), channels[1..]);
    }
  }

  lemma PublishKeepsMirror(session: SessionState, shared: Shared, now: Time, c: NormalCommand)
    requires Mirrored(session, shared) && session.subs == {}
    ensures Mirrored(session, ExecuteNormal(shared, now, c).0)
  {
    hide Leave, Refusing, Offered, Taking, Executed, Registered;
    if c.Publish? {
      var failed := Refusing(shared.boxes, Subscribers(shared.channels, c.channel), Message(c.channel, c.payload));
      forall channel: Bytes
        ensures !Registered(ExecuteNormal(shared, now, c).0.channels, session.id, channel)
      {
        LeaveEntries(shared.channels, failed, c.channel, session.id, channel);
        assert !Registered(shared.channels, session.id, channel);
      }
    }
  }

  /** Every command keeps set and registry in step, and QUIT leaves nothing of the session in the
      registry. */
  lemma StepKeepsMirror(session: SessionState, i: Input)
    requires Mirrored(session, i.shared)
    ensures var o := Step(session, i);
            if o.close then forall channel: Bytes :: !Registered(o.shared.channels, session.id, channel)
            else Mirrored(o.session, o.shared)
  {
    hide ExecuteNormal, SubscribeAll, UnsubscribeAll, LeaveAll, Registered;
    forall channel: Bytes {
      LeaveEntries(i.shared.channels, {}, channel, session.id, channel);
    }
    if i.command.Session? {
      match i.command.session
      case Subscribe(channels) => SubscribingKeepsMirror(session, i.shared, channels);
      case Unsubscribe(channels) => UnsubscribingKeepsMirror(session, i.shared, if channels == [] then i.order else channels);
      case _ =>
    } else if i.command.Normal? && session.subs == {} {
      PublishKeepsMirror(session, i.shared, i.now, i.command.normal);
    }
  }
}
