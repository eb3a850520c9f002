/** The two models of a session agree: a session command, which `Session` computes at once, is a run of
    the step system of `PubSubRuns`, one step for each channel; and so is a publish. */
module SessionSteps {
  import opened Basics
  import opened Resp
  import opened Protocol
  import opened Store
  import opened PubSub
  import opened Session
  import Runs = PubSubRuns

  function Subscribes(c: nat, channels: seq<Bytes>): seq<Runs.Step> {
    if channels == [] then [] else [Runs.Step.Subscribe(c, channels[0])] + Subscribes(c, channels[1..])
  }

  function Unsubscribes(c: nat, channels: seq<Bytes>): seq<Runs.Step> {
    if channels == [] then [] else [Runs.Step.Unsubscribe(c, channels[0])] + Unsubscribes(c, channels[1..])
  }

  function StepsOf(c: nat, command: SessionCommand, order: seq<Bytes>): seq<Runs.Step> {
    match command
    case Subscribe(channels) => Subscribes(c, channels)
    case Unsubscribe(channels) => Unsubscribes(c, if channels == [] then order else channels)
    case Quit => [Runs.Step.Quit(c)]
    case Reset => [Runs.Step.Reset(c)]
  }

  /** The session is the running client of its id, and both worlds have the same registry. */
  predicate Stands(session: SessionState, shared: Shared, w: Runs.World) {
    Runs.IsRunning(w, session.id) && w.clients[session.id].subs == session.subs && w.channels == shared.channels
  }

  /** The other clients, the mailbox of this one and the publishes are as before. */
  predicate KeepsTheRest(w: Runs.World, w': Runs.World, c: nat)
    requires c < |w.clients|
  {
    && |w'.clients| == |w.clients| && w'.publishes == w.publishes
    && w'.clients[c].box == w.clients[c].box
    && forall d :: 0 <= d < |w.clients| && d != c ==> w'.clients[d] == w.clients[d]
  }

  lemma {:induction false} SubscribeRuns(session: SessionState, shared: Shared, channels: seq<Bytes>, w: Runs.World)
    requires Stands(session, shared, w)
    ensures Runs.Possible(w, Subscribes(session.id, channels))
    ensures var o, w' := SubscribeAll(session, shared, channels), Runs.Final(w, Subscribes(session.id, channels));
            && o.session.id == session.id && !o.close
            && Stands(o.session, o.shared, w') && KeepsTheRest(w, w', session.id)
    decreases |channels|
  {
    hide Enter, Leave, SubscribeReply, UnsubscribeReply;
    if channels != [] {
      var s, rest := Runs.Step.Subscribe(session.id, channels[0]), Subscribes(session.id, channels[1..]);
      assert ([s] + rest)[1..] == rest;
      SubscribeRuns(session.(subs := session.subs + {channels[0]}),
                    shared.(channels := Enter(shared.channels, session.id, channels[0])), channels[1..], Runs.Next(w, s));
    }
  }

  lemma {:induction false} UnsubscribeRuns(session: SessionState, shared: Shared, channels: seq<Bytes>, w: Runs.World)
    requires Stands(session, shared, w)
    ensures Runs.Possible(w, Unsubscribes(session.id, channels))
    ensures var o, w' := UnsubscribeAll(session, shared, channels), Runs.Final(w, Unsubscribes(session.id, channels));
            && o.session.id == session.id && !o.close
            && Stands(o.session, o.shared, w') && KeepsTheRest(w, w', session.id)
    decreases |channels|
  {
    hide Enter, Leave, SubscribeReply, UnsubscribeReply;
    if channels != [] {
      var s, rest := Runs.Step.Unsubscribe(session.id, channels[0]), Unsubscribes(session.id, channels[1..]);
      assert ([s] + rest)[1..] == rest;
      UnsubscribeRuns(session.(subs := session.subs - {channels[0]}),
                      shared.(channels := Leave(shared.channels, {session.id}, channels[0])), channels[1..], Runs.Next(w, s));
    }
  }

  /** One step at the end of a run. */
  lemma OneStepRuns(w: Runs.World, s: Runs.Step)
    requires Runs.Enabled(w, s)
    ensures Runs.Possible(w, [s]) && Runs.Final(w, [s]) == Runs.Next(w, s)
  {
    hide Runs.Enabled, Runs.Next;
    assert [s][1..] == [];
    assert Runs.Possible(Runs.Next(w, s), [s][1..]);
  }

  /** A session command leaves the set, the registry and everything else as its steps do; it closes the
      session exactly when they stop the client. */
  lemma SessionCommandIsARun(
    session: SessionState, shared: Shared, command: SessionCommand, order: seq<Bytes>, w: Runs.World)
    requires Stands(session, shared, w)
    ensures Runs.Possible(w, StepsOf(session.id, command, order))
    ensures var o := ExecuteSession(session, shared, command, order);
            var w' := Runs.Final(w, StepsOf(session.id, command, order));
            && KeepsTheRest(w, w', session.id) && w'.channels == o.shared.channels
            && w'.clients[session.id].subs == o.session.subs
            && w'.clients[session.id].phase == if o.close then Runs.Stopping else Runs.Running
  {
    hide Runs.Final, Runs.Possible, SubscribeAll, UnsubscribeAll, LeaveAll, SubscribeReply, UnsubscribeReply;
    match command
    case Subscribe(channels) => SubscribeRuns(session, shared, channels, w);
    case Unsubscribe(channels) =>
      UnsubscribeRuns(session, shared, if channels == [] then order else channels, w);
      NothingToUnsubscribe(session, shared);
    case Quit => OneStepRuns(w, Runs.Step.Quit(session.id));
    case Reset => OneStepRuns(w, Runs.Step.Reset(session.id));
  }

  lemma NothingToUnsubscribe(session: SessionState, shared: Shared)
    ensures UnsubscribeAll(session, shared, []) == Outcome(session, shared, [], false)
  {
  }

  /** A publish command counts and leaves what its steps with nothing in between count and leave. */
  lemma PublishCommandIsARun(
    shared: Shared, now: Time, channel: Bytes, payload: Bytes, w: Runs.World, order: seq<nat>)
    requires Runs.EntriesKnown(w) && NoEmptyChannel(w.channels)
    requires shared.channels == w.channels && shared.boxes == Runs.Boxes(w.clients)
    requires Runs.Ids(order) == Subscribers(w.channels, channel)
    requires forall i, j :: 0 <= i < j < |order| ==> order[i] != order[j]
    ensures Runs.CanPublish(w, Message(channel, payload), order)
    ensures var (shared', reply) := ExecuteNormal(shared, now, NormalCommand.Publish(channel, payload));
            var w', p := Runs.Published(w, Message(channel, payload), order), |w.publishes|;
            && shared'.channels == w'.channels && shared'.boxes == Runs.Boxes(w'.clients)
            && p < |w'.publishes| && reply == Integer(CastI64(w'.publishes[p].delivered))
            && PublishEffect(shared.channels, shared.boxes, Message(channel, payload), shared'.channels, shared'.boxes, w'.publishes[p].delivered)
  {
    hide Runs.Published, Runs.CanPublish, Runs.Boxes, Taking, Refusing, Offered, Leave, PublishEffect;
    Runs.UninterruptedPublish(w, Message(channel, payload), order);
  }
}
