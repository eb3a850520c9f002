/** Publish/subscribe under any interleaving: sessions, queue draining and disconnects
    (src/session.rs, src/connection.rs) against a publish in three parts (src/pubsub.rs): a snapshot
    under the lock, one send after the other outside it, and the eviction under the lock again. */
module PubSubRuns {
  import opened Basics
  import opened PubSub

  /** `Running` is inside the connection loop; `Stopping` has left it, or has sent QUIT and is about
      to; `Cleaned` has run the cleanup behind the loop. */
  datatype Phase = Running | Stopping | Cleaned

  /** One connection. `written` went out to the socket, `lost` was discarded at the end; `accepted`
      logs every message its queue ever took and `everSubscribed` every channel it asked for. */
  datatype Client = Client(
    phase: Phase,
    subs: set<Bytes>,
    box: Mailbox,
    written: seq<Message>,
    lost: seq<Message>,
    accepted: seq<Message>,
    everSubscribed: set<Bytes>)

  /** One call of `publish`: who of the snapshot still waits, who could not be reached, and the count
      it returns once it is done. */
  datatype Publish = Publish(message: Message, todo: set<ClientId>, failed: set<ClientId>, delivered: nat, done: bool)

  /** Clients are numbered in the order they connect, from 0. */
  datatype World = World(channels: Registry, clients: seq<Client>, publishes: seq<Publish>)

  const INITIAL := World(map[], [], [])

  datatype Step =
    | Connect
    | Subscribe(c: nat, channel: Bytes)
    | Unsubscribe(c: nat, channel: Bytes)
    | Reset(c: nat)
    | Quit(c: nat)
    | Snapshot(message: Message)
    | Send(p: nat, c: nat)
    | Evict(p: nat)
    | Drain(c: nat)
    | DrainFails(c: nat)
    | Stop(c: nat)
    | Cleanup(c: nat)
    | CloseQueue(c: nat)

  predicate IsRunning(w: World, c: nat) { c < |w.clients| && w.clients[c].phase == Running }

  predicate InFlight(w: World, p: nat) { p < |w.publishes| && !w.publishes[p].done }

  predicate Enabled(w: World, s: Step) {
    match s
    case Connect => true
    case Subscribe(c, _) => IsRunning(w, c)
    case Unsubscribe(c, _) => IsRunning(w, c)
    case Reset(c) => IsRunning(w, c)
    case Quit(c) => IsRunning(w, c)
    case Snapshot(_) => true
    case Send(p, c) => InFlight(w, p) && c in w.publishes[p].todo && c < |w.clients|
    case Evict(p) => InFlight(w, p) && w.publishes[p].todo == {}
    case Drain(c) => IsRunning(w, c) && w.clients[c].box.queue != []
    case DrainFails(c) => IsRunning(w, c) && w.clients[c].box.queue != []
    case Stop(c) => IsRunning(w, c)
    case Cleanup(c) => c < |w.clients| && w.clients[c].phase == Stopping
    case CloseQueue(c) => c < |w.clients| && w.clients[c].phase == Cleaned && !w.clients[c].box.closed
  }

  function Sent(x: Client, m: Message): Client {
    var (box, sending) := Offer(x.box, m);
    x.(box := box, accepted := if sending == Delivered then x.accepted + [m] else x.accepted)
  }

  function Counted(p: Publish, c: ClientId, sending: Sending): Publish {
    var q := p.(todo := p.todo - {c});
    if sending == Delivered then q.(delivered := q.delivered + 1) else q.(failed := q.failed + {c})
  }

  /** What a step does to the client it is about. */
  function ClientAfter(x: Client, s: Step): Client {
    match s
    case Subscribe(_, channel) => x.(subs := x.subs + {channel}, everSubscribed := x.everSubscribed + {channel})
    case Unsubscribe(_, channel) => x.(subs := x.subs - {channel})
    case Reset(_) => x.(subs := {})
    case Quit(_) => x.(phase := Stopping)
    case Drain(_) =>
      if x.box.queue == [] then x
      else x.(box := x.box.(queue := x.box.queue[1..]), written := x.written + [x.box.queue[0]])
    case DrainFails(_) =>
      if x.box.queue == [] then x
      else x.(box := x.box.(queue := x.box.queue[1..]), lost := x.lost + [x.box.queue[0]], phase := Stopping)
    case Stop(_) => x.(phase := Stopping)
    case Cleanup(_) => x.(phase := Cleaned)
    case CloseQueue(_) => x.(box := x.box.(queue := [], closed := true), lost := x.lost + x.box.queue)
    case _ => x
  }

  function RegistryAfter(reg: Registry, s: Step): Registry {
    match s
    case Subscribe(c, channel) => Enter(reg, c, channel)
    case Unsubscribe(c, channel) => Leave(reg, {c}, channel)
    case Reset(c) => LeaveAll(reg, c)
    case Quit(c) => LeaveAll(reg, c)
    case Cleanup(c) => LeaveAll(reg, c)
    case _ => reg
  }

  function Next(w: World, s: Step): World
    requires Enabled(w, s)
  {
    match s
    case Connect => w.(clients := w.clients + [Client(Running, {}, Mailbox([], false, false), [], [], [], {})])
    case Snapshot(m) =>
      var todo := Subscribers(w.channels, m.channel);
      w.(publishes := w.publishes + [Publish(m, todo, {}, 0, m.channel !in w.channels)])
    case Send(p, c) =>
      var x, m := w.clients[c], w.publishes[p].message;
      w.(clients := w.clients[c := Sent(x, m)],
         publishes := w.publishes[p := Counted(w.publishes[p], c, Offer(x.box, m).1)])
    case Evict(p) =>
      var q := w.publishes[p];
      w.(channels := if q.failed != {} then Leave(w.channels, q.failed, q.message.channel) else w.channels,
         publishes := w.publishes[p := q.(done := true)])
    case _ =>
      w.(channels := RegistryAfter(w.channels, s), clients := w.clients[s.c := ClientAfter(w.clients[s.c], s)])
  }

  predicate Possible(w: World, steps: seq<Step>)
    decreases |steps|
  {
    steps == [] || (Enabled(w, steps[0]) && Possible(Next(w, steps[0]), steps[1..]))
  }

  function Final(w: World, steps: seq<Step>): World
    requires Possible(w, steps)
    decreases |steps|
  {
    if steps == [] then w else Final(Next(w, steps[0]), steps[1..])
  }

  // ---------- The mirror images

  /** A publish still has to send to the client. */
  predicate Waiting(w: World, p: nat, c: ClientId) { p < |w.publishes| && c in w.publishes[p].todo }

  /** A publish could not reach the client. */
  predicate Missed(w: World, p: nat, c: ClientId) { p < |w.publishes| && c in w.publishes[p].failed }

  /** An entry of the registry stands in its client's own set, and the client is not cleaned up. */
  ghost predicate EntriesKnown(w: World) {
    forall c: nat, channel: Bytes :: Registered(w.channels, c, channel) ==>
      c < |w.clients| && channel in w.clients[c].subs && w.clients[c].phase != Cleaned
  }

  predicate Attached(w: World, c: nat) {
    c < |w.clients| && w.clients[c].phase == Running && !w.clients[c].box.signalled
  }

  /** A running client that was not signalled is registered wherever it thinks it is. */
  ghost predicate SubsRegistered(w: World) {
    forall c: nat, channel: Bytes :: Attached(w, c) && channel in w.clients[c].subs ==>
      Registered(w.channels, c, channel)
  }

  /** Whoever a publish could not reach was signalled or is gone. */
  ghost predicate FailedAreGone(w: World) {
    forall p: nat, c: nat :: Missed(w, p, c) ==>
      c < |w.clients| && (w.clients[c].box.signalled || w.clients[c].box.closed)
  }

  /** A publish waits only for clients that once subscribed to its channel. */
  ghost predicate TodoAsked(w: World) {
    forall p: nat, c: nat :: Waiting(w, p, c) ==>
      c < |w.clients| && w.publishes[p].message.channel in w.clients[c].everSubscribed
  }

  /** Per client: the queue is bounded, only a cleaned-up client has closed it, nothing is lost while
      it runs, and what it wrote, lost and still holds is what it accepted, in that order. */
  ghost predicate Sound(x: Client) {
    && |x.box.queue| <= PUBSUB_BUFFER_SIZE
    && (x.box.closed ==> x.phase == Cleaned && x.box.queue == [])
    && (x.phase == Running ==> x.lost == [])
    && x.accepted == x.written + x.lost + x.box.queue
    && x.subs <= x.everSubscribed
    && (forall i :: 0 <= i < |x.accepted| ==> x.accepted[i].channel in x.everSubscribed)
  }

  ghost predicate AllSound(w: World) { forall c :: 0 <= c < |w.clients| ==> Sound(w.clients[c]) }

  function Sum(xs: seq<nat>): nat { if xs == [] then 0 else Sum(xs[..|xs| - 1]) + xs[|xs| - 1] }

  function AcceptedCounts(clients: seq<Client>): seq<nat> {
    seq(|clients|, i requires 0 <= i < |clients| => |clients[i].accepted|)
  }

  function DeliveredCounts(publishes: seq<Publish>): seq<nat> {
    seq(|publishes|, i requires 0 <= i < |publishes| => publishes[i].delivered)
  }

  /** Every counted delivery is one message in one queue. */
  predicate Conserved(w: World) { Sum(AcceptedCounts(w.clients)) == Sum(DeliveredCounts(w.publishes)) }

  ghost predicate Inv(w: World) {
    && NoEmptyChannel(w.channels) && EntriesKnown(w) && SubsRegistered(w)
    && FailedAreGone(w) && TodoAsked(w) && AllSound(w) && Conserved(w)
  }

  // ---------- Sums

  lemma {:induction false} SumUpdate(xs: seq<nat>, i: nat, v: nat)
    requires i < |xs|
    ensures Sum(xs[i := v]) == Sum(xs) - xs[i] + v
  {
    var n := |xs| - 1;
    var ys := xs[i := v];
    if i == n {
      assert ys[..n] == xs[..n];
    } else {
      SumUpdate(xs[..n], i, v);
      assert ys[..n] == xs[..n][i := v];
    }
  }

  lemma SumAppend(xs: seq<nat>, v: nat)
    ensures Sum(xs + [v]) == Sum(xs) + v
  {
    assert (xs + [v])[..|xs|] == xs;
  }

  lemma AcceptedUpdate(clients: seq<Client>, c: nat, x: Client)
    requires c < |clients|
    ensures Sum(AcceptedCounts(clients[c := x])) == Sum(AcceptedCounts(clients)) - |clients[c].accepted| + |x.accepted|
  {
    assert AcceptedCounts(clients[c := x]) == AcceptedCounts(clients)[c := |x.accepted|];
    SumUpdate(AcceptedCounts(clients), c, |x.accepted|);
  }

  lemma DeliveredUpdate(publishes: seq<Publish>, p: nat, q: Publish)
    requires p < |publishes|
    ensures Sum(DeliveredCounts(publishes[p := q])) == Sum(DeliveredCounts(publishes)) - publishes[p].delivered + q.delivered
  {
    assert DeliveredCounts(publishes[p := q]) == DeliveredCounts(publishes)[p := q.delivered];
    SumUpdate(DeliveredCounts(publishes), p, q.delivered);
  }

  lemma SendIsCounted(w: World, p: nat, c: nat)
    requires Enabled(w, Send(p, c)) && Conserved(w)
    ensures Conserved(Next(w, Send(p, c)))
  {
    hide Offer, Sum;
    var m := w.publishes[p].message;
    AcceptedUpdate(w.clients, c, Sent(w.clients[c], m));
    DeliveredUpdate(w.publishes, p, Counted(w.publishes[p], c, Offer(w.clients[c].box, m).1));
  }

  lemma NewcomersCountNothing(w: World, s: Step)
    requires Conserved(w) && (s.Connect? || s.Snapshot?)
    ensures Conserved(Next(w, s))
  {
    hide Sum;
    var w' := Next(w, s);
    if s.Connect? {
      assert AcceptedCounts(w'.clients) == AcceptedCounts(w.clients) + [0];
      SumAppend(AcceptedCounts(w.clients), 0);
    } else {
      assert DeliveredCounts(w'.publishes) == DeliveredCounts(w.publishes) + [0];
      SumAppend(DeliveredCounts(w.publishes), 0);
    }
  }

  lemma KeepsConserved(w: World, s: Step)
    requires Enabled(w, s) && Conserved(w)
    ensures Conserved(Next(w, s))
  {
    hide Sum, AcceptedCounts, DeliveredCounts, RegistryAfter, Leave;
    if s.Connect? || s.Snapshot? {
      NewcomersCountNothing(w, s);
    } else if s.Send? {
      SendIsCounted(w, s.p, s.c);
    } else if s.Evict? {
      DeliveredUpdate(w.publishes, s.p, w.publishes[s.p].(done := true));
    } else {
      AcceptedUpdate(w.clients, s.c, ClientAfter(w.clients[s.c], s));
    }
  }

  // ---------- The invariant

  lemma DrainStaysSound(x: Client)
    requires Sound(x) && x.phase == Running && x.box.queue != []
    ensures Sound(ClientAfter(x, Drain(0))) && Sound(ClientAfter(x, DrainFails(0)))
  {
    var q := x.box.queue;
    assert x.accepted == x.written + [] + ([q[0]] + q[1..]);
    assert x.accepted == x.written + [q[0]] + [] + q[1..];
    assert x.accepted == x.written + ([] + [q[0]]) + q[1..];
  }

  lemma ClientStaysSound(x: Client, s: Step)
    requires Sound(x) && !s.Send? && !s.Evict? && !s.Connect? && !s.Snapshot?
    requires if s.CloseQueue? then x.phase == Cleaned
             else if s.Cleanup? then x.phase == Stopping
             else x.phase == Running
    ensures Sound(ClientAfter(x, s))
  {
    if s.Drain? || s.DrainFails? {
      if x.box.queue != [] {
        DrainStaysSound(x);
      }
    } else if s.CloseQueue? {
      assert x.written + (x.lost + x.box.queue) + [] == x.written + x.lost + x.box.queue;
    }
  }

  lemma SentStaysSound(x: Client, m: Message)
    requires Sound(x) && m.channel in x.everSubscribed
    ensures Sound(Sent(x, m))
  {
    assert x.written + x.lost + (x.box.queue + [m]) == x.written + x.lost + x.box.queue + [m];
  }

  lemma KeepsSound(w: World, s: Step)
    requires Enabled(w, s) && AllSound(w) && TodoAsked(w)
    ensures AllSound(Next(w, s))
  {
    hide Sound, ClientAfter, Sent, RegistryAfter;
    match s
    case Connect => NewClientIsSound();
    case Snapshot(_) =>
    case Evict(_) =>
    case Send(p, c) => SentStaysSound(w.clients[c], w.publishes[p].message);
    case _ => ClientStaysSound(w.clients[s.c], s);
  }

  lemma NewClientIsSound()
    ensures Sound(Client(Running, {}, Mailbox([], false, false), [], [], [], {}))
  {
  }

  /** What never shrinks about a client. */
  lemma ClientGrows(w: World, s: Step, c: nat)
    requires Enabled(w, s) && c < |w.clients|
    ensures c < |Next(w, s).clients|
    ensures var x, y := w.clients[c], Next(w, s).clients[c];
            && x.everSubscribed <= y.everSubscribed
            && (x.box.signalled ==> y.box.signalled) && (x.box.closed ==> y.box.closed)
            && (x.phase == Cleaned ==> y.phase == Cleaned)
  {
  }

  /** Who waits after a step waited before, or was in the snapshot just taken. */
  lemma WaitingComes(w: World, s: Step, p: nat, c: ClientId)
    requires Enabled(w, s) && Waiting(Next(w, s), p, c)
    ensures if p < |w.publishes|
            then Waiting(w, p, c) && Next(w, s).publishes[p].message == w.publishes[p].message
            else Registered(w.channels, c, Next(w, s).publishes[p].message.channel)
  {
    hide Offer;
  }

  /** Who is missed after a step was missed before, or has just refused the message. */
  lemma MissedComes(w: World, s: Step, p: nat, c: ClientId)
    requires Enabled(w, s) && Missed(Next(w, s), p, c)
    ensures Missed(w, p, c) || (c < |Next(w, s).clients| &&
              (Next(w, s).clients[c].box.signalled || Next(w, s).clients[c].box.closed))
  {
  }

  lemma KeepsTodo(w: World, s: Step)
    requires Enabled(w, s) && TodoAsked(w) && EntriesKnown(w) && AllSound(w)
    ensures TodoAsked(Next(w, s))
  {
    hide Next, Enabled, Registered;
    var w' := Next(w, s);
    forall p: nat, c: nat | Waiting(w', p, c)
      ensures c < |w'.clients| && w'.publishes[p].message.channel in w'.clients[c].everSubscribed
    {
      WaitingComes(w, s, p, c);
      if p >= |w.publishes| {
        assert Sound(w.clients[c]);
      }
      ClientGrows(w, s, c);
    }
  }

  lemma KeepsFailed(w: World, s: Step)
    requires Enabled(w, s) && FailedAreGone(w)
    ensures FailedAreGone(Next(w, s))
  {
    hide Next, Enabled, Missed;
    var w' := Next(w, s);
    forall p: nat, c: nat | Missed(w', p, c)
      ensures c < |w'.clients| && (w'.clients[c].box.signalled || w'.clients[c].box.closed)
    {
      MissedComes(w, s, p, c);
      if Missed(w, p, c) {
        ClientGrows(w, s, c);
      }
    }
  }

  lemma RegistryStaysTidy(reg: Registry, s: Step)
    requires NoEmptyChannel(reg)
    ensures NoEmptyChannel(RegistryAfter(reg, s))
  {
  }

  lemma KeepsTidy(w: World, s: Step)
    requires Enabled(w, s) && NoEmptyChannel(w.channels)
    ensures NoEmptyChannel(Next(w, s).channels)
  {
    RegistryStaysTidy(w.channels, s);
  }

  /** What a session's own step does to the registry, entry by entry. */
  lemma RegistryChanges(reg: Registry, s: Step, c: ClientId, channel: Bytes)
    ensures Registered(RegistryAfter(reg, s), c, channel) <==>
            match s
            case Subscribe(d, other) => (c == d && channel == other) || Registered(reg, c, channel)
            case Unsubscribe(d, other) => !(c == d && channel == other) && Registered(reg, c, channel)
            case Reset(d) => c != d && Registered(reg, c, channel)
            case Quit(d) => c != d && Registered(reg, c, channel)
            case Cleanup(d) => c != d && Registered(reg, c, channel)
            case _ => Registered(reg, c, channel)
  {
  }

  lemma EvictionChanges(reg: Registry, failed: set<ClientId>, other: Bytes, c: ClientId, channel: Bytes)
    ensures Registered(Leave(reg, failed, other), c, channel) <==>
            !(c in failed && channel == other) && Registered(reg, c, channel)
  {
  }

  lemma KeepsEntries(w: World, s: Step)
    requires Enabled(w, s) && EntriesKnown(w)
    ensures EntriesKnown(Next(w, s))
  {
    hide Offer, RegistryAfter, Leave, Registered;
    var w' := Next(w, s);
    forall c: nat, channel: Bytes | Registered(w'.channels, c, channel)
      ensures c < |w'.clients| && channel in w'.clients[c].subs && w'.clients[c].phase != Cleaned
    {
      RegistryChanges(w.channels, s, c, channel);
      if s.Evict? {
        EvictionChanges(w.channels, w.publishes[s.p].failed, w.publishes[s.p].message.channel, c, channel);
      }
    }
  }

  lemma KeepsSubs(w: World, s: Step)
    requires Enabled(w, s) && SubsRegistered(w) && FailedAreGone(w) && AllSound(w)
    ensures SubsRegistered(Next(w, s))
  {
    hide Offer, RegistryAfter, Leave, Registered;
    var w' := Next(w, s);
    forall c: nat, channel: Bytes | Attached(w', c) && channel in w'.clients[c].subs
      ensures Registered(w'.channels, c, channel)
    {
      RegistryChanges(w.channels, s, c, channel);
      if c < |w.clients| {
        ClientGrows(w, s, c);
        assert Attached(w, c) && Sound(w.clients[c]);
        if s.Evict? {
          EvictionChanges(w.channels, w.publishes[s.p].failed, w.publishes[s.p].message.channel, c, channel);
          assert !Missed(w, s.p, c);
        }
      }
    }
  }

  lemma NextKeepsInv(w: World, s: Step)
    requires Enabled(w, s) && Inv(w)
    ensures Inv(Next(w, s))
  {
    hide Next, Enabled, EntriesKnown, SubsRegistered, FailedAreGone, TodoAsked, AllSound, Conserved, NoEmptyChannel;
    KeepsTidy(w, s);
    KeepsEntries(w, s);
    KeepsSubs(w, s);
    KeepsFailed(w, s);
    KeepsTodo(w, s);
    KeepsSound(w, s);
    KeepsConserved(w, s);
  }

  lemma {:induction false} RunKeepsInv(w: World, steps: seq<Step>)
    requires Possible(w, steps) && Inv(w)
    ensures Inv(Final(w, steps))
    decreases |steps|
  {
    hide Next, Enabled, Inv;
    if steps != [] {
      NextKeepsInv(w, steps[0]);
      RunKeepsInv(Next(w, steps[0]), steps[1..]);
    }
  }

  // ---------- What holds of every run of a server

  lemma InitiallyInv()
    ensures Inv(INITIAL)
  {
  }

  /** The two mirror images agree at every point of every interleaving. */
  lemma MirrorsAgree(steps: seq<Step>, c: nat, channel: Bytes)
    requires Possible(INITIAL, steps)
    ensures var w := Final(INITIAL, steps);
            && NoEmptyChannel(w.channels)
            && (Registered(w.channels, c, channel) ==>
                  c < |w.clients| && channel in w.clients[c].subs && w.clients[c].phase != Cleaned)
            && (Attached(w, c) ==> (channel in w.clients[c].subs <==> Registered(w.channels, c, channel)))
  {
    hide Inv;
    InitiallyInv();
    RunKeepsInv(INITIAL, steps);
    InvMirrors(Final(INITIAL, steps), c, channel);
  }

  lemma InvMirrors(w: World, c: nat, channel: Bytes)
    requires Inv(w)
    ensures NoEmptyChannel(w.channels)
    ensures Registered(w.channels, c, channel) ==>
              c < |w.clients| && channel in w.clients[c].subs && w.clients[c].phase != Cleaned
    ensures Attached(w, c) ==> (channel in w.clients[c].subs <==> Registered(w.channels, c, channel))
  {
    hide Registered;
  }

  predicate IsCleaned(w: World, c: nat) { c < |w.clients| && w.clients[c].phase == Cleaned }

  lemma {:induction false} CleanedStaysCleaned(w: World, steps: seq<Step>, c: nat)
    requires Possible(w, steps) && IsCleaned(w, c)
    ensures IsCleaned(Final(w, steps), c)
    decreases |steps|
  {
    hide Next, Enabled;
    if steps != [] {
      ClientGrows(w, steps[0], c);
      CleanedStaysCleaned(Next(w, steps[0]), steps[1..], c);
    }
  }

  /** Once a client is cleaned up, its id is in no channel ever again. */
  lemma CleanedNeverReappears(before: seq<Step>, after: seq<Step>, c: nat, channel: Bytes)
    requires Possible(INITIAL, before) && IsCleaned(Final(INITIAL, before), c)
    requires Possible(Final(INITIAL, before), after)
    ensures !Registered(Final(Final(INITIAL, before), after).channels, c, channel)
  {
    hide Inv, Final, Possible;
    var w := Final(INITIAL, before);
    InitiallyInv();
    RunKeepsInv(INITIAL, before);
    RunKeepsInv(w, after);
    CleanedStaysCleaned(w, after, c);
    InvMirrors(Final(w, after), c, channel);
  }

  /** Messages written out, still queued, and discarded at the end. */
  function Fates(clients: seq<Client>): seq<nat> {
    seq(|clients|, i requires 0 <= i < |clients| =>
      |clients[i].written| + |clients[i].box.queue| + |clients[i].lost|)
  }

  /** No message is made or lost on the way: what the publishes of a run counted is what was written
      out, is still queued, or was discarded at a close. */
  lemma MessagesAreConserved(steps: seq<Step>)
    requires Possible(INITIAL, steps)
    ensures var w := Final(INITIAL, steps);
            Sum(DeliveredCounts(w.publishes)) == Sum(Fates(w.clients))
  {
    InitiallyInv();
    RunKeepsInv(INITIAL, steps);
    FatesAreAccepted(Final(INITIAL, steps));
  }

  lemma FatesAreAccepted(w: World)
    requires AllSound(w)
    ensures Fates(w.clients) == AcceptedCounts(w.clients)
  {
    forall i | 0 <= i < |w.clients|
      ensures Fates(w.clients)[i] == AcceptedCounts(w.clients)[i]
    {
      assert Sound(w.clients[i]);
    }
  }

  /** Every queue is bounded; a client writes messages out in the order they were accepted, and only
      messages of channels it asked for. */
  lemma QueuesAreOrdered(steps: seq<Step>, c: nat)
    requires Possible(INITIAL, steps) && c < |Final(INITIAL, steps).clients|
    ensures var x := Final(INITIAL, steps).clients[c];
            && |x.box.queue| <= 1024
            && x.written <= x.accepted
            && (x.phase == Running ==> x.accepted == x.written + x.box.queue)
            && forall m :: m in x.written ==> m.channel in x.everSubscribed
  {
    hide Possible, Final;
    InitiallyInv();
    RunKeepsInv(INITIAL, steps);
    SoundQueues(Final(INITIAL, steps).clients[c]);
  }

  lemma SoundQueues(x: Client)
    requires Sound(x)
    ensures x.written <= x.accepted
    ensures x.phase == Running ==> x.accepted == x.written + x.box.queue
    ensures forall m :: m in x.written ==> m.channel in x.everSubscribed
  {
    assert x.written + [] == x.written;
    forall m | m in x.written
      ensures m.channel in x.everSubscribed
    {
      var i :| 0 <= i < |x.written| && x.written[i] == m;
      assert x.accepted[i] == m;
    }
  }

  /** The log of accepted messages is only ever appended to, and so is what was written. */
  lemma {:induction false} LogsOnlyGrow(w: World, steps: seq<Step>, c: nat)
    requires Possible(w, steps) && c < |w.clients|
    ensures var v := Final(w, steps);
            c < |v.clients| && w.clients[c].accepted <= v.clients[c].accepted && w.clients[c].written <= v.clients[c].written
    decreases |steps|
  {
    hide Next, Enabled;
    if steps != [] {
      LogsGrowByStep(w, steps[0], c);
      LogsOnlyGrow(Next(w, steps[0]), steps[1..], c);
    }
  }

  lemma LogsGrowByStep(w: World, s: Step, c: nat)
    requires Enabled(w, s) && c < |w.clients|
    ensures var w' := Next(w, s);
            c < |w'.clients| && w.clients[c].accepted <= w'.clients[c].accepted && w.clients[c].written <= w'.clients[c].written
  {
    hide Offer, RegistryAfter;
  }

  // ---------- One send

  /** A client with room gets the message at the end of its queue and is counted; one without is on the
      list for eviction, signalled if its queue is full; nobody else hears of it. */
  lemma SendReaches(w: World, p: nat, c: nat)
    requires Enabled(w, Send(p, c))
    ensures var m, x, q := w.publishes[p].message, w.clients[c], w.publishes[p];
            var w' := Next(w, Send(p, c));
            var x', q' := w'.clients[c], w'.publishes[p];
            && Reached(x.box, x'.box, m)
            && x'.accepted == (if HasRoom(x.box) then x.accepted + [m] else x.accepted)
            && x'.written == x.written && x'.lost == x.lost && x'.subs == x.subs && x'.phase == x.phase
            && q'.todo == q.todo - {c} && q'.message == m && !q'.done
            && q'.delivered == q.delivered + (if HasRoom(x.box) then 1 else 0)
            && q'.failed == (if HasRoom(x.box) then q.failed else q.failed + {c})
            && w' == w.(clients := w.clients[c := x'], publishes := w.publishes[p := q'])
  {
  }

  /** A publish in flight never gets stuck: whoever it still waits for can be sent to, and once it waits
      for nobody it can evict. */
  lemma PublishNeverStuck(steps: seq<Step>, p: nat)
    requires Possible(INITIAL, steps) && InFlight(Final(INITIAL, steps), p)
    ensures var w := Final(INITIAL, steps);
            var todo := w.publishes[p].todo;
            && (forall c: nat :: c in todo ==> Enabled(w, Send(p, c)))
            && (todo == {} ==> Enabled(w, Evict(p)))
  {
    hide Possible, Final;
    InitiallyInv();
    RunKeepsInv(INITIAL, steps);
    var w := Final(INITIAL, steps);
    forall c: nat | c in w.publishes[p].todo
      ensures Enabled(w, Send(p, c))
    {
      assert Waiting(w, p, c);
    }
  }

  // ---------- One connection from its start to its end

  /** A new connection runs with nothing in its set and its queue. */
  lemma ConnectStarts(w: World)
    ensures Enabled(w, Connect)
    ensures var w' := Next(w, Connect);
            && |w'.clients| == |w.clients| + 1 && w'.clients[..|w.clients|] == w.clients
            && Attached(w', |w.clients|) && w'.clients[|w.clients|].subs == {} && w'.clients[|w.clients|].box.queue == []
            && w'.channels == w.channels && w'.publishes == w.publishes
  {
  }

  function Drains(c: nat, n: nat): seq<Step> { if n == 0 then [] else [Drain(c)] + Drains(c, n - 1) }

  /** What draining will have written, before a drain and after it. */
  function Drained(w: World, c: nat): World
    requires c < |w.clients|
  {
    var x := w.clients[c];
    w.(clients := w.clients[c := x.(box := x.box.(queue := []), written := x.written + x.box.queue)])
  }

  lemma DrainStep(w: World, c: nat)
    requires IsRunning(w, c) && w.clients[c].box.queue != []
    ensures Enabled(w, Drain(c)) && IsRunning(Next(w, Drain(c)), c)
    ensures |Next(w, Drain(c)).clients[c].box.queue| == |w.clients[c].box.queue| - 1
    ensures Drained(Next(w, Drain(c)), c) == Drained(w, c)
  {
    var x := w.clients[c];
    assert x.written + [x.box.queue[0]] + x.box.queue[1..] == x.written + x.box.queue;
  }

  /** A running client can write out all it holds, and writes it in the order of the queue. */
  lemma {:induction false} DrainsWriteTheQueue(w: World, c: nat)
    requires IsRunning(w, c)
    ensures var x := w.clients[c];
            && Possible(w, Drains(c, |x.box.queue|))
            && Final(w, Drains(c, |x.box.queue|)) == Drained(w, c)
    decreases |w.clients[c].box.queue|
  {
    var x := w.clients[c];
    var q := x.box.queue;
    if q == [] {
      assert x.written + q == x.written && x.box.(queue := []) == x.box;
      assert w.clients[c := x] == w.clients;
    } else {
      DrainStep(w, c);
      DrainsWriteTheQueue(Next(w, Drain(c)), c);
      hide Next, Enabled;
      assert ([Drain(c)] + Drains(c, |q| - 1))[1..] == Drains(c, |q| - 1);
    }
  }

  /** The ways out of the connection loop: a reason of its own, a message that cannot be written, QUIT. */
  predicate Leaves(s: Step, c: nat) { s == Stop(c) || s == DrainFails(c) || s == Quit(c) }

  /** Whichever way a client leaves, cleaning up and closing its queue take it out of every channel and
      lose exactly what was still queued. */
  lemma LeavingLosesTheQueue(steps: seq<Step>, s: Step, c: nat)
    requires Possible(INITIAL, steps) && Leaves(s, c) && IsRunning(Final(INITIAL, steps), c)
    requires s.DrainFails? ==> Final(INITIAL, steps).clients[c].box.queue != []
    ensures Enabled(Final(INITIAL, steps), s) && Leaving(Final(INITIAL, steps), s, c)
  {
    hide Possible, Final, Leaving;
    InitiallyInv();
    RunKeepsInv(INITIAL, steps);
    SoundLeaves(Final(INITIAL, steps), s, c);
  }

  ghost predicate Leaving(w: World, s: Step, c: nat)
    requires Leaves(s, c) && Enabled(w, s)
  {
    var w1 := Next(w, s);
    && Enabled(w1, Cleanup(c)) && Enabled(Next(w1, Cleanup(c)), CloseQueue(c))
    && var w' := Next(Next(w1, Cleanup(c)), CloseQueue(c));
       var x, x' := w.clients[c], w'.clients[c];
       && x'.phase == Cleaned && x'.box.closed && x'.box.queue == []
       && x'.written == x.written && x'.lost == x.lost + x.box.queue
       && (forall d: ClientId, channel: Bytes :: Registered(w'.channels, d, channel) <==> Registered(w.channels, d, channel) && d != c)
       && w'.publishes == w.publishes && |w'.clients| == |w.clients|
       && forall d :: 0 <= d < |w.clients| && d != c ==> w'.clients[d] == w.clients[d]
  }

  lemma SoundLeaves(w: World, s: Step, c: nat)
    requires AllSound(w) && Leaves(s, c) && Enabled(w, s)
    ensures Leaving(w, s, c)
  {
    var x := w.clients[c];
    assert Sound(x);
    if s.DrainFails? {
      assert x.lost + [x.box.queue[0]] + x.box.queue[1..] == x.lost + x.box.queue;
    }
  }

  // ---------- A publish nobody interrupts

  function Boxes(clients: seq<Client>): map<ClientId, Mailbox> {
    map c: nat | c < |clients| :: clients[c].box
  }

  function Ids(order: seq<nat>): set<ClientId> { set c | c in order }

  function Sends(p: nat, order: seq<nat>): seq<Step> {
    if order == [] then [] else [Send(p, order[0])] + Sends(p, order[1..])
  }

  /** The state of publish `p` once it has offered its message to `done`. */
  ghost predicate Midway(w: World, p: nat, before: map<ClientId, Mailbox>, subs: set<ClientId>, done: set<ClientId>) {
    && p < |w.publishes| && done <= subs <= before.Keys
    && var q := w.publishes[p];
       && !q.done && q.todo == subs - done && q.failed == Refusing(before, done, q.message)
       && q.delivered == Taking(before, done, q.message)
       && Boxes(w.clients) == Offered(before, done, q.message)
  }

  lemma SendMidway(w: World, p: nat, c: nat, before: map<ClientId, Mailbox>, subs: set<ClientId>, done: set<ClientId>)
    requires Midway(w, p, before, subs, done) && c in subs - done
    ensures Enabled(w, Send(p, c))
    ensures var w' := Next(w, Send(p, c));
            && Midway(w', p, before, subs, done + {c}) && w'.channels == w.channels
            && w'.publishes[p].message == w.publishes[p].message
  {
    hide Offer, Refusing, Taking, Offered;
    var m := w.publishes[p].message;
    OneMore(before, done, c, m);
    OfferedKeys(before, done, m);
    assert c in Boxes(w.clients) && c < |w.clients| && w.clients[c].box == before[c];
    var w' := Next(w, Send(p, c));
    assert Boxes(w'.clients) == Boxes(w.clients)[c := Offer(before[c], m).0];
    assert subs - done - {c} == subs - (done + {c});
    assert Refusing(before, done, m) + {} == Refusing(before, done, m);
  }

  lemma OfferedKeys(boxes: map<ClientId, Mailbox>, cs: set<ClientId>, m: Message)
    ensures Offered(boxes, cs, m).Keys == boxes.Keys
  {
  }

  lemma {:induction false} SendsMidway(
    w: World, p: nat, order: seq<nat>, before: map<ClientId, Mailbox>, subs: set<ClientId>, done: set<ClientId>)
    requires Midway(w, p, before, subs, done)
    requires forall i :: 0 <= i < |order| ==> order[i] in subs - done
    requires forall i, j :: 0 <= i < j < |order| ==> order[i] != order[j]
    ensures Possible(w, Sends(p, order))
    ensures var w' := Final(w, Sends(p, order));
            && Midway(w', p, before, subs, done + Ids(order)) && w'.channels == w.channels
            && w'.publishes[p].message == w.publishes[p].message
    decreases |order|
  {
    hide Midway, Next, Enabled;
    if order == [] {
      assert done + Ids(order) == done;
    } else {
      var c, rest := order[0], order[1..];
      SendMidway(w, p, c, before, subs, done);
      assert forall i :: 0 <= i < |rest| ==> rest[i] == order[i + 1];
      SendsMidway(Next(w, Send(p, c)), p, rest, before, subs, done + {c});
      assert done + {c} + Ids(rest) == done + Ids(order);
      assert ([Send(p, c)] + Sends(p, rest))[1..] == Sends(p, rest);
    }
  }

  lemma SnapshotMidway(w: World, m: Message)
    requires EntriesKnown(w) && m.channel in w.channels
    ensures Midway(Next(w, Snapshot(m)), |w.publishes|, Boxes(w.clients), w.channels[m.channel], {})
    ensures Next(w, Snapshot(m)).channels == w.channels
    ensures Next(w, Snapshot(m)).publishes[|w.publishes|].message == m
  {
    hide Offer;
    var subs := w.channels[m.channel];
    NobodyYet(Boxes(w.clients), m);
    forall c | c in subs
      ensures c in Boxes(w.clients)
    {
      assert Registered(w.channels, c, m.channel);
    }
    assert subs - {} == subs;
  }

  lemma EvictMidway(w: World, p: nat, boxes: map<ClientId, Mailbox>, subs: set<ClientId>)
    requires Midway(w, p, boxes, subs, subs) && NoEmptyChannel(w.channels)
    ensures Enabled(w, Evict(p))
    ensures var m, w' := w.publishes[p].message, Next(w, Evict(p));
            && w'.channels == Leave(w.channels, Refusing(boxes, subs, m), m.channel)
            && Boxes(w'.clients) == Offered(boxes, subs, m)
            && |w'.publishes| == |w.publishes| && w'.publishes[p].done
            && w'.publishes[p].delivered == Taking(boxes, subs, m)
  {
    hide Refusing, Offered, Taking, Leave, Offer;
    assert subs - subs == {};
    LeaveNobody(w.channels, w.publishes[p].message.channel);
  }

  /** On a channel that nobody holds the snapshot is the whole publish. */
  predicate CanPublish(w: World, m: Message, order: seq<nat>) {
    m.channel in w.channels ==>
      var w1 := Next(w, Snapshot(m));
      Possible(w1, Sends(|w.publishes|, order)) && Enabled(Final(w1, Sends(|w.publishes|, order)), Evict(|w.publishes|))
  }

  /** The three parts of a publish with nothing in between. */
  function Published(w: World, m: Message, order: seq<nat>): World
    requires CanPublish(w, m, order)
  {
    var w1 := Next(w, Snapshot(m));
    if m.channel !in w.channels then w1
    else Next(Final(w1, Sends(|w.publishes|, order)), Evict(|w.publishes|))
  }

  lemma PublishToNobody(w: World, m: Message)
    requires m.channel !in w.channels
    ensures var p, boxes, w' := |w.publishes|, Boxes(w.clients), Next(w, Snapshot(m));
            && w'.publishes[p].done && w'.publishes[p].delivered == Taking(boxes, {}, m)
            && w'.channels == Leave(w.channels, Refusing(boxes, {}, m), m.channel)
            && Boxes(w'.clients) == Offered(boxes, {}, m)
  {
    hide Offer;
    NobodyYet(Boxes(w.clients), m);
  }

  lemma PublishToSome(w: World, m: Message, order: seq<nat>)
    requires EntriesKnown(w) && NoEmptyChannel(w.channels) && m.channel in w.channels
    requires Ids(order) == w.channels[m.channel]
    requires forall i, j :: 0 <= i < j < |order| ==> order[i] != order[j]
    ensures CanPublish(w, m, order)
    ensures var p, subs, boxes, w' := |w.publishes|, w.channels[m.channel], Boxes(w.clients), Published(w, m, order);
            && p < |w'.publishes| && w'.publishes[p].done
            && w'.channels == Leave(w.channels, Refusing(boxes, subs, m), m.channel)
            && Boxes(w'.clients) == Offered(boxes, subs, m)
            && w'.publishes[p].delivered == Taking(boxes, subs, m)
  {
    hide Refusing, Offered, Taking, Leave, Final, Possible, Midway, Next, Boxes;
    var p, subs, boxes := |w.publishes|, w.channels[m.channel], Boxes(w.clients);
    var w1 := Next(w, Snapshot(m));
    SnapshotMidway(w, m);
    assert forall i :: 0 <= i < |order| ==> order[i] in subs - {};
    SendsMidway(w1, p, order, boxes, subs, {});
    assert {} + Ids(order) == subs;
    EvictMidway(Final(w1, Sends(p, order)), p, boxes, subs);
  }

  /** With nothing in between, the three parts of a publish do what `PubSub.Publish` does at once, in
      whatever order the messages are sent. */
  lemma UninterruptedPublish(w: World, m: Message, order: seq<nat>)
    requires EntriesKnown(w) && NoEmptyChannel(w.channels)
    requires Ids(order) == Subscribers(w.channels, m.channel)
    requires forall i, j :: 0 <= i < j < |order| ==> order[i] != order[j]
    ensures CanPublish(w, m, order)
    ensures var p, subs, boxes := |w.publishes|, Subscribers(w.channels, m.channel), Boxes(w.clients);
            var w' := Published(w, m, order);
            && p < |w'.publishes| && w'.publishes[p].done
            && w'.channels == Leave(w.channels, Refusing(boxes, subs, m), m.channel)
            && Boxes(w'.clients) == Offered(boxes, subs, m)
            && w'.publishes[p].delivered == Taking(boxes, subs, m)
            && PublishEffect(w.channels, boxes, m, w'.channels, Boxes(w'.clients), w'.publishes[p].delivered)
  {
    hide Refusing, Offered, Taking, Leave, PublishEffect, Final, Possible, Sends, Enabled;
    SubscribersHaveBoxes(w, m.channel);
    PublishComesTo(w.channels, Boxes(w.clients), m);
    if m.channel in w.channels {
      PublishToSome(w, m, order);
    } else {
      PublishToNobody(w, m);
    }
  }

  lemma SubscribersHaveBoxes(w: World, channel: Bytes)
    requires EntriesKnown(w)
    ensures Subscribers(w.channels, channel) <= Boxes(w.clients).Keys
  {
    forall c | c in Subscribers(w.channels, channel)
      ensures c in Boxes(w.clients)
    {
      assert Registered(w.channels, c, channel);
    }
  }
}
