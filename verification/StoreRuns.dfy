/** Whole runs of the store under a moving clock: commands of any clients, purges, snapshots and
    restarts, and the two places where the program looks at an entry first and removes it later. */
module StoreRuns {
  import opened Basics
  import opened Decimal
  import opened Resp
  import opened Protocol
  import opened Store
  import opened LiveMap
  import opened Persistence

  /** `Notice` and `Remove` are the two halves of the purge's scan and deletes, and of `get`'s lazy
      removal: a key seen expired is removed later, whatever happened in between. `Restart` ends the
      process and starts another one from the last snapshot. */
  datatype Step =
    | Tick(dt: nat)
    | Do(command: NormalCommand)
    | Purge
    | Notice(key: Bytes)
    | Remove(key: Bytes)
    | Save(wall: nat)
    | Restart(load: Clock)

  /** `noticed` are the keys waiting for their removal, `rewritten` those of them that a command may
      have brought to life since. */
  datatype World = World(data: Data, now: Time, noticed: multiset<Bytes>, rewritten: set<Bytes>, disk: Disk<Data>)

  predicate Valid(s: Step) { s.Do? ==> IsStoreCommand(s.command) }

  predicate AllValid(steps: seq<Step>) { forall i :: 0 <= i < |steps| ==> Valid(steps[i]) }

  /** The keys a command may bring to life. */
  function Revives(c: NormalCommand): set<Bytes> {
    if DeltaOf(c).Some? then {DeltaOf(c).value.0}
    else if c.Set? then {c.key}
    else if c.Copy? then {c.destination}
    else {}
  }

  function Next(w: World, s: Step): World
    requires Valid(s)
  {
    match s
    case Tick(dt) => w.(now := w.now + dt)
    case Do(c) => w.(data := Executed(w.data, w.now, c).0, rewritten := w.rewritten + Revives(c))
    case Purge => w.(data := Purged(w.data, w.now))
    case Notice(k) =>
      if k in w.data && IsExpired(w.data[k], w.now)
      then w.(noticed := w.noticed + multiset{k}, rewritten := w.rewritten - {k})
      else w
    case Remove(k) =>
      if k in w.noticed
      then w.(data := DelKey(w.data, w.now, k).0, noticed := w.noticed - multiset{k})
      else w
    case Save(wall) => w.(disk := Written(w.data, Clock(wall, w.now)))
    case Restart(c) => World(Loaded(w.disk, c), c.mono, multiset{}, {}, w.disk)
  }

  /** The replies of a run, in order. */
  function Replies(w: World, steps: seq<Step>): seq<RespValue>
    requires AllValid(steps)
    decreases |steps|
  {
    if steps == [] then []
    else
      (if steps[0].Do? then [Executed(w.data, w.now, steps[0].command).1] else [])
      + Replies(Next(w, steps[0]), steps[1..])
  }

  function Final(w: World, steps: seq<Step>): World
    requires AllValid(steps)
    decreases |steps|
  {
    if steps == [] then w else Final(Next(w, steps[0]), steps[1..])
  }

  // ---------- What a client may believe

  /** A map of live keys, and the map of live keys that was saved. */
  datatype Belief = Belief(live: Map, now: Time, saved: Disk<Map>)

  /** Beliefs know nothing of housekeeping. */
  function Learn(b: Belief, s: Step): Belief
    requires Valid(s)
  {
    match s
    case Tick(dt) => b.(live := Prune(b.live, b.now + dt), now := b.now + dt)
    case Do(c) => b.(live := Prune(Apply(b.live, b.now, c).0, b.now))
    case Save(wall) => b.(saved := Written(b.live, Clock(wall, b.now)))
    case Restart(c) => Belief(LoadedMap(b.saved, c), c.mono, b.saved)
    case _ => b
  }

  function Expected(b: Belief, steps: seq<Step>): seq<RespValue>
    requires AllValid(steps)
    decreases |steps|
  {
    if steps == [] then []
    else
      (if steps[0].Do? then [Apply(b.live, b.now, steps[0].command).1] else [])
      + Expected(Learn(b, steps[0]), steps[1..])
  }

  function FinalBelief(b: Belief, steps: seq<Step>): Belief
    requires AllValid(steps)
    decreases |steps|
  {
    if steps == [] then b else FinalBelief(Learn(b, steps[0]), steps[1..])
  }

  function BeliefOf(w: World): Belief { Belief(View(w.data, w.now), w.now, DiskView(w.disk)) }

  /** A removal that hits a live key: as `LateMeansRewritten` shows, one that was written again since
      it was noticed. */
  predicate Late(w: World, s: Step) { s.Remove? && s.key in w.noticed && Live(w.data, s.key, w.now) }

  predicate StaleCounter(w: World, s: Step) { s.Do? && HitsExpiredString(w.data, w.now, s.command) }

  predicate NoneLate(w: World, steps: seq<Step>)
    requires AllValid(steps)
    decreases |steps|
  {
    steps == [] || (!Late(w, steps[0]) && NoneLate(Next(w, steps[0]), steps[1..]))
  }

  predicate NoStaleCounter(w: World, steps: seq<Step>)
    requires AllValid(steps)
    decreases |steps|
  {
    steps == [] || (!StaleCounter(w, steps[0]) && NoStaleCounter(Next(w, steps[0]), steps[1..]))
  }

  // ---------- The invariant of the split removal

  /** A key waiting for its removal is dead unless it was written again. */
  predicate Inv(w: World) {
    forall k :: k in w.noticed && k !in w.rewritten ==> !Live(w.data, k, w.now)
  }

  lemma CommandRevivesOnly(d: Data, now: Time, c: NormalCommand, k: Bytes)
    requires IsStoreCommand(c) && !Live(d, k, now) && k !in Revives(c)
    ensures !Live(Executed(d, now, c).0, k, now)
  {
    hide IncrByKey, DelAll;
    if c.Del? {
      DelAllIsOneRemoval(d, now, c.keys);
    } else if DeltaOf(c).Some? {
      assert IncrByKey(d, now, DeltaOf(c).value.0, DeltaOf(c).value.1).0 - {DeltaOf(c).value.0} == d - {DeltaOf(c).value.0} by {
        CounterTouchesOne(d, now, DeltaOf(c).value.0, DeltaOf(c).value.1);
      }
      assert k in d <==> k in d - {DeltaOf(c).value.0};
    }
  }

  lemma CounterTouchesOne(d: Data, now: Time, k: Bytes, delta: i64)
    ensures IncrByKey(d, now, k, delta).0 - {k} == d - {k}
  {
  }

  lemma NextKeepsInv(w: World, s: Step)
    requires Valid(s) && Inv(w)
    ensures Inv(Next(w, s))
  {
    var w' := Next(w, s);
    forall k | k in w'.noticed && k !in w'.rewritten
      ensures !Live(w'.data, k, w'.now)
    {
      if s.Do? {
        hide Executed, Live;
        CommandRevivesOnly(w.data, w.now, s.command, k);
      }
    }
  }

  lemma {:induction false} RunKeepsInv(w: World, steps: seq<Step>)
    requires AllValid(steps) && Inv(w)
    ensures Inv(Final(w, steps))
    decreases |steps|
  {
    hide Inv, Next;
    if steps != [] {
      NextKeepsInv(w, steps[0]);
      RunKeepsInv(Next(w, steps[0]), steps[1..]);
    }
  }

  /** At every point of every run that starts with nothing noticed, only a key that was written again
      can be removed alive. */
  lemma LateMeansRewritten(w: World, steps: seq<Step>, s: Step)
    requires AllValid(steps) && w.noticed == multiset{}
    requires Late(Final(w, steps), s)
    ensures s.key in Final(w, steps).rewritten
  {
    RunKeepsInv(w, steps);
  }

  predicate IsHousekeeping(s: Step) { s.Purge? || s.Notice? || s.Remove? }

  /** Housekeeping changes what a client could see exactly when it removes a live key, and then at
      that key and nowhere else. */
  lemma HousekeepingView(w: World, s: Step)
    requires Valid(s) && IsHousekeeping(s)
    ensures Next(w, s).now == w.now && Next(w, s).disk == w.disk
    ensures View(Next(w, s).data, w.now) != View(w.data, w.now) <==> Late(w, s)
    ensures Late(w, s) ==> View(Next(w, s).data, w.now) == View(w.data, w.now) - {s.key}
  {
    hide View;
    match s
    case Purge => TimeAndPurge(w.data, w.now, w.now);
    case Notice(_) =>
    case Remove(k) =>
      ViewOfRemoval(w.data, w.now, {k});
      DroppingDead(w.data, w.now, k);
      LiveIsInView(w.data, w.now, k);
    case _ =>
  }

  /** A purge leaves exactly the live keys. */
  lemma PurgeIsComplete(w: World)
    ensures Next(w, Purge).data.Keys == View(w.data, w.now).Keys
  {
  }

  function Notices(ks: seq<Bytes>): seq<Step> { if ks == [] then [] else [Notice(ks[0])] + Notices(ks[1..]) }

  function Removes(ks: seq<Bytes>): seq<Step> { if ks == [] then [] else [Remove(ks[0])] + Removes(ks[1..]) }

  lemma HeadCounts(k: Bytes, rest: seq<Bytes>)
    ensures multiset([k] + rest) == multiset{k} + multiset(rest)
    ensures SetOf([k] + rest) == {k} + SetOf(rest)
  {
  }

  lemma {:induction false} NoticesNotice(w: World, ks: seq<Bytes>)
    requires forall k :: k in ks ==> k in w.data && IsExpired(w.data[k], w.now)
    ensures AllValid(Notices(ks))
    ensures var w' := Final(w, Notices(ks));
            w'.data == w.data && w'.now == w.now && w'.disk == w.disk && w'.noticed == w.noticed + multiset(ks)
    decreases |ks|
  {
    if ks == [] {
      assert w.noticed + multiset(ks) == w.noticed;
    } else {
      var k, rest := ks[0], ks[1..];
      var w1 := w.(noticed := w.noticed + multiset{k}, rewritten := w.rewritten - {k});
      assert Next(w, Notice(k)) == w1;
      NoticesNotice(w1, rest);
      hide Next, SetOf;
      assert ks == [k] + rest;
      HeadCounts(k, rest);
      assert ([Notice(k)] + Notices(rest))[1..] == Notices(rest);
    }
  }

  lemma {:induction false} RemovesRemove(w: World, ks: seq<Bytes>)
    requires multiset(ks) <= w.noticed
    ensures AllValid(Removes(ks))
    ensures Final(w, Removes(ks)).data == w.data - SetOf(ks)
    decreases |ks|
  {
    if ks == [] {
      assert w.data - SetOf(ks) == w.data;
    } else {
      var k, rest := ks[0], ks[1..];
      assert ks == [k] + rest;
      HeadCounts(k, rest);
      RemoveOne(w, k, multiset(rest));
      RemovesRemove(Next(w, Remove(k)), rest);
      hide SetOf, Next;
      assert Removes(ks)[1..] == Removes(rest);
      assert w.data - {k} - SetOf(rest) == w.data - ({k} + SetOf(rest));
    }
  }

  lemma RemoveOne(w: World, k: Bytes, others: multiset<Bytes>)
    requires multiset{k} + others <= w.noticed
    ensures Next(w, Remove(k)).data == w.data - {k} && others <= Next(w, Remove(k)).noticed
  {
    assert k in multiset{k} + others;
  }

  /** With nothing in between, noticing the dead keys and removing them one by one, each in any order, is
      the purge. */
  lemma UninterruptedPurge(w: World, scan: seq<Bytes>, deletes: seq<Bytes>)
    requires forall k :: k in scan <==> k in w.data && IsExpired(w.data[k], w.now)
    requires multiset(deletes) == multiset(scan)
    ensures AllValid(Notices(scan)) && AllValid(Removes(deletes))
    ensures Final(Final(w, Notices(scan)), Removes(deletes)).data == Next(w, Purge).data
  {
    hide Final;
    NoticesNotice(w, scan);
    RemovesRemove(Final(w, Notices(scan)), deletes);
    forall k
      ensures k in SetOf(deletes) <==> k in w.data && IsExpired(w.data[k], w.now)
    {
      assert k in deletes <==> k in multiset(deletes);
      assert k in scan <==> k in multiset(scan);
    }
  }

  function LateSteps(k: Bytes, v: Bytes): seq<Step> {
    [Notice(k), Do(NormalCommand.Set(k, v, None)), Remove(k), Do(NormalCommand.Get(k))]
  }

  lemma LateStepsAreValid(k: Bytes, v: Bytes)
    ensures AllValid(LateSteps(k, v))
    ensures var s1 := LateSteps(k, v)[1..]; var s2 := s1[1..]; var s3 := s2[1..];
            && s1[0] == Do(NormalCommand.Set(k, v, None)) && s2[0] == Remove(k)
            && s3 == [Do(NormalCommand.Get(k))] && s3[1..] == []
  {
  }

  lemma LateStepsReplies(k: Bytes, v: Bytes, w: World)
    requires k in w.data && IsExpired(w.data[k], w.now)
    ensures AllValid(LateSteps(k, v)) && !NoneLate(w, LateSteps(k, v))
    ensures Replies(w, LateSteps(k, v)) == [OK_REPLY, Nil]
  {
    LateStepsAreValid(k, v);
    hide DelAll, IncrByKey, Ascii, CastI64, TextOf;
    var steps := LateSteps(k, v);
    var s1 := steps[1..];
    var s2 := s1[1..];
    var s3 := s2[1..];
    var w1 := Next(w, Notice(k));
    var w2 := Next(w1, s1[0]);
    var w3 := Next(w2, s2[0]);
    assert k in w2.noticed && Live(w2.data, k, w2.now) && k !in w3.data;
    assert !NoneLate(w2, s2) && !NoneLate(w1, s1);
    assert Replies(w3, s3) == [Nil] + [];
    assert Replies(w2, s2) == [] + Replies(w3, s3);
    assert Replies(w1, s1) == [OK_REPLY] + Replies(w2, s2);
    assert Replies(w, steps) == [] + Replies(w1, s1);
  }

  lemma LateStepsExpected(k: Bytes, v: Bytes, b: Belief)
    requires AllValid(LateSteps(k, v))
    ensures Expected(b, LateSteps(k, v)) == [OK_REPLY, Bulk(v)]
  {
    LateStepsAreValid(k, v);
    hide AddTo, Ascii, CastI64;
    var steps := LateSteps(k, v);
    var s1 := steps[1..];
    var s2 := s1[1..];
    var s3 := s2[1..];
    var b1 := Learn(b, s1[0]);
    assert k in b1.live && b1.live[k].text == v;
    assert Expected(b1, s3) == [Bulk(v)] + [];
    assert Expected(b1, s2) == [] + Expected(b1, s3);
    assert Expected(b, s1) == [OK_REPLY] + Expected(b1, s2);
    assert Expected(b, steps) == [] + Expected(b, s1);
  }

  /** A late removal loses a write: notice an expired key, write it again, remove it. */
  lemma LateRemovalLosesAWrite(k: Bytes, v: Bytes, w: World)
    requires k in w.data && IsExpired(w.data[k], w.now)
    ensures AllValid(LateSteps(k, v)) && !NoneLate(w, LateSteps(k, v))
    ensures Replies(w, LateSteps(k, v)) != Expected(BeliefOf(w), LateSteps(k, v))
  {
    LateStepsReplies(k, v, w);
    LateStepsExpected(k, v, BeliefOf(w));
  }

  // ---------- Runs refine the map of live keys

  lemma StepRefines(w: World, s: Step)
    requires Valid(s) && !Late(w, s) && !StaleCounter(w, s)
    ensures BeliefOf(Next(w, s)) == Learn(BeliefOf(w), s)
    ensures s.Do? ==> Executed(w.data, w.now, s.command).1 == Apply(View(w.data, w.now), w.now, s.command).1
  {
    hide View, Prune, Apply, Executed, HitsExpiredString, Loaded, LoadedMap, Late;
    match s
    case Tick(dt) => TimeAndPurge(w.data, w.now, w.now + dt);
    case Do(c) => CommandRefines(w.data, w.now, c);
    case Save(_) =>
    case Restart(c) => LoadRefines(w.disk, c);
    case _ => HousekeepingView(w, s);
  }

  /** Nobody can tell the store from the map: with no late removal and no counter on an expired
      string, every run, over any saves and restarts, answers what the map answers and leaves what
      the map leaves. */
  lemma {:induction false} RunRefines(w: World, steps: seq<Step>)
    requires AllValid(steps) && NoneLate(w, steps) && NoStaleCounter(w, steps)
    ensures Replies(w, steps) == Expected(BeliefOf(w), steps)
    ensures BeliefOf(Final(w, steps)) == FinalBelief(BeliefOf(w), steps)
    decreases |steps|
  {
    hide BeliefOf, Learn, Apply, Executed, Late, StaleCounter, Next;
    if steps != [] {
      StepRefines(w, steps[0]);
      BeliefFields(w);
      RunRefines(Next(w, steps[0]), steps[1..]);
    }
  }

  lemma BeliefFields(w: World)
    ensures BeliefOf(w).live == View(w.data, w.now) && BeliefOf(w).now == w.now
  {
  }

  lemma NextClock(w: World, s: Step)
    requires Valid(s)
    ensures Next(w, s).now == if s.Tick? then w.now + s.dt else if s.Restart? then s.load.mono else w.now
  {
  }

  /** What is left of a run without its housekeeping. */
  function Visible(steps: seq<Step>): seq<Step> {
    if steps == [] then []
    else (if IsHousekeeping(steps[0]) then [] else [steps[0]]) + Visible(steps[1..])
  }

  lemma {:induction false} VisibleIsValid(steps: seq<Step>)
    requires AllValid(steps)
    ensures AllValid(Visible(steps))
  {
    if steps != [] {
      VisibleIsValid(steps[1..]);
    }
  }

  /** A visible head stays the head; housekeeping leaves no trace. */
  lemma VisibleHead(steps: seq<Step>)
    requires steps != []
    ensures IsHousekeeping(steps[0]) ==> Visible(steps) == Visible(steps[1..])
    ensures !IsHousekeeping(steps[0]) ==> Visible(steps) == [steps[0]] + Visible(steps[1..]) && Visible(steps)[1..] == Visible(steps[1..])
  {
  }

  lemma {:induction false} ExpectedOfVisible(b: Belief, steps: seq<Step>)
    requires AllValid(steps) && AllValid(Visible(steps))
    ensures Expected(b, steps) == Expected(b, Visible(steps))
    ensures FinalBelief(b, steps) == FinalBelief(b, Visible(steps))
    decreases |steps|
  {
    if steps != [] {
      VisibleIsValid(steps[1..]);
      VisibleHead(steps);
      hide Apply, Visible;
      ExpectedOfVisible(Learn(b, steps[0]), steps[1..]);
    }
  }

  // ---------- Housekeeping creates no new exception

  /** `d'` is `d` without some of its dead entries. */
  predicate Trimmed(d: Data, d': Data, now: Time) {
    && (forall k :: k in d' ==> k in d && d[k] == d'[k])
    && (forall k :: k in d && k !in d' ==> IsExpired(d[k], now))
  }

  lemma TrimmedCounter(d: Data, d': Data, now: Time, k: Bytes, delta: i64)
    requires Trimmed(d, d', now) && !(k in d && IsExpired(d[k], now) && d[k].value.Str?)
    ensures Trimmed(IncrByKey(d, now, k, delta).0, IncrByKey(d', now, k, delta).0, now)
  {
    hide ParseI64;
  }

  lemma TrimmedDel(d: Data, d': Data, now: Time, ks: seq<Bytes>)
    requires Trimmed(d, d', now)
    ensures Trimmed(DelAll(d, now, ks).0, DelAll(d', now, ks).0, now)
  {
    DelAllIsOneRemoval(d, now, ks);
    DelAllIsOneRemoval(d', now, ks);
  }

  lemma TrimmedCommand(d: Data, d': Data, now: Time, c: NormalCommand)
    requires IsStoreCommand(c) && Trimmed(d, d', now) && !HitsExpiredString(d, now, c)
    ensures !HitsExpiredString(d', now, c)
    ensures Trimmed(Executed(d, now, c).0, Executed(d', now, c).0, now)
  {
    hide DelAll, IncrByKey, CastI64, TextOf, TtlKey, Deadline;
    if DeltaOf(c).Some? {
      TrimmedCounter(d, d', now, DeltaOf(c).value.0, DeltaOf(c).value.1);
    } else if c.Del? {
      TrimmedDel(d, d', now, c.keys);
    }
  }

  predicate TrimmedDisk(disk: Disk<Data>, disk': Disk<Data>) {
    match (disk, disk')
    case (Blank, Blank) => true
    case (Written(d, at), Written(d', at')) => at == at' && Trimmed(d, d', at.mono)
    case _ => false
  }

  predicate TrimmedWorld(w: World, w': World) {
    w.now == w'.now && Trimmed(w.data, w'.data, w.now) && TrimmedDisk(w.disk, w'.disk)
  }

  lemma TrimmedLoad(disk: Disk<Data>, disk': Disk<Data>, c: Clock)
    requires TrimmedDisk(disk, disk')
    ensures Trimmed(Loaded(disk, c), Loaded(disk', c), c.mono)
  {
    hide PersistedSecond;
  }

  lemma TrimmedStep(w: World, w': World, s: Step)
    requires Valid(s) && !IsHousekeeping(s) && TrimmedWorld(w, w') && !StaleCounter(w, s)
    ensures !StaleCounter(w', s)
    ensures TrimmedWorld(Next(w, s), Next(w', s))
  {
    hide Loaded, Executed, HitsExpiredString, TrimmedDisk, Trimmed;
    match s
    case Do(c) => TrimmedCommand(w.data, w'.data, w.now, c);
    case Restart(c) => TrimmedLoad(w.disk, w'.disk, c);
    case Save(wall) => TrimmedSave(w.data, w'.data, Clock(wall, w.now));
    case Tick(dt) => TrimmedLater(w.data, w'.data, w.now, dt);
  }

  lemma TrimmedLater(d: Data, d': Data, now: Time, dt: nat)
    requires Trimmed(d, d', now)
    ensures Trimmed(d, d', now + dt)
  {
  }

  lemma TrimmedSave(d: Data, d': Data, c: Clock)
    requires Trimmed(d, d', c.mono)
    ensures TrimmedDisk(Written(d, c), Written(d', c))
  {
  }

  lemma TrimmedHousekeeping(w: World, w': World, s: Step)
    requires Valid(s) && IsHousekeeping(s) && !Late(w', s) && TrimmedWorld(w, w')
    ensures TrimmedWorld(w, Next(w', s)) && !StaleCounter(w', s)
  {
    hide TrimmedDisk;
  }

  lemma {:induction false} HousekeepingStaysQuiet(w: World, w': World, steps: seq<Step>)
    requires AllValid(steps) && AllValid(Visible(steps))
    requires TrimmedWorld(w, w') && NoStaleCounter(w, Visible(steps)) && NoneLate(w', steps)
    ensures NoStaleCounter(w', steps)
    decreases |steps|
  {
    if steps != [] {
      var s, rest := steps[0], steps[1..];
      VisibleIsValid(rest);
      VisibleHead(steps);
      hide Next, StaleCounter, Late, TrimmedWorld, Visible, IsHousekeeping;
      if IsHousekeeping(s) {
        TrimmedHousekeeping(w, w', s);
        HousekeepingStaysQuiet(w, Next(w', s), rest);
      } else {
        TrimmedStep(w, w', s);
        HousekeepingStaysQuiet(Next(w, s), Next(w', s), rest);
      }
    }
  }

  lemma {:induction false} VisibleIsNeverLate(w: World, steps: seq<Step>)
    requires AllValid(steps) && AllValid(Visible(steps))
    ensures NoneLate(w, Visible(steps))
    decreases |steps|
  {
    if steps != [] {
      var s, rest := steps[0], steps[1..];
      VisibleIsValid(rest);
      VisibleHead(steps);
      hide Next, Visible;
      if IsHousekeeping(s) {
        VisibleIsNeverLate(w, rest);
      } else {
        VisibleIsNeverLate(Next(w, s), rest);
      }
    }
  }

  /** Housekeeping inserted anywhere changes no reply: if the run without it puts no counter on an
      expired string and no removal hits a live key, both runs answer the same and end alike. */
  lemma HousekeepingAnywhere(w: World, steps: seq<Step>)
    requires AllValid(steps) && NoneLate(w, steps)
    requires AllValid(Visible(steps)) && NoStaleCounter(w, Visible(steps))
    ensures Replies(w, steps) == Replies(w, Visible(steps))
    ensures BeliefOf(Final(w, steps)) == BeliefOf(Final(w, Visible(steps)))
  {
    assert TrimmedWorld(w, w);
    hide NoneLate, NoStaleCounter, Replies, Final, BeliefOf, TrimmedWorld;
    HousekeepingStaysQuiet(w, w, steps);
    VisibleIsNeverLate(w, steps);
    VisibleOfVisible(steps);
    HousekeepingIsInvisible(w, steps, w, Visible(steps));
  }

  lemma {:induction false} VisibleOfVisible(steps: seq<Step>)
    ensures Visible(Visible(steps)) == Visible(steps)
  {
    if steps != [] {
      VisibleOfVisible(steps[1..]);
      VisibleHead(steps);
    }
  }

  /** Two stores with the same live view and the same view saved, whatever dead entries they hold and
      whether they hold a number or its decimal text, answer the same and end with the same view over
      any two runs that differ only in housekeeping, restarts included. */
  lemma HousekeepingIsInvisible(w: World, steps: seq<Step>, w': World, steps': seq<Step>)
    requires BeliefOf(w) == BeliefOf(w')
    requires AllValid(steps) && AllValid(steps') && Visible(steps) == Visible(steps')
    requires NoneLate(w, steps) && NoStaleCounter(w, steps)
    requires NoneLate(w', steps') && NoStaleCounter(w', steps')
    ensures Replies(w, steps) == Replies(w', steps')
    ensures BeliefOf(Final(w, steps)) == BeliefOf(Final(w', steps'))
  {
    hide BeliefOf, NoneLate, NoStaleCounter, Replies, Expected, Final, FinalBelief;
    RunRefines(w, steps);
    RunRefines(w', steps');
    VisibleIsValid(steps);
    ExpectedOfVisible(BeliefOf(w), steps);
    ExpectedOfVisible(BeliefOf(w'), steps');
  }

  // ---------- A number and its decimal text

  /** The same keys with the same texts and deadlines, dead entries included: the two may differ only
      in holding `Int(n)` or the decimal `Str` of `n`. */
  predicate Alike(d: Data, d': Data) {
    d.Keys == d'.Keys && forall k :: k in d ==> ItemOf(d[k]) == ItemOf(d'[k])
  }

  predicate AlikeDisk(disk: Disk<Data>, disk': Disk<Data>) {
    match (disk, disk')
    case (Blank, Blank) => true
    case (Written(d, at), Written(d', at')) => at == at' && Alike(d, d')
    case _ => false
  }

  predicate AlikeWorld(w: World, w': World) {
    && w.now == w'.now && w.noticed == w'.noticed && w.rewritten == w'.rewritten
    && Alike(w.data, w'.data) && AlikeDisk(w.disk, w'.disk)
  }

  /** A counter command on an expired entry, number or string. */
  predicate HitsExpired(w: World, s: Step) {
    s.Do? && DeltaOf(s.command).Some? &&
    var k := DeltaOf(s.command).value.0; k in w.data && IsExpired(w.data[k], w.now)
  }

  predicate NoneHitsExpired(w: World, steps: seq<Step>)
    requires AllValid(steps)
    decreases |steps|
  {
    steps == [] || (!HitsExpired(w, steps[0]) && NoneHitsExpired(Next(w, steps[0]), steps[1..]))
  }

  lemma AlikeCounter(d: Data, d': Data, now: Time, k: Bytes, delta: i64)
    requires Alike(d, d') && (k in d ==> !IsExpired(d[k], now))
    ensures IncrByKey(d, now, k, delta).1 == IncrByKey(d', now, k, delta).1
    ensures Alike(IncrByKey(d, now, k, delta).0, IncrByKey(d', now, k, delta).0)
  {
    hide ParseI64, PrintI64;
    if k in d {
      NumberOfText(d[k].value);
      NumberOfText(d'[k].value);
    }
  }

  lemma AlikeDel(d: Data, d': Data, now: Time, ks: seq<Bytes>)
    requires Alike(d, d')
    ensures DelAll(d, now, ks).1 == DelAll(d', now, ks).1
    ensures Alike(DelAll(d, now, ks).0, DelAll(d', now, ks).0)
  {
    DelAllIsOneRemoval(d, now, ks);
    DelAllIsOneRemoval(d', now, ks);
    assert View(d, now).Keys == View(d', now).Keys;
  }

  lemma AlikeCommand(d: Data, d': Data, now: Time, c: NormalCommand)
    requires IsStoreCommand(c) && Alike(d, d')
    requires DeltaOf(c).Some? ==> var k := DeltaOf(c).value.0; k in d ==> !IsExpired(d[k], now)
    ensures Executed(d, now, c).1 == Executed(d', now, c).1
    ensures Alike(Executed(d, now, c).0, Executed(d', now, c).0)
  {
    hide IncrByKey, DelAll, CastI64, TextOf;
    if DeltaOf(c).Some? {
      AlikeCounter(d, d', now, DeltaOf(c).value.0, DeltaOf(c).value.1);
    } else if c.Del? {
      AlikeDel(d, d', now, c.keys);
    }
  }

  lemma AlikeLoad(disk: Disk<Data>, disk': Disk<Data>, c: Clock)
    requires AlikeDisk(disk, disk')
    ensures Alike(Loaded(disk, c), Loaded(disk', c))
  {
    hide PersistedSecond, TextOf;
  }

  /** Housekeeping looks at keys and deadlines only. */
  lemma AlikeHousekeeping(w: World, w': World, s: Step)
    requires IsHousekeeping(s) && AlikeWorld(w, w')
    ensures AlikeWorld(Next(w, s), Next(w', s))
  {
    hide AlikeDisk, TextOf, Purged;
    if s.Purge? {
      AlikePurge(w.data, w'.data, w.now);
    }
  }

  lemma AlikePurge(d: Data, d': Data, now: Time)
    requires Alike(d, d')
    ensures Alike(Purged(d, now), Purged(d', now))
  {
    hide TextOf;
  }

  lemma AlikeStep(w: World, w': World, s: Step)
    requires Valid(s) && AlikeWorld(w, w') && !HitsExpired(w, s)
    ensures AlikeWorld(Next(w, s), Next(w', s))
    ensures s.Do? ==> Executed(w.data, w.now, s.command).1 == Executed(w'.data, w'.now, s.command).1
  {
    if IsHousekeeping(s) {
      AlikeHousekeeping(w, w', s);
    } else {
      hide Loaded, Executed, AlikeDisk, Alike;
      match s
      case Do(c) => AlikeCommand(w.data, w'.data, w.now, c);
      case Restart(c) => AlikeLoad(w.disk, w'.disk, c);
      case Save(wall) => AlikeSave(w.data, w'.data, Clock(wall, w.now));
      case Tick(_) =>
    }
  }

  lemma AlikeSave(d: Data, d': Data, c: Clock)
    requires Alike(d, d')
    ensures AlikeDisk(Written(d, c), Written(d', c))
  {
  }

  /** Nobody can tell a number from its decimal text: two stores that differ only there answer the
      same over every run, with late removals, saves and restarts, and differ only there at its end,
      as long as no counter command hits an expired entry of the first. */
  lemma {:induction false} NumbersAreTexts(w: World, w': World, steps: seq<Step>)
    requires AllValid(steps) && AlikeWorld(w, w') && NoneHitsExpired(w, steps)
    ensures Replies(w, steps) == Replies(w', steps)
    ensures AlikeWorld(Final(w, steps), Final(w', steps))
    decreases |steps|
  {
    hide Next, Executed, AlikeWorld, HitsExpired;
    if steps != [] {
      AlikeStep(w, w', steps[0]);
      NumbersAreTexts(Next(w, steps[0]), Next(w', steps[0]), steps[1..]);
    }
  }
}
