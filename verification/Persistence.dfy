/** Snapshots (src/persistence.rs, and the snapshot methods of src/store/mod.rs): deadlines on the
    monotonic clock become whole wall-clock seconds and come back. */
module Persistence {
  import opened Basics
  import opened Decimal
  import opened Store
  import opened LiveMap

  /** Both clocks at one moment, in nanoseconds; the wall clock counts from the epoch. */
  datatype Clock = Clock(wall: nat, mono: Time)

  datatype SnapshotEntry = SnapshotEntry(key: Bytes, value: EntryValue, expiresAt: Option<Time>)

  datatype PersistedValue = PersistedStr(s: Bytes) | PersistedInt(n: i64)

  datatype Node = Node(key: Bytes, value: PersistedValue, expiresAt: Option<nat>)

  /** `now_secs`. */
  function NowSecs(c: Clock): nat { c.wall / SECOND }

  // ---------- Saving

  /** `to_snapshot_entries` lists the live entries, each key once, in any order. */
  ghost predicate Snapshots(entries: seq<SnapshotEntry>, d: Data, now: Time) {
    && (forall i :: 0 <= i < |entries| ==>
          var e := entries[i];
          Live(d, e.key, now) && d[e.key] == StoreEntry(e.value, e.expiresAt))
    && (forall k :: Live(d, k, now) ==> exists i :: 0 <= i < |entries| && entries[i].key == k)
  }

  function ToPersisted(v: EntryValue): PersistedValue {
    match v
    case Str(s) => PersistedStr(s)
    case Int(n) => PersistedInt(n)
  }

  /** Whole seconds left, counted on from the present second. */
  function PersistedSecond(t: Time, c: Clock): nat {
    NowSecs(c) + (if t > c.mono then t - c.mono else 0) / SECOND
  }

  function ToNode(e: SnapshotEntry, c: Clock): Node {
    Node(e.key, ToPersisted(e.value),
         match e.expiresAt case Some(t) => Some(PersistedSecond(t, c)) case None => None)
  }

  function Save(entries: seq<SnapshotEntry>, c: Clock): seq<Node> {
    seq(|entries|, i requires 0 <= i < |entries| => ToNode(entries[i], c))
  }

  // ---------- Loading

  function FromPersisted(v: PersistedValue): EntryValue {
    match v
    case PersistedStr(s) => Str(s)
    case PersistedInt(n) => Int(n)
  }

  /** The filter in `load`: `None` drops the node. */
  function FromNode(n: Node, c: Clock): Option<SnapshotEntry> {
    match n.expiresAt
    case None => Some(SnapshotEntry(n.key, FromPersisted(n.value), None))
    case Some(x) =>
      if x <= NowSecs(c) then None
      else Some(SnapshotEntry(n.key, FromPersisted(n.value), Some(c.mono + (x - NowSecs(c)) * SECOND)))
  }

  function Load(nodes: seq<Node>, c: Clock): seq<SnapshotEntry> {
    if nodes == [] then []
    else
      (match FromNode(nodes[0], c) case Some(e) => [e] case None => []) + Load(nodes[1..], c)
  }

  /** `from_snapshot`: one insertion after the other. */
  function FromSnapshot(entries: seq<SnapshotEntry>): Data {
    if entries == [] then map[]
    else
      var e := entries[|entries| - 1];
      FromSnapshot(entries[..|entries| - 1])[e.key := StoreEntry(e.value, e.expiresAt)]
  }

  method BuildStore(entries: seq<SnapshotEntry>) returns (data: Data)
    ensures data == FromSnapshot(entries)
  {
    data := map[];
    for i := 0 to |entries|
      invariant data == FromSnapshot(entries[..i])
    {
      var e := entries[i];
      assert entries[..i + 1][..i] == entries[..i];
      data := data[e.key := StoreEntry(e.value, e.expiresAt)];
    }
    assert entries[..|entries|] == entries;
  }

  // ---------- One entry through one restart

  datatype Restart = Restart(save: Clock, load: Clock)

  /** Time does not run backwards while the program is down. */
  predicate Forward(r: Restart) { r.save.wall <= r.load.wall }

  function Reload(e: StoreEntry, r: Restart): Option<StoreEntry> {
    if IsExpired(e, r.save.mono) then None
    else
      match e.expiresAt
      case None => Some(e)
      case Some(t) =>
        var x := PersistedSecond(t, r.save);
        if x <= NowSecs(r.load) then None
        else Some(e.(expiresAt := Some(r.load.mono + (x - NowSecs(r.load)) * SECOND)))
  }

  /** The whole store through one restart. */
  function ReloadAll(d: Data, r: Restart): Data {
    map k | k in d && Reload(d[k], r).Some? :: Reload(d[k], r).value
  }

  lemma {:induction false} FromSnapshotOf(entries: seq<SnapshotEntry>, k: Bytes)
    requires forall i, j :: 0 <= i < j < |entries| && entries[i].key == entries[j].key ==> entries[i] == entries[j]
    ensures k in FromSnapshot(entries) <==> exists i :: 0 <= i < |entries| && entries[i].key == k
    ensures forall i :: 0 <= i < |entries| && entries[i].key == k ==>
              k in FromSnapshot(entries) && FromSnapshot(entries)[k] == StoreEntry(entries[i].value, entries[i].expiresAt)
  {
    if entries != [] {
      var init := entries[..|entries| - 1];
      assert forall i :: 0 <= i < |init| ==> init[i] == entries[i];
      FromSnapshotOf(init, k);
    }
  }

  lemma NodeReloads(e: SnapshotEntry, r: Restart)
    requires !Expired(e.expiresAt, r.save.mono)
    ensures var n, f := FromNode(ToNode(e, r.save), r.load), Reload(StoreEntry(e.value, e.expiresAt), r);
            && (n.Some? <==> f.Some?)
            && (n.Some? ==> n.value.key == e.key && f.value == StoreEntry(n.value.value, n.value.expiresAt))
  {
  }

  lemma {:induction false} LoadHolds(nodes: seq<Node>, c: Clock)
    ensures forall e :: e in Load(nodes, c) <==> exists i :: 0 <= i < |nodes| && FromNode(nodes[i], c) == Some(e)
  {
    if nodes != [] {
      LoadHolds(nodes[1..], c);
      forall e
        ensures e in Load(nodes, c) <==> exists i :: 0 <= i < |nodes| && FromNode(nodes[i], c) == Some(e)
      {
        if e in Load(nodes[1..], c) {
          var i :| 0 <= i < |nodes[1..]| && FromNode(nodes[1..][i], c) == Some(e);
          assert FromNode(nodes[i + 1], c) == Some(e);
        }
        if i :| 0 <= i < |nodes| && FromNode(nodes[i], c) == Some(e) {
          if i > 0 {
            assert FromNode(nodes[1..][i - 1], c) == Some(e);
          }
        }
      }
    }
  }

  lemma LoadedEntry(entries: seq<SnapshotEntry>, r: Restart, e: SnapshotEntry)
    ensures e in Load(Save(entries, r.save), r.load) <==>
            exists i :: 0 <= i < |entries| && FromNode(ToNode(entries[i], r.save), r.load) == Some(e)
  {
    hide FromNode, ToNode, Load;
    var nodes := Save(entries, r.save);
    LoadHolds(nodes, r.load);
    if i :| 0 <= i < |nodes| && FromNode(nodes[i], r.load) == Some(e) {
      assert FromNode(ToNode(entries[i], r.save), r.load) == Some(e);
    }
    if i :| 0 <= i < |entries| && FromNode(ToNode(entries[i], r.save), r.load) == Some(e) {
      assert FromNode(nodes[i], r.load) == Some(e);
    }
  }

  /** Whatever is loaded is the reloaded form of a live entry. */
  lemma LoadedComesFromLive(entries: seq<SnapshotEntry>, d: Data, r: Restart, e: SnapshotEntry)
    requires Snapshots(entries, d, r.save.mono) && e in Load(Save(entries, r.save), r.load)
    ensures e.key in d && Reload(d[e.key], r) == Some(StoreEntry(e.value, e.expiresAt))
  {
    hide FromNode, ToNode, Load, Reload;
    LoadedEntry(entries, r, e);
    var i :| 0 <= i < |entries| && FromNode(ToNode(entries[i], r.save), r.load) == Some(e);
    NodeReloads(entries[i], r);
  }

  lemma LiveIsLoaded(entries: seq<SnapshotEntry>, d: Data, r: Restart, k: Bytes) returns (e: SnapshotEntry)
    requires Snapshots(entries, d, r.save.mono) && k in d && Reload(d[k], r).Some?
    ensures e in Load(Save(entries, r.save), r.load) && e.key == k
  {
    assert Live(d, k, r.save.mono);
    hide FromNode, ToNode, Load, Reload;
    var i :| 0 <= i < |entries| && entries[i].key == k;
    NodeReloads(entries[i], r);
    e := FromNode(ToNode(entries[i], r.save), r.load).value;
    LoadedEntry(entries, r, e);
  }

  /** Saving and loading is, key by key, `Reload`; the order of the snapshot does not matter. */
  lemma SaveThenLoad(entries: seq<SnapshotEntry>, d: Data, r: Restart)
    requires Snapshots(entries, d, r.save.mono)
    ensures FromSnapshot(Load(Save(entries, r.save), r.load)) == ReloadAll(d, r)
  {
    hide FromNode, ToNode, Load, Save, Reload, FromSnapshot, Snapshots;
    var loaded := Load(Save(entries, r.save), r.load);
    var result := FromSnapshot(loaded);
    forall i | 0 <= i < |loaded|
      ensures loaded[i].key in d
      ensures Reload(d[loaded[i].key], r) == Some(StoreEntry(loaded[i].value, loaded[i].expiresAt))
    {
      LoadedComesFromLive(entries, d, r, loaded[i]);
    }
    forall k
      ensures k in result <==> k in ReloadAll(d, r)
      ensures k in result ==> result[k] == ReloadAll(d, r)[k]
    {
      FromSnapshotOf(loaded, k);
      if k in d && Reload(d[k], r).Some? {
        var e := LiveIsLoaded(entries, d, r, k);
      }
    }
  }

  // ---------- What a restart keeps

  /** A deadline on the wall clock. */
  function OnWall(t: Time, c: Clock): int { t + (c.wall - c.mono) }

  /** An entry comes back with its value exactly when it was live at the save and the second written
      for it lies behind the second of the load. */
  lemma ReloadKeeps(e: StoreEntry, r: Restart)
    ensures Reload(e, r).Some? <==>
            !IsExpired(e, r.save.mono) && (e.expiresAt.Some? ==> PersistedSecond(e.expiresAt.value, r.save) > NowSecs(r.load))
    ensures Reload(e, r).Some? ==> Reload(e, r).value.value == e.value
    ensures Reload(e, r).Some? ==> (Reload(e, r).value.expiresAt.Some? <==> e.expiresAt.Some?)
  {
  }

  /** The written second is the deadline's own second or the one before it. */
  lemma SecondWritten(t: Time, c: Clock)
    requires t > c.mono
    ensures OnWall(t, c) / SECOND - 1 <= PersistedSecond(t, c) <= OnWall(t, c) / SECOND
  {
  }

  /** Which of the two it is depends on where in their seconds the save and the deadline lie. */
  lemma SecondIs(t: Time, c: Clock)
    requires t > c.mono
    ensures PersistedSecond(t, c) ==
            OnWall(t, c) / SECOND - if c.wall % SECOND > OnWall(t, c) % SECOND then 1 else 0
  {
  }

  /** An entry comes back exactly when it was live at the save and its deadline, one second less if
      the save lies later in its second than the deadline, is in a second behind that of the load. */
  lemma KeptIff(e: StoreEntry, r: Restart)
    ensures Reload(e, r).Some? <==>
            !IsExpired(e, r.save.mono) &&
            (e.expiresAt.Some? ==>
               var wall := OnWall(e.expiresAt.value, r.save);
               wall / SECOND > r.load.wall / SECOND + if r.save.wall % SECOND > wall % SECOND then 1 else 0)
    ensures Reload(e, r).Some? ==> Reload(e, r).value.value == e.value
  {
    hide PersistedSecond, OnWall;
    ReloadKeeps(e, r);
    if !IsExpired(e, r.save.mono) && e.expiresAt.Some? {
      SecondIs(e.expiresAt.value, r.save);
    }
  }

  /** A restored deadline falls within the second that was written for it. */
  lemma SecondRead(e: StoreEntry, r: Restart)
    requires e.expiresAt.Some? && Reload(e, r).Some?
    ensures OnWall(Reload(e, r).value.expiresAt.value, r.load) / SECOND == PersistedSecond(e.expiresAt.value, r.save)
  {
  }

  /** What is dead by the time of the load stays dead. */
  lemma DeadStaysDead(e: StoreEntry, r: Restart)
    requires e.expiresAt.Some? && OnWall(e.expiresAt.value, r.save) <= r.load.wall
    ensures Reload(e, r) == None
  {
    if !IsExpired(e, r.save.mono) {
      SecondWritten(e.expiresAt.value, r.save);
    }
  }

  /** A key that was live at the save is lost only within its last two seconds, less two
      nanoseconds. */
  lemma LostOnlyNearTheEnd(e: StoreEntry, r: Restart)
    requires !IsExpired(e, r.save.mono) && Reload(e, r) == None
    ensures e.expiresAt.Some? && OnWall(e.expiresAt.value, r.save) <= r.load.wall + 2 * SECOND - 2
  {
    SecondWritten(e.expiresAt.value, r.save);
  }

  /** The bound is reached: a key can be lost with two nanoseconds less than two seconds left. */
  lemma TwoSecondsIsTight(v: EntryValue)
    ensures var r := Restart(Clock(SECOND - 1, SECOND - 1), Clock(SECOND, SECOND));
            var e := StoreEntry(v, Some(3 * SECOND - 2));
            Forward(r) && !IsExpired(e, r.save.mono) && Reload(e, r) == None
            && OnWall(e.expiresAt.value, r.save) == r.load.wall + 2 * SECOND - 2
  {
  }

  // ---------- Many restarts

  /** Within one process both clocks advance together: their difference stays. */
  predicate SameProcess(c: Clock, c': Clock) { c.wall - c.mono == c'.wall - c'.mono }

  /** Every save is made by the process that loaded last. */
  predicate Linked(rs: seq<Restart>) {
    forall i :: 0 < i < |rs| ==> SameProcess(rs[i - 1].load, rs[i].save)
  }

  function Follow(e: StoreEntry, rs: seq<Restart>): Option<StoreEntry>
    decreases |rs|
  {
    if rs == [] then Some(e)
    else
      match Reload(e, rs[0])
      case None => None
      case Some(f) => Follow(f, rs[1..])
  }

  function FollowAll(d: Data, rs: seq<Restart>): Data
    decreases |rs|
  {
    if rs == [] then d else FollowAll(ReloadAll(d, rs[0]), rs[1..])
  }

  /** The whole store follows key by key. */
  lemma {:induction false} FollowAllIsPointwise(d: Data, rs: seq<Restart>, k: Bytes)
    ensures k in FollowAll(d, rs) <==> k in d && Follow(d[k], rs).Some?
    ensures k in FollowAll(d, rs) ==> FollowAll(d, rs)[k] == Follow(d[k], rs).value
    decreases |rs|
  {
    hide Reload;
    if rs != [] {
      FollowAllIsPointwise(ReloadAll(d, rs[0]), rs[1..], k);
    }
  }

  /** After `n` restarts without writes a surviving deadline is less than one second late and no
      more than `n` whole seconds early, counted from the second of the first deadline. */
  lemma {:induction false} DeadlineDrift(e: StoreEntry, rs: seq<Restart>)
    requires rs != [] && Linked(rs) && Follow(e, rs).Some?
    ensures Follow(e, rs).value.value == e.value
    ensures Follow(e, rs).value.expiresAt.Some? <==> e.expiresAt.Some?
    ensures e.expiresAt.Some? ==>
            var first := OnWall(e.expiresAt.value, rs[0].save) / SECOND;
            var last := OnWall(Follow(e, rs).value.expiresAt.value, rs[|rs| - 1].load);
            (first - |rs|) * SECOND <= last < (first + 1) * SECOND
    decreases |rs|
  {
    hide PersistedSecond, Reload;
    var r, rest := rs[0], rs[1..];
    ReloadKeeps(e, r);
    var f := Reload(e, r).value;
    if e.expiresAt.Some? {
      SecondWritten(e.expiresAt.value, r.save);
      SecondRead(e, r);
    }
    if rest != [] {
      assert forall i :: 0 < i < |rest| ==> rest[i] == rs[i + 1] && rest[i - 1] == rs[i];
      DeadlineDrift(f, rest);
      assert rest[|rest| - 1] == rs[|rs| - 1] && rest[0] == rs[1];
      if e.expiresAt.Some? {
        assert OnWall(f.expiresAt.value, rest[0].save) == OnWall(f.expiresAt.value, r.load);
      }
    }
  }

  lemma RestartNeverGrows(e: StoreEntry, r: Restart, save: Clock)
    requires e.expiresAt.Some? && Reload(e, r).Some? && SameProcess(r.load, save)
    requires !IsExpired(Reload(e, r).value, save.mono)
    ensures PersistedSecond(Reload(e, r).value.expiresAt.value, save) <= PersistedSecond(e.expiresAt.value, r.save)
  {
    hide PersistedSecond;
    SecondRead(e, r);
    SecondWritten(Reload(e, r).value.expiresAt.value, save);
  }

  /** The second written for a key never grows from a save to any save behind a later load. */
  lemma {:induction false} SecondNeverGrows(e: StoreEntry, rs: seq<Restart>, save: Clock)
    requires rs != [] && Linked(rs) && SameProcess(rs[|rs| - 1].load, save)
    requires e.expiresAt.Some? && Follow(e, rs).Some? && !IsExpired(Follow(e, rs).value, save.mono)
    ensures Follow(e, rs).value.expiresAt.Some?
    ensures PersistedSecond(Follow(e, rs).value.expiresAt.value, save) <= PersistedSecond(e.expiresAt.value, rs[0].save)
    decreases |rs|
  {
    hide PersistedSecond, Reload;
    var r, rest := rs[0], rs[1..];
    ReloadKeeps(e, r);
    if rest == [] {
      RestartNeverGrows(e, r, save);
    } else {
      var f := Reload(e, r).value;
      assert forall i :: 0 < i < |rest| ==> rest[i] == rs[i + 1] && rest[i - 1] == rs[i];
      assert rest[|rest| - 1] == rs[|rs| - 1] && rest[0] == rs[1];
      SecondNeverGrows(f, rest, save);
      ReloadKeeps(f, rest[0]);
      RestartNeverGrows(e, r, rest[0].save);
    }
  }

  /** Between two saves of one process the second written for a live key grows exactly when the first
      save lies later in its second than the deadline in its own, and the second save does not. */
  lemma SecondGrowsIff(t: Time, first: Clock, second: Clock)
    requires SameProcess(first, second) && first.mono <= second.mono < t
    ensures PersistedSecond(t, second) > PersistedSecond(t, first) <==>
            first.wall % SECOND > OnWall(t, first) % SECOND && second.wall % SECOND <= OnWall(t, first) % SECOND
    ensures PersistedSecond(t, second) <= PersistedSecond(t, first) + 1
  {
    hide PersistedSecond;
    SecondIs(t, first);
    SecondIs(t, second);
  }

  /** So it can grow: with the deadline at 10.5 seconds, a save at 1.9 writes 9 and one at 2.1
      writes 10. */
  lemma SecondCanGrow()
    ensures var first, second, t := Clock(1_900_000_000, 1_900_000_000), Clock(2_100_000_000, 2_100_000_000), 10_500_000_000;
            SameProcess(first, second) && PersistedSecond(t, first) == 9 && PersistedSecond(t, second) == 10
  {
  }

  /** Restarts that save in the middle of a second and load on the next whole one, the `i`-th after
      `2 * i` seconds. */
  function LosingRestarts(i: nat, n: nat): seq<Restart>
    decreases n
  {
    if n == 0 then []
    else
      var s, l := 2 * i * SECOND + 500_000_000, (2 * i + 1) * SECOND;
      [Restart(Clock(s, s), Clock(l, l))] + LosingRestarts(i + 1, n - 1)
  }

  lemma {:induction false} LosingClocksAgree(i: nat, n: nat)
    ensures forall r :: r in LosingRestarts(i, n) ==> r.save.wall == r.save.mono && r.load.wall == r.load.mono
    decreases n
  {
    if n > 0 {
      LosingClocksAgree(i + 1, n - 1);
    }
  }

  lemma LosingStep(v: EntryValue, m: nat, i: nat)
    requires m > 2 * i + 2
    ensures Reload(StoreEntry(v, Some(m * SECOND)), LosingRestarts(i, 1)[0]) == Some(StoreEntry(v, Some((m - 1) * SECOND)))
  {
    assert PersistedSecond(m * SECOND, LosingRestarts(i, 1)[0].save) == m - 1;
  }

  /** The bound is reached: every one of `n` restarts can take a whole second off. */
  lemma {:induction false} DriftIsTight(v: EntryValue, m: nat, i: nat, n: nat)
    requires m > 2 * i + 3 * n + 1
    ensures Linked(LosingRestarts(i, n)) && |LosingRestarts(i, n)| == n
    ensures Follow(StoreEntry(v, Some(m * SECOND)), LosingRestarts(i, n)) == Some(StoreEntry(v, Some((m - n) * SECOND)))
    decreases n
  {
    hide Reload;
    LosingClocksAgree(i, n);
    if n > 0 {
      var rs := LosingRestarts(i, n);
      assert rs[1..] == LosingRestarts(i + 1, n - 1) && rs[0] == LosingRestarts(i, 1)[0];
      LosingStep(v, m, i);
      DriftIsTight(v, m - 1, i + 1, n - 1);
    }
  }

  // ---------- Restarts and the live view

  /** One item of the live view through one restart. */
  function ReloadItem(item: Item, r: Restart): Option<Item> {
    match item.deadline
    case None => Some(item)
    case Some(t) =>
      var x := PersistedSecond(t, r.save);
      if x <= NowSecs(r.load) then None
      else Some(item.(deadline := Some(r.load.mono + (x - NowSecs(r.load)) * SECOND)))
  }

  function ReloadMap(m: Map, r: Restart): Map {
    map k | k in m && ReloadItem(m[k], r).Some? :: ReloadItem(m[k], r).value
  }

  /** What is live after a restart depends on what was live at the save, and on nothing else. */
  lemma ReloadRefines(d: Data, r: Restart)
    ensures View(ReloadAll(d, r), r.load.mono) == ReloadMap(View(d, r.save.mono), r)
  {
    hide PersistedSecond, TextOf, NowSecs;
  }

  /** Two stores that look alike when they are saved look alike when they are loaded. */
  lemma RestartKeepsLikeness(d: Data, d': Data, r: Restart)
    requires View(d, r.save.mono) == View(d', r.save.mono)
    ensures View(ReloadAll(d, r), r.load.mono) == View(ReloadAll(d', r), r.load.mono)
  {
    ReloadRefines(d, r);
    ReloadRefines(d', r);
  }

  /** The snapshot file: not there, or the content of a save and when it was made. */
  datatype Disk<+T> = Blank | Written(content: T, at: Clock)

  /** The store a process starts with. `SaveThenLoad` shows that no order of the nodes in the file
      makes a difference. */
  function Loaded(disk: Disk<Data>, c: Clock): Data {
    match disk
    case Blank => map[]
    case Written(d, at) => ReloadAll(d, Restart(at, c))
  }

  function LoadedMap(disk: Disk<Map>, c: Clock): Map {
    match disk
    case Blank => map[]
    case Written(m, at) => ReloadMap(m, Restart(at, c))
  }

  function DiskView(disk: Disk<Data>): Disk<Map> {
    match disk
    case Blank => Blank
    case Written(d, at) => Written(View(d, at.mono), at)
  }

  lemma LoadRefines(disk: Disk<Data>, c: Clock)
    ensures View(Loaded(disk, c), c.mono) == LoadedMap(DiskView(disk), c)
  {
    hide View, ReloadAll, ReloadMap;
    match disk
    case Blank => assert View(map[], c.mono) == map[] by { EmptyView(c.mono); }
    case Written(d, at) => ReloadRefines(d, Restart(at, c));
  }

  lemma EmptyView(now: Time)
    ensures View(map[], now) == map[]
  {
  }
}
