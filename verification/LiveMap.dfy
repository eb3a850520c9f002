/** What a client may believe about the store: a map of live keys with their texts and deadlines.
    The store, which keeps dead entries until something removes them, refines it. */
module LiveMap {
  import opened Basics
  import opened Decimal
  import opened Resp
  import opened Protocol
  import opened Store

  datatype Item = Item(text: Bytes, deadline: Option<Time>)

  type Map = map<Bytes, Item>

  /** Drops what is due. */
  function Prune(m: Map, now: Time): Map {
    map k | k in m && !Expired(m[k].deadline, now) :: m[k]
  }

  /** A counter command: a missing key counts as zero, and a key keeps its deadline. */
  function AddTo(m: Map, k: Bytes, delta: i64): (Map, RespValue) {
    match if k in m then ParseI64(m[k].text) else Some(0)
    case None => (m, Error(Ascii("value is not an integer or out of range")))
    case Some(n) =>
      var sum: int := n + delta;
      if sum < I64_MIN || sum > I64_MAX then (m, Error(Ascii("increment or decrement would overflow")))
      else (m[k := Item(PrintI64(sum), if k in m then m[k].deadline else None)], Integer(sum))
  }

  function SecondsLeft(deadline: Option<Time>, now: Time): i64 {
    match deadline
    case None => -1
    case Some(t) => if t <= now then 0 else CastI64((t - now) / SECOND)
  }

  /** The commands on a map without dead entries. Each says its own answer: the store shares nothing
      with it but the decimal form of numbers and the 64-bit wrap-around of a count. */
  function Apply(m: Map, now: Time, c: NormalCommand): (Map, RespValue)
    requires IsStoreCommand(c)
  {
    match c
    case Get(k) => (m, if k in m then Bulk(m[k].text) else Nil)
    case Set(k, v, None) => (m[k := Item(v, None)], Simple(Ascii("OK")))
    case Set(k, v, Some(n)) => (m[k := Item(v, Some(now + n * SECOND))], Simple(Ascii("OK")))
    case Del(ks) => (m - SetOf(ks), Integer(CastI64(|SetOf(ks) * m.Keys|)))
    case Exists(k) => (m, Integer(if k in m then 1 else 0))
    case Incr(k) => AddTo(m, k, 1)
    case Decr(k) => AddTo(m, k, -1)
    case IncrBy(k, n) => AddTo(m, k, n)
    case DecrBy(k, n) => AddTo(m, k, if n == I64_MIN then I64_MIN else -(n as int))
    case Expire(k, n) =>
      if k in m then (m[k := Item(m[k].text, Some(now + n * SECOND))], Integer(1)) else (m, Integer(0))
    case Ttl(k) => (m, Integer(if k in m then SecondsLeft(m[k].deadline, now) else -2))
    case Persist(k) =>
      if k in m then (m[k := Item(m[k].text, None)], Integer(1)) else (m, Integer(0))
    case Copy(s, t, replace) =>
      if s in m && (replace || t !in m) then (m[t := m[s]], Integer(1)) else (m, Integer(0))
  }

  // ---------- Refinement, one command at a time

  function ItemOf(e: StoreEntry): Item { Item(TextOf(e.value), e.expiresAt) }

  /** The live view of the store. */
  function View(d: Data, now: Time): Map {
    map k | k in d && !IsExpired(d[k], now) :: ItemOf(d[k])
  }

  /** The one place where a dead entry shows: a counter command on an expired string. */
  predicate HitsExpiredString(d: Data, now: Time, c: NormalCommand) {
    DeltaOf(c).Some? && var k := DeltaOf(c).value.0; k in d && IsExpired(d[k], now) && d[k].value.Str?
  }

  predicate Refines(d: Data, now: Time, c: NormalCommand)
    requires IsStoreCommand(c)
  {
    var (d', r) := Executed(d, now, c);
    var (m', s) := Apply(View(d, now), now, c);
    r == s && View(d', now) == Prune(m', now)
  }

  lemma NumberOfText(v: EntryValue)
    ensures NumberOf(v) == ParseI64(TextOf(v))
  {
    if v.Int? {
      ParsePrintI64(v.n);
    }
  }

  lemma ViewIsPruned(d: Data, now: Time)
    ensures Prune(View(d, now), now) == View(d, now)
  {
  }

  /** Writing one entry shows as writing one item. */
  lemma ViewOfUpdate(d: Data, now: Time, k: Bytes, e: StoreEntry)
    ensures View(d[k := e], now) == Prune(View(d, now)[k := ItemOf(e)], now)
  {
  }

  lemma ViewOfRemoval(d: Data, now: Time, gone: set<Bytes>)
    ensures View(d - gone, now) == View(d, now) - gone
    ensures View(d - gone, now).Keys == View(d, now).Keys - gone
  {
  }

  lemma OneMoreGone(d: Data, live: set<Bytes>, k: Bytes, gone: set<Bytes>)
    ensures (d - {k}) - gone == d - (gone + {k})
    ensures |(gone + {k}) * live| == |gone * (live - {k})| + if k in live then 1 else 0
  {
    var hit := (gone + {k}) * live;
    assert gone * (live - {k}) == hit - {k};
  }

  lemma SetOfCons(ks: seq<Bytes>)
    requires ks != []
    ensures SetOf(ks) == SetOf(ks[1..]) + {ks[0]}
  {
  }

  function Hits(d: Data, now: Time, ks: seq<Bytes>): nat { |SetOf(ks) * View(d, now).Keys| }

  lemma HitsStep(d: Data, now: Time, ks: seq<Bytes>)
    requires ks != []
    ensures Hits(d, now, ks) == Hits(d - {ks[0]}, now, ks[1..]) + if Live(d, ks[0], now) then 1 else 0
    ensures (d - {ks[0]}) - SetOf(ks[1..]) == d - SetOf(ks)
  {
    hide View, Live, SetOf;
    ViewOfRemoval(d, now, {ks[0]});
    LiveIsInView(d, now, ks[0]);
    SetOfCons(ks);
    OneMoreGone(d, View(d, now).Keys, ks[0], SetOf(ks[1..]));
  }

  lemma NothingGone(d: Data, now: Time)
    ensures d - SetOf([]) == d && Hits(d, now, []) == 0
  {
    assert SetOf([]) * View(d, now).Keys == {};
  }

  /** Deleting a list one by one removes its keys and counts the live ones, repeats once. */
  lemma {:induction false} DelAllIsOneRemoval(d: Data, now: Time, ks: seq<Bytes>)
    ensures DelAll(d, now, ks) == (d - SetOf(ks), Hits(d, now, ks))
  {
    hide Hits, Live, SetOf;
    if ks == [] {
      NothingGone(d, now);
    } else {
      DelAllIsOneRemoval(d - {ks[0]}, now, ks[1..]);
      HitsStep(d, now, ks);
    }
  }

  lemma LiveIsInView(d: Data, now: Time, k: Bytes)
    ensures Live(d, k, now) <==> k in View(d, now)
    ensures k in View(d, now) ==> k in d && View(d, now)[k] == ItemOf(d[k])
  {
  }

  lemma CounterRefines(d: Data, now: Time, k: Bytes, delta: i64)
    requires !(k in d && IsExpired(d[k], now) && d[k].value.Str?)
    ensures var (d', r) := IncrByKey(d, now, k, delta);
            var (m', s) := AddTo(View(d, now), k, delta);
            CountedReply(r) == s && View(d', now) == Prune(m', now)
  {
    hide ParseI64, PrintI64, View, Prune;
    LiveIsInView(d, now, k);
    if k in d {
      NumberOfText(d[k].value);
    }
    ViewOfUpdate(d, now, k, IncrByKey(d, now, k, delta).0[k]);
    ViewIsPruned(d, now);
    if k in d {
      assert d[k := d[k]] == d;
    }
  }

  lemma CounterCommandRefines(d: Data, now: Time, c: NormalCommand)
    requires DeltaOf(c).Some? && !HitsExpiredString(d, now, c)
    ensures Refines(d, now, c)
  {
    hide ParseI64, PrintI64, IncrByKey, AddTo, View, Prune, IsExpired;
    CounterRefines(d, now, DeltaOf(c).value.0, DeltaOf(c).value.1);
  }

  lemma DelRefines(d: Data, now: Time, ks: seq<Bytes>)
    ensures Refines(d, now, NormalCommand.Del(ks))
  {
    hide DelAll, CastI64, View, Prune, SetOf;
    DelAllIsOneRemoval(d, now, ks);
    RemovalIsPruned(d, now, SetOf(ks));
  }

  lemma TtlRefines(d: Data, now: Time, k: Bytes)
    ensures Refines(d, now, NormalCommand.Ttl(k))
  {
    hide CastI64, View, Prune, TextOf;
    ViewIsPruned(d, now);
    LiveIsInView(d, now, k);
  }

  lemma CommandRefines(d: Data, now: Time, c: NormalCommand)
    requires IsStoreCommand(c) && !HitsExpiredString(d, now, c)
    ensures Refines(d, now, c)
  {
    hide PrintI64, ParseI64, IncrByKey, AddTo, DelAll, CastI64, View, Prune, Live, IsExpired, TtlKey, SecondsLeft;
    ViewIsPruned(d, now);
    if DeltaOf(c).Some? {
      CounterCommandRefines(d, now, c);
    } else {
      match c
      case Del(ks) => DelRefines(d, now, ks);
      case Get(k) =>
        LiveIsInView(d, now, k);
        DroppingDead(d, now, k);
      case Set(k, v, ttl) =>
        ViewOfUpdate(d, now, k, StoreEntry(Str(v), Deadline(ttl, now)));
      case Exists(k) =>
        LiveIsInView(d, now, k);
      case Ttl(k) => TtlRefines(d, now, k);
      case Expire(k, secs) =>
        LiveIsInView(d, now, k);
        if k in View(d, now) {
          ViewOfUpdate(d, now, k, d[k].(expiresAt := Some(now + secs * SECOND)));
        }
      case Persist(k) =>
        LiveIsInView(d, now, k);
        if k in View(d, now) {
          ViewOfUpdate(d, now, k, d[k].(expiresAt := None));
        }
      case Copy(s, t, replace) =>
        LiveIsInView(d, now, s);
        LiveIsInView(d, now, t);
        if s in View(d, now) {
          ViewOfUpdate(d, now, t, d[s]);
        }
      case _ =>
    }
  }

  lemma RemovalIsPruned(d: Data, now: Time, gone: set<Bytes>)
    ensures View(d - gone, now) == Prune(View(d, now) - gone, now)
  {
  }

  /** Removing a dead entry is invisible. */
  lemma DroppingDead(d: Data, now: Time, k: Bytes)
    ensures Live(d, k, now) <==> k in d && !IsExpired(d[k], now)
    ensures !Live(d, k, now) ==> View(d - {k}, now) == View(d, now)
  {
  }

  /** On an expired string a counter command answers an error and leaves an empty string that lives
      for ever, where the map would have started from zero. */
  lemma ExpiredStringShows(d: Data, now: Time, c: NormalCommand)
    requires IsStoreCommand(c) && HitsExpiredString(d, now, c)
    ensures var k := DeltaOf(c).value.0;
            Executed(d, now, c) == (d[k := StoreEntry(Str([]), None)], NOT_AN_INTEGER)
    ensures Apply(View(d, now), now, c).1 == Integer(DeltaOf(c).value.1)
  {
    assert ParseI64([]) == None;
  }

  /** The store behaves as the map of live keys exactly when no counter hits an expired string. */
  lemma RefinesIff(d: Data, now: Time, c: NormalCommand)
    requires IsStoreCommand(c)
    ensures Refines(d, now, c) <==> !HitsExpiredString(d, now, c)
  {
    hide Executed, Apply;
    if HitsExpiredString(d, now, c) {
      ExpiredStringShows(d, now, c);
    } else {
      CommandRefines(d, now, c);
    }
  }

  /** Time passing, and a purge at any moment, are one pruning and nothing at all. */
  lemma TimeAndPurge(d: Data, now: Time, later: Time)
    requires now <= later
    ensures View(d, later) == Prune(View(d, now), later)
    ensures View(Purged(d, now), now) == View(d, now)
  {
  }
}
