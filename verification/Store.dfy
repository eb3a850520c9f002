/** The expiring store (src/store/mod.rs, src/store/entry.rs) and the commands over it
    (src/commands/strings.rs, src/commands/ttl.rs). Every operation takes the time at which it runs. */
module Store {
  import opened Basics
  import opened Decimal
  import opened Resp
  import opened Protocol

  /** Nanoseconds on the monotonic clock. */
  type Time = int

  const SECOND := 1_000_000_000

  datatype EntryValue = Str(s: Bytes) | Int(n: i64)

  datatype StoreEntry = StoreEntry(value: EntryValue, expiresAt: Option<Time>)

  type Data = map<Bytes, StoreEntry>

  predicate Expired(deadline: Option<Time>, now: Time) { deadline.Some? && deadline.value <= now }

  predicate IsExpired(e: StoreEntry, now: Time) { Expired(e.expiresAt, now) }

  predicate Live(d: Data, k: Bytes, now: Time) { k in d && !IsExpired(d[k], now) }

  function Flush(e: StoreEntry): StoreEntry {
    StoreEntry(if e.value.Str? then Str([]) else Int(0), None)
  }

  function TextOf(v: EntryValue): Bytes {
    match v
    case Str(s) => s
    case Int(n) => PrintI64(n)
  }

  function NumberOf(v: EntryValue): Option<i64> {
    match v
    case Str(s) => ParseI64(s)
    case Int(n) => Some(n)
  }

  function Deadline(ttl: Option<nat>, now: Time): Option<Time> {
    match ttl
    case Some(secs) => Some(now + secs * SECOND)
    case None => None
  }

  // ---------- The store's methods, as functions of the data

  function GetKey(d: Data, now: Time, k: Bytes): (Data, Option<Bytes>) {
    if k !in d then (d, None)
    else if IsExpired(d[k], now) then (d - {k}, None)
    else (d, Some(TextOf(d[k].value)))
  }

  function SetKey(d: Data, now: Time, k: Bytes, v: Bytes, ttl: Option<nat>): Data {
    d[k := StoreEntry(Str(v), Deadline(ttl, now))]
  }

  function DelKey(d: Data, now: Time, k: Bytes): (Data, bool) {
    (d - {k}, Live(d, k, now))
  }

  datatype Counted = Count(n: i64) | NotAnInteger | WouldOverflow

  function Add(current: Option<i64>, delta: i64): Counted {
    match current
    case None => NotAnInteger
    case Some(n) =>
      var sum := n as int + delta as int;
      if I64_MIN <= sum <= I64_MAX then Count(sum) else WouldOverflow
  }

  function IncrByKey(d: Data, now: Time, k: Bytes, delta: i64): (Data, Counted) {
    var found := if k in d then d[k] else StoreEntry(Int(0), None);
    var e := if IsExpired(found, now) then Flush(found) else found;
    var r := Add(NumberOf(e.value), delta);
    (d[k := if r.Count? then e.(value := Int(r.n)) else e], r)
  }

  function ExpireKey(d: Data, now: Time, k: Bytes, secs: nat): (Data, bool) {
    if Live(d, k, now) then (d[k := d[k].(expiresAt := Some(now + secs * SECOND))], true) else (d, false)
  }

  /** `u64 as i64`. */
  function CastI64(n: nat): i64 {
    var m := n % (U64_MAX + 1);
    if m > I64_MAX then m - (U64_MAX + 1) else m
  }

  /** It is the number itself, or differs from it by a multiple of two to the 64. */
  lemma CastI64Is(n: nat)
    ensures n <= 0x7fff_ffff_ffff_ffff ==> CastI64(n) == n
    ensures (n - CastI64(n) as int) % 0x1_0000_0000_0000_0000 == 0
  {
  }

  function TtlOf(deadline: Option<Time>, now: Time): i64 {
    match deadline
    case None => -1
    case Some(t) => CastI64((if t > now then t - now else 0) / SECOND)
  }

  function TtlKey(d: Data, now: Time, k: Bytes): i64 {
    if Live(d, k, now) then TtlOf(d[k].expiresAt, now) else -2
  }

  function PersistKey(d: Data, now: Time, k: Bytes): (Data, bool) {
    if Live(d, k, now) then (d[k := d[k].(expiresAt := None)], true) else (d, false)
  }

  function CopyKey(d: Data, now: Time, source: Bytes, dest: Bytes, replace: bool): (Data, bool) {
    if Live(d, source, now) && (replace || !Live(d, dest, now)) then (d[dest := d[source]], true) else (d, false)
  }

  function Purged(d: Data, now: Time): Data {
    map k | k in d && !IsExpired(d[k], now) :: d[k]
  }

  // ---------- The commands

  predicate IsStoreCommand(c: NormalCommand) { !c.Ping? && !c.Echo? && !c.Publish? }

  const OK_REPLY := Simple(Ascii("OK"))
  const NOT_AN_INTEGER := Error(Ascii("value is not an integer or out of range"))
  const WOULD_OVERFLOW := Error(Ascii("increment or decrement would overflow"))

  function BoolReply(b: bool): RespValue { Integer(if b then 1 else 0) }

  function TextReply(t: Option<Bytes>): RespValue {
    match t
    case Some(s) => Bulk(s)
    case None => Nil
  }

  function CountedReply(r: Counted): RespValue {
    match r
    case Count(n) => Integer(n)
    case NotAnInteger => NOT_AN_INTEGER
    case WouldOverflow => WOULD_OVERFLOW
  }

  /** `-value`, which wraps on the one value that has no negation. */
  function Negate(n: i64): i64 { if n == I64_MIN then n else 0 - n as int }

  /** The counter commands and what each adds. */
  function DeltaOf(c: NormalCommand): Option<(Bytes, i64)> {
    match c
    case Incr(k) => Some((k, 1))
    case Decr(k) => Some((k, -1))
    case IncrBy(k, n) => Some((k, n))
    case DecrBy(k, n) => Some((k, Negate(n)))
    case _ => None
  }

  /** `del` of src/commands/strings.rs: one removal after the other, counting. */
  function DelAll(d: Data, now: Time, ks: seq<Bytes>): (Data, nat) {
    if ks == [] then (d, 0)
    else
      var (d', existed) := DelKey(d, now, ks[0]);
      var (d'', n) := DelAll(d', now, ks[1..]);
      (d'', n + if existed then 1 else 0)
  }

  function Executed(d: Data, now: Time, c: NormalCommand): (Data, RespValue)
    requires IsStoreCommand(c)
  {
    if DeltaOf(c).Some? then
      var (k, delta) := DeltaOf(c).value;
      var (d', r) := IncrByKey(d, now, k, delta);
      (d', CountedReply(r))
    else
    match c
    case Get(k) => var (d', t) := GetKey(d, now, k); (d', TextReply(t))
    case Set(k, v, ttl) => (SetKey(d, now, k, v, ttl), OK_REPLY)
    case Del(ks) => var (d', n) := DelAll(d, now, ks); (d', Integer(CastI64(n)))
    case Exists(k) => (d, BoolReply(Live(d, k, now)))
    case Expire(k, secs) => var (d', b) := ExpireKey(d, now, k, secs); (d', BoolReply(b))
    case Ttl(k) => (d, Integer(TtlKey(d, now, k)))
    case Persist(k) => var (d', b) := PersistKey(d, now, k); (d', BoolReply(b))
    case Copy(s, t, replace) => var (d', b) := CopyKey(d, now, s, t, replace); (d', BoolReply(b))
  }
}
