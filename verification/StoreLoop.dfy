/** The store as the object of src/store/mod.rs and the commands on it: each method is proved against
    its function in `Store`, and says what it does to the live view. */
module StoreLoop {
  import opened Basics
  import opened Decimal
  import opened Resp
  import opened Protocol
  import opened Store
  import opened LiveMap

  function Counting(r: (Data, nat), count: nat): (Data, nat) { (r.0, count + r.1) }

  lemma DelAllEnds(d: Data, now: Time, keys: seq<Bytes>)
    ensures DelAll(d, now, keys) == Counting(DelAll(d, now, keys[0..]), 0)
    ensures DelAll(d, now, keys[|keys|..]) == (d, 0)
  {
    assert keys[0..] == keys;
  }

  lemma DelAllTurn(d: Data, now: Time, keys: seq<Bytes>, i: nat, count: nat)
    requires i < |keys|
    ensures var (d', existed) := DelKey(d, now, keys[i]);
            Counting(DelAll(d, now, keys[i..]), count) ==
            Counting(DelAll(d', now, keys[i + 1..]), count + if existed then 1 else 0)
  {
    hide DelKey;
    assert keys[i..][0] == keys[i] && keys[i..][1..] == keys[i + 1..];
  }

  class DataStore {
    var data: Data

    constructor ()
      ensures data == map[]
    {
      data := map[];
    }

    method Get(now: Time, key: Bytes) returns (r: Option<Bytes>)
      modifies this
      ensures (data, r) == GetKey(old(data), now, key)
      ensures View(data, now) == old(View(data, now))
      ensures r == if key in View(data, now) then Some(View(data, now)[key].text) else None
    {
      LiveIsInView(data, now, key);
      DroppingDead(data, now, key);
      if key !in data {
        return None;
      }
      if IsExpired(data[key], now) {
        data := data - {key};
        return None;
      }
      return Some(TextOf(data[key].value));
    }

    method Set(now: Time, key: Bytes, value: Bytes, ttl: Option<nat>)
      modifies this
      ensures data == SetKey(old(data), now, key, value, ttl)
      ensures ttl.None? ==> View(data, now) == Prune(old(View(data, now))[key := Item(value, None)], now)
      ensures ttl.Some? ==>
              View(data, now) == Prune(old(View(data, now))[key := Item(value, Some(now + ttl.value * SECOND))], now)
    {
      ViewOfUpdate(data, now, key, StoreEntry(Str(value), Deadline(ttl, now)));
      data := data[key := StoreEntry(Str(value), Deadline(ttl, now))];
    }

    method Del(now: Time, key: Bytes) returns (existed: bool)
      modifies this
      ensures (data, existed) == DelKey(old(data), now, key)
      ensures View(data, now) == old(View(data, now)) - {key} && existed == (key in old(View(data, now)))
    {
      LiveIsInView(data, now, key);
      ViewOfRemoval(data, now, {key});
      existed := key in data && !IsExpired(data[key], now);
      data := data - {key};
    }

    method DelAllKeys(now: Time, keys: seq<Bytes>) returns (count: nat)
      modifies this
      ensures (data, count) == DelAll(old(data), now, keys)
      ensures View(data, now) == old(View(data, now)) - SetOf(keys)
      ensures count == |SetOf(keys) * old(View(data, now)).Keys|
    {
      hide View, DelKey, DelAll, SetOf;
      count := 0;
      ghost var start := data;
      DelAllEnds(start, now, keys);
      for i := 0 to |keys|
        invariant DelAll(start, now, keys) == Counting(DelAll(data, now, keys[i..]), count)
      {
        DelAllTurn(data, now, keys, i, count);
        var existed := Del(now, keys[i]);
        count := count + if existed then 1 else 0;
      }
      DelAllEnds(data, now, keys);
      DelAllIsOneRemoval(start, now, keys);
      ViewOfRemoval(start, now, SetOf(keys));
    }

    method IncrBy(now: Time, key: Bytes, delta: i64) returns (r: Counted)
      modifies this
      ensures (data, r) == IncrByKey(old(data), now, key, delta)
      ensures !(key in old(data) && IsExpired(old(data)[key], now) && old(data)[key].value.Str?) ==>
              var (m, reply) := AddTo(old(View(data, now)), key, delta);
              CountedReply(r) == reply && View(data, now) == Prune(m, now)
    {
      hide View, AddTo, Add, NumberOf;
      if !(key in data && IsExpired(data[key], now) && data[key].value.Str?) {
        CounterRefines(data, now, key, delta);
      }
      if key !in data {
        data := data[key := StoreEntry(Int(0), None)];
      }
      if IsExpired(data[key], now) {
        data := data[key := Flush(data[key])];
      }
      r := Add(NumberOf(data[key].value), delta);
      if r.Count? {
        data := data[key := data[key].(value := Int(r.n))];
      }
      assert data == old(data)[key := data[key]];
    }

    method Expire(now: Time, key: Bytes, secs: nat) returns (done: bool)
      modifies this
      ensures (data, done) == ExpireKey(old(data), now, key, secs)
      ensures done == (key in old(View(data, now)))
      ensures View(data, now) ==
              if done then Prune(old(View(data, now))[key := Item(old(View(data, now))[key].text, Some(now + secs * SECOND))], now)
              else old(View(data, now))
    {
      hide View, Prune;
      LiveIsInView(data, now, key);
      if key in View(data, now) {
        ViewOfUpdate(data, now, key, data[key].(expiresAt := Some(now + secs * SECOND)));
      }
      if key !in data || IsExpired(data[key], now) {
        return false;
      }
      data := data[key := data[key].(expiresAt := Some(now + secs * SECOND))];
      return true;
    }

    method Persist(now: Time, key: Bytes) returns (done: bool)
      modifies this
      ensures (data, done) == PersistKey(old(data), now, key)
      ensures done == (key in old(View(data, now)))
      ensures View(data, now) ==
              if done then Prune(old(View(data, now))[key := Item(old(View(data, now))[key].text, None)], now)
              else old(View(data, now))
    {
      hide View, Prune;
      LiveIsInView(data, now, key);
      if key in View(data, now) {
        ViewOfUpdate(data, now, key, data[key].(expiresAt := None));
      }
      if key !in data || IsExpired(data[key], now) {
        return false;
      }
      data := data[key := data[key].(expiresAt := None)];
      return true;
    }

    method Copy(now: Time, source: Bytes, dest: Bytes, replace: bool) returns (done: bool)
      modifies this
      ensures (data, done) == CopyKey(old(data), now, source, dest, replace)
      ensures done == (source in old(View(data, now)) && (replace || dest !in old(View(data, now))))
      ensures View(data, now) ==
              if done then Prune(old(View(data, now))[dest := old(View(data, now))[source]], now)
              else old(View(data, now))
    {
      hide View, Prune;
      LiveIsInView(data, now, source);
      LiveIsInView(data, now, dest);
      if source in View(data, now) {
        ViewOfUpdate(data, now, dest, data[source]);
      }
      if source !in data || IsExpired(data[source], now) {
        return false;
      }
      var entry := data[source];
      if !replace && dest in data && !IsExpired(data[dest], now) {
        return false;
      }
      data := data[dest := entry];
      return true;
    }

    /** The scan and then the deletes, in some order. */
    method PurgeExpired(now: Time)
      modifies this
      ensures data == Purged(old(data), now) && View(data, now) == old(View(data, now))
    {
      hide View;
      TimeAndPurge(data, now, now);
      var expired := set k | k in data && IsExpired(data[k], now);
      var left := expired;
      while left != {}
        invariant left <= expired
        invariant data == old(data) - (expired - left)
      {
        var k :| k in left;
        var existed := Del(now, k);
        left := left - {k};
      }
    }

    method Execute(now: Time, c: NormalCommand) returns (reply: RespValue)
      requires IsStoreCommand(c)
      modifies this
      ensures (data, reply) == Executed(old(data), now, c)
      ensures !HitsExpiredString(old(data), now, c) ==>
              var (m, answer) := Apply(old(View(data, now)), now, c);
              reply == answer && View(data, now) == Prune(m, now)
    {
      hide View, Prune, Apply, HitsExpiredString, IncrByKey, DelAll, CastI64, AddTo;
      if !HitsExpiredString(data, now, c) {
        CommandRefines(data, now, c);
      }
      if DeltaOf(c).Some? {
        var (k, delta) := DeltaOf(c).value;
        var r := IncrBy(now, k, delta);
        return CountedReply(r);
      }
      match c
      case Get(k) => var t := Get(now, k); reply := TextReply(t);
      case Set(k, v, ttl) => Set(now, k, v, ttl); reply := OK_REPLY;
      case Del(ks) => var n := DelAllKeys(now, ks); reply := Integer(CastI64(n));
      case Exists(k) => reply := BoolReply(Live(data, k, now));
      case Expire(k, secs) => var b := Expire(now, k, secs); reply := BoolReply(b);
      case Ttl(k) => reply := Integer(TtlKey(data, now, k));
      case Persist(k) => var b := Persist(now, k); reply := BoolReply(b);
      case Copy(s, t, replace) => var b := Copy(now, s, t, replace); reply := BoolReply(b);
    }
  }
}
