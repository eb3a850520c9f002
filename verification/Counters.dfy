/** Counters under any interleaving of clients: the final value is the first one plus everything
    that was answered with an integer. */
module Counters {
  import opened Basics
  import opened Decimal
  import opened Resp
  import opened Protocol
  import opened Store
  import opened LiveMap
  import opened StoreRuns

  /** A counter command on `k`. */
  predicate Counts(c: NormalCommand, k: Bytes) { (c.Incr? || c.Decr? || c.IncrBy? || c.DecrBy?) && c.key == k }

  /** What the command's name says it adds. */
  function Meant(c: NormalCommand): int {
    match c
    case Incr(_) => 1
    case Decr(_) => -1
    case IncrBy(_, n) => n
    case DecrBy(_, n) => 0 - n as int
    case _ => 0
  }

  predicate WritesOtherwise(c: NormalCommand, k: Bytes) {
    match c
    case Set(j, _, _) => j == k
    case Del(ks) => k in ks
    case Expire(j, _) => j == k
    case Persist(j) => j == k
    case Copy(_, j, _) => j == k
    case _ => false
  }

  /** A step that leaves the counter `k` to the counter commands. A restart goes back to the last
      snapshot, so it is none. */
  predicate Fair(s: Step, k: Bytes) {
    && Valid(s) && !s.Restart?
    && (s.Remove? ==> s.key != k)
    && (s.Do? ==> !WritesOtherwise(s.command, k))
    && (s.Do? && s.command.DecrBy? && s.command.key == k ==> s.command.delta != I64_MIN)
  }

  predicate AllFair(steps: seq<Step>, k: Bytes) {
    steps == [] || (Fair(steps[0], k) && AllFair(steps[1..], k))
  }

  lemma {:induction false} FairIsValid(steps: seq<Step>, k: Bytes)
    requires AllFair(steps, k)
    ensures AllValid(steps)
  {
    if steps != [] {
      FairIsValid(steps[1..], k);
    }
  }

  /** The number under `k`; a missing key counts as zero. */
  function NumberAt(d: Data, k: Bytes): Option<i64> {
    if k in d then NumberOf(d[k].value) else Some(0)
  }

  function DeadlineAt(d: Data, k: Bytes): Option<Time> {
    if k in d then d[k].expiresAt else None
  }

  /** What a step means to add to `k`, if it is answered with an integer. */
  function Contribution(w: World, s: Step, k: Bytes): int
    requires Valid(s)
  {
    if s.Do? && Counts(s.command, k) && Executed(w.data, w.now, s.command).1.Integer? then Meant(s.command) else 0
  }

  function Added(w: World, steps: seq<Step>, k: Bytes): int
    requires AllValid(steps)
    decreases |steps|
  {
    if steps == [] then 0 else Contribution(w, steps[0], k) + Added(Next(w, steps[0]), steps[1..], k)
  }

  /** What a counter command starts from: a missing key, and an expired number, count as zero. */
  function StartsFrom(d: Data, now: Time, k: Bytes): Option<i64> {
    if k in d && !(IsExpired(d[k], now) && d[k].value.Int?) then ParseI64(TextOf(d[k].value)) else Some(0)
  }

  /** What it adds: on the one argument without a 64-bit negation, DECRBY adds the argument itself. */
  function Adds(c: NormalCommand): i64
    requires c.Incr? || c.Decr? || c.IncrBy? || c.DecrBy?
  {
    if c.DecrBy? && c.delta == I64_MIN then I64_MIN else Meant(c)
  }

  lemma KeyCounts(d: Data, now: Time, k: Bytes, delta: i64)
    requires !(k in d && IsExpired(d[k], now) && d[k].value.Str?)
    ensures var (d', r) := IncrByKey(d, now, k, delta);
            match StartsFrom(d, now, k)
            case None => r == NotAnInteger && d' == d
            case Some(n) =>
              var sum: int := n + delta;
              if I64_MIN <= sum <= I64_MAX
              then r == Count(sum) && d' == d[k := StoreEntry(EntryValue.Int(sum), LiveDeadline(d, now, k))]
              else r == WouldOverflow && d' == d
  {
    hide ParseI64, PrintI64;
    if k in d {
      NumberOfText(d[k].value);
      assert d[k := d[k]] == d;
    }
  }

  function LiveDeadline(d: Data, now: Time, k: Bytes): Option<Time> {
    if k in d && !IsExpired(d[k], now) then d[k].expiresAt else None
  }

  /** A counter command that does not meet an expired string answers the sum exactly when it is within
      64 bits, and stores it with the deadline the key had; otherwise it answers which error it is, and
      changes nothing. */
  lemma CounterAnswers(d: Data, now: Time, c: NormalCommand, k: Bytes)
    requires Counts(c, k) && !(k in d && IsExpired(d[k], now) && d[k].value.Str?)
    ensures var (d', r) := Executed(d, now, c);
            match StartsFrom(d, now, k)
            case None => r == Error(Ascii("value is not an integer or out of range")) && d' == d
            case Some(n) =>
              var sum: int := n + Adds(c);
              if -0x8000_0000_0000_0000 <= sum <= 0x7fff_ffff_ffff_ffff
              then r == Integer(sum) && d' == d[k := StoreEntry(EntryValue.Int(sum), LiveDeadline(d, now, k))]
              else r == Error(Ascii("increment or decrement would overflow")) && d' == d
  {
    hide IncrByKey, StartsFrom, Ascii;
    KeyCounts(d, now, k, DeltaOf(c).value.1);
  }

  /** A counter that answers an error leaves an unexpired key as it was. */
  lemma ErrorsChangeNothing(d: Data, now: Time, c: NormalCommand)
    requires IsStoreCommand(c) && DeltaOf(c).Some? && !Expired(DeadlineAt(d, DeltaOf(c).value.0), now)
    requires !Executed(d, now, c).1.Integer?
    ensures Executed(d, now, c).0 == d
  {
    var k := DeltaOf(c).value.0;
    if k in d {
      assert d[k := d[k]] == d;
    }
  }

  lemma FairCounter(d: Data, now: Time, k: Bytes, delta: i64)
    requires !Expired(DeadlineAt(d, k), now) && NumberAt(d, k).Some?
    ensures var (d', r) := IncrByKey(d, now, k, delta);
            && NumberAt(d', k) == Some(NumberAt(d, k).value + if r.Count? then delta as int else 0)
            && DeadlineAt(d', k) == DeadlineAt(d, k)
  {
  }

  /** DECRBY subtracts its argument exactly when the argument has a 64-bit negation. */
  lemma DecrBySubtractsIff(d: Data, now: Time, k: Bytes, n: i64)
    requires !Expired(DeadlineAt(d, k), now) && NumberAt(d, k).Some?
    requires Executed(d, now, NormalCommand.DecrBy(k, n)).1.Integer?
    ensures NumberAt(Executed(d, now, NormalCommand.DecrBy(k, n)).0, k) == Some(NumberAt(d, k).value - n as int)
       <==> n != I64_MIN
  {
    hide IncrByKey, NumberAt, DeadlineAt;
    FairCounter(d, now, k, Negate(n));
  }

  /** What the step leaves under `k`. */
  predicate Moved(d: Data, d': Data, k: Bytes, delta: int) {
    && NumberAt(d, k).Some? && NumberAt(d', k).Some?
    && NumberAt(d', k).value as int == NumberAt(d, k).value + delta
    && DeadlineAt(d', k) == DeadlineAt(d, k)
  }

  lemma FairCount(d: Data, now: Time, c: NormalCommand, k: Bytes)
    requires IsStoreCommand(c) && Counts(c, k) && (c.DecrBy? ==> c.delta != I64_MIN)
    requires !Expired(DeadlineAt(d, k), now) && NumberAt(d, k).Some?
    ensures var (d', r) := Executed(d, now, c);
            Moved(d, d', k, if r.Integer? then Meant(c) else 0)
  {
    hide IncrByKey, NumberAt, DeadlineAt;
    FairCounter(d, now, k, DeltaOf(c).value.1);
  }

  lemma FairBystander(d: Data, now: Time, c: NormalCommand, k: Bytes)
    requires IsStoreCommand(c) && !Counts(c, k) && !WritesOtherwise(c, k) && !Expired(DeadlineAt(d, k), now)
    ensures var d' := Executed(d, now, c).0;
            (k in d <==> k in d') && (k in d ==> d[k] == d'[k])
  {
    hide DelAll;
    if c.Del? {
      DelAllIsOneRemoval(d, now, c.keys);
      assert k !in SetOf(c.keys);
    }
  }

  lemma FairHousekeeping(w: World, s: Step, k: Bytes)
    requires Fair(s, k) && !s.Do? && !Expired(DeadlineAt(w.data, k), w.now)
    ensures var d' := Next(w, s).data;
            (k in w.data <==> k in d') && (k in w.data ==> w.data[k] == d'[k])
  {
  }

  lemma Unmoved(d: Data, d': Data, k: Bytes)
    requires (k in d <==> k in d') && (k in d ==> d[k] == d'[k]) && NumberAt(d, k).Some?
    ensures Moved(d, d', k, 0)
  {
  }

  lemma FairStep(w: World, s: Step, k: Bytes)
    requires Fair(s, k) && !Expired(DeadlineAt(w.data, k), w.now) && NumberAt(w.data, k).Some?
    ensures Moved(w.data, Next(w, s).data, k, Contribution(w, s, k))
  {
    hide Executed, NumberAt, DeadlineAt, Moved;
    if !s.Do? {
      FairHousekeeping(w, s, k);
      Unmoved(w.data, Next(w, s).data, k);
    } else if Counts(s.command, k) {
      FairCount(w.data, w.now, s.command, k);
    } else {
      FairBystander(w.data, w.now, s.command, k);
      Unmoved(w.data, Next(w, s).data, k);
    }
  }

  /** Each process has its own monotonic clock. */
  predicate NoRestart(steps: seq<Step>) { forall s :: s in steps ==> !s.Restart? }

  lemma {:induction false} FairNeverRestarts(steps: seq<Step>, k: Bytes)
    requires AllFair(steps, k)
    ensures NoRestart(steps)
  {
    if steps != [] {
      FairNeverRestarts(steps[1..], k);
    }
  }

  lemma {:induction false} ClockOnlyAdvances(w: World, steps: seq<Step>)
    requires AllValid(steps) && NoRestart(steps)
    ensures Final(w, steps).now >= w.now
    decreases |steps|
  {
    if steps != [] {
      NextClock(w, steps[0]);
      ClockOnlyAdvances(Next(w, steps[0]), steps[1..]);
    }
  }

  /** Nothing is lost and nothing counted twice, in any interleaving. */
  lemma {:induction false} CountersAddUp(w: World, steps: seq<Step>, k: Bytes)
    requires AllFair(steps, k) && AllValid(steps) && NumberAt(w.data, k).Some?
    requires !Expired(DeadlineAt(w.data, k), Final(w, steps).now)
    ensures NumberAt(Final(w, steps).data, k) == Some(NumberAt(w.data, k).value + Added(w, steps, k))
    ensures DeadlineAt(Final(w, steps).data, k) == DeadlineAt(w.data, k)
    decreases |steps|
  {
    hide Next, NumberAt, DeadlineAt, Contribution, Fair;
    if steps != [] {
      var s, rest := steps[0], steps[1..];
      FairNeverRestarts(steps, k);
      ClockOnlyAdvances(w, steps);
      ClockOnlyAdvances(Next(w, s), rest);
      FairStep(w, s, k);
      CountersAddUp(Next(w, s), rest, k);
    }
  }
}
