/** What one key answers from a write to the next, whatever happens to the others: the replies of GET,
    EXISTS and TTL over whole runs of commands, time and housekeeping. */
module KeyRuns {
  import opened Basics
  import opened Resp
  import opened Protocol
  import opened Store
  import opened LiveMap
  import opened StoreRuns

  /** The commands that may write `k`. */
  predicate Writes(c: NormalCommand, k: Bytes) {
    match c
    case Set(j, _, _) => j == k
    case Del(ks) => k in ks
    case Incr(j) => j == k
    case Decr(j) => j == k
    case IncrBy(j, _) => j == k
    case DecrBy(j, _) => j == k
    case Expire(j, _) => j == k
    case Persist(j) => j == k
    case Copy(_, j, _) => j == k
    case _ => false
  }

  /** No step writes `k`, none starts another process, and no removal hits a live key. */
  predicate LeftAlone(w: World, steps: seq<Step>, k: Bytes)
    requires AllValid(steps)
  {
    && NoneLate(w, steps)
    && forall s :: s in steps ==> !s.Restart? && (s.Do? ==> !Writes(s.command, k))
  }

  /** The entry under `k`, or `None` for one that is gone or may go at any time. */
  predicate Holds(d: Data, k: Bytes, e: Option<StoreEntry>, now: Time) {
    if e.Some? && !IsExpired(e.value, now) then k in d && d[k] == e.value
    else k in d ==> IsExpired(d[k], now)
  }

  lemma CommandLeaves(d: Data, now: Time, c: NormalCommand, k: Bytes, e: Option<StoreEntry>)
    requires IsStoreCommand(c) && !Writes(c, k) && Holds(d, k, e, now)
    ensures Holds(Executed(d, now, c).0, k, e, now)
  {
    hide DelAll, NumberOf, Add, CastI64, TextOf;
    if c.Del? {
      DelAllIsOneRemoval(d, now, c.keys);
    }
  }

  lemma StepLeaves(w: World, s: Step, k: Bytes, e: Option<StoreEntry>)
    requires Valid(s) && !Late(w, s) && !s.Restart? && (s.Do? ==> !Writes(s.command, k))
    requires Holds(w.data, k, e, w.now)
    ensures Holds(Next(w, s).data, k, e, Next(w, s).now)
  {
    hide Executed;
    if s.Do? {
      CommandLeaves(w.data, w.now, s.command, k, e);
    }
  }

  lemma {:induction false} RunLeaves(w: World, steps: seq<Step>, k: Bytes, e: Option<StoreEntry>)
    requires AllValid(steps) && LeftAlone(w, steps, k) && Holds(w.data, k, e, w.now)
    ensures Holds(Final(w, steps).data, k, e, Final(w, steps).now)
    decreases |steps|
  {
    hide Next, Late, Holds, Writes;
    if steps != [] {
      assert steps[0] in steps && forall s :: s in steps[1..] ==> s in steps;
      StepLeaves(w, steps[0], k, e);
      RunLeaves(Next(w, steps[0]), steps[1..], k, e);
    }
  }

  function Reply(w: World, c: NormalCommand): RespValue
    requires IsStoreCommand(c)
  {
    Executed(w.data, w.now, c).1
  }

  /** What a client sees of `k` when it holds a text until `deadline`. */
  predicate Shows(w: World, k: Bytes, text: Bytes, deadline: Option<Time>) {
    if deadline.Some? && deadline.value <= w.now then ShowsNothing(w, k)
    else
      && Reply(w, NormalCommand.Get(k)) == Bulk(text)
      && Reply(w, NormalCommand.Exists(k)) == Integer(1)
      && (deadline.None? ==> Reply(w, NormalCommand.Ttl(k)) == Integer(-1))
      && (deadline.Some? ==>
            var left := (deadline.value - w.now) / SECOND;
            left <= 0x7fff_ffff_ffff_ffff ==> Reply(w, NormalCommand.Ttl(k)) == Integer(left))
  }

  predicate ShowsNothing(w: World, k: Bytes) {
    && Reply(w, NormalCommand.Get(k)) == Nil
    && Reply(w, NormalCommand.Exists(k)) == Integer(0)
    && Reply(w, NormalCommand.Ttl(k)) == Integer(-2)
  }

  lemma HeldShows(w: World, k: Bytes, e: StoreEntry)
    requires Holds(w.data, k, Some(e), w.now)
    ensures Shows(w, k, TextOf(e.value), e.expiresAt)
  {
    hide TextOf;
  }

  lemma GoneShowsNothing(w: World, k: Bytes)
    requires Holds(w.data, k, None, w.now)
    ensures ShowsNothing(w, k)
  {
  }

  /** After SET with EX `n` a key shows its value until exactly `n` seconds later, and nothing from then
      on; without EX it shows its value for good. */
  lemma SetThenShows(w: World, k: Bytes, v: Bytes, ttl: Option<nat>, steps: seq<Step>)
    requires AllValid(steps) && LeftAlone(Next(w, Do(NormalCommand.Set(k, v, ttl))), steps, k)
    ensures Reply(w, NormalCommand.Set(k, v, ttl)) == Simple(Ascii("OK"))
    ensures Shows(Final(Next(w, Do(NormalCommand.Set(k, v, ttl))), steps), k, v,
                  if ttl.Some? then Some(w.now + ttl.value * SECOND) else None)
  {
    hide Shows, Final, LeftAlone, Ascii;
    var w' := Next(w, Do(NormalCommand.Set(k, v, ttl)));
    var e := StoreEntry(Str(v), if ttl.Some? then Some(w.now + ttl.value * SECOND) else None);
    assert w'.data[k] == e;
    RunLeaves(w', steps, k, Some(e));
    HeldShows(Final(w', steps), k, e);
  }

  /** EXPIRE and PERSIST answer 1 exactly on a live key; it keeps its text and shows it until exactly
      `n` seconds later, or for good. */
  lemma ExpireThenShows(w: World, k: Bytes, n: nat, steps: seq<Step>)
    requires AllValid(steps) && LeftAlone(Next(w, Do(NormalCommand.Expire(k, n))), steps, k)
    ensures var w' := Final(Next(w, Do(NormalCommand.Expire(k, n))), steps);
            if k in w.data && !IsExpired(w.data[k], w.now)
            then Reply(w, NormalCommand.Expire(k, n)) == Integer(1)
                 && Shows(w', k, TextOf(w.data[k].value), Some(w.now + n * SECOND))
            else Reply(w, NormalCommand.Expire(k, n)) == Integer(0) && ShowsNothing(w', k)
  {
    hide Shows, ShowsNothing, Final, LeftAlone, TextOf;
    var w' := Next(w, Do(NormalCommand.Expire(k, n)));
    if k in w.data && !IsExpired(w.data[k], w.now) {
      RunLeaves(w', steps, k, Some(w'.data[k]));
      HeldShows(Final(w', steps), k, w'.data[k]);
    } else {
      RunLeaves(w', steps, k, None);
      GoneShowsNothing(Final(w', steps), k);
    }
  }

  lemma PersistThenShows(w: World, k: Bytes, steps: seq<Step>)
    requires AllValid(steps) && LeftAlone(Next(w, Do(NormalCommand.Persist(k))), steps, k)
    ensures var w' := Final(Next(w, Do(NormalCommand.Persist(k))), steps);
            if k in w.data && !IsExpired(w.data[k], w.now)
            then Reply(w, NormalCommand.Persist(k)) == Integer(1) && Shows(w', k, TextOf(w.data[k].value), None)
            else Reply(w, NormalCommand.Persist(k)) == Integer(0) && ShowsNothing(w', k)
  {
    hide Shows, ShowsNothing, Final, LeftAlone, TextOf;
    var w' := Next(w, Do(NormalCommand.Persist(k)));
    if k in w.data && !IsExpired(w.data[k], w.now) {
      RunLeaves(w', steps, k, Some(w'.data[k]));
      HeldShows(Final(w', steps), k, w'.data[k]);
    } else {
      RunLeaves(w', steps, k, None);
      GoneShowsNothing(Final(w', steps), k);
    }
  }

  /** After DEL a key shows nothing. */
  lemma DelThenShowsNothing(w: World, ks: seq<Bytes>, k: Bytes, steps: seq<Step>)
    requires AllValid(steps) && k in ks && LeftAlone(Next(w, Do(NormalCommand.Del(ks))), steps, k)
    ensures ShowsNothing(Final(Next(w, Do(NormalCommand.Del(ks))), steps), k)
  {
    hide ShowsNothing, Final, LeftAlone, DelAll;
    var w' := Next(w, Do(NormalCommand.Del(ks)));
    DelAllIsOneRemoval(w.data, w.now, ks);
    RunLeaves(w', steps, k, None);
    GoneShowsNothing(Final(w', steps), k);
  }

  /** COPY answers 1 exactly when the source is live and the destination may be written; then both show
      the source's text and deadline. */
  lemma CopyThenShows(w: World, s: Bytes, t: Bytes, replace: bool, steps: seq<Step>)
    requires AllValid(steps) && LeftAlone(Next(w, Do(NormalCommand.Copy(s, t, replace))), steps, t)
    ensures var c := NormalCommand.Copy(s, t, replace);
            if Live(w.data, s, w.now) && (replace || !Live(w.data, t, w.now))
            then Reply(w, c) == Integer(1)
                 && Shows(Final(Next(w, Do(c)), steps), t, TextOf(w.data[s].value), w.data[s].expiresAt)
            else Reply(w, c) == Integer(0) && Next(w, Do(c)).data == w.data
  {
    hide Shows, Final, LeftAlone, TextOf;
    var w' := Next(w, Do(NormalCommand.Copy(s, t, replace)));
    if Live(w.data, s, w.now) && (replace || !Live(w.data, t, w.now)) {
      RunLeaves(w', steps, t, Some(w'.data[t]));
      HeldShows(Final(w', steps), t, w'.data[t]);
    }
  }
}
