/** What the settings cache guarantees under every interleaving of its coroutines. */
module SettingsTheorems {
  import opened Text
  import opened Settings

  // ---- what every step keeps ---------------------------------------------

  /** `value` is what the database held for the key at moment `seen`, or the fallback of
      this call when there was no row. */
  ghost predicate ReadAt(w: World, c: Call, value: Value, seen: nat) {
    && c.began <= seen < |w.history|
    && var rows := w.history[seen].rows; value == if c.key in rows then rows[c.key] else c.fallback
  }

  /** The value comes from a read that call `filler` of the same key started less than
      the time to live before `c`. */
  ghost predicate FilledBy(w: World, c: Call, value: Value, filler: nat, seen: nat) {
    && filler < |w.calls| && w.calls[filler].key == c.key
    && ReadAt(w, w.calls[filler], value, seen)
    && c.now < w.calls[filler].now + 10.0
  }

  ghost predicate CallOk(w: World, c: Call) {
    && c.began < |w.history| && w.history[c.began].clock == c.now
    && (c.key == "auto_mode" ==> c.fallback == Str("shadow"))
    && match c.stage
       case Waiting => true
       case Fetched(found, seen) => ReadAt(w, c, found, seen)
       case Done(value, Stored) => exists seen: nat :: ReadAt(w, c, value, seen)
       case Done(value, Failed) => value == c.fallback
       case Done(value, Cached) => exists f: nat, seen: nat :: FilledBy(w, c, value, f, seen)
  }

  /** A cache entry was stored by a call that read it from the database. */
  ghost predicate EntryFrom(w: World, key: string, filler: nat) {
    && key in w.cache && filler < |w.calls| && w.calls[filler].key == key
    && w.cache[key] == Entry(w.calls[filler].now + 10.0, w.cache[key].value)
    && w.calls[filler].stage == Done(w.cache[key].value, Stored)
  }

  ghost predicate Clocked(w: World) {
    && w.history != [] && w.history[|w.history| - 1] == Snapshot(w.clock, w.rows)
    && forall i, j | 0 <= i <= j < |w.history| :: w.history[i].clock <= w.history[j].clock
  }

  ghost predicate Sound(w: World) {
    && Clocked(w)
    && (forall i | 0 <= i < |w.calls| :: CallOk(w, w.calls[i]))
    && (forall key | key in w.cache :: exists f: nat :: EntryFrom(w, key, f))
  }

  /** A later world: the history is longer, and a call keeps what it started with. */
  ghost predicate Later(w: World, v: World) {
    && w.history <= v.history && |w.calls| <= |v.calls|
    && forall i | 0 <= i < |w.calls| :: SameCall(w.calls[i], v.calls[i])
  }

  predicate SameCall(c: Call, d: Call) {
    && d.key == c.key && d.fallback == c.fallback && d.now == c.now && d.began == c.began
    && (c.stage.Done? ==> d.stage == c.stage)
  }

  lemma {:induction false} StepLater(w: World, e: Event)
    ensures Later(w, Step(w, e))
  {
  }

  lemma {:induction false} CallStaysOk(w: World, v: World, c: Call)
    requires Later(w, v) && CallOk(w, c)
    ensures CallOk(v, c)
  {
    match c.stage
    case Waiting =>
    case Fetched(found, seen) =>
    case Done(value, Failed) =>
    case Done(value, Stored) =>
      var seen: nat :| ReadAt(w, c, value, seen);
      assert ReadAt(v, c, value, seen);
    case Done(value, Cached) =>
      var f: nat, seen: nat :| FilledBy(w, c, value, f, seen);
      assert SameCall(w.calls[f], v.calls[f]);
      assert FilledBy(v, c, value, f, seen);
  }

  lemma {:induction false} StepClocked(w: World, e: Event)
    requires Clocked(w)
    ensures Clocked(Step(w, e))
  {
    var v := Step(w, e);
    forall i, j | 0 <= i <= j < |v.history| ensures v.history[i].clock <= v.history[j].clock {
      if j == |w.history| && i < j { assert w.history[i].clock <= w.history[|w.history| - 1].clock; }
    }
  }

  lemma {:induction false} NewCallOk(w: World, key: string, default: Value)
    requires Sound(w)
    ensures CallOk(w, Started(w, key, default))
  {
    var c := Started(w, key, default);
    if Hit(w, key) {
      var f: nat :| EntryFrom(w, key, f);
      assert CallOk(w, w.calls[f]);
      var seen: nat :| ReadAt(w, w.calls[f], w.cache[key].value, seen);
      assert FilledBy(w, c, w.cache[key].value, f, seen);
    }
  }

  lemma {:induction false} FetchedOk(w: World, id: nat)
    requires Sound(w) && Pending(w, id)
    ensures var c := w.calls[id];
      CallOk(w, c.(stage := Fetched(Look(w.rows, c.key, c.fallback), Here(w))))
  {
    var c := w.calls[id];
    assert CallOk(w, c);
    var value := Look(w.rows, c.key, c.fallback);
    assert ReadAt(w, c.(stage := Fetched(value, Here(w))), value, Here(w));
  }

  lemma {:induction false} FinishedOk(w: World, id: nat)
    requires Sound(w) && Ready(w, id)
    ensures var c := w.calls[id]; CallOk(w, c.(stage := Done(c.stage.found, Stored)))
  {
    var c := w.calls[id];
    assert CallOk(w, c);
    assert ReadAt(w, c.(stage := Done(c.stage.found, Stored)), c.stage.found, c.stage.seen);
  }

  lemma {:induction false} CallsOk(w: World, e: Event, i: nat)
    requires Sound(w) && i < |Act(w, e).calls|
    ensures CallOk(w, Act(w, e).calls[i])
  {
    if i >= |w.calls| {
      NewCallOk(w, e.key, e.default);
    } else {
      assert CallOk(w, w.calls[i]);
      if Concerns(e, i) { TouchedOk(w, e, i); } else { CallKept(w, e, i); }
    }
  }

  /** The event moves this call on. */
  predicate Concerns(e: Event, i: nat) {
    (e.DbRead? || e.GetFinish? || e.GetFail?) && e.call == i
  }

  lemma {:induction false} CallKept(w: World, e: Event, i: nat)
    requires i < |w.calls| && !Concerns(e, i)
    ensures Act(w, e).calls[i] == w.calls[i]
  {
  }

  lemma {:induction false} TouchedOk(w: World, e: Event, i: nat)
    requires Sound(w) && i < |w.calls| && Concerns(e, i) && CallOk(w, w.calls[i])
    ensures CallOk(w, Act(w, e).calls[i])
  {
    match e
    case DbRead(_) => if Pending(w, i) { FetchedOk(w, i); }
    case GetFinish(_) => if Ready(w, i) { FinishedOk(w, i); }
    case GetFail(_) =>
  }

  /** Only a finished read adds to the cache. */
  lemma {:induction false} CacheShrinks(w: World, e: Event, key: string)
    requires key in Act(w, e).cache
    ensures (e.GetFinish? && Ready(w, e.call) && w.calls[e.call].key == key)
        || (key in w.cache && Act(w, e).cache[key] == w.cache[key])
  {
  }

  lemma {:induction false} FinishedEntry(w: World, id: nat)
    requires Ready(w, id)
    ensures EntryFrom(Act(w, GetFinish(id)), w.calls[id].key, id)
  {
  }

  lemma {:induction false} EntryFromLater(w: World, v: World, key: string, f: nat)
    requires EntryFrom(w, key, f) && Later(w, v) && key in v.cache && v.cache[key] == w.cache[key]
    ensures EntryFrom(v, key, f)
  {
    assert SameCall(w.calls[f], v.calls[f]);
  }

  lemma {:induction false} EntryStays(w: World, e: Event, key: string)
    requires Sound(w) && key in Step(w, e).cache
    ensures exists f: nat :: EntryFrom(Step(w, e), key, f)
  {
    CacheShrinks(w, e, key);
    if key in w.cache && Act(w, e).cache[key] == w.cache[key] {
      var f: nat :| EntryFrom(w, key, f);
      StepLater(w, e);
      EntryFromLater(w, Step(w, e), key, f);
    } else {
      FinishedEntry(w, e.call);
      assert EntryFrom(Step(w, e), key, e.call);
    }
  }

  lemma {:induction false} StepSound(w: World, e: Event)
    requires Sound(w)
    ensures Sound(Step(w, e))
  {
    var v := Step(w, e);
    StepClocked(w, e);
    forall i | 0 <= i < |v.calls| ensures CallOk(v, v.calls[i]) {
      CallsOk(w, e, i);
      StepLater(w, e);
      CallStaysOk(w, v, v.calls[i]);
    }
    forall key | key in v.cache ensures exists f: nat :: EntryFrom(v, key, f) { EntryStays(w, e, key); }
  }

  lemma {:induction false} RunSound(w: World, es: seq<Event>)
    requires Sound(w)
    ensures Sound(Run(w, es))
    decreases |es|
  {
    if es != [] {
      StepSound(w, es[0]);
      RunSound(Step(w, es[0]), es[1..]);
    }
  }

  /** Every run keeps the invariant, whatever the interleaving. */
  lemma {:induction false} EveryRunSound(clock: real, rows: Rows, es: seq<Event>)
    ensures Sound(Run(Initial(clock, rows), es))
  {
    RunSound(Initial(clock, rows), es);
  }

  // ---- bounded staleness -------------------------------------------------

  /** A value served from the cache at time t was the value of the database, or the
      fallback of the call that filled the cache, at a moment later than t minus the TTL. */
  lemma {:induction false} BoundedStaleness(clock: real, rows: Rows, es: seq<Event>, id: nat)
    returns (filler: nat, m: nat)
    requires var w := Run(Initial(clock, rows), es);
      id < |w.calls| && w.calls[id].stage.Done? && w.calls[id].stage.source == Cached
    ensures var w := Run(Initial(clock, rows), es);
      && filler < |w.calls| && w.calls[filler].key == w.calls[id].key && m < |w.history|
      && w.calls[id].stage.value == Look(w.history[m].rows, w.calls[id].key, w.calls[filler].fallback)
      && w.history[m].clock > w.calls[id].now - 10.0
  {
    EveryRunSound(clock, rows, es);
    var w := Run(Initial(clock, rows), es);
    var c := w.calls[id];
    assert CallOk(w, c);
    filler, m :| FilledBy(w, c, c.stage.value, filler, m);
    assert CallOk(w, w.calls[filler]);
    assert w.history[w.calls[filler].began].clock <= w.history[m].clock;
  }

  /** A value that was read is the value of the database, or the fallback of the call, at
      a moment after the call started; after an error the call returns its fallback. */
  lemma {:induction false} FreshRead(clock: real, rows: Rows, es: seq<Event>, id: nat) returns (m: nat)
    requires var w := Run(Initial(clock, rows), es);
      id < |w.calls| && w.calls[id].stage.Done? && w.calls[id].stage.source != Cached
    ensures var w := Run(Initial(clock, rows), es);
      var c := w.calls[id];
      if c.stage.source == Failed then c.stage.value == c.fallback
      else
        && c.began <= m < |w.history| && w.history[m].clock >= c.now
        && c.stage.value == Look(w.history[m].rows, c.key, c.fallback)
  {
    EveryRunSound(clock, rows, es);
    var w := Run(Initial(clock, rows), es);
    var c := w.calls[id];
    assert CallOk(w, c);
    m := 0;
    if c.stage.source == Stored {
      m :| ReadAt(w, c, c.stage.value, m);
      assert w.history[c.began].clock <= w.history[m].clock;
    }
  }

  /** Whatever is in the cache was read from the database: a failed read leaves nothing. */
  lemma {:induction false} FailuresAreNotCached(clock: real, rows: Rows, es: seq<Event>, key: string)
    returns (filler: nat)
    requires key in Run(Initial(clock, rows), es).cache
    ensures var w := Run(Initial(clock, rows), es);
      && filler < |w.calls| && w.calls[filler].key == key
      && w.calls[filler].stage == Done(w.cache[key].value, Stored) && w.cache[key].expiry == w.calls[filler].now + 10.0
  {
    EveryRunSound(clock, rows, es);
    filler :| EntryFrom(Run(Initial(clock, rows), es), key, filler);
  }

  // ---- the kill switch ---------------------------------------------------

  /** The row of the key is `v` at moment `s` and ever since. */
  ghost predicate StoredSince(w: World, key: string, v: Value, s: nat) {
    s < |w.history| && forall i | s <= i < |w.history| :: key in w.history[i].rows && w.history[i].rows[key] == v
  }

  /** Once the stored value has been `v` for the TTL, every call that meets no database
      error returns `v`. */
  lemma {:induction false} KillSwitchSettles(clock: real, rows: Rows, es: seq<Event>, id: nat, v: Value, s: nat)
    requires var w := Run(Initial(clock, rows), es);
      && id < |w.calls| && w.calls[id].stage.Done? && w.calls[id].stage.source != Failed
      && StoredSince(w, w.calls[id].key, v, s) && w.calls[id].now >= w.history[s].clock + 10.0
    ensures Run(Initial(clock, rows), es).calls[id].stage.value == v
  {
    EveryRunSound(clock, rows, es);
    var w := Run(Initial(clock, rows), es);
    var f, m := 0, 0;
    if w.calls[id].stage.source == Cached {
      f, m := BoundedStaleness(clock, rows, es, id);
    } else {
      m := FreshRead(clock, rows, es, id);
    }
    MomentAfter(w, m, s);
  }

  lemma {:induction false} MomentAfter(w: World, m: nat, s: nat)
    requires Clocked(w) && m < |w.history| && s < |w.history| && w.history[s].clock < w.history[m].clock
    ensures s < m
  {
  }

  /** `auto_mode` is not "live" from the TTL on after the row stopped being "live", even
      when the database fails. */
  lemma {:induction false} NotLiveAfterSwitch(clock: real, rows: Rows, es: seq<Event>, id: nat, v: Value, s: nat)
    requires var w := Run(Initial(clock, rows), es);
      && id < |w.calls| && w.calls[id].stage.Done? && w.calls[id].key == "auto_mode"
      && StoredSince(w, "auto_mode", v, s) && w.calls[id].now >= w.history[s].clock + 10.0
    ensures v != Str("live") ==> AutoMode(Run(Initial(clock, rows), es).calls[id].stage.value) != Str("live")
    ensures AutoMode(Run(Initial(clock, rows), es).calls[id].stage.value) in {AutoMode(v), Str("shadow")}
  {
    var c := Run(Initial(clock, rows), es).calls[id];
    if c.stage.source == Failed {
      EveryRunSound(clock, rows, es);
      assert CallOk(Run(Initial(clock, rows), es), c);
      var m := FreshRead(clock, rows, es, id);
    } else {
      KillSwitchSettles(clock, rows, es, id, v, s);
    }
  }

  /** The bound cannot be improved: any time short of the TTL after a write, a call can
      still return the old value. */
  lemma {:induction false} BoundIsTight(key: string, old_: Value, v: Value, early: real)
    requires old_ != v && 0.0 < early <= 10.0
    ensures var w := Run(Initial(0.0, map[key := old_]), LateRead(key, v, early));
      && |w.calls| == 2 && w.calls[1].now == 10.0 - early && w.calls[1].stage == Done(old_, Cached)
      && StoredSince(w, key, v, 4) && w.history[4].clock == 0.0
  {
    var w := Initial(0.0, map[key := old_]);
    var a, b, c := Event.GetStart(key, Null), Event.DbRead(0), Event.GetFinish(0);
    var d, e, f := OtherWrite(key, Some(v)), Tick(TTL - early), Event.GetStart(key, Null);
    var w3 := Run(w, [a, b, c]);
    FilledOnce(key, old_);
    LateHit(w3, key, old_, v, early);
    RunConcat(w, [a, b, c], [d, e, f]);
    assert [a, b, c] + [d, e, f] == LateRead(key, v, early);
  }

  lemma {:induction false} FilledOnce(key: string, old_: Value)
    ensures var w := Run(Initial(0.0, map[key := old_]),
        [Event.GetStart(key, Null), Event.DbRead(0), Event.GetFinish(0)]);
      && w.cache == map[key := Entry(TTL, old_)] && w.clock == 0.0 && w.rows == map[key := old_]
      && |w.calls| == 1 && |w.history| == 4
  {
    Unrolled(Initial(0.0, map[key := old_]), Event.GetStart(key, Null), Event.DbRead(0), Event.GetFinish(0));
  }

  lemma {:induction false} LateHit(w: World, key: string, old_: Value, v: Value, early: real)
    requires 0.0 < early <= TTL && w.cache == map[key := Entry(TTL, old_)] && w.clock == 0.0
    requires w.rows == map[key := old_] && |w.calls| == 1 && |w.history| == 4
    ensures var u := Run(w, [OtherWrite(key, Some(v)), Tick(TTL - early), Event.GetStart(key, Null)]);
      && |u.calls| == 2 && u.calls[1].now == TTL - early && u.calls[1].stage == Done(old_, Cached)
      && StoredSince(u, key, v, 4) && u.history[4].clock == 0.0
  {
    Unrolled(w, OtherWrite(key, Some(v)), Tick(TTL - early), Event.GetStart(key, Null));
    var x := Step(w, OtherWrite(key, Some(v)));
    assert x.rows[key] == v && x.clock == 0.0 && x.history[4] == Snapshot(0.0, x.rows);
  }

  function LateRead(key: string, v: Value, early: real): seq<Event> {
    [Event.GetStart(key, Null), Event.DbRead(0), Event.GetFinish(0),
     OtherWrite(key, Some(v)), Tick(TTL - early), Event.GetStart(key, Null)]
  }

  lemma {:induction false} RunConcat(w: World, a: seq<Event>, b: seq<Event>)
    ensures Run(w, a + b) == Run(Run(w, a), b)
    decreases |a|
  {
    if a == [] {
      assert a + b == b;
    } else {
      assert (a + b)[1..] == a[1..] + b;
      RunConcat(Step(w, a[0]), a[1..], b);
    }
  }

  // ---- clearing the cache ------------------------------------------------

  /** After the cache is cleared the next call of any key waits for the database, and an
      undisturbed one returns the row of the key, or its default. */
  lemma {:induction false} ClearedReadsDatabase(w: World, key: string, default: Value)
    ensures var u, id := Step(w, Event.ClearCache), |w.calls|;
      && Step(u, Event.GetStart(key, default)).calls[id].stage == Waiting
      && var v := Run(u, [Event.GetStart(key, default), Event.DbRead(id), Event.GetFinish(id)]);
         |v.calls| == id + 1 && v.calls[id].stage.Done? && v.calls[id].stage.source == Stored
         && v.calls[id].stage.value
            == if key in w.rows then w.rows[key] else if key == "auto_mode" then Str("shadow") else default
  {
    var u, id := Step(w, Event.ClearCache), |w.calls|;
    Unrolled(u, Event.GetStart(key, default), Event.DbRead(id), Event.GetFinish(id));
    assert !Hit(u, key);
  }
}
