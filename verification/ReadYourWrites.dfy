/** When a completed `set` is seen by every later `get`, and when it is not. */
module ReadYourWrites {
  import opened Settings
  import opened SettingsTheorems

  predicate Writes(e: Event, key: string) {
    (e.SetCommit? || e.OtherWrite?) && e.key == key
  }

  ghost predicate NoWrite(es: seq<Event>, key: string) {
    forall i | 0 <= i < |es| :: !Writes(es[i], key)
  }

  /** Every call of `get` for the key from call `n` on that met no error returned `v`. */
  ghost predicate AllSee(w: World, key: string, v: Value, n: nat) {
    forall id | n <= id < |w.calls| :: Sees(w.calls[id], key, v)
  }

  predicate Sees(c: Call, key: string, v: Value) {
    c.key == key && c.stage.Done? && c.stage.source != Failed ==> c.stage.value == v
  }

  /** No call that has read another value, and not stored it yet, started less than the
      time to live ago. */
  ghost predicate NoStaleRead(w: World, key: string, v: Value) {
    forall id | 0 <= id < |w.calls| :: !StaleRead(w, w.calls[id], key, v)
  }

  predicate StaleRead(w: World, c: Call, key: string, v: Value) {
    c.key == key && c.stage.Fetched? && c.stage.found != v && c.now + 10.0 > w.clock
  }

  predicate StaleEntry(w: World, key: string, v: Value) {
    Hit(w, key) && w.cache[key].value != v
  }

  ghost predicate Holding(w: World, key: string, v: Value, n: nat) {
    && key in w.rows && w.rows[key] == v && n <= |w.calls|
    && !StaleEntry(w, key, v) && NoStaleRead(w, key, v) && AllSee(w, key, v, n) && AllRead(w, key, v, n)
  }

  /** Every call from `n` on has read `v`, if it has read anything. */
  ghost predicate AllRead(w: World, key: string, v: Value, n: nat) {
    forall id | n <= id < |w.calls| :: HasRead(w.calls[id], key, v)
  }

  predicate HasRead(c: Call, key: string, v: Value) {
    c.key == key && c.stage.Fetched? ==> c.stage.found == v
  }

  lemma {:induction false} ActHolds(w: World, e: Event, key: string, v: Value, n: nat)
    requires Holding(w, key, v, n) && !Writes(e, key)
    ensures Holding(Act(w, e), key, v, n)
  {
    var u := Act(w, e);
    assert n <= |u.calls| && key in u.rows && u.rows[key] == v;
    forall id | 0 <= id < |u.calls| ensures !StaleRead(u, u.calls[id], key, v) {
      if id < |w.calls| { assert !StaleRead(w, w.calls[id], key, v); }
    }
    forall id | n <= id < |u.calls| ensures Sees(u.calls[id], key, v) && HasRead(u.calls[id], key, v) {
      if id < |w.calls| { assert Sees(w.calls[id], key, v) && HasRead(w.calls[id], key, v); }
    }
    NoStaleEntry(w, e, key, v);
  }

  lemma {:induction false} NoStaleEntry(w: World, e: Event, key: string, v: Value)
    requires !StaleEntry(w, key, v) && NoStaleRead(w, key, v)
    ensures !StaleEntry(Act(w, e), key, v)
  {
    if e.GetFinish? && Ready(w, e.call) { assert !StaleRead(w, w.calls[e.call], key, v); }
  }

  lemma {:induction false} RunHolds(w: World, es: seq<Event>, key: string, v: Value, n: nat)
    requires Holding(w, key, v, n) && NoWrite(es, key)
    ensures Holding(Run(w, es), key, v, n)
    decreases |es|
  {
    if es != [] {
      ActHolds(w, es[0], key, v, n);
      var u := Act(w, es[0]);
      StepHolds(u, Step(w, es[0]), key, v, n);
      RunHolds(Step(w, es[0]), es[1..], key, v, n);
    }
  }

  lemma {:induction false} StepHolds(u: World, w: World, key: string, v: Value, n: nat)
    requires Holding(u, key, v, n) && w == u.(history := w.history)
    ensures Holding(w, key, v, n)
  {
    forall id | 0 <= id < |w.calls| ensures !StaleRead(w, w.calls[id], key, v) {
      assert !StaleRead(u, u.calls[id], key, v);
    }
  }

  /** The stale read stores its value after the pop, and the next call is served it. */
  lemma {:induction false} StaleReadWins(w: World, key: string, v: Value, id: nat)
    requires id < |w.calls| && StaleRead(w, w.calls[id], key, v)
    ensures var es := [Event.GetFinish(id), Event.GetStart(key, Null)];
      NoWrite(es, key) && !AllSee(Run(w, es), key, v, |w.calls|)
  {
    var a, b := Event.GetFinish(id), Event.GetStart(key, Null);
    Unrolled(w, a, b, b);
    var x := Step(w, a);
    assert Hit(x, key) && |x.calls| == |w.calls|;
    var u := Step(x, b);
    assert !Sees(u.calls[|w.calls|], key, v);
  }

  /** When `set` drops the entry of a key whose row is `v`: every later call sees `v`
      until the next write, under every interleaving, exactly when no call that read
      another value is still in flight and younger than the time to live. */
  lemma {:induction false} SetIsSeenExactly(before: World, write: nat, key: string, v: Value)
    requires write < |before.writes| && before.writes[write] == Write(key, false)
    requires key in before.rows && before.rows[key] == v
    ensures var w := Step(before, SetPop(write));
      (forall es: seq<Event> | NoWrite(es, key) :: AllSee(Run(w, es), key, v, |w.calls|)) <==> NoStaleRead(w, key, v)
  {
    var w := Step(before, SetPop(write));
    if NoStaleRead(w, key, v) {
      forall es: seq<Event> | NoWrite(es, key) ensures AllSee(Run(w, es), key, v, |w.calls|) {
        RunHolds(w, es, key, v, |w.calls|);
      }
    } else {
      var id :| 0 <= id < |w.calls| && StaleRead(w, w.calls[id], key, v);
      StaleReadWins(w, key, v, id);
    }
  }

  /** The race in one run: a read before the commit, stored after the pop. */
  lemma {:induction false} SetCanBeLost(key: string, old_: Value, v: Value)
    requires old_ != v
    ensures var w := Run(Initial(0.0, map[key := old_]), Race(key, v));
      |w.calls| == 2 && key in w.rows && w.rows[key] == v && w.calls[1].stage == Done(old_, Cached)
  {
    var w := Initial(0.0, map[key := old_]);
    var x := Step(Step(Step(w, Event.GetStart(key, Null)), Event.DbRead(0)), Event.SetCommit(key, v));
    Unrolled(w, Event.GetStart(key, Null), Event.DbRead(0), Event.SetCommit(key, v));
    Raced(x, key, old_, v);
    Unrolled(x, SetPop(0), Event.GetFinish(0), Event.GetStart(key, Null));
    RunTail(w, key, v);
  }

  function Race(key: string, v: Value): seq<Event> {
    [Event.GetStart(key, Null), Event.DbRead(0), Event.SetCommit(key, v),
     SetPop(0), Event.GetFinish(0), Event.GetStart(key, Null)]
  }

  lemma {:induction false} RunTail(w: World, key: string, v: Value)
    ensures Run(w, Race(key, v))
         == Run(Run(w, [Event.GetStart(key, Null), Event.DbRead(0), Event.SetCommit(key, v)]),
                [SetPop(0), Event.GetFinish(0), Event.GetStart(key, Null)])
  {
    var a, b, c := Event.GetStart(key, Null), Event.DbRead(0), Event.SetCommit(key, v);
    var rest := [SetPop(0), Event.GetFinish(0), Event.GetStart(key, Null)];
    Unrolled(w, a, b, c);
    assert Race(key, v) == [a] + ([b] + ([c] + rest));
    RunCons(w, a, [b] + ([c] + rest));
    RunCons(Step(w, a), b, [c] + rest);
    RunCons(Step(Step(w, a), b), c, rest);
  }

  lemma {:induction false} Raced(x: World, key: string, old_: Value, v: Value)
    requires old_ != v && x.clock == 0.0 && x.writes == [Write(key, false)] && key in x.rows && x.rows[key] == v
    requires |x.calls| == 1 && x.calls[0].key == key && x.calls[0].now == 0.0
    requires x.calls[0].stage.Fetched? && x.calls[0].stage.found == old_
    ensures var u := Step(Step(Step(x, SetPop(0)), Event.GetFinish(0)), Event.GetStart(key, Null));
      |u.calls| == 2 && key in u.rows && u.rows[key] == v && u.calls[1].stage == Done(old_, Cached)
  {
    var y := Step(Step(x, SetPop(0)), Event.GetFinish(0));
    assert key in y.cache && y.cache[key] == Entry(TTL, old_) && y.clock == 0.0;
  }

  /** The fallback of one caller is served to the next: a key without a row is cached
      with the default of the call that asked first. */
  lemma {:induction false} FirstDefaultIsServed(key: string, mine: Value, yours: Value)
    requires key != "auto_mode"
    ensures var empty := Initial(0.0, map[]);
      var w := Step(Run(empty, Alone(empty, key, mine, false)), Event.GetStart(key, yours));
      |w.calls| == 2 && w.calls[1].stage == Done(mine, Cached)
  {
    var w := Initial(0.0, map[]);
    Unrolled(w, Event.GetStart(key, mine), Event.DbRead(0), Event.GetFinish(0));
    assert Alone(w, key, mine, false) == [Event.GetStart(key, mine), Event.DbRead(0), Event.GetFinish(0)];
    var x := Run(w, Alone(w, key, mine, false));
    assert key in x.cache && x.cache[key] == Entry(TTL, mine) && x.clock == 0.0 && |x.calls| == 1;
  }

  /** The value is a row the key has had, or what this call would fall back on without one. */
  ghost predicate OwnAnswer(w: World, c: Call) {
    exists m: nat :: m < |w.history| && c.stage.Done? && c.stage.value == Look(w.history[m].rows, c.key, c.fallback)
  }

  /** Every finished call of the key that met no error returns an answer of its own. */
  ghost predicate OwnAnswers(w: World, key: string) {
    forall id | 0 <= id < |w.calls| :: AnswersOwn(w, w.calls[id], key)
  }

  ghost predicate AnswersOwn(w: World, c: Call, key: string) {
    c.key == key && c.stage.Done? && c.stage.source != Failed ==> OwnAnswer(w, c)
  }

  lemma {:induction false} BuiltInIsShared(clock: real, rows: Rows, es: seq<Event>, key: string)
    requires key == "auto_mode"
    ensures OwnAnswers(Run(Initial(clock, rows), es), key)
  {
    var w := Run(Initial(clock, rows), es);
    EveryRunSound(clock, rows, es);
    forall id | 0 <= id < |w.calls| ensures AnswersOwn(w, w.calls[id], key) {
      var c := w.calls[id];
      assert CallOk(w, c);
      if c.key == key && c.stage.Done? && c.stage.source == Cached {
        var f, m := BoundedStaleness(clock, rows, es, id);
        assert CallOk(w, w.calls[f]);
        assert c.stage.value == Look(w.history[m].rows, c.key, c.fallback);
      } else if c.key == key && c.stage.Done? && c.stage.source == Stored {
        var m := FreshRead(clock, rows, es, id);
      }
    }
  }

  /** Without rows, no moment explains the default of another caller. */
  lemma {:induction false} StrangeDefault(key: string)
    requires key != "auto_mode"
    ensures exists es: seq<Event> :: !OwnAnswers(Run(Initial(0.0, map[]), es), key)
  {
    var w, mine, yours := Initial(0.0, map[]), Flag(true), Flag(false);
    var es := [Event.GetStart(key, mine), Event.DbRead(0), Event.GetFinish(0)];
    var last := Event.GetStart(key, yours);
    FirstDefaultIsServed(key, mine, yours);
    assert Alone(w, key, mine, false) == es;
    RunConcat(w, es, [last]);
    RunCons(Run(w, es), last, []);
    assert [last] + [] == [last];
    var u := Run(w, es + [last]);
    Unrolled(w, es[0], es[1], es[2]);
    assert forall m | 0 <= m < |u.history| :: u.history[m].rows == map[];
    assert !AnswersOwn(u, u.calls[1], key);
  }

  /** Every caller gets a row of the key or its own fallback, in every run, exactly for
      the keys whose default is built in. */
  lemma {:induction false} OwnDefaultIff(key: string)
    ensures (forall clock: real, rows: Rows, es: seq<Event> :: OwnAnswers(Run(Initial(clock, rows), es), key))
         <==> key == "auto_mode"
  {
    if key == "auto_mode" {
      forall clock: real, rows: Rows, es: seq<Event> ensures OwnAnswers(Run(Initial(clock, rows), es), key) {
        BuiltInIsShared(clock, rows, es, key);
      }
    } else {
      StrangeDefault(key);
    }
  }
}
