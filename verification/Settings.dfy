/** Runtime settings: a cache with a time to live in front of a database. Coroutines
    interleave at every await, so each stretch of code between two awaits is one event. */
module Settings {
  import opened Text

  /** A JSON value. */
  datatype Value = Null | Flag(b: bool) | Number(n: real) | Str(s: string) | Compound(json: string)

  type Rows = map<string, Value>

  const TTL: real := 10.0
  const AUTO_MODE: string := "auto_mode"
  const AUTO_MODES: set<Value> := {Str("off"), Str("shadow"), Str("live")}
  const DEFAULTS: Rows := map[AUTO_MODE := Str("shadow")]

  datatype Entry = Entry(expiry: real, value: Value)

  /** The database and the clock at one moment. */
  datatype Snapshot = Snapshot(clock: real, rows: Rows)

  /** How a call of `get` ended: with a value of the cache, with one it read and stored,
      or with its fallback because the database failed. */
  datatype Source = Cached | Stored | Failed

  datatype Stage =
    | Waiting
    | Fetched(found: Value, seen: nat)
    | Done(value: Value, source: Source)

  /** A call of `get`: `now` is read first, at moment `began` of the history. */
  datatype Call = Call(key: string, fallback: Value, now: real, began: nat, stage: Stage)

  /** A call of `set` that has committed and not yet dropped its cache entry. */
  datatype Write = Write(key: string, dropped: bool)

  datatype World = World(cache: map<string, Entry>, clock: real, rows: Rows, history: seq<Snapshot>,
                         calls: seq<Call>, writes: seq<Write>)

  datatype Event =
    | GetStart(key: string, default: Value)
    | DbRead(call: nat)
    | GetFinish(call: nat)
    | GetFail(call: nat)
    | SetCommit(key: string, value: Value)
    | SetPop(write: nat)
    | OtherWrite(key: string, row: Option<Value>)
    | ClearCache
    | Tick(seconds: real)

  function Fallback(key: string, default: Value): Value {
    if key in DEFAULTS then DEFAULTS[key] else default
  }

  /** `row.value if row is not None else fallback`. */
  function Look(rows: Rows, key: string, fallback: Value): Value {
    if key in rows then rows[key] else fallback
  }

  predicate Hit(w: World, key: string) {
    key in w.cache && w.cache[key].expiry > w.clock
  }

  predicate Pending(w: World, call: nat) {
    call < |w.calls| && !w.calls[call].stage.Done?
  }

  predicate Ready(w: World, call: nat) {
    call < |w.calls| && w.calls[call].stage.Fetched?
  }

  function Here(w: World): nat { if w.history == [] then 0 else |w.history| - 1 }

  function Started(w: World, key: string, default: Value): Call {
    Call(key, Fallback(key, default), w.clock, Here(w),
         if Hit(w, key) then Done(w.cache[key].value, Cached) else Waiting)
  }

  function Move(w: World, call: nat, stage: Stage): World
    requires call < |w.calls|
  {
    w.(calls := w.calls[call := w.calls[call].(stage := stage)])
  }

  function Act(w: World, e: Event): World {
    match e
    case GetStart(key, default) => w.(calls := w.calls + [Started(w, key, default)])
    case DbRead(id) =>
      if Pending(w, id) && w.calls[id].stage.Waiting? then
        Move(w, id, Fetched(Look(w.rows, w.calls[id].key, w.calls[id].fallback), Here(w)))
      else w
    case GetFinish(id) =>
      if Ready(w, id) then
        var c := w.calls[id];
        Move(w, id, Done(c.stage.found, Stored)).(cache := w.cache[c.key := Entry(c.now + TTL, c.stage.found)])
      else w
    case GetFail(id) => if Pending(w, id) then Move(w, id, Done(w.calls[id].fallback, Failed)) else w
    case SetCommit(key, value) => w.(rows := w.rows[key := value], writes := w.writes + [Write(key, false)])
    case SetPop(id) =>
      if id < |w.writes| && !w.writes[id].dropped then
        w.(cache := w.cache - {w.writes[id].key}, writes := w.writes[id := w.writes[id].(dropped := true)])
      else w
    case OtherWrite(key, row) => w.(rows := if row.Some? then w.rows[key := row.value] else w.rows - {key})
    case ClearCache => w.(cache := map[])
    case Tick(seconds) => if seconds > 0.0 then w.(clock := w.clock + seconds) else w
  }

  /** One event; every moment is kept in the history. */
  function Step(w: World, e: Event): World {
    var next := Act(w, e);
    next.(history := w.history + [Snapshot(next.clock, next.rows)])
  }

  function Run(w: World, es: seq<Event>): World
    decreases |es|
  {
    if es == [] then w else Run(Step(w, es[0]), es[1..])
  }

  /** A call of `get` that nothing interrupts. */
  function Alone(w: World, key: string, default: Value, fails: bool): seq<Event> {
    var id := |w.calls|;
    [Event.GetStart(key, default)] +
    if Hit(w, key) then [] else if fails then [Event.GetFail(id)] else [Event.DbRead(id), Event.GetFinish(id)]
  }

  lemma {:induction false} RunCons(w: World, e: Event, es: seq<Event>)
    ensures Run(w, [e] + es) == Run(Step(w, e), es)
  {
    assert ([e] + es)[1..] == es;
  }

  lemma {:induction false} Unrolled(w: World, a: Event, b: Event, c: Event)
    ensures Run(w, [a]) == Step(w, a)
    ensures Run(w, [a, b]) == Step(Step(w, a), b)
    ensures Run(w, [a, b, c]) == Step(Step(Step(w, a), b), c)
  {
    RunCons(w, a, []);
    RunCons(w, a, [b]);
    RunCons(w, a, [b, c]);
    RunCons(Step(w, a), b, []);
    RunCons(Step(w, a), b, [c]);
    RunCons(Step(Step(w, a), b), c, []);
    assert [a] + [] == [a] && [a] + [b] == [a, b] && [a] + [b, c] == [a, b, c];
    assert [b] + [] == [b] && [b] + [c] == [b, c] && [c] + [] == [c];
  }

  function Initial(clock: real, rows: Rows): World {
    World(map[], clock, rows, [Snapshot(clock, rows)], [], [])
  }

  /** What `auto_mode` makes of the value it gets. */
  function AutoMode(value: Value): (mode: Value)
    ensures mode in {Str("off"), Str("shadow"), Str("live")}
    ensures mode == if value in {Str("off"), Str("shadow"), Str("live")} then value else Str("shadow")
  {
    if value !in AUTO_MODES then DEFAULTS[AUTO_MODE] else value
  }

  // ---- the module state and its coroutines -------------------------------

  /** The cache with the world around it; each method is one uninterrupted stretch. */
  class SettingsStore {
    var cache: map<string, Entry>
    var clock: real
    var rows: Rows
    var history: seq<Snapshot>
    var calls: seq<Call>
    var writes: seq<Write>

    ghost function View(): World
      reads this
    {
      World(cache, clock, rows, history, calls, writes)
    }

    constructor (now: real, stored: Rows)
      ensures View() == Initial(now, stored)
    {
      cache, clock, rows, history, calls, writes := map[], now, stored, [Snapshot(now, stored)], [], [];
    }

    method Observe()
      modifies this`history
      ensures history == old(history) + [Snapshot(clock, rows)]
    {
      history := history + [Snapshot(clock, rows)];
    }

    /** `get` up to its first await: served from the cache, or left waiting for the database. */
    method GetStart(key: string, default: Value) returns (id: nat, served: Option<Value>)
      modifies this
      ensures View() == Step(old(View()), Event.GetStart(key, default))
      ensures id == |old(calls)| && served == (if old(Hit(View(), key)) then Some(old(cache)[key].value) else None)
    {
      id, served := |calls|, None;
      var now, fallback := clock, Fallback(key, default);
      var began := if history == [] then 0 else |history| - 1;
      if key in cache && cache[key].expiry > now {
        served := Some(cache[key].value);
        calls := calls + [Call(key, fallback, now, began, Done(cache[key].value, Cached))];
      } else {
        calls := calls + [Call(key, fallback, now, began, Waiting)];
      }
      Observe();
    }

    /** The select statement runs in the database. */
    method DbRead(id: nat)
      requires Pending(View(), id) && calls[id].stage.Waiting?
      modifies this
      ensures View() == Step(old(View()), Event.DbRead(id))
    {
      var c := calls[id];
      var value := if c.key in rows then rows[c.key] else c.fallback;
      calls := calls[id := c.(stage := Fetched(value, if history == [] then 0 else |history| - 1))];
      Observe();
    }

    /** `get` after its session has closed: stores what it read, under the time it started. */
    method GetFinish(id: nat) returns (value: Value)
      requires Ready(View(), id)
      modifies this
      ensures View() == Step(old(View()), Event.GetFinish(id)) && value == old(calls[id].stage.found)
    {
      var c := calls[id];
      value := c.stage.found;
      cache := cache[c.key := Entry(c.now + TTL, value)];
      calls := calls[id := c.(stage := Done(value, Stored))];
      Observe();
    }

    /** `get` when the database fails: the fallback, and nothing is stored. */
    method GetFail(id: nat) returns (value: Value)
      requires Pending(View(), id)
      modifies this
      ensures View() == Step(old(View()), Event.GetFail(id)) && value == old(calls[id].fallback)
      ensures cache == old(cache)
    {
      value := calls[id].fallback;
      calls := calls[id := calls[id].(stage := Done(value, Failed))];
      Observe();
    }

    /** `set` up to its commit. */
    method SetCommit(key: string, value: Value) returns (id: nat)
      modifies this
      ensures View() == Step(old(View()), Event.SetCommit(key, value)) && id == |old(writes)|
    {
      id := |writes|;
      rows := rows[key := value];
      writes := writes + [Write(key, false)];
      Observe();
    }

    /** `set` after its commit. */
    method SetPop(id: nat)
      requires id < |writes| && !writes[id].dropped
      modifies this
      ensures View() == Step(old(View()), Event.SetPop(id))
    {
      cache := cache - {writes[id].key};
      writes := writes[id := writes[id].(dropped := true)];
      Observe();
    }

    method ClearCache()
      modifies this
      ensures View() == Step(old(View()), Event.ClearCache)
    {
      cache := map[];
      Observe();
    }

    /** `get` with nothing in between its steps. */
    method Get(key: string, default: Value, fails: bool) returns (value: Value)
      modifies this
      ensures View() == Run(old(View()), Alone(old(View()), key, default, fails))
      ensures |calls| == |old(calls)| + 1
      ensures var c := calls[|old(calls)|];
        c.key == key && c.now == old(clock) && c.stage.Done? && c.stage.value == value
    {
      ghost var w, n := View(), |calls|;
      var answer := if fails then Event.GetFail(n) else Event.DbRead(n);
      Unrolled(w, Event.GetStart(key, default), answer, Event.GetFinish(n));
      var id, served := GetStart(key, default);
      if served.Some? {
        return served.value;
      }
      if fails {
        value := GetFail(id);
      } else {
        DbRead(id);
        value := GetFinish(id);
      }
    }

    /** `auto_mode`. */
    method ReadAutoMode(fails: bool) returns (mode: Value)
      modifies this
      ensures mode in {Str("off"), Str("shadow"), Str("live")} && |calls| == |old(calls)| + 1
      ensures var c := calls[|old(calls)|];
        c.key == "auto_mode" && c.now == old(clock) && c.stage.Done? && mode == AutoMode(c.stage.value)
    {
      var value := Get(AUTO_MODE, Null, fails);
      mode := AutoMode(value);
    }
  }
}
