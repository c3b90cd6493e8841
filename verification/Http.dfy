/** The HTTP connector: retries on reads only, over a network that may lose requests and
    responses or put an error status in their place. */
module Http {
  import opened Text
  import opened Backend

  const GET_RETRIES: nat := 2

  /** A body may not be JSON, or be JSON without the expected field. */
  datatype Body = Good(reply: Reply) | Malformed | Incomplete

  datatype Wire = Response(status: nat, body: Body) | TransportError

  /** What the network does to one request: `Replaced` is a response of its own, with any
      status, to a request that reached the backend or did not. */
  datatype Delivery =
    | Delivered
    | RequestLost
    | ResponseLost
    | Replaced(status: nat, body: Body, reached: bool)
    | Garbled(body: Body)

  /** A body that does not come from the backend holds no reply. */
  function Foreign(body: Body): Body {
    if body.Good? then Malformed else body
  }

  function Answer(r: Result<Reply>): Wire {
    if r.Ok? then Response(200, Good(r.value)) else Response(404, Malformed)
  }

  predicate Reaches(d: Delivery) {
    d.Delivered? || d.ResponseLost? || d.Garbled? || (d.Replaced? && d.reached)
  }

  function Send(s: Server, r: Request, d: Delivery): (Server, Wire) {
    var handled := Handle(s, r);
    (if Reaches(d) then handled.0 else s,
     match d
     case Delivered => Answer(handled.1)
     case Garbled(body) =>
       if handled.1.Ok? then Response(200, Foreign(body)) else Answer(handled.1)
     case Replaced(status, body, _) => Response(status, Foreign(body))
     case _ => TransportError)
  }

  /** `attempts`: a write is sent once. */
  function Attempts(r: Request): nat {
    if Reads(r) then GET_RETRIES else 1
  }

  /** The fate of each attempt; beyond the plan requests are lost. */
  function Fate(net: seq<Delivery>, attempt: nat): Delivery {
    if attempt < |net| then net[attempt] else RequestLost
  }

  predicate Retryable(wire: Wire) {
    wire.TransportError? || (wire.status >= 500 && wire.status !in {404, 403})
  }

  /** The loop from an attempt on. */
  function Exchange(s: Server, r: Request, net: seq<Delivery>, attempt: nat): (Server, Result<Wire>)
    decreases Attempts(r) - attempt
  {
    if attempt >= Attempts(r) then (s, Err(Unavailable))
    else
      var (t, wire) := Send(s, r, Fate(net, attempt));
      var verdict := Verdict(wire, attempt + 1 >= Attempts(r));
      if verdict.Some? then (t, verdict.value) else Exchange(t, r, net, attempt + 1)
  }

  /** What the caller makes of a successful response; `handoff` does not look at the body. */
  function Parse(r: Request, body: Body): Result<Reply> {
    if r.Handoff? then Ok(Done)
    else match body
      case Good(reply) => Ok(reply)
      case Malformed => Err(Unavailable)
      case Incomplete => Err(BadReply)
  }

  function Call(s: Server, r: Request, net: seq<Delivery>): (Server, Result<Reply>) {
    var (t, got) := Exchange(s, r, net, 0);
    (t, Received(r, got))
  }

  function Received(r: Request, got: Result<Wire>): Result<Reply> {
    if got.Err? then Err(got.error)
    else if got.value.Response? then Parse(r, got.value.body)
    else Err(Unavailable)
  }

  /** What the loop does with one response; `None` stands for another attempt. */
  function Verdict(wire: Wire, last: bool): Option<Result<Wire>> {
    if Retryable(wire) && !last then None
    else if wire.TransportError? then Some(Err(Unavailable))
    else if wire.status in {404, 403} then Some(Err(NotFound))
    else if wire.status >= 400 then Some(Err(Unavailable))
    else Some(Ok(wire))
  }

  lemma {:induction false} ExchangeStep(s: Server, r: Request, net: seq<Delivery>, attempt: nat, t: Server, wire: Wire)
    requires attempt < Attempts(r) && (t, wire) == Send(s, r, Fate(net, attempt))
    ensures var verdict := Verdict(wire, attempt + 1 >= Attempts(r));
      Exchange(s, r, net, attempt)
        == if verdict.Some? then (t, verdict.value) else Exchange(t, r, net, attempt + 1)
  {
  }

  // ---- the object --------------------------------------------------------

  class HttpMainBackend {
    const server: FakeMainBackend

    constructor (backend: FakeMainBackend)
      ensures server == backend
    {
      server := backend;
    }

    /** One request over the network. */
    method Transmit(r: Request, d: Delivery) returns (wire: Wire)
      modifies server
      ensures (server.View(), wire) == Send(old(server.View()), r, d)
    {
      ghost var before := server.View();
      if Reaches(d) {
        var handled := server.Dispatch(r);
        assert (server.View(), handled) == Handle(before, r);
        match d
        case Delivered => wire := Answer(handled);
        case Garbled(body) =>
          wire := if handled.Ok? then Response(200, Foreign(body)) else Answer(handled);
        case Replaced(status, body, _) => wire := Response(status, Foreign(body));
        case _ => wire := TransportError;
      } else {
        wire := if d.Replaced? then Response(d.status, Foreign(d.body)) else TransportError;
      }
    }

    /** `_request`. */
    method Request(r: Request, net: seq<Delivery>) returns (got: Result<Wire>)
      modifies server
      ensures (server.View(), got) == Exchange(old(server.View()), r, net, 0)
      ensures got.Ok? ==> got.value.Response? && got.value.status < 400
    {
      var attempts := Attempts(r);
      var attempt: nat := 0;
      ghost var all := Exchange(server.View(), r, net, 0);
      while attempt < attempts
        invariant attempt <= attempts && all == Exchange(server.View(), r, net, attempt)
      {
        ghost var before := server.View();
        var wire := Transmit(r, Fate(net, attempt));
        ExchangeStep(before, r, net, attempt, server.View(), wire);
        if wire.TransportError? {
          if attempt + 1 < attempts { attempt := attempt + 1; continue; }
          return Err(Unavailable);
        }
        if wire.status in {404, 403} { return Err(NotFound); }
        if wire.status >= 500 && attempt + 1 < attempts { attempt := attempt + 1; continue; }
        if wire.status >= 400 { return Err(Unavailable); }
        return Ok(wire);
      }
      got := Err(Unavailable);
    }

    method Perform(r: Request, net: seq<Delivery>) returns (reply: Result<Reply>)
      modifies server
      ensures (server.View(), reply) == Call(old(server.View()), r, net)
    {
      var got := Request(r, net);
      reply := if got.Err? then Err(got.error) else Parse(r, got.value.body);
    }

    method PostAssistantMessage(convId: string, text: string, idemKey: string, now: int, net: seq<Delivery>)
      returns (r: Result<Reply>)
      modifies server
      ensures (server.View(), r) == Call(old(server.View()), Post(convId, text, idemKey, now), net)
    {
      r := Perform(Post(convId, text, idemKey, now), net);
    }
  }

  // ---- one call ----------------------------------------------------------

  function Copies(r: Request, n: nat): seq<Request> {
    if n == 0 then [] else [r] + Copies(r, n - 1)
  }

  /** To the backend a call is the same request some number of times, at most once for a
      write and twice for a read. */
  lemma {:induction false} CallIsCopies(s: Server, r: Request, net: seq<Delivery>, attempt: nat) returns (n: nat)
    requires attempt <= Attempts(r)
    ensures n <= Attempts(r) - attempt && Exchange(s, r, net, attempt).0 == Serve(s, Copies(r, n))
    ensures !Reads(r) && attempt == 0 ==> n == if Reaches(Fate(net, 0)) then 1 else 0
    decreases Attempts(r) - attempt
  {
    n := 0;
    if attempt < Attempts(r) {
      var t := Send(s, r, Fate(net, attempt)).0;
      if NextExchange(s, r, net, attempt) { n := CallIsCopies(t, r, net, attempt + 1); }
      if Reaches(Fate(net, attempt)) {
        n := n + 1;
        ServeCopies(s, r, n);
      }
    }
  }

  /** Whether an attempt is followed by another. */
  predicate NextExchange(s: Server, r: Request, net: seq<Delivery>, attempt: nat) {
    Verdict(Send(s, r, Fate(net, attempt)).1, attempt + 1 >= Attempts(r)).None?
  }

  lemma {:induction false} ServeCopies(s: Server, r: Request, n: nat)
    requires n > 0
    ensures Serve(s, Copies(r, n)) == Serve(Handle(s, r).0, Copies(r, n - 1))
  {
    assert Copies(r, n)[1..] == Copies(r, n - 1);
  }

  /** An exchange that failed in transport or on the side of the server. */
  predicate Fails(d: Delivery) {
    d.RequestLost? || d.ResponseLost? || (d.Replaced? && d.status >= 500)
  }

  /** What the caller learns from one exchange, when the backend answers `direct`. */
  function Told(r: Request, direct: Result<Reply>, d: Delivery): Result<Reply> {
    match d
    case Delivered => direct
    case RequestLost => Err(Unavailable)
    case ResponseLost => Err(Unavailable)
    case Garbled(body) => if direct.Err? then direct else Unread(r, body)
    case Replaced(status, body, _) =>
      if status == 404 || status == 403 then Err(NotFound)
      else if status >= 400 then Err(Unavailable)
      else Unread(r, body)
  }

  /** A response below 400 whose body holds no reply. */
  function Unread(r: Request, body: Body): Result<Reply> {
    if r.Handoff? then Ok(Done) else Err(if body.Incomplete? then BadReply else Unavailable)
  }

  lemma {:induction false} SendTold(s: Server, r: Request, d: Delivery)
    ensures var (t, wire) := Send(s, r, d);
      && (Verdict(wire, false).None? <==> Fails(d))
      && Verdict(wire, true).Some? && Received(r, Verdict(wire, true).value) == Told(r, Handle(s, r).1, d)
      && (!Fails(d) ==> Verdict(wire, false) == Verdict(wire, true))
  {
  }

  lemma {:induction false} Arrival(s: Server, r: Request, d: Delivery, n: nat)
    ensures Serve(Send(s, r, d).0, Copies(r, n)) == Serve(s, Copies(r, n + if Reaches(d) then 1 else 0))
  {
    if Reaches(d) { ServeCopies(s, r, n + 1); }
  }

  /** A write is sent exactly once, and what happens to it decides the outcome. */
  lemma {:induction false} WriteOutcome(s: Server, r: Request, net: seq<Delivery>)
    requires !Reads(r)
    ensures var d, direct := Fate(net, 0), Handle(s, r);
      && Call(s, r, net).1 == Told(r, direct.1, d)
      && Call(s, r, net).0 == (if Reaches(d) then direct.0 else s)
      && (Call(s, r, net).1.Ok? && r.Post? ==> Call(s, r, net).1 == direct.1 && Reaches(d))
      && (d.Delivered? ==> Call(s, r, net).1 == direct.1)
      && (d.RequestLost? || d.ResponseLost? ==> Call(s, r, net).1 == Err(Unavailable))
      && (d.Replaced? && d.status >= 400 ==>
            Call(s, r, net).1 == Err(if d.status in {404, 403} then NotFound else Unavailable))
      && (d.Replaced? && d.status < 400 ==> Call(s, r, net).1 == Parse(r, Foreign(d.body)))
  {
  }

  /** A successful handoff has happened at the backend. */
  ghost predicate HandoffIsTrue(s: Server, r: Request, net: seq<Delivery>) {
    Call(s, r, net).1.Ok? ==> Handle(s, r).1.Ok? && Call(s, r, net).0 == Handle(s, r).0
  }

  /** `handoff` looks at the status alone: its success can be believed exactly unless the
      network answers below 400 in place of a backend that did not do it. */
  lemma {:induction false} HandoffIsTrueIff(s: Server, r: Request, net: seq<Delivery>)
    requires r.Handoff?
    ensures var d := Fate(net, 0);
      HandoffIsTrue(s, r, net) <==> !(d.Replaced? && d.status < 400 && !(d.reached && r.convId in s.conversations))
  {
    WriteOutcome(s, r, net);
    StepCounts(s, r);
  }

  /** Every request is counted, so one that is handled leaves a trace. */
  lemma {:induction false} StepCounts(s: Server, r: Request)
    ensures Handle(s, r).0 != s
  {
    assert Count(Handle(s, r).0, Name(r)) == Count(s, Name(r)) + 1;
  }

  /** A page of some proxy, with status 200, passes for a handoff that never reached the backend. */
  lemma {:induction false} HandoffCanBeLost(s: Server, convId: string, reason: string)
    ensures Call(s, Handoff(convId, reason), [Replaced(200, Malformed, false)]) == (s, Ok(Done))
  {
    WriteOutcome(s, Handoff(convId, reason), [Replaced(200, Malformed, false)]);
  }

  /** The data of a backend, the counts of calls aside. */
  function Data(s: Server): Server { s.(counts := map[]) }

  lemma {:induction false} ReadsSame(s: Server, t: Server, r: Request)
    requires Reads(r) && Data(s) == Data(t)
    ensures Handle(s, r).1 == Handle(t, r).1 && Data(Handle(s, r).0) == Data(s)
  {
    var s', t' := Recorded(s, Name(r)), Recorded(t, Name(r));
    assert s'.conversations == t'.conversations && s'.messages == t'.messages;
    assert Data(s') == Data(s);
  }

  /** Whatever the network does, a read changes no data and never returns anything but
      what the backend would have answered directly; retrying is safe. */
  lemma {:induction false} ReadsAreTrue(s: Server, r: Request, net: seq<Delivery>, attempt: nat)
    requires Reads(r) && attempt <= Attempts(r)
    ensures var (t, got) := Exchange(s, r, net, attempt);
      && Data(t) == Data(s)
      && (got.Ok? && got.value.Response? && got.value.body.Good? ==> Handle(s, r).1 == Ok(got.value.body.reply))
    decreases Attempts(r) - attempt
  {
    if attempt < Attempts(r) {
      var (t, wire) := Send(s, r, Fate(net, attempt));
      ReadsSame(s, s, r);
      if Retryable(wire) && attempt + 1 < Attempts(r) {
        ReadsAreTrue(t, r, net, attempt + 1);
        ReadsSame(s, t, r);
      }
    }
  }

  /** A read is sent a second time if and only if its first exchange failed in transport or
      with a status of 500 or above; any other first answer is final. */
  lemma {:induction false} ReadOutcome(s: Server, r: Request, net: seq<Delivery>)
    requires Reads(r)
    ensures var first, second, direct := Fate(net, 0), Fate(net, 1), Handle(s, r).1;
      && Call(s, r, net).1 == Told(r, direct, if Fails(first) then second else first)
      && Call(s, r, net).0
         == Serve(s, Copies(r, (if Reaches(first) then 1 else 0) + if Fails(first) && Reaches(second) then 1 else 0))
  {
    var first, second := Fate(net, 0), Fate(net, 1);
    var (t, wire) := Send(s, r, first);
    ExchangeStep(s, r, net, 0, t, wire);
    SendTold(s, r, first);
    ReadsSame(s, s, r);
    assert Data(t) == Data(s);
    Arrival(s, r, first, 0);
    if Fails(first) { SecondRead(s, t, r, net); }
  }

  lemma {:induction false} SecondRead(s: Server, t: Server, r: Request, net: seq<Delivery>)
    requires Reads(r) && t == Send(s, r, Fate(net, 0)).0 && Data(t) == Data(s)
    ensures var (u, got) := Exchange(t, r, net, 1);
      && Received(r, got) == Told(r, Handle(s, r).1, Fate(net, 1))
      && u == Serve(s, Copies(r, (if Reaches(Fate(net, 0)) then 1 else 0) + if Reaches(Fate(net, 1)) then 1 else 0))
  {
    var (u, wire) := Send(t, r, Fate(net, 1));
    ExchangeStep(t, r, net, 1, u, wire);
    SendTold(t, r, Fate(net, 1));
    ReadsSame(s, t, r);
    Arrival(t, r, Fate(net, 1), 0);
    Arrival(s, r, Fate(net, 0), if Reaches(Fate(net, 1)) then 1 else 0);
  }

  lemma {:induction false} ReadReply(s: Server, r: Request, net: seq<Delivery>)
    requires Reads(r)
    ensures Data(Call(s, r, net).0) == Data(s)
    ensures Call(s, r, net).1.Ok? ==> Call(s, r, net).1 == Handle(s, r).1
  {
    ReadsAreTrue(s, r, net, 0);
  }

  /** One lost exchange, or one server error, is made good by the retry. */
  lemma {:induction false} RetryMasksOneFault(s: Server, r: Request, fault: Delivery)
    requires Reads(r) && (fault.RequestLost? || fault.ResponseLost? || (fault.Replaced? && fault.status >= 500))
    ensures Call(s, r, [fault, Delivered]).1 == Handle(s, r).1
  {
    var t := Send(s, r, fault).0;
    ReadsSame(s, s, r);
    ReadsSame(s, t, r);
    assert Exchange(s, r, [fault, Delivered], 0) == Exchange(t, r, [fault, Delivered], 1);
  }
}
