/** Writes with an idempotency key over a faulty network: any run of calls, with lost
    requests and responses, error statuses, replays by the caller, and requests that reach
    the backend late, when their caller has given up and others have come in between. */
module ExactlyOnce {
  import Text
  import opened Backend
  import opened BackendRuns
  import opened Http

  /** A call of the connector and what the network does to it; or a copy of a request that
      the network brings to the backend by itself: late, or once more. */
  datatype Op = Op(request: Request, net: seq<Delivery>) | Late(request: Request)

  /** The backend after an operation, and what its caller learns. Nobody waits for the
      answer to a late request: it counts as one that never came. */
  function Happen(s: Server, op: Op): (Server, Result<Reply>) {
    match op
    case Op(r, net) => Call(s, r, net)
    case Late(r) => (Handle(s, r).0, Err(Unavailable))
  }

  function RunOps(s: Server, ops: seq<Op>): Server
    decreases |ops|
  {
    if ops == [] then s else RunOps(Happen(s, ops[0]).0, ops[1..])
  }

  /** What the caller of each operation gets. */
  function Outcomes(s: Server, ops: seq<Op>): (r: seq<Result<Reply>>)
    ensures |r| == |ops|
    decreases |ops|
  {
    if ops == [] then []
    else
      var (t, reply) := Happen(s, ops[0]);
      [reply] + Outcomes(t, ops[1..])
  }

  // ---- a run of calls is a run of the backend ----------------------------

  const POST: string := "post_assistant_message"

  /** A write comes to the backend with this operation. */
  predicate Arrives(op: Op) {
    op.Late? || Reaches(Fate(op.net, 0))
  }

  /** The posts that come to the backend. */
  function PostsArrived(ops: seq<Op>): nat {
    if ops == [] then 0 else (if ops[0].request.Post? && Arrives(ops[0]) then 1 else 0) + PostsArrived(ops[1..])
  }

  /** The posts that are called for. */
  function PostsCalled(ops: seq<Op>): nat {
    if ops == [] then 0 else (if ops[0].Op? && ops[0].request.Post? then 1 else 0) + PostsCalled(ops[1..])
  }

  /** The network makes up no posts: what comes late was lost before, and comes once. */
  predicate NothingMadeUp(lost: multiset<Request>, ops: seq<Op>)
    decreases |ops|
  {
    ops == [] ||
    if !ops[0].request.Post? || (ops[0].Op? && Arrives(ops[0])) then NothingMadeUp(lost, ops[1..])
    else if ops[0].Op? then NothingMadeUp(lost + multiset{ops[0].request}, ops[1..])
    else ops[0].request in lost && NothingMadeUp(lost - multiset{ops[0].request}, ops[1..])
  }

  lemma {:induction false} ArrivedWithinCalled(lost: multiset<Request>, ops: seq<Op>)
    requires NothingMadeUp(lost, ops)
    ensures PostsArrived(ops) <= PostsCalled(ops) + |lost|
    decreases |ops|
  {
    if ops != [] {
      if !ops[0].request.Post? || (ops[0].Op? && Arrives(ops[0])) {
        ArrivedWithinCalled(lost, ops[1..]);
      } else if ops[0].Op? {
        ArrivedWithinCalled(lost + multiset{ops[0].request}, ops[1..]);
      } else {
        ArrivedWithinCalled(lost - multiset{ops[0].request}, ops[1..]);
      }
    }
  }

  lemma {:induction false} ServeConcat(s: Server, a: seq<Request>, b: seq<Request>)
    ensures Serve(s, a + b) == Serve(Serve(s, a), b)
    decreases |a|
  {
    if a == [] {
      assert a + b == b;
    } else {
      assert (a + b)[1..] == a[1..] + b;
      ServeConcat(Handle(s, a[0]).0, a[1..], b);
    }
  }

  lemma {:induction false} CallsConcat(a: seq<Request>, b: seq<Request>, name: string)
    ensures Calls(a + b, name) == Calls(a, name) + Calls(b, name)
  {
    if a == [] {
      assert a + b == b;
    } else {
      assert (a + b)[1..] == a[1..] + b;
      CallsConcat(a[1..], b, name);
    }
  }

  lemma {:induction false} CallsCopies(r: Request, n: nat, name: string)
    ensures Calls(Copies(r, n), name) == if Name(r) == name then n else 0
  {
    if n > 0 {
      CallsCopies(r, n - 1, name);
      assert Copies(r, n)[1..] == Copies(r, n - 1);
    }
  }

  lemma {:induction false} OpIsCopies(s: Server, op: Op) returns (n: nat)
    ensures Happen(s, op).0 == Serve(s, Copies(op.request, n))
    ensures op.request.Post? ==> n == if Arrives(op) then 1 else 0
  {
    match op
    case Op(r, net) => n := CallIsCopies(s, r, net, 0);
    case Late(r) => n := 1; ServeCopies(s, r, 1);
  }

  lemma {:induction false} OpsAreRequests(s: Server, ops: seq<Op>) returns (rs: seq<Request>)
    ensures RunOps(s, ops) == Serve(s, rs) && Calls(rs, POST) == PostsArrived(ops)
    decreases |ops|
  {
    rs := [];
    if ops != [] {
      var r := ops[0].request;
      var n := OpIsCopies(s, ops[0]);
      var rest := OpsAreRequests(Happen(s, ops[0]).0, ops[1..]);
      rs := Copies(r, n) + rest;
      ServeConcat(s, Copies(r, n), rest);
      CallsConcat(Copies(r, n), rest, POST);
      CallsCopies(r, n, POST);
      NameOfPost(r);
    }
  }

  lemma {:induction false} NameOfPost(r: Request)
    ensures Name(r) == POST <==> r.Post?
  {
    assert "get_conversation"[0] == 'g' && "get_messages"[0] == 'g' && "handoff"[0] == 'h' && POST[0] == 'p';
  }

  /** The backend handles exactly the posts that come to it; they are no more than the
      calls, unless the network makes posts up. */
  lemma {:induction false} PostsHandled(s: Server, ops: seq<Op>)
    ensures Count(RunOps(s, ops), POST) == Count(s, POST) + PostsArrived(ops)
    ensures NothingMadeUp(multiset{}, ops) ==> PostsArrived(ops) <= PostsCalled(ops)
  {
    var rs := OpsAreRequests(s, ops);
    CallsCounted(s, rs, POST);
    if NothingMadeUp(multiset{}, ops) { ArrivedWithinCalled(multiset{}, ops); }
  }

  lemma {:induction false} OpsGrow(s: Server, ops: seq<Op>)
    requires SameIds(s)
    ensures Grown(s, RunOps(s, ops)) && SameIds(RunOps(s, ops))
  {
    var rs := OpsAreRequests(s, ops);
    RunGrows(s, rs);
  }

  lemma {:induction false} OpGrows(s: Server, op: Op)
    requires SameIds(s)
    ensures Grown(s, Happen(s, op).0) && SameIds(Happen(s, op).0)
  {
    var n := OpIsCopies(s, op);
    RunGrows(s, Copies(op.request, n));
  }

  // ---- which post writes the message of a key ----------------------------

  /** A post with the key that comes to the backend, late or in time, and names a conversation. */
  predicate Applies(conversations: set<string>, op: Op, key: string) {
    op.request.Post? && op.request.idemKey == key && op.request.convId in conversations && Arrives(op)
  }

  /** The first such post of the run, if any. */
  function FirstPost(conversations: set<string>, ops: seq<Op>, key: string): Text.Option<Request> {
    if ops == [] then Text.None
    else if Applies(conversations, ops[0], key) then Text.Some(ops[0].request)
    else FirstPost(conversations, ops[1..], key)
  }

  /** The message of a key is the one this post asked for, in its conversation. */
  ghost predicate Wrote(s: Server, t: Server, key: string, p: Request, i: nat, n: nat) {
    && p.Post? && Added(Writes(s), Writes(t), p.convId, i) && key in t.idempotency
    && t.messages[p.convId][i] == AssistantMessage(n, p.text, p.sentAt, p.convId)
    && t.idempotency[key] == GeneratedId(n)
  }

  lemma {:induction false} WroteStays(s: Server, t: Server, u: Server, key: string, p: Request, i: nat, n: nat)
    requires Wrote(s, t, key, p, i, n) && Grown(t, u)
    ensures Wrote(s, u, key, p, i, n)
  {
    assert t.messages[p.convId] <= u.messages[p.convId];
  }

  /** The step of one operation, as far as one key is concerned. */
  lemma {:induction false} OpOnKey(s: Server, op: Op, key: string)
    requires SameIds(s) && key !in s.idempotency
    ensures var t := Happen(s, op).0;
      if Applies(s.conversations.Keys, op, key) then
        Wrote(s, t, key, op.request, |s.messages[op.request.convId]|, s.nextId)
      else key !in t.idempotency
  {
    if op.Op? && Reads(op.request) {
      ReadReply(s, op.request, op.net);
      assert Data(Happen(s, op).0).idempotency == Data(s).idempotency;
    } else {
      HandledOnKey(s, op.request, key);
      if op.Op? { WriteOutcome(s, op.request, op.net); }
    }
  }

  /** The step of one request that comes to the backend. */
  lemma {:induction false} HandledOnKey(s: Server, r: Request, key: string)
    requires SameIds(s) && key !in s.idempotency
    ensures var t := Handle(s, r).0;
      if r.Post? && r.idemKey == key && r.convId in s.conversations then
        Wrote(s, t, key, r, |s.messages[r.convId]|, s.nextId)
      else key !in t.idempotency
  {
    StepWrites(s, r);
  }

  /** What was added since `t` was added since `s`. */
  lemma {:induction false} WroteSince(s: Server, t: Server, u: Server, key: string, p: Request, i: nat, n: nat)
    requires Grown(s, t) && Wrote(t, u, key, p, i, n)
    ensures Wrote(s, u, key, p, i, n)
  {
    assert p.convId in s.messages && s.messages[p.convId] <= t.messages[p.convId];
  }

  /** After any run the message of a key is that of the first post that applied, and the
      key is unknown when none did: later posts with the key change nothing. */
  lemma {:induction false} FirstPostWins(s: Server, ops: seq<Op>, key: string) returns (i: nat, n: nat)
    requires SameIds(s) && key !in s.idempotency
    ensures var t, first := RunOps(s, ops), FirstPost(s.conversations.Keys, ops, key);
      if first.Some? then Wrote(s, t, key, first.value, i, n) else key !in t.idempotency
    decreases |ops|
  {
    i, n := 0, 0;
    if ops != [] {
      var t := Happen(s, ops[0]).0;
      OpOnKey(s, ops[0], key);
      OpGrows(s, ops[0]);
      if Applies(s.conversations.Keys, ops[0], key) {
        i, n := |s.messages[ops[0].request.convId]|, s.nextId;
        OpsGrow(t, ops[1..]);
        WroteStays(s, t, RunOps(s, ops), key, ops[0].request, i, n);
      } else {
        i, n := FirstPostWins(t, ops[1..], key);
        if FirstPost(s.conversations.Keys, ops, key).Some? {
          WroteSince(s, t, RunOps(s, ops), key, FirstPost(s.conversations.Keys, ops, key).value, i, n);
        }
      }
    }
  }

  // ---- exactly once ------------------------------------------------------

  /** The one appended message with an id, in all conversations, is at this position. */
  ghost predicate OnlyAt(s: Server, t: Server, id: string, c: string, i: nat) {
    && Added(Writes(s), Writes(t), c, i) && t.messages[c][i].id == id
    && forall d: string, j: nat | Added(Writes(s), Writes(t), d, j) && t.messages[d][j].id == id :: d == c && j == i
  }

  /** Over any run each key appends at most one message: exactly one, the one its first
      applied post asked for, if a post with the key applied, and none otherwise. */
  lemma {:induction false} AtMostOneMessage(s: Server, ops: seq<Op>, key: string) returns (i: nat)
    requires Loaded(s)
    ensures var t, first := RunOps(s, ops), FirstPost(s.conversations.Keys, ops, key);
      if first.Some? then
        && first.value.Post? && key in t.idempotency && OnlyAt(s, t, t.idempotency[key], first.value.convId, i)
        && t.messages[first.value.convId][i].text == first.value.text
      else key !in t.idempotency
  {
    var t := RunOps(s, ops);
    var rs := OpsAreRequests(s, ops);
    KeysAndMessages(s, rs);
    var n;
    i, n := FirstPostWins(s, ops, key);
    var first := FirstPost(s.conversations.Keys, ops, key);
    if first.Some? {
      Unique(Writes(s), Writes(t), first.value.convId, i);
      assert forall d: string, j: nat | Added(Writes(s), Writes(t), d, j) ::
        t.messages[d][j] == Writes(t).messages[d][j];
    }
  }

  lemma {:induction false} Unique(s: Written, t: Written, c: string, i: nat)
    requires OneEach(s, t) && Added(s, t, c, i)
    ensures forall d: string, j: nat | Added(s, t, d, j) && t.messages[d][j].id == t.messages[c][i].id ::
      d == c && j == i
  {
    forall d: string, j: nat | Added(s, t, d, j) && t.messages[d][j].id == t.messages[c][i].id
      ensures d == c && j == i
    {
      assert SameId(t, d, j, c, i);
    }
  }

  /** Every message the run appended belongs to a key that some post of the run applied. */
  lemma {:induction false} NoStrayMessage(s: Server, ops: seq<Op>, c: string, i: nat) returns (key: string)
    requires Loaded(s) && Added(Writes(s), Writes(RunOps(s, ops)), c, i)
    ensures var t := RunOps(s, ops);
      && FirstPost(s.conversations.Keys, ops, key).Some? && key in t.idempotency
      && t.messages[c][i].id == t.idempotency[key]
  {
    var t := RunOps(s, ops);
    var rs := OpsAreRequests(s, ops);
    KeysAndMessages(s, rs);
    assert HasKey(Writes(t), c, i);
    key :| KeyAt(Writes(t), key, c, i);
    var j, n := FirstPostWins(s, ops, key);
  }

  /** A successful reply to a post carries the id of its key. */
  lemma {:induction false} ReplyIsKeyId(s: Server, ops: seq<Op>, k: nat)
    requires SameIds(s) && k < |ops| && ops[k].request.Post? && Outcomes(s, ops)[k].Ok?
    ensures var t, key := RunOps(s, ops), ops[k].request.idemKey;
      key in t.idempotency && Outcomes(s, ops)[k] == Ok(NewId(t.idempotency[key]))
    decreases |ops|
  {
    var t := Happen(s, ops[0]).0;
    OpGrows(s, ops[0]);
    OutcomeStep(s, ops, k);
    if k == 0 {
      OpsGrow(t, ops[1..]);
      PostReply(s, ops[0]);
    } else {
      ReplyIsKeyId(t, ops[1..], k - 1);
    }
  }

  lemma {:induction false} OutcomeStep(s: Server, ops: seq<Op>, k: nat)
    requires k < |ops|
    ensures var (t, reply) := Happen(s, ops[0]);
      && RunOps(s, ops) == RunOps(t, ops[1..])
      && Outcomes(s, ops)[k] == if k == 0 then reply else Outcomes(t, ops[1..])[k - 1]
  {
  }

  lemma {:induction false} PostReply(s: Server, op: Op)
    requires op.request.Post? && Happen(s, op).1.Ok?
    ensures var (t, reply) := Happen(s, op);
      op.request.idemKey in t.idempotency && reply == Ok(NewId(t.idempotency[op.request.idemKey]))
  {
    WriteOutcome(s, op.request, op.net);
  }

  /** All successful replies for a key carry the same id. */
  lemma {:induction false} RepliesAgree(s: Server, ops: seq<Op>, j: nat, k: nat)
    requires SameIds(s) && j < |ops| && k < |ops| && ops[j].request.Post? && ops[k].request.Post?
    requires ops[j].request.idemKey == ops[k].request.idemKey
    requires Outcomes(s, ops)[j].Ok? && Outcomes(s, ops)[k].Ok?
    ensures Outcomes(s, ops)[j] == Outcomes(s, ops)[k]
  {
    ReplyIsKeyId(s, ops, j);
    ReplyIsKeyId(s, ops, k);
  }

  /** A successful reply means that the message is there, exactly once. */
  lemma {:induction false} SuccessMeansStored(s: Server, ops: seq<Op>, k: nat) returns (c: string, i: nat)
    requires Loaded(s) && k < |ops| && ops[k].request.Post? && Outcomes(s, ops)[k].Ok?
    ensures Outcomes(s, ops)[k].value.NewId? && OnlyAt(s, RunOps(s, ops), Outcomes(s, ops)[k].value.id, c, i)
  {
    ReplyIsKeyId(s, ops, k);
    var key := ops[k].request.idemKey;
    i := AtMostOneMessage(s, ops, key);
    c := FirstPost(s.conversations.Keys, ops, key).value.convId;
  }

  /** Keys are global, not per conversation: a successful reply names a message of the
      caller's own conversation exactly when the first applied post with the key went to
      that conversation. */
  lemma {:induction false} OwnConversationIff(s: Server, ops: seq<Op>, k: nat)
    requires Loaded(s) && k < |ops| && ops[k].request.Post? && Outcomes(s, ops)[k].Ok?
    ensures var t, p := RunOps(s, ops), ops[k].request;
      var first := FirstPost(s.conversations.Keys, ops, p.idemKey);
      && first.Some? && first.value.Post? && Outcomes(s, ops)[k].value.NewId?
      && ((exists i: nat :: HasIdAt(s, t, Outcomes(s, ops)[k].value.id, p.convId, i))
           <==> first.value.convId == p.convId)
  {
    ReplyIsKeyId(s, ops, k);
    var i := AtMostOneMessage(s, ops, ops[k].request.idemKey);
    var t, id := RunOps(s, ops), Outcomes(s, ops)[k].value.id;
    var c := FirstPost(s.conversations.Keys, ops, ops[k].request.idemKey).value.convId;
    assert HasIdAt(s, t, id, c, i);
  }

  ghost predicate HasIdAt(s: Server, t: Server, id: string, c: string, i: nat) {
    Added(Writes(s), Writes(t), c, i) && t.messages[c][i].id == id
  }

  lemma {:induction false} TwoOps(s: Server, a: Op, b: Op)
    ensures var t := Happen(s, a).0;
      RunOps(s, [a, b]) == Happen(t, b).0 && Outcomes(s, [a, b])[1] == Happen(t, b).1
  {
    assert [a, b][1..] == [b] && [b][1..] == [];
    var t := Happen(s, a).0;
    assert RunOps(t, [b]) == RunOps(Happen(t, b).0, []);
  }

  /** A key used in one conversation and again in another appends nothing there, and the
      second caller gets the id of the message of the first. */
  lemma {:induction false} KeysAreGlobal(s: Server, c: string, d: string, key: string, mine: string, yours: string,
          now: int)
    requires Loaded(s) && c in s.conversations && d in s.conversations && c != d
    ensures var ops := [Op(Post(c, mine, key, now), [Delivered]), Op(Post(d, yours, key, now), [Delivered])];
      && Outcomes(s, ops)[1] == Ok(NewId(GeneratedId(1)))
      && MessagesOf(RunOps(s, ops), d) == MessagesOf(s, d) && |MessagesOf(RunOps(s, ops), c)| == |MessagesOf(s, c)| + 1
  {
    var a, b := Op(Post(c, mine, key, now), [Delivered]), Op(Post(d, yours, key, now), [Delivered]);
    var t := Happen(s, a).0;
    TwoOps(s, a, b);
    WriteOutcome(s, a.request, a.net);
    WriteOutcome(t, b.request, b.net);
  }
}
