/** What any run of requests keeps in the in-memory backend. */
module BackendRuns {
  import Text
  import opened Backend

  // ---- growth ------------------------------------------------------------

  ghost predicate SameIds(s: Server) { s.conversations.Keys == s.messages.Keys }

  /** Only `handled_by` has changed, and not from staff to assistant. */
  predicate SameButStaff(a: Conversation, b: Conversation) {
    b == a || b == a.(handledBy := Staff)
  }

  /** The backend `t` comes from `s`: the same conversations, longer message lists, more
      keys, and no conversation handed back to the assistant. */
  ghost predicate Grown(s: Server, t: Server) {
    && t.conversations.Keys == s.conversations.Keys && t.messages.Keys == s.messages.Keys
    && (forall c | c in s.messages :: s.messages[c] <= t.messages[c])
    && (forall c | c in s.conversations :: SameButStaff(s.conversations[c], t.conversations[c]))
    && (forall k | k in s.idempotency :: k in t.idempotency && t.idempotency[k] == s.idempotency[k])
    && s.nextId <= t.nextId && s.handoffs <= t.handoffs
  }

  lemma {:induction false} StepGrows(s: Server, r: Request)
    requires SameIds(s)
    ensures Grown(s, Handle(s, r).0)
  {
    match r
    case Post(c, text, k, sentAt) =>
      if c in s.conversations && k !in s.idempotency { PostGrows(s, c, text, k, sentAt); }
    case _ =>
  }

  lemma {:induction false} PostGrows(s: Server, c: string, text: string, k: string, sentAt: int)
    requires SameIds(s) && c in s.conversations && k !in s.idempotency
    ensures Grown(s, Handle(s, Post(c, text, k, sentAt)).0)
  {
  }

  lemma {:induction false} GrownTrans(s: Server, t: Server, u: Server)
    requires Grown(s, t) && Grown(t, u)
    ensures Grown(s, u)
  {
    forall c | c in s.conversations ensures SameButStaff(s.conversations[c], u.conversations[c]) {
      assert SameButStaff(t.conversations[c], u.conversations[c]);
    }
  }

  /** Over any run message lists only grow at the end, conversations and lists keep the
      same ids, and a conversation handed to staff stays with staff. */
  lemma {:induction false} RunGrows(s: Server, rs: seq<Request>)
    requires SameIds(s)
    ensures Grown(s, Serve(s, rs)) && SameIds(Serve(s, rs))
    decreases |rs|
  {
    if rs != [] {
      StepGrows(s, rs[0]);
      RunGrows(Handle(s, rs[0]).0, rs[1..]);
      GrownTrans(s, Handle(s, rs[0]).0, Serve(s, rs));
    }
  }

  // ---- counts ------------------------------------------------------------

  function Calls(rs: seq<Request>, name: string): nat {
    if rs == [] then 0 else (if Name(rs[0]) == name then 1 else 0) + Calls(rs[1..], name)
  }

  lemma {:induction false} StepCounted(s: Server, r: Request, name: string)
    ensures Count(Handle(s, r).0, name) == Count(s, name) + if Name(r) == name then 1 else 0
  {
  }

  /** The count of an operation is the number of its calls, the failed ones included. */
  lemma {:induction false} CallsCounted(s: Server, rs: seq<Request>, name: string)
    ensures Count(Serve(s, rs), name) == Count(s, name) + Calls(rs, name)
    decreases |rs|
  {
    if rs != [] {
      StepCounted(s, rs[0], name);
      CallsCounted(Handle(s, rs[0]).0, rs[1..], name);
    }
  }

  // ---- appended messages and idempotency keys ----------------------------

  /** The part of the backend that posts write. */
  datatype Written = Written(messages: map<string, seq<Message>>, idempotency: map<string, string>, nextId: nat)

  function Writes(s: Server): Written {
    Written(s.messages, s.idempotency, s.nextId)
  }

  /** Position `i` of conversation `c` was appended since `s`. */
  ghost predicate Added(s: Written, t: Written, c: string, i: nat) {
    c in s.messages && c in t.messages && |s.messages[c]| <= i < |t.messages[c]|
  }

  ghost predicate IdIs(t: Written, id: string, n: nat) {
    1 <= n < t.nextId && id == GeneratedId(n)
  }

  /** The message at the position was written by a post with key `k`. */
  ghost predicate KeyAt(t: Written, k: string, c: string, i: nat) {
    k in t.idempotency && c in t.messages && i < |t.messages[c]| && t.messages[c][i].id == t.idempotency[k]
  }

  ghost predicate HasNumber(t: Written, k: string) {
    k in t.idempotency && exists n: nat :: IdIs(t, t.idempotency[k], n)
  }

  ghost predicate HasMessage(s: Written, t: Written, k: string) {
    exists c: string, i: nat :: Added(s, t, c, i) && KeyAt(t, k, c, i)
  }

  ghost predicate HasKey(t: Written, c: string, i: nat) {
    exists k: string :: KeyAt(t, k, c, i)
  }

  ghost predicate SameId(t: Written, c: string, i: nat, d: string, j: nat) {
    && c in t.messages && i < |t.messages[c]| && d in t.messages && j < |t.messages[d]|
    && t.messages[c][i].id == t.messages[d][j].id
  }

  ghost predicate SameKeyId(t: Written, k: string, l: string) {
    k in t.idempotency && l in t.idempotency && t.idempotency[k] == t.idempotency[l]
  }

  /** Every key has one appended message, with a generated id, and every appended message
      has one key; ids of appended messages are pairwise distinct. */
  ghost predicate OneEach(s: Written, t: Written) {
    && t.nextId >= 1
    && (forall k | k in t.idempotency :: HasNumber(t, k) && HasMessage(s, t, k))
    && (forall c: string, i: nat | Added(s, t, c, i) :: HasKey(t, c, i))
    && (forall k, l | SameKeyId(t, k, l) :: k == l)
    && (forall c: string, i: nat, d: string, j: nat | Added(s, t, c, i) && Added(s, t, d, j) && SameId(t, c, i, d, j) ::
          c == d && i == j)
  }

  /** `u` is `t` after a post that appended. */
  ghost predicate AppendedTo(t: Written, u: Written, c: string, k: string, m: Message) {
    && c in t.messages && k !in t.idempotency && m.id == GeneratedId(t.nextId)
    && u == Written(t.messages[c := t.messages[c] + [m]], t.idempotency[k := m.id], t.nextId + 1)
  }

  /** A request appends when it is a post with a new key to a conversation that exists. */
  predicate Appends(t: Server, r: Request) {
    r.Post? && r.convId in t.conversations && r.idemKey !in t.idempotency
  }

  lemma {:induction false} StepWrites(t: Server, r: Request)
    requires SameIds(t)
    ensures var u := Handle(t, r).0;
      if Appends(t, r) then
        AppendedTo(Writes(t), Writes(u), r.convId, r.idemKey, AssistantMessage(t.nextId, r.text, r.sentAt, r.convId))
      else Writes(u) == Writes(t)
  {
  }

  lemma {:induction false} NewIdIsNew(t: Written, id: string, n: nat)
    requires IdIs(t, id, n)
    ensures id != GeneratedId(t.nextId)
  {
    if id == GeneratedId(t.nextId) {
      assert GeneratedId(n)[|"m_fake_"|..] == Text.Decimal(n)
          && GeneratedId(t.nextId)[|"m_fake_"|..] == Text.Decimal(t.nextId);
      Text.DecimalInjective(n, t.nextId);
    }
  }

  lemma {:induction false} OldKeysDiffer(s: Written, t: Written, k: string)
    requires OneEach(s, t) && k in t.idempotency
    ensures t.idempotency[k] != GeneratedId(t.nextId)
  {
    assert HasNumber(t, k);
    var n: nat :| IdIs(t, t.idempotency[k], n);
    NewIdIsNew(t, t.idempotency[k], n);
  }

  lemma {:induction false} OldMessagesDiffer(s: Written, t: Written, c: string, i: nat)
    requires OneEach(s, t) && Added(s, t, c, i)
    ensures t.messages[c][i].id != GeneratedId(t.nextId)
  {
    assert HasKey(t, c, i);
    var k: string :| KeyAt(t, k, c, i);
    OldKeysDiffer(s, t, k);
  }

  lemma {:induction false} NumberStays(t: Written, u: Written, c: string, k: string, m: Message, l: string)
    requires AppendedTo(t, u, c, k, m) && t.nextId >= 1 && (l == k || HasNumber(t, l))
    ensures HasNumber(u, l)
  {
    if l == k {
      assert IdIs(u, u.idempotency[k], t.nextId);
    } else {
      var n: nat :| IdIs(t, t.idempotency[l], n);
      assert IdIs(u, u.idempotency[l], n);
    }
  }

  lemma {:induction false} MessageStays(s: Written, t: Written, u: Written, c: string, k: string, m: Message, l: string)
    requires AppendedTo(t, u, c, k, m) && c in s.messages && s.messages[c] <= t.messages[c]
        && (l == k || HasMessage(s, t, l))
    ensures HasMessage(s, u, l)
  {
    if l == k {
      assert Added(s, u, c, |t.messages[c]|) && KeyAt(u, k, c, |t.messages[c]|);
    } else {
      var d: string, i: nat :| Added(s, t, d, i) && KeyAt(t, l, d, i);
      assert Added(s, u, d, i) && KeyAt(u, l, d, i);
    }
  }

  /** A position of `u` is a position of `t`, or the new one. */
  lemma {:induction false} OldPosition(s: Written, t: Written, u: Written, c: string, k: string, m: Message,
          d: string, i: nat)
    requires AppendedTo(t, u, c, k, m) && Added(s, u, d, i)
    ensures if d == c && i == |t.messages[c]| then u.messages[d][i] == m
            else Added(s, t, d, i) && u.messages[d][i] == t.messages[d][i]
  {
  }

  lemma {:induction false} PositionHasKey(s: Written, t: Written, u: Written, c: string, k: string, m: Message,
          d: string, i: nat)
    requires AppendedTo(t, u, c, k, m) && Added(s, u, d, i) && (Added(s, t, d, i) ==> HasKey(t, d, i))
    ensures HasKey(u, d, i)
  {
    OldPosition(s, t, u, c, k, m, d, i);
    if d == c && i == |t.messages[c]| {
      assert KeyAt(u, k, d, i);
    } else {
      var l: string :| KeyAt(t, l, d, i);
      assert KeyAt(u, l, d, i);
    }
  }

  lemma {:induction false} PositionsDiffer(s: Written, t: Written, u: Written, c: string, k: string, m: Message,
          d: string, i: nat, e: string, j: nat)
    requires OneEach(s, t) && AppendedTo(t, u, c, k, m) && Added(s, u, d, i) && Added(s, u, e, j)
        && SameId(u, d, i, e, j)
    ensures d == e && i == j
  {
    OldPosition(s, t, u, c, k, m, d, i);
    OldPosition(s, t, u, c, k, m, e, j);
    if Added(s, t, d, i) { OldMessagesDiffer(s, t, d, i); }
    if Added(s, t, e, j) { OldMessagesDiffer(s, t, e, j); }
    assert Added(s, t, d, i) && Added(s, t, e, j) ==> SameId(t, d, i, e, j);
  }

  lemma {:induction false} KeysDiffer(s: Written, t: Written, u: Written, c: string, k: string, m: Message,
          l: string, l': string)
    requires OneEach(s, t) && AppendedTo(t, u, c, k, m) && SameKeyId(u, l, l')
    ensures l == l'
  {
    if l != k { OldKeysDiffer(s, t, l); }
    if l' != k { OldKeysDiffer(s, t, l'); }
    assert l != k && l' != k ==> SameKeyId(t, l, l');
  }

  lemma {:induction false} AppendKeepsOneEach(s: Written, t: Written, u: Written, c: string, k: string, m: Message)
    requires OneEach(s, t) && AppendedTo(t, u, c, k, m) && c in s.messages && s.messages[c] <= t.messages[c]
    ensures OneEach(s, u)
  {
    forall l | l in u.idempotency ensures HasNumber(u, l) && HasMessage(s, u, l) {
      assert l != k ==> HasNumber(t, l) && HasMessage(s, t, l);
      NumberStays(t, u, c, k, m, l);
      MessageStays(s, t, u, c, k, m, l);
    }
    forall d: string, i: nat | Added(s, u, d, i) ensures HasKey(u, d, i) {
      assert Added(s, t, d, i) ==> HasKey(t, d, i);
      PositionHasKey(s, t, u, c, k, m, d, i);
    }
    forall l, l' | SameKeyId(u, l, l') ensures l == l' { KeysDiffer(s, t, u, c, k, m, l, l'); }
    forall d: string, i: nat, e: string, j: nat | Added(s, u, d, i) && Added(s, u, e, j) && SameId(u, d, i, e, j)
      ensures d == e && i == j
    {
      PositionsDiffer(s, t, u, c, k, m, d, i, e, j);
    }
  }

  lemma {:induction false} StepOneEach(s: Server, t: Server, r: Request)
    requires SameIds(t) && Grown(s, t) && OneEach(Writes(s), Writes(t))
    ensures OneEach(Writes(s), Writes(Handle(t, r).0))
  {
    StepWrites(t, r);
    if Appends(t, r) {
      AppendKeepsOneEach(Writes(s), Writes(t), Writes(Handle(t, r).0), r.convId, r.idemKey,
                         AssistantMessage(t.nextId, r.text, r.sentAt, r.convId));
    }
  }

  lemma {:induction false} RunOneEach(s: Server, t: Server, rs: seq<Request>)
    requires SameIds(t) && Grown(s, t) && OneEach(Writes(s), Writes(t))
    ensures OneEach(Writes(s), Writes(Serve(t, rs)))
    decreases |rs|
  {
    if rs != [] {
      var u := Handle(t, rs[0]).0;
      StepOneEach(s, t, rs[0]);
      StepGrows(t, rs[0]);
      GrownTrans(s, t, u);
      RunOneEach(s, u, rs[1..]);
    }
  }

  /** Over any run from a loaded backend, idempotency keys and appended messages are one
      to one, and generated ids are pairwise distinct. */
  lemma {:induction false} KeysAndMessages(s: Server, rs: seq<Request>)
    requires Loaded(s)
    ensures OneEach(Writes(s), Writes(Serve(s, rs)))
  {
    RunOneEach(s, s, rs);
  }
}
