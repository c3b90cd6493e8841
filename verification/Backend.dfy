/** The in-memory backend: conversations, message lists, and idempotent writes. */
module Backend {
  import opened Text

  datatype HandledBy = Assistant | Staff

  datatype AuthorKind = ByUser | ByStaff | ByAssistant | BySystem

  datatype Conversation = Conversation(
    id: string, ownerId: string, status: string, handledBy: HandledBy, departmentId: Option<string>,
    staffId: Option<string>, title: Option<string>, createdAt: Option<int>, updatedAt: Option<int>)

  datatype Message = Message(
    id: string, authorKind: AuthorKind, text: string, sentAt: Option<int>, authorId: Option<string>,
    conversationId: Option<string>, hasAttachment: bool)

  datatype Actor = Actor(userId: string, role: string)

  datatype Error = NotFound | Unavailable | BadReply

  datatype Result<T> = Ok(value: T) | Err(error: Error)

  datatype Request =
    | GetConversation(convId: string, actor: Actor)
    | GetMessages(convId: string, actor: Actor, limit: int)
    | Post(convId: string, text: string, idemKey: string, sentAt: int)
    | Handoff(convId: string, reason: string)

  datatype Reply =
    | OneConversation(conversation: Conversation)
    | Messages(messages: seq<Message>)
    | NewId(id: string)
    | Done

  datatype Server = Server(
    conversations: map<string, Conversation>, messages: map<string, seq<Message>>, idempotency: map<string, string>,
    nextId: nat, handoffs: seq<(string, string)>, counts: map<string, nat>)

  function Name(r: Request): string {
    match r
    case GetConversation(_, _) => "get_conversation"
    case GetMessages(_, _, _) => "get_messages"
    case Post(_, _, _, _) => "post_assistant_message"
    case Handoff(_, _) => "handoff"
  }

  function Count(s: Server, name: string): nat {
    if name in s.counts then s.counts[name] else 0
  }

  function Recorded(s: Server, name: string): Server {
    s.(counts := s.counts[name := Count(s, name) + 1])
  }

  predicate IsStaffSide(actor: Actor) {
    actor.role in {"staff", "admin", "service"}
  }

  predicate MaySee(conversation: Conversation, actor: Actor) {
    IsStaffSide(actor) || conversation.ownerId == actor.userId
  }

  /** `_visible`: a conversation the actor may not see is not found. */
  function Visible(s: Server, convId: string, actor: Actor): Result<Conversation> {
    if convId in s.conversations && MaySee(s.conversations[convId], actor) then Ok(s.conversations[convId])
    else Err(NotFound)
  }

  function MessagesOf(s: Server, convId: string): seq<Message> {
    if convId in s.messages then s.messages[convId] else []
  }

  /** `messages[-limit:] if limit > 0 else []`. */
  function LastOf(messages: seq<Message>, limit: int): seq<Message> {
    if limit <= 0 then [] else if limit >= |messages| then messages else messages[|messages| - limit..]
  }

  function GeneratedId(n: nat): string { "m_fake_" + Decimal(n) }

  function AssistantMessage(n: nat, text: string, sentAt: int, convId: string): Message {
    Message(GeneratedId(n), ByAssistant, text, Some(sentAt), None, Some(convId), false)
  }

  function Posted(s: Server, convId: string, text: string, idemKey: string, sentAt: int): (Server, Result<Reply>) {
    if convId !in s.conversations then (s, Err(NotFound))
    else if idemKey in s.idempotency then (s, Ok(NewId(s.idempotency[idemKey])))
    else
      var message := AssistantMessage(s.nextId, text, sentAt, convId);
      (s.(messages := s.messages[convId := MessagesOf(s, convId) + [message]],
          idempotency := s.idempotency[idemKey := message.id], nextId := s.nextId + 1),
       Ok(NewId(message.id)))
  }

  function HandedOff(s: Server, convId: string, reason: string): (Server, Result<Reply>) {
    if convId !in s.conversations then (s, Err(NotFound))
    else
      (s.(conversations := s.conversations[convId := s.conversations[convId].(handledBy := Staff)],
          handoffs := s.handoffs + [(convId, reason)]),
       Ok(Done))
  }

  /** What the backend does with a request: the call is counted first. */
  function Handle(server: Server, r: Request): (Server, Result<Reply>) {
    var s := Recorded(server, Name(r));
    match r
    case GetConversation(convId, actor) =>
      var seen := Visible(s, convId, actor);
      (s, if seen.Ok? then Ok(OneConversation(seen.value)) else Err(seen.error))
    case GetMessages(convId, actor, limit) =>
      var seen := Visible(s, convId, actor);
      (s, if seen.Ok? then Ok(Messages(LastOf(MessagesOf(s, convId), limit))) else Err(seen.error))
    case Post(convId, text, idemKey, sentAt) => Posted(s, convId, text, idemKey, sentAt)
    case Handoff(convId, reason) => HandedOff(s, convId, reason)
  }

  function Serve(s: Server, rs: seq<Request>): Server
    decreases |rs|
  {
    if rs == [] then s else Serve(Handle(s, rs[0]).0, rs[1..])
  }

  /** A backend as the fixtures leave it. */
  ghost predicate Loaded(s: Server) {
    && s.conversations.Keys == s.messages.Keys && s.idempotency == map[]
    && s.nextId == 1 && s.handoffs == [] && s.counts == map[]
  }

  // ---- the object --------------------------------------------------------

  class FakeMainBackend {
    var conversations: map<string, Conversation>
    var messages: map<string, seq<Message>>
    var idempotency: map<string, string>
    var nextId: nat
    var handoffs: seq<(string, string)>
    var counts: map<string, nat>

    ghost function View(): Server
      reads this
    {
      Server(conversations, messages, idempotency, nextId, handoffs, counts)
    }

    constructor (loaded: map<string, (Conversation, seq<Message>)>)
      ensures Loaded(View()) && conversations.Keys == loaded.Keys
      ensures forall id | id in loaded :: conversations[id] == loaded[id].0 && messages[id] == loaded[id].1
    {
      conversations := map id | id in loaded :: loaded[id].0;
      messages := map id | id in loaded :: loaded[id].1;
      idempotency, nextId, handoffs, counts := map[], 1, [], map[];
    }

    method Record(name: string)
      modifies this`counts
      ensures View() == Recorded(old(View()), name)
    {
      counts := counts[name := (if name in counts then counts[name] else 0) + 1];
    }

    method SetHandledBy(convId: string, handledBy: HandledBy)
      requires convId in conversations
      modifies this`conversations
      ensures conversations == old(conversations)[convId := old(conversations)[convId].(handledBy := handledBy)]
    {
      var c := conversations[convId];
      var moved := Conversation(c.id, c.ownerId, c.status, handledBy, c.departmentId, c.staffId,
                                c.title, c.createdAt, c.updatedAt);
      conversations := conversations[convId := moved];
    }

    method VisibleTo(convId: string, actor: Actor) returns (r: Result<Conversation>)
      ensures r == Visible(View(), convId, actor)
      ensures r.Ok? <==>
        && convId in conversations
        && (actor.role in {"staff", "admin", "service"} || conversations[convId].ownerId == actor.userId)
      ensures r == if r.Ok? then Ok(conversations[convId]) else Err(NotFound)
    {
      if convId !in conversations { return Err(NotFound); }
      var conv := conversations[convId];
      if !IsStaffSide(actor) && conv.ownerId != actor.userId { return Err(NotFound); }
      r := Ok(conv);
    }

    method GetConversation(convId: string, actor: Actor) returns (r: Result<Reply>)
      modifies this`counts
      ensures (View(), r) == Handle(old(View()), Request.GetConversation(convId, actor))
    {
      Record("get_conversation");
      var seen := VisibleTo(convId, actor);
      r := if seen.Ok? then Ok(OneConversation(seen.value)) else Err(seen.error);
    }

    method GetMessages(convId: string, actor: Actor, limit: int) returns (r: Result<Reply>)
      modifies this`counts
      ensures (View(), r) == Handle(old(View()), Request.GetMessages(convId, actor, limit))
    {
      Record("get_messages");
      var seen := VisibleTo(convId, actor);
      if seen.Err? { return Err(seen.error); }
      var found := if convId in messages then messages[convId] else [];
      r := Ok(Messages(LastOf(found, limit)));
    }

    method PostAssistantMessage(convId: string, text: string, idemKey: string, now: int) returns (r: Result<Reply>)
      modifies this
      ensures (View(), r) == Handle(old(View()), Request.Post(convId, text, idemKey, now))
    {
      Record("post_assistant_message");
      if convId !in conversations { return Err(NotFound); }
      if idemKey in idempotency { return Ok(NewId(idempotency[idemKey])); }
      var message := Message("m_fake_" + Decimal(nextId), ByAssistant, text, Some(now), None, Some(convId), false);
      nextId := nextId + 1;
      messages := messages[convId := (if convId in messages then messages[convId] else []) + [message]];
      idempotency := idempotency[idemKey := message.id];
      r := Ok(NewId(message.id));
    }

    method Handoff(convId: string, reason: string) returns (r: Result<Reply>)
      modifies this
      ensures (View(), r) == Handle(old(View()), Request.Handoff(convId, reason))
    {
      Record("handoff");
      if convId !in conversations { return Err(NotFound); }
      SetHandledBy(convId, Staff);
      handoffs := handoffs + [(convId, reason)];
      r := Ok(Done);
    }

    /** A request that has come in over the wire. */
    method Dispatch(request: Request) returns (r: Result<Reply>)
      modifies this
      ensures (View(), r) == Handle(old(View()), request)
    {
      match request
      case GetConversation(convId, actor) => r := GetConversation(convId, actor);
      case GetMessages(convId, actor, limit) => r := GetMessages(convId, actor, limit);
      case Post(convId, text, idemKey, now) => r := PostAssistantMessage(convId, text, idemKey, now);
      case Handoff(convId, reason) => r := Handoff(convId, reason);
    }
  }

  // ---- one request -------------------------------------------------------

  /** A successful read returns the last min(limit, length) messages. */
  lemma {:induction false} LastMessages(s: Server, convId: string, actor: Actor, limit: int)
    requires Handle(s, Request.GetMessages(convId, actor, limit)).1.Ok?
    ensures var all := MessagesOf(s, convId);
      var got := Handle(s, Request.GetMessages(convId, actor, limit)).1.value.messages;
      && |got| == (if limit <= 0 then 0 else if limit < |all| then limit else |all|)
      && got == all[|all| - |got|..]
      && convId in s.conversations && MaySee(s.conversations[convId], actor)
  {
  }

  /** Staff, admins and services may read every conversation, anybody else exactly their
      own; what may not be read is not found, whether it exists or not. */
  lemma {:induction false} ReadAllowedIff(s: Server, convId: string, actor: Actor, limit: int)
    ensures var may := convId in s.conversations
        && (actor.role in {"staff", "admin", "service"} || s.conversations[convId].ownerId == actor.userId);
      var one := Handle(s, Request.GetConversation(convId, actor)).1;
      var all := Handle(s, Request.GetMessages(convId, actor, limit)).1;
      && (one == if may then Ok(OneConversation(s.conversations[convId])) else Err(NotFound))
      && (if may then all.Ok? && all.value.Messages? else all == Err(NotFound))
  {
  }

  predicate Reads(r: Request) { r.GetConversation? || r.GetMessages? }

  /** The backend without the conversations this actor may not see. */
  function Hidden(s: Server, actor: Actor): Server {
    s.(conversations := map id | id in s.conversations && MaySee(s.conversations[id], actor) :: s.conversations[id])
  }

  /** Existence does not leak: to an actor a hidden conversation answers as a missing one. */
  lemma {:induction false} HiddenIsMissing(s: Server, r: Request)
    requires Reads(r)
    ensures Handle(s, r).1 == Handle(Hidden(s, r.actor), r).1
  {
  }

  /** Posting never asks who handles the conversation: whatever `handled_by` is, the
      reply, the messages and the keys are the same. */
  lemma {:induction false} PostIgnoresHandledBy(s: Server, convId: string, text: string, idemKey: string, now: int,
          by_: HandledBy)
    requires convId in s.conversations
    ensures var r := Post(convId, text, idemKey, now);
      var other := s.(conversations := s.conversations[convId := s.conversations[convId].(handledBy := by_)]);
      && Handle(s, r).1 == Handle(other, r).1 && Handle(s, r).0.messages == Handle(other, r).0.messages
      && Handle(s, r).0.idempotency == Handle(other, r).0.idempotency
  {
  }

  /** A handoff succeeds exactly when the conversation exists; then staff handle it, the
      handoff is on record, and everything else is as it was. */
  lemma {:induction false} HandoffEffect(s: Server, convId: string, reason: string)
    ensures var (t, reply) := Handle(s, Handoff(convId, reason));
      && (reply == if convId in s.conversations then Ok(Done) else Err(NotFound))
      && t.messages == s.messages && t.idempotency == s.idempotency && t.nextId == s.nextId
      && t.handoffs == s.handoffs + (if convId in s.conversations then [(convId, reason)] else [])
      && t.conversations.Keys == s.conversations.Keys
      && forall c | c in s.conversations ::
           if c == convId then t.conversations[c] == s.conversations[c].(handledBy := Staff)
           else t.conversations[c] == s.conversations[c]
  {
  }

  /** A post to a conversation that does not exist is not found, whatever its key; a known
      key answers with its id; neither writes anything. */
  lemma {:induction false} PostRepeats(s: Server, r: Request)
    requires r.Post? && (r.convId !in s.conversations || r.idemKey in s.idempotency)
    ensures var (t, reply) := Handle(s, r);
      && t == s.(counts := t.counts)
      && reply == if r.convId !in s.conversations then Err(NotFound) else Ok(NewId(s.idempotency[r.idemKey]))
  {
  }

  /** A post that appends writes one message of the assistant, with the text it was given,
      at the end of its own conversation, and answers with its id. */
  lemma {:induction false} PostWrites(s: Server, r: Request)
    requires r.Post? && r.convId in s.conversations && r.idemKey !in s.idempotency
    ensures var (t, reply) := Handle(s, r);
      var old_, new_ := MessagesOf(s, r.convId), MessagesOf(t, r.convId);
      && |new_| == |old_| + 1 && new_[..|old_|] == old_
      && var m := new_[|old_|];
         && m.authorKind == ByAssistant && m.authorId == None && m.text == r.text && m.sentAt == Some(r.sentAt)
         && m.conversationId == Some(r.convId) && !m.hasAttachment
         && m.id == "m_fake_" + Decimal(s.nextId) && reply == Ok(NewId(m.id))
  {
  }

  /** A request appends a message to its conversation. */
  ghost predicate AppendsMessage(s: Server, r: Request) {
    |MessagesOf(Handle(s, r).0, r.convId)| > |MessagesOf(s, r.convId)|
  }

  /** A request does not write into a conversation that staff handle. */
  ghost predicate RespectsStaff(s: Server, r: Request) {
    forall c | c in s.conversations && s.conversations[c].handledBy == Staff ::
      MessagesOf(Handle(s, r).0, c) == MessagesOf(s, c)
  }

  /** A post appends exactly when its conversation exists and its key is new, ... */
  lemma {:induction false} PostAppendsIff(s: Server, r: Request)
    requires r.Post?
    ensures AppendsMessage(s, r) <==> r.convId in s.conversations && r.idemKey !in s.idempotency
    ensures !AppendsMessage(s, r) ==> Handle(s, r).0.messages == s.messages
    ensures forall c | c != r.convId :: MessagesOf(Handle(s, r).0, c) == MessagesOf(s, c)
  {
  }

  /** ... so it leaves conversations that staff handle alone exactly when it appends
      nothing or its own conversation is the assistant's. */
  lemma {:induction false} PostRespectsStaffIff(s: Server, r: Request)
    requires r.Post?
    ensures RespectsStaff(s, r)
       <==> !(r.convId in s.conversations && r.idemKey !in s.idempotency)
            || s.conversations[r.convId].handledBy == Assistant
  {
    PostAppendsIff(s, r);
    if AppendsMessage(s, r) && s.conversations[r.convId].handledBy == Staff {
      assert MessagesOf(Handle(s, r).0, r.convId) != MessagesOf(s, r.convId);
    } else if !AppendsMessage(s, r) {
      assert forall c :: MessagesOf(Handle(s, r).0, c) == MessagesOf(s, c);
    }
  }

  /** A run that ends so: staff take a conversation over, and the next post writes into it. */
  lemma {:induction false} PostAfterHandoff(s: Server, c: string, reason: string, text: string, key: string, now: int)
    requires Loaded(s) && c in s.conversations
    ensures var t := Serve(s, [Handoff(c, reason)]);
      && t == Handle(s, Handoff(c, reason)).0 && c in t.conversations && t.conversations[c].handledBy == Staff
      && Handle(t, Post(c, text, key, now)).1.Ok? && AppendsMessage(t, Post(c, text, key, now))
      && !RespectsStaff(t, Post(c, text, key, now))
  {
    var h := Handoff(c, reason);
    assert [h][1..] == [];
    var t := Handle(s, h).0;
    assert Serve(s, [h]) == Serve(t, []);
    PostRespectsStaffIff(t, Post(c, text, key, now));
    PostAppendsIff(t, Post(c, text, key, now));
  }

  /** A backend with one conversation, as a fixture may leave it. */
  lemma {:induction false} SomeBackendIsLoaded() returns (s: Server, c: string)
    ensures Loaded(s) && c in s.conversations
  {
    c := "c";
    var conversation := Conversation(c, "u", "opened", Assistant, None, None, None, None, None);
    s := Server(map[c := conversation], map[c := []], map[], 1, [], map[]);
  }
}
