/**
 Conversations and messages, as a state machine with one step per chat call: who may talk
 where, what a conversation's product and last message are, and what unread counts count.
 */
module Chat {
  import opened Numbers
  import opened Wrappers
  import opened Seqs

  // ---------- Tables ----------

  datatype Conversation = Conversation(id: int, userA: int, userB: int, productId: Option<int>, lastMessageId: Option<int>)
  datatype Message = Message(id: int, conversationId: int, senderId: int, text: string, readAt: Option<int>)

  // Rows are listed in creation order; the counters are the identity sequences.
  datatype Db = Db(conversations: seq<Conversation>, messages: seq<Message>, nextConversationId: int, nextMessageId: int)

  const EMPTY_DB := Db([], [], 1, 1)

  // What a call finds in the users and products tables.  `users` are the accounts not deleted, `accounts` all rows.
  datatype Listed = Listed(ownerId: int, available: bool)
  datatype World = World(users: set<int>, accounts: set<int>, products: map<int, Listed>)

  // Ids as a service sees them: a caller's id is a number, and a BIGINT column comes from the driver as its decimal text.
  datatype JsValue = JsNumber(n: int) | JsString(text: string)

  function FromBigint(n: int): JsValue {
    JsString(if n < 0 then "-" + Decimal(-n) else Decimal(n))
  }

  // The operator `===`: no conversion, so values of different types are never equal.
  predicate StrictlyEqual(a: JsValue, b: JsValue) {
    match (a, b)
    case (JsNumber(m), JsNumber(n)) => m == n
    case (JsString(s), JsString(t)) => s == t
    case _ => false
  }

  datatype Error = WithYourself | NotFound | NotAvailable | NotParticipant | OwnMessage | BlankText

  datatype Op =
    | GetOrCreate(world: World, user: int, participant: int, product: Option<int>)
    | SendMessage(user: int, conversationId: int, text: string)
    | MarkRead(user: int, messageId: int, now: int)

  datatype Outcome = Outcome(db: Db, result: Result<int, Error>)

  // ---------- Queries ----------

  function Between(a: int, b: int): Conversation -> bool {
    (c: Conversation) => c.userA == a && c.userB == b
  }

  function ConversationWithId(id: int): Conversation -> bool {
    (c: Conversation) => c.id == id
  }

  function MessageWithId(id: int): Message -> bool {
    (m: Message) => m.id == id
  }

  predicate Participates(c: Conversation, user: int) {
    c.userA == user || c.userB == user
  }

  // Database CHECK: something is left after trimming spaces.
  predicate Blank(text: string) {
    forall i :: 0 <= i < |text| ==> text[i] == ' '
  }

  function SetProduct(cs: seq<Conversation>, id: int, product: int): (r: seq<Conversation>)
    ensures |r| == |cs|
    ensures forall i :: 0 <= i < |cs| ==> r[i] == if cs[i].id == id then cs[i].(productId := Some(product)) else cs[i]
  {
    seq(|cs|, i requires 0 <= i < |cs| => if cs[i].id == id then cs[i].(productId := Some(product)) else cs[i])
  }

  function SetLast(cs: seq<Conversation>, id: int, message: int): (r: seq<Conversation>)
    ensures |r| == |cs|
    ensures forall i :: 0 <= i < |cs| ==> r[i] == if cs[i].id == id then cs[i].(lastMessageId := Some(message)) else cs[i]
  {
    seq(|cs|, i requires 0 <= i < |cs| => if cs[i].id == id then cs[i].(lastMessageId := Some(message)) else cs[i])
  }

  // read_at = COALESCE(read_at, NOW())
  function Read(m: Message, now: int): Message {
    m.(readAt := Some(if m.readAt.Some? then m.readAt.value else now))
  }

  function SetRead(ms: seq<Message>, id: int, now: int): (r: seq<Message>)
    ensures |r| == |ms|
    ensures forall i :: 0 <= i < |ms| ==> r[i] == if ms[i].id == id then Read(ms[i], now) else ms[i]
  {
    seq(|ms|, i requires 0 <= i < |ms| => if ms[i].id == id then Read(ms[i], now) else ms[i])
  }

  // ---------- What each call does ----------

  predicate ParticipantOwns(listed: Listed, user: int, participant: int) {
    StrictlyEqual(FromBigint(listed.ownerId), JsNumber(user)) || StrictlyEqual(FromBigint(listed.ownerId), JsNumber(participant))
  }

  // An absent product and product 0 are no product.
  function ProductError(world: World, user: int, participant: int, product: Option<int>): Option<Error> {
    if product.None? || product.value == 0 then None
    else if product.value !in world.products then Some(NotFound)
    else
      var listed := world.products[product.value];
      if !listed.available && !ParticipantOwns(listed, user, participant) then Some(NotAvailable) else None
  }

  function Wanted(product: Option<int>): Option<int> {
    if product == Some(0) then None else product
  }

  function ExecGetOrCreate(db: Db, world: World, user: int, participant: int, product: Option<int>): Outcome {
    if user == participant then Outcome(db, Err(WithYourself))
    else if participant !in world.users then Outcome(db, Err(NotFound))
    else
      match ProductError(world, user, participant, product)
      case Some(e) => Outcome(db, Err(e))
      case None =>
        var a, b := if user < participant then user else participant, if user < participant then participant else user;
        match Find(Between(a, b), db.conversations)
        case Some(c) =>
          if Wanted(product).Some? && c.productId.None?
          then Outcome(db.(conversations := SetProduct(db.conversations, c.id, Wanted(product).value)), Ok(c.id))
          else Outcome(db, Ok(c.id))
        case None =>
          var id := db.nextConversationId;
          var db' := db.(nextConversationId := id + 1);
          if user !in world.accounts || participant !in world.accounts then Outcome(db', Err(NotFound))
          else Outcome(db'.(conversations := db.conversations + [Conversation(id, a, b, Wanted(product), None)]), Ok(id))
  }

  function ExecSend(db: Db, user: int, conversationId: int, text: string): Outcome {
    match Find(ConversationWithId(conversationId), db.conversations)
    case None => Outcome(db, Err(NotFound))
    case Some(c) =>
      var id := db.nextMessageId;
      var db' := db.(nextMessageId := id + 1);
      if !Participates(c, user) then Outcome(db, Err(NotParticipant))
      else if Blank(text) then Outcome(db', Err(BlankText))
      else
        Outcome(db'.(messages := db.messages + [Message(id, conversationId, user, text, None)],
                     conversations := SetLast(db.conversations, conversationId, id)), Ok(id))
  }

  function ExecMarkRead(db: Db, user: int, messageId: int, now: int): Outcome {
    match Find(MessageWithId(messageId), db.messages)
    case None => Outcome(db, Err(NotFound))
    case Some(m) =>
      match Find(ConversationWithId(m.conversationId), db.conversations)
      case None => Outcome(db, Err(NotFound))
      case Some(c) =>
        if !Participates(c, user) then Outcome(db, Err(NotParticipant))
        else if m.senderId == user then Outcome(db, Err(OwnMessage))
        else Outcome(db.(messages := SetRead(db.messages, messageId, now)), Ok(messageId))
  }

  function Exec(db: Db, op: Op): Outcome {
    match op
    case GetOrCreate(world, user, participant, product) => ExecGetOrCreate(db, world, user, participant, product)
    case SendMessage(user, conversationId, text) => ExecSend(db, user, conversationId, text)
    case MarkRead(user, messageId, now) => ExecMarkRead(db, user, messageId, now)
  }

  function Next(): (Db, Op) -> Db {
    (db: Db, op: Op) => Exec(db, op).db
  }

  function Run(db: Db, ops: seq<Op>): Db {
    Fold(Next(), db, ops)
  }

  // ---------- The invariant ----------

  // The newest message of a conversation.
  function LastIn(ms: seq<Message>, conversationId: int): Option<int> {
    if ms == [] then None
    else
      var n := |ms| - 1;
      if ms[n].conversationId == conversationId then Some(ms[n].id) else LastIn(ms[..n], conversationId)
  }

  predicate ValidConversations(cs: seq<Conversation>, nextId: int) {
    && (forall i :: 0 <= i < |cs| ==> cs[i].id < nextId && cs[i].userA < cs[i].userB)
    && (forall i, j :: 0 <= i < j < |cs| ==> cs[i].id < cs[j].id)
    && (forall i, j :: 0 <= i < j < |cs| ==> cs[i].userA != cs[j].userA || cs[i].userB != cs[j].userB)
  }

  predicate ValidMessages(ms: seq<Message>, nextId: int) {
    && (forall i :: 0 <= i < |ms| ==> ms[i].id < nextId)
    && (forall i, j :: 0 <= i < j < |ms| ==> ms[i].id < ms[j].id)
  }

  // Each conversation points to its own newest message.
  predicate PointsToNewest(cs: seq<Conversation>, ms: seq<Message>) {
    forall i :: 0 <= i < |cs| ==> cs[i].lastMessageId == LastIn(ms, cs[i].id)
  }

  predicate MemberOf(cs: seq<Conversation>, id: int, user: int) {
    exists i :: 0 <= i < |cs| && cs[i].id == id && Participates(cs[i], user)
  }

  // Each message lies in a conversation of its sender.
  predicate SentByParticipants(cs: seq<Conversation>, ms: seq<Message>) {
    forall j :: 0 <= j < |ms| ==> MemberOf(cs, ms[j].conversationId, ms[j].senderId)
  }

  predicate Valid(db: Db) {
    && ValidConversations(db.conversations, db.nextConversationId)
    && ValidMessages(db.messages, db.nextMessageId)
    && PointsToNewest(db.conversations, db.messages)
    && SentByParticipants(db.conversations, db.messages)
  }

  lemma {:induction false} NoneInNewConversation(ms: seq<Message>, id: int)
    requires forall j :: 0 <= j < |ms| ==> ms[j].conversationId != id
    ensures LastIn(ms, id) == None
  {
    if ms != [] {
      NoneInNewConversation(ms[..|ms| - 1], id);
    }
  }

  lemma {:induction false} ReadingKeepsLast(ms: seq<Message>, messageId: int, now: int, id: int)
    ensures LastIn(SetRead(ms, messageId, now), id) == LastIn(ms, id)
  {
    if ms != [] {
      var n := |ms| - 1;
      ReadingKeepsLast(ms[..n], messageId, now, id);
      assert SetRead(ms, messageId, now)[..n] == SetRead(ms[..n], messageId, now);
    }
  }

  /** The conversation found by its id is the only row with that id. */
  lemma FoundConversation(db: Db, id: int, i: nat)
    requires ValidConversations(db.conversations, db.nextConversationId)
    requires i < |db.conversations| && db.conversations[i].id == id
    ensures Find(ConversationWithId(id), db.conversations) == Some(db.conversations[i])
  {
    var cs := db.conversations;
    assert cs[i] in cs && ConversationWithId(id)(cs[i]);
    var found := Find(ConversationWithId(id), cs);
    var k :| 0 <= k < |cs| && cs[k] == found.value;
    assert k == i;
  }

  // Rows keep their id and participants, and come in behind the old ones.
  predicate Grown(cs: seq<Conversation>, ds: seq<Conversation>) {
    && |cs| <= |ds|
    && forall i :: 0 <= i < |cs| ==> ds[i].id == cs[i].id && ds[i].userA == cs[i].userA && ds[i].userB == cs[i].userB
  }

  lemma MemberStays(cs: seq<Conversation>, ds: seq<Conversation>, id: int, user: int)
    requires MemberOf(cs, id, user) && Grown(cs, ds)
    ensures MemberOf(ds, id, user)
  {
    var i :| 0 <= i < |cs| && cs[i].id == id && Participates(cs[i], user);
    assert ds[i].id == id && Participates(ds[i], user);
  }

  lemma SendersStay(cs: seq<Conversation>, ds: seq<Conversation>, ms: seq<Message>)
    requires SentByParticipants(cs, ms) && Grown(cs, ds)
    ensures SentByParticipants(ds, ms)
  {
    forall j | 0 <= j < |ms| ensures MemberOf(ds, ms[j].conversationId, ms[j].senderId) {
      MemberStays(cs, ds, ms[j].conversationId, ms[j].senderId);
    }
  }

  lemma NewConversationIsEmpty(db: Db)
    requires Valid(db)
    ensures LastIn(db.messages, db.nextConversationId) == None
  {
    forall j | 0 <= j < |db.messages| ensures db.messages[j].conversationId != db.nextConversationId {
      assert MemberOf(db.conversations, db.messages[j].conversationId, db.messages[j].senderId);
    }
    NoneInNewConversation(db.messages, db.nextConversationId);
  }

  lemma AppendedConversation(cs: seq<Conversation>, c: Conversation)
    requires ValidConversations(cs, c.id) && c.userA < c.userB && Find(Between(c.userA, c.userB), cs) == None
    ensures ValidConversations(cs + [c], c.id + 1)
  {
    forall i | 0 <= i < |cs| ensures !Between(c.userA, c.userB)(cs[i]) {
      assert cs[i] in cs;
    }
  }

  lemma AppendedPointsToNewest(cs: seq<Conversation>, ms: seq<Message>, c: Conversation)
    requires PointsToNewest(cs, ms) && c.lastMessageId == LastIn(ms, c.id)
    ensures PointsToNewest(cs + [c], ms)
  {
  }

  lemma CreateKeepsValid(db: Db, c: Conversation)
    requires Valid(db) && c.id == db.nextConversationId && c.userA < c.userB && c.lastMessageId == None
    requires Find(Between(c.userA, c.userB), db.conversations) == None
    ensures Valid(db.(conversations := db.conversations + [c], nextConversationId := c.id + 1))
  {
    AppendedConversation(db.conversations, c);
    SendersStay(db.conversations, db.conversations + [c], db.messages);
    NewConversationIsEmpty(db);
    AppendedPointsToNewest(db.conversations, db.messages, c);
  }

  lemma SendPointsToNewest(cs: seq<Conversation>, ms: seq<Message>, m: Message)
    requires PointsToNewest(cs, ms)
    ensures PointsToNewest(SetLast(cs, m.conversationId, m.id), ms + [m])
  {
    assert (ms + [m])[..|ms|] == ms;
  }

  lemma SetLastKeepsConversations(cs: seq<Conversation>, nextId: int, id: int, message: int)
    requires ValidConversations(cs, nextId)
    ensures ValidConversations(SetLast(cs, id, message), nextId)
  {
  }

  lemma AppendedMessage(ms: seq<Message>, m: Message)
    requires ValidMessages(ms, m.id)
    ensures ValidMessages(ms + [m], m.id + 1)
  {
  }

  lemma AppendedSender(cs: seq<Conversation>, ms: seq<Message>, m: Message)
    requires SentByParticipants(cs, ms) && MemberOf(cs, m.conversationId, m.senderId)
    ensures SentByParticipants(cs, ms + [m])
  {
  }

  // The tables after a message went out.
  function Delivered(db: Db, user: int, conversationId: int, text: string): Db {
    db.(messages := db.messages + [Message(db.nextMessageId, conversationId, user, text, None)],
        conversations := SetLast(db.conversations, conversationId, db.nextMessageId),
        nextMessageId := db.nextMessageId + 1)
  }

  lemma SendKeepsValid(db: Db, user: int, id: int, text: string)
    requires Valid(db) && MemberOf(db.conversations, id, user)
    ensures Valid(Delivered(db, user, id, text))
  {
    var cs, ds := db.conversations, SetLast(db.conversations, id, db.nextMessageId);
    var m := Message(db.nextMessageId, id, user, text, None);
    SetLastKeepsConversations(cs, db.nextConversationId, id, db.nextMessageId);
    AppendedMessage(db.messages, m);
    SendPointsToNewest(cs, db.messages, m);
    MemberStays(cs, ds, id, user);
    SendersStay(cs, ds, db.messages);
    AppendedSender(ds, db.messages, m);
  }

  lemma ReadKeepsValid(db: Db, messageId: int, now: int)
    requires Valid(db)
    ensures Valid(db.(messages := SetRead(db.messages, messageId, now)))
  {
    var ms := SetRead(db.messages, messageId, now);
    forall j | 0 <= j < |ms| ensures MemberOf(db.conversations, ms[j].conversationId, ms[j].senderId) {
      assert ms[j].conversationId == db.messages[j].conversationId && ms[j].senderId == db.messages[j].senderId;
    }
    forall i | 0 <= i < |db.conversations| ensures db.conversations[i].lastMessageId == LastIn(ms, db.conversations[i].id) {
      ReadingKeepsLast(db.messages, messageId, now, db.conversations[i].id);
    }
  }

  lemma ProductKeepsValid(db: Db, id: int, product: int)
    requires Valid(db)
    ensures Valid(db.(conversations := SetProduct(db.conversations, id, product)))
  {
    SendersStay(db.conversations, SetProduct(db.conversations, id, product), db.messages);
  }

  lemma CounterKeepsValid(db: Db)
    requires Valid(db)
    ensures Valid(db.(nextConversationId := db.nextConversationId + 1))
  {
  }

  lemma FoundMessage(db: Db, id: int, j: nat)
    requires ValidMessages(db.messages, db.nextMessageId)
    requires j < |db.messages| && db.messages[j].id == id
    ensures Find(MessageWithId(id), db.messages) == Some(db.messages[j])
  {
    var ms := db.messages;
    assert ms[j] in ms && MessageWithId(id)(ms[j]);
    var found := Find(MessageWithId(id), ms);
    var k :| 0 <= k < |ms| && ms[k] == found.value;
    assert k == j;
  }

  lemma MembersAreFound(db: Db, id: int, user: int)
    requires ValidConversations(db.conversations, db.nextConversationId) && MemberOf(db.conversations, id, user)
    ensures var found := Find(ConversationWithId(id), db.conversations);
      found.Some? && found.value.userA < found.value.userB && Participates(found.value, user)
  {
    var i :| 0 <= i < |db.conversations| && db.conversations[i].id == id && Participates(db.conversations[i], user);
    FoundConversation(db, id, i);
  }

  // The conversation of two users after a call that found their row, and after one that did not.
  function Hinted(db: Db, c: Conversation, product: Option<int>): Db {
    if Wanted(product).Some? && c.productId.None?
    then db.(conversations := SetProduct(db.conversations, c.id, Wanted(product).value)) else db
  }

  function Opened(db: Db, a: int, b: int, product: Option<int>): Db {
    db.(conversations := db.conversations + [Conversation(db.nextConversationId, a, b, Wanted(product), None)],
        nextConversationId := db.nextConversationId + 1)
  }

  lemma GetOrCreateCases(db: Db, world: World, user: int, participant: int, product: Option<int>)
    ensures var a, b := if user < participant then user else participant, if user < participant then participant else user;
      var found := Find(Between(a, b), db.conversations);
      var done := ExecGetOrCreate(db, world, user, participant, product);
      || (done.result.Err? && (done.db == db || done.db == db.(nextConversationId := db.nextConversationId + 1)))
      || (done.result.Ok? && found.Some? && done == Outcome(Hinted(db, found.value, product), Ok(found.value.id)))
      || (done.result.Ok? && found.None? && a < b && done == Outcome(Opened(db, a, b, product), Ok(db.nextConversationId)))
  {
  }

  lemma OpenedIsValid(db: Db, a: int, b: int, product: Option<int>)
    requires Valid(db) && a < b && Find(Between(a, b), db.conversations) == None
    ensures Valid(Opened(db, a, b, product))
  {
    CreateKeepsValid(db, Conversation(db.nextConversationId, a, b, Wanted(product), None));
  }

  lemma HintedIsValid(db: Db, c: Conversation, product: Option<int>)
    requires Valid(db)
    ensures Valid(Hinted(db, c, product))
  {
    ProductKeepsValid(db, c.id, if product.Some? then product.value else 0);
  }

  lemma GetOrCreateKeepsValid(db: Db, world: World, user: int, participant: int, product: Option<int>)
    requires Valid(db)
    ensures Valid(ExecGetOrCreate(db, world, user, participant, product).db)
  {
    var a, b := if user < participant then user else participant, if user < participant then participant else user;
    GetOrCreateCases(db, world, user, participant, product);
    CounterKeepsValid(db);
    match Find(Between(a, b), db.conversations)
    case Some(c) =>
      HintedIsValid(db, c, product);
    case None =>
      if a < b {
        OpenedIsValid(db, a, b, product);
      }
  }

  lemma MessageIdMayGrow(db: Db)
    requires Valid(db)
    ensures Valid(db.(nextMessageId := db.nextMessageId + 1))
  {
  }

  lemma SendCases(db: Db, user: int, id: int, text: string)
    ensures var done := ExecSend(db, user, id, text);
      || (done.result.Err? && (done.db == db || done.db == db.(nextMessageId := db.nextMessageId + 1)))
      || (done.result.Ok? && MemberOf(db.conversations, id, user) && done.db == Delivered(db, user, id, text))
  {
    var found := Find(ConversationWithId(id), db.conversations);
    if found.Some? && Participates(found.value, user) {
      var k :| 0 <= k < |db.conversations| && db.conversations[k] == found.value;
      assert db.conversations[k].id == id;
    }
  }

  lemma ExecSendKeepsValid(db: Db, user: int, conversationId: int, text: string)
    requires Valid(db)
    ensures Valid(ExecSend(db, user, conversationId, text).db)
  {
    SendCases(db, user, conversationId, text);
    MessageIdMayGrow(db);
    if MemberOf(db.conversations, conversationId, user) {
      SendKeepsValid(db, user, conversationId, text);
    }
  }

  lemma ExecKeepsValid(db: Db, op: Op)
    requires Valid(db)
    ensures Valid(Exec(db, op).db)
  {
    match op
    case GetOrCreate(world, user, participant, product) =>
      GetOrCreateKeepsValid(db, world, user, participant, product);
    case SendMessage(user, conversationId, text) =>
      ExecSendKeepsValid(db, user, conversationId, text);
    case MarkRead(_, messageId, now) =>
      ReadKeepsValid(db, messageId, now);
  }

  lemma {:induction false} RunKeepsValid(db: Db, ops: seq<Op>)
    requires Valid(db)
    ensures Valid(Run(db, ops))
  {
    if ops != [] {
      RunKeepsValid(db, ops[..|ops| - 1]);
      ExecKeepsValid(Run(db, ops[..|ops| - 1]), ops[|ops| - 1]);
    }
  }

  // Newest in the sense of the table: a message of the conversation, and none of its messages has a greater id.
  ghost predicate Newest(ms: seq<Message>, conversationId: int, last: Option<int>) {
    && (last.None? ==> forall j :: 0 <= j < |ms| ==> ms[j].conversationId != conversationId)
    && (last.Some? ==>
          && (exists j :: 0 <= j < |ms| && ms[j].conversationId == conversationId && ms[j].id == last.value)
          && (forall j :: 0 <= j < |ms| && ms[j].conversationId == conversationId ==> ms[j].id <= last.value))
  }

  lemma {:induction false} LastInIsNewest(ms: seq<Message>, conversationId: int)
    requires forall i, j :: 0 <= i < j < |ms| ==> ms[i].id < ms[j].id
    ensures Newest(ms, conversationId, LastIn(ms, conversationId))
  {
    if ms != [] {
      var n := |ms| - 1;
      if ms[n].conversationId != conversationId {
        LastInIsNewest(ms[..n], conversationId);
        if j :| 0 <= j < n && ms[..n][j].conversationId == conversationId && Some(ms[..n][j].id) == LastIn(ms[..n], conversationId) {
          assert ms[j] == ms[..n][j];
        }
      }
    }
  }

  /** In every run a conversation's last message is the newest of its own messages. */
  lemma LastMessageIsNewest(ops: seq<Op>, c: Conversation)
    requires c in Run(EMPTY_DB, ops).conversations
    ensures Newest(Run(EMPTY_DB, ops).messages, c.id, c.lastMessageId)
  {
    RunKeepsValid(EMPTY_DB, ops);
    LastInIsNewest(Run(EMPTY_DB, ops).messages, c.id);
  }

  // ---------- Identity of conversations ----------

  predicate Connects(c: Conversation, u: int, v: int) {
    (c.userA == u && c.userB == v) || (c.userA == v && c.userB == u)
  }

  lemma PairIsUnique(cs: seq<Conversation>, nextId: int, c: Conversation, d: Conversation, u: int, v: int)
    requires ValidConversations(cs, nextId) && c in cs && d in cs && Connects(c, u, v) && Connects(d, u, v)
    ensures c == d && u != v
  {
  }

  /** In every run two users have at most one conversation, and none talks to themselves. */
  lemma OneConversationPerPair(ops: seq<Op>, c: Conversation, d: Conversation, u: int, v: int)
    requires var cs := Run(EMPTY_DB, ops).conversations; c in cs && d in cs && Connects(c, u, v) && Connects(d, u, v)
    ensures c == d && u != v
  {
    RunKeepsValid(EMPTY_DB, ops);
    var db := Run(EMPTY_DB, ops);
    PairIsUnique(db.conversations, db.nextConversationId, c, d, u, v);
  }

  // A call that names a live account is refused for a missing account or product only where it leaves a mark.
  lemma NamedDecides(db: Db, world: World, user: int, participant: int, product: Option<int>)
    requires user != participant
    ensures participant !in world.users ==> Exec(db, GetOrCreate(world, user, participant, product)) == Outcome(db, Err(NotFound))
    ensures participant in world.users ==>
      (Exec(db, GetOrCreate(world, user, participant, product)) == Outcome(db, Err(NotFound))
       <==> Wanted(product).Some? && product.value !in world.products)
  {
  }

  /**
   It does not matter which of the two asks, exactly unless one of them, and only one,
   is no live account: then naming that one is refused, while being named by that one is
   refused as well only if the product is missing.
   */
  lemma GetOrCreateSymmetricIff(db: Db, world: World, u: int, v: int, product: Option<int>)
    ensures Exec(db, GetOrCreate(world, u, v, product)) == Exec(db, GetOrCreate(world, v, u, product))
      <==> u == v || (u in world.users <==> v in world.users) || (Wanted(product).Some? && product.value !in world.products)
  {
    if u != v && (u in world.users <==> v !in world.users) {
      NamedDecides(db, world, u, v, product);
      NamedDecides(db, world, v, u, product);
    }
  }

  lemma {:induction false} FindAppended<T>(p: T -> bool, s: seq<T>, x: T)
    requires Find(p, s) == None && p(x)
    ensures Find(p, s + [x]) == Some(x)
  {
    assert (s + [x])[..|s|] == s;
  }

  lemma {:induction false} FindAfterSetProduct(cs: seq<Conversation>, a: int, b: int, id: int, product: int)
    ensures var before, after := Find(Between(a, b), cs), Find(Between(a, b), SetProduct(cs, id, product));
      (before.None? <==> after.None?) && (before.Some? ==> after.value.id == before.value.id)
  {
    if cs != [] {
      var n := |cs| - 1;
      FindAfterSetProduct(cs[..n], a, b, id, product);
      assert SetProduct(cs, id, product)[..n] == SetProduct(cs[..n], id, product);
    }
  }

  lemma AskedPlainly(db: Db, w: World, u: int, v: int)
    requires u != v && v in w.users
    ensures var found := Find(Between(if u < v then u else v, if u < v then v else u), db.conversations);
      found.Some? ==> Exec(db, GetOrCreate(w, u, v, None)) == Outcome(db, Ok(found.value.id))
  {
  }

  /** Asking again, from either side, finds the same conversation and changes nothing. */
  lemma AskingAgain(db: Db, world: World, u: int, v: int, product: Option<int>, w: World)
    requires Exec(db, GetOrCreate(world, u, v, product)).result.Ok?
    requires u in w.users && v in w.users
    ensures var first := Exec(db, GetOrCreate(world, u, v, product));
      && Exec(first.db, GetOrCreate(w, u, v, None)) == first
      && Exec(first.db, GetOrCreate(w, v, u, None)) == first
  {
    var a, b := if u < v then u else v, if u < v then v else u;
    GetOrCreateCases(db, world, u, v, product);
    var first := Exec(db, GetOrCreate(world, u, v, product));
    match Find(Between(a, b), db.conversations) {
      case Some(c) =>
        FindAfterSetProduct(db.conversations, a, b, c.id, if product.Some? then product.value else 0);
      case None =>
        FindAppended(Between(a, b), db.conversations, Conversation(db.nextConversationId, a, b, Wanted(product), None));
    }
    AskedPlainly(first.db, w, u, v);
    AskedPlainly(first.db, w, v, u);
  }

  lemma {:induction false} DecimalInjective(m: nat, n: nat)
    requires Decimal(m) == Decimal(n)
    ensures m == n
  {
    var s := Decimal(m);
    assert s[|s| - 1] == Digit(m % 10) == Digit(n % 10);
    assert s[..|s| - 1] == (if m < 10 then [] else Decimal(m / 10)) == if n < 10 then [] else Decimal(n / 10);
    if m >= 10 && n >= 10 {
      DecimalInjective(m / 10, n / 10);
    }
  }

  lemma NoSignInDecimal(n: nat)
    ensures Decimal(n) != [] && Decimal(n)[0] != '-'
  {
  }

  /** Two columns compare as their numbers do; two numbers compare; a column and a number never do. */
  lemma StrictlyEqualIff(m: int, n: int)
    ensures StrictlyEqual(FromBigint(m), FromBigint(n)) <==> m == n
    ensures StrictlyEqual(JsNumber(m), JsNumber(n)) <==> m == n
    ensures !StrictlyEqual(FromBigint(m), JsNumber(n)) && !StrictlyEqual(JsNumber(n), FromBigint(m))
  {
    var a, b := if m < 0 then -m else m, if n < 0 then -n else n;
    NoSignInDecimal(a);
    NoSignInDecimal(b);
    if FromBigint(m) == FromBigint(n) {
      var s := FromBigint(m).text;
      assert (m < 0 <==> s[0] == '-') && (n < 0 <==> s[0] == '-');
      assert Decimal(a) == (if m < 0 then s[1..] else s) && Decimal(b) == if n < 0 then s[1..] else s;
      DecimalInjective(a, b);
    }
  }

  // A number and the text of a column are never strictly equal, so nobody counts as the owner.
  lemma NobodyOwns(listed: Listed, user: int, participant: int)
    ensures !ParticipantOwns(listed, user, participant)
  {
    assert FromBigint(listed.ownerId).JsString?;
  }

  /** About a listed product two users may start to talk exactly if it is available, whoever of them owns it. */
  lemma ProductAcceptedIff(db: Db, world: World, u: int, v: int, product: int)
    requires u != v && v in world.users && {u, v} <= world.accounts && product != 0 && product in world.products
    ensures Exec(db, GetOrCreate(world, u, v, Some(product))).result.Ok? <==> world.products[product].available
    ensures !world.products[product].available ==> Exec(db, GetOrCreate(world, u, v, Some(product))) == Outcome(db, Err(NotAvailable))
  {
    NobodyOwns(world.products[product], u, v);
  }

  /** So the owner of a sold product who writes to the buyer about it is turned away. */
  lemma OwnerIsRefused()
    ensures var world := World({3, 7}, {3, 7}, map[5 := Listed(3, false)]);
      Exec(EMPTY_DB, GetOrCreate(world, 3, 7, Some(5))).result == Err(NotAvailable)
  {
    ProductAcceptedIff(EMPTY_DB, World({3, 7}, {3, 7}, map[5 := Listed(3, false)]), 3, 7, 5);
  }

  // The call finds the product available.
  predicate FindsAvailable(op: Op, product: int) {
    && op.GetOrCreate? && op.product == Some(product)
    && product in op.world.products && op.world.products[product].available
  }

  lemma ProductsComeFromCalls(db: Db, op: Op, c: Conversation)
    requires c in Exec(db, op).db.conversations && c.productId.Some?
    ensures FindsAvailable(op, c.productId.value)
      || exists i :: 0 <= i < |db.conversations| && db.conversations[i].id == c.id && db.conversations[i].productId == c.productId
  {
    var ds := Exec(db, op).db.conversations;
    var k :| 0 <= k < |ds| && ds[k] == c;
    if op.GetOrCreate? {
      GetOrCreateCases(db, op.world, op.user, op.participant, op.product);
      if Wanted(op.product).Some? && op.product.value in op.world.products {
        NobodyOwns(op.world.products[op.product.value], op.user, op.participant);
      }
    }
    if k < |db.conversations| && db.conversations[k].productId == c.productId {
      assert db.conversations[k].id == c.id;
    }
  }

  /** In every run a conversation's product is one that some call of the run found available. */
  lemma {:induction false} ProductWasAvailable(ops: seq<Op>, c: Conversation)
    requires c in Run(EMPTY_DB, ops).conversations && c.productId.Some?
    ensures exists i :: 0 <= i < |ops| && FindsAvailable(ops[i], c.productId.value)
  {
    if ops != [] {
      var n := |ops| - 1;
      var db := Run(EMPTY_DB, ops[..n]);
      ProductsComeFromCalls(db, ops[n], c);
      if !FindsAvailable(ops[n], c.productId.value) {
        var k :| 0 <= k < |db.conversations| && db.conversations[k].id == c.id && db.conversations[k].productId == c.productId;
        ProductWasAvailable(ops[..n], db.conversations[k]);
        var i :| 0 <= i < n && FindsAvailable(ops[..n][i], c.productId.value);
        assert FindsAvailable(ops[i], c.productId.value);
      }
    }
  }

  // ---------- What each call promises its caller ----------

  // The row of the two users, whichever of them asks.
  predicate IsPair(c: Conversation, u: int, v: int) {
    (c.userA == u && c.userB == v) || (c.userA == v && c.userB == u)
  }

  /** What two users are refused a conversation for, in this order; no call that is refused writes a row. */
  lemma GetOrCreateRefused(db: Db, world: World, u: int, v: int, product: Option<int>)
    ensures var out := Exec(db, GetOrCreate(world, u, v, product));
      && (out.result.Err? ==> out.db.conversations == db.conversations && out.db.messages == db.messages)
      && (u == v ==> out.result == Err(WithYourself))
      && (u != v && v !in world.users ==> out.result == Err(NotFound))
      && (u != v && v in world.users && product.Some? && product.value != 0 ==>
            && (product.value !in world.products ==> out.result == Err(NotFound))
            && (product.value in world.products && !world.products[product.value].available ==> out.result == Err(NotAvailable)))
  {
    if product.Some? && product.value in world.products {
      NobodyOwns(world.products[product.value], u, v);
    }
  }

  // Nothing in the request itself is refused.
  predicate Welcome(world: World, u: int, v: int, product: Option<int>) {
    && u != v && v in world.users
    && (product.Some? && product.value != 0 ==>
          product.value in world.products && world.products[product.value].available)
  }

  lemma RowOfPair(db: Db, i: nat, u: int, v: int)
    requires Valid(db) && u != v && i < |db.conversations| && IsPair(db.conversations[i], u, v)
    ensures var a, b := if u < v then u else v, if u < v then v else u;
      Find(Between(a, b), db.conversations) == Some(db.conversations[i])
  {
    var cs := db.conversations;
    var a, b := if u < v then u else v, if u < v then v else u;
    assert cs[i].userA == a && cs[i].userB == b && cs[i] in cs;
    assert Between(a, b)(cs[i]);
    var found := Find(Between(a, b), cs).value;
    assert found.userA == a && found.userB == b by {
      assert Between(a, b)(found);
    }
    var k :| 0 <= k < |cs| && cs[k] == found;
    assert k == i;
  }

  /** A pair that has a conversation is answered with it; a product is set on it if it had none. */
  lemma ExistingConversationDoes(db: Db, world: World, u: int, v: int, product: Option<int>, i: nat)
    requires Valid(db) && Welcome(world, u, v, product) && i < |db.conversations| && IsPair(db.conversations[i], u, v)
    ensures var c := db.conversations[i];
      var out := Exec(db, GetOrCreate(world, u, v, product));
      && out.result == Ok(c.id)
      && out.db == db.(conversations := out.db.conversations)
      && out.db.conversations == db.conversations[i :=
           if product.Some? && product.value != 0 && c.productId.None? then c.(productId := product) else c]
  {
    RowOfPair(db, i, u, v);
    var cs := db.conversations;
    assert forall k :: 0 <= k < |cs| && cs[k].id == cs[i].id ==> k == i;
  }

  /** A pair that has none gets a row of its own, the smaller id first. */
  lemma NewConversationDoes(db: Db, world: World, u: int, v: int, product: Option<int>)
    requires Welcome(world, u, v, product)
    requires forall i :: 0 <= i < |db.conversations| ==> !IsPair(db.conversations[i], u, v)
    ensures var out := Exec(db, GetOrCreate(world, u, v, product));
      if u in world.accounts && v in world.accounts then
        var c := Conversation(db.nextConversationId, Min(u, v), Max(u, v), if product == Some(0) then None else product, None);
        && out.result == Ok(db.nextConversationId)
        && out.db == db.(conversations := db.conversations + [c], nextConversationId := db.nextConversationId + 1)
      else out.result == Err(NotFound)
  {
  }

  /** A message of a participant that is more than spaces is appended, unread, and becomes the conversation's last. */
  lemma SendMessageDoes(db: Db, user: int, i: nat, text: string)
    requires Valid(db) && i < |db.conversations|
    ensures var c := db.conversations[i];
      var out := Exec(db, SendMessage(user, c.id, text));
      if user != c.userA && user != c.userB then out == Outcome(db, Err(NotParticipant))
      else if forall k :: 0 <= k < |text| ==> text[k] == ' ' then
        out == Outcome(db.(nextMessageId := db.nextMessageId + 1), Err(BlankText))
      else
        && out.result == Ok(db.nextMessageId)
        && out.db == db.(messages := db.messages + [Message(db.nextMessageId, c.id, user, text, None)],
                         conversations := db.conversations[i := c.(lastMessageId := Some(db.nextMessageId))],
                         nextMessageId := db.nextMessageId + 1)
  {
    FoundConversation(db, db.conversations[i].id, i);
    var cs := db.conversations;
    assert forall k :: 0 <= k < |cs| && cs[k].id == cs[i].id ==> k == i;
    assert SetLast(cs, cs[i].id, db.nextMessageId) == cs[i := cs[i].(lastMessageId := Some(db.nextMessageId))];
  }

  lemma NoConversation(db: Db, user: int, id: int, text: string)
    requires forall i :: 0 <= i < |db.conversations| ==> db.conversations[i].id != id
    ensures Exec(db, SendMessage(user, id, text)) == Outcome(db, Err(NotFound))
  {
  }

  lemma NoMessage(db: Db, user: int, id: int, now: int)
    requires forall j :: 0 <= j < |db.messages| ==> db.messages[j].id != id
    ensures Exec(db, MarkRead(user, id, now)) == Outcome(db, Err(NotFound))
  {
  }

  /** The other participant's first reading of a message dates it; a second changes nothing. */
  lemma MarkReadDoes(db: Db, user: int, j: nat, i: nat, now: int)
    requires Valid(db) && j < |db.messages| && i < |db.conversations| && db.conversations[i].id == db.messages[j].conversationId
    ensures var m, c := db.messages[j], db.conversations[i];
      var out := Exec(db, MarkRead(user, m.id, now));
      if user != c.userA && user != c.userB then out == Outcome(db, Err(NotParticipant))
      else if m.senderId == user then out == Outcome(db, Err(OwnMessage))
      else
        && out.result == Ok(m.id)
        && out.db == db.(messages := db.messages[j :=
             if m.readAt.Some? then m else Message(m.id, m.conversationId, m.senderId, m.text, Some(now))])
  {
    FoundMessage(db, db.messages[j].id, j);
    FoundConversation(db, db.conversations[i].id, i);
    var ms := db.messages;
    assert forall k :: 0 <= k < |ms| && ms[k].id == ms[j].id ==> k == j;
    assert SetRead(ms, ms[j].id, now) == ms[j := Read(ms[j], now)];
  }

  // ---------- What later calls leave alone ----------

  // Conversations keep their users and, once it is set, their product; messages keep all but a first `read_at`.
  ghost predicate Extends(db: Db, later: Db) {
    && |db.conversations| <= |later.conversations|
    && |db.messages| <= |later.messages|
    && (forall i :: 0 <= i < |db.conversations| ==>
          var c, d := db.conversations[i], later.conversations[i];
          c.id == d.id && c.userA == d.userA && c.userB == d.userB && (c.productId.Some? ==> d.productId == c.productId))
    && (forall i :: 0 <= i < |db.messages| ==>
          var m, n := db.messages[i], later.messages[i];
          n == m.(readAt := n.readAt) && (m.readAt.Some? ==> n == m))
  }

  lemma SetProductExtends(db: Db, c: Conversation, product: int)
    requires Valid(db) && c in db.conversations && c.productId.None?
    ensures Extends(db, db.(conversations := SetProduct(db.conversations, c.id, product)))
  {
    var k :| 0 <= k < |db.conversations| && db.conversations[k] == c;
    forall i | 0 <= i < |db.conversations| && db.conversations[i].id == c.id ensures i == k {
    }
  }

  lemma GetOrCreateExtends(db: Db, world: World, user: int, participant: int, product: Option<int>)
    requires Valid(db)
    ensures Extends(db, ExecGetOrCreate(db, world, user, participant, product).db)
  {
    var a, b := if user < participant then user else participant, if user < participant then participant else user;
    GetOrCreateCases(db, world, user, participant, product);
    var found := Find(Between(a, b), db.conversations);
    if found.Some? && found.value.productId.None? {
      SetProductExtends(db, found.value, if product.Some? then product.value else 0);
    }
  }

  lemma SendExtends(db: Db, user: int, conversationId: int, text: string)
    ensures Extends(db, ExecSend(db, user, conversationId, text).db)
  {
  }

  lemma MarkReadExtends(db: Db, user: int, messageId: int, now: int)
    ensures Extends(db, ExecMarkRead(db, user, messageId, now).db)
  {
  }

  lemma ExecExtends(db: Db, op: Op)
    requires Valid(db)
    ensures Extends(db, Exec(db, op).db)
  {
    match op
    case GetOrCreate(world, user, participant, product) =>
      GetOrCreateExtends(db, world, user, participant, product);
    case SendMessage(user, conversationId, text) =>
      SendExtends(db, user, conversationId, text);
    case MarkRead(user, messageId, now) =>
      MarkReadExtends(db, user, messageId, now);
  }

  /** In every run a conversation's product is set at most once, and a message's `read_at` never changes once set. */
  lemma {:induction false} RunExtends(db: Db, ops: seq<Op>)
    requires Valid(db)
    ensures Extends(db, Run(db, ops))
  {
    if ops != [] {
      var n := |ops| - 1;
      RunExtends(db, ops[..n]);
      RunKeepsValid(db, ops[..n]);
      ExecExtends(Run(db, ops[..n]), ops[n]);
    }
  }

  // ---------- Unread counts ----------

  predicate UnreadBy(m: Message, conversationId: int, user: int) {
    m.conversationId == conversationId && m.senderId != user && m.readAt.None?
  }

  // The subquery of the conversation queries.
  function UnreadCount(ms: seq<Message>, conversationId: int, user: int): nat {
    if ms == [] then 0
    else
      var n := |ms| - 1;
      UnreadCount(ms[..n], conversationId, user) + if UnreadBy(ms[n], conversationId, user) then 1 else 0
  }

  function UnreadFor(conversationId: int, user: int): Message -> bool {
    (m: Message) => UnreadBy(m, conversationId, user)
  }

  lemma {:induction false} UnreadCountIsFilter(ms: seq<Message>, conversationId: int, user: int)
    ensures UnreadCount(ms, conversationId, user) == |Filter(UnreadFor(conversationId, user), ms)|
  {
    if ms != [] {
      UnreadCountIsFilter(ms[..|ms| - 1], conversationId, user);
    }
  }

  predicate Pending(ms: seq<Message>, messageId: int, conversationId: int, user: int) {
    exists i :: 0 <= i < |ms| && ms[i].id == messageId && UnreadBy(ms[i], conversationId, user)
  }

  // This call sends a message to the user in the conversation.
  predicate SendsTo(db: Db, op: Op, conversationId: int, user: int) {
    op.SendMessage? && op.conversationId == conversationId && op.user != user && Exec(db, op).result.Ok?
  }

  // This call is the user's first reading of such a message.
  predicate FirstReads(db: Db, op: Op, conversationId: int, user: int) {
    op.MarkRead? && op.user == user && Exec(db, op).result.Ok? && Pending(db.messages, op.messageId, conversationId, user)
  }

  function SentTo(db: Db, ops: seq<Op>, conversationId: int, user: int): nat {
    if ops == [] then 0
    else
      var n := |ops| - 1;
      SentTo(db, ops[..n], conversationId, user)
      + if SendsTo(Run(db, ops[..n]), ops[n], conversationId, user) then 1 else 0
  }

  function ReadBy(db: Db, ops: seq<Op>, conversationId: int, user: int): nat {
    if ops == [] then 0
    else
      var n := |ops| - 1;
      ReadBy(db, ops[..n], conversationId, user)
      + if FirstReads(Run(db, ops[..n]), ops[n], conversationId, user) then 1 else 0
  }

  lemma PendingLast(ms: seq<Message>, messageId: int, conversationId: int, user: int)
    requires ms != [] && forall i, j :: 0 <= i < j < |ms| ==> ms[i].id < ms[j].id
    ensures var n := |ms| - 1;
      Pending(ms, messageId, conversationId, user) <==>
        if ms[n].id == messageId then UnreadBy(ms[n], conversationId, user)
        else Pending(ms[..n], messageId, conversationId, user)
  {
    var n := |ms| - 1;
    if i :| 0 <= i < |ms| && ms[i].id == messageId && UnreadBy(ms[i], conversationId, user) {
      if i < n {
        assert ms[..n][i] == ms[i];
      }
    }
  }

  lemma {:induction false} UnreadAfterRead(ms: seq<Message>, messageId: int, now: int, conversationId: int, user: int)
    requires forall i, j :: 0 <= i < j < |ms| ==> ms[i].id < ms[j].id
    ensures UnreadCount(SetRead(ms, messageId, now), conversationId, user) == UnreadCount(ms, conversationId, user)
      - if Pending(ms, messageId, conversationId, user) then 1 else 0
  {
    if ms != [] {
      var n := |ms| - 1;
      UnreadAfterRead(ms[..n], messageId, now, conversationId, user);
      assert SetRead(ms, messageId, now)[..n] == SetRead(ms[..n], messageId, now);
      PendingLast(ms, messageId, conversationId, user);
      if ms[n].id == messageId {
        assert !Pending(ms[..n], messageId, conversationId, user);
      }
    }
  }

  // Only the other participant can have read it.
  lemma ReaderIsUser(db: Db, op: Op, conversationId: int, user: int)
    requires Valid(db) && op.MarkRead? && Exec(db, op).result.Ok?
    requires Pending(db.messages, op.messageId, conversationId, user) && MemberOf(db.conversations, conversationId, user)
    ensures op.user == user
  {
    var j :| 0 <= j < |db.messages| && db.messages[j].id == op.messageId && UnreadBy(db.messages[j], conversationId, user);
    assert Find(MessageWithId(op.messageId), db.messages) == Some(db.messages[j]) by {
      FoundMessage(db, op.messageId, j);
    }
    assert MemberOf(db.conversations, db.messages[j].conversationId, db.messages[j].senderId);
    MembersAreFound(db, conversationId, user);
    MembersAreFound(db, conversationId, db.messages[j].senderId);
  }

  lemma UnreadAfterSend(db: Db, op: Op, conversationId: int, user: int)
    requires op.SendMessage?
    ensures UnreadCount(Exec(db, op).db.messages, conversationId, user) == UnreadCount(db.messages, conversationId, user)
      + if SendsTo(db, op, conversationId, user) then 1 else 0
  {
    var ms := Exec(db, op).db.messages;
    if Exec(db, op).result.Ok? {
      assert ms[..|ms| - 1] == db.messages;
    }
  }

  lemma UnreadAfterCall(db: Db, op: Op, conversationId: int, user: int)
    requires Valid(db)
    requires MemberOf(db.conversations, conversationId, user)
      || (forall j :: 0 <= j < |db.messages| ==> db.messages[j].conversationId != conversationId)
    ensures UnreadCount(Exec(db, op).db.messages, conversationId, user) == UnreadCount(db.messages, conversationId, user)
      + (if SendsTo(db, op, conversationId, user) then 1 else 0)
      - (if FirstReads(db, op, conversationId, user) then 1 else 0)
  {
    match op
    case GetOrCreate(_, _, _, _) =>
    case SendMessage(_, _, _) =>
      UnreadAfterSend(db, op, conversationId, user);
    case MarkRead(_, messageId, now) =>
      if Exec(db, op).result.Ok? {
        UnreadAfterRead(db.messages, messageId, now, conversationId, user);
        if Pending(db.messages, messageId, conversationId, user) {
          ReaderIsUser(db, op, conversationId, user);
        }
      }
  }

  lemma MemberAllAlong(db: Db, later: Db, conversationId: int, user: int)
    requires Valid(db) && Valid(later) && Extends(db, later) && MemberOf(later.conversations, conversationId, user)
    ensures MemberOf(db.conversations, conversationId, user)
      || (forall j :: 0 <= j < |db.messages| ==> db.messages[j].conversationId != conversationId)
  {
    if j :| 0 <= j < |db.messages| && db.messages[j].conversationId == conversationId {
      assert MemberOf(db.conversations, conversationId, db.messages[j].senderId);
      var k :| 0 <= k < |db.conversations| && db.conversations[k].id == conversationId;
      var i :| 0 <= i < |later.conversations| && later.conversations[i].id == conversationId && Participates(later.conversations[i], user);
      assert later.conversations[k].id == conversationId;
      assert i == k;
      assert Participates(db.conversations[k], user);
    }
  }

  lemma RunSplit(ops: seq<Op>, k: nat)
    requires k <= |ops|
    ensures Run(EMPTY_DB, ops) == Run(Run(EMPTY_DB, ops[..k]), ops[k..])
  {
    assert ops == ops[..k] + ops[k..];
    FoldSplit(Next(), EMPTY_DB, ops[..k], ops[k..]);
  }

  lemma {:induction false} UnreadInPrefix(ops: seq<Op>, k: nat, conversationId: int, user: int)
    requires k <= |ops| && MemberOf(Run(EMPTY_DB, ops).conversations, conversationId, user)
    ensures UnreadCount(Run(EMPTY_DB, ops[..k]).messages, conversationId, user)
         == SentTo(EMPTY_DB, ops[..k], conversationId, user) - ReadBy(EMPTY_DB, ops[..k], conversationId, user)
  {
    if k > 0 {
      UnreadInPrefix(ops, k - 1, conversationId, user);
      assert ops[..k][..k - 1] == ops[..k - 1];
      var db := Run(EMPTY_DB, ops[..k - 1]);
      RunKeepsValid(EMPTY_DB, ops[..k - 1]);
      RunKeepsValid(EMPTY_DB, ops);
      RunSplit(ops, k - 1);
      RunExtends(db, ops[k - 1..]);
      MemberAllAlong(db, Run(EMPTY_DB, ops), conversationId, user);
      UnreadAfterCall(db, ops[k - 1], conversationId, user);
    }
  }

  /** In every run a participant's unread count is what the other sent less what the participant has read for the first time. */
  lemma {:induction false} UnreadIsSentLessRead(ops: seq<Op>, conversationId: int, user: int)
    requires MemberOf(Run(EMPTY_DB, ops).conversations, conversationId, user)
    ensures UnreadCount(Run(EMPTY_DB, ops).messages, conversationId, user)
         == SentTo(EMPTY_DB, ops, conversationId, user) - ReadBy(EMPTY_DB, ops, conversationId, user)
  {
    UnreadInPrefix(ops, |ops|, conversationId, user);
    assert ops[..|ops|] == ops;
  }

  // The lookup by id and the membership of the table say the same.
  lemma VerdictIsFound(db: Db, id: int, user: int)
    requires ValidConversations(db.conversations, db.nextConversationId)
    ensures var found := Find(ConversationWithId(id), db.conversations);
      && (found.None? <==> forall i :: 0 <= i < |db.conversations| ==> db.conversations[i].id != id)
      && (found.Some? && Participates(found.value, user) <==> MemberOf(db.conversations, id, user))
  {
    var cs := db.conversations;
    var found := Find(ConversationWithId(id), cs);
    if found.None? {
      assert forall i :: 0 <= i < |cs| ==> !ConversationWithId(id)(cs[i]);
    } else {
      var k :| 0 <= k < |cs| && cs[k] == found.value;
      assert cs[k].id == id;
    }
    if MemberOf(cs, id, user) {
      MembersAreFound(db, id, user);
    }
  }

  // ---------- The service ----------

  class ChatService {
    var conversations: seq<Conversation>
    var messages: seq<Message>
    var nextConversationId: int
    var nextMessageId: int

    ghost function State(): Db
      reads this
    {
      Db(conversations, messages, nextConversationId, nextMessageId)
    }

    // Kept by every call, as `ExecKeepsValid` shows.
    ghost predicate Valid()
      reads this
    {
      ValidConversations(conversations, nextConversationId)
    }

    constructor ()
      ensures State() == EMPTY_DB && Valid()
    {
      conversations, messages, nextConversationId, nextMessageId := [], [], 1, 1;
    }

    method GetOrCreateConversation(world: World, user: int, participant: int, product: Option<int>) returns (r: Result<int, Error>)
      modifies `conversations, `nextConversationId
      ensures Outcome(State(), r) == Exec(old(State()), GetOrCreate(world, user, participant, product))
    {
      if user == participant {
        return Err(WithYourself);
      }
      if participant !in world.users {
        return Err(NotFound);
      }
      var userA, userB := participant, user;
      if user < participant {
        userA, userB := user, participant;
      }
      var validatedProductId: Option<int> := None;
      if product.Some? && product.value != 0 {
        if product.value !in world.products {
          return Err(NotFound);
        }
        var listed := world.products[product.value];
        var ownerId := FromBigint(listed.ownerId);
        var isParticipantOwner := StrictlyEqual(ownerId, JsNumber(user)) || StrictlyEqual(ownerId, JsNumber(participant));
        if !listed.available && !isParticipantOwner {
          return Err(NotAvailable);
        }
        validatedProductId := product;
      }
      var existing := Find(Between(userA, userB), conversations);
      if existing.Some? {
        var conversation := existing.value;
        if validatedProductId.Some? && conversation.productId.None? {
          conversations := SetProduct(conversations, conversation.id, validatedProductId.value);
        }
        return Ok(conversation.id);
      }
      var id := nextConversationId;
      nextConversationId := nextConversationId + 1;
      if user !in world.accounts || participant !in world.accounts {
        return Err(NotFound);
      }
      conversations := conversations + [Conversation(id, userA, userB, validatedProductId, None)];
      r := Ok(id);
    }

    /** Lets exactly the participants of the conversation pass, and tells strangers from a missing conversation. */
    method AssertConversationParticipant(conversationId: int, user: int) returns (r: Result<(), Error>)
      requires Valid()
      ensures r.Ok? <==> MemberOf(conversations, conversationId, user)
      ensures r.Err? ==> r.error == NotFound || r.error == NotParticipant
      ensures r == Err(NotFound) <==> forall i :: 0 <= i < |conversations| ==> conversations[i].id != conversationId
    {
      var conversation := Find(ConversationWithId(conversationId), conversations);
      if conversation.None? {
        assert forall i :: 0 <= i < |conversations| ==> !ConversationWithId(conversationId)(conversations[i]);
        return Err(NotFound);
      }
      ghost var k :| 0 <= k < |conversations| && conversations[k] == conversation.value;
      assert conversations[k].id == conversationId;
      assert forall i :: 0 <= i < |conversations| && conversations[i].id == conversationId ==> i == k;
      if conversation.value.userA != user && conversation.value.userB != user {
        return Err(NotParticipant);
      }
      r := Ok(());
    }

    method SendMessage(user: int, conversationId: int, text: string) returns (r: Result<int, Error>)
      requires Valid()
      modifies `conversations, `messages, `nextMessageId
      ensures Outcome(State(), r) == Exec(old(State()), Op.SendMessage(user, conversationId, text))
    {
      VerdictIsFound(State(), conversationId, user);
      var allowed := AssertConversationParticipant(conversationId, user);
      if allowed.Err? {
        return Err(allowed.error);
      }
      var id := nextMessageId;
      nextMessageId := nextMessageId + 1;
      if Blank(text) {
        return Err(BlankText);
      }
      messages := messages + [Message(id, conversationId, user, text, None)];
      conversations := SetLast(conversations, conversationId, id);
      r := Ok(id);
    }

    method MarkRead(user: int, messageId: int, now: int) returns (r: Result<int, Error>)
      requires Valid()
      modifies `messages
      ensures Outcome(State(), r) == Exec(old(State()), Op.MarkRead(user, messageId, now))
    {
      var message := Find(MessageWithId(messageId), messages);
      if message.None? {
        return Err(NotFound);
      }
      VerdictIsFound(State(), message.value.conversationId, user);
      var allowed := AssertConversationParticipant(message.value.conversationId, user);
      if allowed.Err? {
        return Err(allowed.error);
      }
      if message.value.senderId == user {
        return Err(OwnMessage);
      }
      messages := SetRead(messages, messageId, now);
      r := Ok(messageId);
    }

    /** Participants, and nobody else, are shown the number of messages of the other that they have not read. */
    method GetConversationById(user: int, conversationId: int) returns (r: Result<nat, Error>)
      requires Valid()
      ensures r.Ok? <==> MemberOf(conversations, conversationId, user)
      ensures r.Ok? ==> r.value == |Filter(UnreadFor(conversationId, user), messages)| == UnreadCount(messages, conversationId, user)
    {
      var allowed := AssertConversationParticipant(conversationId, user);
      if allowed.Err? {
        return Err(allowed.error);
      }
      var unreadCount := 0;
      for i := 0 to |messages|
        invariant unreadCount == UnreadCount(messages[..i], conversationId, user)
      {
        assert messages[..i + 1][..i] == messages[..i];
        if messages[i].conversationId == conversationId && messages[i].senderId != user && messages[i].readAt.None? {
          unreadCount := unreadCount + 1;
        }
      }
      assert messages[..|messages|] == messages;
      UnreadCountIsFilter(messages, conversationId, user);
      r := Ok(unreadCount);
    }
  }
}
