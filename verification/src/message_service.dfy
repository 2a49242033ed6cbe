/**
 * Message sending and deletion of the message service
 * (app/services/message_service.py).
 *
 * The rate limit counts the sender's messages of the last minute; that count
 * is an input here.  The WebSocket push after a successful send is left out
 * (it never changes the outcome).
 */
module MessageService {
  import opened Outcomes
  import opened Json
  import opened Text
  import opened MessageStore
  import UserUtils

  datatype User = User(id: nat, bipupuId: string)
  datatype ServiceAccount = ServiceAccount(name: string, isActive: bool)

  datatype Store = Store(
    users: seq<User>, services: seq<ServiceAccount>, blocks: set<(nat, nat)>, messages: seq<Message>)

  /** At most this many messages per sender in the last minute. */
  const RateLimit: nat := 30

  const AudioKeys: set<string> := {"audio", "audio_url", "voice", "voice_url", "transcript", "audio_path"}

  /** Some key of the pattern, lower-cased, names audio. */
  predicate MentionsAudio(pattern: Option<Object>) {
    pattern.Some? && exists k :: k in pattern.value && LowerString(k) in AudioKeys
  }

  /** `_pattern_has_audio`: a null or empty pattern has none; else intersect the lower-cased keys. */
  function PatternHasAudio(pattern: Option<Object>): (b: bool)
    ensures b <==> MentionsAudio(pattern)
  {
    if pattern.None? || pattern.value == map[] then false
    else
      var keys := set k | k in pattern.value :: LowerString(k);
      assert forall k :: k in pattern.value ==> LowerString(k) in keys;
      |keys * AudioKeys| > 0
  }

  /** The type of a new message: SYSTEM from a service account, else VOICE or NORMAL by the pattern. */
  function ClassifyType(senderBipupuId: string, pattern: Option<Object>): (t: string)
    ensures t == "SYSTEM" || t == "VOICE" || t == "NORMAL"
    ensures t == "SYSTEM" <==> '.' in senderBipupuId
    ensures t == "VOICE" <==> '.' !in senderBipupuId && MentionsAudio(pattern)
  {
    if UserUtils.IsServiceAccount(senderBipupuId) then "SYSTEM"
    else if PatternHasAudio(pattern) then "VOICE"
    else "NORMAL"
  }

  function FindUser(users: seq<User>, bipupuId: string): (r: Option<User>)
    ensures r.Some? ==> r.value in users && r.value.bipupuId == bipupuId
    ensures r.None? <==> forall u :: u in users ==> u.bipupuId != bipupuId
  {
    if users == [] then None
    else if users[0].bipupuId == bipupuId then Some(users[0])
    else FindUser(users[1..], bipupuId)
  }

  function FindService(services: seq<ServiceAccount>, name: string): (r: Option<ServiceAccount>)
    ensures r.Some? ==> r.value in services && r.value.name == name
    ensures r.None? <==> forall s :: s in services ==> s.name != name
  {
    if services == [] then None
    else if services[0].name == name then Some(services[0])
    else FindService(services[1..], name)
  }

  datatype Sent = Sent(store: Store, message: Message)

  /**
   * `send_message` with the recent count given: too many recent messages,
   * an unknown service account, an unknown user or a block by the receiver
   * raise ValueError; a message to a service account is stored even when
   * the service is inactive.
   */
  function SendMessage(
    st: Store, sender: User, receiverId: string, content: string, pattern: Option<Object>,
    recentCount: nat, now: int): (r: Result<Sent>)
    ensures recentCount > RateLimit ==> r == Err(ValueErr)
    ensures r.Err? ==> r.error == ValueErr
    ensures recentCount <= RateLimit && '.' in receiverId ==>
      (r.Ok? <==> exists s :: s in st.services && s.name == receiverId)
    ensures recentCount <= RateLimit && '.' !in receiverId ==>
      (r.Ok? <==> FindUser(st.users, receiverId).Some? && (FindUser(st.users, receiverId).value.id, sender.id) !in st.blocks)
    ensures r.Ok? ==> r.value.store == st.(messages := st.messages + [r.value.message])
    ensures r.Ok? ==>
      var m := r.value.message;
      m.senderId == sender.bipupuId && m.receiverId == receiverId && m.content == content
      && m.pattern == pattern && m.messageType == ClassifyType(sender.bipupuId, pattern)
      && m.id !in set x | x in st.messages :: x.id
  {
    if recentCount > RateLimit then Err(ValueErr)
    else
      var m := Message(NextMessageId(st.messages), sender.bipupuId, receiverId, content,
        ClassifyType(sender.bipupuId, pattern), pattern, now);
      var stored := Ok(Sent(st.(messages := st.messages + [m]), m));
      if UserUtils.IsServiceAccount(receiverId) then
        if FindService(st.services, receiverId).None? then Err(ValueErr) else stored
      else
        match FindUser(st.users, receiverId)
        case None => Err(ValueErr)
        case Some(receiver) =>
          if (receiver.id, sender.id) in st.blocks then Err(ValueErr) else stored
  }

  /**
   * `send_message` as written: its first statement builds the rate-limit
   * filter with `datetime.now(datetime.timezone.utc)`, where `datetime` is
   * the class imported from the datetime module, which has no `timezone`
   * attribute, so every call raises AttributeError before reading a row.
   */
  function SendMessageAsWritten(
    st: Store, sender: User, receiverId: string, content: string, pattern: Option<Object>, now: int)
    : (r: Result<Sent>)
    ensures r.Err? && r.error == RuntimeErr
  {
    Err(RuntimeErr)
  }

  /** Any send the intended rule admits is refused by the code as written. */
  lemma AsWrittenRefusesAdmissibleSends(
    st: Store, sender: User, receiver: User, content: string, pattern: Option<Object>, now: int)
    requires receiver in st.users && '.' !in receiver.bipupuId
    requires forall u :: u in st.users && u.bipupuId == receiver.bipupuId ==> (u.id, sender.id) !in st.blocks
    ensures SendMessage(st, sender, receiver.bipupuId, content, pattern, 0, now).Ok?
    ensures SendMessageAsWritten(st, sender, receiver.bipupuId, content, pattern, now).Err?
  {
  }

  /** Exactly 30 recent messages still pass the limit; the 31st does not. */
  lemma RateLimitBoundary(st: Store, sender: User, receiverId: string, content: string, pattern: Option<Object>, now: int)
    ensures SendMessage(st, sender, receiverId, content, pattern, 31, now) == Err(ValueErr)
    ensures SendMessage(st, sender, receiverId, content, pattern, 30, now) ==
      SendMessage(st, sender, receiverId, content, pattern, 0, now)
  {
  }

  /** `delete_message`: deletes a message only when the caller received it. */
  function DeleteMessage(ms: seq<Message>, messageId: nat, caller: User): (r: (seq<Message>, bool))
    ensures r.1 <==> exists m :: m in ms && m.id == messageId && m.receiverId == caller.bipupuId
    ensures r.1 ==> forall m :: m in r.0 <==> m in ms && m.id != messageId
    ensures !r.1 ==> r.0 == ms
  {
    var target := Where(ms, (m: Message) => m.id == messageId && m.receiverId == caller.bipupuId);
    if target == [] then
      assert forall m :: m in ms && m.id == messageId && m.receiverId == caller.bipupuId ==> m in target;
      (ms, false)
    else
      assert target[0] in target;
      (RemoveMessage(ms, target[0].id), true)
  }

  /** `get_received_messages`: the caller's inbox, newest first, one page, with the total. */
  function ReceivedMessages(ms: seq<Message>, caller: User, page: nat, pageSize: nat): (r: Listing)
    requires page >= 1
    ensures |r.items| <= pageSize
    ensures forall m :: m in r.items ==> m in ms && m.receiverId == caller.bipupuId
    ensures r.total == |Where(ms, (m: Message) => m.receiverId == caller.bipupuId)|
  {
    ListNewestFirst(ms, (m: Message) => m.receiverId == caller.bipupuId, page, pageSize)
  }

  /** `get_sent_messages`: the caller's outbox, newest first, one page, with the total. */
  function SentMessages(ms: seq<Message>, caller: User, page: nat, pageSize: nat): (r: Listing)
    requires page >= 1
    ensures |r.items| <= pageSize
    ensures forall m :: m in r.items ==> m in ms && m.senderId == caller.bipupuId
    ensures r.total == |Where(ms, (m: Message) => m.senderId == caller.bipupuId)|
  {
    ListNewestFirst(ms, (m: Message) => m.senderId == caller.bipupuId, page, pageSize)
  }
}
