/**
 * The message HTTP routes (app/api/routes/messages.py): send, list, long
 * poll, favourites and sender-only delete.
 *
 * The long-poll loop re-reads the table once a second for `timeout`
 * seconds; the model takes the message table as seen at each of those
 * reads.  Any unexpected exception inside a route becomes a 500, which the
 * model does not produce (database failures are not modelled).
 */
module MessageRoutes {
  import opened Outcomes
  import opened Json
  import opened MessageStore
  import Paging
  import opened Tables
  import FieldRules

  datatype Caller = Caller(id: nat, bipupuId: string)
  datatype User = User(id: nat, bipupuId: string, isActive: bool)
  datatype ServiceAccount = ServiceAccount(name: string, isActive: bool)

  datatype MessageCreate = MessageCreate(receiverId: string, content: string, messageType: string, pattern: Option<Object>)

  predicate ActiveUserWith(users: seq<User>, bipupuId: string) {
    exists u :: u in users && u.bipupuId == bipupuId && u.isActive
  }

  predicate ActiveServiceNamed(services: seq<ServiceAccount>, name: string) {
    exists s :: s in services && s.name == name && s.isActive
  }

  function AnyActiveUser(users: seq<User>, bipupuId: string): (b: bool)
    ensures b <==> ActiveUserWith(users, bipupuId)
  {
    if users == [] then false
    else (users[0].bipupuId == bipupuId && users[0].isActive) || AnyActiveUser(users[1..], bipupuId)
  }

  function AnyActiveService(services: seq<ServiceAccount>, name: string): (b: bool)
    ensures b <==> ActiveServiceNamed(services, name)
  {
    if services == [] then false
    else (services[0].name == name && services[0].isActive) || AnyActiveService(services[1..], name)
  }

  /**
   * `POST /messages`: `MessageCreate` refuses empty content with 422 before
   * the route runs; the receiver must then be an active user or an active
   * service account.
   */
  function SendMessage(
    users: seq<User>, services: seq<ServiceAccount>, ms: seq<Message>, caller: Caller, req: MessageCreate, now: int)
    : (r: Result<(seq<Message>, Message)>)
    ensures r.Ok? <==> req.content != ""
                       && (ActiveUserWith(users, req.receiverId) || ActiveServiceNamed(services, req.receiverId))
    ensures req.content == "" ==> r == Err(FieldRules.Rejected)
    ensures req.content != "" && r.Err? ==> r.error == Http(404, "接收者不存在")
    ensures r.Ok? ==> r.value.0 == ms + [r.value.1]
    ensures r.Ok? ==>
      var m := r.value.1;
      m.senderId == caller.bipupuId && m.receiverId == req.receiverId && m.content == req.content
      && m.messageType == req.messageType && m.pattern == req.pattern && m.createdAt == now
  {
    if req.content == "" then Err(FieldRules.Rejected)
    else if !AnyActiveUser(users, req.receiverId) && !AnyActiveService(services, req.receiverId) then
      Err(Http(404, "接收者不存在"))
    else
      var m := Message(NextMessageId(ms), caller.bipupuId, req.receiverId, req.content, req.messageType, req.pattern, now);
      Ok((ms + [m], m))
  }

  /**
   * The send route as written: empty content is refused by the schema;
   * once the receiver check passes, building the row reads `.value` of a
   * plain string and passes column names the message table does not have,
   * so the generic handler answers 500.
   */
  function SendMessageAsWritten(
    users: seq<User>, services: seq<ServiceAccount>, ms: seq<Message>, caller: Caller, req: MessageCreate, now: int)
    : (r: Result<(seq<Message>, Message)>)
    ensures r.Err?
    ensures req.content == "" ==> r == Err(FieldRules.Rejected)
    ensures req.content != "" && !ActiveUserWith(users, req.receiverId) && !ActiveServiceNamed(services, req.receiverId) ==>
      r == Err(Http(404, "接收者不存在"))
  {
    if req.content == "" then Err(FieldRules.Rejected)
    else if !AnyActiveUser(users, req.receiverId) && !AnyActiveService(services, req.receiverId) then
      Err(Http(404, "接收者不存在"))
    else Err(Http(500, "消息发送失败"))
  }

  /** Every valid send to a reachable receiver fails as written and succeeds once corrected. */
  lemma AsWrittenSendAlwaysFails(
    users: seq<User>, services: seq<ServiceAccount>, ms: seq<Message>, caller: Caller, req: MessageCreate, now: int)
    requires req.content != ""
    requires ActiveUserWith(users, req.receiverId) || ActiveServiceNamed(services, req.receiverId)
    ensures SendMessageAsWritten(users, services, ms, caller, req, now) == Err(Http(500, "消息发送失败"))
    ensures SendMessage(users, services, ms, caller, req, now).Ok?
  {
  }

  /** `direction == "sent"` lists the outbox; any other value lists the inbox. */
  function DirectionFilter(direction: string, caller: Caller): Message -> bool {
    if direction == "sent" then (m: Message) => m.senderId == caller.bipupuId
    else (m: Message) => m.receiverId == caller.bipupuId
  }

  datatype MessageList = MessageList(messages: seq<Message>, total: nat, page: int, pageSize: int)

  /** `GET /messages`: one page of the chosen box, newest first, with the box's total. */
  function GetMessages(ms: seq<Message>, caller: Caller, direction: string, page: int, pageSize: int)
    : (r: Result<MessageList>)
    ensures r.Ok? <==> page >= 1 && 1 <= pageSize <= Paging.MaxPageSize
    ensures r.Ok? ==> r.value.page == page && r.value.pageSize == pageSize && |r.value.messages| <= pageSize
    ensures r.Ok? && direction == "sent" ==>
      forall m :: m in r.value.messages ==> m in ms && m.senderId == caller.bipupuId
    ensures r.Ok? && direction != "sent" ==>
      forall m :: m in r.value.messages ==> m in ms && m.receiverId == caller.bipupuId
    ensures r.Ok? && Chronological(ms) ==> NewestFirst(r.value.messages)
    ensures r.Ok? ==> r.value.total == |Where(ms, DirectionFilter(direction, caller))|
    ensures r.Ok? ==> r.value.messages == ListNewestFirst(ms, DirectionFilter(direction, caller), page, pageSize).items
  {
    if page < 1 || pageSize < 1 || pageSize > Paging.MaxPageSize then Err(Http(422, ""))
    else
      var listing := ListNewestFirst(ms, DirectionFilter(direction, caller), page, pageSize);
      if Chronological(ms) then
        ListingIsNewestFirst(ms, DirectionFilter(direction, caller), page, pageSize);
        Ok(MessageList(listing.items, listing.total, page, pageSize))
      else Ok(MessageList(listing.items, listing.total, page, pageSize))
  }

  const PollBatch: nat := 20

  datatype PollResponse = PollResponse(messages: seq<Message>, hasMore: bool)

  function Arrivals(ms: seq<Message>, caller: Caller, lastMsgId: int): seq<Message> {
    Where(ms, (m: Message) => m.receiverId == caller.bipupuId && m.id > lastMsgId)
  }

  /** The checks of the poll loop, one per table state read, until one finds new messages. */
  function PollChecks(snapshots: seq<seq<Message>>, caller: Caller, lastMsgId: int): (r: PollResponse)
    ensures r.messages == [] ==> !r.hasMore
    ensures r.hasMore <==> |r.messages| >= PollBatch
    ensures r.messages != [] ==> exists k :: 0 <= k < |snapshots| && r.messages == Arrivals(snapshots[k], caller, lastMsgId)
    ensures r.messages == [] <==> forall k :: 0 <= k < |snapshots| ==> Arrivals(snapshots[k], caller, lastMsgId) == []
  {
    if snapshots == [] then PollResponse([], false)
    else
      var found := Arrivals(snapshots[0], caller, lastMsgId);
      if found != [] then PollResponse(found, |found| >= PollBatch)
      else
        var rest := PollChecks(snapshots[1..], caller, lastMsgId);
        assert forall k :: 1 <= k < |snapshots| ==> snapshots[k] == snapshots[1..][k - 1];
        rest
  }

  /**
   * `GET /messages/poll`: new messages for the caller with an id above
   * `last_msg_id`, oldest first; an empty answer with `has_more` false on
   * timeout.  `snapshots` holds the table as each of the `timeout` checks sees it.
   */
  function Poll(snapshots: seq<seq<Message>>, caller: Caller, lastMsgId: int, timeout: int): (r: Result<PollResponse>)
    requires 1 <= timeout <= 120 ==> |snapshots| == timeout
    ensures r.Ok? <==> lastMsgId >= 0 && 1 <= timeout <= 120
    ensures r.Ok? ==> forall m :: m in r.value.messages ==> m.receiverId == caller.bipupuId && m.id > lastMsgId
    ensures r.Ok? ==> (r.value.hasMore <==> |r.value.messages| >= PollBatch)
    ensures r.Ok? && (forall k :: 0 <= k < |snapshots| ==> Chronological(snapshots[k])) ==> Chronological(r.value.messages)
    ensures r.Ok? ==> r.value == PollChecks(snapshots, caller, lastMsgId)
  {
    if lastMsgId < 0 || timeout < 1 || timeout > 120 then Err(Http(422, ""))
    else
      var resp := PollChecks(snapshots, caller, lastMsgId);
      if resp.messages != [] then
        var k :| 0 <= k < |snapshots| && resp.messages == Arrivals(snapshots[k], caller, lastMsgId);
        if Chronological(snapshots[k]) then
          WhereKeepsChronological(snapshots[k], (m: Message) => m.receiverId == caller.bipupuId && m.id > lastMsgId);
          Ok(resp)
        else Ok(resp)
      else Ok(resp)
  }

  datatype FavoriteView = FavoriteView(favorite: Favorite, message: Message)

  datatype FavoriteList = FavoriteList(favorites: seq<FavoriteView>, total: nat, page: int, pageSize: int)

  /** Pair each favourite with its message, dropping those whose message is gone. */
  function JoinMessages(fs: seq<Favorite>, ms: seq<Message>): (r: seq<FavoriteView>)
    ensures |r| <= |fs|
    ensures forall v :: v in r ==> v.favorite in fs && v.message in ms && v.message.id == v.favorite.messageId
    ensures forall f :: f in fs && FindMessage(ms, f.messageId).Some? ==>
      FavoriteView(f, FindMessage(ms, f.messageId).value) in r
  {
    if fs == [] then []
    else
      var rest := JoinMessages(fs[1..], ms);
      match FindMessage(ms, fs[0].messageId)
      case Some(m) => [FavoriteView(fs[0], m)] + rest
      case None => rest
  }

  /**
   * `GET /messages/favorites`: the total counts all of the caller's
   * favourites, the page holds one window of them, newest first, keeping
   * only those whose message still exists.
   */
  function GetFavorites(fs: seq<Favorite>, ms: seq<Message>, caller: Caller, page: int, pageSize: int)
    : (r: Result<FavoriteList>)
    ensures r.Ok? <==> page >= 1 && 1 <= pageSize <= Paging.MaxPageSize
    ensures r.Ok? ==> r.value.total == |Filter(fs, (f: Favorite) => f.userId == caller.id)|
    ensures r.Ok? ==> |r.value.favorites| <= pageSize
    ensures r.Ok? ==> forall v :: v in r.value.favorites ==> v.favorite in fs && v.favorite.userId == caller.id && v.message in ms
  {
    if page < 1 || pageSize < 1 || pageSize > Paging.MaxPageSize then Err(Http(422, ""))
    else
      var mine := Filter(fs, (f: Favorite) => f.userId == caller.id);
      var window := Paging.Window(Reverse(mine), (page - 1) * pageSize, pageSize);
      ReverseSameElements(mine);
      assert forall f :: f in window ==> f in Reverse(mine);
      Ok(FavoriteList(JoinMessages(window, ms), |mine|, page, pageSize))
  }

  /** `POST /messages/{id}/favorite`: 404 for a missing message, 409 when already favourited. */
  function AddFavorite(fs: seq<Favorite>, ms: seq<Message>, caller: Caller, messageId: nat, note: Option<string>, now: int)
    : (r: Result<(seq<Favorite>, Favorite)>)
    ensures FindMessage(ms, messageId).None? ==> r == Err(Http(404, "消息不存在"))
    ensures FindMessage(ms, messageId).Some? && FindFavorite(fs, caller.id, messageId).Some? ==>
      r == Err(Http(409, "消息已收藏"))
    ensures r.Ok? <==> FindMessage(ms, messageId).Some? && FindFavorite(fs, caller.id, messageId).None?
    ensures r.Ok? ==> (r.value.0 == fs + [r.value.1]
      && r.value.1.userId == caller.id && r.value.1.messageId == messageId && r.value.1.note == note)
    ensures r.Ok? && UniqueFavorites(fs) ==> UniqueFavorites(r.value.0)
  {
    if FindMessage(ms, messageId).None? then Err(Http(404, "消息不存在"))
    else if FindFavorite(fs, caller.id, messageId).Some? then Err(Http(409, "消息已收藏"))
    else
      var f := Favorite(NextFavoriteId(fs), caller.id, messageId, note, now);
      assert forall i :: 0 <= i < |fs| ==> fs[i] in fs;
      Ok((fs + [f], f))
  }

  /** `DELETE /messages/{id}/favorite`: 404 when the caller has not favourited the message. */
  function RemoveFavorite(fs: seq<Favorite>, caller: Caller, messageId: nat): (r: Result<seq<Favorite>>)
    ensures r.Ok? <==> FindFavorite(fs, caller.id, messageId).Some?
    ensures r.Err? ==> r.error == Http(404, "收藏不存在")
    ensures r.Ok? ==> forall f :: f in r.value <==> f in fs && f != FindFavorite(fs, caller.id, messageId).value
  {
    match FindFavorite(fs, caller.id, messageId)
    case None => Err(Http(404, "收藏不存在"))
    case Some(target) => Ok(Filter(fs, (f: Favorite) => f != target))
  }

  /** `DELETE /messages/{id}`: 404 for a missing message, 403 unless the caller sent it. */
  function DeleteMessage(ms: seq<Message>, caller: Caller, messageId: nat): (r: Result<seq<Message>>)
    ensures FindMessage(ms, messageId).None? ==> r == Err(Http(404, "消息不存在"))
    ensures FindMessage(ms, messageId).Some? && FindMessage(ms, messageId).value.senderId != caller.bipupuId ==>
      r == Err(Http(403, "无权删除此消息"))
    ensures r.Ok? ==> FindMessage(ms, messageId).Some? && FindMessage(ms, messageId).value.senderId == caller.bipupuId
    ensures r.Ok? ==> forall m :: m in r.value <==> m in ms && m.id != messageId
  {
    match FindMessage(ms, messageId)
    case None => Err(Http(404, "消息不存在"))
    case Some(m) =>
      if m.senderId != caller.bipupuId then Err(Http(403, "无权删除此消息"))
      else Ok(RemoveMessage(ms, messageId))
  }
}
