/**
 * Service-account pushes of app/services/service_accounts.py: storing a
 * push message from a service to a user, broadcasting to a service's
 * subscribers or to a list of bipupu ids, and the subscriber queries.
 *
 * Each stored message also yields the WebSocket frame handed to the
 * connection manager; a failure to deliver it is swallowed, so nothing
 * about the delivery reaches the result.  The creation time is the input
 * `now`, rendered by the input `iso`.
 */
module ServiceAccounts {
  import opened Outcomes
  import opened Json
  import opened Tables
  import opened MessageStore
  import opened ServiceAccountModel
  import UserService

  const DefaultMessageType: string := "SYSTEM"

  /** `pattern or {}`: an absent or empty pattern is stored as `{}`. */
  function StoredPattern(pattern: Option<Object>): (p: Object)
    ensures pattern.Some? && pattern.value != map[] ==> p == pattern.value
    ensures pattern.None? || pattern.value == map[] ==> p == map[]
  {
    if pattern.Some? && pattern.value != map[] then pattern.value else map[]
  }

  /** The `new_message` frame pushed to the receiver's connections. */
  function Frame(m: Message, iso: int -> string): Json {
    JObj(map[
      "type" := JStr("new_message"),
      "payload" := JObj(map[
        "id" := JInt(m.id), "sender_id" := JStr(m.senderId), "content" := JStr(m.content),
        "message_type" := (if m.messageType != "" then JStr(m.messageType) else JNull),
        "pattern" := (if m.pattern.Some? then JObj(m.pattern.value) else JNull),
        "created_at" := JStr(iso(m.createdAt))])])
  }

  /**
   * `send_push`: one message from the service name to the receiver, the
   * pattern defaulting to `{}`, appended to the table; plus its frame.
   */
  function SendPush(
    ms: seq<Message>, serviceName: string, receiver: string, content: string,
    pattern: Option<Object>, messageType: string, now: int, iso: int -> string)
    : (r: (seq<Message>, Message, Json))
    ensures r.0 == ms + [r.1]
    ensures r.1.senderId == serviceName && r.1.receiverId == receiver && r.1.content == content
    ensures r.1.messageType == messageType && r.1.pattern == Some(StoredPattern(pattern)) && r.1.createdAt == now
    ensures forall x :: x in ms ==> x.id < r.1.id
    ensures r.2 == Frame(r.1, iso)
  {
    var m := Message(NextId(ms, (x: Message) => x.id), serviceName, receiver, content, messageType,
                     Some(StoredPattern(pattern)), now);
    (ms + [m], m, Frame(m, iso))
  }

  /** The frame carries the stored message: its id, sender, content and pattern. */
  lemma FrameCarriesMessage(
    ms: seq<Message>, serviceName: string, receiver: string, content: string,
    pattern: Option<Object>, messageType: string, now: int, iso: int -> string)
    ensures var r := SendPush(ms, serviceName, receiver, content, pattern, messageType, now, iso);
      r.2.JObj? && "payload" in r.2.fields && r.2.fields["payload"].JObj?
      && var p := r.2.fields["payload"].fields;
      "id" in p && p["id"] == JInt(r.1.id) && "sender_id" in p && p["sender_id"] == JStr(serviceName)
      && "content" in p && p["content"] == JStr(content)
      && "pattern" in p && p["pattern"] == JObj(StoredPattern(pattern))
  {
  }

  /** The message a push from the service to the receiver stores. */
  predicate PushedTo(m: Message, receiver: string, serviceName: string, content: string, messageType: string) {
    m.receiverId == receiver && m.senderId == serviceName && m.content == content && m.messageType == messageType
  }

  /** A push to each receiver in turn, in order. */
  function PushAll(
    ms: seq<Message>, serviceName: string, receivers: seq<string>, content: string,
    pattern: Option<Object>, messageType: string, now: int, iso: int -> string)
    : (r: seq<Message>)
    ensures |r| == |ms| + |receivers| && r[..|ms|] == ms
    ensures forall i :: 0 <= i < |receivers| ==> PushedTo(r[|ms| + i], receivers[i], serviceName, content, messageType)
    decreases |receivers|
  {
    if receivers == [] then ms
    else
      var sent := SendPush(ms, serviceName, receivers[0], content, pattern, messageType, now, iso);
      var once := sent.0;
      assert once[|ms|] == sent.1 && once[..|ms|] == ms;
      var r := PushAll(once, serviceName, receivers[1..], content, pattern, messageType, now, iso);
      PushStep(ms, once, r, serviceName, receivers, content, messageType);
      r
  }

  /** One push to the first receiver followed by pushes to the rest is a push to each receiver in turn. */
  lemma PushStep(
    ms: seq<Message>, once: seq<Message>, r: seq<Message>, serviceName: string, receivers: seq<string>,
    content: string, messageType: string)
    requires |receivers| > 0 && |once| == |ms| + 1 && once[..|ms|] == ms
    requires PushedTo(once[|ms|], receivers[0], serviceName, content, messageType)
    requires |r| == |once| + |receivers[1..]| && r[..|once|] == once
    requires forall i :: 0 <= i < |receivers[1..]| ==>
               PushedTo(r[|once| + i], receivers[1..][i], serviceName, content, messageType)
    ensures |r| == |ms| + |receivers| && r[..|ms|] == ms
    ensures forall i :: 0 <= i < |receivers| ==> PushedTo(r[|ms| + i], receivers[i], serviceName, content, messageType)
  {
    assert r[..|ms|] == r[..|once|][..|ms|];
    assert r[|ms|] == r[..|once|][|ms|] == once[|ms|];
    forall i | 0 <= i < |receivers|
      ensures PushedTo(r[|ms| + i], receivers[i], serviceName, content, messageType)
    {
      if i > 0 {
        assert |ms| + i == |once| + (i - 1);
        assert receivers[i] == receivers[1..][i - 1];
        assert PushedTo(r[|once| + (i - 1)], receivers[1..][i - 1], serviceName, content, messageType);
      }
    }
  }

  function ServiceNamed(services: seq<ServiceAccount>, name: string): (r: Option<ServiceAccount>)
    ensures r.Some? ==> r.value in services && r.value.name == name
    ensures r.None? <==> forall s :: s in services ==> s.name != name
  {
    First(services, (s: ServiceAccount) => s.name == name)
  }

  /** `service.subscribers`: the users holding a subscription row for the service, in table order. */
  function SubscribersOf(users: seq<UserService.User>, rows: seq<SubscriptionRow>, serviceId: nat)
    : (r: seq<UserService.User>)
    ensures forall u :: u in r <==> u in users && exists x :: x in rows && RowOf(x, serviceId, u.id)
  {
    Filter(users, (u: UserService.User) => exists x :: x in rows && RowOf(x, serviceId, u.id))
  }

  function BipupuIds(us: seq<UserService.User>): (r: seq<string>)
    ensures |r| == |us| && forall i :: 0 <= i < |us| ==> r[i] == us[i].bipupuId
  {
    seq(|us|, (i: int) requires 0 <= i < |us| => us[i].bipupuId)
  }

  /**
   * `broadcast_push`: 0 and no message for an unknown service; otherwise one
   * push per subscriber, counted.  Whether the service is active is not
   * checked.
   */
  function BroadcastPush(
    ms: seq<Message>, services: seq<ServiceAccount>, users: seq<UserService.User>, rows: seq<SubscriptionRow>,
    serviceName: string, content: string, pattern: Option<Object>, messageType: string, now: int, iso: int -> string)
    : (r: (nat, seq<Message>))
    ensures ServiceNamed(services, serviceName).None? ==> r == (0, ms)
    ensures r.0 == GetSubscriberCount(services, users, rows, serviceName)
    ensures |r.1| == |ms| + r.0 && r.1[..|ms|] == ms
    ensures var subs := GetSubscribers(services, users, rows, serviceName);
      forall i :: 0 <= i < r.0 ==> r.1[|ms| + i].receiverId == subs[i].bipupuId
                                   && r.1[|ms| + i].senderId == serviceName
  {
    var s := ServiceNamed(services, serviceName);
    if s.None? then (0, ms)
    else
      var subs := SubscribersOf(users, rows, s.value.id);
      (|subs|, PushAll(ms, serviceName, BipupuIds(subs), content, pattern, messageType, now, iso))
  }

  predicate KnownId(users: seq<UserService.User>, bipupuId: string) {
    exists u :: u in users && u.bipupuId == bipupuId
  }

  /**
   * `broadcast_to_users`: a push for each listed id that names a user, in
   * list order (a repeated id is pushed to again); unknown ids are skipped.
   */
  function BroadcastToUsers(
    ms: seq<Message>, users: seq<UserService.User>, serviceName: string, ids: seq<string>,
    content: string, pattern: Option<Object>, messageType: string, now: int, iso: int -> string)
    : (r: (nat, seq<Message>))
    ensures r.0 == |Filter(ids, (id: string) => KnownId(users, id))|
    ensures |r.1| == |ms| + r.0 && r.1[..|ms|] == ms
    ensures forall i :: |ms| <= i < |r.1| ==> KnownId(users, r.1[i].receiverId) && r.1[i].senderId == serviceName
    ensures forall i :: |ms| <= i < |r.1| ==>
              PushedTo(r.1[i], Filter(ids, (id: string) => KnownId(users, id))[i - |ms|], serviceName, content, messageType)
  {
    var known := Filter(ids, (id: string) => KnownId(users, id));
    var r := PushAll(ms, serviceName, known, content, pattern, messageType, now, iso);
    assert forall i :: |ms| <= i < |r| ==> r[i].receiverId == known[i - |ms|] && known[i - |ms|] in known;
    (|known|, r)
  }

  /** With every id known, each id gets exactly one push, in order. */
  lemma BroadcastToKnownUsers(
    ms: seq<Message>, users: seq<UserService.User>, serviceName: string, ids: seq<string>,
    content: string, pattern: Option<Object>, messageType: string, now: int, iso: int -> string)
    requires forall id :: id in ids ==> KnownId(users, id)
    ensures var r := BroadcastToUsers(ms, users, serviceName, ids, content, pattern, messageType, now, iso);
      r.0 == |ids| && forall i :: 0 <= i < |ids| ==> r.1[|ms| + i].receiverId == ids[i]
  {
    FilterAll(ids, (id: string) => KnownId(users, id));
  }

  /** `get_subscribers`: [] for an unknown service. */
  function GetSubscribers(
    services: seq<ServiceAccount>, users: seq<UserService.User>, rows: seq<SubscriptionRow>, serviceName: string)
    : (r: seq<UserService.User>)
    ensures ServiceNamed(services, serviceName).None? ==> r == []
    ensures ServiceNamed(services, serviceName).Some? ==> r == SubscribersOf(users, rows, ServiceNamed(services, serviceName).value.id)
  {
    var s := ServiceNamed(services, serviceName);
    if s.None? then [] else SubscribersOf(users, rows, s.value.id)
  }

  /** `get_subscriber_count`: 0 for an unknown service, else the number of subscribers. */
  function GetSubscriberCount(
    services: seq<ServiceAccount>, users: seq<UserService.User>, rows: seq<SubscriptionRow>, serviceName: string)
    : (n: nat)
    ensures ServiceNamed(services, serviceName).None? ==> n == 0
    ensures n == |GetSubscribers(services, users, rows, serviceName)|
    ensures n <= |users|
  {
    var s := ServiceNamed(services, serviceName);
    if s.None? then 0 else |SubscribersOf(users, rows, s.value.id)|
  }

  /** `service_exists`: some service of that name is active. */
  function ServiceExists(services: seq<ServiceAccount>, serviceName: string): (b: bool)
    ensures b <==> exists s :: s in services && s.name == serviceName && s.isActive
  {
    First(services, (s: ServiceAccount) => s.name == serviceName && s.isActive).Some?
  }

  /**
   * With unique names, `service_exists` is exactly "the service the other
   * queries find is active": a broadcast may reach subscribers of a service
   * that does not exist in this sense.
   */
  lemma ExistsMeansFoundAndActive(services: seq<ServiceAccount>, serviceName: string)
    requires forall i, j :: 0 <= i < j < |services| ==> services[i].name != services[j].name
    ensures ServiceExists(services, serviceName) <==>
              ServiceNamed(services, serviceName).Some? && ServiceNamed(services, serviceName).value.isActive
  {
    var f := ServiceNamed(services, serviceName);
    if ServiceExists(services, serviceName) {
      var s :| s in services && s.name == serviceName && s.isActive;
      var i :| 0 <= i < |services| && services[i] == s;
      var j :| 0 <= j < |services| && services[j] == f.value;
      assert i == j;
    }
  }
}
