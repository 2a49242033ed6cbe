/**
 * System notifications (app/api/endpoints/system_notifications.py): a
 * superuser's broadcast fans out one NOTIFICATION message per target
 * user, stamped with source keys and an rgb/vibe pattern derived from the
 * priority; receivers list, read and archive their own.  The table is a
 * sequence in creation order.
 */
module SystemNotifications {
  import opened Outcomes
  import opened Json
  import opened Tables
  import Paging
  import Text

  datatype Status = Unread | Read | Archived

  datatype Notification = Notification(
    id: nat, title: string, content: string, priority: int, isNotification: bool,
    senderId: nat, receiverId: nat, pattern: Object,
    isRead: bool, status: Status, readAt: Option<int>, createdAt: int)

  datatype User = User(id: nat, isActive: bool)

  datatype Broadcast = Broadcast(
    title: string, content: string, priority: int, targetUsers: Option<seq<nat>>, pattern: Option<Object>)

  const MinPriority: int := 0
  const MaxPriority: int := 10
  const HighPriority: int := 7
  const MaxIntensity: int := 80
  const VibeDuration: int := 2000

  /** Red for priority 7 and above, blue below. */
  function Rgb(priority: int): (rgb: (int, int, int))
    ensures priority >= HighPriority ==> rgb == (255, 100, 100)
    ensures priority < HighPriority ==> rgb == (100, 150, 255)
  {
    if priority >= HighPriority then (255, 100, 100) else (100, 150, 255)
  }

  /** `min(priority * 10, 80)`. */
  function Intensity(priority: int): (i: int)
    ensures i <= MaxIntensity
    ensures i == MaxIntensity || i == priority * 10
    ensures 0 <= priority <= MaxPriority ==> 0 <= i
  {
    if priority * 10 <= MaxIntensity then priority * 10 else MaxIntensity
  }

  /** The keys the broadcast writes over the request's pattern. */
  function Stamp(priority: int, adminId: nat): Object {
    var (r, g, b) := Rgb(priority);
    map[
      "source_type" := JStr("system"),
      "source_id" := JInt(adminId),
      "notification_type" := JStr("system_broadcast"),
      "rgb" := JObj(map["r" := JInt(r), "g" := JInt(g), "b" := JInt(b)]),
      "vibe" := JObj(map["intensity" := JInt(Intensity(priority)), "duration" := JInt(VibeDuration)])]
  }

  /** `(pattern or {}).update(stamp)`: the stamped keys win, every other request key survives. */
  function NotificationPattern(requested: Option<Object>, priority: int, adminId: nat): (p: Object)
    ensures "source_type" in p && p["source_type"] == JStr("system")
    ensures "source_id" in p && p["source_id"] == JInt(adminId)
    ensures "notification_type" in p && p["notification_type"] == JStr("system_broadcast")
    ensures requested.Some? ==> forall k :: k in requested.value && k !in Stamp(priority, adminId) ==> k in p && p[k] == requested.value[k]
    ensures p.Keys == (if requested.Some? then requested.value.Keys else {}) + Stamp(priority, adminId).Keys
  {
    Update(if requested.Some? then requested.value else map[], Stamp(priority, adminId))
  }

  /** Whether a message is a system notification: NOTIFICATION type with `source_type` "system" in its pattern. */
  predicate IsSystem(m: Notification) {
    m.isNotification && "source_type" in m.pattern && m.pattern["source_type"] == JStr("system")
  }

  /**
   * The recipients: the explicitly listed users when the list is non-empty
   * (the query yields each matching row once, so a repeated id makes the
   * counts differ), otherwise every active user.
   */
  function Recipients(users: seq<User>, targets: Option<seq<nat>>): (r: Result<seq<User>>)
    ensures targets.Some? && targets.value != [] ==>
      (r.Ok? <==> |Filter(users, (u: User) => u.id in targets.value)| == |targets.value|)
    ensures r.Err? ==> r.error == Custom(ValidationError, "部分目标用户不存在")
    ensures r.Ok? && targets.Some? && targets.value != [] ==> forall u :: u in r.value <==> u in users && u.id in targets.value
    ensures (targets.None? || targets.value == []) ==> r == Ok(Filter(users, (u: User) => u.isActive))
  {
    if targets.Some? && targets.value != [] then
      var found := Filter(users, (u: User) => u.id in targets.value);
      if |found| != |targets.value| then Err(Custom(ValidationError, "部分目标用户不存在")) else Ok(found)
    else Ok(Filter(users, (u: User) => u.isActive))
  }

  function MakeMessages(recipients: seq<User>, b: Broadcast, adminId: nat, firstId: nat, now: int): (r: seq<Notification>)
    ensures |r| == |recipients|
    ensures forall i :: 0 <= i < |r| ==> (r[i].receiverId == recipients[i].id && r[i].senderId == adminId
      && r[i].id == firstId + i && r[i].title == b.title && r[i].content == b.content && r[i].priority == b.priority
      && r[i].isNotification && !r[i].isRead && r[i].status == Unread && r[i].createdAt == now
      && r[i].pattern == NotificationPattern(b.pattern, b.priority, adminId))
    decreases |recipients|
  {
    if recipients == [] then []
    else
      [Notification(firstId, b.title, b.content, b.priority, true, adminId, recipients[0].id,
        NotificationPattern(b.pattern, b.priority, adminId), false, Unread, None, now)]
      + MakeMessages(recipients[1..], b, adminId, firstId + 1, now)
  }

  datatype Created = Created(table: seq<Notification>, createdCount: nat)

  /** `POST /`: a priority outside 0..10 or an unknown target is refused; otherwise one message per recipient. */
  function CreateSystemNotification(ms: seq<Notification>, users: seq<User>, adminId: nat, b: Broadcast, now: int)
    : (r: Result<Created>)
    ensures !(MinPriority <= b.priority <= MaxPriority) ==> r == Err(Custom(ValidationError, "优先级必须在0-10之间"))
    ensures r.Ok? ==> MinPriority <= b.priority <= MaxPriority && Recipients(users, b.targetUsers).Ok?
    ensures r.Ok? ==> |r.value.table| == |ms| + r.value.createdCount && r.value.table[..|ms|] == ms
    ensures r.Ok? ==> var sent := r.value.table[|ms|..];
      r.value.createdCount == |Recipients(users, b.targetUsers).value|
      && (forall i :: 0 <= i < |sent| ==> sent[i].receiverId == Recipients(users, b.targetUsers).value[i].id)
      && (forall m :: m in sent ==> IsSystem(m) && m.senderId == adminId && m.status == Unread)
  {
    if b.priority < MinPriority || b.priority > MaxPriority then Err(Custom(ValidationError, "优先级必须在0-10之间"))
    else
      var recipients :- Recipients(users, b.targetUsers);
      var sent := MakeMessages(recipients, b, adminId, NextId(ms, (m: Notification) => m.id), now);
      assert (ms + sent)[|ms|..] == sent && (ms + sent)[..|ms|] == ms;
      Ok(Created(ms + sent, |sent|))
  }

  /** A target list naming an existing user twice is refused, though every listed user exists. */
  lemma RepeatedTargetRefused(ms: seq<Notification>, u: User, adminId: nat, now: int)
    ensures CreateSystemNotification(ms, [u], adminId, Broadcast("t", "c", 5, Some([u.id, u.id]), None), now).Err?
  {
    var found := Filter([u], (x: User) => x.id in [u.id, u.id]);
    assert |found| <= 1;
  }

  /** Every message a broadcast creates carries the same vibe, its intensity within 0..80. */
  lemma IntensityNeverExceedsCap(b: Broadcast, ms: seq<Notification>, users: seq<User>, adminId: nat, now: int)
    requires CreateSystemNotification(ms, users, adminId, b, now).Ok?
    ensures forall m :: m in CreateSystemNotification(ms, users, adminId, b, now).value.table[|ms|..] ==>
      m.pattern["vibe"] == JObj(map["intensity" := JInt(Intensity(b.priority)), "duration" := JInt(VibeDuration)])
      && 0 <= Intensity(b.priority) <= MaxIntensity
  {
  }

  /** The optional filters of the listing endpoints. */
  datatype Filters = Filters(
    status: Option<Status>, priorityMin: Option<int>, priorityMax: Option<int>, dateFrom: Option<int>, dateTo: Option<int>)

  predicate Matches(m: Notification, receiver: Option<nat>, f: Filters) {
    IsSystem(m)
    && (receiver.None? || m.receiverId == receiver.value)
    && (f.status.None? || m.status == f.status.value)
    && (f.priorityMin.None? || m.priority >= f.priorityMin.value)
    && (f.priorityMax.None? || m.priority <= f.priorityMax.value)
    && (f.dateFrom.None? || m.createdAt >= f.dateFrom.value)
    && (f.dateTo.None? || m.createdAt <= f.dateTo.value)
  }

  /**
   * `GET /` (receiver = the caller) and `GET /admin/all` (receiver None):
   * matching system notifications, newest first, one page of them.
   */
  function List(ms: seq<Notification>, receiver: Option<nat>, f: Filters, p: Paging.PageParams)
    : (r: Paging.PaginatedResponse<Notification>)
    requires Paging.ValidParams(p)
    ensures r.total == |Filter(ms, (m: Notification) => Matches(m, receiver, f))|
    ensures |r.items| <= p.size
    ensures forall m :: m in r.items ==> m in ms && Matches(m, receiver, f)
    ensures r.items == Paging.Window(Reverse(Filter(ms, (m: Notification) => Matches(m, receiver, f))), Paging.Skip(p), p.size)
  {
    var matching := Filter(ms, (m: Notification) => Matches(m, receiver, f));
    ReverseSameElements(matching);
    Paging.CreateResponse(Paging.Window(Reverse(matching), Paging.Skip(p), p.size), |matching|, p.page, p.size)
  }

  datatype Stats = Stats(
    total: nat, unread: nat, read: nat, archived: nat, byPriority: seq<(string, nat)>,
    unreadStatus: nat, readStatus: nat, archivedStatus: nat)

  function Selection(ms: seq<Notification>, receiver: Option<nat>): seq<Notification> {
    Filter(ms, (m: Notification) => IsSystem(m) && (receiver.None? || m.receiverId == receiver.value))
  }

  function PriorityCount(sel: seq<Notification>, k: int): nat {
    |Filter(sel, (m: Notification) => m.priority == k)|
  }

  function PriorityKey(k: nat): string {
    "priority_" + Text.ToDecimal(k)
  }

  /** The `priority_k` entries for k = from..10 whose count is positive, in increasing k. */
  function ByPriority(sel: seq<Notification>, from: nat): (r: seq<(string, nat)>)
    requires from <= MaxPriority + 1
    ensures forall e :: e in r ==> e.1 > 0
    ensures forall k :: from <= k <= MaxPriority ==> ((PriorityKey(k), PriorityCount(sel, k)) in r <==> PriorityCount(sel, k) > 0)
    ensures forall e :: e in r ==> exists k :: from <= k <= MaxPriority && e == (PriorityKey(k), PriorityCount(sel, k))
    decreases MaxPriority + 1 - from
  {
    if from > MaxPriority then []
    else
      var rest := ByPriority(sel, from + 1);
      var n := PriorityCount(sel, from);
      forall k | from < k <= MaxPriority ensures PriorityKey(k) != PriorityKey(from) {
        PriorityKeyInjective(k, from);
      }
      if n > 0 then [(PriorityKey(from), n)] + rest else rest
  }

  lemma PriorityKeyInjective(a: nat, b: nat)
    requires a != b
    ensures PriorityKey(a) != PriorityKey(b)
  {
    var p := "priority_";
    assert PriorityKey(a)[|p|..] == Text.ToDecimal(a);
    assert PriorityKey(b)[|p|..] == Text.ToDecimal(b);
  }

  /**
   * `GET /stats` (receiver = the caller) and the shared counts of
   * `GET /admin/stats` (receiver None): read and unread split the total.
   */
  function GetStats(ms: seq<Notification>, receiver: Option<nat>): (r: Stats)
    ensures r.total == |Selection(ms, receiver)|
    ensures r.unread + r.read == r.total
    ensures r.archived == r.archivedStatus
    ensures r.unreadStatus + r.readStatus + r.archivedStatus == r.total
    ensures r.unread == |Filter(Selection(ms, receiver), (m: Notification) => !m.isRead)|
    ensures r.read == |Filter(Selection(ms, receiver), (m: Notification) => m.isRead)|
    ensures r.unreadStatus == |Filter(Selection(ms, receiver), (m: Notification) => m.status == Unread)|
    ensures r.readStatus == |Filter(Selection(ms, receiver), (m: Notification) => m.status == Read)|
    ensures r.archivedStatus == |Filter(Selection(ms, receiver), (m: Notification) => m.status == Archived)|
    ensures forall k :: 0 <= k <= MaxPriority ==>
      ((PriorityKey(k), PriorityCount(Selection(ms, receiver), k)) in r.byPriority <==> PriorityCount(Selection(ms, receiver), k) > 0)
  {
    var sel := Selection(ms, receiver);
    var unread := |Filter(sel, (m: Notification) => !m.isRead)|;
    var read := |Filter(sel, (m: Notification) => m.isRead)|;
    var su := |Filter(sel, (m: Notification) => m.status == Unread)|;
    var sr := |Filter(sel, (m: Notification) => m.status == Read)|;
    var sa := |Filter(sel, (m: Notification) => m.status == Archived)|;
    FilterAll(sel, (m: Notification) => true);
    FilterPartition(sel, (m: Notification) => true, (m: Notification) => m.isRead, (m: Notification) => !m.isRead,
      (m: Notification) => m.isRead);
    FilterPartition(sel, (m: Notification) => true, (m: Notification) => m.status == Unread,
      (m: Notification) => m.status != Unread, (m: Notification) => m.status == Unread);
    FilterPartition(sel, (m: Notification) => m.status != Unread, (m: Notification) => m.status == Read,
      (m: Notification) => m.status == Archived, (m: Notification) => m.status == Read);
    Stats(|sel|, unread, read, sa, ByPriority(sel, 0), su, sr, sa)
  }

  /** The caller's system notification with this id. */
  function FindOwn(ms: seq<Notification>, userId: nat, id: nat): (r: Option<Notification>)
    ensures r.Some? ==> r.value in ms && r.value.id == id && r.value.receiverId == userId && IsSystem(r.value)
    ensures r.None? <==> forall m :: m in ms ==> !(m.id == id && m.receiverId == userId && IsSystem(m))
  {
    First(ms, (m: Notification) => m.id == id && m.receiverId == userId && IsSystem(m))
  }

  const NotFoundOrForbidden: Failure := Custom(NotFoundError, "系统通知不存在或无权限访问")

  /** `GET /{id}`. */
  function GetNotification(ms: seq<Notification>, userId: nat, id: nat): (r: Result<Notification>)
    ensures r.Err? <==> FindOwn(ms, userId, id).None?
    ensures r.Err? ==> r.error == NotFoundOrForbidden
    ensures r.Ok? ==> r.value in ms && r.value.receiverId == userId && IsSystem(r.value)
    ensures r.Ok? ==> r.value == FindOwn(ms, userId, id).value && r.value.id == id
  {
    match FindOwn(ms, userId, id)
    case None => Err(NotFoundOrForbidden)
    case Some(m) => Ok(m)
  }

  function MarkedRead(m: Notification, now: int): Notification {
    m.(isRead := true, status := Read, readAt := Some(now))
  }

  /** `PUT /{id}/read`: only an unread notification changes; a read one is left as it is. */
  function MarkRead(ms: seq<Notification>, userId: nat, id: nat, now: int): (r: Result<seq<Notification>>)
    ensures r.Err? <==> FindOwn(ms, userId, id).None?
    ensures r.Err? ==> r.error == NotFoundOrForbidden
    ensures r.Ok? && FindOwn(ms, userId, id).value.isRead ==> r.value == ms
    ensures r.Ok? ==> |r.value| == |ms| && forall i :: 0 <= i < |ms| ==>
      r.value[i] == if ms[i] == FindOwn(ms, userId, id).value && !ms[i].isRead then MarkedRead(ms[i], now) else ms[i]
  {
    match FindOwn(ms, userId, id)
    case None => Err(NotFoundOrForbidden)
    case Some(m) =>
      if m.isRead then Ok(ms)
      else Ok(MapWhere(ms, (x: Notification) => x == m, (x: Notification) => MarkedRead(x, now)))
  }

  /** Marking as read a second time changes nothing, however much later. */
  lemma MarkReadTwiceIsNoOp(ms: seq<Notification>, userId: nat, id: nat, now: int, later: int)
    requires MarkRead(ms, userId, id, now).Ok?
    requires forall i, j :: 0 <= i < j < |ms| ==> ms[i].id != ms[j].id
    ensures var once := MarkRead(ms, userId, id, now).value;
      MarkRead(once, userId, id, later) == Ok(once)
  {
    var m := FindOwn(ms, userId, id).value;
    var once := MarkRead(ms, userId, id, now).value;
    if !m.isRead {
      var k :| 0 <= k < |ms| && ms[k] == m;
      MarkedIsFoundAgain(ms, once, userId, id, k, now);
    }
  }

  /** With unique ids, the row marked at `k` is the one a second lookup finds, and it is read. */
  lemma MarkedIsFoundAgain(ms: seq<Notification>, once: seq<Notification>, userId: nat, id: nat, k: nat, now: int)
    requires forall i, j :: 0 <= i < j < |ms| ==> ms[i].id != ms[j].id
    requires k < |ms| && ms[k].id == id && ms[k].receiverId == userId && IsSystem(ms[k])
    requires |once| == |ms| && once[k] == MarkedRead(ms[k], now)
    requires forall i :: 0 <= i < |ms| && i != k ==> once[i] == ms[i]
    ensures FindOwn(once, userId, id) == Some(once[k]) && once[k].isRead
  {
    forall i | 0 <= i < |ms| && i != k
      ensures once[i].id != id
    {
      if i < k { assert ms[i].id != ms[k].id; } else { assert ms[k].id != ms[i].id; }
    }
    FirstIsOnlyMatch(once, k, (x: Notification) => x.id == id && x.receiverId == userId && IsSystem(x));
  }

  lemma FirstIsOnlyMatch<T(!new)>(xs: seq<T>, k: nat, p: T -> bool)
    requires k < |xs| && p(xs[k])
    requires forall i :: 0 <= i < |xs| && i != k ==> !p(xs[i])
    ensures First(xs, p) == Some(xs[k])
  {
    if k > 0 {
      FirstIsOnlyMatch(xs[1..], k - 1, p);
    }
  }

  predicate OwnUnread(m: Notification, userId: nat) {
    m.receiverId == userId && IsSystem(m) && !m.isRead
  }

  /** `PUT /read-all`: every unread system notification of the caller is marked read; the count is returned. */
  function MarkAllRead(ms: seq<Notification>, userId: nat, now: int): (r: (seq<Notification>, nat))
    ensures r.1 == |Filter(ms, (m: Notification) => OwnUnread(m, userId))|
    ensures |r.0| == |ms| && forall i :: 0 <= i < |ms| ==>
      r.0[i] == if OwnUnread(ms[i], userId) then MarkedRead(ms[i], now) else ms[i]
    ensures forall m :: m in r.0 ==> !OwnUnread(m, userId)
  {
    var r := MapWhere(ms, (m: Notification) => OwnUnread(m, userId), (m: Notification) => MarkedRead(m, now));
    (r, |Filter(ms, (m: Notification) => OwnUnread(m, userId))|)
  }

  /** `DELETE /{id}`: a soft delete, the status becomes ARCHIVED and nothing else changes. */
  function Archive(ms: seq<Notification>, userId: nat, id: nat): (r: Result<seq<Notification>>)
    ensures r.Err? <==> FindOwn(ms, userId, id).None?
    ensures r.Err? ==> r.error == NotFoundOrForbidden
    ensures r.Ok? ==> |r.value| == |ms| && forall i :: 0 <= i < |ms| ==>
      r.value[i] == if ms[i] == FindOwn(ms, userId, id).value then ms[i].(status := Archived) else ms[i]
  {
    match FindOwn(ms, userId, id)
    case None => Err(NotFoundOrForbidden)
    case Some(m) => Ok(MapWhere(ms, (x: Notification) => x == m, (x: Notification) => x.(status := Archived)))
  }

  /** `DELETE /admin/{id}`: any system notification, removed from the table. */
  function AdminDelete(ms: seq<Notification>, id: nat): (r: Result<seq<Notification>>)
    ensures r.Err? <==> forall m :: m in ms ==> !(m.id == id && IsSystem(m))
    ensures r.Err? ==> r.error == Custom(NotFoundError, "系统通知不存在")
    ensures r.Ok? ==> exists m :: (m in ms && m.id == id && IsSystem(m)
      && forall x :: x in r.value <==> x in ms && x != m)
  {
    match First(ms, (m: Notification) => m.id == id && IsSystem(m))
    case None => Err(Custom(NotFoundError, "系统通知不存在"))
    case Some(m) => Ok(Filter(ms, (x: Notification) => x != m))
  }
}
