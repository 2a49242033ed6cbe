/**
 * The client subscription routes (app/api/routes/client/subscriptions.py):
 * listing available types and the caller's view of them, subscribe (an
 * upsert with defaults), unsubscribe, and the settings update.
 */
module ClientSubscriptions {
  import opened Outcomes
  import opened Json
  import opened Tables
  import opened SubscriptionStore
  import Paging

  /** `if category:` — a given, non-empty category narrows the listing. */
  predicate InCategory(t: SubscriptionType, category: Option<string>) {
    category.None? || category.value == "" || t.category == category.value
  }

  /** `GET /available`: active types of the category, one page of them, with the count of all. */
  function Available(ts: seq<SubscriptionType>, category: Option<string>, p: Paging.PageParams)
    : (r: Paging.PaginatedResponse<SubscriptionType>)
    requires Paging.ValidParams(p)
    ensures r.total == |Filter(ts, (t: SubscriptionType) => t.isActive && InCategory(t, category))|
    ensures forall t :: t in r.items ==> t in ts && t.isActive && InCategory(t, category)
    ensures |r.items| <= p.size && r.page == p.page && r.size == p.size
  {
    var matching := Filter(ts, (t: SubscriptionType) => t.isActive && InCategory(t, category));
    Paging.CreateResponse(Paging.Window(matching, Paging.Skip(p), p.size), |matching|, p.page, p.size)
  }

  datatype MyItem = MyItem(subscriptionType: SubscriptionType, subscription: Option<UserSubscription>, isSubscribed: bool)

  /** One item per type, carrying the caller's record for it if there is one. */
  function MyItems(types: seq<SubscriptionType>, subs: seq<UserSubscription>, userId: nat): (r: seq<MyItem>)
    ensures |r| == |types|
    ensures forall i :: 0 <= i < |r| ==> (r[i].subscriptionType == types[i]
      && (r[i].isSubscribed <==> r[i].subscription.Some?)
      && r[i].subscription == FindSubscription(subs, userId, types[i].id))
  {
    if types == [] then []
    else
      var s := FindSubscription(subs, userId, types[0].id);
      [MyItem(types[0], s, s.Some?)] + MyItems(types[1..], subs, userId)
  }

  /**
   * `GET /my`: an item for every active type, subscribed iff the caller
   * has a record for it; the page is a slice of that list, whose length
   * is the total.
   */
  function My(ts: seq<SubscriptionType>, subs: seq<UserSubscription>, userId: nat, p: Paging.PageParams)
    : (r: Paging.PaginatedResponse<MyItem>)
    requires Paging.ValidParams(p)
    ensures r.total == |Filter(ts, (t: SubscriptionType) => t.isActive)|
    ensures |r.items| <= p.size
    ensures forall it :: it in r.items ==> it.subscriptionType in ts && it.subscriptionType.isActive
    ensures forall it :: it in r.items ==> (it.isSubscribed <==> exists s :: s in subs && s.userId == userId && s.typeId == it.subscriptionType.id)
    ensures forall it :: it in r.items && it.isSubscribed ==> (it.subscription.Some? && it.subscription.value in subs
      && it.subscription.value.userId == userId && it.subscription.value.typeId == it.subscriptionType.id)
    ensures r.items == Paging.Window(MyItems(Filter(ts, (t: SubscriptionType) => t.isActive), subs, userId), Paging.Skip(p), p.size)
    ensures r.page == p.page && r.size == p.size
  {
    var active := Filter(ts, (t: SubscriptionType) => t.isActive);
    var all := MyItems(active, subs, userId);
    var page := Paging.Window(all, Paging.Skip(p), p.size);
    forall it | it in page ensures it.subscriptionType in active {
      var i :| 0 <= i < |all| && all[i] == it;
    }
    Paging.CreateResponse(page, |all|, p.page, p.size)
  }

  /** `POST /{id}/subscribe`: NotFound unless the type exists and is active, else upsert. */
  function Subscribe(ts: seq<SubscriptionType>, subs: seq<UserSubscription>, userId: nat, typeId: nat, req: SettingsRequest)
    : (r: Result<(seq<UserSubscription>, UserSubscription)>)
    ensures r.Err? <==> FindActiveType(ts, typeId).None?
    ensures r.Err? ==> r.error == Custom(NotFoundError, "订阅类型不存在或不可用")
    ensures r.Ok? ==> r.value.1.userId == userId && r.value.1.typeId == typeId && r.value.1.settings.isEnabled == req.isEnabled
    ensures r.Ok? && FindSubscription(subs, userId, typeId).None? ==>
      r.value.1.settings == NewSettings(FindActiveType(ts, typeId).value, req) && r.value.0 == subs + [r.value.1]
    ensures r.Ok? && FindSubscription(subs, userId, typeId).Some? ==>
      r.value.1.settings == MergeSettings(FindSubscription(subs, userId, typeId).value.settings, req) && |r.value.0| == |subs|
    ensures r.Ok? && FindSubscription(subs, userId, typeId).Some? ==>
      var prior := FindSubscription(subs, userId, typeId).value;
      r.value.1.id == prior.id
      && forall i :: 0 <= i < |subs| ==> r.value.0[i] == if subs[i] == prior then r.value.1 else subs[i]
  {
    match FindActiveType(ts, typeId)
    case None => Err(Custom(NotFoundError, "订阅类型不存在或不可用"))
    case Some(t) => Ok(Upsert(subs, userId, t, req))
  }

  /** A request none of whose given values is empty, so `or` and `is not None` agree on it. */
  predicate NoEmptyValues(req: SettingsRequest) {
    (req.customSettings.Some? ==> req.customSettings.value != map[])
    && (req.timeStart.Some? ==> req.timeStart.value != "")
    && (req.timeEnd.Some? ==> req.timeEnd.value != "")
    && (req.timezone.Some? ==> req.timezone.value != "")
  }

  /** Subscribing twice with the same request leaves the same single record as subscribing once. */
  lemma SubscribeIdempotent(ts: seq<SubscriptionType>, subs: seq<UserSubscription>, userId: nat, typeId: nat, req: SettingsRequest)
    requires WellFormed(ts, subs) && NoEmptyValues(req)
    requires Subscribe(ts, subs, userId, typeId, req).Ok?
    ensures var once := Subscribe(ts, subs, userId, typeId, req).value;
      var twice := Subscribe(ts, once.0, userId, typeId, req);
      twice.Ok? && twice.value.1 == once.1 && twice.value.0 == once.0
  {
    var t := FindActiveType(ts, typeId).value;
    var once := Subscribe(ts, subs, userId, typeId, req).value;
    UpsertKeepsWellFormed(ts, subs, userId, t, req);
    var s := once.1;
    assert MergeSettings(s.settings, req) == s.settings;
    UpsertFound(once.0, userId, t, req, s);
  }

  /** Upserting a record whose settings the request would not change leaves table and record as they are. */
  lemma UpsertFound(subs: seq<UserSubscription>, userId: nat, t: SubscriptionType, req: SettingsRequest, s: UserSubscription)
    requires FindSubscription(subs, userId, t.id) == Some(s) && MergeSettings(s.settings, req) == s.settings
    ensures Upsert(subs, userId, t, req) == (subs, s)
  {
    var r := Upsert(subs, userId, t, req);
    assert r.1 == s;
    assert forall i :: 0 <= i < |subs| ==> r.0[i] == subs[i];
    assert r.0 == subs;
  }

  /**
   * An explicitly empty `custom_settings` is not idempotent: the first
   * subscribe stores the type's defaults (`{} or default`), the second
   * stores `{}` (`{} is not None`).
   */
  lemma EmptySettingsNotIdempotent(t: SubscriptionType, userId: nat)
    requires t.isActive && t.defaultSettings != map[]
    ensures var req := SettingsRequest(true, Some(map[]), None, None, None);
      var once := Subscribe([t], [], userId, t.id, req).value;
      var twice := Subscribe([t], once.0, userId, t.id, req).value;
      once.1.settings.customSettings == t.defaultSettings && twice.1.settings.customSettings == map[]
  {
    var req := SettingsRequest(true, Some(map[]), None, None, None);
    var once := Subscribe([t], [], userId, t.id, req).value;
    assert FindSubscription(once.0, userId, t.id).Some? by {
      assert once.0[0] == once.1;
    }
  }

  /** `POST /{id}/unsubscribe`: NotFound without a record, else the record is deleted. */
  function Unsubscribe(subs: seq<UserSubscription>, userId: nat, typeId: nat): (r: Result<seq<UserSubscription>>)
    ensures r.Err? <==> FindSubscription(subs, userId, typeId).None?
    ensures r.Err? ==> r.error == Custom(NotFoundError, "您未订阅该服务")
    ensures r.Ok? ==> forall s :: s in r.value <==> s in subs && s != FindSubscription(subs, userId, typeId).value
  {
    match FindSubscription(subs, userId, typeId)
    case None => Err(Custom(NotFoundError, "您未订阅该服务"))
    case Some(s) => Ok(Filter(subs, (x: UserSubscription) => x != s))
  }

  /** With one record per (user, type), after unsubscribing the caller has no record for the type. */
  lemma UnsubscribeRemovesRecord(ts: seq<SubscriptionType>, subs: seq<UserSubscription>, userId: nat, typeId: nat)
    requires WellFormed(ts, subs)
    requires Unsubscribe(subs, userId, typeId).Ok?
    ensures FindSubscription(Unsubscribe(subs, userId, typeId).value, userId, typeId).None?
  {
    var s := FindSubscription(subs, userId, typeId).value;
    forall x | x in subs && x.userId == userId && x.typeId == typeId ensures x == s {
      var i :| 0 <= i < |subs| && subs[i] == x;
      var j :| 0 <= j < |subs| && subs[j] == s;
      assert i == j;
    }
  }

  /** The optional query fields of `PUT /{id}/settings`. */
  datatype SettingsUpdate = SettingsUpdate(
    isEnabled: Option<bool>, customSettings: Option<Object>, timeStart: Option<string>, timeEnd: Option<string>,
    timezone: Option<string>)

  function ApplyUpdate(s: Settings, u: SettingsUpdate): (r: Settings)
    ensures u.isEnabled.None? ==> r.isEnabled == s.isEnabled
    ensures u.isEnabled.Some? ==> r.isEnabled == u.isEnabled.value
    ensures r == MergeSettings(s, SettingsRequest(r.isEnabled, u.customSettings, u.timeStart, u.timeEnd, u.timezone))
  {
    s.(isEnabled := if u.isEnabled.Some? then u.isEnabled.value else s.isEnabled,
       customSettings := if u.customSettings.Some? then u.customSettings.value else s.customSettings,
       timeStart := if u.timeStart.Some? then u.timeStart.value else s.timeStart,
       timeEnd := if u.timeEnd.Some? then u.timeEnd.value else s.timeEnd,
       timezone := if u.timezone.Some? then u.timezone.value else s.timezone)
  }

  /** `PUT /{id}/settings`: NotFound without a record; otherwise only the given fields change. */
  function UpdateSettings(subs: seq<UserSubscription>, userId: nat, typeId: nat, u: SettingsUpdate)
    : (r: Result<(seq<UserSubscription>, UserSubscription)>)
    ensures r.Err? <==> FindSubscription(subs, userId, typeId).None?
    ensures r.Err? ==> r.error == Custom(NotFoundError, "您未订阅该服务，无法更新设置")
    ensures r.Ok? ==> var prior := FindSubscription(subs, userId, typeId).value;
      r.value.1 == prior.(settings := ApplyUpdate(prior.settings, u)) && |r.value.0| == |subs|
      && forall i :: 0 <= i < |subs| ==> r.value.0[i] == if subs[i] == prior then r.value.1 else subs[i]
  {
    match FindSubscription(subs, userId, typeId)
    case None => Err(Custom(NotFoundError, "您未订阅该服务，无法更新设置"))
    case Some(prior) =>
      var s := prior.(settings := ApplyUpdate(prior.settings, u));
      Ok((MapWhere(subs, (x: UserSubscription) => x == prior, (x: UserSubscription) => s), s))
  }

  /** An update with no field given changes nothing but the timestamp, which is not modelled. */
  lemma EmptyUpdateIsIdentity(subs: seq<UserSubscription>, userId: nat, typeId: nat)
    requires FindSubscription(subs, userId, typeId).Some?
    ensures UpdateSettings(subs, userId, typeId, SettingsUpdate(None, None, None, None, None)) == Ok((subs, FindSubscription(subs, userId, typeId).value))
  {
    var r := UpdateSettings(subs, userId, typeId, SettingsUpdate(None, None, None, None, None)).value;
    assert r.0 == subs;
  }
}
