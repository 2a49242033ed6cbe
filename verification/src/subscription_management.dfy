/**
 * The subscription management endpoints
 * (app/api/endpoints/subscription_management.py): type administration
 * gated on `is_superuser` inside each handler, the caller's subscription
 * listing with unsaved defaults, and the upsert.
 */
module SubscriptionManagement {
  import opened Outcomes
  import opened Json
  import opened Tables
  import opened SubscriptionStore
  import Paging

  const AdminRequired: Failure := Http(403, "需要管理员权限")
  const NameTaken: Failure := Custom(ValidationError, "订阅类型名称已存在")
  const TypeMissing: Failure := Custom(NotFoundError, "订阅类型不存在")

  /** `if category:` narrows by category; `is_active` (default True) narrows unless None. */
  predicate Listed(t: SubscriptionType, category: Option<string>, isActive: Option<bool>) {
    (category.None? || category.value == "" || t.category == category.value)
    && (isActive.None? || t.isActive == isActive.value)
  }

  /** `GET /subscription-types`. */
  function ListTypes(ts: seq<SubscriptionType>, category: Option<string>, isActive: Option<bool>, p: Paging.PageParams)
    : (r: Paging.PaginatedResponse<SubscriptionType>)
    requires Paging.ValidParams(p)
    ensures r.total == |Filter(ts, (t: SubscriptionType) => Listed(t, category, isActive))|
    ensures forall t :: t in r.items ==> t in ts && Listed(t, category, isActive)
    ensures |r.items| <= p.size
  {
    var matching := Filter(ts, (t: SubscriptionType) => Listed(t, category, isActive));
    Paging.CreateResponse(Paging.Window(matching, Paging.Skip(p), p.size), |matching|, p.page, p.size)
  }

  /** `GET /subscription-types/{id}`. */
  function GetType(ts: seq<SubscriptionType>, id: nat): (r: Result<SubscriptionType>)
    ensures r.Ok? <==> exists t :: t in ts && t.id == id
    ensures r.Ok? ==> r.value in ts && r.value.id == id
    ensures r.Err? ==> r.error == TypeMissing
  {
    match FindType(ts, id)
    case None => Err(TypeMissing)
    case Some(t) => Ok(t)
  }

  datatype TypeCreate = TypeCreate(
    name: string, description: Option<string>, category: string, isActive: bool, defaultSettings: Object)

  /** `POST /subscription-types`: 403 for a non-superuser, a validation error for a taken name. */
  function CreateType(ts: seq<SubscriptionType>, isSuperuser: bool, c: TypeCreate): (r: Result<seq<SubscriptionType>>)
    ensures !isSuperuser ==> r == Err(AdminRequired)
    ensures isSuperuser && FindNamed(ts, c.name).Some? ==> r == Err(NameTaken)
    ensures r.Ok? <==> isSuperuser && forall t :: t in ts ==> t.name != c.name
    ensures r.Ok? ==> exists id :: (r.value == ts + [SubscriptionType(id, c.name, c.description, c.category, c.isActive, c.defaultSettings)]
      && forall t :: t in ts ==> t.id != id)
    ensures r.Ok? && UniqueTypes(ts) ==> UniqueTypes(r.value)
  {
    if !isSuperuser then Err(AdminRequired)
    else if FindNamed(ts, c.name).Some? then Err(NameTaken)
    else
      var id := NextId(ts, (t: SubscriptionType) => t.id);
      var r := ts + [SubscriptionType(id, c.name, c.description, c.category, c.isActive, c.defaultSettings)];
      assert forall i :: 0 <= i < |ts| ==> ts[i] in ts;
      Ok(r)
  }

  /** The optional query fields of `PUT /subscription-types/{id}`. */
  datatype TypeUpdate = TypeUpdate(
    name: Option<string>, description: Option<string>, category: Option<string>, isActive: Option<bool>,
    defaultSettings: Option<Object>)

  function ApplyTypeUpdate(t: SubscriptionType, u: TypeUpdate): (r: SubscriptionType)
    ensures r.id == t.id
    ensures r.name == (if u.name.Some? then u.name.value else t.name)
    ensures r.description == (if u.description.Some? then u.description else t.description)
    ensures r.category == (if u.category.Some? then u.category.value else t.category)
    ensures r.isActive == (if u.isActive.Some? then u.isActive.value else t.isActive)
    ensures r.defaultSettings == (if u.defaultSettings.Some? then u.defaultSettings.value else t.defaultSettings)
  {
    t.(name := if u.name.Some? then u.name.value else t.name,
       description := if u.description.Some? then u.description else t.description,
       category := if u.category.Some? then u.category.value else t.category,
       isActive := if u.isActive.Some? then u.isActive.value else t.isActive,
       defaultSettings := if u.defaultSettings.Some? then u.defaultSettings.value else t.defaultSettings)
  }

  /**
   * `PUT /subscription-types/{id}`: 403, then NotFound, then a validation
   * error when another type holds the new name; the given fields change.
   */
  function UpdateType(ts: seq<SubscriptionType>, isSuperuser: bool, id: nat, u: TypeUpdate): (r: Result<seq<SubscriptionType>>)
    ensures !isSuperuser ==> r == Err(AdminRequired)
    ensures isSuperuser && FindType(ts, id).None? ==> r == Err(TypeMissing)
    ensures isSuperuser && FindType(ts, id).Some? ==>
      (r == Err(NameTaken) <==> u.name.Some? && exists t :: t in ts && t.name == u.name.value && t.id != id)
    ensures (isSuperuser && FindType(ts, id).Some?
             && !(u.name.Some? && exists t :: t in ts && t.name == u.name.value && t.id != id)) ==> r.Ok?
    ensures r.Ok? ==> |r.value| == |ts| && forall i :: 0 <= i < |ts| ==>
      r.value[i] == if ts[i] == FindType(ts, id).value then ApplyTypeUpdate(ts[i], u) else ts[i]
  {
    if !isSuperuser then Err(AdminRequired)
    else match FindType(ts, id)
      case None => Err(TypeMissing)
      case Some(t) =>
        if u.name.Some? && First(ts, (x: SubscriptionType) => x.name == u.name.value && x.id != id).Some? then Err(NameTaken)
        else Ok(MapWhere(ts, (x: SubscriptionType) => x == t, (x: SubscriptionType) => ApplyTypeUpdate(x, u)))
  }

  /** Names and ids stay unique across every successful update. */
  lemma UpdateKeepsTypesUnique(ts: seq<SubscriptionType>, isSuperuser: bool, id: nat, u: TypeUpdate)
    requires UniqueTypes(ts)
    requires UpdateType(ts, isSuperuser, id, u).Ok?
    ensures UniqueTypes(UpdateType(ts, isSuperuser, id, u).value)
  {
    var r := UpdateType(ts, isSuperuser, id, u).value;
    var t := FindType(ts, id).value;
    var k :| 0 <= k < |ts| && ts[k] == t;
    forall i | 0 <= i < |ts| && ts[i] == t ensures i == k {
    }
    forall i, j | 0 <= i < j < |r| ensures r[i].name != r[j].name && r[i].id != r[j].id {
      if i != k && j != k {
        assert r[i] == ts[i] && r[j] == ts[j];
      } else {
        var o := if i == k then j else i;
        assert r[o] == ts[o] && ts[o] in ts && ts[o].id != id;
      }
    }
  }

  /** `DELETE /subscription-types/{id}`: 403, NotFound, then refused while any subscription references it. */
  function DeleteType(ts: seq<SubscriptionType>, subs: seq<UserSubscription>, isSuperuser: bool, id: nat)
    : (r: Result<seq<SubscriptionType>>)
    ensures !isSuperuser ==> r == Err(AdminRequired)
    ensures isSuperuser && FindType(ts, id).None? ==> r == Err(TypeMissing)
    ensures isSuperuser && FindType(ts, id).Some? && (exists s :: s in subs && s.typeId == id) ==>
      r == Err(Custom(ValidationError, "该订阅类型已有用户订阅，无法删除"))
    ensures r.Ok? <==> isSuperuser && FindType(ts, id).Some? && forall s :: s in subs ==> s.typeId != id
    ensures r.Ok? ==> ((forall s :: s in subs ==> s.typeId != id)
      && forall t :: t in r.value <==> t in ts && t != FindType(ts, id).value)
    ensures r.Ok? && WellFormed(ts, subs) ==> WellFormed(r.value, subs)
  {
    if !isSuperuser then Err(AdminRequired)
    else match FindType(ts, id)
      case None => Err(TypeMissing)
      case Some(t) =>
        if SubscriberCount(subs, id) > 0 then Err(Custom(ValidationError, "该订阅类型已有用户订阅，无法删除"))
        else
          var rest := Filter(ts, (x: SubscriptionType) => x != t);
          if WellFormed(ts, subs) then
            forall s | s in subs ensures exists x :: x in rest && x.id == s.typeId {
              var x :| x in ts && x.id == s.typeId;
              assert x in rest;
            }
            Ok(rest)
          else Ok(rest)
  }

  datatype Entry = Entry(subscriptionType: SubscriptionType, settings: Settings, isSubscribed: bool)

  /** The unsaved record shown for a type the caller has not subscribed to: disabled, with the type's defaults. */
  function UnsavedDefault(t: SubscriptionType): (s: Settings)
    ensures !s.isEnabled && s.customSettings == t.defaultSettings
    ensures s.timeStart == DefaultStart && s.timeEnd == DefaultEnd && s.timezone == DefaultTimezone
  {
    Settings(false, t.defaultSettings, DefaultStart, DefaultEnd, DefaultTimezone)
  }

  function Entries(types: seq<SubscriptionType>, subs: seq<UserSubscription>, userId: nat): (r: seq<Entry>)
    ensures |r| == |types|
    ensures forall i :: 0 <= i < |r| ==> (r[i].subscriptionType == types[i]
      && match FindSubscription(subs, userId, types[i].id)
         case Some(s) => r[i].isSubscribed && r[i].settings == s.settings
         case None => !r[i].isSubscribed && r[i].settings == UnsavedDefault(types[i]))
  {
    if types == [] then []
    else
      var e := match FindSubscription(subs, userId, types[0].id)
        case Some(s) => Entry(types[0], s.settings, true)
        case None => Entry(types[0], UnsavedDefault(types[0]), false);
      [e] + Entries(types[1..], subs, userId)
  }

  /**
   * `GET /user-subscriptions`: one entry per active type, the caller's
   * saved settings or an unsaved default; the table is returned untouched
   * (the function yields no new table), and the page is a slice.
   */
  function UserSubscriptions(ts: seq<SubscriptionType>, subs: seq<UserSubscription>, userId: nat, p: Paging.PageParams)
    : (r: Paging.PaginatedResponse<Entry>)
    requires Paging.ValidParams(p)
    ensures r.total == |Filter(ts, (t: SubscriptionType) => t.isActive)|
    ensures r.items == Paging.Window(Entries(Filter(ts, (t: SubscriptionType) => t.isActive), subs, userId), Paging.Skip(p), p.size)
    ensures forall e :: e in r.items ==> e.subscriptionType in ts && e.subscriptionType.isActive
    ensures forall e :: e in r.items && !e.isSubscribed ==> e.settings == UnsavedDefault(e.subscriptionType)
  {
    var active := Filter(ts, (t: SubscriptionType) => t.isActive);
    var all := Entries(active, subs, userId);
    var page := Paging.Window(all, Paging.Skip(p), p.size);
    forall e | e in page ensures e.subscriptionType in active && (!e.isSubscribed ==> e.settings == UnsavedDefault(e.subscriptionType)) {
      var i :| 0 <= i < |all| && all[i] == e;
    }
    Paging.CreateResponse(page, |all|, p.page, p.size)
  }

  /** `PUT /user-subscriptions/{id}`: NotFound unless the type is active, else the shared upsert. */
  function UpdateUserSubscription(ts: seq<SubscriptionType>, subs: seq<UserSubscription>, userId: nat, typeId: nat, req: SettingsRequest)
    : (r: Result<(seq<UserSubscription>, UserSubscription)>)
    ensures r.Err? <==> FindActiveType(ts, typeId).None?
    ensures r.Err? ==> r.error == Custom(NotFoundError, "订阅类型不存在或不可用")
    ensures r.Ok? && FindSubscription(subs, userId, typeId).None? ==>
      r.value.1.settings == NewSettings(FindActiveType(ts, typeId).value, req) && r.value.0 == subs + [r.value.1]
    ensures r.Ok? && FindSubscription(subs, userId, typeId).Some? ==>
      r.value.1.settings == MergeSettings(FindSubscription(subs, userId, typeId).value.settings, req)
    ensures r.Ok? && FindSubscription(subs, userId, typeId).Some? ==>
      var prior := FindSubscription(subs, userId, typeId).value;
      r.value.1.id == prior.id && |r.value.0| == |subs|
      && forall i :: 0 <= i < |subs| ==> r.value.0[i] == if subs[i] == prior then r.value.1 else subs[i]
    ensures r.Ok? && WellFormed(ts, subs) ==> WellFormed(ts, r.value.0)
  {
    match FindActiveType(ts, typeId)
    case None => Err(Custom(NotFoundError, "订阅类型不存在或不可用"))
    case Some(t) =>
      if WellFormed(ts, subs) then UpsertKeepsWellFormed(ts, subs, userId, t, req); Ok(Upsert(subs, userId, t, req))
      else Ok(Upsert(subs, userId, t, req))
  }
}
