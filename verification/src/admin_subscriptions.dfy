/**
 * The administrator subscription routes
 * (app/api/routes/admin/subscriptions.py), reached only through the
 * superuser dependency: listing with subscriber counts, type create,
 * update, status and delete, the count and subscriber queries, and the
 * overview with the five most subscribed types.
 */
module AdminSubscriptions {
  import opened Outcomes
  import opened Json
  import opened Tables
  import opened Sorting
  import opened SubscriptionStore
  import Paging
  import Text

  const NameTaken: Failure := Custom(ValidationError, "订阅类型名称已存在")
  const TypeMissing: Failure := Custom(NotFoundError, "订阅类型不存在")

  datatype Detail = Detail(subscriptionType: SubscriptionType, subscriberCount: nat, activeSubscriberCount: nat)

  function DetailOf(t: SubscriptionType, subs: seq<UserSubscription>): (d: Detail)
    ensures d.subscriptionType == t
    ensures d.subscriberCount == |Filter(subs, (s: UserSubscription) => s.typeId == t.id)|
    ensures d.activeSubscriberCount <= d.subscriberCount
    ensures d.activeSubscriberCount == |Filter(subs, (s: UserSubscription) => s.typeId == t.id && s.settings.isEnabled)|
  {
    Detail(t, SubscriberCount(subs, t.id), EnabledSubscriberCount(subs, t.id))
  }

  function Details(ts: seq<SubscriptionType>, subs: seq<UserSubscription>): (r: seq<Detail>)
    ensures |r| == |ts| && forall i :: 0 <= i < |ts| ==> r[i] == DetailOf(ts[i], subs)
  {
    if ts == [] then [] else [DetailOf(ts[0], subs)] + Details(ts[1..], subs)
  }

  predicate Listed(t: SubscriptionType, category: Option<string>, isActive: Option<bool>) {
    (category.None? || category.value == "" || t.category == category.value)
    && (isActive.None? || t.isActive == isActive.value)
  }

  /** `GET /subscription-types`: a page of the matching types, each with its subscriber counts. */
  function ListTypes(ts: seq<SubscriptionType>, subs: seq<UserSubscription>, category: Option<string>, isActive: Option<bool>,
    p: Paging.PageParams)
    : (r: Paging.PaginatedResponse<Detail>)
    requires Paging.ValidParams(p)
    ensures r.total == |Filter(ts, (t: SubscriptionType) => Listed(t, category, isActive))|
    ensures |r.items| <= p.size
    ensures forall d :: d in r.items ==> (d.subscriptionType in ts && Listed(d.subscriptionType, category, isActive)
      && d == DetailOf(d.subscriptionType, subs))
  {
    var matching := Filter(ts, (t: SubscriptionType) => Listed(t, category, isActive));
    var page := Paging.Window(matching, Paging.Skip(p), p.size);
    var items := Details(page, subs);
    forall d | d in items ensures d.subscriptionType in page {
      var i :| 0 <= i < |items| && items[i] == d;
    }
    Paging.CreateResponse(items, |matching|, p.page, p.size)
  }

  /** `GET /subscription-types/{id}`. */
  function GetTypeDetail(ts: seq<SubscriptionType>, subs: seq<UserSubscription>, id: nat): (r: Result<Detail>)
    ensures r.Err? <==> FindType(ts, id).None?
    ensures r.Err? ==> r.error == TypeMissing
    ensures r.Ok? ==> (r.value.subscriptionType in ts && r.value.subscriptionType.id == id
      && r.value.subscriberCount == |Filter(subs, (s: UserSubscription) => s.typeId == id)|)
  {
    match FindType(ts, id)
    case None => Err(TypeMissing)
    case Some(t) => Ok(DetailOf(t, subs))
  }

  /** `POST /subscription-types`: a validation error for a taken name, else a new type. */
  function CreateType(ts: seq<SubscriptionType>, name: string, description: Option<string>, category: string,
    isActive: bool, defaultSettings: Object)
    : (r: Result<seq<SubscriptionType>>)
    ensures r.Err? <==> exists t :: t in ts && t.name == name
    ensures r.Err? ==> r.error == NameTaken
    ensures r.Ok? ==> (|r.value| == |ts| + 1 && r.value[..|ts|] == ts
      && r.value[|ts|].name == name && r.value[|ts|].category == category && r.value[|ts|].isActive == isActive
      && r.value[|ts|].description == description && r.value[|ts|].defaultSettings == defaultSettings)
    ensures r.Ok? && UniqueTypes(ts) ==> UniqueTypes(r.value)
  {
    if FindNamed(ts, name).Some? then Err(NameTaken)
    else
      var id := NextId(ts, (t: SubscriptionType) => t.id);
      assert forall i :: 0 <= i < |ts| ==> ts[i] in ts;
      Ok(ts + [SubscriptionType(id, name, description, category, isActive, defaultSettings)])
  }

  /** The fields set in a `SubscriptionTypeUpdate`; `None` is a field left unset. */
  datatype TypeUpdate = TypeUpdate(
    name: Option<string>, description: Option<Option<string>>, category: Option<string>, isActive: Option<bool>,
    defaultSettings: Option<Object>)

  function Apply(t: SubscriptionType, u: TypeUpdate): (r: SubscriptionType)
    ensures r.id == t.id
    ensures u.name.Some? ==> r.name == u.name.value
    ensures u.name.None? ==> r.name == t.name
    ensures u.isActive.Some? ==> r.isActive == u.isActive.value
    ensures u.isActive.None? ==> r.isActive == t.isActive
    ensures u.description.Some? ==> r.description == u.description.value
    ensures u.description.None? ==> r.description == t.description
    ensures u.category.Some? ==> r.category == u.category.value
    ensures u.category.None? ==> r.category == t.category
    ensures u.defaultSettings.Some? ==> r.defaultSettings == u.defaultSettings.value
    ensures u.defaultSettings.None? ==> r.defaultSettings == t.defaultSettings
  {
    t.(name := if u.name.Some? then u.name.value else t.name,
       description := if u.description.Some? then u.description.value else t.description,
       category := if u.category.Some? then u.category.value else t.category,
       isActive := if u.isActive.Some? then u.isActive.value else t.isActive,
       defaultSettings := if u.defaultSettings.Some? then u.defaultSettings.value else t.defaultSettings)
  }

  /** A rename is checked only when the new name differs from the current one. */
  predicate RenameClashes(ts: seq<SubscriptionType>, t: SubscriptionType, u: TypeUpdate) {
    u.name.Some? && u.name.value != t.name && exists x :: x in ts && x.name == u.name.value && x.id != t.id
  }

  /** `PUT /subscription-types/{id}`: NotFound, then a validation error for a clashing rename. */
  function UpdateType(ts: seq<SubscriptionType>, id: nat, u: TypeUpdate): (r: Result<seq<SubscriptionType>>)
    ensures FindType(ts, id).None? ==> r == Err(TypeMissing)
    ensures FindType(ts, id).Some? ==> (r == Err(NameTaken) <==> RenameClashes(ts, FindType(ts, id).value, u))
    ensures FindType(ts, id).Some? && !RenameClashes(ts, FindType(ts, id).value, u) ==> r.Ok?
    ensures r.Ok? ==> |r.value| == |ts| && forall i :: 0 <= i < |ts| ==>
      r.value[i] == if ts[i] == FindType(ts, id).value then Apply(ts[i], u) else ts[i]
  {
    match FindType(ts, id)
    case None => Err(TypeMissing)
    case Some(t) =>
      if u.name.Some? && u.name.value != t.name
        && First(ts, (x: SubscriptionType) => x.name == u.name.value && x.id != id).Some?
      then Err(NameTaken)
      else Ok(MapWhere(ts, (x: SubscriptionType) => x == t, (x: SubscriptionType) => Apply(x, u)))
  }

  /** Keeping the current name is never a clash. */
  lemma KeepingNameIsAllowed(ts: seq<SubscriptionType>, id: nat, u: TypeUpdate)
    requires FindType(ts, id).Some? && u.name == Some(FindType(ts, id).value.name)
    ensures UpdateType(ts, id, u).Ok?
  {
  }

  /** Every successful update keeps names and ids unique. */
  lemma UpdateKeepsTypesUnique(ts: seq<SubscriptionType>, id: nat, u: TypeUpdate)
    requires UniqueTypes(ts) && UpdateType(ts, id, u).Ok?
    ensures UniqueTypes(UpdateType(ts, id, u).value)
  {
    var r := UpdateType(ts, id, u).value;
    var t := FindType(ts, id).value;
    var k :| 0 <= k < |ts| && ts[k] == t;
    forall i | 0 <= i < |ts| && ts[i] == t ensures i == k {
    }
    forall i, j | 0 <= i < j < |r| ensures r[i].name != r[j].name && r[i].id != r[j].id {
      if i != k && j != k {
        assert r[i] == ts[i] && r[j] == ts[j];
      } else {
        var o := if i == k then j else i;
        assert r[o] == ts[o] && ts[o] in ts && ts[o].id != id;
      }
    }
  }

  /** `PUT /subscription-types/{id}/status`: the flag becomes exactly the requested value. */
  function SetStatus(ts: seq<SubscriptionType>, id: nat, isActive: bool): (r: Result<seq<SubscriptionType>>)
    ensures r.Err? <==> FindType(ts, id).None?
    ensures r.Err? ==> r.error == TypeMissing
    ensures r.Ok? ==> |r.value| == |ts| && forall i :: 0 <= i < |ts| ==>
      (ts[i].id == id ==> r.value[i] == ts[i].(isActive := isActive))
      && (ts[i].id != id ==> r.value[i] == ts[i])
    ensures r.Ok? && UniqueTypes(ts) ==> FindType(r.value, id).Some? && FindType(r.value, id).value.isActive == isActive
  {
    match FindType(ts, id)
    case None => Err(TypeMissing)
    case Some(t) =>
      var r := MapWhere(ts, (x: SubscriptionType) => x.id == id, (x: SubscriptionType) => x.(isActive := isActive));
      assert forall x :: x in r && x.id == id ==> x.isActive == isActive;
      assert exists i :: 0 <= i < |ts| && ts[i] == t;
      assert exists x :: x in r && x.id == id;
      Ok(r)
  }

  /** The refusal names the number of subscriptions in decimal. */
  function InUseMessage(count: nat): string {
    "该订阅类型已有 " + Text.ToDecimal(count) + " 位用户订阅，无法删除"
  }

  /** `DELETE /subscription-types/{id}`: NotFound, then refused while subscriptions reference it. */
  function DeleteType(ts: seq<SubscriptionType>, subs: seq<UserSubscription>, id: nat): (r: Result<seq<SubscriptionType>>)
    ensures FindType(ts, id).None? ==> r == Err(TypeMissing)
    ensures FindType(ts, id).Some? && SubscriberCount(subs, id) > 0 ==>
      r == Err(Custom(ValidationError, InUseMessage(SubscriberCount(subs, id))))
    ensures r.Ok? <==> FindType(ts, id).Some? && forall s :: s in subs ==> s.typeId != id
    ensures r.Ok? ==> forall t :: t in r.value <==> t in ts && t != FindType(ts, id).value
  {
    match FindType(ts, id)
    case None => Err(TypeMissing)
    case Some(t) =>
      var n := SubscriberCount(subs, id);
      if n > 0 then
        var f := Filter(subs, (s: UserSubscription) => s.typeId == id);
        assert f[0] in f;
        Err(Custom(ValidationError, InUseMessage(n)))
      else Ok(Filter(ts, (x: SubscriptionType) => x != t))
  }

  datatype CountResponse = CountResponse(typeId: nat, typeName: string, total: nat, active: nat, inactive: int)

  /** `GET /subscription-types/{id}/count`: inactive is the number of disabled subscriptions. */
  function GetCount(ts: seq<SubscriptionType>, subs: seq<UserSubscription>, id: nat): (r: Result<CountResponse>)
    ensures r.Err? <==> FindType(ts, id).None?
    ensures r.Err? ==> r.error == TypeMissing
    ensures r.Ok? ==> (r.value.total == |Filter(subs, (s: UserSubscription) => s.typeId == id)|
      && r.value.active == |Filter(subs, (s: UserSubscription) => s.typeId == id && s.settings.isEnabled)|
      && r.value.inactive == |Filter(subs, (s: UserSubscription) => s.typeId == id && !s.settings.isEnabled)|
      && r.value.inactive == r.value.total - r.value.active)
  {
    match FindType(ts, id)
    case None => Err(TypeMissing)
    case Some(t) =>
      var total := SubscriberCount(subs, id);
      var active := EnabledSubscriberCount(subs, id);
      assert DisabledSubscriberCount(subs, id) == total - active;
      Ok(CountResponse(id, t.name, total, active, total - active))
  }

  datatype Account = Account(id: nat, username: string)
  datatype Subscriber = Subscriber(user: Account, subscription: UserSubscription)

  /** Inner join of the type's subscriptions (optionally by `is_enabled`) with the user table. */
  function JoinUsers(subs: seq<UserSubscription>, users: map<nat, Account>): (r: seq<Subscriber>)
    ensures |r| == |Filter(subs, (s: UserSubscription) => s.userId in users)|
    ensures forall x :: x in r ==> (x.subscription in subs && x.subscription.userId in users
      && x.user == users[x.subscription.userId])
    ensures forall i :: 0 <= i < |r| ==>
      r[i].subscription == Filter(subs, (s: UserSubscription) => s.userId in users)[i]
      && r[i].user == users[r[i].subscription.userId]
  {
    if subs == [] then []
    else
      var rest := JoinUsers(subs[1..], users);
      if subs[0].userId in users then [Subscriber(users[subs[0].userId], subs[0])] + rest else rest
  }

  predicate Selected(s: UserSubscription, typeId: nat, isEnabled: Option<bool>) {
    s.typeId == typeId && (isEnabled.None? || s.settings.isEnabled == isEnabled.value)
  }

  /** `GET /subscription-types/{id}/subscribers`. */
  function Subscribers(ts: seq<SubscriptionType>, subs: seq<UserSubscription>, users: map<nat, Account>, typeId: nat,
    isEnabled: Option<bool>, p: Paging.PageParams)
    : (r: Result<Paging.PaginatedResponse<Subscriber>>)
    requires Paging.ValidParams(p)
    ensures r.Err? <==> FindType(ts, typeId).None?
    ensures r.Err? ==> r.error == TypeMissing
    ensures r.Ok? ==> (|r.value.items| <= p.size
      && r.value.total == |JoinUsers(Filter(subs, (s: UserSubscription) => Selected(s, typeId, isEnabled)), users)|
      && forall x :: x in r.value.items ==> (x.subscription in subs && Selected(x.subscription, typeId, isEnabled)
        && x.subscription.userId in users && x.user == users[x.subscription.userId]))
  {
    match FindType(ts, typeId)
    case None => Err(TypeMissing)
    case Some(_) =>
      var joined := JoinUsers(Filter(subs, (s: UserSubscription) => Selected(s, typeId, isEnabled)), users);
      Ok(Paging.CreateResponse(Paging.Window(joined, Paging.Skip(p), p.size), |joined|, p.page, p.size))
  }

  datatype Counts = Counts(total: nat, active: nat, inactive: int)
  datatype Popular = Popular(id: nat, name: string, subscriberCount: nat)
  datatype Overview = Overview(types: Counts, subscriptions: Counts, byCategory: map<string, nat>, popular: seq<Popular>)

  const PopularLimit: nat := 5

  /** Most subscribers first; equal counts by id, the order the query leaves unspecified. */
  function Popularity(subs: seq<UserSubscription>, t: SubscriptionType): Key {
    Key(0 - SubscriberCount(subs, t.id), t.id)
  }

  function Categories(ts: seq<SubscriptionType>): set<string> {
    set t | t in ts :: t.category
  }

  function CategoryCount(ts: seq<SubscriptionType>, c: string): (n: nat)
    ensures c in Categories(ts) ==> n >= 1
  {
    var r := Filter(ts, (t: SubscriptionType) => t.category == c);
    if c in Categories(ts) then
      var t :| t in ts && t.category == c;
      assert t in r;
      |r|
    else |r|
  }

  function PopularOf(ts: seq<SubscriptionType>, subs: seq<UserSubscription>): (r: seq<Popular>)
    ensures |r| == |ts|
    ensures forall i :: 0 <= i < |ts| ==> r[i] == Popular(ts[i].id, ts[i].name, SubscriberCount(subs, ts[i].id))
  {
    if ts == [] then [] else [Popular(ts[0].id, ts[0].name, SubscriberCount(subs, ts[0].id))] + PopularOf(ts[1..], subs)
  }

  /** The five types with the most subscribers, most first. */
  function MostSubscribed(ts: seq<SubscriptionType>, subs: seq<UserSubscription>): (r: seq<SubscriptionType>)
    ensures |r| == Paging.Min(PopularLimit, |ts|)
    ensures forall t :: t in r ==> t in ts
  {
    var sorted := SortBy(ts, (t: SubscriptionType) => Popularity(subs, t));
    SortSameElements(ts, (t: SubscriptionType) => Popularity(subs, t));
    sorted[..Paging.Min(PopularLimit, |ts|)]
  }

  /** The popular list runs from most to fewest subscribers. */
  lemma MostSubscribedDescending(ts: seq<SubscriptionType>, subs: seq<UserSubscription>)
    ensures var r := MostSubscribed(ts, subs);
      forall i, j :: 0 <= i < j < |r| ==> SubscriberCount(subs, r[i].id) >= SubscriberCount(subs, r[j].id)
  {
    var sorted := SortBy(ts, (t: SubscriptionType) => Popularity(subs, t));
    var r := MostSubscribed(ts, subs);
    forall i, j | 0 <= i < j < |r| ensures SubscriberCount(subs, r[i].id) >= SubscriberCount(subs, r[j].id) {
      assert r[i] == sorted[i] && r[j] == sorted[j];
      assert KeyLe(Popularity(subs, sorted[i]), Popularity(subs, sorted[j]));
    }
  }

  /** No type left out of the popular list has more subscribers than one in it. */
  lemma MostSubscribedDominates(ts: seq<SubscriptionType>, subs: seq<UserSubscription>, t: SubscriptionType, x: SubscriptionType)
    requires t in ts && t !in MostSubscribed(ts, subs) && x in MostSubscribed(ts, subs)
    ensures SubscriberCount(subs, x.id) >= SubscriberCount(subs, t.id)
  {
    var key := (t: SubscriptionType) => Popularity(subs, t);
    var sorted := SortBy(ts, key);
    SortSameElements(ts, key);
    var r := MostSubscribed(ts, subs);
    var j :| 0 <= j < |sorted| && sorted[j] == t;
    var i :| 0 <= i < |r| && r[i] == x;
    assert r[i] == sorted[i];
    assert forall k :: 0 <= k < |r| ==> r[k] == sorted[k];
    assert j >= |r|;
    assert KeyLe(key(sorted[i]), key(sorted[j]));
  }

  /** Every type is either active or inactive. */
  lemma TypeActivitySplits(ts: seq<SubscriptionType>)
    ensures |Filter(ts, (t: SubscriptionType) => !t.isActive)| == |ts| - |Filter(ts, (t: SubscriptionType) => t.isActive)|
  {
    FilterAll(ts, (t: SubscriptionType) => true);
    FilterPartition(ts, (t: SubscriptionType) => true, (t: SubscriptionType) => t.isActive,
      (t: SubscriptionType) => !t.isActive, (t: SubscriptionType) => t.isActive);
  }

  /** Every subscription is either enabled or not. */
  lemma SubscriptionActivitySplits(subs: seq<UserSubscription>)
    ensures |Filter(subs, (s: UserSubscription) => !s.settings.isEnabled)|
      == |subs| - |Filter(subs, (s: UserSubscription) => s.settings.isEnabled)|
  {
    FilterAll(subs, (s: UserSubscription) => true);
    FilterPartition(subs, (s: UserSubscription) => true, (s: UserSubscription) => s.settings.isEnabled,
      (s: UserSubscription) => !s.settings.isEnabled, (s: UserSubscription) => s.settings.isEnabled);
  }

  /** `GET /stats/overview`. */
  function GetOverview(ts: seq<SubscriptionType>, subs: seq<UserSubscription>): (r: Overview)
    ensures r.types.total == |ts| && r.types.active == |Filter(ts, (t: SubscriptionType) => t.isActive)|
    ensures r.types.inactive == |Filter(ts, (t: SubscriptionType) => !t.isActive)| == r.types.total - r.types.active
    ensures r.subscriptions.total == |subs|
      && r.subscriptions.active == |Filter(subs, (s: UserSubscription) => s.settings.isEnabled)|
    ensures r.subscriptions.inactive == |Filter(subs, (s: UserSubscription) => !s.settings.isEnabled)|
      == r.subscriptions.total - r.subscriptions.active
    ensures r.byCategory.Keys == Categories(ts)
    ensures forall c :: c in r.byCategory ==> (r.byCategory[c] == |Filter(ts, (t: SubscriptionType) => t.category == c)|
      && r.byCategory[c] >= 1)
    ensures r.popular == PopularOf(MostSubscribed(ts, subs), subs) && |r.popular| <= PopularLimit
  {
    var activeTypes := |Filter(ts, (t: SubscriptionType) => t.isActive)|;
    var enabled := |Filter(subs, (s: UserSubscription) => s.settings.isEnabled)|;
    TypeActivitySplits(ts);
    SubscriptionActivitySplits(subs);
    Overview(
      Counts(|ts|, activeTypes, |ts| - activeTypes),
      Counts(|subs|, enabled, |subs| - enabled),
      map c | c in Categories(ts) :: CategoryCount(ts, c),
      PopularOf(MostSubscribed(ts, subs), subs))
  }
}
