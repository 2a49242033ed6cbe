/**
 * The friendship lifecycle of app/services/friendship_service.py: a
 * request creates a PENDING row from the caller to the target; only the
 * addressee may accept it (ACCEPTED) or reject it (BLOCKED); an ACCEPTED
 * row may be deleted by either party.  Listings without an ORDER BY are
 * modelled in table order.
 */
module Friendships {
  import opened Outcomes
  import opened Tables
  import Paging

  datatype Status = Pending | Accepted | Blocked

  datatype Friendship = Friendship(id: nat, userId: nat, friendId: nat, status: Status, updatedAt: Option<int>)

  /** The row relates users `a` and `b`, in either direction. */
  predicate Between(f: Friendship, a: nat, b: nat) {
    (f.userId == a && f.friendId == b) || (f.userId == b && f.friendId == a)
  }

  /** At most one row per unordered pair of users, and row ids are unique. */
  predicate UniquePairs(fs: seq<Friendship>) {
    forall i, j :: 0 <= i < j < |fs| ==> !Between(fs[i], fs[j].userId, fs[j].friendId) && fs[i].id != fs[j].id
  }

  function ExistingRelation(fs: seq<Friendship>, a: nat, b: nat): (r: Option<Friendship>)
    ensures r.Some? ==> r.value in fs && Between(r.value, a, b)
    ensures r.None? <==> forall f :: f in fs ==> !Between(f, a, b)
  {
    First(fs, (f: Friendship) => Between(f, a, b))
  }

  /** `create_friend_request`: self, missing target and any existing relation are refused. */
  function CreateFriendRequest(fs: seq<Friendship>, users: set<nat>, me: nat, friendId: nat)
    : (r: Result<(seq<Friendship>, Friendship)>)
    ensures friendId == me ==> r == Err(Custom(ValidationError, "Cannot send friend request to yourself"))
    ensures friendId != me && friendId !in users ==> r == Err(Custom(NotFoundError, "Target user not found"))
    ensures r.Ok? <==> friendId != me && friendId in users && forall f :: f in fs ==> !Between(f, me, friendId)
    ensures r.Err? && friendId != me && friendId in users ==> r.error.Custom? && r.error.kind == ValidationError
    ensures r.Ok? ==> (r.value.0 == fs + [r.value.1]
      && r.value.1.userId == me && r.value.1.friendId == friendId && r.value.1.status == Pending)
    ensures r.Ok? && UniquePairs(fs) ==> UniquePairs(r.value.0)
  {
    if friendId == me then Err(Custom(ValidationError, "Cannot send friend request to yourself"))
    else if friendId !in users then Err(Custom(NotFoundError, "Target user not found"))
    else match ExistingRelation(fs, me, friendId)
      case Some(f) =>
        Err(Custom(ValidationError,
          match f.status
          case Accepted => "Already friends"
          case Pending => "Friend request already sent"
          case Blocked => "Cannot send friend request to blocked user"))
      case None =>
        var req := Friendship(NextId(fs, (f: Friendship) => f.id), me, friendId, Pending, None);
        assert forall i :: 0 <= i < |fs| ==> fs[i] in fs;
        Ok((fs + [req], req))
  }

  /** The PENDING request `id` addressed to `me`. */
  predicate IncomingPending(f: Friendship, me: nat, id: nat) {
    f.id == id && f.friendId == me && f.status == Pending
  }

  /**
   * Set the status of the PENDING request `id` addressed to `me`; the
   * common path of accept and reject.
   */
  function Respond(fs: seq<Friendship>, me: nat, id: nat, status: Status, now: int): (r: Result<seq<Friendship>>)
    ensures r.Ok? <==> exists f :: f in fs && IncomingPending(f, me, id)
    ensures r.Err? ==> r.error == Custom(NotFoundError, "Friend request not found or not authorized")
    ensures r.Ok? ==> |r.value| == |fs| && forall i :: 0 <= i < |fs| ==>
      (if IncomingPending(fs[i], me, id) then r.value[i] == fs[i].(status := status, updatedAt := Some(now))
       else r.value[i] == fs[i])
    ensures r.Ok? && UniquePairs(fs) ==> UniquePairs(r.value)
  {
    if ExistingPending(fs, me, id).None? then Err(Custom(NotFoundError, "Friend request not found or not authorized"))
    else
      var updated := MapWhere(fs, (f: Friendship) => IncomingPending(f, me, id),
        (f: Friendship) => f.(status := status, updatedAt := Some(now)));
      assert forall i :: 0 <= i < |fs| ==> updated[i].id == fs[i].id && updated[i].userId == fs[i].userId && updated[i].friendId == fs[i].friendId;
      Ok(updated)
  }

  function ExistingPending(fs: seq<Friendship>, me: nat, id: nat): (r: Option<Friendship>)
    ensures r.None? <==> forall f :: f in fs ==> !IncomingPending(f, me, id)
  {
    First(fs, (f: Friendship) => IncomingPending(f, me, id))
  }

  /** `accept_friend_request`: PENDING becomes ACCEPTED. */
  function AcceptFriendRequest(fs: seq<Friendship>, me: nat, id: nat, now: int): (r: Result<seq<Friendship>>)
    ensures r.Ok? <==> exists f :: f in fs && IncomingPending(f, me, id)
    ensures r.Ok? ==> |r.value| == |fs| && forall i :: 0 <= i < |fs| ==>
      r.value[i].status == (if IncomingPending(fs[i], me, id) then Accepted else fs[i].status)
  {
    Respond(fs, me, id, Accepted, now)
  }

  /** `reject_friend_request`: PENDING becomes BLOCKED. */
  function RejectFriendRequest(fs: seq<Friendship>, me: nat, id: nat, now: int): (r: Result<seq<Friendship>>)
    ensures r.Ok? <==> exists f :: f in fs && IncomingPending(f, me, id)
    ensures r.Ok? ==> |r.value| == |fs| && forall i :: 0 <= i < |fs| ==>
      r.value[i].status == (if IncomingPending(fs[i], me, id) then Blocked else fs[i].status)
  {
    Respond(fs, me, id, Blocked, now)
  }

  predicate DeletableBy(f: Friendship, me: nat, id: nat) {
    f.id == id && (f.userId == me || f.friendId == me) && f.status == Accepted
  }

  /** `delete_friend`: remove an ACCEPTED row involving the caller. */
  function DeleteFriend(fs: seq<Friendship>, me: nat, id: nat): (r: Result<seq<Friendship>>)
    ensures r.Ok? <==> exists f :: f in fs && DeletableBy(f, me, id)
    ensures r.Err? ==> r.error == Custom(NotFoundError, "Friendship not found or not authorized")
    ensures r.Ok? ==> forall f :: f in r.value <==> f in fs && !DeletableBy(f, me, id)
  {
    if First(fs, (f: Friendship) => DeletableBy(f, me, id)).None? then
      Err(Custom(NotFoundError, "Friendship not found or not authorized"))
    else Ok(Filter(fs, (f: Friendship) => !DeletableBy(f, me, id)))
  }

  datatype Page<T> = Page(items: seq<T>, total: nat)

  /** `get_friendships`: the caller's rows, optionally of one status. */
  function GetFriendships(fs: seq<Friendship>, me: nat, status: Option<Status>, params: Paging.PageParams)
    : (r: Page<Friendship>)
    requires Paging.ValidParams(params)
    ensures |r.items| <= params.size
    ensures forall f :: f in r.items ==>
      (f in fs && (f.userId == me || f.friendId == me) && (status.Some? ==> f.status == status.value))
    ensures r.total == |Filter(fs, (f: Friendship) => (f.userId == me || f.friendId == me) && (status.None? || f.status == status.value))|
    ensures r.items == Paging.Window(Filter(fs, (f: Friendship) => (f.userId == me || f.friendId == me) && (status.None? || f.status == status.value)),
                                     Paging.Skip(params), params.size)
  {
    var rows := Filter(fs, (f: Friendship) => (f.userId == me || f.friendId == me) && (status.None? || f.status == status.value));
    var items := Paging.Window(rows, Paging.Skip(params), params.size);
    assert forall f :: f in items ==> f in rows;
    Page(items, |rows|)
  }

  /** `get_friend_requests`: the PENDING rows addressed to the caller. */
  function GetFriendRequests(fs: seq<Friendship>, me: nat, params: Paging.PageParams): (r: Page<Friendship>)
    requires Paging.ValidParams(params)
    ensures |r.items| <= params.size
    ensures forall f :: f in r.items ==> f in fs && f.friendId == me && f.status == Pending
    ensures r.total == |Filter(fs, (f: Friendship) => f.friendId == me && f.status == Pending)|
    ensures r.items == Paging.Window(Filter(fs, (f: Friendship) => f.friendId == me && f.status == Pending), Paging.Skip(params), params.size)
  {
    var rows := Filter(fs, (f: Friendship) => f.friendId == me && f.status == Pending);
    var items := Paging.Window(rows, Paging.Skip(params), params.size);
    assert forall f :: f in items ==> f in rows;
    Page(items, |rows|)
  }

  /**
   * `get_friends`: the union of the other parties of the caller's ACCEPTED
   * rows, joined with the user table; `total` is its size.
   */
  function FriendIds(fs: seq<Friendship>, users: set<nat>, me: nat): (r: set<nat>)
    ensures forall u :: u in r <==> u in users && exists f :: f in fs && f.status == Accepted && Between(f, me, u)
  {
    set f, u | f in fs && u in users && f.status == Accepted && Between(f, me, u) :: u
  }

  /** The ids of the user table, as a set. */
  function UserSet(userIds: seq<nat>): set<nat> {
    set u | u in userIds
  }

  /**
   * `get_friends` with its page: the friends in user-table order, one
   * OFFSET/LIMIT window of them, and `total` counting all of them.  User
   * ids are the table's primary key, so they are distinct.
   */
  function GetFriends(fs: seq<Friendship>, userIds: seq<nat>, me: nat, params: Paging.PageParams): (r: Page<nat>)
    requires Paging.ValidParams(params)
    requires DistinctKeys(userIds, (u: nat) => u)
    ensures r.total == |FriendIds(fs, UserSet(userIds), me)|
    ensures |r.items| <= params.size
    ensures forall u :: u in r.items ==> u in FriendIds(fs, UserSet(userIds), me)
    ensures Paging.Skip(params) < r.total ==> |r.items| == Paging.Min(params.size, r.total - Paging.Skip(params))
    ensures Paging.Skip(params) >= r.total ==> r.items == []
  {
    var friends := FriendIds(fs, UserSet(userIds), me);
    var rows := Filter(userIds, (u: nat) => u in friends);
    FriendRowsCount(userIds, friends);
    Page(Paging.Window(rows, Paging.Skip(params), params.size), |rows|)
  }

  /** Listing the user table's ids that lie in a set of users lists each of them once. */
  lemma FriendRowsCount(userIds: seq<nat>, friends: set<nat>)
    requires DistinctKeys(userIds, (u: nat) => u)
    requires friends <= UserSet(userIds)
    ensures |Filter(userIds, (u: nat) => u in friends)| == |friends|
  {
    var id := (u: nat) => u;
    var rows := Filter(userIds, (u: nat) => u in friends);
    FilterKeepsDistinct(userIds, (u: nat) => u in friends, id);
    DistinctKeysCard(rows, id);
    assert KeySet(rows, id) == friends by {
      forall u | u in friends ensures u in KeySet(rows, id) {
        assert u in rows;
        var i :| 0 <= i < |rows| && rows[i] == u;
        assert id(rows[i]) == u;
      }
      forall u | u in KeySet(rows, id) ensures u in friends {
        var i :| 0 <= i < |rows| && id(rows[i]) == u;
        assert rows[i] in rows;
      }
    }
  }

  /** Friendship is symmetric. */
  lemma FriendsSymmetric(fs: seq<Friendship>, users: set<nat>, a: nat, b: nat)
    requires a in users && b in users
    ensures b in FriendIds(fs, users, a) <==> a in FriendIds(fs, users, b)
  {
    if b in FriendIds(fs, users, a) {
      var f :| f in fs && f.status == Accepted && Between(f, a, b);
      assert Between(f, b, a);
    }
    if a in FriendIds(fs, users, b) {
      var f :| f in fs && f.status == Accepted && Between(f, b, a);
      assert Between(f, a, b);
    }
  }

  /** Accepting a request makes the two parties friends. */
  lemma AcceptMakesFriends(fs: seq<Friendship>, users: set<nat>, me: nat, id: nat, now: int, f: Friendship)
    requires f in fs && IncomingPending(f, me, id) && f.userId in users
    ensures AcceptFriendRequest(fs, me, id, now).Ok?
    ensures f.userId in FriendIds(AcceptFriendRequest(fs, me, id, now).value, users, me)
  {
    var r := AcceptFriendRequest(fs, me, id, now).value;
    var i :| 0 <= i < |fs| && fs[i] == f;
    assert r[i] == f.(status := Accepted, updatedAt := Some(now));
    assert r[i] in r && Between(r[i], me, f.userId);
  }

  /** A rejected request can never be re-sent by either party. */
  lemma RejectBarsNewRequests(fs: seq<Friendship>, users: set<nat>, me: nat, id: nat, now: int, f: Friendship)
    requires f in fs && IncomingPending(f, me, id)
    ensures RejectFriendRequest(fs, me, id, now).Ok?
    ensures CreateFriendRequest(RejectFriendRequest(fs, me, id, now).value, users, me, f.userId).Err?
    ensures CreateFriendRequest(RejectFriendRequest(fs, me, id, now).value, users, f.userId, me).Err?
  {
    var r := RejectFriendRequest(fs, me, id, now).value;
    var i :| 0 <= i < |fs| && fs[i] == f;
    assert r[i] in r && Between(r[i], me, f.userId) && Between(r[i], f.userId, me);
  }

  /** After a successful delete the former friends are no longer friends, given one row per pair. */
  lemma DeleteEndsFriendship(fs: seq<Friendship>, users: set<nat>, me: nat, id: nat, f: Friendship)
    requires UniquePairs(fs) && f in fs && DeletableBy(f, me, id)
    ensures DeleteFriend(fs, me, id).Ok?
    ensures var other := if f.userId == me then f.friendId else f.userId;
      other !in FriendIds(DeleteFriend(fs, me, id).value, users, me)
  {
    var other := if f.userId == me then f.friendId else f.userId;
    var r := DeleteFriend(fs, me, id).value;
    forall g | g in r && g.status == Accepted
      ensures !Between(g, me, other)
    {
      var i :| 0 <= i < |fs| && fs[i] == g;
      var j :| 0 <= j < |fs| && fs[j] == f;
    }
  }
}
