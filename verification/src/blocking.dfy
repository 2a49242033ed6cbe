/**
 * The block list: `block_user`, `unblock_user` and `get_blocked_users` of
 * app/services/user_settings_service.py, and the lookup, status, count and
 * search routes of app/api/routes/blocks.py.  The block table is a
 * sequence in insertion order, so ordering by `created_at` descending is
 * its reverse.
 */
module Blocking {
  import opened Outcomes
  import opened Tables
  import Text
  import Paging

  const MaxBlocks: nat := 50

  datatype Block = Block(id: nat, blockerId: nat, blockedId: nat, createdAt: int)

  datatype User = User(id: nat, bipupuId: string, username: string, nickname: Option<string>)

  /** The database's unique (blocker, blocked) constraint. */
  predicate UniqueBlocks(bs: seq<Block>) {
    forall i, j :: 0 <= i < j < |bs| ==> !(bs[i].blockerId == bs[j].blockerId && bs[i].blockedId == bs[j].blockedId)
  }

  function BlocksBy(bs: seq<Block>, blocker: nat): seq<Block> {
    Filter(bs, (b: Block) => b.blockerId == blocker)
  }

  /** Nobody holds more than fifty blocks. */
  predicate WithinCap(bs: seq<Block>) {
    forall b :: b in bs ==> |BlocksBy(bs, b.blockerId)| <= MaxBlocks
  }

  predicate IsBlocked(bs: seq<Block>, blocker: nat, blocked: nat) {
    exists b :: b in bs && b.blockerId == blocker && b.blockedId == blocked
  }

  function FindBlock(bs: seq<Block>, blocker: nat, blocked: nat): (r: Option<Block>)
    ensures r.Some? ==> r.value in bs && r.value.blockerId == blocker && r.value.blockedId == blocked
    ensures r.None? <==> !IsBlocked(bs, blocker, blocked)
  {
    First(bs, (b: Block) => b.blockerId == blocker && b.blockedId == blocked)
  }

  /**
   * `block_user`: refused for oneself, an unknown target, an existing
   * block, and a blocker already holding fifty blocks.
   */
  function BlockUser(bs: seq<Block>, users: set<nat>, me: nat, target: nat, now: int): (r: Result<seq<Block>>)
    ensures target == me ==> r == Err(Custom(ValidationError, "不能拉黑自己"))
    ensures target != me && target !in users ==> r == Err(Custom(NotFoundError, "用户不存在"))
    ensures target != me && target in users && IsBlocked(bs, me, target) ==>
      r == Err(Custom(ValidationError, "已经拉黑该用户"))
    ensures target != me && target in users && !IsBlocked(bs, me, target) && |BlocksBy(bs, me)| >= MaxBlocks ==>
      r == Err(Custom(ValidationError, "黑名单已满，最多只能拉黑50个用户"))
    ensures r.Ok? <==> target != me && target in users && !IsBlocked(bs, me, target) && |BlocksBy(bs, me)| < MaxBlocks
    ensures r.Ok? ==> exists id :: r.value == bs + [Block(id, me, target, now)]
  {
    if target == me then Err(Custom(ValidationError, "不能拉黑自己"))
    else if target !in users then Err(Custom(NotFoundError, "用户不存在"))
    else if FindBlock(bs, me, target).Some? then Err(Custom(ValidationError, "已经拉黑该用户"))
    else if |BlocksBy(bs, me)| >= MaxBlocks then Err(Custom(ValidationError, "黑名单已满，最多只能拉黑50个用户"))
    else Ok(bs + [Block(NextId(bs, (b: Block) => b.id), me, target, now)])
  }

  /** A successful block keeps the pairs unique and every blocker within the cap. */
  lemma BlockKeepsInvariants(bs: seq<Block>, users: set<nat>, me: nat, target: nat, now: int)
    requires UniqueBlocks(bs) && WithinCap(bs)
    requires BlockUser(bs, users, me, target, now).Ok?
    ensures UniqueBlocks(BlockUser(bs, users, me, target, now).value)
    ensures WithinCap(BlockUser(bs, users, me, target, now).value)
  {
    var r := BlockUser(bs, users, me, target, now).value;
    var nb := r[|bs|];
    assert r == bs + [nb];
    AppendKeepsUnique(bs, nb);
    forall b | b in r ensures |BlocksBy(r, b.blockerId)| <= MaxBlocks {
      AppendedWithinCap(bs, nb, b.blockerId);
    }
  }

  lemma AppendKeepsUnique(bs: seq<Block>, nb: Block)
    requires UniqueBlocks(bs) && !IsBlocked(bs, nb.blockerId, nb.blockedId)
    ensures UniqueBlocks(bs + [nb])
  {
    var r := bs + [nb];
    forall i, j | 0 <= i < j < |r|
      ensures !(r[i].blockerId == r[j].blockerId && r[i].blockedId == r[j].blockedId)
    {
      assert r[i] == bs[i] && bs[i] in bs;
      if j < |bs| {
        assert r[j] == bs[j];
      }
    }
  }

  /** Appending a block raises only its blocker's count, which was below the cap. */
  lemma AppendedWithinCap(bs: seq<Block>, nb: Block, blocker: nat)
    requires WithinCap(bs) && |BlocksBy(bs, nb.blockerId)| < MaxBlocks
    requires blocker == nb.blockerId || exists b :: b in bs && b.blockerId == blocker
    ensures |BlocksBy(bs + [nb], blocker)| <= MaxBlocks
  {
    FilterAppend(bs, [nb], (x: Block) => x.blockerId == blocker);
  }

  /** `unblock_user`: remove the caller's block of the target, or NotFound. */
  function UnblockUser(bs: seq<Block>, me: nat, target: nat): (r: Result<seq<Block>>)
    ensures r.Ok? <==> IsBlocked(bs, me, target)
    ensures r.Err? ==> r.error == Custom(NotFoundError, "未找到拉黑记录")
    ensures r.Ok? ==> !IsBlocked(r.value, me, target) || !UniqueBlocks(bs)
    ensures r.Ok? ==> forall b :: b in bs && !(b.blockerId == me && b.blockedId == target) ==> b in r.value
    ensures r.Ok? ==> forall b :: b in r.value ==> b in bs
  {
    match FindBlock(bs, me, target)
    case None => Err(Custom(NotFoundError, "未找到拉黑记录"))
    case Some(row) =>
      var rest := Filter(bs, (b: Block) => b != row);
      if UniqueBlocks(bs) then
        assert forall b :: b in bs && b.blockerId == me && b.blockedId == target ==> b == row by {
          forall b | b in bs && b.blockerId == me && b.blockedId == target ensures b == row {
            var i :| 0 <= i < |bs| && bs[i] == b;
            var j :| 0 <= j < |bs| && bs[j] == row;
            assert i == j;
          }
        }
        Ok(rest)
      else Ok(rest)
  }

  /** Unblocking undoes a block. */
  lemma UnblockUndoesBlock(bs: seq<Block>, users: set<nat>, me: nat, target: nat, now: int)
    requires UniqueBlocks(bs) && BlockUser(bs, users, me, target, now).Ok?
    ensures UnblockUser(BlockUser(bs, users, me, target, now).value, me, target) == Ok(bs)
  {
    var r := BlockUser(bs, users, me, target, now).value;
    var nb := r[|bs|];
    assert r == bs + [nb];
    assert forall i :: 0 <= i < |bs| ==> bs[i] in bs;
    assert FindBlock(r, me, target) == Some(nb) by {
      FindBlockSkips(bs, [nb], me, target);
    }
    var keep := (b: Block) => b != nb;
    assert forall b :: b in bs ==> keep(b);
    FilterAppend(bs, [nb], keep);
    FilterAll(bs, keep);
    assert Filter([nb], keep) == [];
    assert Filter(r, keep) == bs;
  }

  lemma {:induction false} FindBlockSkips(xs: seq<Block>, ys: seq<Block>, me: nat, target: nat)
    requires !IsBlocked(xs, me, target)
    ensures FindBlock(xs + ys, me, target) == FindBlock(ys, me, target)
  {
    if xs != [] {
      assert (xs + ys)[1..] == xs[1..] + ys;
      assert xs[0] in xs;
      FindBlockSkips(xs[1..], ys, me, target);
    } else {
      assert xs + ys == ys;
    }
  }

  /** The caller's blocked users joined with the user table, oldest block first. */
  function JoinBlocked(bs: seq<Block>, users: seq<User>, me: nat): (r: seq<(User, int)>)
    ensures forall p :: p in r ==> p.0 in users && exists b :: b in bs && b.blockerId == me && b.blockedId == p.0.id && b.createdAt == p.1
    ensures forall b :: b in bs && b.blockerId == me && First(users, (u: User) => u.id == b.blockedId).Some? ==>
              (First(users, (u: User) => u.id == b.blockedId).value, b.createdAt) in r
  {
    if bs == [] then []
    else
      var rest := JoinBlocked(bs[1..], users, me);
      if bs[0].blockerId == me then
        match First(users, (u: User) => u.id == bs[0].blockedId)
        case Some(u) => [(u, bs[0].createdAt)] + rest
        case None => rest
      else rest
  }

  /**
   * `get_blocked_users`: the join of the caller's blocks with the users,
   * newest block first, one page of it, and the join's size.
   */
  function GetBlockedUsers(bs: seq<Block>, users: seq<User>, me: nat, params: Paging.PageParams)
    : (r: (seq<(User, int)>, nat))
    requires Paging.ValidParams(params)
    ensures |r.0| <= params.size
    ensures r.1 == |JoinBlocked(bs, users, me)|
    ensures forall p :: p in r.0 ==> p.0 in users && IsBlocked(bs, me, p.0.id)
    ensures r.0 == Paging.Window(Reverse(JoinBlocked(bs, users, me)), Paging.Skip(params), params.size)
  {
    var joined := JoinBlocked(bs, users, me);
    ReverseSameElements(joined);
    (Paging.Window(Reverse(joined), Paging.Skip(params), params.size), |joined|)
  }

  /** `_get_user_by_bipupu_id`: the first user with that id, or 404. */
  function UserByBipupuId(users: seq<User>, bipupuId: string): (r: Result<User>)
    ensures r.Ok? ==> r.value in users && r.value.bipupuId == bipupuId
    ensures r.Err? <==> forall u :: u in users ==> u.bipupuId != bipupuId
    ensures r.Err? ==> r.error == Http(404, "用户不存在")
  {
    match First(users, (u: User) => u.bipupuId == bipupuId)
    case None => Err(Http(404, "用户不存在"))
    case Some(u) => Ok(u)
  }

  /** `_validate_not_self`: 400 when the target is the caller. */
  function ValidateNotSelf(me: User, target: User): (r: Result<User>)
    ensures r.Ok? <==> target.id != me.id
    ensures r.Ok? ==> r.value == target
    ensures r.Err? ==> r.error == Http(400, "不能对自己执行此操作")
  {
    if target.id == me.id then Err(Http(400, "不能对自己执行此操作")) else Ok(target)
  }

  datatype BlockStatus = BlockStatus(blockedByMe: bool, blockedByThem: bool, mutual: bool, target: User)

  /** `check_block_status`: both directions of blocking between the caller and the target. */
  function CheckBlockStatus(bs: seq<Block>, users: seq<User>, me: User, bipupuId: string): (r: Result<BlockStatus>)
    ensures r.Err? <==> forall u :: u in users ==> u.bipupuId != bipupuId
    ensures r.Ok? ==> r.value.target in users && r.value.target.bipupuId == bipupuId
    ensures r.Ok? ==> (r.value.blockedByMe <==> IsBlocked(bs, me.id, r.value.target.id))
    ensures r.Ok? ==> (r.value.blockedByThem <==> IsBlocked(bs, r.value.target.id, me.id))
    ensures r.Ok? ==> (r.value.mutual <==> r.value.blockedByMe && r.value.blockedByThem)
  {
    var target :- UserByBipupuId(users, bipupuId);
    var byMe := FindBlock(bs, me.id, target.id).Some?;
    var byThem := FindBlock(bs, target.id, me.id).Some?;
    Ok(BlockStatus(byMe, byThem, byMe && byThem, target))
  }

  datatype BlockCount = BlockCount(totalBlocks: nat, totalBlockedBy: nat, mutualBlocks: nat)

  function BlockedOf(b: Block): nat { b.blockedId }

  function BlockerOf(b: Block): nat { b.blockerId }

  function BlockersOf(bs: seq<Block>, me: nat): set<nat> {
    KeySet(Filter(bs, (b: Block) => b.blockedId == me), BlockerOf)
  }

  /** `get_block_count`: outgoing rows, incoming rows, and outgoing rows whose target also blocks the caller. */
  function GetBlockCount(bs: seq<Block>, me: nat): (r: BlockCount)
    ensures r.totalBlocks == |BlocksBy(bs, me)|
    ensures r.totalBlockedBy == |Filter(bs, (b: Block) => b.blockedId == me)|
    ensures r.mutualBlocks == |Filter(bs, (b: Block) => b.blockerId == me && b.blockedId in BlockersOf(bs, me))|
  {
    var blockers := BlockersOf(bs, me);
    BlockCount(
      |BlocksBy(bs, me)|,
      |Filter(bs, (b: Block) => b.blockedId == me)|,
      |Filter(bs, (b: Block) => b.blockerId == me && b.blockedId in blockers)|)
  }

  /**
   * Given unique pairs, mutual blocks are at most the caller's blocks and
   * at most the blocks of the caller.
   */
  lemma MutualAtMostEither(bs: seq<Block>, me: nat)
    requires UniqueBlocks(bs)
    ensures GetBlockCount(bs, me).mutualBlocks <= GetBlockCount(bs, me).totalBlocks
    ensures GetBlockCount(bs, me).mutualBlocks <= GetBlockCount(bs, me).totalBlockedBy
  {
    var blockers := BlockersOf(bs, me);
    var mutualKeep := (b: Block) => b.blockerId == me && b.blockedId in blockers;
    var outKeep := (b: Block) => b.blockerId == me;
    var inKeep := (b: Block) => b.blockedId == me;
    FilterStronger(bs, mutualKeep, outKeep);
    var outRows := Filter(bs, outKeep);
    var inRows := Filter(bs, inKeep);
    var mutualRows := Filter(bs, mutualKeep);
    assert DistinctKeys(inRows, BlockerOf) by {
      IncomingDistinct(bs, me);
    }
    assert DistinctKeys(mutualRows, BlockedOf) by {
      MutualDistinct(bs, me, blockers);
    }
    DistinctKeysCard(mutualRows, BlockedOf);
    DistinctKeysCard(inRows, BlockerOf);
    assert KeySet(mutualRows, BlockedOf) <= KeySet(inRows, BlockerOf) by {
      forall k | k in KeySet(mutualRows, BlockedOf) ensures k in KeySet(inRows, BlockerOf) {
        var i :| 0 <= i < |mutualRows| && mutualRows[i].blockedId == k;
        assert mutualRows[i] in mutualRows;
        assert k in blockers;
      }
    }
    SubsetCard(KeySet(mutualRows, BlockedOf), KeySet(inRows, BlockerOf));
  }

  lemma IncomingDistinct(bs: seq<Block>, me: nat)
    requires UniqueBlocks(bs)
    ensures DistinctKeys(Filter(bs, (b: Block) => b.blockedId == me), BlockerOf)
  {
    FilterPairsDistinct(bs, (b: Block) => b.blockedId == me, BlockerOf);
  }

  lemma MutualDistinct(bs: seq<Block>, me: nat, blockers: set<nat>)
    requires UniqueBlocks(bs)
    ensures DistinctKeys(Filter(bs, (b: Block) => b.blockerId == me && b.blockedId in blockers), BlockedOf)
  {
    FilterPairsDistinct(bs, (b: Block) => b.blockerId == me && b.blockedId in blockers, BlockedOf);
  }

  /**
   * Rows kept by a filter that fixes one side of the pair have distinct
   * values on the other side, since pairs are unique.
   */
  lemma {:induction false} FilterPairsDistinct(bs: seq<Block>, keep: Block -> bool, key: Block -> nat)
    requires UniqueBlocks(bs)
    requires forall a, b :: a in bs && b in bs && keep(a) && keep(b) && key(a) == key(b) ==>
      a.blockerId == b.blockerId && a.blockedId == b.blockedId
    ensures DistinctKeys(Filter(bs, keep), key)
  {
    if bs != [] {
      var tail := bs[1..];
      TailUnique(bs);
      FilterPairsDistinct(tail, keep, key);
      var r := Filter(bs, keep);
      var rt := Filter(tail, keep);
      if keep(bs[0]) {
        assert r == [bs[0]] + rt;
        forall x | x in rt ensures key(bs[0]) != key(x) {
          HeadKeyFresh(bs, keep, key, x);
        }
        ConsDistinct(bs[0], rt, key);
      } else {
        assert r == rt;
      }
    }
  }

  lemma TailUnique(bs: seq<Block>)
    requires UniqueBlocks(bs) && bs != []
    ensures UniqueBlocks(bs[1..])
  {
    var tail := bs[1..];
    forall i, j | 0 <= i < j < |tail|
      ensures !(tail[i].blockerId == tail[j].blockerId && tail[i].blockedId == tail[j].blockedId)
    {
      assert tail[i] == bs[i + 1] && tail[j] == bs[j + 1];
    }
  }

  /** The first row's key differs from that of every later row the filter keeps. */
  lemma HeadKeyFresh(bs: seq<Block>, keep: Block -> bool, key: Block -> nat, x: Block)
    requires UniqueBlocks(bs) && bs != [] && keep(bs[0])
    requires forall a, b :: a in bs && b in bs && keep(a) && keep(b) && key(a) == key(b) ==>
      a.blockerId == b.blockerId && a.blockedId == b.blockedId
    requires x in Filter(bs[1..], keep)
    ensures key(bs[0]) != key(x)
  {
    var k :| 0 <= k < |bs[1..]| && bs[1..][k] == x;
    assert bs[k + 1] == x;
    assert !(bs[0].blockerId == bs[k + 1].blockerId && bs[0].blockedId == bs[k + 1].blockedId);
  }

  datatype SearchHit = SearchHit(user: User, blockedAt: int)

  /** One of username, nickname or bipupu id contains the keyword, ignoring ASCII case. */
  predicate MatchesKeyword(u: User, keyword: string) {
    Text.ContainsIgnoringCase(u.username, keyword)
    || (u.nickname.Some? && Text.ContainsIgnoringCase(u.nickname.value, keyword))
    || Text.ContainsIgnoringCase(u.bipupuId, keyword)
  }

  /**
   * `search_blocked_users`: the caller's blocked users matching the
   * keyword, newest block first, at most `limit`; `limit` must be 1..50.
   */
  function SearchBlockedUsers(bs: seq<Block>, users: seq<User>, me: nat, keyword: string, limit: int)
    : (r: Result<seq<(User, int)>>)
    ensures r.Ok? <==> 1 <= limit <= 50
    ensures r.Ok? ==> |r.value| <= limit
    ensures r.Ok? ==> forall p :: p in r.value ==> p.0 in users && IsBlocked(bs, me, p.0.id) && MatchesKeyword(p.0, keyword)
    ensures r.Ok? && |r.value| < limit ==>
      forall p :: p in JoinBlocked(bs, users, me) && MatchesKeyword(p.0, keyword) ==> p in r.value
  {
    if limit < 1 || limit > 50 then Err(Http(422, ""))
    else
      var hits := Filter(Reverse(JoinBlocked(bs, users, me)), (p: (User, int)) => MatchesKeyword(p.0, keyword));
      ReverseSameElements(JoinBlocked(bs, users, me));
      var page := Paging.Window(hits, 0, limit);
      if |page| < limit then assert page == hits; Ok(page) else Ok(page)
  }
}
