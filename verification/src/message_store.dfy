/**
 * The message and favourite tables as the message code sees them: each
 * table is a sequence in insertion order, and ids and creation times grow
 * along it, so "ordered by created_at" is the sequence order and "newest
 * first" is its reverse.
 */
module MessageStore {
  import opened Outcomes
  import opened Json
  import Paging
  import opened Tables

  datatype Message = Message(
    id: nat, senderId: string, receiverId: string, content: string,
    messageType: string, pattern: Option<Object>, createdAt: int)

  datatype Favorite = Favorite(id: nat, userId: nat, messageId: nat, note: Option<string>, createdAt: int)

  /** Ids strictly increase and creation times never decrease along the table. */
  predicate Chronological(ms: seq<Message>) {
    forall i, j :: 0 <= i < j < |ms| ==> ms[i].id < ms[j].id && ms[i].createdAt <= ms[j].createdAt
  }

  predicate FavoritesChronological(fs: seq<Favorite>) {
    forall i, j :: 0 <= i < j < |fs| ==> fs[i].id < fs[j].id && fs[i].createdAt <= fs[j].createdAt
  }

  predicate NewestFirst(ms: seq<Message>) {
    forall i, j :: 0 <= i < j < |ms| ==> ms[i].createdAt >= ms[j].createdAt
  }

  /** `query.filter(keep)`, keeping the table order. */
  function Where(ms: seq<Message>, keep: Message -> bool): (r: seq<Message>)
    ensures |r| <= |ms|
    ensures forall m :: m in r <==> m in ms && keep(m)
  {
    Filter(ms, keep)
  }

  /** Filtering keeps the table's order. */
  lemma {:induction false} WhereKeepsChronological(ms: seq<Message>, keep: Message -> bool)
    requires Chronological(ms)
    ensures Chronological(Where(ms, keep))
  {
    if ms != [] {
      var tail := ms[1..];
      assert Chronological(tail) by {
        forall i, j | 0 <= i < j < |tail| ensures tail[i].id < tail[j].id && tail[i].createdAt <= tail[j].createdAt {
          assert tail[i] == ms[i + 1] && tail[j] == ms[j + 1];
        }
      }
      WhereKeepsChronological(tail, keep);
      var rest := Where(tail, keep);
      if keep(ms[0]) {
        var r := [ms[0]] + rest;
        forall i, j | 0 <= i < j < |r| ensures r[i].id < r[j].id && r[i].createdAt <= r[j].createdAt {
          if i == 0 {
            assert r[j] in tail;
            var k :| 0 <= k < |tail| && tail[k] == r[j];
            assert tail[k] == ms[k + 1];
          } else {
            assert r[i] == rest[i - 1] && r[j] == rest[j - 1];
          }
        }
      }
    }
  }

  /** `order_by(created_at.desc())` on a chronological result. */
  lemma ReverseIsNewestFirst(ms: seq<Message>)
    requires Chronological(ms)
    ensures NewestFirst(Reverse(ms))
  {
  }

  datatype Listing = Listing(items: seq<Message>, total: nat)

  lemma WindowWithin(xs: seq<Message>, offset: nat, limit: nat)
    ensures forall m :: m in Paging.Window(xs, offset, limit) ==> m in xs
    ensures NewestFirst(xs) ==> NewestFirst(Paging.Window(xs, offset, limit))
  {
    var w := Paging.Window(xs, offset, limit);
    forall m | m in w ensures m in xs {
      var i :| 0 <= i < |w| && w[i] == m;
      assert xs[offset + i] == m;
    }
  }

  /**
   * `query.filter(keep)`, counted, then `order_by(created_at.desc())`,
   * `offset((page - 1) * size)` and `limit(size)`.
   */
  function ListNewestFirst(ms: seq<Message>, keep: Message -> bool, page: nat, size: nat): (r: Listing)
    requires page >= 1
    ensures r.total == |Where(ms, keep)|
    ensures |r.items| <= size
    ensures forall m :: m in r.items ==> m in ms && keep(m)
    ensures r.items == Paging.Window(Reverse(Where(ms, keep)), (page - 1) * size, size)
  {
    var matching := Where(ms, keep);
    var newest := Reverse(matching);
    var offset: nat := (page - 1) * size;
    ReverseSameElements(matching);
    WindowWithin(newest, offset, size);
    Listing(Paging.Window(newest, offset, size), |matching|)
  }

  /** On a chronological table every listed page is ordered newest first. */
  lemma ListingIsNewestFirst(ms: seq<Message>, keep: Message -> bool, page: nat, size: nat)
    requires page >= 1 && Chronological(ms)
    ensures NewestFirst(ListNewestFirst(ms, keep, page, size).items)
  {
    var matching := Where(ms, keep);
    WhereKeepsChronological(ms, keep);
    ReverseIsNewestFirst(matching);
    WindowWithin(Reverse(matching), (page - 1) * size, size);
  }

  function FindMessage(ms: seq<Message>, id: nat): (r: Option<Message>)
    ensures r.Some? ==> r.value in ms && r.value.id == id
    ensures r.None? <==> forall m :: m in ms ==> m.id != id
  {
    First(ms, (m: Message) => m.id == id)
  }

  /** The id the next insert receives: above every id in the table. */
  function NextMessageId(ms: seq<Message>): (id: nat)
    ensures forall m :: m in ms ==> m.id < id
  {
    NextId(ms, (m: Message) => m.id)
  }

  /** Inserting a row with a fresh id at the current time keeps the table chronological. */
  lemma AppendKeepsChronological(ms: seq<Message>, m: Message)
    requires Chronological(ms)
    requires m.id == NextMessageId(ms)
    requires forall x :: x in ms ==> x.createdAt <= m.createdAt
    ensures Chronological(ms + [m])
  {
    var r := ms + [m];
    forall i, j | 0 <= i < j < |r| ensures r[i].id < r[j].id && r[i].createdAt <= r[j].createdAt {
      if j == |ms| {
        assert r[i] in ms;
      }
    }
  }

  function RemoveMessage(ms: seq<Message>, id: nat): (r: seq<Message>)
    ensures forall m :: m in r <==> m in ms && m.id != id
    ensures Chronological(ms) ==> Chronological(r)
  {
    var keep := (m: Message) => m.id != id;
    if Chronological(ms) then WhereKeepsChronological(ms, keep); Where(ms, keep) else Where(ms, keep)
  }

  function FindFavorite(fs: seq<Favorite>, userId: nat, messageId: nat): (r: Option<Favorite>)
    ensures r.Some? ==> r.value in fs && r.value.userId == userId && r.value.messageId == messageId
    ensures r.None? <==> forall f :: f in fs ==> !(f.userId == userId && f.messageId == messageId)
  {
    First(fs, (f: Favorite) => f.userId == userId && f.messageId == messageId)
  }

  function NextFavoriteId(fs: seq<Favorite>): (id: nat)
    ensures forall f :: f in fs ==> f.id < id
  {
    NextId(fs, (f: Favorite) => f.id)
  }

  /** At most one favourite per (user, message). */
  predicate UniqueFavorites(fs: seq<Favorite>) {
    forall i, j :: 0 <= i < j < |fs| ==> !(fs[i].userId == fs[j].userId && fs[i].messageId == fs[j].messageId)
  }
}
