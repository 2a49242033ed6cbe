/**
 * app/services/favorite_service.py: add (or re-note), remove and list a
 * user's favourite messages, over the tables of MessageStore.
 */
module FavoriteService {
  import opened Outcomes
  import opened Tables
  import opened MessageStore
  import Paging

  /**
   * `add_favorite`: ValueError for a missing message; an existing favourite
   * is returned, its note replaced only by a non-None note; otherwise a new
   * favourite with the given note.
   */
  function AddFavorite(fs: seq<Favorite>, ms: seq<Message>, userId: nat, messageId: nat, note: Option<string>, now: int)
    : (r: Result<(seq<Favorite>, Favorite)>)
    ensures r.Err? <==> FindMessage(ms, messageId).None?
    ensures r.Err? ==> r.error == ValueErr
    ensures r.Ok? ==> r.value.1 in r.value.0 && r.value.1.userId == userId && r.value.1.messageId == messageId
    ensures r.Ok? && FindFavorite(fs, userId, messageId).Some? ==>
      var prior := FindFavorite(fs, userId, messageId).value;
      |r.value.0| == |fs| && r.value.1 == (if note.Some? then prior.(note := note) else prior)
      && forall k :: 0 <= k < |fs| ==> r.value.0[k] == if fs[k] == prior then r.value.1 else fs[k]
    ensures r.Ok? && FindFavorite(fs, userId, messageId).None? ==> r.value.0 == fs + [r.value.1] && r.value.1.note == note
    ensures r.Ok? && UniqueFavorites(fs) ==> UniqueFavorites(r.value.0)
  {
    if FindMessage(ms, messageId).None? then Err(ValueErr)
    else match FindFavorite(fs, userId, messageId)
      case Some(existing) =>
        if note.None? then Ok((fs, existing))
        else
          var updated := existing.(note := note);
          var table := MapWhere(fs, (f: Favorite) => f == existing, (f: Favorite) => f.(note := note));
          RenotedKeepsKeys(fs, existing, note, table);
          Ok((table, updated))
      case None =>
        var f := Favorite(NextFavoriteId(fs), userId, messageId, note, now);
        assert forall i :: 0 <= i < |fs| ==> fs[i] in fs;
        Ok((fs + [f], f))
  }

  /** Re-noting a row of the table keeps it in the table and every row's (user, message) pair. */
  lemma RenotedKeepsKeys(fs: seq<Favorite>, existing: Favorite, note: Option<string>, table: seq<Favorite>)
    requires existing in fs && |table| == |fs|
    requires forall k :: 0 <= k < |fs| ==> table[k] == if fs[k] == existing then fs[k].(note := note) else fs[k]
    ensures existing.(note := note) in table
    ensures forall k :: 0 <= k < |fs| ==> table[k].userId == fs[k].userId && table[k].messageId == fs[k].messageId
    ensures UniqueFavorites(fs) ==> UniqueFavorites(table)
  {
    var i :| 0 <= i < |fs| && fs[i] == existing;
    assert table[i] == existing.(note := note);
  }

  /** Favouriting twice never creates a second row. */
  lemma AddTwiceKeepsOneRow(fs: seq<Favorite>, ms: seq<Message>, userId: nat, messageId: nat, note: Option<string>, now: int)
    requires AddFavorite(fs, ms, userId, messageId, note, now).Ok?
    ensures var once := AddFavorite(fs, ms, userId, messageId, note, now).value.0;
      var twice := AddFavorite(once, ms, userId, messageId, None, now);
      twice.Ok? && twice.value.0 == once
  {
    var once := AddFavorite(fs, ms, userId, messageId, note, now).value;
    assert FindFavorite(once.0, userId, messageId).Some?;
  }

  /** `remove_favorite`: False when absent, else the row is deleted and True. */
  function RemoveFavorite(fs: seq<Favorite>, userId: nat, messageId: nat): (r: (seq<Favorite>, bool))
    ensures r.1 <==> FindFavorite(fs, userId, messageId).Some?
    ensures !r.1 ==> r.0 == fs
    ensures r.1 ==> forall f :: f in r.0 <==> f in fs && f != FindFavorite(fs, userId, messageId).value
  {
    match FindFavorite(fs, userId, messageId)
    case None => (fs, false)
    case Some(target) => (Filter(fs, (f: Favorite) => f != target), true)
  }

  /**
   * `get_favorites`: the user's favourites newest first, one page and the
   * total.  A negative OFFSET or LIMIT is an error of the database.
   */
  function GetFavorites(fs: seq<Favorite>, userId: nat, page: int, pageSize: int): (r: Result<(seq<Favorite>, nat)>)
    ensures r.Ok? <==> (page - 1) * pageSize >= 0 && pageSize >= 0
    ensures r.Ok? ==> r.value.1 == |Filter(fs, (f: Favorite) => f.userId == userId)|
    ensures r.Ok? ==> |r.value.0| <= pageSize
    ensures r.Ok? ==> forall f :: f in r.value.0 ==> f in fs && f.userId == userId
    ensures r.Ok? ==> r.value.0 == Paging.Window(Reverse(Filter(fs, (f: Favorite) => f.userId == userId)), (page - 1) * pageSize, pageSize)
  {
    if (page - 1) * pageSize < 0 || pageSize < 0 then Err(RuntimeErr)
    else
      var mine := Filter(fs, (f: Favorite) => f.userId == userId);
      ReverseSameElements(mine);
      Ok((Paging.Window(Reverse(mine), (page - 1) * pageSize, pageSize), |mine|))
  }
}
