/**
 * app/services/poster_service.py: posters carry a display order, kept
 * distinct by allocation on create and by swapping on update; listings
 * sort by (display_order, id).  Image decoding and re-encoding by PIL is
 * an input: what it yields for the upload, of which `save_poster` of
 * app/services/storage_service.py checks the size limits and turns every
 * failure into a ValueError that the poster service answers with 400.
 */
module Posters {
  import opened Outcomes
  import opened Tables
  import opened Sorting
  import Text
  import Paging

  datatype Poster = Poster(
    id: nat, title: string, image: string, linkUrl: Option<string>,
    displayOrder: int, isActive: bool, updatedAt: Option<int>)

  /** The fields a `PosterUpdate` sets; `None` is a field left unset. */
  datatype PosterUpdate = PosterUpdate(
    title: Option<string>, linkUrl: Option<string>, displayOrder: Option<int>, isActive: Option<bool>)

  predicate DistinctOrders(ps: seq<Poster>) {
    forall i, j :: 0 <= i < j < |ps| ==> ps[i].displayOrder != ps[j].displayOrder
  }

  predicate UniqueIds(ps: seq<Poster>) {
    forall i, j :: 0 <= i < j < |ps| ==> ps[i].id != ps[j].id
  }

  predicate OrderTaken(ps: seq<Poster>, order: int) {
    exists p :: p in ps && p.displayOrder == order
  }

  /** A content type the upload check accepts: present and starting with "image/". */
  predicate IsImageType(contentType: Option<string>) {
    contentType.Some? && contentType.value != "" && Text.StartsWith(contentType.value, "image/")
  }

  /** What PIL makes of the upload: a re-encoded JPEG of an image of that size, or a failure. */
  datatype Decoding =
    | Decoded(width: nat, height: nat, jpeg: string)
    | OutOfMemory                     // MemoryError
    | Unreadable                      // OSError: corrupt or unsupported
    | DecodeFailure(reason: string)   // any other exception, by its message

  /** An uploaded file: its declared content type, its length in bytes and its decoding. */
  datatype Upload = Upload(contentType: Option<string>, length: nat, decoding: Decoding)

  const MaxUploadBytes: nat := 50 * 1024 * 1024
  const MaxDimension: nat := 10000

  const TooLarge: string := "图片文件过大，请压缩到50MB以内"
  const TooWide: string := "图片尺寸过大，请将边长限制在10000像素以内"
  const NoMemory: string := "图片处理失败：内存不足，请尝试使用较小的图片"
  const Corrupt: string := "图片文件损坏或格式不支持"
  const ProcessingFailed: string := "海报图片处理失败: "

  /**
   * `StorageService.save_poster`: the stored JPEG, or the message of the
   * ValueError it raises.  The size check precedes decoding; the dimension
   * check raises inside the decoding `try`, so its message comes back
   * wrapped by the catch-all handler.
   */
  function SavePoster(u: Upload): (r: Result<string>)
    ensures r.Ok? <==> u.length <= MaxUploadBytes && u.decoding.Decoded?
                       && u.decoding.width <= MaxDimension && u.decoding.height <= MaxDimension
    ensures r.Ok? ==> r.value == u.decoding.jpeg
    ensures r.Err? ==> r.error.Http? && r.error.status == 400
    ensures u.length > MaxUploadBytes ==> r == Err(Http(400, TooLarge))
    ensures u.length <= MaxUploadBytes && u.decoding.Decoded?
            && (u.decoding.width > MaxDimension || u.decoding.height > MaxDimension)
            ==> r == Err(Http(400, ProcessingFailed + TooWide))
    ensures u.length <= MaxUploadBytes && u.decoding.OutOfMemory? ==> r == Err(Http(400, NoMemory))
    ensures u.length <= MaxUploadBytes && u.decoding.Unreadable? ==> r == Err(Http(400, Corrupt))
    ensures u.length <= MaxUploadBytes && u.decoding.DecodeFailure?
            ==> r == Err(Http(400, ProcessingFailed + u.decoding.reason))
  {
    if u.length > MaxUploadBytes then Err(Http(400, TooLarge))
    else match u.decoding
      case Decoded(w, h, jpeg) =>
        if w > MaxDimension || h > MaxDimension then Err(Http(400, ProcessingFailed + TooWide)) else Ok(jpeg)
      case OutOfMemory => Err(Http(400, NoMemory))
      case Unreadable => Err(Http(400, Corrupt))
      case DecodeFailure(reason) => Err(Http(400, ProcessingFailed + reason))
  }

  /** `func.max(display_order)` with `or 0`: an empty table gives 0. */
  function MaxOrder(ps: seq<Poster>): (m: int)
    ensures forall p :: p in ps ==> p.displayOrder <= m
    ensures ps != [] ==> exists p :: p in ps && p.displayOrder == m
    ensures ps == [] ==> m == 0
  {
    if ps == [] then 0
    else if |ps| == 1 then ps[0].displayOrder
    else
      var rest := MaxOrder(ps[1..]);
      assert ps[1..] != [];
      if ps[0].displayOrder >= rest then ps[0].displayOrder else rest
  }

  /** A free requested order is kept; a taken one moves past the current maximum. */
  function AllocateOrder(ps: seq<Poster>, requested: int): (order: int)
    ensures !OrderTaken(ps, order)
    ensures !OrderTaken(ps, requested) ==> order == requested
    ensures OrderTaken(ps, requested) ==> order == MaxOrder(ps) + 1
  {
    if First(ps, (p: Poster) => p.displayOrder == requested).Some? then MaxOrder(ps) + 1 else requested
  }

  /**
   * `create_poster`: 400 for a non-image upload, then 400 with the storage
   * service's message when it refuses the image, else a poster at a free
   * order.
   */
  function CreatePoster(
    ps: seq<Poster>, title: string, linkUrl: Option<string>, requestedOrder: int, isActive: bool, upload: Upload)
    : (r: Result<(seq<Poster>, Poster)>)
    ensures r.Err? <==> !IsImageType(upload.contentType) || SavePoster(upload).Err?
    ensures !IsImageType(upload.contentType) ==> r == Err(Http(400, "请上传图片文件"))
    ensures IsImageType(upload.contentType) && SavePoster(upload).Err? ==> r == Err(SavePoster(upload).error)
    ensures r.Ok? ==> (r.value.0 == ps + [r.value.1] && r.value.1.title == title && r.value.1.linkUrl == linkUrl
      && r.value.1.isActive == isActive && r.value.1.image == upload.decoding.jpeg)
    ensures r.Ok? ==> r.value.1.displayOrder == AllocateOrder(ps, requestedOrder)
    ensures r.Ok? && DistinctOrders(ps) ==> DistinctOrders(r.value.0)
    ensures r.Ok? && UniqueIds(ps) ==> UniqueIds(r.value.0)
  {
    if !IsImageType(upload.contentType) then Err(Http(400, "请上传图片文件"))
    else
      var image :- SavePoster(upload);
      var p := Poster(NextId(ps, (q: Poster) => q.id), title, image, linkUrl, AllocateOrder(ps, requestedOrder), isActive, None);
      assert forall i :: 0 <= i < |ps| ==> ps[i] in ps;
      Ok((ps + [p], p))
  }

  function FindPoster(ps: seq<Poster>, id: nat): (r: Option<Poster>)
    ensures r.Some? ==> r.value in ps && r.value.id == id
    ensures r.None? <==> forall p :: p in ps ==> p.id != id
  {
    First(ps, (p: Poster) => p.id == id)
  }

  /** The poster other than `id` that currently holds `order`, if any. */
  function Holder(ps: seq<Poster>, order: int, id: nat): (r: Option<Poster>)
    ensures r.Some? ==> r.value in ps && r.value.displayOrder == order && r.value.id != id
    ensures r.None? <==> forall p :: p in ps ==> !(p.displayOrder == order && p.id != id)
  {
    First(ps, (p: Poster) => p.displayOrder == order && p.id != id)
  }

  function Apply(p: Poster, u: PosterUpdate, now: int): Poster {
    Poster(p.id,
      if u.title.Some? then u.title.value else p.title,
      p.image,
      if u.linkUrl.Some? then u.linkUrl else p.linkUrl,
      if u.displayOrder.Some? then u.displayOrder.value else p.displayOrder,
      if u.isActive.Some? then u.isActive.value else p.isActive,
      Some(now))
  }

  /**
   * The poster that gives up its order when `target` moves: another poster
   * already holding the requested order, if the order changes at all.
   */
  function SwapPartner(ps: seq<Poster>, target: Poster, u: PosterUpdate): (r: Option<Poster>)
    ensures r.Some? ==> (r.value in ps && r.value.id != target.id && u.displayOrder == Some(r.value.displayOrder)
      && r.value.displayOrder != target.displayOrder)
    ensures r.None? && u.displayOrder.Some? && u.displayOrder.value != target.displayOrder ==>
      forall p :: p in ps && p.id != target.id ==> p.displayOrder != u.displayOrder.value
  {
    if u.displayOrder.Some? && u.displayOrder.value != target.displayOrder then
      Holder(ps, u.displayOrder.value, target.id)
    else None
  }

  /**
   * `update_poster`: None for a missing poster.  Moving to an order held by
   * another poster gives that poster the old order; only the set fields
   * change.
   */
  function UpdatePoster(ps: seq<Poster>, id: nat, u: PosterUpdate, now: int): (r: Option<seq<Poster>>)
    ensures r.None? <==> FindPoster(ps, id).None?
    ensures r.Some? ==> |r.value| == |ps|
    ensures r.Some? ==> var target := FindPoster(ps, id).value; var partner := SwapPartner(ps, target, u);
      forall i :: 0 <= i < |ps| ==> (r.value[i] ==
        if ps[i] == target then Apply(target, u, now)
        else if partner.Some? && ps[i] == partner.value then ps[i].(displayOrder := target.displayOrder)
        else ps[i])
  {
    match FindPoster(ps, id)
    case None => None
    case Some(target) =>
      var swapped :=
        match SwapPartner(ps, target, u)
        case Some(holder) => MapWhere(ps, (p: Poster) => p == holder, (p: Poster) => p.(displayOrder := target.displayOrder))
        case None => ps;
      Some(MapWhere(swapped, (p: Poster) => p == target, (p: Poster) => Apply(p, u, now)))
  }

  /** The index of a row, given that it occurs and ids are unique. */
  lemma UniqueIndex(ps: seq<Poster>, p: Poster) returns (k: nat)
    requires UniqueIds(ps) && p in ps
    ensures k < |ps| && ps[k] == p
    ensures forall i :: 0 <= i < |ps| && ps[i].id == p.id ==> i == k
  {
    k :| 0 <= k < |ps| && ps[k] == p;
  }

  /** With unique ids and distinct orders, an update keeps the orders distinct. */
  lemma UpdateKeepsOrdersDistinct(ps: seq<Poster>, id: nat, u: PosterUpdate, now: int)
    requires UniqueIds(ps) && DistinctOrders(ps)
    requires UpdatePoster(ps, id, u, now).Some?
    ensures DistinctOrders(UpdatePoster(ps, id, u, now).value)
  {
    var target := FindPoster(ps, id).value;
    UpdatedOrdersDistinct(ps, UpdatePoster(ps, id, u, now).value, target, SwapPartner(ps, target, u), Apply(target, u, now));
  }

  /**
   * The rows after an update: the target rewritten, the swap partner (if
   * any) given the target's old order, every other row untouched.
   */
  lemma UpdatedOrdersDistinct(ps: seq<Poster>, r: seq<Poster>, target: Poster, partner: Option<Poster>, moved: Poster)
    requires UniqueIds(ps) && DistinctOrders(ps) && target in ps
    requires |r| == |ps|
    requires forall i :: 0 <= i < |ps| ==> (r[i] ==
      if ps[i] == target then moved
      else if partner.Some? && ps[i] == partner.value then ps[i].(displayOrder := target.displayOrder)
      else ps[i])
    requires partner.Some? ==> (partner.value in ps && partner.value.id != target.id
      && moved.displayOrder == partner.value.displayOrder)
    requires partner.None? ==> (moved.displayOrder == target.displayOrder
      || forall p :: p in ps && p.id != target.id ==> p.displayOrder != moved.displayOrder)
    ensures DistinctOrders(r)
  {
    var t := UniqueIndex(ps, target);
    if partner.Some? {
      var h := UniqueIndex(ps, partner.value);
      assert forall k :: 0 <= k < |ps| && k != t && k != h ==> r[k] == ps[k];
      SwapKeepsOrdersDistinct(ps, r, t, h);
    } else {
      assert forall k :: 0 <= k < |ps| && k != t ==> r[k] == ps[k] && ps[k].id != target.id;
      forall k | 0 <= k < |ps| && k != t
        ensures ps[k].displayOrder != moved.displayOrder
      {
        if moved.displayOrder == target.displayOrder {
          if k < t { assert ps[k].displayOrder != ps[t].displayOrder; } else { assert ps[t].displayOrder != ps[k].displayOrder; }
        } else {
          assert ps[k] in ps;
        }
      }
      MoveKeepsOrdersDistinct(ps, r, t);
    }
  }

  /** Rows `t` and `h` exchanging their orders, the rest untouched, keeps orders distinct. */
  lemma SwapKeepsOrdersDistinct(ps: seq<Poster>, r: seq<Poster>, t: nat, h: nat)
    requires DistinctOrders(ps) && |r| == |ps| && t < |ps| && h < |ps| && t != h
    requires r[t].displayOrder == ps[h].displayOrder && r[h].displayOrder == ps[t].displayOrder
    requires forall k :: 0 <= k < |ps| && k != t && k != h ==> r[k].displayOrder == ps[k].displayOrder
    ensures DistinctOrders(r)
  {
    forall i, j | 0 <= i < j < |r| ensures r[i].displayOrder != r[j].displayOrder {
      var i' := if i == t then h else if i == h then t else i;
      var j' := if j == t then h else if j == h then t else j;
      assert r[i].displayOrder == ps[i'].displayOrder && r[j].displayOrder == ps[j'].displayOrder;
      assert i' != j';
    }
  }

  /** Row `t` moving to an order no other row holds keeps orders distinct. */
  lemma MoveKeepsOrdersDistinct(ps: seq<Poster>, r: seq<Poster>, t: nat)
    requires DistinctOrders(ps) && |r| == |ps| && t < |ps|
    requires forall k :: 0 <= k < |ps| && k != t ==> r[k].displayOrder == ps[k].displayOrder && ps[k].displayOrder != r[t].displayOrder
    ensures DistinctOrders(r)
  {
    forall i, j | 0 <= i < j < |r| ensures r[i].displayOrder != r[j].displayOrder {
      if i != t && j != t {
        assert r[i].displayOrder == ps[i].displayOrder && r[j].displayOrder == ps[j].displayOrder;
      }
    }
  }

  /**
   * `update_poster_image`: None for a missing poster, then 400 for a
   * non-image upload, then 400 with the storage service's message.
   */
  function UpdatePosterImage(ps: seq<Poster>, id: nat, upload: Upload, now: int)
    : (r: Result<Option<seq<Poster>>>)
    ensures FindPoster(ps, id).None? ==> r == Ok(None)
    ensures FindPoster(ps, id).Some? && !IsImageType(upload.contentType) ==> r == Err(Http(400, "请上传图片文件"))
    ensures FindPoster(ps, id).Some? && IsImageType(upload.contentType) && SavePoster(upload).Err?
            ==> r == Err(SavePoster(upload).error)
    ensures FindPoster(ps, id).Some? && IsImageType(upload.contentType) && SavePoster(upload).Ok? ==> r.Ok? && r.value.Some?
    ensures r.Ok? && r.value.Some? ==> |r.value.value| == |ps| && forall i :: 0 <= i < |ps| ==>
      r.value.value[i] == if ps[i] == FindPoster(ps, id).value
                          then ps[i].(image := upload.decoding.jpeg, updatedAt := Some(now)) else ps[i]
  {
    match FindPoster(ps, id)
    case None => Ok(None)
    case Some(target) =>
      if !IsImageType(upload.contentType) then Err(Http(400, "请上传图片文件"))
      else
        var image :- SavePoster(upload);
        Ok(Some(MapWhere(ps, (p: Poster) => p == target, (p: Poster) => p.(image := image, updatedAt := Some(now)))))
  }

  /** `delete_poster`: False for a missing poster, else it is removed and True. */
  function DeletePoster(ps: seq<Poster>, id: nat): (r: (seq<Poster>, bool))
    ensures r.1 <==> FindPoster(ps, id).Some?
    ensures !r.1 ==> r.0 == ps
    ensures r.1 ==> forall p :: p in r.0 <==> p in ps && p != FindPoster(ps, id).value
    ensures r.1 && UniqueIds(ps) ==> FindPoster(r.0, id).None?
  {
    match FindPoster(ps, id)
    case None => (ps, false)
    case Some(target) =>
      var rest := Filter(ps, (p: Poster) => p != target);
      if UniqueIds(ps) then
        forall p | p in ps && p.id == id ensures p == target {
          var i :| 0 <= i < |ps| && ps[i] == p;
          var j :| 0 <= j < |ps| && ps[j] == target;
          assert i == j;
        }
        (rest, true)
      else (rest, true)
  }

  function DisplayKey(p: Poster): Key { Key(p.displayOrder, p.id) }

  /** `order_by(display_order.asc(), id.asc())`. */
  function InDisplayOrder(ps: seq<Poster>): (r: seq<Poster>)
    ensures SortedBy(r, DisplayKey)
    ensures multiset(r) == multiset(ps)
    ensures forall p :: p in r <==> p in ps
  {
    SortSameElements(ps, DisplayKey);
    SortBy(ps, DisplayKey)
  }

  /** `get_active_posters`: active posters in display order, at most `limit`. */
  function ActivePosters(ps: seq<Poster>, limit: nat): (r: seq<Poster>)
    ensures |r| <= limit
    ensures forall p :: p in r ==> p in ps && p.isActive
    ensures SortedBy(r, DisplayKey)
    ensures forall p :: p in ps && p.isActive && p !in r ==> |r| == limit && forall q :: q in r ==> KeyLe(DisplayKey(q), DisplayKey(p))
  {
    var active := InDisplayOrder(Filter(ps, (p: Poster) => p.isActive));
    var r := Paging.Window(active, 0, limit);
    forall p | p in ps && p.isActive && p !in r
      ensures |r| == limit && forall q :: q in r ==> KeyLe(DisplayKey(q), DisplayKey(p))
    {
      var j :| 0 <= j < |active| && active[j] == p;
      assert j >= |r|;
      forall q | q in r ensures KeyLe(DisplayKey(q), DisplayKey(p)) {
        var i :| 0 <= i < |r| && r[i] == q;
      }
    }
    r
  }

  /** `get_all_posters`: every poster in display order, one window of it, and the count. */
  function AllPosters(ps: seq<Poster>, skip: nat, limit: nat): (r: (seq<Poster>, nat))
    ensures r.1 == |ps|
    ensures |r.0| <= limit
    ensures SortedBy(r.0, DisplayKey)
    ensures r.0 == Paging.Window(InDisplayOrder(ps), skip, limit)
  {
    var sorted := InDisplayOrder(ps);
    var w := Paging.Window(sorted, skip, limit);
    assert forall i, j :: 0 <= i < j < |w| ==> w[i] == sorted[skip + i] && w[j] == sorted[skip + j];
    (w, |ps|)
  }
}
