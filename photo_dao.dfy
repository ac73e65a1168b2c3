/** The `photos` table and the statements of PhotoDao.kt that read it or
    rewrite its rows. The table is a map from row id to row; the store
    (module Store) keeps every row under its own id. */
module PhotoDao {
  import opened Records
  import Ordering

  type PhotoTable = map<int, Photo>

  /** `SELECT * FROM photos WHERE id = :photoId` */
  function PhotoById(photos: PhotoTable, id: int): (r: Option<Photo>)
    ensures r.Some? <==> id in photos
    ensures r.Some? ==> r.value == photos[id]
  {
    if id in photos then Some(photos[id]) else None
  }

  /** Keys of the rows that `album_id = a AND is_deleted = 0` selects. */
  function ActiveIds(photos: PhotoTable, a: int): (ks: set<int>)
    ensures ks <= photos.Keys
  {
    set k | k in photos && photos[k].albumId == a && !photos[k].isDeleted
  }

  /** Keys of the rows that `is_deleted = 1` selects. */
  function BinIds(photos: PhotoTable): (ks: set<int>)
    ensures ks <= photos.Keys
  {
    set k | k in photos && photos[k].isDeleted
  }

  /** The rows at the given keys, in the given order. */
  function Rows(photos: PhotoTable, order: seq<int>): (r: seq<Photo>)
    requires forall i :: 0 <= i < |order| ==> order[i] in photos
    ensures |r| == |order|
    ensures forall i :: 0 <= i < |r| ==> r[i] == photos[order[i]]
  {
    seq(|order|, i requires 0 <= i < |order| => photos[order[i]])
  }

  function ImportedRank(photos: PhotoTable, ks: set<int>): (rank: map<int, int>)
    requires ks <= photos.Keys
    ensures rank.Keys == ks
    ensures forall k :: k in ks ==> rank[k] == photos[k].importedDate
  {
    map k | k in ks :: photos[k].importedDate
  }

  function OldestFirstRank(photos: PhotoTable, ks: set<int>): (rank: map<int, int>)
    requires ks <= photos.Keys
    ensures rank.Keys == ks
    ensures forall k :: k in ks ==> rank[k] == 0 - photos[k].importedDate as int
  {
    map k | k in ks :: 0 - photos[k].importedDate as int
  }

  /** `getPhotosByAlbum`: the album's rows that are not in the bin, newest
      import first. */
  function PhotosByAlbum(photos: PhotoTable, a: int): (r: seq<Photo>)
    ensures |r| == |ActiveIds(photos, a)|
    ensures forall i :: 0 <= i < |r| ==> r[i] in photos.Values && r[i].albumId == a && !r[i].isDeleted
    ensures forall k :: k in photos && photos[k].albumId == a && !photos[k].isDeleted ==> photos[k] in r
    ensures forall i, j :: 0 <= i < j < |r| ==> r[i].importedDate >= r[j].importedDate
  {
    var ks := ActiveIds(photos, a);
    var rank := ImportedRank(photos, ks);
    var order := Ordering.Ordered(rank, ks);
    RowsOfOrder(photos, rank, ks, order);
    Rows(photos, order)
  }

  /** The rows of an ordering of `ks` hold every row of `ks`, each a row of
      the table, in rank order. */
  lemma RowsOfOrder(photos: PhotoTable, rank: map<int, int>, ks: set<int>, order: seq<int>)
    requires ks <= photos.Keys && ks == rank.Keys
    requires forall k :: k in order <==> k in ks
    requires forall i :: 0 <= i < |order| ==> order[i] in ks
    requires forall i, j :: 0 <= i < j < |order| ==> Ordering.Before(rank, order[i], order[j])
    ensures forall k :: k in ks ==> photos[k] in Rows(photos, order)
    ensures forall i :: 0 <= i < |order| ==> Rows(photos, order)[i] in photos.Values && order[i] in ks
    ensures forall i, j :: 0 <= i < j < |order| ==> rank[order[i]] >= rank[order[j]]
  {
    var r := Rows(photos, order);
    forall k | k in ks ensures photos[k] in r {
      var i :| 0 <= i < |order| && order[i] == k;
      assert r[i] == photos[k];
    }
    forall i | 0 <= i < |order| ensures r[i] in photos.Values && order[i] in ks {
      assert order[i] in ks;
    }
  }

  /** `getPhotoCountByAlbum`: how many rows `getPhotosByAlbum` returns. */
  function PhotoCountByAlbum(photos: PhotoTable, a: int): (n: nat)
    ensures n == |PhotosByAlbum(photos, a)|
  {
    |ActiveIds(photos, a)|
  }

  /** Key of the album's oldest row outside the bin. */
  function FirstActiveId(photos: PhotoTable, a: int): (k: int)
    requires ActiveIds(photos, a) != {}
    ensures k in ActiveIds(photos, a)
    ensures forall j :: j in ActiveIds(photos, a) ==> photos[k].importedDate <= photos[j].importedDate
  {
    var ks := ActiveIds(photos, a);
    var k := Ordering.First(OldestFirstRank(photos, ks), ks);
    assert forall j :: j in ks && j != k ==> Ordering.Before(OldestFirstRank(photos, ks), k, j);
    k
  }

  /** `getFirstPhotoInAlbum`: the album's oldest row outside the bin, or
      none when the album has no such row. */
  function FirstPhotoInAlbum(photos: PhotoTable, a: int): (r: Option<Photo>)
    ensures r.None? <==> ActiveIds(photos, a) == {}
    ensures r.Some? ==> r.value in photos.Values && r.value.albumId == a && !r.value.isDeleted
    ensures r.Some? ==> forall k :: k in ActiveIds(photos, a) ==> r.value.importedDate <= photos[k].importedDate
  {
    if ActiveIds(photos, a) == {} then None else Some(photos[FirstActiveId(photos, a)])
  }

  /** `deleted_date` as an ORDER BY rank: a NULL date sorts after every
      date in a descending order. */
  function DeletedRank(photos: PhotoTable, ks: set<int>): (rank: map<int, int>)
    requires ks <= photos.Keys
    ensures rank.Keys == ks
    ensures forall k :: k in ks ==> rank[k] == match photos[k].deletedDate case Some(t) => t case None => -1
  {
    map k | k in ks :: match photos[k].deletedDate case Some(t) => t case None => -1
  }

  /** `getPhotosInBin`: every row in the bin, most recently deleted first. */
  function PhotosInBin(photos: PhotoTable): (r: seq<Photo>)
    ensures |r| == |BinIds(photos)|
    ensures forall i :: 0 <= i < |r| ==> r[i] in photos.Values && r[i].isDeleted
    ensures forall k :: k in photos && photos[k].isDeleted ==> photos[k] in r
    ensures forall i, j :: 0 <= i < j < |r| && r[j].deletedDate.Some? ==>
              r[i].deletedDate.Some? && r[i].deletedDate.value >= r[j].deletedDate.value
  {
    var ks := BinIds(photos);
    var rank := DeletedRank(photos, ks);
    var order := Ordering.Ordered(rank, ks);
    RowsOfOrder(photos, rank, ks, order);
    Rows(photos, order)
  }

  // Row rewrites. Each takes the batch of ids a view model loops over; the
  // single-row statements are the batch of one id.

  /** `UPDATE photos SET is_deleted = 1, deleted_date = :t WHERE id IN ids` */
  function MarkInBin(photos: PhotoTable, ids: seq<int>, t: nat): PhotoTable
  {
    map k | k in photos :: if k in ids then photos[k].(isDeleted := true, deletedDate := Some(t)) else photos[k]
  }

  /** `UPDATE photos SET is_deleted = 0, deleted_date = NULL WHERE id IN ids` */
  function ClearBin(photos: PhotoTable, ids: seq<int>): PhotoTable
  {
    map k | k in photos :: if k in ids then photos[k].(isDeleted := false, deletedDate := None) else photos[k]
  }

  /** `updatePhoto(photo.copy(albumId = target))` for every listed row. */
  function Reassign(photos: PhotoTable, ids: seq<int>, target: int): PhotoTable
  {
    map k | k in photos :: if k in ids then photos[k].(albumId := target) else photos[k]
  }

  /** `DELETE FROM photos WHERE id IN ids` */
  function RemoveIds(photos: PhotoTable, ids: seq<int>): PhotoTable
  {
    map k | k in photos && k !in ids :: photos[k]
  }

  /** `DELETE FROM photos WHERE album_id = :a`: bin rows included. */
  function RemoveAlbumRows(photos: PhotoTable, a: int): PhotoTable
  {
    map k | k in photos && photos[k].albumId != a :: photos[k]
  }

  /** `DELETE FROM photos WHERE is_deleted = 1` */
  function RemoveBinRows(photos: PhotoTable): PhotoTable
  {
    map k | k in photos && !photos[k].isDeleted :: photos[k]
  }

  /** `movePhotoToBin` changes the two bin columns of the one row and
      nothing else. */
  lemma MoveToBinTouchesOneRow(photos: PhotoTable, id: int, t: nat)
    ensures MarkInBin(photos, [id], t).Keys == photos.Keys
    ensures id in photos ==> MarkInBin(photos, [id], t)[id] == photos[id].(isDeleted := true, deletedDate := Some(t))
    ensures forall k :: k in photos && k != id ==> MarkInBin(photos, [id], t)[k] == photos[k]
  {
  }

  /** `restorePhotoFromBin` clears the two bin columns of the one row. */
  lemma RestoreTouchesOneRow(photos: PhotoTable, id: int)
    ensures ClearBin(photos, [id]).Keys == photos.Keys
    ensures id in photos ==> !ClearBin(photos, [id])[id].isDeleted && ClearBin(photos, [id])[id].deletedDate == None
    ensures id in photos ==> ClearBin(photos, [id])[id] == photos[id].(isDeleted := false, deletedDate := None)
    ensures forall k :: k in photos && k != id ==> ClearBin(photos, [id])[k] == photos[k]
  {
  }

  /** `deletePhotosByAlbum` removes every row of the album, in the bin or
      not, and no other row. */
  lemma DeleteByAlbumRemovesExactly(photos: PhotoTable, a: int)
    ensures forall k :: k in RemoveAlbumRows(photos, a) <==> k in photos && photos[k].albumId != a
    ensures forall k :: k in RemoveAlbumRows(photos, a) ==> RemoveAlbumRows(photos, a)[k] == photos[k]
    ensures ActiveIds(RemoveAlbumRows(photos, a), a) == {} && BinIds(RemoveAlbumRows(photos, a)) == BinIds(photos) - (set k | k in photos && photos[k].albumId == a)
  {
  }

  /** Clearing the bin columns undoes marking them, for rows that were
      active with no deleted date. */
  lemma {:induction false} ClearUndoesMark(photos: PhotoTable, ids: seq<int>, t: nat)
    requires forall i :: 0 <= i < |ids| && ids[i] in photos ==> !photos[ids[i]].isDeleted && photos[ids[i]].deletedDate == None
    ensures ClearBin(MarkInBin(photos, ids, t), ids) == photos
  {
    var r := ClearBin(MarkInBin(photos, ids, t), ids);
    assert r.Keys == photos.Keys;
    forall k | k in photos ensures r[k] == photos[k] {
      if k in ids {
        var i :| 0 <= i < |ids| && ids[i] == k;
      }
    }
  }

  /** The batch reassignment grows one id at a time. */
  lemma ReassignStep(photos: PhotoTable, ids: seq<int>, i: nat, target: int)
    requires i < |ids|
    ensures ids[i] in photos ==>
              (Reassign(photos, ids[..i + 1], target) ==
               Reassign(photos, ids[..i], target)[ids[i] := photos[ids[i]].(albumId := target)])
    ensures ids[i] !in photos ==> Reassign(photos, ids[..i + 1], target) == Reassign(photos, ids[..i], target)
  {
    assert forall k :: k in ids[..i + 1] <==> k in ids[..i] || k == ids[i];
  }
}
