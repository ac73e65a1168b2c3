/** AlbumViewViewModel.kt: moving photos of the open album to another album
    or to the bin, re-deriving the cover when the cover photo leaves, and
    the cover and count updates of the album screen. Every statement the
    view model runs is a DAO call, so each operation is specified by a
    function on `Store.Db` built from the functions of module Store. */
module AlbumView {
  import opened Records
  import PhotoDao
  import AlbumDao
  import Store
  import VaultDb
  import Upkeep

  /** The loop's `isCoverPhotoBeingMoved`: the cover path captured before the
      loop is set and some listed photo that exists has that path. */
  predicate CoverIn(db: Store.Db, cover: Option<string>, ids: seq<int>)
    decreases |ids|
  {
    ids != [] && (CoverIn(db, cover, ids[..|ids| - 1]) || Hit(db, cover, ids[|ids| - 1]))
  }

  /** The photo `id` exists and has the cover's path. */
  predicate Hit(db: Store.Db, cover: Option<string>, id: int) {
    cover.Some? && id in db.photos && db.photos[id].filePath == cover.value
  }

  /** The flag is set exactly when some listed photo has the cover's path. */
  lemma {:induction false} CoverInSome(db: Store.Db, cover: Option<string>, ids: seq<int>)
    ensures CoverIn(db, cover, ids) <==> exists i :: 0 <= i < |ids| && Hit(db, cover, ids[i])
    decreases |ids|
  {
    if ids != [] {
      var n := |ids| - 1;
      CoverInSome(db, cover, ids[..n]);
      if CoverIn(db, cover, ids[..n]) {
        var i :| 0 <= i < n && Hit(db, cover, ids[..n][i]);
        assert ids[i] == ids[..n][i];
      }
      if exists i :: 0 <= i < |ids| && Hit(db, cover, ids[i]) {
        var i :| 0 <= i < |ids| && Hit(db, cover, ids[i]);
        if i < n {
          assert ids[..n][i] == ids[i];
        }
      }
    }
  }

  /** `updateCoverPhotoAfterMove`: the cover becomes the path of the oldest
      photo still shown in the album, or null when none is left. */
  function RederiveCover(db: Store.Db, a: int): (r: Store.Db)
    ensures r.photos == db.photos && r.albums.Keys == db.albums.Keys
    ensures a in db.albums ==> r.albums[a] == db.albums[a].(coverPhotoPath := Upkeep.OldestPath(db.photos, a))
    ensures a in db.albums ==> (r.albums[a].coverPhotoPath.None? <==> PhotoDao.ActiveIds(db.photos, a) == {})
    ensures forall k :: k in db.albums && k != a ==> r.albums[k] == db.albums[k]
    ensures Store.Valid(db) ==> Store.Valid(r)
  {
    Store.UpdateCoverPhoto(db, a, PathOf(PhotoDao.FirstPhotoInAlbum(db.photos, a)))
  }

  /** Whether a move to `target` fails: the first listed photo that exists
      breaks the foreign key when the target album is missing. */
  predicate MoveFails(db: Store.Db, ids: seq<int>, target: int) {
    target !in db.albums && exists i :: 0 <= i < |ids| && ids[i] in db.photos
  }

  /** `movePhotosToAlbum(ids, target)` run from the album `source`:
      capture the cover, reassign every listed photo, re-derive the cover
      when it moved, recount both albums, give the target a cover when it
      has none, and recount the source again (`refreshPhotos`). A failure
      leaves the store as it was. */
  function MoveToAlbum(db: Store.Db, source: int, ids: seq<int>, target: int): (r: (Store.Db, bool))
    ensures !r.1 <==> MoveFails(db, ids, target)
    ensures !r.1 ==> r.0 == db
    ensures Store.Valid(db) ==> Store.Valid(r.0)
  {
    if MoveFails(db, ids, target) then (db, false)
    else
      var cover := AlbumDao.CoverPhotoSync(db.albums, source);
      var reassigned := db.(photos := PhotoDao.Reassign(db.photos, ids, target));
      assert Store.Valid(db) ==> Store.Valid(reassigned);
      (Settle(reassigned, source, target, CoverIn(db, cover, ids)), true)
  }

  /** What a successful move does after the rows are reassigned: re-derive
      the source's cover when it moved, recount both albums, give the target
      a cover when it has none, and recount the source again. */
  function Settle(db: Store.Db, source: int, target: int, coverMoved: bool): (r: Store.Db)
    ensures Store.Valid(db) ==> Store.Valid(r)
  {
    var rederived := if coverMoved then RederiveCover(db, source) else db;
    var counted := Store.UpdatePhotoCount(Store.UpdatePhotoCount(rederived, source), target);
    Store.UpdatePhotoCount(Upkeep.FillCover(counted, target), source)
  }

  /** The photo rows after `movePhotoToBin(ids[i], times[i])` for each
      listed id in turn; `times[i]` is the clock when that call ran. */
  function BinEach(db: Store.Db, ids: seq<int>, times: seq<nat>): (r: Store.Db)
    requires |times| == |ids|
    ensures r.albums == db.albums && r.photos.Keys == db.photos.Keys
    ensures r.nextAlbumId == db.nextAlbumId && r.nextPhotoId == db.nextPhotoId
    ensures Store.Valid(db) ==> Store.Valid(r)
    decreases |ids|
  {
    if ids == [] then db
    else
      var n := |ids| - 1;
      Store.MovePhotoToBin(BinEach(db, ids[..n], times[..n]), ids[n], times[n])
  }

  /** What the batch does to the rows: the listed ones are in the bin with
      the clock reading of one of their calls, in no other column changed,
      and the others are untouched. */
  lemma {:induction false} BinEachRows(db: Store.Db, ids: seq<int>, times: seq<nat>)
    requires |times| == |ids|
    ensures var r := BinEach(db, ids, times);
      && (forall k :: k in db.photos && k !in ids ==> r.photos[k] == db.photos[k])
      && (forall k :: k in db.photos && k in ids ==>
            && r.photos[k] == db.photos[k].(isDeleted := true, deletedDate := r.photos[k].deletedDate)
            && exists i :: 0 <= i < |ids| && ids[i] == k && r.photos[k].deletedDate == Some(times[i]))
    decreases |ids|
  {
    if ids != [] {
      var n := |ids| - 1;
      BinEachRows(db, ids[..n], times[..n]);
      var before := BinEach(db, ids[..n], times[..n]);
      var r := BinEach(db, ids, times);
      assert r == Store.MovePhotoToBin(before, ids[n], times[n]);
      assert forall k :: k in ids <==> k in ids[..n] || k == ids[n];
      forall k | k in db.photos && k in ids
        ensures exists i :: 0 <= i < |ids| && ids[i] == k && r.photos[k].deletedDate == Some(times[i])
      {
        if k != ids[n] {
          var i :| 0 <= i < n && ids[..n][i] == k && before.photos[k].deletedDate == Some(times[..n][i]);
          assert ids[i] == k && times[i] == times[..n][i];
        }
      }
    }
  }

  /** In particular the batch keeps each row's file path, so a photo
      matches the captured cover after the first `i` calls exactly when it
      did before them. */
  lemma BinEachKeepsHit(db: Store.Db, ids: seq<int>, times: seq<nat>, i: nat, cover: Option<string>)
    requires |times| == |ids| && i < |ids|
    ensures Hit(BinEach(db, ids[..i], times[..i]), cover, ids[i]) <==> Hit(db, cover, ids[i])
  {
    BinEachRows(db, ids[..i], times[..i]);
  }

  /** `movePhotosToBin(ids)` run from the album `source`: capture the
      cover, move every listed photo to the bin, re-derive the cover when it
      was among them, recount, and recount again (`refreshPhotos`). */
  function MoveToBin(db: Store.Db, source: int, ids: seq<int>, times: seq<nat>): (r: Store.Db)
    requires |times| == |ids|
    ensures Store.Valid(db) ==> Store.Valid(r)
  {
    var cover := AlbumDao.CoverPhotoSync(db.albums, source);
    var binned := BinEach(db, ids, times);
    var rederived := if CoverIn(db, cover, ids) then RederiveCover(binned, source) else binned;
    Store.UpdatePhotoCount(Store.UpdatePhotoCount(rederived, source), source)
  }

  // ---- Properties of the moves ----

  /** A successful move reassigns exactly the listed photos that exist, and
      changes no other field of them and no other row; only the source and
      target albums change. */
  lemma MoveToAlbumRows(db: Store.Db, source: int, ids: seq<int>, target: int)
    requires MoveToAlbum(db, source, ids, target).1
    ensures var r := MoveToAlbum(db, source, ids, target).0;
      && r.photos.Keys == db.photos.Keys
      && (forall k :: k in db.photos && k in ids ==> r.photos[k] == db.photos[k].(albumId := target))
      && (forall k :: k in db.photos && k !in ids ==> r.photos[k] == db.photos[k])
      && r.albums.Keys == db.albums.Keys
      && (forall k :: k in db.albums && k != source && k != target ==> r.albums[k] == db.albums[k])
  {
  }

  /** After a successful move out of `source` into another album, the
      source's count is the count of its remaining rows, and its cover is
      re-derived from the remaining photos exactly when the cover photo was
      among the moved ones; otherwise it is kept. */
  lemma MoveToAlbumSource(db: Store.Db, source: int, ids: seq<int>, target: int)
    requires MoveToAlbum(db, source, ids, target).1
    requires source in db.albums && source != target
    ensures var r := MoveToAlbum(db, source, ids, target).0;
      && r.albums[source].photoCount == AlbumDao.RowCount(r.photos, source)
      && (CoverIn(db, db.albums[source].coverPhotoPath, ids) ==>
            r.albums[source].coverPhotoPath == Upkeep.OldestPath(r.photos, source))
      && (!CoverIn(db, db.albums[source].coverPhotoPath, ids) ==>
            r.albums[source].coverPhotoPath == db.albums[source].coverPhotoPath)
  {
  }

  /** After a successful move into `target` from another album, the
      target's count is the count of its rows, an existing cover is kept,
      and a null cover becomes the oldest photo shown. */
  lemma MoveToAlbumTarget(db: Store.Db, source: int, ids: seq<int>, target: int)
    requires MoveToAlbum(db, source, ids, target).1
    requires target in db.albums && source != target
    ensures var r := MoveToAlbum(db, source, ids, target).0;
      && r.albums[target].photoCount == AlbumDao.RowCount(r.photos, target)
      && (db.albums[target].coverPhotoPath.Some? ==>
            r.albums[target].coverPhotoPath == db.albums[target].coverPhotoPath)
      && (db.albums[target].coverPhotoPath.None? ==>
            r.albums[target].coverPhotoPath == Upkeep.OldestPath(r.photos, target))
  {
  }

  /** Moving to the bin keeps every row and its album; the listed photos
      that exist are in the bin with one of their clock readings; the
      source's cover is re-derived exactly when its photo was binned. */
  lemma MoveToBinEffect(db: Store.Db, source: int, ids: seq<int>, times: seq<nat>)
    requires |times| == |ids|
    requires source in db.albums
    ensures var r := MoveToBin(db, source, ids, times);
      && r.photos.Keys == db.photos.Keys && r.albums.Keys == db.albums.Keys
      && (forall k :: k in db.photos ==> r.photos[k].albumId == db.photos[k].albumId)
      && (forall k :: k in db.photos && k in ids ==> r.photos[k].isDeleted)
      && (forall k :: k in db.photos && k !in ids ==> r.photos[k] == db.photos[k])
      && (forall k :: k in db.albums && k != source ==> r.albums[k] == db.albums[k])
      && (CoverIn(db, db.albums[source].coverPhotoPath, ids) ==>
            r.albums[source].coverPhotoPath == Upkeep.OldestPath(r.photos, source))
      && (!CoverIn(db, db.albums[source].coverPhotoPath, ids) ==>
            r.albums[source].coverPhotoPath == db.albums[source].coverPhotoPath)
  {
    BinEachRows(db, ids, times);
  }

  /** `updatePhotoCount` counts bin rows, so moving photos to the bin does
      not lower the count it stores: the album keeps the number of rows it
      had before the move. */
  lemma MoveToBinKeepsCount(db: Store.Db, source: int, ids: seq<int>, times: seq<nat>)
    requires |times| == |ids|
    requires source in db.albums
    ensures MoveToBin(db, source, ids, times).albums[source].photoCount == AlbumDao.RowCount(db.photos, source)
  {
    var binned := BinEach(db, ids, times);
    BinEachRows(db, ids, times);
    forall k
      ensures k in AlbumDao.AlbumRowIds(binned.photos, source) <==> k in AlbumDao.AlbumRowIds(db.photos, source)
    {
      if k in db.photos && k in ids {
        assert binned.photos[k].albumId == db.photos[k].albumId;
      }
    }
    assert AlbumDao.AlbumRowIds(binned.photos, source) == AlbumDao.AlbumRowIds(db.photos, source);
  }

  /** Two photos in the bin, one real album: the stored count stays 2 while
      the album shows none. */
  lemma BinnedPhotosStillCounted()
    ensures var a := Album(1, "Trip", 0, 2, None);
      var p1 := Photo(1, 1, "/v/1.jpg", "1.jpg", 5, 10, 0, 0, false, None);
      var p2 := Photo(2, 1, "/v/2.jpg", "2.jpg", 6, 10, 0, 0, false, None);
      var db := Store.Db(map[1 := a], map[1 := p1, 2 := p2], 2, 3);
      var r := MoveToBin(db, 1, [1, 2], [7, 8]);
      r.albums[1].photoCount == 2 && PhotoDao.PhotoCountByAlbum(r.photos, 1) == 0
  {
    var a := Album(1, "Trip", 0, 2, None);
    var p1 := Photo(1, 1, "/v/1.jpg", "1.jpg", 5, 10, 0, 0, false, None);
    var p2 := Photo(2, 1, "/v/2.jpg", "2.jpg", 6, 10, 0, 0, false, None);
    var db := Store.Db(map[1 := a], map[1 := p1, 2 := p2], 2, 3);
    MoveToBinKeepsCount(db, 1, [1, 2], [7, 8]);
    assert AlbumDao.AlbumRowIds(db.photos, 1) == {1, 2};
    MoveToBinEffect(db, 1, [1, 2], [7, 8]);
    var r := MoveToBin(db, 1, [1, 2], [7, 8]);
    assert PhotoDao.ActiveIds(r.photos, 1) == {};
  }

  /** A missing id in the batch has no effect. */
  lemma ReassignSkipsMissing(photos: PhotoDao.PhotoTable, ids: seq<int>, target: int)
    requires forall i :: 0 <= i < |ids| ==> ids[i] !in photos
    ensures PhotoDao.Reassign(photos, ids, target) == photos
  {
  }

  /** One more id of the batch reassigned: the row the loop reads is the
      original row with the album it has so far, and writing it back with
      the target album gives the next state. */
  lemma ReassignLoopStep(start: Store.Db, ids: seq<int>, i: nat, target: int)
    requires Store.Valid(start) && i < |ids|
    ensures var cur := PhotoDao.Reassign(start.photos, ids[..i], target);
      && cur.Keys == start.photos.Keys
      && (ids[i] in cur ==>
            && cur[ids[i]] == start.photos[ids[i]].(albumId := cur[ids[i]].albumId)
            && cur[ids[i]].id == ids[i]
            && cur[ids[i] := cur[ids[i]].(albumId := target)] == PhotoDao.Reassign(start.photos, ids[..i + 1], target))
      && (ids[i] !in cur ==> cur == PhotoDao.Reassign(start.photos, ids[..i + 1], target))
  {
    PhotoDao.ReassignStep(start.photos, ids, i, target);
  }

  /** One more id of the batch checked against the captured cover. */
  lemma CoverInStep(db: Store.Db, cover: Option<string>, ids: seq<int>, i: nat)
    requires i < |ids|
    ensures CoverIn(db, cover, ids[..i + 1]) <==> CoverIn(db, cover, ids[..i]) || Hit(db, cover, ids[i])
  {
    assert ids[..i + 1][..i] == ids[..i];
  }

  /** One more id of the batch moved to the bin. */
  lemma BinEachStep(db: Store.Db, ids: seq<int>, times: seq<nat>, i: nat)
    requires |times| == |ids| && i < |ids|
    ensures BinEach(db, ids[..i + 1], times[..i + 1]) == Store.MovePhotoToBin(BinEach(db, ids[..i], times[..i]), ids[i], times[i])
  {
    assert ids[..i + 1][..i] == ids[..i] && times[..i + 1][..i] == times[..i];
  }

  /** The album screen: `albumId` is the album it shows. */
  class AlbumViewModel {
    const db: VaultDb.Database
    const albumId: int

    constructor (db: VaultDb.Database, albumId: int)
      ensures this.db == db && this.albumId == albumId
    {
      this.db := db;
      this.albumId := albumId;
    }

    /** `refreshPhotos`: recount the album; the list is re-read only. */
    method RefreshPhotos()
      modifies db
      ensures db.State() == Store.UpdatePhotoCount(old(db.State()), albumId)
    {
      db.UpdatePhotoCount(albumId);
    }

    /** `setCoverPhoto`: the cover becomes that photo's path, whatever it
        was. */
    method SetCoverPhoto(photo: Photo)
      modifies db
      ensures db.State() == Store.UpdateCoverPhoto(old(db.State()), albumId, Some(photo.filePath))
    {
      db.UpdateCoverPhoto(albumId, Some(photo.filePath));
    }

    method UpdateCoverPhotoAfterMove()
      modifies db
      ensures db.State() == RederiveCover(old(db.State()), albumId)
    {
      var firstPhoto := PhotoDao.FirstPhotoInAlbum(db.photos, albumId);
      if firstPhoto.Some? {
        db.UpdateCoverPhoto(albumId, Some(firstPhoto.value.filePath));
      } else {
        db.UpdateCoverPhoto(albumId, None);
      }
    }

    /** `movePhotosToAlbum`; `ok` is false when the move threw (the error
        the view model posts). */
    method MovePhotosToAlbum(photoIds: seq<int>, targetAlbumId: int) returns (ok: bool)
      requires Store.Valid(db.State())
      modifies db
      ensures (db.State(), ok) == MoveToAlbum(old(db.State()), albumId, photoIds, targetAlbumId)
    {
      ghost var start := db.State();
      var currentCoverPhotoPath := AlbumDao.CoverPhotoSync(db.albums, albumId);
      var isCoverPhotoBeingMoved;
      ok, isCoverPhotoBeingMoved := ReassignAll(photoIds, targetAlbumId, currentCoverPhotoPath);
      if !ok {
        return;
      }
      SettleMove(targetAlbumId, isCoverPhotoBeingMoved);
    }

    /** The loop of `movePhotosToAlbum`: reassign each listed photo and note
        whether the captured cover was among them. The first update that
        breaks the foreign key ends it; it comes before any update that
        succeeds, so the store is then as it was. */
    method ReassignAll(photoIds: seq<int>, targetAlbumId: int, currentCoverPhotoPath: Option<string>)
      returns (ok: bool, isCoverPhotoBeingMoved: bool)
      requires Store.Valid(db.State())
      modifies db
      ensures ok <==> !MoveFails(old(db.State()), photoIds, targetAlbumId)
      ensures !ok ==> db.State() == old(db.State())
      ensures ok ==> db.State() == old(db.State()).(photos := PhotoDao.Reassign(old(db.photos), photoIds, targetAlbumId))
      ensures ok ==> isCoverPhotoBeingMoved == CoverIn(old(db.State()), currentCoverPhotoPath, photoIds)
    {
      ghost var start := db.State();
      isCoverPhotoBeingMoved := false;
      var i := 0;
      while i < |photoIds|
        invariant 0 <= i <= |photoIds|
        invariant db.albums == start.albums && db.nextAlbumId == start.nextAlbumId && db.nextPhotoId == start.nextPhotoId
        invariant db.photos == PhotoDao.Reassign(start.photos, photoIds[..i], targetAlbumId)
        invariant targetAlbumId !in start.albums ==> forall j :: 0 <= j < i ==> photoIds[j] !in start.photos
        invariant isCoverPhotoBeingMoved == CoverIn(start, currentCoverPhotoPath, photoIds[..i])
      {
        ReassignLoopStep(start, photoIds, i, targetAlbumId);
        CoverInStep(start, currentCoverPhotoPath, photoIds, i);
        var moved, hit := ReassignOne(photoIds[i], targetAlbumId, currentCoverPhotoPath);
        if !moved {
          ReassignSkipsMissing(start.photos, photoIds[..i], targetAlbumId);
          return false, isCoverPhotoBeingMoved || hit;
        }
        isCoverPhotoBeingMoved := isCoverPhotoBeingMoved || hit;
        i := i + 1;
      }
      assert photoIds[..i] == photoIds;
      ok := true;
    }

    /** One pass of that loop: `getPhotoById(id)` and, when the row exists,
        the check against the captured cover and
        `updatePhoto(photo.copy(albumId = target))`. */
    method ReassignOne(id: int, targetAlbumId: int, currentCoverPhotoPath: Option<string>)
      returns (ok: bool, hit: bool)
      requires id in db.photos ==> db.photos[id].id == id
      modifies db
      ensures ok <==> !(id in old(db.photos) && targetAlbumId !in db.albums)
      ensures db.albums == old(db.albums) && db.nextAlbumId == old(db.nextAlbumId) && db.nextPhotoId == old(db.nextPhotoId)
      ensures !ok || id !in old(db.photos) ==> db.photos == old(db.photos)
      ensures ok && id in old(db.photos) ==> db.photos == old(db.photos)[id := old(db.photos)[id].(albumId := targetAlbumId)]
      ensures hit == Hit(old(db.State()), currentCoverPhotoPath, id)
    {
      hit := false;
      var photo := PhotoDao.PhotoById(db.photos, id);
      if photo.None? {
        return true, false;
      }
      if currentCoverPhotoPath.Some? && currentCoverPhotoPath.value == photo.value.filePath {
        hit := true;
      }
      var status := db.UpdatePhoto(photo.value.(albumId := targetAlbumId));
      ok := !status.Failed?;
    }

    /** The statements of `movePhotosToAlbum` after its loop. */
    method SettleMove(targetAlbumId: int, isCoverPhotoBeingMoved: bool)
      modifies db
      ensures db.State() == Settle(old(db.State()), albumId, targetAlbumId, isCoverPhotoBeingMoved)
    {
      if isCoverPhotoBeingMoved {
        UpdateCoverPhotoAfterMove();
      }
      db.UpdatePhotoCount(albumId);
      db.UpdatePhotoCount(targetAlbumId);
      var targetAlbum := AlbumDao.AlbumById(db.albums, targetAlbumId);
      if targetAlbum.None? || targetAlbum.value.coverPhotoPath.None? {
        var firstMovedPhoto := PhotoDao.FirstPhotoInAlbum(db.photos, targetAlbumId);
        if firstMovedPhoto.Some? {
          db.UpdateCoverPhoto(targetAlbumId, Some(firstMovedPhoto.value.filePath));
        } else if targetAlbum.Some? {
          assert db.albums[targetAlbumId := db.albums[targetAlbumId].(coverPhotoPath := None)] == db.albums;
        }
      }
      RefreshPhotos();
    }

    /** `movePhotosToBin`; `times[i]` is the clock reading of the
        `movePhotoToBin` call for `photoIds[i]`. */
    method MovePhotosToBin(photoIds: seq<int>, times: seq<nat>)
      requires |times| == |photoIds|
      modifies db
      ensures db.State() == MoveToBin(old(db.State()), albumId, photoIds, times)
    {
      var currentCoverPhotoPath := AlbumDao.CoverPhotoSync(db.albums, albumId);
      var isCoverPhotoBeingMoved := BinAll(photoIds, times, currentCoverPhotoPath);
      if isCoverPhotoBeingMoved {
        UpdateCoverPhotoAfterMove();
      }
      db.UpdatePhotoCount(albumId);
      RefreshPhotos();
    }

    /** The loop of `movePhotosToBin`: bin each listed photo and note
        whether the captured cover was among them. */
    method BinAll(photoIds: seq<int>, times: seq<nat>, currentCoverPhotoPath: Option<string>)
      returns (isCoverPhotoBeingMoved: bool)
      requires |times| == |photoIds|
      modifies db
      ensures db.State() == BinEach(old(db.State()), photoIds, times)
      ensures isCoverPhotoBeingMoved == CoverIn(old(db.State()), currentCoverPhotoPath, photoIds)
    {
      ghost var start := db.State();
      isCoverPhotoBeingMoved := false;
      var i := 0;
      while i < |photoIds|
        invariant 0 <= i <= |photoIds|
        invariant db.State() == BinEach(start, photoIds[..i], times[..i])
        invariant isCoverPhotoBeingMoved == CoverIn(start, currentCoverPhotoPath, photoIds[..i])
      {
        BinEachStep(start, photoIds, times, i);
        CoverInStep(start, currentCoverPhotoPath, photoIds, i);
        BinEachKeepsHit(start, photoIds, times, i, currentCoverPhotoPath);
        var hit := BinOne(photoIds[i], times[i], currentCoverPhotoPath);
        isCoverPhotoBeingMoved := isCoverPhotoBeingMoved || hit;
        i := i + 1;
      }
      assert photoIds[..i] == photoIds && times[..i] == times;
    }

    /** One pass of that loop: `getPhotoById(id)` and, when the row exists,
        the check against the captured cover and `movePhotoToBin(id, t)`. */
    method BinOne(id: int, t: nat, currentCoverPhotoPath: Option<string>) returns (hit: bool)
      modifies db
      ensures db.State() == Store.MovePhotoToBin(old(db.State()), id, t)
      ensures hit == Hit(old(db.State()), currentCoverPhotoPath, id)
    {
      hit := false;
      var photo := PhotoDao.PhotoById(db.photos, id);
      if photo.Some? {
        if currentCoverPhotoPath.Some? && currentCoverPhotoPath.value == photo.value.filePath {
          hit := true;
        }
        db.MovePhotoToBin(id, t);
      } else {
        assert PhotoDao.MarkInBin(db.photos, [id], t) == db.photos;
      }
    }
  }
}
