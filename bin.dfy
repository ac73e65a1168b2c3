/** BinViewModel.kt: restoring photos from the bin, with photos whose album
    is gone (or is the placeholder album of the bin) re-homed into an album
    named "Restored", and deleting photos for good. */
module Bin {
  import opened Records
  import PhotoDao
  import AlbumDao
  import Store
  import VaultDb
  import Upkeep
  import FileManager

  // ---- Restoring ----

  /** A listed photo that needs a new home: its row exists and its album is
      missing or is the placeholder album `dummy`. */
  predicate IsOrphan(db: Store.Db, dummy: Option<Album>, id: int) {
    id in db.photos &&
    (db.photos[id].albumId !in db.albums || (dummy.Some? && db.photos[id].albumId == dummy.value.id))
  }

  /** `orphanedPhotoIds`: the orphans of `ids`, in list order. */
  function Orphans(db: Store.Db, dummy: Option<Album>, ids: seq<int>): (r: seq<int>)
    ensures forall k :: k in r <==> k in ids && IsOrphan(db, dummy, k)
    decreases |ids|
  {
    if ids == [] then []
    else
      var n := |ids| - 1;
      assert forall k :: k in ids <==> k in ids[..n] || k == ids[n];
      Orphans(db, dummy, ids[..n]) + (if IsOrphan(db, dummy, ids[n]) then [ids[n]] else [])
  }

  /** `getOrCreateRestoredAlbum`: the album named "Restored", inserted with
      creation time `now` when there is none. The re-read after the insert
      always finds the row the insert wrote. */
  function GetOrCreateRestored(db: Store.Db, now: nat): (r: (Store.Db, Store.Result<Album>))
    ensures r.0.photos == db.photos
    ensures r.1.Err? ==> r.0 == db
    ensures r.1.Ok? ==> r.1.value.name == RestoredAlbumName
    ensures AlbumDao.NamedIds(db.albums, RestoredAlbumName) != {} ==> r.0 == db && r.1.Ok?
    ensures AlbumDao.NamedIds(db.albums, RestoredAlbumName) == {} && r.1.Ok? ==>
              && r.1.value.id !in db.albums
              && r.0.albums == db.albums[r.1.value.id := r.1.value]
              && r.1.value == NewAlbum(RestoredAlbumName, now).(id := r.1.value.id)
    ensures Store.Valid(db) ==>
              && r.1.Ok? && Store.Valid(r.0)
              && r.1.value.id in r.0.albums && r.0.albums[r.1.value.id] == r.1.value
  {
    var found := AlbumDao.AlbumByName(db.albums, RestoredAlbumName);
    if found.Some? then (db, Store.Ok(found.value))
    else
      var inserted := Store.InsertAlbum(db, NewAlbum(RestoredAlbumName, now));
      if inserted.1.Err? then (db, Store.Err(inserted.1.error))
      else (inserted.0, Store.Ok(inserted.0.albums[inserted.1.value]))
  }

  /** Create or find the "Restored" album and move the orphans into it with
      `updatePhoto`. Every orphan's row exists, so when the album is not a
      row of the table the first update breaks the foreign key and the loop
      stops before changing a row; the album insert stays done. */
  function Rehome(db: Store.Db, orphans: seq<int>, now: nat): (r: (Store.Db, bool))
    ensures r.0.photos.Keys == db.photos.Keys
    ensures Store.Valid(db) ==> Store.Valid(r.0)
  {
    var got := GetOrCreateRestored(db, now);
    if got.1.Err? then (db, false)
    else if got.1.value.id !in got.0.albums then (got.0, false)
    else (got.0.(photos := PhotoDao.Reassign(got.0.photos, orphans, got.1.value.id)), true)
  }

  /** `albumIds`: the distinct albums of the listed photos that exist, in
      order of first appearance. */
  function AlbumIdsOf(photos: PhotoDao.PhotoTable, ids: seq<int>): (r: seq<int>)
    ensures forall i, j :: 0 <= i < j < |r| ==> r[i] != r[j]
    ensures forall a :: a in r <==> exists k :: k in ids && k in photos && photos[k].albumId == a
    decreases |ids|
  {
    if ids == [] then []
    else
      var n := |ids| - 1;
      var front := AlbumIdsOf(photos, ids[..n]);
      assert forall k :: k in ids <==> k in ids[..n] || k == ids[n];
      if ids[n] in photos && photos[ids[n]].albumId !in front then front + [photos[ids[n]].albumId]
      else front
  }

  /** The albums whose count and cover the restore updates: every album of
      the restored photos except the placeholder. */
  predicate Kept(dummy: Option<Album>, a: int) {
    dummy.None? || a != dummy.value.id
  }

  /** The albums of `albumIds` that the restore loop does not skip. */
  function KeptIds(albumIds: seq<int>, dummy: Option<Album>): (ks: set<int>)
    ensures forall a :: a in ks <==> a in albumIds && Kept(dummy, a)
  {
    set a | a in albumIds && Kept(dummy, a)
  }

  /** The skip test applied to one more album of the list. */
  lemma KeptIdsStep(albumIds: seq<int>, j: nat, dummy: Option<Album>)
    requires j < |albumIds|
    ensures Kept(dummy, albumIds[j]) ==> KeptIds(albumIds[..j + 1], dummy) == KeptIds(albumIds[..j], dummy) + {albumIds[j]}
    ensures !Kept(dummy, albumIds[j]) ==> KeptIds(albumIds[..j + 1], dummy) == KeptIds(albumIds[..j], dummy)
  {
    assert albumIds[..j + 1] == albumIds[..j] + [albumIds[j]];
  }

  function Touched(photos: PhotoDao.PhotoTable, ids: seq<int>, dummy: Option<Album>): (ks: set<int>)
    ensures forall a :: a in ks <==> Kept(dummy, a) && exists k :: k in ids && k in photos && photos[k].albumId == a
  {
    KeptIds(AlbumIdsOf(photos, ids), dummy)
  }

  /** `restorePhotos(ids)` at clock reading `now`; false when it threw. */
  function Restore(db: Store.Db, ids: seq<int>, now: nat): (r: (Store.Db, bool))
    ensures Store.Valid(db) ==> Store.Valid(r.0)
  {
    var dummy := AlbumDao.AlbumByName(db.albums, DummyBinAlbumName);
    var orphans := Orphans(db, dummy, ids);
    var moved := if orphans == [] then (db, true) else Rehome(db, orphans, now);
    if !moved.1 then moved
    else
      var restored := Store.RestorePhotosFromBin(moved.0, ids);
      (Upkeep.ReconcileEach(restored, Touched(restored.photos, ids, dummy)), true)
  }

  // ---- Properties of restoring ----

  /** With the foreign key enforced no photo's album is missing, so the
      orphans are exactly the listed photos of the placeholder album. */
  lemma OrphanIffInDummy(db: Store.Db, dummy: Option<Album>, id: int)
    requires Store.Valid(db)
    ensures IsOrphan(db, dummy, id) <==> id in db.photos && dummy.Some? && db.photos[id].albumId == dummy.value.id
  {
  }

  /** From a consistent store the restore never fails. */
  lemma RestoreSucceeds(db: Store.Db, ids: seq<int>, now: nat)
    requires Store.Valid(db)
    ensures Restore(db, ids, now).1
  {
  }

  /** Every listed photo that exists leaves the bin, with no other change
      than its album: an orphan lands in the "Restored" album, any other
      photo keeps its album. Unlisted photos do not change. */
  lemma RestorePhotosEffect(db: Store.Db, ids: seq<int>, now: nat)
    requires Store.Valid(db)
    ensures var r := Restore(db, ids, now).0;
      var dummy := AlbumDao.AlbumByName(db.albums, DummyBinAlbumName);
      && r.photos.Keys == db.photos.Keys
      && (forall k :: k in db.photos && k !in ids ==> r.photos[k] == db.photos[k])
      && (forall k :: k in db.photos && k in ids ==>
            r.photos[k] == db.photos[k].(isDeleted := false, deletedDate := None, albumId := r.photos[k].albumId))
      && (forall k :: k in db.photos && k in ids && !IsOrphan(db, dummy, k) ==>
            r.photos[k].albumId == db.photos[k].albumId)
      && (forall k :: k in db.photos && k in ids && IsOrphan(db, dummy, k) ==>
            r.albums[r.photos[k].albumId].name == RestoredAlbumName)
  {
    var dummy := AlbumDao.AlbumByName(db.albums, DummyBinAlbumName);
    var orphans := Orphans(db, dummy, ids);
    if orphans != [] {
      var got := GetOrCreateRestored(db, now);
      var moved := Rehome(db, orphans, now);
      assert moved.0.photos == PhotoDao.Reassign(db.photos, orphans, got.1.value.id);
      assert moved.0.albums == got.0.albums;
    }
  }

  /** Every album the restored photos belong to, except the placeholder, is
      recounted and, when it had no cover, given one; the placeholder album
      and the albums of no restored photo keep their rows. */
  lemma RestoreUpdatesAlbums(db: Store.Db, ids: seq<int>, now: nat)
    requires Store.Valid(db)
    ensures var r := Restore(db, ids, now).0;
      var dummy := AlbumDao.AlbumByName(db.albums, DummyBinAlbumName);
      && db.albums.Keys <= r.albums.Keys
      && (forall k :: k in db.photos && k in ids && Kept(dummy, r.photos[k].albumId) ==>
            r.albums[r.photos[k].albumId].photoCount == AlbumDao.RowCount(r.photos, r.photos[k].albumId))
      && (forall k :: k in db.photos && k in ids && Kept(dummy, r.photos[k].albumId) ==>
            r.albums[r.photos[k].albumId].coverPhotoPath ==
              if r.photos[k].albumId in db.albums && db.albums[r.photos[k].albumId].coverPhotoPath.Some?
              then db.albums[r.photos[k].albumId].coverPhotoPath
              else Upkeep.OldestPath(r.photos, r.photos[k].albumId))
      && (forall a :: a in db.albums && a !in Touched(r.photos, ids, dummy) ==> r.albums[a] == db.albums[a])
      && (dummy.Some? ==> r.albums[dummy.value.id] == db.albums[dummy.value.id])
  {
    var dummy := AlbumDao.AlbumByName(db.albums, DummyBinAlbumName);
    var orphans := Orphans(db, dummy, ids);
    var moved := if orphans == [] then (db, true) else Rehome(db, orphans, now);
    MovedKeepsAlbums(db, dummy, orphans, now);
    var restored := Store.RestorePhotosFromBin(moved.0, ids);
    var touched := Touched(restored.photos, ids, dummy);
    var r := Upkeep.ReconcileEach(restored, touched);
    assert r == Restore(db, ids, now).0;
    assert r.photos == restored.photos;
    forall k | k in db.photos && k in ids && Kept(dummy, r.photos[k].albumId)
      ensures r.albums[r.photos[k].albumId].photoCount == AlbumDao.RowCount(r.photos, r.photos[k].albumId)
      ensures r.albums[r.photos[k].albumId].coverPhotoPath ==
                if r.photos[k].albumId in db.albums && db.albums[r.photos[k].albumId].coverPhotoPath.Some?
                then db.albums[r.photos[k].albumId].coverPhotoPath
                else Upkeep.OldestPath(r.photos, r.photos[k].albumId)
    {
      var a := r.photos[k].albumId;
      assert a in touched;
      assert a in restored.albums;
      assert r.albums[a] == Upkeep.Reconciled(restored.photos, a, moved.0.albums[a]);
    }
  }

  /** The re-homing step keeps every album and the placeholder's row; from
      a consistent store it succeeds and stays consistent. */
  lemma MovedKeepsAlbums(db: Store.Db, dummy: Option<Album>, orphans: seq<int>, now: nat)
    requires Store.Valid(db)
    requires dummy == AlbumDao.AlbumByName(db.albums, DummyBinAlbumName)
    ensures var moved := if orphans == [] then (db, true) else Rehome(db, orphans, now);
      && moved.1 && Store.Valid(moved.0)
      && db.albums.Keys <= moved.0.albums.Keys
      && (forall a :: a in db.albums ==> moved.0.albums[a] == db.albums[a])
      && (forall a :: a in moved.0.albums && a !in db.albums ==> moved.0.albums[a].coverPhotoPath.None?)
      && (dummy.Some? ==> moved.0.albums[dummy.value.id] == db.albums[dummy.value.id])
  {
    if orphans != [] {
      var got := GetOrCreateRestored(db, now);
      var moved := Rehome(db, orphans, now);
      if dummy.Some? {
        assert dummy.value.id in db.albums;
        if AlbumDao.NamedIds(db.albums, RestoredAlbumName) != {} {
          assert moved.0.albums == db.albums;
        } else {
          assert got.1.value.id != dummy.value.id;
          assert moved.0.albums[dummy.value.id] == db.albums[dummy.value.id];
        }
      }
    }
  }

  /** Without orphans no album is created. */
  lemma NoOrphansNoNewAlbum(db: Store.Db, ids: seq<int>, now: nat)
    requires Orphans(db, AlbumDao.AlbumByName(db.albums, DummyBinAlbumName), ids) == []
    ensures Restore(db, ids, now).0.albums.Keys == db.albums.Keys
  {
  }

  // ---- Deleting for good ----

  /** `photosToDelete`: the rows of the listed ids that exist, in list
      order. */
  function Found(photos: PhotoDao.PhotoTable, ids: seq<int>): (r: seq<Photo>)
    ensures |r| <= |ids|
    ensures forall p :: p in r <==> exists k :: k in ids && k in photos && photos[k] == p
    decreases |ids|
  {
    if ids == [] then []
    else
      var n := |ids| - 1;
      assert forall k :: k in ids <==> k in ids[..n] || k == ids[n];
      Found(photos, ids[..n]) + (if ids[n] in photos then [photos[ids[n]]] else [])
  }

  /** The file deletions the loop over `photosToDelete` asks for, one per
      photo; each failure is caught and logged. */
  function FileRequests(found: seq<Photo>): (r: seq<FileManager.FileRequest>)
    ensures |r| == |found|
    ensures forall i :: 0 <= i < |r| ==> r[i] == FileManager.DeleteFile(found[i].filePath)
  {
    seq(|found|, i requires 0 <= i < |found| => FileManager.DeleteFile(found[i].filePath))
  }

  /** Deleting for good asks to remove the file of exactly the listed
      photos that exist, drops their rows, and leaves the albums as they
      were. */
  lemma PermanentDeleteEffect(db: Store.Db, ids: seq<int>)
    ensures var q := FileRequests(Found(db.photos, ids));
      var r := Store.PermanentlyDeletePhotos(db, ids);
      && (forall path :: FileManager.DeleteFile(path) in q <==>
            exists k :: k in ids && k in db.photos && db.photos[k].filePath == path)
      && (forall k :: k in r.photos <==> k in db.photos && k !in ids)
      && r.albums == db.albums
  {
    var found := Found(db.photos, ids);
    var q := FileRequests(found);
    forall path ensures FileManager.DeleteFile(path) in q <==>
        exists k :: k in ids && k in db.photos && db.photos[k].filePath == path
    {
      if FileManager.DeleteFile(path) in q {
        var i :| 0 <= i < |q| && q[i] == FileManager.DeleteFile(path);
        assert found[i] in found;
      }
      if exists k :: k in ids && k in db.photos && db.photos[k].filePath == path {
        var k :| k in ids && k in db.photos && db.photos[k].filePath == path;
        assert db.photos[k] in found;
        var i :| 0 <= i < |found| && found[i] == db.photos[k];
        assert q[i] == FileManager.DeleteFile(path);
      }
    }
  }

  /** Deleting a binned photo for good does not recount its album, and the
      count `updatePhotoCount` stored includes bin rows: after the purge the
      album claims a photo it no longer has. */
  lemma PurgeLeavesStaleCount()
    ensures var a := Album(1, "Trip", 0, 1, None);
      var p := Photo(1, 1, "/v/1.jpg", "1.jpg", 5, 10, 0, 0, true, Some(9));
      var db := Store.Db(map[1 := a], map[1 := p], 2, 2);
      var r := Store.PermanentlyDeletePhotos(db, [1]);
      r.albums[1].photoCount == 1 && AlbumDao.RowCount(r.photos, 1) == 0
  {
    var a := Album(1, "Trip", 0, 1, None);
    var p := Photo(1, 1, "/v/1.jpg", "1.jpg", 5, 10, 0, 0, true, Some(9));
    var db := Store.Db(map[1 := a], map[1 := p], 2, 2);
    var r := Store.PermanentlyDeletePhotos(db, [1]);
    assert r.photos == map[];
    assert AlbumDao.AlbumRowIds(r.photos, 1) == {};
  }

  /** The bin screen. */
  class BinViewModel {
    const db: VaultDb.Database

    constructor (db: VaultDb.Database)
      ensures this.db == db
    {
      this.db := db;
    }

    /** `getOrCreateRestoredAlbum` */
    method GetOrCreateRestoredAlbum(now: nat) returns (r: Store.Result<Album>)
      modifies db
      ensures (db.State(), r) == GetOrCreateRestored(old(db.State()), now)
    {
      var restoredAlbum := AlbumDao.AlbumByName(db.albums, RestoredAlbumName);
      if restoredAlbum.Some? {
        return Store.Ok(restoredAlbum.value);
      }
      var albumId := db.InsertAlbum(NewAlbum(RestoredAlbumName, now));
      if albumId.Err? {
        return Store.Err(albumId.error);
      }
      r := Store.Ok(db.albums[albumId.value]);
    }

    /** The count-and-cover update of one album in the restore loop. */
    method UpdateAlbumInfo(albumId: int)
      modifies db
      ensures db.State() == Upkeep.Reconcile(old(db.State()), albumId)
    {
      db.UpdatePhotoCount(albumId);
      var album := AlbumDao.AlbumById(db.albums, albumId);
      if album.None? || album.value.coverPhotoPath.None? {
        var first := PhotoDao.FirstPhotoInAlbum(db.photos, albumId);
        db.UpdateCoverPhoto(albumId, PathOf(first));
      }
    }

    /** The loop over `albumIds` that updates every album but the
        placeholder. */
    method UpdateAlbums(albumIds: seq<int>, dummyAlbum: Option<Album>)
      modifies db
      ensures db.State() == Upkeep.ReconcileEach(old(db.State()), KeptIds(albumIds, dummyAlbum))
    {
      ghost var start := db.State();
      var j := 0;
      while j < |albumIds|
        invariant 0 <= j <= |albumIds|
        invariant db.State() == Upkeep.ReconcileEach(start, KeptIds(albumIds[..j], dummyAlbum))
      {
        var albumId := albumIds[j];
        KeptIdsStep(albumIds, j, dummyAlbum);
        if dummyAlbum.None? || albumId != dummyAlbum.value.id {
          Upkeep.ReconcileStep(start, KeptIds(albumIds[..j], dummyAlbum), albumId);
          UpdateAlbumInfo(albumId);
        }
        j := j + 1;
      }
      assert albumIds[..j] == albumIds;
    }

    /** The first loop of `restorePhotos`: collect the orphans. */
    method FindOrphans(photoIds: seq<int>, dummyAlbum: Option<Album>) returns (orphanedPhotoIds: seq<int>)
      ensures orphanedPhotoIds == Orphans(db.State(), dummyAlbum, photoIds)
    {
      orphanedPhotoIds := [];
      var i := 0;
      while i < |photoIds|
        invariant 0 <= i <= |photoIds|
        invariant orphanedPhotoIds == Orphans(db.State(), dummyAlbum, photoIds[..i])
      {
        assert photoIds[..i + 1][..i] == photoIds[..i];
        var photo := PhotoDao.PhotoById(db.photos, photoIds[i]);
        if photo.Some? {
          var album := AlbumDao.AlbumById(db.albums, photo.value.albumId);
          if album.None? || (dummyAlbum.Some? && photo.value.albumId == dummyAlbum.value.id) {
            orphanedPhotoIds := orphanedPhotoIds + [photoIds[i]];
          }
        }
        i := i + 1;
      }
      assert photoIds[..i] == photoIds;
    }

    /** The "Restored" album fetched or created, and the loop that moves
        every orphan into it. */
    method RehomeOrphans(orphanedPhotoIds: seq<int>, now: nat) returns (ok: bool)
      requires Store.Valid(db.State())
      requires orphanedPhotoIds != []
      requires forall k :: k in orphanedPhotoIds ==> k in db.photos
      modifies db
      ensures (db.State(), ok) == Rehome(old(db.State()), orphanedPhotoIds, now)
    {
      var restoredAlbum := GetOrCreateRestoredAlbum(now);
      if restoredAlbum.Err? {
        return false;
      }
      ghost var created := db.State();
      assert created.photos == old(db.photos);
      var j := 0;
      while j < |orphanedPhotoIds|
        invariant 0 <= j <= |orphanedPhotoIds|
        invariant db.State() == created.(photos := PhotoDao.Reassign(created.photos, orphanedPhotoIds[..j], restoredAlbum.value.id))
        invariant restoredAlbum.value.id !in created.albums ==> j == 0
        invariant Store.Valid(db.State())
      {
        PhotoDao.ReassignStep(created.photos, orphanedPhotoIds, j, restoredAlbum.value.id);
        var photo := PhotoDao.PhotoById(db.photos, orphanedPhotoIds[j]);
        assert orphanedPhotoIds[j] in orphanedPhotoIds;
        if photo.Some? {
          assert photo.value == created.photos[orphanedPhotoIds[j]].(albumId := photo.value.albumId);
          var status := db.UpdatePhoto(photo.value.(albumId := restoredAlbum.value.id));
          if status.Failed? {
            return false;
          }
        }
        j := j + 1;
      }
      assert orphanedPhotoIds[..j] == orphanedPhotoIds;
      ok := true;
    }

    /** `photoIds.mapNotNull { getPhotoById(it)?.albumId }.distinct()` */
    method CollectAlbumIds(photoIds: seq<int>) returns (albumIds: seq<int>)
      ensures albumIds == AlbumIdsOf(db.photos, photoIds)
    {
      albumIds := [];
      var i := 0;
      while i < |photoIds|
        invariant 0 <= i <= |photoIds|
        invariant albumIds == AlbumIdsOf(db.photos, photoIds[..i])
      {
        assert photoIds[..i + 1][..i] == photoIds[..i];
        var photo := PhotoDao.PhotoById(db.photos, photoIds[i]);
        if photo.Some? && photo.value.albumId !in albumIds {
          albumIds := albumIds + [photo.value.albumId];
        }
        i := i + 1;
      }
      assert photoIds[..i] == photoIds;
    }

    /** `restorePhotos(photoIds)`; `now` is the clock reading that
        `getOrCreateRestoredAlbum` uses, and `ok` is false when it threw. */
    method RestorePhotos(photoIds: seq<int>, now: nat) returns (ok: bool)
      requires Store.Valid(db.State())
      modifies db
      ensures (db.State(), ok) == Restore(old(db.State()), photoIds, now)
    {
      var dummyAlbum := AlbumDao.AlbumByName(db.albums, DummyBinAlbumName);
      var orphanedPhotoIds := FindOrphans(photoIds, dummyAlbum);
      if |orphanedPhotoIds| > 0 {
        ok := RehomeOrphans(orphanedPhotoIds, now);
        if !ok {
          return;
        }
      }
      db.RestorePhotosFromBin(photoIds);
      var albumIds := CollectAlbumIds(photoIds);
      UpdateAlbums(albumIds, dummyAlbum);
      ok := true;
    }

    /** `permanentlyDeletePhotos(photoIds)`: the file deletions it asks
        for, then the rows dropped. */
    method PermanentlyDeletePhotos(photoIds: seq<int>) returns (requests: seq<FileManager.FileRequest>)
      modifies db
      ensures requests == FileRequests(Found(old(db.photos), photoIds))
      ensures db.State() == Store.PermanentlyDeletePhotos(old(db.State()), photoIds)
    {
      var photosToDelete: seq<Photo> := [];
      var i := 0;
      while i < |photoIds|
        invariant 0 <= i <= |photoIds|
        invariant photosToDelete == Found(db.photos, photoIds[..i])
      {
        assert photoIds[..i + 1][..i] == photoIds[..i];
        var photo := PhotoDao.PhotoById(db.photos, photoIds[i]);
        if photo.Some? {
          photosToDelete := photosToDelete + [photo.value];
        }
        i := i + 1;
      }
      assert photoIds[..i] == photoIds;
      requests := [];
      var j := 0;
      while j < |photosToDelete|
        invariant 0 <= j <= |photosToDelete|
        invariant requests == FileRequests(photosToDelete[..j])
      {
        requests := requests + [FileManager.DeleteFile(photosToDelete[j].filePath)];
        j := j + 1;
      }
      assert photosToDelete[..j] == photosToDelete;
      db.PermanentlyDeletePhotos(photoIds);
    }
  }
}
