/** The album fix-up the view models repeat after changing photo rows:
    recount the album with `updatePhotoCount`, then, only when its cover is
    null, set the cover to the path of `getFirstPhotoInAlbum`. The import
    (PhotoImportViewModel.kt), the restore loop (BinViewModel.kt) and
    `updateAlbumPhotoCounts` (MainViewModel.kt) all perform it. */
module Upkeep {
  import opened Records
  import PhotoDao
  import AlbumDao
  import Store

  /** `getFirstPhotoInAlbum(a)?.filePath`: the path of the album's oldest
      photo outside the bin, if any. */
  function OldestPath(photos: PhotoDao.PhotoTable, a: int): (r: Option<string>)
    ensures r.None? <==> PhotoDao.ActiveIds(photos, a) == {}
    ensures r.Some? ==>
      exists k :: k in PhotoDao.ActiveIds(photos, a) && photos[k].filePath == r.value &&
        forall j :: j in PhotoDao.ActiveIds(photos, a) ==> photos[k].importedDate <= photos[j].importedDate
  {
    var first := PhotoDao.FirstPhotoInAlbum(photos, a);
    if first.Some? then
      var k := PhotoDao.FirstActiveId(photos, a);
      assert photos[k] == first.value;
      Some(first.value.filePath)
    else None
  }

  /** What the fix-up of album `a` leaves in its row: the count of all the
      album's photo rows, and the oldest active path as cover when the cover
      was null. */
  function Reconciled(photos: PhotoDao.PhotoTable, a: int, album: Album): (r: Album)
    ensures r.id == album.id && r.name == album.name && r.createdDate == album.createdDate
    ensures r.photoCount == AlbumDao.RowCount(photos, a)
    ensures album.coverPhotoPath.Some? ==> r.coverPhotoPath == album.coverPhotoPath
    ensures album.coverPhotoPath.None? ==> r.coverPhotoPath == OldestPath(photos, a)
  {
    album.(photoCount := AlbumDao.RowCount(photos, a),
           coverPhotoPath := if album.coverPhotoPath.None? then OldestPath(photos, a) else album.coverPhotoPath)
  }

  /** `if (album?.coverPhotoPath == null) updateCoverPhoto(a, getFirstPhotoInAlbum(a)?.filePath)` */
  function FillCover(db: Store.Db, a: int): (r: Store.Db)
    ensures r.photos == db.photos && r.albums.Keys == db.albums.Keys
    ensures r.nextAlbumId == db.nextAlbumId && r.nextPhotoId == db.nextPhotoId
    ensures a in db.albums && db.albums[a].coverPhotoPath.Some? ==> r.albums[a] == db.albums[a]
    ensures a in db.albums && db.albums[a].coverPhotoPath.None? ==>
              r.albums[a] == db.albums[a].(coverPhotoPath := OldestPath(db.photos, a))
    ensures forall k :: k in db.albums && k != a ==> r.albums[k] == db.albums[k]
    ensures Store.Valid(db) ==> Store.Valid(r)
  {
    var album := AlbumDao.AlbumById(db.albums, a);
    if album.None? || album.value.coverPhotoPath.None? then
      Store.UpdateCoverPhoto(db, a, OldestPath(db.photos, a))
    else db
  }

  /** The whole fix-up of one album. */
  function Reconcile(db: Store.Db, a: int): (r: Store.Db)
    ensures r.photos == db.photos && r.albums.Keys == db.albums.Keys
    ensures r.nextAlbumId == db.nextAlbumId && r.nextPhotoId == db.nextPhotoId
    ensures a in db.albums ==> r.albums[a] == Reconciled(db.photos, a, db.albums[a])
    ensures forall k :: k in db.albums && k != a ==> r.albums[k] == db.albums[k]
    ensures Store.Valid(db) ==> Store.Valid(r)
  {
    if a in db.albums then FillCoverAfterCount(db, a); FillCover(Store.UpdatePhotoCount(db, a), a)
    else FillCover(Store.UpdatePhotoCount(db, a), a)
  }

  lemma FillCoverAfterCount(db: Store.Db, a: int)
    requires a in db.albums
    ensures FillCover(Store.UpdatePhotoCount(db, a), a).albums[a] == Reconciled(db.photos, a, db.albums[a])
  {
    var counted := Store.UpdatePhotoCount(db, a);
    var album := db.albums[a];
    var n := AlbumDao.RowCount(db.photos, a);
    assert counted.albums[a] == album.(photoCount := n);
    assert counted.photos == db.photos;
    var filled := FillCover(counted, a);
    if album.coverPhotoPath.None? {
      assert filled.albums[a] == album.(photoCount := n).(coverPhotoPath := OldestPath(db.photos, a));
    }
  }

  /** The fix-up applied to every album of `ks`, in any order. */
  function ReconcileEach(db: Store.Db, ks: set<int>): (r: Store.Db)
    ensures r.photos == db.photos && r.albums.Keys == db.albums.Keys
    ensures r.nextAlbumId == db.nextAlbumId && r.nextPhotoId == db.nextPhotoId
    ensures forall k :: k in db.albums && k in ks ==> r.albums[k] == Reconciled(db.photos, k, db.albums[k])
    ensures forall k :: k in db.albums && k !in ks ==> r.albums[k] == db.albums[k]
  {
    db.(albums := map k | k in db.albums :: if k in ks then Reconciled(db.photos, k, db.albums[k]) else db.albums[k])
  }

  /** A second fix-up of the same album changes nothing. */
  lemma {:induction false} ReconciledIdempotent(photos: PhotoDao.PhotoTable, a: int, album: Album)
    ensures Reconciled(photos, a, Reconciled(photos, a, album)) == Reconciled(photos, a, album)
  {
    var once := Reconciled(photos, a, album);
    if album.coverPhotoPath.None? {
      assert once.coverPhotoPath == OldestPath(photos, a);
    }
  }

  /** Fixing up one more album extends the set of fixed-up albums, even when
      that album was fixed up already. */
  lemma {:induction false} ReconcileStep(db: Store.Db, ks: set<int>, a: int)
    ensures Reconcile(ReconcileEach(db, ks), a) == ReconcileEach(db, ks + {a})
  {
    var before := ReconcileEach(db, ks);
    var lhs := Reconcile(before, a);
    var rhs := ReconcileEach(db, ks + {a});
    forall k | k in db.albums ensures lhs.albums[k] == rhs.albums[k] {
      if k == a && a in ks {
        ReconciledIdempotent(db.photos, a, db.albums[a]);
      }
    }
    assert lhs.albums == rhs.albums;
  }

  /** The fix-up keeps the store's invariant. */
  lemma ReconcileEachValid(db: Store.Db, ks: set<int>)
    requires Store.Valid(db)
    ensures Store.Valid(ReconcileEach(db, ks))
  {
  }
}
