/** The Room database: the two tables, one AUTOINCREMENT counter per table,
    the `album_id` foreign key (ON DELETE CASCADE) that Photo.kt declares,
    and every mutation of PhotoDao.kt and AlbumDao.kt. Each mutation is a
    function on a database value; the class `Database` holds the tables and
    applies those functions in place. */
module Store {
  import opened Records
  import PhotoDao
  import AlbumDao

  datatype Db = Db(
    albums: AlbumDao.AlbumTable,
    photos: PhotoDao.PhotoTable,
    nextAlbumId: int,
    nextPhotoId: int)

  /** The constraint failures SQLite reports as exceptions. */
  datatype StoreError = ForeignKeyViolation | PrimaryKeyConflict

  datatype Result<T> = Ok(value: T) | Err(error: StoreError)

  datatype Status = Done | Failed(error: StoreError)

  /** Every row sits under its own id, ids are below their table's counter
      and never 0 (0 means "not yet assigned"), and every photo's album
      exists: the foreign key is enforced. */
  predicate Valid(db: Db) {
    && db.nextAlbumId >= 1 && db.nextPhotoId >= 1
    && (forall k :: k in db.albums ==> db.albums[k].id == k && k != 0 && k < db.nextAlbumId)
    && (forall k :: k in db.photos ==> db.photos[k].id == k && k != 0 && k < db.nextPhotoId)
    && (forall k :: k in db.photos ==> db.photos[k].albumId in db.albums)
  }

  /** A freshly created database. */
  function Empty(): (db: Db)
    ensures Valid(db) && db.albums == map[] && db.photos == map[]
  {
    Db(map[], map[], 1, 1)
  }

  /** The key an insert uses: the record's own id, or the next counter value
      when the id is the unset default 0. */
  function KeyFor(next: int, id: int): int {
    if id == 0 then next else id
  }

  /** The counter after a row with key `k` is written: AUTOINCREMENT never
      hands out a key at or below the largest one used. */
  function Bump(next: int, k: int): (r: int)
    ensures r >= next && r > k
  {
    if k + 1 > next then k + 1 else next
  }

  // ---- PhotoDao mutations ----

  /** `insertPhoto` (OnConflictStrategy.REPLACE): an insert whose album is
      missing fails; otherwise the row is written under its key, replacing
      any row already there, and the key is returned. */
  function InsertPhoto(db: Db, p: Photo): (r: (Db, Result<int>))
    ensures r.1.Err? <==> p.albumId !in db.albums
    ensures r.1.Err? ==> r.0 == db && r.1.error == ForeignKeyViolation
    ensures r.1.Ok? ==> r.1.value == KeyFor(db.nextPhotoId, p.id)
    ensures r.1.Ok? ==> r.0.albums == db.albums && r.0.nextAlbumId == db.nextAlbumId
    ensures r.1.Ok? ==> r.0.photos.Keys == db.photos.Keys + {r.1.value}
    ensures r.1.Ok? ==> r.0.photos[r.1.value] == p.(id := r.1.value)
    ensures r.1.Ok? ==> forall k :: k in db.photos && k != r.1.value ==> r.0.photos[k] == db.photos[k]
    ensures r.1.Ok? && p.id == 0 && Valid(db) ==> r.1.value !in db.photos
    ensures Valid(db) ==> Valid(r.0)
  {
    if p.albumId !in db.albums then (db, Err(ForeignKeyViolation))
    else
      var k := KeyFor(db.nextPhotoId, p.id);
      (db.(photos := db.photos[k := p.(id := k)], nextPhotoId := Bump(db.nextPhotoId, k)), Ok(k))
  }

  /** `insertPhotos`: one transaction; the first failing insert rolls the
      whole batch back. */
  function InsertPhotos(db: Db, ps: seq<Photo>): (r: (Db, Result<seq<int>>))
    ensures r.1.Err? ==> r.0 == db
    ensures r.1.Ok? ==> |r.1.value| == |ps| && r.0.albums == db.albums
    ensures Valid(db) ==> Valid(r.0)
    decreases |ps|
  {
    if ps == [] then (db, Ok([]))
    else
      var prefix := InsertPhotos(db, ps[..|ps| - 1]);
      if prefix.1.Err? then (db, Err(prefix.1.error))
      else
        var last := InsertPhoto(prefix.0, ps[|ps| - 1]);
        if last.1.Err? then (db, Err(last.1.error))
        else (last.0, Ok(prefix.1.value + [last.1.value]))
  }

  /** A batch insert fails exactly when some photo names a missing album. */
  lemma {:induction false} InsertPhotosFailsIff(db: Db, ps: seq<Photo>)
    ensures InsertPhotos(db, ps).1.Err? <==> exists i :: 0 <= i < |ps| && ps[i].albumId !in db.albums
    decreases |ps|
  {
    if ps != [] {
      var front := ps[..|ps| - 1];
      InsertPhotosFailsIff(db, front);
      var prefix := InsertPhotos(db, front);
      if prefix.1.Ok? {
        assert prefix.0.albums == db.albums;
        if exists i :: 0 <= i < |ps| && ps[i].albumId !in db.albums {
          var i :| 0 <= i < |ps| && ps[i].albumId !in db.albums;
        }
      } else {
        var i :| 0 <= i < |front| && front[i].albumId !in db.albums;
        assert ps[i] == front[i];
      }
    }
  }

  /** `updatePhoto` (@Update): rewrites the row with the record's key; a
      missing key changes nothing, a missing album fails. */
  function UpdatePhoto(db: Db, p: Photo): (r: (Db, Status))
    ensures p.id !in db.photos ==> r == (db, Done)
    ensures p.id in db.photos && p.albumId !in db.albums ==> r == (db, Failed(ForeignKeyViolation))
    ensures p.id in db.photos && p.albumId in db.albums ==>
              r.1 == Done && r.0 == db.(photos := db.photos[p.id := p])
    ensures Valid(db) ==> Valid(r.0)
  {
    if p.id !in db.photos then (db, Done)
    else if p.albumId !in db.albums then (db, Failed(ForeignKeyViolation))
    else (db.(photos := db.photos[p.id := p]), Done)
  }

  /** `deletePhotoById`: removes the row with that key, if any. */
  function DeletePhotoById(db: Db, id: int): (r: Db)
    ensures r.photos.Keys == db.photos.Keys - {id}
    ensures forall k :: k in r.photos ==> r.photos[k] == db.photos[k]
    ensures r.albums == db.albums
    ensures Valid(db) ==> Valid(r)
  {
    db.(photos := PhotoDao.RemoveIds(db.photos, [id]))
  }

  /** `deletePhoto` (@Delete): removes the row with the record's key. */
  function DeletePhoto(db: Db, p: Photo): (r: Db)
    ensures p.id !in r.photos && r.albums == db.albums
    ensures forall k :: k in db.photos && k != p.id ==> k in r.photos && r.photos[k] == db.photos[k]
    ensures Valid(db) ==> Valid(r)
  {
    DeletePhotoById(db, p.id)
  }

  /** `deletePhotosByAlbum` */
  function DeletePhotosByAlbum(db: Db, a: int): (r: Db)
    ensures r.albums == db.albums
    ensures forall k :: k in r.photos <==> k in db.photos && db.photos[k].albumId != a
    ensures Valid(db) ==> Valid(r)
  {
    db.(photos := PhotoDao.RemoveAlbumRows(db.photos, a))
  }

  /** `movePhotoToBin` */
  function MovePhotoToBin(db: Db, id: int, t: nat): (r: Db)
    ensures r.albums == db.albums && r.photos.Keys == db.photos.Keys
    ensures forall k :: k in db.photos && k != id ==> r.photos[k] == db.photos[k]
    ensures id in db.photos ==> r.photos[id].isDeleted && r.photos[id].deletedDate == Some(t)
    ensures Valid(db) ==> Valid(r)
  {
    PhotoDao.MoveToBinTouchesOneRow(db.photos, id, t);
    db.(photos := PhotoDao.MarkInBin(db.photos, [id], t))
  }

  /** `restorePhotoFromBin` */
  function RestorePhotoFromBin(db: Db, id: int): (r: Db)
    ensures r.albums == db.albums && r.photos.Keys == db.photos.Keys
    ensures forall k :: k in db.photos && k != id ==> r.photos[k] == db.photos[k]
    ensures id in db.photos ==> !r.photos[id].isDeleted && r.photos[id].deletedDate == None
    ensures Valid(db) ==> Valid(r)
  {
    PhotoDao.RestoreTouchesOneRow(db.photos, id);
    db.(photos := PhotoDao.ClearBin(db.photos, [id]))
  }

  /** `restorePhotosFromBin(ids)`: the batch form of `restorePhotoFromBin`. */
  function RestorePhotosFromBin(db: Db, ids: seq<int>): (r: Db)
    ensures r.albums == db.albums && r.photos.Keys == db.photos.Keys
    ensures forall k :: k in db.photos && k in ids ==>
              r.photos[k] == db.photos[k].(isDeleted := false, deletedDate := None)
    ensures forall k :: k in db.photos && k !in ids ==> r.photos[k] == db.photos[k]
    ensures Valid(db) ==> Valid(r)
  {
    db.(photos := PhotoDao.ClearBin(db.photos, ids))
  }

  /** `permanentlyDeletePhotos(ids)`: deletes the rows with those keys. */
  function PermanentlyDeletePhotos(db: Db, ids: seq<int>): (r: Db)
    ensures r.albums == db.albums
    ensures forall k :: k in r.photos <==> k in db.photos && k !in ids
    ensures forall k :: k in r.photos ==> r.photos[k] == db.photos[k]
    ensures Valid(db) ==> Valid(r)
  {
    db.(photos := PhotoDao.RemoveIds(db.photos, ids))
  }

  /** `permanentlyDeletePhotosInBin` */
  function PermanentlyDeletePhotosInBin(db: Db): (r: Db)
    ensures r.albums == db.albums
    ensures forall k :: k in r.photos <==> k in db.photos && !db.photos[k].isDeleted
    ensures Valid(db) ==> Valid(r)
  {
    db.(photos := PhotoDao.RemoveBinRows(db.photos))
  }

  // ---- AlbumDao mutations ----

  /** `insertAlbum` (OnConflictStrategy.ABORT): a key already in use fails
      and changes nothing; otherwise the album is added under its key. */
  function InsertAlbum(db: Db, a: Album): (r: (Db, Result<int>))
    ensures KeyFor(db.nextAlbumId, a.id) in db.albums <==> r.1.Err?
    ensures r.1.Err? ==> r.0 == db && r.1.error == PrimaryKeyConflict
    ensures r.1.Ok? ==> r.1.value == KeyFor(db.nextAlbumId, a.id) && r.1.value !in db.albums
    ensures r.1.Ok? ==> r.0.albums == db.albums[r.1.value := a.(id := r.1.value)]
    ensures r.1.Ok? ==> r.0.photos == db.photos && r.0.nextPhotoId == db.nextPhotoId
    ensures a.id == 0 && Valid(db) ==> r.1.Ok?
    ensures Valid(db) ==> Valid(r.0)
  {
    var k := KeyFor(db.nextAlbumId, a.id);
    if k in db.albums then (db, Err(PrimaryKeyConflict))
    else (db.(albums := db.albums[k := a.(id := k)], nextAlbumId := Bump(db.nextAlbumId, k)), Ok(k))
  }

  /** `updateAlbum` (@Update): rewrites the album with the record's key; a
      missing key changes nothing. */
  function UpdateAlbum(db: Db, a: Album): (r: Db)
    ensures a.id in db.albums ==> r == db.(albums := db.albums[a.id := a])
    ensures a.id !in db.albums ==> r == db
    ensures Valid(db) ==> Valid(r)
  {
    if a.id in db.albums then db.(albums := db.albums[a.id := a]) else db
  }

  /** `deleteAlbum` (@Delete): removes the album with the record's key, and
      the foreign key's ON DELETE CASCADE removes every photo row of it, in
      the bin or not. */
  function DeleteAlbum(db: Db, a: Album): (r: Db)
    ensures r.albums.Keys == db.albums.Keys - {a.id}
    ensures forall k :: k in r.albums ==> r.albums[k] == db.albums[k]
    ensures a.id in db.albums ==> forall k :: k in r.photos <==> k in db.photos && db.photos[k].albumId != a.id
    ensures a.id !in db.albums ==> r.photos == db.photos
    ensures Valid(db) ==> Valid(r)
  {
    if a.id in db.albums then
      db.(albums := map k | k in db.albums && k != a.id :: db.albums[k],
          photos := PhotoDao.RemoveAlbumRows(db.photos, a.id))
    else db
  }

  /** `updatePhotoCount`: the album's count becomes the number of ALL its
      photo rows; nothing else changes. */
  function UpdatePhotoCount(db: Db, a: int): (r: Db)
    ensures r.photos == db.photos && r.albums.Keys == db.albums.Keys
    ensures a in db.albums ==> r.albums[a] == db.albums[a].(photoCount := AlbumDao.RowCount(db.photos, a))
    ensures forall k :: k in db.albums && k != a ==> r.albums[k] == db.albums[k]
    ensures Valid(db) ==> Valid(r)
  {
    if a in db.albums then
      db.(albums := db.albums[a := db.albums[a].(photoCount := AlbumDao.RowCount(db.photos, a))])
    else db
  }

  /** `updateCoverPhoto`: sets only that album's cover path, which may be
      null. */
  function UpdateCoverPhoto(db: Db, a: int, path: Option<string>): (r: Db)
    ensures r.photos == db.photos && r.albums.Keys == db.albums.Keys
    ensures a in db.albums ==> r.albums[a] == db.albums[a].(coverPhotoPath := path)
    ensures forall k :: k in db.albums && k != a ==> r.albums[k] == db.albums[k]
    ensures Valid(db) ==> Valid(r)
  {
    if a in db.albums then db.(albums := db.albums[a := db.albums[a].(coverPhotoPath := path)]) else db
  }

  // ---- Properties of the store ----

  /** With the foreign key enforced, deleting an album leaves no photo that
      refers to it, and deleting its photos first removes exactly the rows
      the cascade would remove. */
  lemma {:induction false} CascadeMatchesPhotoDelete(db: Db, a: Album)
    requires Valid(db)
    ensures forall k :: k in DeleteAlbum(db, a).photos ==> DeleteAlbum(db, a).photos[k].albumId != a.id
    ensures DeleteAlbum(DeletePhotosByAlbum(db, a.id), a) == DeleteAlbum(db, a)
  {
    var r := DeleteAlbum(db, a);
    if a.id !in db.albums {
      forall k | k in r.photos ensures r.photos[k].albumId != a.id {
        assert r.photos[k] == db.photos[k];
      }
      assert PhotoDao.RemoveAlbumRows(db.photos, a.id) == db.photos;
    }
  }

  /** An insert with an existing key replaces that row: the table keeps its
      size and the old row is gone. */
  lemma InsertPhotoReplaces(db: Db, p: Photo)
    requires p.id != 0 && p.id in db.photos && p.albumId in db.albums
    ensures InsertPhoto(db, p).1 == Ok(p.id)
    ensures InsertPhoto(db, p).0.photos == db.photos[p.id := p]
    ensures |InsertPhoto(db, p).0.photos| == |db.photos|
  {
  }

  /** Counting is idempotent: a second `updatePhotoCount` changes nothing. */
  lemma UpdatePhotoCountIdempotent(db: Db, a: int)
    ensures UpdatePhotoCount(UpdatePhotoCount(db, a), a) == UpdatePhotoCount(db, a)
  {
  }

  /** Once a prefix of a batch fails, the whole batch fails and leaves the
      database as it was. */
  lemma {:induction false} FailureSticks(db: Db, ps: seq<Photo>, n: nat)
    requires n <= |ps| && InsertPhotos(db, ps[..n]).1.Err?
    ensures InsertPhotos(db, ps) == (db, Err(InsertPhotos(db, ps[..n]).1.error))
    decreases |ps| - n
  {
    if n < |ps| {
      assert ps[..n + 1][..n] == ps[..n];
      FailureSticks(db, ps, n + 1);
    } else {
      assert ps[..n] == ps;
    }
  }
}
