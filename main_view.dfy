/** MainViewModel.kt: creating, renaming and deleting albums, and the
    count-and-cover update of every album the album list runs. */
module MainView {
  import opened Records
  import PhotoDao
  import AlbumDao
  import Store
  import VaultDb
  import Upkeep
  import FileManager

  /** No two albums share a name: what the name checks of `createAlbum` and
      `renameAlbum` maintain, since the table has no UNIQUE index. */
  predicate NamesUnique(albums: AlbumDao.AlbumTable) {
    forall j, k :: j in albums && k in albums && albums[j].name == albums[k].name ==> j == k
  }

  /** `createAlbum(name)` at clock reading `now`; the boolean is what the
      callback receives. */
  function Create(db: Store.Db, name: string, now: nat): (r: (Store.Db, bool))
    ensures !r.1 ==> r.0 == db
    ensures Store.Valid(db) ==> Store.Valid(r.0)
  {
    if AlbumDao.AlbumByName(db.albums, name).Some? then (db, false)
    else
      var inserted := Store.InsertAlbum(db, NewAlbum(name, now));
      if inserted.1.Err? then (db, false) else (inserted.0, true)
  }

  /** `renameAlbum(album, newName)`: refused when another album holds the
      name; otherwise the caller's record is written back with the new
      name. */
  function Rename(db: Store.Db, album: Album, newName: string): (r: (Store.Db, bool))
    ensures !r.1 ==> r.0 == db
    ensures r.0.photos == db.photos && r.0.albums.Keys == db.albums.Keys
    ensures Store.Valid(db) ==> Store.Valid(r.0)
  {
    var existing := AlbumDao.AlbumByName(db.albums, newName);
    if existing.Some? && existing.value.id != album.id then (db, false)
    else (Store.UpdateAlbum(db, album.(name := newName)), true)
  }

  /** `deleteAlbum(album)`: its photo rows, then a request to remove its
      directory, then the album row. */
  function Delete(db: Store.Db, album: Album): (r: (Store.Db, seq<FileManager.FileRequest>))
    ensures r.1 == [FileManager.DeleteAlbumDirectory(album.name)]
    ensures Store.Valid(db) ==> Store.Valid(r.0)
  {
    (Store.DeleteAlbum(Store.DeletePhotosByAlbum(db, album.id), album), [FileManager.DeleteAlbumDirectory(album.name)])
  }

  /** One album of the `getAllAlbumsSync` snapshot in `updateAlbumPhotoCounts`:
      recount it, and fill its cover when the SNAPSHOT's cover is null. */
  function FixFromSnapshot(db: Store.Db, album: Album): (r: Store.Db)
    ensures r.photos == db.photos && r.albums.Keys == db.albums.Keys
  {
    var counted := Store.UpdatePhotoCount(db, album.id);
    if album.coverPhotoPath.None? then
      Store.UpdateCoverPhoto(counted, album.id, PathOf(PhotoDao.FirstPhotoInAlbum(counted.photos, album.id)))
    else counted
  }

  /** The ids of the albums of a list. */
  function IdsOf(albums: seq<Album>): (ks: set<int>)
    ensures forall i :: 0 <= i < |albums| ==> albums[i].id in ks
    ensures forall k :: k in ks ==> exists i :: 0 <= i < |albums| && albums[i].id == k
    decreases |albums|
  {
    if albums == [] then {}
    else
      var n := |albums| - 1;
      var front := IdsOf(albums[..n]);
      forall k | k in front ensures exists i :: 0 <= i < |albums| && albums[i].id == k {
        var i :| 0 <= i < n && albums[..n][i].id == k;
        assert albums[i] == albums[..n][i];
      }
      front + {albums[n].id}
  }

  // ---- Properties ----

  /** From a consistent store, creating fails exactly when the name is
      taken; a new album gets a fresh key, no photos and no cover, and
      nothing else changes. */
  lemma CreateAlbumEffect(db: Store.Db, name: string, now: nat)
    requires Store.Valid(db)
    ensures var r := Create(db, name, now);
      && (!r.1 <==> exists k :: k in db.albums && db.albums[k].name == name)
      && (r.1 ==> exists k :: k !in db.albums && r.0.albums == db.albums[k := Album(k, name, now, 0, None)])
      && r.0.photos == db.photos
  {
    var r := Create(db, name, now);
    if r.1 {
      var inserted := Store.InsertAlbum(db, NewAlbum(name, now));
      assert r.0.albums == db.albums[inserted.1.value := Album(inserted.1.value, name, now, 0, None)];
    }
  }

  /** Creating keeps the names unique. */
  lemma CreateAlbumKeepsNamesUnique(db: Store.Db, name: string, now: nat)
    requires Store.Valid(db) && NamesUnique(db.albums)
    ensures NamesUnique(Create(db, name, now).0.albums)
  {
    CreateAlbumEffect(db, name, now);
  }

  /** With unique names, a rename is refused exactly when a different
      album holds the new name. When the caller's record is the stored row,
      only the name changes. */
  lemma RenameAlbumEffect(db: Store.Db, album: Album, newName: string)
    requires Store.Valid(db) && NamesUnique(db.albums)
    ensures var r := Rename(db, album, newName);
      && (!r.1 <==> exists k :: k in db.albums && db.albums[k].name == newName && k != album.id)
      && (r.1 && album.id in db.albums && db.albums[album.id] == album ==>
            r.0.albums == db.albums[album.id := album.(name := newName)])
  {
  }

  /** Renaming keeps the names unique. */
  lemma RenameAlbumKeepsNamesUnique(db: Store.Db, album: Album, newName: string)
    requires Store.Valid(db) && NamesUnique(db.albums)
    ensures NamesUnique(Rename(db, album, newName).0.albums)
  {
    RenameAlbumEffect(db, album, newName);
  }

  /** `updateAlbum` writes the whole record, so a rename through a record
      read before a recount puts the old count back. */
  lemma RenameWritesStaleCount()
    ensures var stored := Album(1, "Trip", 0, 3, None);
      var shown := stored.(photoCount := 2);
      var db := Store.Db(map[1 := stored], map[], 2, 1);
      var r := Rename(db, shown, "Holiday");
      r.1 && r.0.albums[1].photoCount == 2 && r.0.albums[1].name == "Holiday"
  {
    var stored := Album(1, "Trip", 0, 3, None);
    var db := Store.Db(map[1 := stored], map[], 2, 1);
    assert AlbumDao.NamedIds(db.albums, "Holiday") == {};
  }

  /** Deleting an album removes its row and every photo row of it, in the
      bin or not, and nothing else. */
  lemma DeleteAlbumEffect(db: Store.Db, album: Album)
    requires Store.Valid(db) && album.id in db.albums
    ensures var r := Delete(db, album).0;
      && r.albums.Keys == db.albums.Keys - {album.id}
      && (forall k :: k in r.albums ==> r.albums[k] == db.albums[k])
      && (forall k :: k in r.photos <==> k in db.photos && db.photos[k].albumId != album.id)
      && (forall k :: k in r.photos ==> r.photos[k] == db.photos[k])
  {
  }

  /** The comment on `deleteAlbum` expects the album's bin photos to stay
      (to be restored into "Restored" later), but `deletePhotosByAlbum` and
      the cascade remove them: after deleting the album its binned photo is
      gone. */
  lemma DeleteAlbumDropsBinPhotos()
    ensures var a := Album(1, "Trip", 0, 1, None);
      var p := Photo(1, 1, "/v/1.jpg", "1.jpg", 5, 10, 0, 0, true, Some(9));
      var db := Store.Db(map[1 := a], map[1 := p], 2, 2);
      1 !in Delete(db, a).0.photos && PhotoDao.BinIds(Delete(db, a).0.photos) == {}
  {
    var a := Album(1, "Trip", 0, 1, None);
    var p := Photo(1, 1, "/v/1.jpg", "1.jpg", 5, 10, 0, 0, true, Some(9));
    var db := Store.Db(map[1 := a], map[1 := p], 2, 2);
    DeleteAlbumEffect(db, a);
  }

  /** One album of the snapshot, taken from the store the loop started
      from, applied after some albums were already updated: the same as
      adding it to the updated set. Fixing an album twice is harmless. */
  lemma {:induction false} FixStep(start: Store.Db, ks: set<int>, album: Album)
    requires Store.Valid(start) && album.id in start.albums && start.albums[album.id] == album
    ensures FixFromSnapshot(Upkeep.ReconcileEach(start, ks), album) == Upkeep.ReconcileEach(start, ks + {album.id})
  {
    var cur := Upkeep.ReconcileEach(start, ks);
    var k := album.id;
    var lhs := FixFromSnapshot(cur, album);
    var rhs := Upkeep.ReconcileEach(start, ks + {k});
    assert lhs.albums[k] == rhs.albums[k] by {
      if album.coverPhotoPath.None? {
        assert PathOf(PhotoDao.FirstPhotoInAlbum(start.photos, k)) == Upkeep.OldestPath(start.photos, k);
      }
    }
    assert lhs.albums == rhs.albums;
  }

  /** The snapshot names every album once by its own key. */
  lemma AllAlbumsIds(db: Store.Db)
    requires Store.Valid(db)
    ensures IdsOf(AlbumDao.AllAlbums(db.albums)) == db.albums.Keys
  {
    forall k ensures k in IdsOf(AlbumDao.AllAlbums(db.albums)) <==> k in db.albums {
      if k in db.albums {
        SnapshotHas(db, k);
      }
      if k in IdsOf(AlbumDao.AllAlbums(db.albums)) {
        SnapshotStored(db, k);
      }
    }
  }

  /** Every album of the snapshot is stored. */
  lemma SnapshotStored(db: Store.Db, k: int)
    requires Store.Valid(db) && k in IdsOf(AlbumDao.AllAlbums(db.albums))
    ensures k in db.albums
  {
    var list := AlbumDao.AllAlbums(db.albums);
    var i :| 0 <= i < |list| && list[i].id == k;
    SnapshotRow(db, i);
  }

  /** Every stored album is in the snapshot. */
  lemma SnapshotHas(db: Store.Db, k: int)
    requires Store.Valid(db) && k in db.albums
    ensures k in IdsOf(AlbumDao.AllAlbums(db.albums))
  {
    var list := AlbumDao.AllAlbums(db.albums);
    AlbumDao.AllAlbumsComplete(db.albums);
    var i :| 0 <= i < |list| && list[i] == db.albums[k];
    assert list[i].id == k;
  }

  /** Updating the albums of the snapshot updates every album. */
  lemma ReconcileSnapshot(db: Store.Db)
    requires Store.Valid(db)
    ensures Upkeep.ReconcileEach(db, IdsOf(AlbumDao.AllAlbums(db.albums))) == Upkeep.ReconcileEach(db, db.albums.Keys)
  {
    AllAlbumsIds(db);
  }

  /** An album of the snapshot is the stored row under its own key. */
  lemma SnapshotRow(db: Store.Db, i: int)
    requires Store.Valid(db) && 0 <= i < |AlbumDao.AllAlbums(db.albums)|
    ensures var album := AlbumDao.AllAlbums(db.albums)[i];
      album.id in db.albums && db.albums[album.id] == album
  {
    assert AlbumDao.AllAlbums(db.albums)[i] == db.albums[AlbumDao.AlbumOrder(db.albums)[i]];
  }

  /** One more album of the list. */
  lemma IdsOfStep(albums: seq<Album>, i: int)
    requires 0 <= i < |albums|
    ensures IdsOf(albums[..i + 1]) == IdsOf(albums[..i]) + {albums[i].id}
  {
    assert albums[..i + 1][..i] == albums[..i];
  }

  /** The album list screen. */
  class MainViewModel {
    const db: VaultDb.Database

    constructor (db: VaultDb.Database)
      ensures this.db == db
    {
      this.db := db;
    }

    /** `createAlbum(name, callback)`; `created` is the callback's argument. */
    method CreateAlbum(name: string, now: nat) returns (created: bool)
      modifies db
      ensures (db.State(), created) == Create(old(db.State()), name, now)
    {
      var existingAlbum := AlbumDao.AlbumByName(db.albums, name);
      if existingAlbum.Some? {
        return false;
      }
      var r := db.InsertAlbum(NewAlbum(name, now));
      created := r.Ok?;
    }

    /** `renameAlbum(album, newName, callback)` */
    method RenameAlbum(album: Album, newName: string) returns (renamed: bool)
      modifies db
      ensures (db.State(), renamed) == Rename(old(db.State()), album, newName)
    {
      var existingAlbum := AlbumDao.AlbumByName(db.albums, newName);
      if existingAlbum.Some? && existingAlbum.value.id != album.id {
        return false;
      }
      db.UpdateAlbum(album.(name := newName));
      renamed := true;
    }

    /** `deleteAlbum(album)`; `requests` is the directory removal asked
        of the file system. */
    method DeleteAlbum(album: Album) returns (requests: seq<FileManager.FileRequest>)
      modifies db
      ensures (db.State(), requests) == Delete(old(db.State()), album)
    {
      db.DeletePhotosByAlbum(album.id);
      requests := [FileManager.DeleteAlbumDirectory(album.name)];
      db.DeleteAlbum(album);
    }

    /** The body of the loop of `updateAlbumPhotoCounts` for one album. */
    method FixAlbum(album: Album)
      modifies db
      ensures db.State() == FixFromSnapshot(old(db.State()), album)
    {
      db.UpdatePhotoCount(album.id);
      if album.coverPhotoPath.None? {
        var firstPhoto := PhotoDao.FirstPhotoInAlbum(db.photos, album.id);
        db.UpdateCoverPhoto(album.id, PathOf(firstPhoto));
      }
    }

    /** The loop of `updateAlbumPhotoCounts` over a snapshot of stored
        rows. */
    method FixAll(albumsList: seq<Album>)
      requires Store.Valid(db.State())
      requires forall i :: 0 <= i < |albumsList| ==>
                 albumsList[i].id in db.albums && db.albums[albumsList[i].id] == albumsList[i]
      modifies db
      ensures db.State() == Upkeep.ReconcileEach(old(db.State()), IdsOf(albumsList))
    {
      ghost var start := db.State();
      var i := 0;
      while i < |albumsList|
        invariant 0 <= i <= |albumsList|
        invariant db.State() == Upkeep.ReconcileEach(start, IdsOf(albumsList[..i]))
      {
        var album := albumsList[i];
        FixStep(start, IdsOf(albumsList[..i]), album);
        IdsOfStep(albumsList, i);
        FixAlbum(album);
        i := i + 1;
      }
      assert albumsList[..i] == albumsList;
    }

    /** `updateAlbumPhotoCounts`: every album recounted, and given a cover
        when it had none. */
    method UpdateAlbumPhotoCounts()
      requires Store.Valid(db.State())
      modifies db
      ensures db.State() == Upkeep.ReconcileEach(old(db.State()), old(db.albums).Keys)
    {
      ghost var start := db.State();
      var albumsList := AlbumDao.AllAlbums(db.albums);
      forall i | 0 <= i < |albumsList|
        ensures albumsList[i].id in db.albums && db.albums[albumsList[i].id] == albumsList[i]
      {
        SnapshotRow(start, i);
      }
      FixAll(albumsList);
      ReconcileSnapshot(start);
    }
  }
}
