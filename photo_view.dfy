/** PhotoViewViewModel.kt: deleting the photo on screen. The view model
    serves the album `albumId`. */
module PhotoView {
  import opened Records
  import PhotoDao
  import AlbumDao
  import Store
  import VaultDb
  import FileManager

  /** `deletePhoto(photo)`: first the file (`deletePhotoFromAppStorage`,
      whose failure `storageThrows` stands for and which skips the rest),
      then the row, then the recount of the view model's album. The result
      is the new store, the file request made, and whether no error was
      posted. */
  function Delete(db: Store.Db, albumId: int, photo: Photo, storageThrows: bool)
    : (r: (Store.Db, seq<FileManager.FileRequest>, bool))
    ensures r.1 == [FileManager.DeleteFile(photo.filePath)]
    ensures r.2 <==> !storageThrows
    ensures Store.Valid(db) ==> Store.Valid(r.0)
  {
    var request := [FileManager.DeleteFile(photo.filePath)];
    if storageThrows then (db, request, false)
    else (Store.UpdatePhotoCount(Store.DeletePhoto(db, photo), albumId), request, true)
  }

  /** A failed file deletion leaves the store as it was. A successful one
      drops the photo's row and no other, recounts the album, and changes
      no album's cover, not even when the cover was the deleted photo. */
  lemma DeletePhotoEffect(db: Store.Db, albumId: int, photo: Photo, storageThrows: bool)
    ensures var r := Delete(db, albumId, photo, storageThrows).0;
      && (storageThrows ==> r == db)
      && (!storageThrows ==>
            && photo.id !in r.photos
            && (forall k :: k in db.photos && k != photo.id ==> k in r.photos && r.photos[k] == db.photos[k])
            && r.albums.Keys == db.albums.Keys
            && (forall k :: k in db.albums ==> r.albums[k].coverPhotoPath == db.albums[k].coverPhotoPath)
            && (albumId in db.albums ==> r.albums[albumId].photoCount == AlbumDao.RowCount(r.photos, albumId)))
  {
  }

  /** The cover is left pointing at the deleted file: deleting an album's
      only photo, which is its cover, leaves a cover path no row has. */
  lemma DeletedCoverDangles()
    ensures var p := Photo(1, 1, "/v/1.jpg", "1.jpg", 5, 10, 0, 0, false, None);
      var a := Album(1, "Trip", 0, 1, Some(p.filePath));
      var db := Store.Db(map[1 := a], map[1 := p], 2, 2);
      var r := Delete(db, 1, p, false).0;
      && r.albums[1].coverPhotoPath == Some("/v/1.jpg")
      && (forall k :: k in r.photos ==> r.photos[k].filePath != "/v/1.jpg")
      && r.albums[1].photoCount == 0
  {
    var p := Photo(1, 1, "/v/1.jpg", "1.jpg", 5, 10, 0, 0, false, None);
    var a := Album(1, "Trip", 0, 1, Some(p.filePath));
    var db := Store.Db(map[1 := a], map[1 := p], 2, 2);
    var r := Delete(db, 1, p, false).0;
    assert r.photos == map[];
    assert AlbumDao.AlbumRowIds(r.photos, 1) == {};
  }

  /** The full-screen photo viewer of one album. */
  class PhotoViewModel {
    const db: VaultDb.Database
    const albumId: int

    constructor (db: VaultDb.Database, albumId: int)
      ensures this.db == db && this.albumId == albumId
    {
      this.db := db;
      this.albumId := albumId;
    }

    /** `deletePhoto(photo)` */
    method DeletePhoto(photo: Photo, storageThrows: bool) returns (requests: seq<FileManager.FileRequest>, ok: bool)
      modifies db
      ensures (db.State(), requests, ok) == Delete(old(db.State()), albumId, photo, storageThrows)
    {
      requests := [FileManager.DeleteFile(photo.filePath)];
      if storageThrows {
        return requests, false;
      }
      db.DeletePhoto(photo);
      db.UpdatePhotoCount(albumId);
      ok := true;
    }
  }
}
