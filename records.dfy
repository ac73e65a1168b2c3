/** The two persisted records of the vault (Photo.kt, Album.kt), the gallery
    item the importer reads (GalleryPhoto.kt) and the reserved album names
    (Constants.kt). Dates are millisecond timestamps, modelled as naturals; a
    Kotlin nullable becomes an Option. */
module Records {

  datatype Option<T> = None | Some(value: T)

  /** Name of the internal album that holds photos which never had a real
      album; restore treats its photos as orphans. */
  const DummyBinAlbumName: string := "__DUMMY_BIN_ALBUM__"

  /** Name of the fallback album that receives orphaned photos on restore. */
  const RestoredAlbumName: string := "Restored"

  /** A row of the `photos` table. `id` is 0 until the store assigns one. */
  datatype Photo = Photo(
    id: int,
    albumId: int,
    filePath: string,
    originalName: string,
    importedDate: nat,
    fileSize: int,
    width: int,
    height: int,
    isDeleted: bool,
    deletedDate: Option<nat>)

  /** A row of the `albums` table. `photoCount` is a cache that the view
      models recompute; `coverPhotoPath` is null until a cover is chosen. */
  datatype Album = Album(
    id: int,
    name: string,
    createdDate: nat,
    photoCount: int,
    coverPhotoPath: Option<string>)

  /** An image offered by the system gallery. */
  datatype GalleryPhoto = GalleryPhoto(
    id: int,
    uri: string,
    displayName: string,
    size: int,
    dateModified: int)

  /** The Photo constructor with the record's defaults for `id`,
      `isDeleted` and `deletedDate`; `importedDate` is the caller's clock. */
  function NewPhoto(albumId: int, filePath: string, originalName: string,
                    importedDate: nat, fileSize: int, width: int, height: int): (p: Photo)
    ensures p.id == 0
    ensures !p.isDeleted && p.deletedDate == None
    ensures p.albumId == albumId && p.filePath == filePath && p.originalName == originalName
    ensures p.importedDate == importedDate && p.fileSize == fileSize
    ensures p.width == width && p.height == height
  {
    Photo(0, albumId, filePath, originalName, importedDate, fileSize, width, height, false, None)
  }

  /** The Photo constructor when the dimensions are left at their defaults. */
  function NewPhotoUnsized(albumId: int, filePath: string, originalName: string,
                           importedDate: nat, fileSize: int): (p: Photo)
    ensures p.width == 0 && p.height == 0
    ensures p.id == 0 && !p.isDeleted && p.deletedDate == None
    ensures p.albumId == albumId && p.filePath == filePath
  {
    NewPhoto(albumId, filePath, originalName, importedDate, fileSize, 0, 0)
  }

  /** The Album constructor with the record's defaults: no id yet, no photos
      counted, no cover. */
  function NewAlbum(name: string, createdDate: nat): (a: Album)
    ensures a.id == 0 && a.photoCount == 0 && a.coverPhotoPath == None
    ensures a.name == name && a.createdDate == createdDate
  {
    Album(0, name, createdDate, 0, None)
  }

  /** `photo?.filePath` */
  function PathOf(p: Option<Photo>): (r: Option<string>)
    ensures r.Some? <==> p.Some?
    ensures p.Some? ==> r.value == p.value.filePath
  {
    match p
    case None => None
    case Some(q) => Some(q.filePath)
  }
}
