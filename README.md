# PhotoVault locker: a verified model of the photo and album engine

PhotoVault keeps a user's private photos in albums inside the app's own
storage, behind an app password. Photos are copied in from the device
gallery. A photo can be moved to another album, or moved to a bin, where
it can be restored or purged. Every album carries a stored photo count and
a cover photo path. The view models keep both in step with the photo rows
after each operation.

This project models that engine in Dafny and proves properties of it:

- **The Room store** (`Store`, `VaultDb`). The two tables are maps from
  key to row, and the queries of `PhotoDao` and `AlbumDao` are functions
  on them. `Store.Valid` holds the database's invariants:
  - every row sits under its own key;
  - keys are below the AUTOINCREMENT counters and are never 0;
  - every photo's album exists, because the foreign key with
    `ON DELETE CASCADE` is enforced.

  Every writing DAO method keeps `Valid`. A write the foreign key rejects
  returns an error and changes nothing. `VaultDb.Database` is the
  database as an object: its fields are changed in place, and each method
  is proved to leave exactly the state the matching `Store` function gives.
- **The view models** (`AlbumView`, `Bin`, `MainView`, `PhotoView`,
  `PhotoImport`). Each is a class over the database object; `Upkeep`
  holds the count and cover recomputation they share, as functions.
  Each method is proved equal to a function on the database value. The
  lemmas state what the operation does to the rows, the counts and the
  covers.
- **The utilities**:
  - `FileManager`: file names are generated from a clock reading and a
    random number. The batch gallery deletion is classified into its
    three results.
  - `Passwords`: the password is stored as the hex text of a digest.
  - `Ads`: persistent 32-bit counters, with wrap-around, decide when an
    ad is due.
- **The selection state** of the two photo grids (`Selection`,
  `PhotoGrid`, `GalleryGrid`).

Everything the app gets from outside becomes a parameter of the model:

- the clock: `now`, and one reading per `movePhotoToBin` call;
- the random number of a file name;
- whether a copy, a decode or a direct delete succeeded;
- the digest function;
- whether the ad SDK completes.

File-system effects come back as a list of `FileManager.FileRequest`
values: files to delete and album directories to remove.

Two query-order details are resolved in the model:

- Every `ORDER BY` breaks ties by ascending key.
- `getAlbumByName` has no `LIMIT`; Room returns the first row of the
  cursor, and SQLite leaves which matching row that is unspecified. The
  model picks the matching album with the smallest key.

## Model

Source paths are relative to the repository root.

| member | source | states |
|---|---|---|
| Records.NewPhoto | app/src/main/java/com/photovault/locker/models/Photo.kt:22-52 | a new photo has no key yet (0), is not in the bin and has no deleted date; every other field is the caller's |
| Records.NewPhotoUnsized | app/src/main/java/com/photovault/locker/models/Photo.kt:41-45 | width and height that are not given default to 0 |
| Records.NewAlbum | app/src/main/java/com/photovault/locker/models/Album.kt:8-24 | a new album has no key yet, a photo count of 0 and no cover, with the given name and creation time |
| Records.PathOf | app/src/main/java/com/photovault/locker/viewmodels/PhotoImportViewModel.kt:107 | `firstPhoto?.filePath` is present exactly when the photo is, and is then its path |
| PhotoDao.PhotoById | app/src/main/java/com/photovault/locker/database/PhotoDao.kt:16-17 | a row is returned exactly when one has that key, and it is that row |
| PhotoDao.PhotosByAlbum | app/src/main/java/com/photovault/locker/database/PhotoDao.kt:10-14 | exactly the album's rows outside the bin, each once, newest import first |
| PhotoDao.PhotoCountByAlbum | app/src/main/java/com/photovault/locker/database/PhotoDao.kt:19-20 | the count is the length of the list `getPhotosByAlbum` returns |
| PhotoDao.FirstPhotoInAlbum | app/src/main/java/com/photovault/locker/database/PhotoDao.kt:40-41 | null exactly when the album has no row outside the bin; otherwise such a row imported no later than any other |
| PhotoDao.PhotosInBin | app/src/main/java/com/photovault/locker/database/PhotoDao.kt:47-48 | exactly the bin rows, each once, most recently deleted first, rows with no deleted date last |
| PhotoDao.MoveToBinTouchesOneRow | app/src/main/java/com/photovault/locker/database/PhotoDao.kt:44-45 | `movePhotoToBin` sets the two bin columns of its row and changes no other row |
| PhotoDao.RestoreTouchesOneRow | app/src/main/java/com/photovault/locker/database/PhotoDao.kt:50-51 | `restorePhotoFromBin` clears the two bin columns of its row and changes no other row |
| PhotoDao.DeleteByAlbumRemovesExactly | app/src/main/java/com/photovault/locker/database/PhotoDao.kt:37-38 | exactly the album's rows go, bin rows included; the rest keep their values |
| PhotoDao.ClearUndoesMark | app/src/main/java/com/photovault/locker/database/PhotoDao.kt:44-51 | restoring photos just moved to the bin gives back the table as it was |
| AlbumDao.AllAlbums | app/src/main/java/com/photovault/locker/database/AlbumDao.kt:13-14 | one entry per album, each the stored row |
| AlbumDao.AllAlbumsSorted | app/src/main/java/com/photovault/locker/database/AlbumDao.kt:10-14 | the albums come newest first |
| AlbumDao.AllAlbumsComplete | app/src/main/java/com/photovault/locker/database/AlbumDao.kt:10-14 | every stored album is listed |
| AlbumDao.AlbumOrderSorted | app/src/main/java/com/photovault/locker/database/AlbumDao.kt:10-11 | the key order behind the list is by descending creation date |
| AlbumDao.AlbumById | app/src/main/java/com/photovault/locker/database/AlbumDao.kt:16-17 | the row is returned exactly when one has that key |
| AlbumDao.AlbumByName | app/src/main/java/com/photovault/locker/database/AlbumDao.kt:19-20 | null exactly when no album has the name; otherwise an album with that name, the one with the smallest key |
| AlbumDao.CoverPhotoSync | app/src/main/java/com/photovault/locker/viewmodels/AlbumViewViewModel.kt:138-140 | the album's cover path, null when the album does not exist |
| AlbumDao.RowCount | app/src/main/java/com/photovault/locker/database/AlbumDao.kt:31-32 | the count `updatePhotoCount` stores, which is at least the number of photos the album shows |
| AlbumDao.RowCountCountsBin | app/src/main/java/com/photovault/locker/database/AlbumDao.kt:31-32 | the stored count is the shown count plus the album's bin rows, and it exceeds the shown count exactly when the album has a photo in the bin |
| Store.InsertPhoto | app/src/main/java/com/photovault/locker/database/PhotoDao.kt:22-23 | fails with a foreign-key violation and changes nothing exactly when the album is missing; otherwise the row is written under its key, replacing any row already there; a new photo gets a key not in use; no other row changes; `Valid` is kept |
| Store.InsertPhotoReplaces | app/src/main/java/com/photovault/locker/database/PhotoDao.kt:22-23 | inserting a photo whose key exists replaces that row and adds none |
| Store.InsertPhotos | app/src/main/java/com/photovault/locker/database/PhotoDao.kt:25-26 | one key per photo on success; on failure the whole batch is rolled back; `Valid` is kept |
| Store.InsertPhotosFailsIff | app/src/main/java/com/photovault/locker/database/PhotoDao.kt:25-26 | the batch fails exactly when some photo names a missing album |
| Store.FailureSticks | app/src/main/java/com/photovault/locker/database/PhotoDao.kt:25-26 | once a prefix of the batch fails, the whole batch fails with that error and leaves the store as it was |
| Store.UpdatePhoto | app/src/main/java/com/photovault/locker/database/PhotoDao.kt:28-29 | a missing row is a no-op; a missing album is a foreign-key failure with no change; otherwise the row is replaced |
| Store.DeletePhotoById | app/src/main/java/com/photovault/locker/database/PhotoDao.kt:34-35 | exactly that row is removed |
| Store.DeletePhoto | app/src/main/java/com/photovault/locker/database/PhotoDao.kt:31-32 | the row under the photo's key is removed and no other |
| Store.DeletePhotosByAlbum | app/src/main/java/com/photovault/locker/database/PhotoDao.kt:37-38 | exactly the rows of the album are removed |
| Store.MovePhotoToBin | app/src/main/java/com/photovault/locker/database/PhotoDao.kt:44-45 | the row is marked deleted at the given time; nothing else changes |
| Store.RestorePhotoFromBin | app/src/main/java/com/photovault/locker/database/PhotoDao.kt:50-51 | the row's bin mark and date are cleared; nothing else changes |
| Store.RestorePhotosFromBin | app/src/main/java/com/photovault/locker/viewmodels/BinViewModel.kt:89-90 | the batch restore called here, which `PhotoDao` does not declare, clears the bin columns of exactly the listed rows |
| Store.PermanentlyDeletePhotos | app/src/main/java/com/photovault/locker/viewmodels/BinViewModel.kt:165-166 | the batch delete called here, which `PhotoDao` does not declare, removes exactly the listed rows |
| Store.PermanentlyDeletePhotosInBin | app/src/main/java/com/photovault/locker/database/PhotoDao.kt:53-54 | exactly the bin rows are removed |
| Store.InsertAlbum | app/src/main/java/com/photovault/locker/database/AlbumDao.kt:22-23 | a key already in use aborts with a conflict and no change; otherwise the album is added under its key; a new album (key 0) always succeeds |
| Store.UpdateAlbum | app/src/main/java/com/photovault/locker/database/AlbumDao.kt:25-26 | the stored row is replaced with the given one; a missing album is a no-op |
| Store.DeleteAlbum | app/src/main/java/com/photovault/locker/database/AlbumDao.kt:28-29 | the album goes, and with it every photo row of the album through the cascade |
| Store.CascadeMatchesPhotoDelete | app/src/main/java/com/photovault/locker/models/Photo.kt:12-18 | the cascade leaves no photo pointing at the deleted album, and deleting the album's photos first changes nothing |
| Store.UpdatePhotoCount | app/src/main/java/com/photovault/locker/database/AlbumDao.kt:31-32 | only the album's count changes, to the number of its photo rows |
| Store.UpdatePhotoCountIdempotent | app/src/main/java/com/photovault/locker/database/AlbumDao.kt:31-32 | recounting twice is the same as recounting once |
| Store.UpdateCoverPhoto | app/src/main/java/com/photovault/locker/database/AlbumDao.kt:34-35 | only the album's cover changes, to the given path or null |
| VaultDb.Database.constructor | app/src/main/java/com/photovault/locker/database/PhotoVaultDatabase.kt:11-20 | a new database is empty and valid |
| VaultDb.Database.InsertPhoto | app/src/main/java/com/photovault/locker/database/PhotoDao.kt:22-23 | the object's new state and result are those of `Store.InsertPhoto` |
| VaultDb.Database.InsertPhotos | app/src/main/java/com/photovault/locker/database/PhotoDao.kt:25-26 | the row-by-row loop with a rollback on failure ends in the state and result of `Store.InsertPhotos` |
| VaultDb.Database.UpdatePhoto | app/src/main/java/com/photovault/locker/database/PhotoDao.kt:28-29 | in place, as `Store.UpdatePhoto` |
| VaultDb.Database.DeletePhoto | app/src/main/java/com/photovault/locker/database/PhotoDao.kt:31-32 | in place, as `Store.DeletePhoto` |
| VaultDb.Database.DeletePhotoById | app/src/main/java/com/photovault/locker/database/PhotoDao.kt:34-35 | in place, as `Store.DeletePhotoById` |
| VaultDb.Database.DeletePhotosByAlbum | app/src/main/java/com/photovault/locker/database/PhotoDao.kt:37-38 | in place, as `Store.DeletePhotosByAlbum` |
| VaultDb.Database.MovePhotoToBin | app/src/main/java/com/photovault/locker/database/PhotoDao.kt:44-45 | in place, as `Store.MovePhotoToBin` |
| VaultDb.Database.RestorePhotoFromBin | app/src/main/java/com/photovault/locker/database/PhotoDao.kt:50-51 | in place, as `Store.RestorePhotoFromBin` |
| VaultDb.Database.RestorePhotosFromBin | app/src/main/java/com/photovault/locker/viewmodels/BinViewModel.kt:89-90 | in place, as `Store.RestorePhotosFromBin` |
| VaultDb.Database.PermanentlyDeletePhotos | app/src/main/java/com/photovault/locker/viewmodels/BinViewModel.kt:165-166 | in place, as `Store.PermanentlyDeletePhotos` |
| VaultDb.Database.PermanentlyDeletePhotosInBin | app/src/main/java/com/photovault/locker/database/PhotoDao.kt:53-54 | in place, as `Store.PermanentlyDeletePhotosInBin` |
| VaultDb.Database.InsertAlbum | app/src/main/java/com/photovault/locker/database/AlbumDao.kt:22-23 | in place, as `Store.InsertAlbum` |
| VaultDb.Database.UpdateAlbum | app/src/main/java/com/photovault/locker/database/AlbumDao.kt:25-26 | in place, as `Store.UpdateAlbum` |
| VaultDb.Database.DeleteAlbum | app/src/main/java/com/photovault/locker/database/AlbumDao.kt:28-29 | in place, as `Store.DeleteAlbum` |
| VaultDb.Database.UpdatePhotoCount | app/src/main/java/com/photovault/locker/database/AlbumDao.kt:31-32 | in place, as `Store.UpdatePhotoCount` |
| VaultDb.Database.UpdateCoverPhoto | app/src/main/java/com/photovault/locker/database/AlbumDao.kt:34-35 | in place, as `Store.UpdateCoverPhoto` |
| Upkeep.OldestPath | app/src/main/java/com/photovault/locker/viewmodels/MainViewModel.kt:78-80 | null exactly when the album shows no photo; otherwise the path of a shown photo with the oldest import date |
| Upkeep.Reconciled | app/src/main/java/com/photovault/locker/viewmodels/MainViewModel.kt:74-82 | the album keeps its key, name and date; its count becomes its row count; a set cover is kept and a null cover becomes the oldest shown photo's path |
| Upkeep.FillCover | app/src/main/java/com/photovault/locker/viewmodels/PhotoImportViewModel.kt:103-109 | a set cover is left alone; a null cover gets the oldest shown photo's path; nothing else changes |
| Upkeep.Reconcile | app/src/main/java/com/photovault/locker/viewmodels/PhotoImportViewModel.kt:100-109 | the recount followed by the cover fill brings exactly that album to its reconciled form |
| Upkeep.ReconcileEach | app/src/main/java/com/photovault/locker/viewmodels/MainViewModel.kt:73-82 | exactly the listed albums are brought to their reconciled form |
| Upkeep.ReconciledIdempotent | app/src/main/java/com/photovault/locker/viewmodels/MainViewModel.kt:74-82 | reconciling an album twice is the same as once |
| Upkeep.ReconcileStep | app/src/main/java/com/photovault/locker/viewmodels/BinViewModel.kt:97-106 | fixing one more album after a set of them is fixing the larger set |
| Upkeep.ReconcileEachValid | app/src/main/java/com/photovault/locker/viewmodels/MainViewModel.kt:73-82 | the fix-up keeps the store valid |
| AlbumView.CoverInSome | app/src/main/java/com/photovault/locker/viewmodels/AlbumViewViewModel.kt:92-106 | `isCoverPhotoBeingMoved` ends true exactly when some listed photo that exists has the cover's path |
| AlbumView.RederiveCover | app/src/main/java/com/photovault/locker/viewmodels/AlbumViewViewModel.kt:142-160 | the cover becomes the oldest remaining shown photo, or null exactly when none is left |
| AlbumView.ReassignSkipsMissing | app/src/main/java/com/photovault/locker/viewmodels/AlbumViewViewModel.kt:93-105 | listed ids with no row are skipped |
| AlbumView.MoveToAlbum | app/src/main/java/com/photovault/locker/viewmodels/AlbumViewViewModel.kt:85-136 | the move fails exactly when the target is missing and some listed photo exists, and a failure changes nothing; `Valid` is kept |
| AlbumView.Settle | app/src/main/java/com/photovault/locker/viewmodels/AlbumViewViewModel.kt:108-129 | the steps after the loop keep the store valid |
| AlbumView.MoveToAlbumRows | app/src/main/java/com/photovault/locker/viewmodels/AlbumViewViewModel.kt:92-106 | exactly the listed photos that exist are reassigned, no other field or row changes, and only the two albums change |
| AlbumView.MoveToAlbumSource | app/src/main/java/com/photovault/locker/viewmodels/AlbumViewViewModel.kt:108-115 | the source is recounted, and its cover is re-derived exactly when the cover photo was moved |
| AlbumView.MoveToAlbumTarget | app/src/main/java/com/photovault/locker/viewmodels/AlbumViewViewModel.kt:114-126 | the target is recounted, a set cover is kept, and a null cover becomes its oldest shown photo |
| AlbumView.BinEach | app/src/main/java/com/photovault/locker/viewmodels/AlbumViewViewModel.kt:169-182 | the bin loop keeps every row and album and keeps `Valid` |
| AlbumView.BinEachRows | app/src/main/java/com/photovault/locker/viewmodels/AlbumViewViewModel.kt:169-182 | exactly the listed rows go to the bin, each dated by one of its own calls; no other column or row changes |
| AlbumView.MoveToBin | app/src/main/java/com/photovault/locker/viewmodels/AlbumViewViewModel.kt:162-200 | moving photos to the bin keeps the store valid |
| AlbumView.MoveToBinEffect | app/src/main/java/com/photovault/locker/viewmodels/AlbumViewViewModel.kt:162-193 | rows and their albums are kept, the listed photos are in the bin, other albums are untouched, and the cover is re-derived exactly when its photo was binned |
| AlbumView.MoveToBinKeepsCount | app/src/main/java/com/photovault/locker/viewmodels/AlbumViewViewModel.kt:189-193 | the count stored after the move equals the album's row count before it |
| AlbumView.BinnedPhotosStillCounted | app/src/main/java/com/photovault/locker/viewmodels/AlbumViewViewModel.kt:162-193 | with both photos of an album binned, its stored count stays 2 while it shows none |
| AlbumView.AlbumViewModel.constructor | app/src/main/java/com/photovault/locker/viewmodels/AlbumViewViewModel.kt:16-24 | the view model is bound to its database and album |
| AlbumView.AlbumViewModel.RefreshPhotos | app/src/main/java/com/photovault/locker/viewmodels/AlbumViewViewModel.kt:42-59 | the album is recounted and nothing else changes |
| AlbumView.AlbumViewModel.SetCoverPhoto | app/src/main/java/com/photovault/locker/viewmodels/AlbumViewViewModel.kt:61-71 | the album's cover becomes the photo's path |
| AlbumView.AlbumViewModel.UpdateCoverPhotoAfterMove | app/src/main/java/com/photovault/locker/viewmodels/AlbumViewViewModel.kt:142-160 | in place, as `RederiveCover` |
| AlbumView.AlbumViewModel.MovePhotosToAlbum | app/src/main/java/com/photovault/locker/viewmodels/AlbumViewViewModel.kt:85-136 | in place, as `MoveToAlbum`, including its failure |
| AlbumView.AlbumViewModel.ReassignAll | app/src/main/java/com/photovault/locker/viewmodels/AlbumViewViewModel.kt:92-106 | the loop reassigns the listed photos or stops at the foreign-key failure, and computes `isCoverPhotoBeingMoved` |
| AlbumView.AlbumViewModel.ReassignOne | app/src/main/java/com/photovault/locker/viewmodels/AlbumViewViewModel.kt:93-105 | one pass of the loop: look the photo up, note a cover hit, and update its album or fail |
| AlbumView.AlbumViewModel.SettleMove | app/src/main/java/com/photovault/locker/viewmodels/AlbumViewViewModel.kt:108-129 | in place, as `Settle` |
| AlbumView.AlbumViewModel.MovePhotosToBin | app/src/main/java/com/photovault/locker/viewmodels/AlbumViewViewModel.kt:162-200 | in place, as `MoveToBin` |
| AlbumView.AlbumViewModel.BinAll | app/src/main/java/com/photovault/locker/viewmodels/AlbumViewViewModel.kt:169-182 | the loop leaves the state of `BinEach` and computes `isCoverPhotoBeingMoved` |
| AlbumView.AlbumViewModel.BinOne | app/src/main/java/com/photovault/locker/viewmodels/AlbumViewViewModel.kt:170-181 | one pass of the loop: note a cover hit and move the row to the bin |
| Bin.Orphans | app/src/main/java/com/photovault/locker/viewmodels/BinViewModel.kt:58-72 | exactly the listed photos whose album is missing or is the dummy bin album |
| Bin.OrphanIffInDummy | app/src/main/java/com/photovault/locker/viewmodels/BinViewModel.kt:65-70 | in a valid store, a photo is an orphan exactly when it belongs to the dummy album |
| Bin.GetOrCreateRestored | app/src/main/java/com/photovault/locker/viewmodels/BinViewModel.kt:119-135 | an existing "Restored" album is returned unchanged; otherwise a new, empty one is created under a fresh key; in a valid store this always succeeds |
| Bin.Rehome | app/src/main/java/com/photovault/locker/viewmodels/BinViewModel.kt:74-87 | rehoming keeps every photo row and keeps `Valid` |
| Bin.MovedKeepsAlbums | app/src/main/java/com/photovault/locker/viewmodels/BinViewModel.kt:74-87 | rehoming succeeds, keeps every album and leaves the dummy album as it was |
| Bin.NoOrphansNoNewAlbum | app/src/main/java/com/photovault/locker/viewmodels/BinViewModel.kt:74-76 | with no orphans, no album is created |
| Bin.AlbumIdsOf | app/src/main/java/com/photovault/locker/viewmodels/BinViewModel.kt:93-95 | the distinct albums of the listed photos that exist |
| Bin.KeptIds | app/src/main/java/com/photovault/locker/viewmodels/BinViewModel.kt:97-99 | the albums the fix-up loop does not skip as the dummy album |
| Bin.Touched | app/src/main/java/com/photovault/locker/viewmodels/BinViewModel.kt:93-99 | the albums of the restored photos other than the dummy album |
| Bin.Restore | app/src/main/java/com/photovault/locker/viewmodels/BinViewModel.kt:49-117 | restoring keeps the store valid |
| Bin.RestoreSucceeds | app/src/main/java/com/photovault/locker/viewmodels/BinViewModel.kt:49-117 | in a valid store, restoring reports success |
| Bin.RestorePhotosEffect | app/src/main/java/com/photovault/locker/viewmodels/BinViewModel.kt:79-90 | exactly the listed photos leave the bin; a non-orphan keeps its album and an orphan lands in "Restored"; no other row changes |
| Bin.RestoreUpdatesAlbums | app/src/main/java/com/photovault/locker/viewmodels/BinViewModel.kt:92-106 | every album a restored photo is in, except the dummy album, is recounted; its cover is kept when set and otherwise becomes the path of its oldest shown photo; the dummy album and every album no restored photo is in keep their rows; no album is lost |
| Bin.Found | app/src/main/java/com/photovault/locker/viewmodels/BinViewModel.kt:144-148 | exactly the rows of the listed ids that exist |
| Bin.FileRequests | app/src/main/java/com/photovault/locker/viewmodels/BinViewModel.kt:151-163 | one file deletion per found photo, in order, for its path |
| Bin.PermanentDeleteEffect | app/src/main/java/com/photovault/locker/viewmodels/BinViewModel.kt:137-177 | a file is deleted exactly for each listed photo; exactly the listed rows go; the albums are not touched |
| Bin.PurgeLeavesStaleCount | app/src/main/java/com/photovault/locker/viewmodels/BinViewModel.kt:165-166 | after purging an album's only photo, its stored count stays 1 while it has no row |
| Bin.BinViewModel.constructor | app/src/main/java/com/photovault/locker/viewmodels/BinViewModel.kt:19-24 | the view model is bound to its database |
| Bin.BinViewModel.GetOrCreateRestoredAlbum | app/src/main/java/com/photovault/locker/viewmodels/BinViewModel.kt:119-135 | in place, as `GetOrCreateRestored` |
| Bin.BinViewModel.UpdateAlbumInfo | app/src/main/java/com/photovault/locker/viewmodels/BinViewModel.kt:99-105 | one pass of the fix-up loop, as `Upkeep.Reconcile` |
| Bin.BinViewModel.UpdateAlbums | app/src/main/java/com/photovault/locker/viewmodels/BinViewModel.kt:97-106 | the fix-up loop reconciles exactly the kept albums |
| Bin.BinViewModel.FindOrphans | app/src/main/java/com/photovault/locker/viewmodels/BinViewModel.kt:58-72 | the loop collects `Orphans` |
| Bin.BinViewModel.RehomeOrphans | app/src/main/java/com/photovault/locker/viewmodels/BinViewModel.kt:74-87 | in place, as `Rehome` |
| Bin.BinViewModel.CollectAlbumIds | app/src/main/java/com/photovault/locker/viewmodels/BinViewModel.kt:93-95 | the loop collects `AlbumIdsOf` |
| Bin.BinViewModel.RestorePhotos | app/src/main/java/com/photovault/locker/viewmodels/BinViewModel.kt:49-117 | in place, as `Restore` |
| Bin.BinViewModel.PermanentlyDeletePhotos | app/src/main/java/com/photovault/locker/viewmodels/BinViewModel.kt:137-177 | the file requests of the found photos, and the rows deleted as `Store.PermanentlyDeletePhotos` |
| MainView.Create | app/src/main/java/com/photovault/locker/viewmodels/MainViewModel.kt:26-49 | a refused creation changes nothing; `Valid` is kept |
| MainView.CreateAlbumEffect | app/src/main/java/com/photovault/locker/viewmodels/MainViewModel.kt:30-43 | creation is refused exactly when the name is taken; otherwise one new empty album with that name and time is added under a fresh key; photos are untouched |
| MainView.CreateAlbumKeepsNamesUnique | app/src/main/java/com/photovault/locker/viewmodels/MainViewModel.kt:30-43 | creating keeps album names unique |
| MainView.Rename | app/src/main/java/com/photovault/locker/viewmodels/MainViewModel.kt:89-108 | a refused rename changes nothing; photos and album keys are kept |
| MainView.RenameAlbumEffect | app/src/main/java/com/photovault/locker/viewmodels/MainViewModel.kt:92-102 | renaming is refused exactly when another album has the name; otherwise the album gets the new name |
| MainView.RenameAlbumKeepsNamesUnique | app/src/main/java/com/photovault/locker/viewmodels/MainViewModel.kt:92-102 | renaming keeps album names unique |
| MainView.RenameWritesStaleCount | app/src/main/java/com/photovault/locker/viewmodels/MainViewModel.kt:100-102 | renaming from an out-of-date copy of the album writes that copy's count back |
| MainView.Delete | app/src/main/java/com/photovault/locker/viewmodels/MainViewModel.kt:51-68 | the album's directory is removed; `Valid` is kept |
| MainView.DeleteAlbumEffect | app/src/main/java/com/photovault/locker/viewmodels/MainViewModel.kt:57-63 | exactly that album and all its photo rows go; nothing else changes |
| MainView.DeleteAlbumDropsBinPhotos | app/src/main/java/com/photovault/locker/viewmodels/MainViewModel.kt:54-57 | deleting an album also deletes its photos in the bin |
| MainView.FixFromSnapshot | app/src/main/java/com/photovault/locker/viewmodels/MainViewModel.kt:74-82 | one pass of the loop keeps the photos and album keys |
| MainView.FixStep | app/src/main/java/com/photovault/locker/viewmodels/MainViewModel.kt:74-82 | fixing one album of the snapshot adds it to the reconciled set |
| MainView.AllAlbumsIds | app/src/main/java/com/photovault/locker/viewmodels/MainViewModel.kt:73 | the snapshot covers every album's key |
| MainView.SnapshotRow | app/src/main/java/com/photovault/locker/viewmodels/MainViewModel.kt:73-74 | each snapshot entry is the stored row |
| MainView.ReconcileSnapshot | app/src/main/java/com/photovault/locker/viewmodels/MainViewModel.kt:73-82 | reconciling the snapshot's albums is reconciling every album |
| MainView.MainViewModel.constructor | app/src/main/java/com/photovault/locker/viewmodels/MainViewModel.kt:14-19 | the view model is bound to its database |
| MainView.MainViewModel.CreateAlbum | app/src/main/java/com/photovault/locker/viewmodels/MainViewModel.kt:26-49 | in place, as `Create` |
| MainView.MainViewModel.RenameAlbum | app/src/main/java/com/photovault/locker/viewmodels/MainViewModel.kt:89-108 | in place, as `Rename` |
| MainView.MainViewModel.DeleteAlbum | app/src/main/java/com/photovault/locker/viewmodels/MainViewModel.kt:51-68 | in place, as `Delete` |
| MainView.MainViewModel.FixAlbum | app/src/main/java/com/photovault/locker/viewmodels/MainViewModel.kt:75-81 | one pass of the loop, as `FixFromSnapshot` |
| MainView.MainViewModel.FixAll | app/src/main/java/com/photovault/locker/viewmodels/MainViewModel.kt:74-82 | the loop reconciles exactly the albums of the snapshot |
| MainView.MainViewModel.UpdateAlbumPhotoCounts | app/src/main/java/com/photovault/locker/viewmodels/MainViewModel.kt:70-87 | every album ends up reconciled |
| PhotoView.Delete | app/src/main/java/com/photovault/locker/viewmodels/PhotoViewViewModel.kt:30-46 | one file deletion for the photo's path; success exactly when the storage call does not throw; `Valid` is kept |
| PhotoView.DeletePhotoEffect | app/src/main/java/com/photovault/locker/viewmodels/PhotoViewViewModel.kt:33-44 | a throw changes nothing; otherwise exactly that row goes, covers are untouched and the album is recounted |
| PhotoView.DeletedCoverDangles | app/src/main/java/com/photovault/locker/viewmodels/PhotoViewViewModel.kt:30-46 | deleting the cover photo leaves the cover path pointing at the deleted file |
| PhotoView.PhotoViewModel.constructor | app/src/main/java/com/photovault/locker/viewmodels/PhotoViewViewModel.kt:15-23 | the view model is bound to its database and album |
| PhotoView.PhotoViewModel.DeletePhoto | app/src/main/java/com/photovault/locker/viewmodels/PhotoViewViewModel.kt:30-46 | in place, as `Delete` |
| PhotoImport.ImportedPhoto | app/src/main/java/com/photovault/locker/viewmodels/PhotoImportViewModel.kt:58-72 | the new row has the vault path, the copied file's own name, the gallery size, the decoded bounds and the clock |
| PhotoImport.ImportItem | app/src/main/java/com/photovault/locker/viewmodels/PhotoImportViewModel.kt:48-95 | a failed copy only reports progress; a foreign-key failure is skipped without progress; otherwise the row is inserted, one success is counted and progress is reported |
| PhotoImport.ItemAddsRow | app/src/main/java/com/photovault/locker/viewmodels/PhotoImportViewModel.kt:75-83 | each counted success adds exactly one new row and changes none of the old ones |
| PhotoImport.ImportLoop | app/src/main/java/com/photovault/locker/viewmodels/PhotoImportViewModel.kt:47-96 | the loop counts at most one success per item and keeps the albums and `Valid` |
| PhotoImport.CopiedCount | app/src/main/java/com/photovault/locker/viewmodels/PhotoImportViewModel.kt:52-54 | the number of items whose copy yields a path |
| PhotoImport.Progress | app/src/main/java/com/photovault/locker/viewmodels/PhotoImportViewModel.kt:89 | the progress after item `i` is `(i + 1) * 100 / total`, truncated |
| PhotoImport.ImportOutcome | app/src/main/java/com/photovault/locker/viewmodels/PhotoImportViewModel.kt:47-96 | into an existing album, the success count is the number of copies and every item reports progress; into a missing album nothing is inserted |
| PhotoImport.ProgressReachesEnd | app/src/main/java/com/photovault/locker/viewmodels/PhotoImportViewModel.kt:89 | the last progress value reported is 100 |
| PhotoImport.ImportAddsRows | app/src/main/java/com/photovault/locker/viewmodels/PhotoImportViewModel.kt:47-96 | the import adds exactly as many rows as it counts successes and changes no old row |
| PhotoImport.ImportedRowsFromItems | app/src/main/java/com/photovault/locker/viewmodels/PhotoImportViewModel.kt:61-75 | every new row belongs to the album, is outside the bin, is named after its own file and comes from one of the items |
| PhotoImport.ImportViewModel.constructor | app/src/main/java/com/photovault/locker/viewmodels/PhotoImportViewModel.kt:18-36 | the view model starts with no progress and no result |
| PhotoImport.ImportViewModel.ImportPhotos | app/src/main/java/com/photovault/locker/viewmodels/PhotoImportViewModel.kt:39-124 | the loop, then the album's recount and cover fill; the result pair is (some success, success count) |
| PhotoImport.ImportViewModel.ImportAll | app/src/main/java/com/photovault/locker/viewmodels/PhotoImportViewModel.kt:47-96 | the loop leaves the state, count and progress of `ImportLoop` |
| PhotoImport.ImportViewModel.FinishImport | app/src/main/java/com/photovault/locker/viewmodels/PhotoImportViewModel.kt:100-109 | in place, as `Upkeep.Reconcile` |
| PhotoImport.ImportViewModel.ImportOne | app/src/main/java/com/photovault/locker/viewmodels/PhotoImportViewModel.kt:48-95 | one pass of the loop, as `ImportItem` |
| PhotoImport.ImportViewModel.CopyAndInsert | app/src/main/java/com/photovault/locker/viewmodels/PhotoImportViewModel.kt:52-75 | a failed copy changes nothing; otherwise the row is inserted and a foreign-key failure is reported |
| FileManager.FormatTimestamp | app/src/main/java/com/photovault/locker/utils/FileManager.kt:202 | the timestamp text holds no '/' |
| FileManager.TimestampLayout | app/src/main/java/com/photovault/locker/utils/FileManager.kt:202 | `yyyyMMdd_HHmmss`: 15 characters whose fields read back as the date and time |
| FileManager.GenerateUniqueFileName | app/src/main/java/com/photovault/locker/utils/FileManager.kt:201-205 | `IMG_<timestamp>_<random>.jpg` with no '/', whose four digits before `.jpg` read back as the random number |
| FileManager.FileNameRoundTrip | app/src/main/java/com/photovault/locker/utils/FileManager.kt:201-205 | the name is 28 characters, and its fields read back as the year, month, day, hour, minute and second |
| FileManager.FileName | app/src/main/java/com/photovault/locker/viewmodels/PhotoImportViewModel.kt:61 | `File(path).name` is the part of the path after the last '/' |
| FileManager.FileNameOfJoin | app/src/main/java/com/photovault/locker/utils/FileManager.kt:38-39 | the name of a file made in a directory is the name it was given |
| FileManager.CopyPhotoToAppStorage | app/src/main/java/com/photovault/locker/utils/FileManager.kt:32-52 | null exactly when a step threw; otherwise exactly `<photos dir>/<album name>/<generated name>`, whose file name is the generated one; a missing input stream still returns the path |
| FileManager.ImageDimensions | app/src/main/java/com/photovault/locker/utils/FileManager.kt:188-199 | the decoded bounds, or (0, 0) when the decode throws |
| FileManager.Remaining | app/src/main/java/com/photovault/locker/utils/FileManager.kt:63-84 | the uris the direct loop could not delete, at most all of them |
| FileManager.DeletedCount | app/src/main/java/com/photovault/locker/utils/FileManager.kt:63-84 | the number of direct deletes that removed a row |
| FileManager.EachUriCountedOnce | app/src/main/java/com/photovault/locker/utils/FileManager.kt:63-84 | each uri is either counted as deleted or kept as remaining, never both, and a remaining uri is one whose delete failed |
| FileManager.Classify | app/src/main/java/com/photovault/locker/utils/FileManager.kt:88-118 | nothing remaining is a full success; otherwise a created request asks for permission, a null sender fails, and a thrown request is a partial success or a failure by whether any direct delete worked |
| FileManager.DeleteMultiplePhotosFromGallery | app/src/main/java/com/photovault/locker/utils/FileManager.kt:58-126 | the loop and the branches give the classified result of the direct deletes |
| Passwords.HexByte | app/src/main/java/com/photovault/locker/utils/PasswordManager.kt:70 | `%02x` gives two lowercase hex digits |
| Passwords.Hex | app/src/main/java/com/photovault/locker/utils/PasswordManager.kt:67-71 | the hex text has two characters per byte |
| Passwords.HexIsLowercase | app/src/main/java/com/photovault/locker/utils/PasswordManager.kt:67-71 | every character of the hash is a lowercase hex digit |
| Passwords.HexInjective | app/src/main/java/com/photovault/locker/utils/PasswordManager.kt:67-71 | different digests give different hex texts |
| Passwords.HashInjective | app/src/main/java/com/photovault/locker/utils/PasswordManager.kt:67-71 | with a collision-free digest, equal hashes mean equal passwords |
| Passwords.IsSet | app/src/main/java/com/photovault/locker/utils/PasswordManager.kt:36-38 | true exactly when the flag is stored as true; a missing flag reads as false |
| Passwords.Set | app/src/main/java/com/photovault/locker/utils/PasswordManager.kt:40-51 | the flag is on and the stored hash is the password's |
| Passwords.Verify | app/src/main/java/com/photovault/locker/utils/PasswordManager.kt:53-60 | no password verifies while none is set |
| Passwords.Change | app/src/main/java/com/photovault/locker/utils/PasswordManager.kt:62-65 | succeeds exactly when the current password verifies; a failure changes nothing |
| Passwords.Clear | app/src/main/java/com/photovault/locker/utils/PasswordManager.kt:73-78 | both entries are removed |
| Passwords.VerifyAfterSet | app/src/main/java/com/photovault/locker/utils/PasswordManager.kt:40-60 | after setting a password, exactly that password verifies |
| Passwords.ChangeReplacesPassword | app/src/main/java/com/photovault/locker/utils/PasswordManager.kt:62-65 | after a successful change, exactly the new password verifies |
| Passwords.ClearLocks | app/src/main/java/com/photovault/locker/utils/PasswordManager.kt:73-78 | after clearing, no password verifies |
| Passwords.VerifyIffSameDigest | app/src/main/java/com/photovault/locker/utils/PasswordManager.kt:53-60 | for any digest function, a password verifies exactly when its digest equals the set one's |
| Passwords.PasswordManager.constructor | app/src/main/java/com/photovault/locker/utils/PasswordManager.kt:17-34 | the manager opens over the given preference entries |
| Passwords.PasswordManager.IsPasswordSet | app/src/main/java/com/photovault/locker/utils/PasswordManager.kt:36-38 | as `IsSet` on the stored entries |
| Passwords.PasswordManager.SetPassword | app/src/main/java/com/photovault/locker/utils/PasswordManager.kt:40-51 | the entries become `Set(password)` |
| Passwords.PasswordManager.VerifyPassword | app/src/main/java/com/photovault/locker/utils/PasswordManager.kt:53-60 | the answer is `Verify` on the stored entries |
| Passwords.PasswordManager.ChangePassword | app/src/main/java/com/photovault/locker/utils/PasswordManager.kt:62-65 | in place, as `Change` |
| Passwords.PasswordManager.ClearPassword | app/src/main/java/com/photovault/locker/utils/PasswordManager.kt:73-78 | in place, as `Clear` |
| Ads.Wrap | app/src/main/java/com/photovault/locker/utils/AdManager.kt:176 | Kotlin `Int` addition: values in range are kept, values out of range wrap modulo 2^32 |
| Ads.Rem | app/src/main/java/com/photovault/locker/utils/AdManager.kt:180 | Kotlin's `%`: the remainder takes the sign of the dividend |
| Ads.RemZeroIffMultiple | app/src/main/java/com/photovault/locker/utils/AdManager.kt:180 | the truncating remainder is 0 exactly for multiples |
| Ads.Tick | app/src/main/java/com/photovault/locker/utils/AdManager.kt:173-181 | the counter goes up by one, wrapping at `Int.MAX_VALUE`, and no other key changes; an ad is due exactly when the new count is a multiple of the frequency |
| Ads.Reset | app/src/main/java/com/photovault/locker/utils/AdManager.kt:199-202 | the counter becomes 0 and no other key changes |
| Ads.TicksFromReset | app/src/main/java/com/photovault/locker/utils/AdManager.kt:173-181 | after a reset and n calls the counter is n, and call i is due exactly when i is a multiple of the frequency |
| Ads.ShownFromReset | app/src/main/java/com/photovault/locker/utils/AdManager.kt:173-181 | after a reset, n calls make n / frequency ads due |
| Ads.CountersIndependent | app/src/main/java/com/photovault/locker/utils/AdManager.kt:173-210 | the album-view and import counters never affect each other |
| Ads.CounterWraps | app/src/main/java/com/photovault/locker/utils/AdManager.kt:175-180 | one call past `Int.MAX_VALUE` stores `Int.MIN_VALUE` and makes no ad due |
| Ads.Initialize | app/src/main/java/com/photovault/locker/utils/AdManager.kt:25-36 | an initialized SDK is not started again and the callback runs at once; otherwise the SDK is started and the callback runs exactly when it completes |
| Ads.InitializeOnce | app/src/main/java/com/photovault/locker/utils/AdManager.kt:25-36 | once initialized, a later call does not start the SDK again |
| Ads.AdPrefs.constructor | app/src/main/java/com/photovault/locker/utils/AdManager.kt:174 | the `ad_prefs` file holds the given entries |
| Ads.AdManager.constructor | app/src/main/java/com/photovault/locker/utils/AdManager.kt:20 | the SDK starts uninitialized |
| Ads.AdManager.Init | app/src/main/java/com/photovault/locker/utils/AdManager.kt:25-36 | in place, as `Initialize` |
| Ads.AdManager.Count | app/src/main/java/com/photovault/locker/utils/AdManager.kt:174-180 | the read, increment and write of one counter, as `Tick` |
| Ads.AdManager.ShouldShowAlbumViewAd | app/src/main/java/com/photovault/locker/utils/AdManager.kt:173-181 | `Tick` on the album-view counter with frequency 5 |
| Ads.AdManager.ShouldShowPhotoImportAd | app/src/main/java/com/photovault/locker/utils/AdManager.kt:186-194 | `Tick` on the import counter with frequency 3 |
| Ads.AdManager.ResetAlbumViewCount | app/src/main/java/com/photovault/locker/utils/AdManager.kt:199-202 | `Reset` of the album-view counter |
| Ads.AdManager.ResetPhotoImportCount | app/src/main/java/com/photovault/locker/utils/AdManager.kt:207-210 | `Reset` of the import counter |
| Selection.Remove | app/src/main/java/com/photovault/locker/adapters/PhotoAdapter.kt:78 | the set without the id, the rest in their order; removing an absent id changes nothing |
| Selection.Toggle | app/src/main/java/com/photovault/locker/adapters/GalleryPhotoAdapter.kt:83-89 | the id's membership flips and every other id's is kept; the size goes down or up by one |
| Selection.DistinctSize | app/src/main/java/com/photovault/locker/adapters/PhotoAdapter.kt:107-109 | the selection's size is its number of distinct ids |
| Selection.ToggleTwice | app/src/main/java/com/photovault/locker/adapters/GalleryPhotoAdapter.kt:83-89 | toggling twice restores the set, and the exact sequence when the id was not selected |
| Selection.ToggleTwiceReorders | app/src/main/java/com/photovault/locker/adapters/PhotoAdapter.kt:99-101 | re-selecting an id moves it to the end of `getSelectedPhotos()` |
| PhotoGrid.Enable | app/src/main/java/com/photovault/locker/adapters/PhotoAdapter.kt:88-91 | the mode turns on and the selection is kept |
| PhotoGrid.Disable | app/src/main/java/com/photovault/locker/adapters/PhotoAdapter.kt:93-97 | the mode turns off and the selection is emptied |
| PhotoGrid.Toggle | app/src/main/java/com/photovault/locker/adapters/PhotoAdapter.kt:76-86 | the id's membership flips; an empty selection ends the mode; otherwise the mode is kept |
| PhotoGrid.Click | app/src/main/java/com/photovault/locker/adapters/PhotoAdapter.kt:54-61 | in selection mode a click toggles; otherwise it opens the photo at its position and changes nothing |
| PhotoGrid.LongClick | app/src/main/java/com/photovault/locker/adapters/PhotoAdapter.kt:63-71 | in selection mode nothing happens; otherwise the listener is told |
| PhotoGrid.LongClickSelectsOnlyThat | app/src/main/java/com/photovault/locker/adapters/PhotoAdapter.kt:63-71 | a long click outside selection mode starts it with exactly that photo selected |
| PhotoGrid.ClickInSelectionMode | app/src/main/java/com/photovault/locker/adapters/PhotoAdapter.kt:54-61 | a click in selection mode flips only the clicked photo, and the mode lasts while something is selected |
| PhotoGrid.ClickTwice | app/src/main/java/com/photovault/locker/adapters/PhotoAdapter.kt:54-86 | two clicks restore the selected set, unless the first cleared the selection, after which the second opens the photo |
| PhotoGrid.PhotoAdapter.constructor | app/src/main/java/com/photovault/locker/adapters/PhotoAdapter.kt:19-20 | the grid starts out of selection mode with nothing selected |
| PhotoGrid.PhotoAdapter.ToggleSelection | app/src/main/java/com/photovault/locker/adapters/PhotoAdapter.kt:76-86 | in place, as `Toggle` |
| PhotoGrid.PhotoAdapter.EnableSelectionMode | app/src/main/java/com/photovault/locker/adapters/PhotoAdapter.kt:88-91 | in place, as `Enable` |
| PhotoGrid.PhotoAdapter.DisableSelectionMode | app/src/main/java/com/photovault/locker/adapters/PhotoAdapter.kt:93-97 | in place, as `Disable` |
| PhotoGrid.PhotoAdapter.GetSelectedPhotos | app/src/main/java/com/photovault/locker/adapters/PhotoAdapter.kt:99-101 | the selected ids, without duplicates, in selection order |
| PhotoGrid.PhotoAdapter.IsSelectionMode | app/src/main/java/com/photovault/locker/adapters/PhotoAdapter.kt:103-105 | the current mode |
| PhotoGrid.PhotoAdapter.GetSelectedCount | app/src/main/java/com/photovault/locker/adapters/PhotoAdapter.kt:107-109 | given the class invariant, the number of distinct selected ids |
| PhotoGrid.PhotoAdapter.OnClick | app/src/main/java/com/photovault/locker/adapters/PhotoAdapter.kt:54-61 | in place, as `Click` |
| PhotoGrid.PhotoAdapter.OnLongClick | app/src/main/java/com/photovault/locker/adapters/PhotoAdapter.kt:63-71 | always consumed; in place, as `LongClick` |
| GalleryGrid.SelectedOf | app/src/main/java/com/photovault/locker/adapters/GalleryPhotoAdapter.kt:91-93 | exactly the listed photos whose ids are selected |
| GalleryGrid.SelectedOfAppend | app/src/main/java/com/photovault/locker/adapters/GalleryPhotoAdapter.kt:91-93 | the filter keeps list order |
| GalleryGrid.SelectedOfSameSet | app/src/main/java/com/photovault/locker/adapters/GalleryPhotoAdapter.kt:91-93 | the filter depends only on the set of selected ids |
| GalleryGrid.ToggleTwiceSameSelection | app/src/main/java/com/photovault/locker/adapters/GalleryPhotoAdapter.kt:83-93 | two clicks on a photo leave `getSelectedPhotos()` as it was |
| GalleryGrid.GalleryPhotoAdapter.constructor | app/src/main/java/com/photovault/locker/adapters/GalleryPhotoAdapter.kt:18 | the grid starts with nothing selected |
| GalleryGrid.GalleryPhotoAdapter.SubmitList | app/src/main/java/com/photovault/locker/adapters/GalleryPhotoAdapter.kt:14-16 | a new list replaces the old one and the selection is kept |
| GalleryGrid.GalleryPhotoAdapter.ToggleSelection | app/src/main/java/com/photovault/locker/adapters/GalleryPhotoAdapter.kt:83-89 | in place, as `Selection.Toggle` |
| GalleryGrid.GalleryPhotoAdapter.GetSelectedPhotos | app/src/main/java/com/photovault/locker/adapters/GalleryPhotoAdapter.kt:91-93 | as `SelectedOf` on the current list |
| GalleryGrid.GalleryPhotoAdapter.GetSelectedCount | app/src/main/java/com/photovault/locker/adapters/GalleryPhotoAdapter.kt:95-97 | given the class invariant, the number of distinct selected ids |
| GalleryGrid.GalleryPhotoAdapter.ClearSelections | app/src/main/java/com/photovault/locker/adapters/GalleryPhotoAdapter.kt:99-102 | the selection is emptied and the list is kept |
| GalleryGrid.GalleryPhotoAdapter.OnClick | app/src/main/java/com/photovault/locker/adapters/GalleryPhotoAdapter.kt:60-64 | the click toggles the photo and reports the new size, one less or one more than before |

## Where the code and its design disagree

The code is what is modelled. Each point below is proved by the lemma it
names.

- `AlbumDao.updatePhotoCount` counts every row of the album, bin rows
  included. The grid shows only the rows outside the bin, so the stored
  count is too high whenever an album has photos in the bin
  (`AlbumDao.RowCountCountsBin`).
  - `movePhotosToBin` recounts right after binning and stores the count
    from before the move (`AlbumView.MoveToBinKeepsCount`,
    `AlbumView.BinnedPhotosStillCounted`).
  - Purging photos from the bin does not recount at all, so the count
    stays stale (`Bin.PurgeLeavesStaleCount`).
- The comment in `MainViewModel.deleteAlbum` says photos already in the
  bin are kept. The cascade on `photos.albumId` deletes them too
  (`MainView.DeleteAlbumDropsBinPhotos`).
- `BinViewModel.restorePhotos` treats a photo whose album is missing as an
  orphan. Under the enforced foreign key that branch cannot happen; only
  photos of the dummy bin album are orphans (`Bin.OrphanIffInDummy`).
- `renameAlbum` writes back the whole album object it was given. A count
  or cover that changed since the screen loaded it is overwritten
  (`MainView.RenameWritesStaleCount`).
- `PhotoViewViewModel.deletePhoto` does not touch the cover. Deleting an
  album's cover photo leaves the cover pointing at the deleted file
  (`PhotoView.DeletedCoverDangles`).
- The selection is a `LinkedHashSet`. Unselecting and reselecting a photo
  moves it to the end of `PhotoAdapter.getSelectedPhotos()`
  (`Selection.ToggleTwiceReorders`). `GalleryPhotoAdapter` filters by its
  list, so there the order is kept (`GalleryGrid.ToggleTwiceSameSelection`).
- The ad counters are Kotlin `Int`s and wrap past `Int.MAX_VALUE`
  (`Ads.CounterWraps`).

## Left out

- **Not modelled:**
  - Activities, `ConsentManager` and `initializeWithConsent`. They are UI
    and consent flows around the engine.
  - The ad SDK's loading and showing of ads: that is foreign SDK code. The
    SDK's completion is a parameter.
  - `PermissionUtils`, `PhotoVaultDatabase`'s builder, `AlbumAdapter`,
    `PhotoViewPagerAdapter` and `FavoritesViewModel`. They are not part of
    the modelled engine.
  - The gallery deletion flow of `AlbumViewViewModel` (lines 202-246) and
    `deletePhotoFromGalleryWithPermission`. They drive Android permission
    dialogs. The batch classification they rely on is modelled.
  - Android, Kotlin and JVM runtime behaviour:
    - LiveData, coroutines and the loading and error flags: the model is
      sequential and has no observers.
    - Logging calls and `notify…` redraws: they have no effect on state.
  - The re-read of a saved photo (PhotoImportViewModel.kt:79-80) and the
    final count query (112-113). Both feed only a log line.
  - `getAllAlbumsExcept…`, `getCoverPhoto` and the other LiveData getters.
    They are queries for the screens.
- **Outer catch blocks.** An exception the model does not raise is not
  modelled. This covers:
  - the import: `Pair(false, 0)`;
  - the batch deletion: "Deletion failed";
  - the callbacks with `false` in `createAlbum` and `renameAlbum`.

  SQLite's constraint failures are modelled: they are the store's errors.
- **Parameters of the model** (outside facts the model receives):

  | fact | modelled as |
  |---|---|
  | the clock | `now`, and one reading per bin call |
  | the random number of a file name | a parameter |
  | a copy, a decode or a direct delete | its outcome |
  | `deletePhotoFromAppStorage` (not part of this model) | only whether it throws |
  | `createDeleteRequest`'s intent sender | the list of uris it covers |
  | SHA-256 and the UTF-8 encoding of the password | an abstract digest function; properties that need it to be collision-free say so |
  | the EncryptedSharedPreferences fallback | a plain entry map |
  | the Java `Date` columns | natural numbers |

- **Deliberately weaker contracts:**
  - Passwords.PasswordManager.SetPassword: the catch that returns false is
    not modelled, because the digest is total. It always succeeds.
  - AlbumDao.AlbumByName: the query has no `LIMIT`; Room takes the first
    row of the cursor, which SQLite leaves unspecified. The model picks the
    smallest key.
  - PhotoDao.PhotosByAlbum: SQLite leaves the order of rows with equal
    dates unspecified. The model and the other ordered queries break ties
    by ascending key.
  - PhotoGrid.Toggle: keeps `Coherent` (no selection outside selection
    mode) only in selection mode. The source calls it only there. The
    class invariant `Valid` (the selection has no duplicates) holds after
    every method of either adapter.
- **Where the view-model methods are not defined:**
  - They require `Store.Valid` where they need the foreign key.
  - A photo count is an unbounded integer, where the source has a 32-bit
    column: a count cannot reach 2^31 rows.
