/** `PhotoImportViewModel.importPhotos`: copy each chosen gallery photo into
    the vault, insert a row for every copy that produced a path, report
    progress after each item, then fix up the album's count and cover. The
    file copy, the clock and the decoder are oracles: one `ItemOracle` per
    gallery photo says what they gave. What a copied path looks like is
    stated by `FileManager.CopyPhotoToAppStorage`. */
module PhotoImport {
  import opened Records
  import PhotoDao
  import AlbumDao
  import Store
  import VaultDb
  import Upkeep
  import FileManager

  /** What the outside world gave while one gallery photo was imported. */
  /** `copied` is what `copyPhotoToAppStorage` returned (null when a step
      of the copy threw), `decode` what reading the bounds of the copy gave,
      `now` the clock when the row was built. */
  datatype ItemOracle = ItemOracle(
    copied: Option<string>,
    decode: FileManager.DecodeOutcome,
    now: nat)

  predicate OraclesFit(photos: seq<GalleryPhoto>, oracles: seq<ItemOracle>) {
    |oracles| == |photos|
  }

  /** The row built for a copied item: the vault path, the copied file's own
      name (not the gallery name), the gallery size, the decoded bounds and
      the clock. */
  function ImportedPhoto(albumId: int, path: string, g: GalleryPhoto, o: ItemOracle): (p: Photo)
    ensures p.id == 0 && p.albumId == albumId && p.filePath == path
    ensures p.originalName == FileManager.FileName(path) && p.fileSize == g.size
    ensures (p.width, p.height) == FileManager.ImageDimensions(o.decode)
    ensures p.importedDate == o.now && !p.isDeleted && p.deletedDate == None
  {
    var dims := FileManager.ImageDimensions(o.decode);
    NewPhoto(albumId, path, FileManager.FileName(path), o.now, g.size, dims.0, dims.1)
  }

  /** What the loop has produced so far. */
  datatype Run = Run(db: Store.Db, successCount: nat, progress: seq<int>)

  /** One pass of the loop body, for an item emitting progress `step`. An
      item whose copy gave no path emits progress only; an item whose insert
      threw emits nothing (the `continue` of the catch); otherwise the row is
      inserted, counted and progress emitted. */
  function ImportItem(run: Run, albumId: int, g: GalleryPhoto, o: ItemOracle, step: int): (r: Run)
    ensures r.db.albums == run.db.albums && r.db.nextAlbumId == run.db.nextAlbumId
    ensures o.copied.None? ==> r == run.(progress := run.progress + [step])
    ensures o.copied.Some? && albumId !in run.db.albums ==> r == run
    ensures o.copied.Some? && albumId in run.db.albums ==>
              && r.successCount == run.successCount + 1 && r.progress == run.progress + [step]
              && r.db == Store.InsertPhoto(run.db, ImportedPhoto(albumId, o.copied.value, g, o)).0
    ensures Store.Valid(run.db) ==> Store.Valid(r.db)
  {
    if o.copied.None? then run.(progress := run.progress + [step])
    else
      var ins := Store.InsertPhoto(run.db, ImportedPhoto(albumId, o.copied.value, g, o));
      if ins.1.Err? then run
      else Run(ins.0, run.successCount + 1, run.progress + [step])
  }

  /** On a consistent store one pass keeps every row and adds at most one,
      exactly when it counts the item. */
  lemma ItemAddsRow(run: Run, albumId: int, g: GalleryPhoto, o: ItemOracle, step: int)
    requires Store.Valid(run.db)
    ensures var r := ImportItem(run, albumId, g, o, step);
      && run.db.photos.Keys <= r.db.photos.Keys
      && (forall k :: k in run.db.photos ==> r.db.photos[k] == run.db.photos[k])
      && |r.db.photos.Keys| == |run.db.photos.Keys| + (r.successCount - run.successCount)
  {
    var r := ImportItem(run, albumId, g, o, step);
    if o.copied.Some? && albumId in run.db.albums {
      var ins := Store.InsertPhoto(run.db, ImportedPhoto(albumId, o.copied.value, g, o));
      assert ins.1.value !in run.db.photos;
      assert r.db.photos.Keys == run.db.photos.Keys + {ins.1.value};
    }
  }

  /** The loop over the first |photos| items of a batch of `total`. */
  function ImportLoop(db: Store.Db, albumId: int,
                      photos: seq<GalleryPhoto>, oracles: seq<ItemOracle>, total: nat): (r: Run)
    requires OraclesFit(photos, oracles) && |photos| <= total
    ensures r.successCount <= |photos|
    ensures r.db.albums == db.albums && r.db.nextAlbumId == db.nextAlbumId
    ensures Store.Valid(db) ==> Store.Valid(r.db)
    decreases |photos|
  {
    if photos == [] then Run(db, 0, [])
    else
      var n := |photos| - 1;
      var before := ImportLoop(db, albumId, photos[..n], oracles[..n], total);
      ImportItem(before, albumId, photos[n], oracles[n], (n + 1) * 100 / total)
  }

  /** How many items of the batch the copy produced a path for. */
  function CopiedCount(oracles: seq<ItemOracle>): (n: nat)
    ensures n <= |oracles|
    decreases |oracles|
  {
    if oracles == [] then 0
    else CopiedCount(oracles[..|oracles| - 1]) + (if oracles[|oracles| - 1].copied.None? then 0 else 1)
  }

  /** `(index + 1) * 100 / totalCount` for the first n items. */
  function Progress(n: nat, total: nat): (r: seq<int>)
    requires n <= total
    ensures |r| == n
    ensures forall i :: 0 <= i < n ==> r[i] == (i + 1) * 100 / total
  {
    seq(n, i requires 0 <= i < n => (i + 1) * 100 / total)
  }

  /** A row the import wrote for item i of the batch. */
  predicate ImportedFrom(row: Photo, albumId: int,
                         photos: seq<GalleryPhoto>, oracles: seq<ItemOracle>, i: int)
    requires OraclesFit(photos, oracles)
  {
    && 0 <= i < |photos|
    && oracles[i].copied.Some?
    && row == ImportedPhoto(albumId, oracles[i].copied.value, photos[i], oracles[i]).(id := row.id)
  }

  /** With the album present every insert succeeds: every item whose copy
      gave a path is counted, every item emits its progress, and only the
      photo table changes. With the album missing every insert fails on the
      foreign key: nothing is counted or written, and progress is emitted
      only for the items whose copy threw. */
  lemma {:induction false} ImportOutcome(db: Store.Db, albumId: int,
                                         photos: seq<GalleryPhoto>, oracles: seq<ItemOracle>, total: nat)
    requires OraclesFit(photos, oracles) && |photos| <= total
    ensures var r := ImportLoop(db, albumId, photos, oracles, total);
      && r.db.albums == db.albums && r.db.nextAlbumId == db.nextAlbumId
      && (albumId in db.albums ==> r.successCount == CopiedCount(oracles) && r.progress == Progress(|photos|, total))
      && (albumId !in db.albums ==> r.successCount == 0 && r.db == db &&
                                    |r.progress| == |photos| - CopiedCount(oracles))
    decreases |photos|
  {
    if photos != [] {
      var n := |photos| - 1;
      assert oracles[..n][..n] == oracles[..n];
      ImportOutcome(db, albumId, photos[..n], oracles[..n], total);
      assert CopiedCount(oracles) == CopiedCount(oracles[..n]) + (if oracles[n].copied.None? then 0 else 1);
      var before := ImportLoop(db, albumId, photos[..n], oracles[..n], total);
      if albumId in db.albums {
        assert before.progress + [(n + 1) * 100 / total] == Progress(|photos|, total);
      }
    }
  }

  /** With the album present the last progress value posted is 100. */
  lemma ProgressReachesEnd(db: Store.Db, albumId: int, photos: seq<GalleryPhoto>, oracles: seq<ItemOracle>)
    requires OraclesFit(photos, oracles) && photos != [] && albumId in db.albums
    ensures var r := ImportLoop(db, albumId, photos, oracles, |photos|);
      r.progress[|r.progress| - 1] == 100
  {
    ImportOutcome(db, albumId, photos, oracles, |photos|);
    FullProgress(|photos|);
  }

  lemma FullProgress(n: nat)
    requires n > 0
    ensures Progress(n, n)[n - 1] == 100
  {
    var q, m := n * 100 / n, n * 100 % n;
    assert n * 100 == n * q + m && 0 <= m < n;
    assert n * (100 - q) == m;
    if q < 100 {
      assert false;
    } else if q > 100 {
      assert false;
    }
  }

  /** On a consistent store the import only adds rows: the rows already
      there are untouched and there is one new row per counted item. */
  lemma {:induction false} ImportAddsRows(db: Store.Db, albumId: int,
                                          photos: seq<GalleryPhoto>, oracles: seq<ItemOracle>, total: nat)
    requires OraclesFit(photos, oracles) && |photos| <= total
    requires Store.Valid(db)
    ensures var r := ImportLoop(db, albumId, photos, oracles, total);
      && db.photos.Keys <= r.db.photos.Keys
      && (forall k :: k in db.photos ==> r.db.photos[k] == db.photos[k])
      && |r.db.photos.Keys| == |db.photos.Keys| + r.successCount
    decreases |photos|
  {
    if photos != [] {
      var n := |photos| - 1;
      ImportAddsRows(db, albumId, photos[..n], oracles[..n], total);
      var before := ImportLoop(db, albumId, photos[..n], oracles[..n], total);
      ItemAddsRow(before, albumId, photos[n], oracles[n], (n + 1) * 100 / total);
    }
  }

  /** Each row the import adds is the row built for one of the items: filed
      under the target album, outside the bin, named after its copy. */
  lemma {:induction false} ImportedRowsFromItems(db: Store.Db, albumId: int,
                                                 photos: seq<GalleryPhoto>, oracles: seq<ItemOracle>, total: nat)
    requires OraclesFit(photos, oracles) && |photos| <= total
    requires Store.Valid(db)
    ensures var r := ImportLoop(db, albumId, photos, oracles, total);
      forall k :: k in r.db.photos && k !in db.photos ==>
        && r.db.photos[k].albumId == albumId && !r.db.photos[k].isDeleted
        && r.db.photos[k].originalName == FileManager.FileName(r.db.photos[k].filePath)
        && exists i :: ImportedFrom(r.db.photos[k], albumId, photos, oracles, i)
    decreases |photos|
  {
    if photos != [] {
      var n := |photos| - 1;
      ImportedRowsFromItems(db, albumId, photos[..n], oracles[..n], total);
      ImportAddsRows(db, albumId, photos[..n], oracles[..n], total);
      var before := ImportLoop(db, albumId, photos[..n], oracles[..n], total);
      var r := ImportLoop(db, albumId, photos, oracles, total);
      forall k, i | k in before.db.photos && k !in db.photos &&
                    ImportedFrom(before.db.photos[k], albumId, photos[..n], oracles[..n], i)
        ensures ImportedFrom(before.db.photos[k], albumId, photos, oracles, i)
      {
        assert photos[..n][i] == photos[i] && oracles[..n][i] == oracles[i];
      }
      var path := oracles[n].copied;
      if path.Some? {
        var ins := Store.InsertPhoto(before.db, ImportedPhoto(albumId, path.value, photos[n], oracles[n]));
        if ins.1.Ok? {
          var k := ins.1.value;
          assert ImportedFrom(r.db.photos[k], albumId, photos, oracles, n);
        }
      }
    }
  }

  /** The loop over one more item. */
  lemma ImportLoopStep(db: Store.Db, albumId: int, photos: seq<GalleryPhoto>, oracles: seq<ItemOracle>,
                       total: nat, i: nat)
    requires OraclesFit(photos, oracles) && i < |photos| <= total
    ensures ImportLoop(db, albumId, photos[..i + 1], oracles[..i + 1], total)
            == ImportItem(ImportLoop(db, albumId, photos[..i], oracles[..i], total),
                          albumId, photos[i], oracles[i], (i + 1) * 100 / total)
  {
    assert photos[..i + 1][..i] == photos[..i];
    assert oracles[..i + 1][..i] == oracles[..i];
  }

  /** A pass appends its progress to whatever was posted before. */
  lemma ItemProgressShift(run: Run, albumId: int, g: GalleryPhoto, o: ItemOracle, step: int)
    ensures var alone := ImportItem(run.(progress := []), albumId, g, o, step);
      ImportItem(run, albumId, g, o, step) == alone.(progress := run.progress + alone.progress)
  {
    if o.copied.Some? {
      var ins := Store.InsertPhoto(run.db, ImportedPhoto(albumId, o.copied.value, g, o));
      if ins.1.Ok? {
        assert run.progress + [step] == run.progress + ([] + [step]);
      }
    } else {
      assert run.progress + [step] == run.progress + ([] + [step]);
    }
  }

  /** The view model of the import screen. `progress` holds the values
      posted to `importProgress`, `complete` the last `importComplete`. */
  class ImportViewModel {
    const db: VaultDb.Database
    const albumId: int
    const albumName: string
    var progress: seq<int>
    var complete: Option<(bool, int)>

    constructor (db: VaultDb.Database, albumId: int, albumName: string)
      ensures this.db == db && this.albumId == albumId && this.albumName == albumName
      ensures progress == [] && complete == None
    {
      this.db := db;
      this.albumId := albumId;
      this.albumName := albumName;
      progress := [];
      complete := None;
    }

    /** `importPhotos`: the loop, then `updatePhotoCount` and the cover set
        only when the album has none, then the completion pair. */
    method ImportPhotos(photos: seq<GalleryPhoto>, oracles: seq<ItemOracle>)
      requires OraclesFit(photos, oracles)
      modifies this, db
      ensures var r := ImportLoop(old(db.State()), albumId, photos, oracles, |photos|);
        && db.State() == Upkeep.Reconcile(r.db, albumId)
        && progress == old(progress) + r.progress
        && complete == Some((r.successCount > 0, r.successCount as int))
    {
      var successCount := ImportAll(photos, oracles);
      FinishImport();
      complete := Some((successCount > 0, successCount));
    }

    /** The loop of `importPhotos`: copy and insert each item, counting the
        inserted rows and posting progress. */
    method ImportAll(photos: seq<GalleryPhoto>, oracles: seq<ItemOracle>) returns (successCount: nat)
      requires OraclesFit(photos, oracles)
      modifies this, db
      ensures var r := ImportLoop(old(db.State()), albumId, photos, oracles, |photos|);
        && db.State() == r.db && successCount == r.successCount
        && progress == old(progress) + r.progress
      ensures complete == old(complete)
    {
      ghost var start := db.State();
      ghost var posted := progress;
      successCount := 0;
      var total := |photos|;
      var index := 0;
      ghost var emitted: seq<int> := [];
      while index < total
        invariant 0 <= index <= total
        invariant ImportLoop(start, albumId, photos[..index], oracles[..index], total)
                  == Run(db.State(), successCount, emitted)
        invariant progress == posted + emitted
        invariant complete == old(complete)
      {
        ImportLoopStep(start, albumId, photos, oracles, total, index);
        ItemProgressShift(Run(db.State(), successCount, emitted), albumId, photos[index], oracles[index], (index + 1) * 100 / total);
        ghost var delta;
        successCount, delta := ImportOne(photos[index], oracles[index], (index + 1) * 100 / total, successCount);
        emitted := emitted + delta;
        index := index + 1;
      }
      assert photos[..index] == photos && oracles[..index] == oracles;
    }

    /** After the loop: recount the album and give it a cover when it has
        none. */
    method FinishImport()
      modifies db
      ensures db.State() == Upkeep.Reconcile(old(db.State()), albumId)
    {
      db.UpdatePhotoCount(albumId);
      var currentAlbum := AlbumDao.AlbumById(db.albums, albumId);
      if currentAlbum.None? || currentAlbum.value.coverPhotoPath.None? {
        var firstPhoto := PhotoDao.FirstPhotoInAlbum(db.photos, albumId);
        db.UpdateCoverPhoto(albumId, PathOf(firstPhoto));
      }
    }

    /** One pass of the loop body, emitting progress `step` unless the
        insert threw; `delta` is what it posted. */
    method ImportOne(g: GalleryPhoto, o: ItemOracle, step: int, successCount: nat)
      returns (count: nat, ghost delta: seq<int>)
      modifies this, db
      ensures var r := ImportItem(Run(old(db.State()), successCount, []), albumId, g, o, step);
        && db.State() == r.db && count == r.successCount && delta == r.progress
      ensures progress == old(progress) + delta && complete == old(complete)
    {
      count, delta := successCount, [];
      var added, failed := CopyAndInsert(g, o);
      if failed {
        assert db.State() == old(db.State());
        return;
      }
      if added {
        count := count + 1;
      }
      progress := progress + [step];
      delta := [step];
    }

    /** The row insert of one pass: nothing when the copy gave no path,
        otherwise `insertPhoto` of the row built for the copy; `failed` when
        it threw. */
    method CopyAndInsert(g: GalleryPhoto, o: ItemOracle) returns (added: bool, failed: bool)
      modifies db
      ensures o.copied.None? ==> !added && !failed && db.State() == old(db.State())
      ensures o.copied.Some? ==>
        var ins := Store.InsertPhoto(old(db.State()), ImportedPhoto(albumId, o.copied.value, g, o));
        && db.State() == ins.0 && failed == ins.1.Err? && added == !failed
    {
      added, failed := false, false;
      var copied := o.copied;
      if copied.Some? {
        var dims := FileManager.ImageDimensions(o.decode);
        var actualFileName := FileManager.FileName(copied.value);
        var photo := NewPhoto(albumId, copied.value, actualFileName, o.now, g.size, dims.0, dims.1);
        var id := db.InsertPhoto(photo);
        failed := id.Err?;
        added := !failed;
      }
    }
  }
}
