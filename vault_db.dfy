/** The database object the view models share: the two tables and their
    counters as fields, changed in place by the DAO methods. Each method
    leaves the state that the matching function of module Store computes. */
module VaultDb {
  import opened Records
  import PhotoDao
  import AlbumDao
  import Store

  class Database {
    var albums: AlbumDao.AlbumTable
    var photos: PhotoDao.PhotoTable
    var nextAlbumId: int
    var nextPhotoId: int

    function State(): Store.Db
      reads this
    {
      Store.Db(albums, photos, nextAlbumId, nextPhotoId)
    }

    constructor ()
      ensures State() == Store.Empty()
    {
      albums, photos, nextAlbumId, nextPhotoId := map[], map[], 1, 1;
    }

    method InsertPhoto(p: Photo) returns (r: Store.Result<int>)
      modifies this
      ensures (State(), r) == Store.InsertPhoto(old(State()), p)
    {
      if p.albumId !in albums {
        return Store.Err(Store.ForeignKeyViolation);
      }
      var k := Store.KeyFor(nextPhotoId, p.id);
      photos := photos[k := p.(id := k)];
      nextPhotoId := Store.Bump(nextPhotoId, k);
      r := Store.Ok(k);
    }

    /** One transaction: on the first failure the state saved on entry is
        put back. */
    method InsertPhotos(ps: seq<Photo>) returns (r: Store.Result<seq<int>>)
      modifies this
      ensures (State(), r) == Store.InsertPhotos(old(State()), ps)
    {
      ghost var start := State();
      var saved := (albums, photos, nextAlbumId, nextPhotoId);
      var ids: seq<int> := [];
      var i := 0;
      while i < |ps|
        invariant 0 <= i <= |ps|
        invariant saved == (start.albums, start.photos, start.nextAlbumId, start.nextPhotoId)
        invariant (State(), Store.Ok(ids)) == Store.InsertPhotos(start, ps[..i])
      {
        assert ps[..i + 1][..i] == ps[..i];
        var one := InsertPhoto(ps[i]);
        if one.Err? {
          albums, photos, nextAlbumId, nextPhotoId := saved.0, saved.1, saved.2, saved.3;
          Store.FailureSticks(start, ps, i + 1);
          return Store.Err(one.error);
        }
        ids := ids + [one.value];
        i := i + 1;
      }
      assert ps[..i] == ps;
      r := Store.Ok(ids);
    }

    method UpdatePhoto(p: Photo) returns (s: Store.Status)
      modifies this
      ensures (State(), s) == Store.UpdatePhoto(old(State()), p)
    {
      if p.id !in photos { return Store.Done; }
      if p.albumId !in albums { return Store.Failed(Store.ForeignKeyViolation); }
      photos := photos[p.id := p];
      s := Store.Done;
    }

    method DeletePhoto(p: Photo)
      modifies this
      ensures State() == Store.DeletePhoto(old(State()), p)
    {
      photos := PhotoDao.RemoveIds(photos, [p.id]);
    }

    method DeletePhotoById(id: int)
      modifies this
      ensures State() == Store.DeletePhotoById(old(State()), id)
    {
      photos := PhotoDao.RemoveIds(photos, [id]);
    }

    method DeletePhotosByAlbum(a: int)
      modifies this
      ensures State() == Store.DeletePhotosByAlbum(old(State()), a)
    {
      photos := PhotoDao.RemoveAlbumRows(photos, a);
    }

    method MovePhotoToBin(id: int, t: nat)
      modifies this
      ensures State() == Store.MovePhotoToBin(old(State()), id, t)
    {
      photos := PhotoDao.MarkInBin(photos, [id], t);
    }

    method RestorePhotoFromBin(id: int)
      modifies this
      ensures State() == Store.RestorePhotoFromBin(old(State()), id)
    {
      photos := PhotoDao.ClearBin(photos, [id]);
    }

    method RestorePhotosFromBin(ids: seq<int>)
      modifies this
      ensures State() == Store.RestorePhotosFromBin(old(State()), ids)
    {
      photos := PhotoDao.ClearBin(photos, ids);
    }

    method PermanentlyDeletePhotos(ids: seq<int>)
      modifies this
      ensures State() == Store.PermanentlyDeletePhotos(old(State()), ids)
    {
      photos := PhotoDao.RemoveIds(photos, ids);
    }

    method PermanentlyDeletePhotosInBin()
      modifies this
      ensures State() == Store.PermanentlyDeletePhotosInBin(old(State()))
    {
      photos := PhotoDao.RemoveBinRows(photos);
    }

    method InsertAlbum(a: Album) returns (r: Store.Result<int>)
      modifies this
      ensures (State(), r) == Store.InsertAlbum(old(State()), a)
    {
      var k := Store.KeyFor(nextAlbumId, a.id);
      if k in albums {
        return Store.Err(Store.PrimaryKeyConflict);
      }
      albums := albums[k := a.(id := k)];
      nextAlbumId := Store.Bump(nextAlbumId, k);
      r := Store.Ok(k);
    }

    method UpdateAlbum(a: Album)
      modifies this
      ensures State() == Store.UpdateAlbum(old(State()), a)
    {
      if a.id in albums {
        albums := albums[a.id := a];
      }
    }

    method DeleteAlbum(a: Album)
      modifies this
      ensures State() == Store.DeleteAlbum(old(State()), a)
    {
      if a.id in albums {
        albums := map k | k in albums && k != a.id :: albums[k];
        photos := PhotoDao.RemoveAlbumRows(photos, a.id);
      }
    }

    method UpdatePhotoCount(a: int)
      modifies this
      ensures State() == Store.UpdatePhotoCount(old(State()), a)
    {
      if a in albums {
        albums := albums[a := albums[a].(photoCount := AlbumDao.RowCount(photos, a))];
      }
    }

    method UpdateCoverPhoto(a: int, path: Option<string>)
      modifies this
      ensures State() == Store.UpdateCoverPhoto(old(State()), a, path)
    {
      if a in albums {
        albums := albums[a := albums[a].(coverPhotoPath := path)];
      }
    }
  }

}
