/** The `albums` table and the lookups of AlbumDao.kt, plus the photo count
    that `updatePhotoCount` writes. */
module AlbumDao {
  import opened Records
  import Ordering
  import PhotoDao

  type AlbumTable = map<int, Album>

  function CreatedRank(albums: AlbumTable): (rank: map<int, int>)
    ensures rank.Keys == albums.Keys
    ensures forall k :: k in albums ==> rank[k] == albums[k].createdDate
  {
    map k | k in albums :: albums[k].createdDate
  }

  /** The keys in `ORDER BY created_date DESC` order (see AlbumOrderSorted). */
  function AlbumOrder(albums: AlbumTable): (order: seq<int>)
    ensures |order| == |albums|
    ensures forall k :: k in order <==> k in albums
    ensures forall i :: 0 <= i < |order| ==> order[i] in albums
  {
    Ordering.Ordered(CreatedRank(albums), albums.Keys)
  }

  /** The keys come newest first. */
  lemma AlbumOrderSorted(albums: AlbumTable)
    ensures var order := AlbumOrder(albums);
      forall i, j :: 0 <= i < j < |order| ==> albums[order[i]].createdDate >= albums[order[j]].createdDate
  {
    var rank := CreatedRank(albums);
    var order := AlbumOrder(albums);
    forall i, j | 0 <= i < j < |order| ensures albums[order[i]].createdDate >= albums[order[j]].createdDate {
      assert Ordering.Before(rank, order[i], order[j]);
    }
  }

  /** `getAllAlbums`: every album, newest first (see AllAlbumsSorted). */
  function AllAlbums(albums: AlbumTable): (r: seq<Album>)
    ensures |r| == |albums|
    ensures forall i :: 0 <= i < |r| ==> r[i] == albums[AlbumOrder(albums)[i]]
  {
    RowsOf(albums, AlbumOrder(albums))
  }

  /** `getAllAlbums` lists the newest album first. */
  lemma AllAlbumsSorted(albums: AlbumTable)
    ensures var r := AllAlbums(albums);
      forall i, j :: 0 <= i < j < |r| ==> r[i].createdDate >= r[j].createdDate
  {
    AlbumOrderSorted(albums);
  }

  /** `getAllAlbums` lists every album. */
  lemma AllAlbumsComplete(albums: AlbumTable)
    ensures forall k :: k in albums ==> albums[k] in AllAlbums(albums)
  {
    var order := AlbumOrder(albums);
    var r := AllAlbums(albums);
    forall k | k in albums ensures albums[k] in r {
      var i :| 0 <= i < |order| && order[i] == k;
      assert r[i] == albums[k];
    }
  }

  /** The album rows under the keys of `order`, in that order. */
  function RowsOf(albums: AlbumTable, order: seq<int>): (r: seq<Album>)
    requires forall i :: 0 <= i < |order| ==> order[i] in albums
    ensures |r| == |order|
    ensures forall i :: 0 <= i < |r| ==> r[i] == albums[order[i]]
  {
    if order == [] then [] else [albums[order[0]]] + RowsOf(albums, order[1..])
  }

  /** `getAlbumById` */
  function AlbumById(albums: AlbumTable, id: int): (r: Option<Album>)
    ensures r.Some? <==> id in albums
    ensures r.Some? ==> r.value == albums[id]
  {
    if id in albums then Some(albums[id]) else None
  }

  /** Keys of the albums whose name is exactly `name`. */
  function NamedIds(albums: AlbumTable, name: string): (ks: set<int>)
    ensures forall k :: k in ks <==> k in albums && albums[k].name == name
  {
    set k | k in albums && albums[k].name == name
  }

  /** `getAlbumByName`: the query has no ORDER BY; the model returns the
      match with the smallest key, the order of a rowid scan. */
  function AlbumByName(albums: AlbumTable, name: string): (r: Option<Album>)
    ensures r.None? <==> forall k :: k in albums ==> albums[k].name != name
    ensures r.Some? ==> r.value.name == name
    ensures r.Some? ==> exists k :: (k in albums && albums[k] == r.value &&
              forall j :: j in albums && albums[j].name == name ==> k <= j)
  {
    if NamedIds(albums, name) == {} then None
    else Some(albums[NamedKey(albums, name)])
  }

  /** The key `getAlbumByName` picks: the smallest key carrying that name. */
  function NamedKey(albums: AlbumTable, name: string): (k: int)
    requires NamedIds(albums, name) != {}
    ensures k in albums && albums[k].name == name
    ensures forall j :: j in albums && albums[j].name == name ==> k <= j
  {
    var ks := NamedIds(albums, name);
    var rank := map j | j in ks :: 0;
    var k := Ordering.First(rank, ks);
    forall j | j in ks && j != k ensures k < j {
      assert Ordering.Before(rank, k, j) && rank[k] == 0 && rank[j] == 0;
    }
    k
  }

  /** `getCoverPhotoSync`: the album's cover path, absent for a missing album. */
  function CoverPhotoSync(albums: AlbumTable, id: int): (r: Option<string>)
    ensures id !in albums ==> r.None?
    ensures id in albums ==> r == albums[id].coverPhotoPath
  {
    if id in albums then albums[id].coverPhotoPath else None
  }

  /** Keys of every photo row whose `album_id` is `a`, in the bin or not. */
  function AlbumRowIds(photos: PhotoDao.PhotoTable, a: int): (ks: set<int>)
    ensures ks <= photos.Keys
    ensures PhotoDao.ActiveIds(photos, a) <= ks
  {
    set k | k in photos && photos[k].albumId == a
  }

  /** `(SELECT COUNT(*) FROM photos WHERE album_id = :albumId)`: the subquery
      of `updatePhotoCount`, which has no `is_deleted` filter. */
  function RowCount(photos: PhotoDao.PhotoTable, a: int): (n: nat)
    ensures n >= |PhotoDao.ActiveIds(photos, a)|
  {
    CardMono(PhotoDao.ActiveIds(photos, a), AlbumRowIds(photos, a));
    |AlbumRowIds(photos, a)|
  }

  lemma CardMono(a: set<int>, b: set<int>)
    requires a <= b
    ensures |a| <= |b|
  {
    assert b == a + (b - a);
  }

  /** The count `updatePhotoCount` stores exceeds the number of photos
      the album shows exactly when the album has rows in the bin. */
  lemma RowCountCountsBin(photos: PhotoDao.PhotoTable, a: int)
    ensures RowCount(photos, a) == PhotoDao.PhotoCountByAlbum(photos, a) + |set k | k in photos && photos[k].albumId == a && photos[k].isDeleted|
    ensures RowCount(photos, a) > PhotoDao.PhotoCountByAlbum(photos, a) <==>
              exists k :: k in photos && photos[k].albumId == a && photos[k].isDeleted
  {
    var all := AlbumRowIds(photos, a);
    var active := PhotoDao.ActiveIds(photos, a);
    var bin := set k | k in photos && photos[k].albumId == a && photos[k].isDeleted;
    assert all == active + bin;
    assert active * bin == {};
    if exists k :: k in photos && photos[k].albumId == a && photos[k].isDeleted {
      var k :| k in photos && photos[k].albumId == a && photos[k].isDeleted;
      assert k in bin;
    }
  }
}
