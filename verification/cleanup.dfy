/** The server-side housekeeping: the hourly sweep of expired photos, the
    reclaiming of empty albums, the administrative album delete and the blob
    cleanup run when a photo record is deleted. The database and the storage
    bucket are one abstract store; which storage deletes fail is handed in as
    a set of paths. */
module Cleanup {
  import opened Wrappers

  /** The fields of a photo record the housekeeping reads (time in ms). */
  datatype PhotoDoc = PhotoDoc(albumId: string, filePath: string, deleteAt: int)

  /** The outcome of `forceDeleteAlbum`. */
  datatype ForceDeleteOutcome =
    | InvalidArgument(message: string)
    | Deleted(deletedPhotos: nat)

  const MissingAlbumId: string := "Album ID is required"

  /** The sweep's query: `deleteAt <= now`. */
  predicate Expired(p: PhotoDoc, now: int)
  {
    p.deleteAt <= now
  }

  /** The ids of the expired photo records. */
  function ExpiredIds(photos: map<string, PhotoDoc>, now: int): set<string>
  {
    set id | id in photos && Expired(photos[id], now)
  }

  /** The photo records that survive a sweep at `now`. */
  function Unexpired(photos: map<string, PhotoDoc>, now: int): map<string, PhotoDoc>
  {
    photos - ExpiredIds(photos, now)
  }

  /** The ids of the photo records of one album: `where('albumId', '==', id)`. */
  function PhotosOf(photos: map<string, PhotoDoc>, albumId: string): set<string>
  {
    set id | id in photos && photos[id].albumId == albumId
  }

  /** The albums some photo record points at. */
  function ReferencedAlbums(photos: map<string, PhotoDoc>): set<string>
  {
    set id | id in photos :: photos[id].albumId
  }

  /** The albums cleanup deletes: those no photo record points at. */
  function EmptyAlbums(photos: map<string, PhotoDoc>, albums: set<string>): set<string>
  {
    albums - ReferencedAlbums(photos)
  }

  /** The per-album query comes back empty exactly when no record points at
      the album. */
  lemma PhotosOfEmpty(photos: map<string, PhotoDoc>, albumId: string)
    ensures PhotosOf(photos, albumId) == {} <==> albumId !in ReferencedAlbums(photos)
  {
    if albumId in ReferencedAlbums(photos) {
      var id :| id in photos && photos[id].albumId == albumId;
      assert id in PhotosOf(photos, albumId);
    }
  }

  /** The storage paths actually deleted when the records `ids` are
      processed: each record's path, unless the delete of that path fails. */
  function DeletedPaths(photos: map<string, PhotoDoc>, ids: set<string>, failing: set<string>): set<string>
  {
    set id | id in ids && id in photos && photos[id].filePath !in failing :: photos[id].filePath
  }

  /** A sweep removes exactly the expired records and leaves every other
      record as it was. */
  lemma UnexpiredExactly(photos: map<string, PhotoDoc>, now: int)
    ensures forall id :: id in Unexpired(photos, now) <==> id in photos && photos[id].deleteAt > now
    ensures forall id :: id in Unexpired(photos, now) ==> Unexpired(photos, now)[id] == photos[id]
  {
  }

  /** The expired and the surviving records split the store. */
  lemma SweepPartition(photos: map<string, PhotoDoc>, now: int)
    ensures ExpiredIds(photos, now) * Unexpired(photos, now).Keys == {}
    ensures ExpiredIds(photos, now) + Unexpired(photos, now).Keys == photos.Keys
    ensures |ExpiredIds(photos, now)| + |Unexpired(photos, now).Keys| == |photos.Keys|
  {
    var e := ExpiredIds(photos, now);
    var u := Unexpired(photos, now).Keys;
    assert u == photos.Keys - e;
    assert e + u == photos.Keys;
    assert |e + u| == |e| + |u|;
  }

  /** A second sweep at the same time finds nothing expired, so it returns
      without touching the store. */
  lemma SweepIdempotent(photos: map<string, PhotoDoc>, now: int)
    ensures ExpiredIds(Unexpired(photos, now), now) == {}
    ensures Unexpired(Unexpired(photos, now), now) == Unexpired(photos, now)
  {
    var u := Unexpired(photos, now);
    assert forall id :: id in u ==> !Expired(u[id], now);
  }

  /** A later sweep selects every record an earlier one would. */
  lemma SweepMonotone(photos: map<string, PhotoDoc>, earlier: int, later: int)
    requires earlier <= later
    ensures ExpiredIds(photos, earlier) <= ExpiredIds(photos, later)
  {
  }

  /** Cleanup keeps an album iff some photo record points at it. */
  lemma CleanupKeepsExactlyReferenced(photos: map<string, PhotoDoc>, albums: set<string>, a: string)
    ensures a in albums - EmptyAlbums(photos, albums) <==>
      a in albums && exists id :: id in photos && photos[id].albumId == a
  {
    if a in albums && exists id :: id in photos && photos[id].albumId == a {
      var id :| id in photos && photos[id].albumId == a;
      assert a in ReferencedAlbums(photos);
    }
  }

  /** A second cleanup over the resulting albums deletes nothing. */
  lemma CleanupIdempotent(photos: map<string, PhotoDoc>, albums: set<string>)
    ensures EmptyAlbums(photos, albums - EmptyAlbums(photos, albums)) == {}
  {
  }

  /** After a sweep at `now` and the cleanup it runs, an album survives iff
      it has a photo that has not expired. */
  lemma SweepThenCleanup(photos: map<string, PhotoDoc>, albums: set<string>, now: int, a: string)
    ensures a in albums - EmptyAlbums(Unexpired(photos, now), albums) <==>
      a in albums && exists id :: id in photos && photos[id].albumId == a && photos[id].deleteAt > now
  {
    var u := Unexpired(photos, now);
    if a in albums && a in ReferencedAlbums(u) {
      var id :| id in u && u[id].albumId == a;
      assert id in photos && photos[id].albumId == a && photos[id].deleteAt > now;
    }
    if exists id :: id in photos && photos[id].albumId == a && photos[id].deleteAt > now {
      var id :| id in photos && photos[id].albumId == a && photos[id].deleteAt > now;
      assert id in u && u[id].albumId == a;
    }
  }

  /** Deleting an album's records leaves none pointing at it and keeps every
      record of the other albums. */
  lemma ForceDeleteLeavesOthers(photos: map<string, PhotoDoc>, albumId: string)
    ensures albumId !in ReferencedAlbums(photos - PhotosOf(photos, albumId))
    ensures forall id :: id in photos && photos[id].albumId != albumId ==>
      id in photos - PhotosOf(photos, albumId) && (photos - PhotosOf(photos, albumId))[id] == photos[id]
  {
    var rest := photos - PhotosOf(photos, albumId);
    assert forall id :: id in rest ==> rest[id].albumId != albumId;
  }

  /** Processing one more record removes its path too, unless that delete fails. */
  lemma DeletedPathsAdd(photos: map<string, PhotoDoc>, ids: set<string>, id: string, failing: set<string>)
    requires id in photos
    ensures DeletedPaths(photos, ids + {id}, failing)
      == DeletedPaths(photos, ids, failing) + (if photos[id].filePath in failing then {} else {photos[id].filePath})
  {
  }

  /** One iteration of the record-deleting loop: deleting record `id` and,
      unless it fails, its blob, moves the store on by exactly that record. */
  lemma DeleteStep(snapshot: map<string, PhotoDoc>, ids: set<string>, remaining: set<string>, id: string,
                   failing: set<string>, blobs: set<string>)
    requires remaining <= ids <= snapshot.Keys && id in remaining
    ensures (snapshot - (ids - remaining)) - {id} == snapshot - (ids - (remaining - {id}))
    ensures var before := blobs - DeletedPaths(snapshot, ids - remaining, failing);
      var after := blobs - DeletedPaths(snapshot, ids - (remaining - {id}), failing);
      var path := snapshot[id].filePath;
      (if path in failing then before else before - {path}) == after
  {
    assert ids - (remaining - {id}) == (ids - remaining) + {id};
    DeletedPathsAdd(snapshot, ids - remaining, id, failing);
  }

  /** One iteration of the cleanup loop: checking album `a` deletes it iff no
      record points at it, and the count follows the deleted set. */
  lemma CleanupStep(albums: set<string>, referenced: set<string>, remaining: set<string>,
                    deleted: set<string>, a: string)
    requires remaining <= albums && deleted == (albums - remaining) - referenced && a in remaining
    ensures a !in referenced ==> deleted + {a} == (albums - (remaining - {a})) - referenced
    ensures a in referenced ==> deleted == (albums - (remaining - {a})) - referenced
    ensures (albums - deleted) - {a} == albums - (deleted + {a})
    ensures |deleted + {a}| == |deleted| + 1
  {
  }

  /** The database collections and the storage bucket. */
  class Store {
    var photos: map<string, PhotoDoc>
    var albums: set<string>
    var blobs: set<string>

    constructor (photos: map<string, PhotoDoc>, albums: set<string>, blobs: set<string>)
      ensures this.photos == photos && this.albums == albums && this.blobs == blobs
    {
      this.photos := photos;
      this.albums := albums;
      this.blobs := blobs;
    }

    /** Deletes the records `ids` and their blobs, one record at a time: a
        failed blob delete is swallowed and the record is deleted anyway. */
    method DeletePhotos(ids: set<string>, failing: set<string>)
      requires ids <= photos.Keys
      modifies this
      ensures photos == old(photos) - ids
      ensures blobs == old(blobs) - DeletedPaths(old(photos), ids, failing)
      ensures albums == old(albums)
    {
      var snapshot := photos;
      var remaining := ids;
      while remaining != {}
        invariant remaining <= ids
        invariant photos == snapshot - (ids - remaining)
        invariant blobs == old(blobs) - DeletedPaths(snapshot, ids - remaining, failing)
        invariant albums == old(albums)
        decreases |remaining|
      {
        var id :| id in remaining;
        DeleteStep(snapshot, ids, remaining, id, failing, old(blobs));
        var doc := snapshot[id];
        if doc.filePath !in failing {
          blobs := blobs - {doc.filePath};
        }
        photos := photos - {id};
        remaining := remaining - {id};
      }
    }

    /** `cleanupEmptyAlbums`: checks every album in turn and deletes those
        without photo records, counting the deletions. */
    method CleanupEmptyAlbums() returns (deletedCount: nat)
      modifies this
      ensures photos == old(photos) && blobs == old(blobs)
      ensures albums == old(albums) - EmptyAlbums(photos, old(albums))
      ensures deletedCount == |EmptyAlbums(photos, old(albums))|
    {
      var all := albums;
      var records := photos;
      var kept := all;
      var remaining := all;
      deletedCount := 0;
      ghost var deleted: set<string> := {};
      ghost var referenced := ReferencedAlbums(records);
      while remaining != {}
        modifies {}
        invariant remaining <= all
        invariant deleted == (all - remaining) - referenced
        invariant kept == all - deleted
        invariant deletedCount == |deleted|
        decreases |remaining|
      {
        var albumId :| albumId in remaining;
        CleanupStep(all, referenced, remaining, deleted, albumId);
        var photosCount := PhotosOf(records, albumId);
        PhotosOfEmpty(records, albumId);
        if photosCount == {} {
          kept := kept - {albumId};
          deletedCount := deletedCount + 1;
          deleted := deleted + {albumId};
        }
        remaining := remaining - {albumId};
      }
      assert all - remaining == all;
      albums := kept;
    }

    /** `autoDeleteExpiredPhotos`: with nothing expired it returns at once;
        otherwise it deletes every expired record and its blob, then reclaims
        the albums left without photos. */
    method AutoDeleteExpiredPhotos(now: int, failing: set<string>)
      modifies this
      ensures ExpiredIds(old(photos), now) == {} ==>
        photos == old(photos) && albums == old(albums) && blobs == old(blobs)
      ensures ExpiredIds(old(photos), now) != {} ==>
        && photos == Unexpired(old(photos), now)
        && blobs == old(blobs) - DeletedPaths(old(photos), ExpiredIds(old(photos), now), failing)
        && albums == old(albums) - EmptyAlbums(photos, old(albums))
    {
      var expired := set id | id in photos && photos[id].deleteAt <= now;
      if expired == {} {
        return;
      }
      DeletePhotos(expired, failing);
      var _ := CleanupEmptyAlbums();
    }

    /** `forceDeleteAlbum`: a missing or empty id is rejected with the store
        untouched; otherwise the album's records and blobs go, then the album,
        and the number of matched records is returned. */
    method ForceDeleteAlbum(albumId: Option<string>, failing: set<string>) returns (r: ForceDeleteOutcome)
      modifies this
      ensures albumId.None? || albumId.value == "" ==>
        r == InvalidArgument(MissingAlbumId)
        && photos == old(photos) && albums == old(albums) && blobs == old(blobs)
      ensures albumId.Some? && albumId.value != "" ==>
        var matched := PhotosOf(old(photos), albumId.value);
        && r == Deleted(|matched|)
        && photos == old(photos) - matched
        && blobs == old(blobs) - DeletedPaths(old(photos), matched, failing)
        && albums == old(albums) - {albumId.value}
    {
      if albumId.None? || albumId.value == "" {
        return InvalidArgument(MissingAlbumId);
      }
      var id := albumId.value;
      var matched := set k | k in photos && photos[k].albumId == id;
      DeletePhotos(matched, failing);
      albums := albums - {id};
      r := Deleted(|matched|);
    }

    /** `onPhotoDelete`: without the deleted record's data nothing happens;
        otherwise its blob is deleted, and a failing delete is swallowed. */
    method OnPhotoDelete(snap: Option<PhotoDoc>, failing: set<string>)
      modifies this
      ensures snap.None? || snap.value.filePath in failing ==> blobs == old(blobs)
      ensures snap.Some? && snap.value.filePath !in failing ==> blobs == old(blobs) - {snap.value.filePath}
      ensures photos == old(photos) && albums == old(albums)
    {
      if snap.None? {
        return;
      }
      var path := snap.value.filePath;
      if path !in failing {
        blobs := blobs - {path};
      }
    }
  }
}
