/** The step of `handleUpload` that turns the batch's result list into photo
    records and the album object handed to the caller. */
module AlbumAssembly {
  import opened Wrappers
  import opened Progress
  import opened BatchUpload

  /** How long a photo is kept: 24 hours, in milliseconds. */
  const RetentionMs: int := 24 * 60 * 60 * 1000

  /** The storage folder every photo path starts with. */
  const StorageFolder: string := "photo-share-albums"

  /** A photo record as stored in the `photos` collection (times in ms). */
  datatype Photo = Photo(
    id: string,
    fileName: string,
    downloadURL: string,
    filePath: string,
    albumId: string,
    uploadTime: int,
    deleteAt: int,
    fileSize: nat)

  /** The album object passed to `onAlbumCreated`. */
  datatype Album = Album(
    id: string,
    name: string,
    photos: seq<Photo>,
    shareLink: string,
    createdAt: int,
    views: nat)

  /** `savePhoto` as an oracle: for the result at index i it returns the new
      record's id, or `None` when the call throws. */
  type SaveOracle = nat -> Option<string>

  /** The storage path recorded for a file of an album. */
  function PhotoPath(albumId: string, fileName: string): string
  {
    StorageFolder + "/" + albumId + "/" + fileName
  }

  /** The path falls apart again into the folder, the album id and the file
      name, so distinct albums or names never share a path of equal shape. */
  lemma PhotoPathParts(albumId: string, fileName: string)
    ensures var p := PhotoPath(albumId, fileName);
      var a := |StorageFolder| + 1;
      && |p| == a + |albumId| + 1 + |fileName|
      && p[..a] == StorageFolder + "/"
      && p[a..a + |albumId|] == albumId
      && p[a + |albumId|] == '/'
      && p[a + |albumId| + 1..] == fileName
  {
    var p := PhotoPath(albumId, fileName);
    var a := |StorageFolder| + 1;
    assert p == (StorageFolder + "/") + albumId + "/" + fileName;
  }

  /** A result that yields a photo: the upload succeeded with a non-empty URL. */
  predicate Storable(r: UploadResult)
  {
    r.Uploaded? && r.url != ""
  }

  /** The record built for a stored result, with the id `savePhoto` returned. */
  function PhotoFor(id: string, r: UploadResult, albumId: string, now: int): (p: Photo)
    requires r.Uploaded?
    ensures p.id == id && p.fileName == r.file.name && p.downloadURL == r.url && p.albumId == albumId
  {
    Photo(id, r.file.name, r.url, PhotoPath(albumId, r.file.name), albumId, now, now + RetentionMs, r.file.size)
  }

  /** The photos of the album: one per storable result whose save returned an
      id, in the order of the results. */
  function ExpectedPhotos(results: seq<UploadResult>, albumId: string, now: int, save: SaveOracle): seq<Photo>
  {
    if results == [] then []
    else
      var n := |results| - 1;
      ExpectedPhotos(results[..n], albumId, now, save)
        + (if Storable(results[n]) && save(n).Some? then [PhotoFor(save(n).value, results[n], albumId, now)] else [])
  }

  /** The loop over the results, pushing one record per saved photo. */
  method AssemblePhotos(results: seq<UploadResult>, albumId: string, now: int, save: SaveOracle)
    returns (photos: seq<Photo>)
    ensures photos == ExpectedPhotos(results, albumId, now, save)
  {
    photos := [];
    for i := 0 to |results|
      invariant photos == ExpectedPhotos(results[..i], albumId, now, save)
    {
      assert results[..i + 1][..i] == results[..i];
      var result := results[i];
      if result.Uploaded? && result.url != "" {
        var saved := save(i);
        if saved.Some? {
          photos := photos + [PhotoFor(saved.value, result, albumId, now)];
        }
      }
    }
    assert results[..|results|] == results;
  }

  /** Every photo of the album is stored under its album's folder, belongs to
      the album, was uploaded at `now` and expires exactly 24 hours later. */
  lemma {:induction false} ExpectedPhotosShape(results: seq<UploadResult>, albumId: string, now: int, save: SaveOracle)
    ensures forall p :: p in ExpectedPhotos(results, albumId, now, save) ==>
      && p.filePath == PhotoPath(albumId, p.fileName)
      && p.albumId == albumId
      && p.uploadTime == now
      && p.deleteAt == now + RetentionMs
      && p.downloadURL != ""
  {
    if results != [] {
      ExpectedPhotosShape(results[..|results| - 1], albumId, now, save);
    }
  }

  /** Each photo comes from a storable result whose save returned the photo's
      id, and every such result gives a photo: the album holds exactly the
      saved uploads. */
  lemma {:induction false} ExpectedPhotosExactly(results: seq<UploadResult>, albumId: string, now: int, save: SaveOracle)
    ensures forall p :: p in ExpectedPhotos(results, albumId, now, save) ==>
      exists i :: 0 <= i < |results| && Storable(results[i]) && save(i) == Some(p.id)
        && p == PhotoFor(p.id, results[i], albumId, now)
    ensures forall i :: 0 <= i < |results| && Storable(results[i]) && save(i).Some? ==>
      PhotoFor(save(i).value, results[i], albumId, now) in ExpectedPhotos(results, albumId, now, save)
  {
    if results != [] {
      var n := |results| - 1;
      var init := results[..n];
      ExpectedPhotosExactly(init, albumId, now, save);
      assert forall i :: 0 <= i < n ==> init[i] == results[i];
    }
  }

  /** There are never more photos than successful uploads. */
  lemma {:induction false} ExpectedPhotosBound(results: seq<UploadResult>, albumId: string, now: int, save: SaveOracle)
    ensures |ExpectedPhotos(results, albumId, now, save)| <= CountOk(results)
  {
    if results != [] {
      ExpectedPhotosBound(results[..|results| - 1], albumId, now, save);
    }
  }

  /** When every upload succeeded with a URL and every save went through, the
      album has one photo per selected file. */
  lemma {:induction false} ExpectedPhotosComplete(results: seq<UploadResult>, albumId: string, now: int, save: SaveOracle)
    requires forall i :: 0 <= i < |results| ==> Storable(results[i]) && save(i).Some?
    ensures |ExpectedPhotos(results, albumId, now, save)| == |results|
  {
    if results != [] {
      var init := results[..|results| - 1];
      assert forall i :: 0 <= i < |init| ==> init[i] == results[i];
      ExpectedPhotosComplete(init, albumId, now, save);
    }
  }

  /** The share link of an album: `<origin>/album/<albumId>`. */
  function ShareLink(origin: string, albumId: string): string
  {
    origin + "/album/" + albumId
  }

  /** The album id can be read back from the share link, after the origin
      and the fixed `/album/` segment. */
  lemma ShareLinkNamesAlbum(origin: string, albumId: string)
    ensures var link := ShareLink(origin, albumId);
      && |link| == |origin| + 7 + |albumId|
      && link[..|origin|] == origin
      && link[|origin|..|origin| + 7] == "/album/"
      && link[|origin| + 7..] == albumId
  {
    var link := ShareLink(origin, albumId);
    assert link == origin + ("/album/" + albumId);
  }

  /** The album object built after the uploads. */
  function NewAlbum(albumId: string, name: string, photos: seq<Photo>, origin: string, createdAt: int): (a: Album)
    ensures a.id == albumId && a.name == name && a.photos == photos
    ensures a.shareLink == ShareLink(origin, albumId) && a.views == 0
  {
    Album(albumId, name, photos, ShareLink(origin, albumId), createdAt, 0)
  }
}
