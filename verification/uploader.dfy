/** The session state of the upload component and the handlers that change
    it. Rendering is not modelled; the date label, the clock, the page
    origin, album creation and `savePhoto` are handed in. */
module Uploader {
  import opened Wrappers
  import opened Progress
  import opened BatchUpload
  import opened AlbumAssembly

  /** The options `handleUpload` passes to the batch. */
  const UploadConcurrency: int := 6
  const UploadMaxRetries: nat := 3

  class PhotoUploader {
    var selectedFiles: seq<File>
    var albumName: string
    var uploading: bool
    var paused: bool
    var uploadProgress: seq<UploadProgress>
    var batchStats: BatchStats

    /** The initial state of the component. */
    constructor ()
      ensures selectedFiles == [] && albumName == "" && !uploading && !paused
      ensures uploadProgress == [] && batchStats == BatchStats(0, 0, 0, 0)
    {
      selectedFiles := [];
      albumName := "";
      uploading := false;
      paused := false;
      uploadProgress := [];
      batchStats := BatchStats(0, 0, 0, 0);
    }

    /** The file list and the progress list describe the same files, in the
        same order, with valid percentages. */
    ghost predicate Aligned()
      reads this
    {
      Names(uploadProgress) == FileNames(selectedFiles) && ValidProgress(uploadProgress)
    }

    /** `handleFileSelect`: with no file list nothing changes; otherwise the
        files are selected, the album gets a dated default name, every file
        gets a waiting entry at 0% and the statistics restart. */
    method HandleFileSelect(files: Option<seq<File>>, dateLabel: string)
      modifies this
      ensures files.None? ==> selectedFiles == old(selectedFiles) && albumName == old(albumName)
      ensures files.None? ==> uploadProgress == old(uploadProgress) && batchStats == old(batchStats)
      ensures files.Some? ==> selectedFiles == files.value && albumName == "Album " + dateLabel
      ensures files.Some? ==> uploadProgress == InitialProgress(files.value)
      ensures files.Some? ==> batchStats == BatchStats(0, 0, 0, |files.value|)
      ensures files.Some? ==> Aligned()
      ensures uploading == old(uploading) && paused == old(paused)
    {
      if files.Some? {
        var fs := files.value;
        selectedFiles := fs;
        albumName := "Album " + dateLabel;
        uploadProgress := InitialProgress(fs);
        batchStats := BatchStats(0, 0, 0, |fs|);
        InitialProgressAligned(fs);
      }
    }

    /** `removeFile`: drops the entry at `index` from both lists (neither
        changes for an index out of range) and decrements the total, which
        the source does whatever the index. */
    method RemoveFile(index: int)
      modifies this
      ensures selectedFiles == RemoveAt(old(selectedFiles), index)
      ensures uploadProgress == RemoveAt(old(uploadProgress), index)
      ensures batchStats == old(batchStats).(total := old(batchStats).total - 1)
      ensures old(Aligned()) ==> Aligned()
      ensures albumName == old(albumName) && uploading == old(uploading) && paused == old(paused)
    {
      if Aligned() {
        RemoveAtKeepsAlignment(selectedFiles, uploadProgress, index);
      }
      selectedFiles := RemoveAt(selectedFiles, index);
      uploadProgress := RemoveAt(uploadProgress, index);
      batchStats := batchStats.(total := batchStats.total - 1);
    }

    /** `handlePauseResume`: flips the pause flag. */
    method HandlePauseResume()
      modifies this
      ensures paused == !old(paused)
      ensures selectedFiles == old(selectedFiles) && albumName == old(albumName) && uploading == old(uploading)
      ensures uploadProgress == old(uploadProgress) && batchStats == old(batchStats)
    {
      paused := !paused;
    }

    /** `batchUploadToAppsScript`: drains the files through one queue with
        the clamped number of workers. `pausedAtRender` is the pause flag the
        workers' loop guard reads: the value from the render in which the
        upload started. The progress list is rewritten entry by entry and the
        statistics take the last report. */
    method BatchUploadToAppsScript(files: seq<File>, net: Network, concurrency: Option<int>,
                                   maxRetries: Option<nat>, pausedAtRender: bool)
      returns (results: seq<UploadResult>)
      modifies this`uploadProgress, this`batchStats
      ensures !pausedAtRender ==> results == ExpectedResults(files, net, EffectiveMaxRetries(maxRetries))
      ensures pausedAtRender ==> results == []
      ensures uploadProgress == ApplyResults(old(uploadProgress), results)
      ensures batchStats == if results == [] then old(batchStats)
        else BatchStats(|results|, CountOk(results), CountFailed(results), |files|)
    {
      var run := new BatchRun(files, net, EffectiveMaxRetries(maxRetries), uploadProgress);
      run.Run(EffectiveConcurrency(concurrency), pausedAtRender);
      results := run.results;
      uploadProgress := run.progress;
      CountsAddUp(results);
      if run.lastReport.Some? {
        batchStats := run.lastReport.value;
      }
    }

    /** The body of `handleUpload` once the album exists: the batch over
        the selection, the photo records of the saved uploads, the album
        object and the reset of the form. */
    method UploadIntoAlbum(albumId: string, net: Network, save: SaveOracle, now: int, origin: string,
                           pausedAtRender: bool)
      returns (album: Album)
      modifies this`selectedFiles, this`albumName, this`uploadProgress, this`batchStats
      ensures var results := if pausedAtRender then [] else ExpectedResults(old(selectedFiles), net, UploadMaxRetries);
        && album == NewAlbum(albumId, old(albumName), ExpectedPhotos(results, albumId, now, save), origin, now)
        && uploadProgress == ApplyResults(old(uploadProgress), results)
        && batchStats == (if results == [] then old(batchStats)
                          else BatchStats(|results|, CountOk(results), CountFailed(results), |old(selectedFiles)|))
      ensures selectedFiles == [] && albumName == ""
    {
      var results := BatchUploadToAppsScript(selectedFiles, net, Some(UploadConcurrency),
                                             Some(UploadMaxRetries), pausedAtRender);
      var photos := AssemblePhotos(results, albumId, now, save);
      album := NewAlbum(albumId, albumName, photos, origin, now);
      selectedFiles := [];
      albumName := "";
    }

    /** `handleUpload`. Without files or an album name nothing happens. If
        creating the album fails, no upload starts and the selection is
        kept. Otherwise the files are uploaded into the new album, the saved
        photos are assembled into it, the selection is cleared and the album
        is returned. `now` is the single clock reading used for all
        timestamps and `origin` is the page's origin. */
    method HandleUpload(createdAlbumId: Option<string>, net: Network, save: SaveOracle, now: int, origin: string)
      returns (album: Option<Album>)
      modifies this
      ensures old(selectedFiles) == [] || old(albumName) == "" ==>
        album == None && selectedFiles == old(selectedFiles) && albumName == old(albumName)
        && uploading == old(uploading) && paused == old(paused)
        && uploadProgress == old(uploadProgress) && batchStats == old(batchStats)
      ensures old(selectedFiles) != [] && old(albumName) != "" && createdAlbumId.None? ==>
        album == None && selectedFiles == old(selectedFiles) && albumName == old(albumName)
        && !uploading && !paused
        && uploadProgress == old(uploadProgress) && batchStats == old(batchStats)
      ensures old(selectedFiles) != [] && old(albumName) != "" && createdAlbumId.Some? ==>
        var results := if old(paused) then [] else ExpectedResults(old(selectedFiles), net, UploadMaxRetries);
        && album == Some(NewAlbum(createdAlbumId.value, old(albumName),
                                  ExpectedPhotos(results, createdAlbumId.value, now, save), origin, now))
        && uploadProgress == ApplyResults(old(uploadProgress), results)
        && batchStats == (if results == [] then old(batchStats)
                          else BatchStats(|results|, CountOk(results), CountFailed(results), |old(selectedFiles)|))
        && selectedFiles == [] && albumName == "" && !uploading && !paused
    {
      if |selectedFiles| == 0 || albumName == "" {
        return None;
      }
      uploading := true;
      var captured := paused;
      paused := false;
      match createdAlbumId {
        case None =>
          album := None;
        case Some(albumId) =>
          var made := UploadIntoAlbum(albumId, net, save, now, origin, captured);
          album := Some(made);
      }
      uploading := false;
      paused := false;
    }
  }

  /** Selecting files with distinct names and uploading them all leaves every
      entry at 100% and completed for a success, and with status error at 20%
      for a failure. */
  lemma UploadSettlesSelection(files: seq<File>, net: Network)
    requires DistinctNames(files)
    ensures var rs := ExpectedResults(files, net, UploadMaxRetries);
      forall i :: 0 <= i < |files| ==>
        ApplyResults(InitialProgress(files), rs)[i] == Settled(InitialProgress(files)[i], rs[i])
  {
    var rs := ExpectedResults(files, net, UploadMaxRetries);
    ExpectedResultsAt(files, net, UploadMaxRetries);
    assert forall i :: 0 <= i < |rs| ==> rs[i].file == files[i];
    DrainSettlesEveryEntry(files, rs);
  }
}
