# Photo-share upload engine and expiration sweep, in Dafny

This project models the two parts of the photo-sharing application that hold
its logic.

**The browser-side batch upload engine** (`src/components/PhotoUploader.tsx`).
- The retry classifier `shouldRetry` and the bounded retry loop `retry`.
- The response checks of `uploadToAppsScript`.
- The queue-draining scheduler `batchUploadToAppsScript`, with its counters and per-file progress entries.
- The session handlers `handleFileSelect`, `removeFile`, `handlePauseResume` and `handleUpload`.
- The building of photo records and the album object after a batch, and the `totalProgress` mean.

**The server-side housekeeping** (`functions/src/index.ts`).
- The hourly sweep `autoDeleteExpiredPhotos` and the album reclaimer `cleanupEmptyAlbums`.
- The administrative `forceDeleteAlbum` and the blob cleanup trigger `onPhotoDelete`.
- All of these act on one abstract store: photo records keyed by id, a set of album ids and a set of storage paths.

Modules, one file each:
- `Wrappers` (`wrappers.dfy`): `Option`.
- `Strings` (`strings.dfy`): ASCII lower-casing, `includes`, and decimal rendering of numbers.
- `RetryPolicy` (`retry.dfy`): the classifier and the retry loop, over an arbitrary operation given as the outcome of each call.
- `UploadClient` (`upload_client.dfy`): what one attempt against the upload endpoint yields.
- `Progress` (`progress.dfy`): the progress list and its pure operations.
- `BatchUpload` (`batch.dfy`):
  - the result list as a function of the files and the network;
  - the class `BatchRun`, which holds the queue, results, counters, progress list and last report, and whose methods are the worker's steps.
- `AlbumAssembly` (`assembly.dfy`): photo records and the album object.
- `Uploader` (`uploader.dfy`): the component's state as the class `PhotoUploader`, with one method per handler.
- `Cleanup` (`cleanup.dfy`): the store as the class `Store`, with one method per cloud function.

Abstractions:
- The network is an oracle `net(i, k)`: the transport outcome of attempt `k` for the `i`-th file dequeued.
- `savePhoto` is an oracle from the result's index to the new record's id, or to nothing when the save throws.
- `createAlbum` is its result, handed in.
- Storage deletes that fail are a set of failing paths.
- The clock is one reading `now`, in milliseconds. The date label and the page origin are parameters.

In three places the code does not do what an upload screen would be expected to do; the model follows the code.
- **Pause.** A pause button is expected to stop new dequeues until it is released. In the code, the worker's loop guard reads the `paused` value captured when `handleUpload` was rendered, and `handleUpload` clears the flag as it starts, so a running batch ignores the button. The model hands that captured value to the batch as `pausedAtRender`. Through the component this value is always false: the pause button is shown only while uploading, and `handleUpload` resets the flag when it ends. The `pausedAtRender = true` branch, which yields an empty result list, is reached only by calling the handlers directly.
- **The total after a removal.** Removing a file is expected to lower `total` only when a file goes. The code lowers it for any index passed to `removeFile`, even one outside the list, which removes nothing.
- **Removal during a batch.** Removing a pending file is expected to keep it from being uploaded. In the code, `removeFile` only edits the selection and the progress list; the batch drains its own copy of the file list.

## Model

| member | source | states |
|---|---|---|
| Strings.Lower | src/components/PhotoUploader.tsx:53 | lower-casing keeps the length and maps each character by itself (A-Z to a-z, all else unchanged) |
| Strings.LowerIdempotent | src/components/PhotoUploader.tsx:53 | lower-casing an already lower-cased text changes nothing |
| Strings.EqualIgnoringCaseLower | src/components/PhotoUploader.tsx:53 | texts equal up to letter case lower-case to the same text |
| Strings.Contains | src/components/PhotoUploader.tsx:55-61 | `s.includes(p)`, defined as: p is a prefix of s or of one of its suffixes; `Strings.ContainsIff` shows this is "p occurs at some position" |
| Strings.ContainsIff | src/components/PhotoUploader.tsx:55-61 | `includes` holds iff the pattern occurs at some position of the text |
| Strings.Decimal | src/components/PhotoUploader.tsx:113 | the rendering of a number is a non-empty digit string, one digit long exactly for numbers below 10 |
| RetryPolicy.ClassifierText | src/components/PhotoUploader.tsx:53 | the text the classifier reads: the message of an `Error`, otherwise the thrown value as a string |
| RetryPolicy.ShouldRetry | src/components/PhotoUploader.tsx:52-63 | `shouldRetry`, defined as: the lower-cased classifier text contains one of the seven markers; the lemmas below state what that means |
| RetryPolicy.ShouldRetryMatchesTable | src/components/PhotoUploader.tsx:52-63 | an error is retried iff its lower-cased text (the message of an Error, else the value as text) contains one of the seven markers of the table |
| RetryPolicy.ShouldRetryIgnoresCase | src/components/PhotoUploader.tsx:53-62 | two errors whose texts differ only in letter case are classified alike |
| RetryPolicy.ShouldRetryOnMarker | src/components/PhotoUploader.tsx:53-62 | a marker anywhere in the text, in any case, makes the error transient |
| RetryPolicy.RetryFrom | src/components/PhotoUploader.tsx:73-84 | the loop entered at attempt k, defined by recursion: a success returns, an error on the last attempt or a permanent error is rethrown, any other error tries the next attempt; its properties are in `RetryPolicy.RetryFromSpec` |
| RetryPolicy.RetryResult | src/components/PhotoUploader.tsx:66-85 | the whole run of `retry`, from attempt 0 |
| RetryPolicy.IsRetryRun | src/components/PhotoUploader.tsx:66-85 | a loop-free description of a run: at most max+1 calls, the last call's outcome, only transient errors before it, and a final error only when permanent or on the last attempt; `RetryPolicy.RetryRunUnique` shows the loop's run is the only one that meets it |
| RetryPolicy.RetryFromSpec | src/components/PhotoUploader.tsx:71-84 | a run entered at attempt k makes more than k and at most max+1 calls, ends with its last call's outcome, meets only transient errors before that, and ends in an error only if it is permanent or the attempts are used up |
| RetryPolicy.RetryRunUnique | src/components/PhotoUploader.tsx:66-85 | the loop's run meets that description from attempt 0, and it is the only run that does |
| RetryPolicy.RetryStopsOnPermanentError | src/components/PhotoUploader.tsx:76-84 | a permanent error on the first call is rethrown after that single call |
| RetryPolicy.RetryExhausted | src/components/PhotoUploader.tsx:73-84 | when every allowed attempt fails transiently there are max+1 calls and the last error caught is thrown |
| RetryPolicy.RetryThreeTransientThenSuccess | src/components/PhotoUploader.tsx:66-85 | with three retries, three transient failures then a success return the fourth call's value after four calls |
| RetryPolicy.Retry | src/components/PhotoUploader.tsx:66-85 | the while loop over `attempt` and `lastErr` returns exactly the outcome and call count of the run described above |
| UploadClient.HttpErrorMessage | src/components/PhotoUploader.tsx:113 | the message of a non-ok response: `HTTP `, the status in decimal, `: ` and the status text |
| UploadClient.UploadAttempt | src/components/PhotoUploader.tsx:112-123 | an attempt succeeds iff the response is ok, its body parses and says success, and then yields `directUrl`; a non-ok response throws `HTTP <status>: <statusText>`; a rejection throws its `error` or the default message |
| UploadClient.OverloadStatusIsRetried | src/components/PhotoUploader.tsx:112-114 | a 503 or 429 response is always retried, whatever its status text |
| UploadClient.PermanentWithoutMarkerLetters | src/components/PhotoUploader.tsx:52-63 | a text lacking m, v, x, 5 and 4 in both cases and never having "ra" is never retried |
| UploadClient.SilentRejectionIsPermanent | src/components/PhotoUploader.tsx:119-121 | a rejection without a reason (the default message) is not retried |
| Progress.InitialProgress | src/components/PhotoUploader.tsx:211-215 | one waiting entry at 0% per selected file, with that file's name, in order |
| Progress.InitialProgressAligned | src/components/PhotoUploader.tsx:211-216 | the fresh list has valid percentages and lines up with the files by name |
| Progress.Apply | src/components/PhotoUploader.tsx:157-188 | start gives (20, uploading), success (100, completed), failure status error keeping the percentage; the name never changes |
| Progress.UpdateByName | src/components/PhotoUploader.tsx:157-188 | the `prev.map` keyed by file name; it keeps the length, and `Progress.UpdateByNameAt` gives every entry |
| Progress.UpdateByNameAt | src/components/PhotoUploader.tsx:157-163 | entry i is transformed iff it carries the file's name, and is left as it was otherwise |
| Progress.UpdateByNameKeepsNames | src/components/PhotoUploader.tsx:157-188 | an update keeps the list's names in order, so its length too |
| Progress.UpdateByNameKeepsValid | src/components/PhotoUploader.tsx:157-188 | an update keeps every percentage within [0, 100] |
| Progress.UpdateByNameMissingName | src/components/PhotoUploader.tsx:158-162 | an update for a name no entry carries changes nothing |
| Progress.UpdateByNameIdempotent | src/components/PhotoUploader.tsx:157-163 | applying the same update twice equals applying it once |
| Progress.SameNameEntriesMoveTogether | src/components/PhotoUploader.tsx:159 | two entries with the same name both receive the update |
| Progress.FilterIndex | src/components/PhotoUploader.tsx:319 | the index filter over a suffix drops the element at the index, or nothing when the index lies outside |
| Progress.RemoveAt | src/components/PhotoUploader.tsx:319-320 | removal drops exactly element `index`, keeps the others in order, and changes nothing for an index out of range |
| Progress.RemoveAtKeepsAlignment | src/components/PhotoUploader.tsx:318-320 | removing the same index from both lists keeps them aligned and the percentages valid |
| Progress.SumProgress | src/components/PhotoUploader.tsx:327 | the sum of the percentages, added from the left as `reduce` does |
| Progress.TotalProgress | src/components/PhotoUploader.tsx:325-329 | `totalProgress`: the sum over the number of entries, and 0 for an empty list; `Progress.TotalProgressBounds` and `Progress.AllDoneIsHundred` state its bounds |
| Progress.SumProgressBounds | src/components/PhotoUploader.tsx:327 | the sum of n valid percentages lies in [0, 100 n] |
| Progress.TotalProgressBounds | src/components/PhotoUploader.tsx:325-329 | the overall progress of a valid list lies in [0, 100] |
| Progress.AllDoneIsHundred | src/components/PhotoUploader.tsx:325-329 | when every entry is at 100% the overall progress is 100 |
| BatchUpload.AttemptsOf | src/components/PhotoUploader.tsx:166 | the outcomes of the successive calls of `uploadToAppsScript` for the i-th file dequeued |
| BatchUpload.RecordedError | src/components/PhotoUploader.tsx:179-180 | `err.message || String(e)`: an `Error`'s message, its name when the message is empty (which is what `String` gives then), and any other value as text |
| BatchUpload.ExpectedResult | src/components/PhotoUploader.tsx:165-181 | the result recorded for a dequeued file carries that file |
| BatchUpload.ExpectedResults | src/components/PhotoUploader.tsx:145-201 | a full drain has one result per file |
| BatchUpload.ExpectedResultsAt | src/components/PhotoUploader.tsx:151-197 | result i is the result of file i, dequeued i-th |
| BatchUpload.ExpectedResultsSnoc | src/components/PhotoUploader.tsx:153-167 | one more dequeued file extends the result list by that file's result alone |
| BatchUpload.CountsAddUp | src/components/PhotoUploader.tsx:167-181 | every result is a success or a failure: the two counts add up to the number of results |
| BatchUpload.AllUploadedCount | src/components/PhotoUploader.tsx:167-168 | a list without failures counts all successes and no failure |
| BatchUpload.OneFailureCount | src/components/PhotoUploader.tsx:180-181 | a list with one failure counts one failure and the rest as successes |
| BatchUpload.CountAppend | src/components/PhotoUploader.tsx:167-168 | a pushed result adds one success exactly when it is a success |
| BatchUpload.ApplyResult | src/components/PhotoUploader.tsx:157-188 | one file's two progress updates keep the list's length |
| BatchUpload.ApplyResults | src/components/PhotoUploader.tsx:157-188 | the updates of a run keep the list's length |
| BatchUpload.ApplyAppend | src/components/PhotoUploader.tsx:157-188 | one more result applies exactly that result's updates |
| BatchUpload.ApplyResultsPreserves | src/components/PhotoUploader.tsx:157-188 | the batch keeps the progress list's names and valid percentages |
| BatchUpload.Settled | src/components/PhotoUploader.tsx:157-188 | a file's entry ends at (100, completed) after a success and at (20, error) after a failure |
| BatchUpload.ApplyResultAt | src/components/PhotoUploader.tsx:157-188 | one result settles exactly the entries carrying its file's name |
| BatchUpload.SettleNext | src/components/PhotoUploader.tsx:157-188 | with distinct names, the next result settles its own entry and no other |
| BatchUpload.SettleNextAll | src/components/PhotoUploader.tsx:157-188 | the same at every position of the list |
| BatchUpload.ApplyResultsSettles | src/components/PhotoUploader.tsx:151-197 | with distinct names, the first n results settle the first n entries and leave the rest untouched |
| BatchUpload.DrainSettlesEveryEntry | src/components/PhotoUploader.tsx:151-197 | after a full drain every entry of the initial list has settled by its own file's result |
| BatchUpload.CountNext | src/components/PhotoUploader.tsx:167-190 | pushing the next result and bumping one counter keeps `done == success + fail` and the success count |
| BatchUpload.QueueAdvance | src/components/PhotoUploader.tsx:153 | shifting the queue of untaken files yields the next file and leaves those after it |
| BatchUpload.UploadWithRetry | src/components/PhotoUploader.tsx:166 | the upload of the i-th file through the retry loop ends with the retry run's outcome |
| BatchUpload.UploadFile | src/components/PhotoUploader.tsx:165-181 | the entry pushed for a file is its expected result: the URL on success, `err.message` or `String(e)` on failure |
| BatchUpload.UploadNext | src/components/PhotoUploader.tsx:153-181 | the upload of file `index` extends the result list of the first `index` files to the first `index + 1` |
| BatchUpload.EffectiveConcurrency | src/components/PhotoUploader.tsx:142 | the worker count is 6 by default, the requested count when in [1, 20], and clamped to 1 or 20 otherwise |
| BatchUpload.EffectiveMaxRetries | src/components/PhotoUploader.tsx:143 | the retry limit is the requested one, or 3 by default |
| BatchUpload.BatchRun.constructor | src/components/PhotoUploader.tsx:141-149 | the queue is a copy of the files; results and counters start empty and at zero, and the worker invariant holds |
| BatchUpload.BatchRun.Take | src/components/PhotoUploader.tsx:153-163 | `queue.shift()` removes the next file, which is file `done`, and marks its entry uploading |
| BatchUpload.BatchRun.Record | src/components/PhotoUploader.tsx:165-190 | the push adds the file's expected result, one of the counters and `done` go up by one, and the counts stay consistent |
| BatchUpload.BatchRun.Show | src/components/PhotoUploader.tsx:170-191 | the file's entry settles and the report carries the new counters, which restores the worker invariant |
| BatchUpload.BatchRun.Step | src/components/PhotoUploader.tsx:152-196 | one pass keeps the invariant (results are the expected results of the files taken, `done == success + fail`, progress reflects exactly those results, the queue holds the untaken files), shifts one file and bumps `done` by one |
| BatchUpload.BatchRun.Worker | src/components/PhotoUploader.tsx:151-197 | a worker that sees the captured flag set changes nothing; otherwise it empties the queue and the results are the expected results of all files, with `done == total` |
| BatchUpload.BatchRun.Run | src/components/PhotoUploader.tsx:199-201 | after all workers: with the flag clear every file has exactly its expected result and `done == total`; with it set nothing changed |
| AlbumAssembly.PhotoPath | src/components/PhotoUploader.tsx:257 | `photo-share-albums/<albumId>/<fileName>`; `AlbumAssembly.PhotoPathParts` shows the parts can be read back |
| AlbumAssembly.PhotoPathParts | src/components/PhotoUploader.tsx:257 | the path splits back into `photo-share-albums/`, the album id, `/` and the file name |
| AlbumAssembly.PhotoFor | src/components/PhotoUploader.tsx:254-265 | the record carries the saved id, the file's name, the URL and the album id |
| AlbumAssembly.ExpectedPhotos | src/components/PhotoUploader.tsx:251-270 | the photos of the album, one per ok result with a URL whose save returned an id, in result order; its properties are stated by the four `ExpectedPhotos` lemmas |
| AlbumAssembly.AssemblePhotos | src/components/PhotoUploader.tsx:251-270 | the loop over the results builds exactly the expected photos |
| AlbumAssembly.ExpectedPhotosShape | src/components/PhotoUploader.tsx:254-262 | every photo lies under its album's folder, belongs to the album, was uploaded at `now`, expires 86,400,000 ms later and has a non-empty URL |
| AlbumAssembly.ExpectedPhotosExactly | src/components/PhotoUploader.tsx:251-270 | each photo comes from an ok result with a URL whose save returned its id, and every such result gives its photo |
| AlbumAssembly.ExpectedPhotosBound | src/components/PhotoUploader.tsx:251-252 | there are never more photos than successful uploads |
| AlbumAssembly.ExpectedPhotosComplete | src/components/PhotoUploader.tsx:251-270 | when every upload succeeded with a URL and every save went through, there is one photo per result |
| AlbumAssembly.ShareLink | src/components/PhotoUploader.tsx:277 | `<origin>/album/<albumId>`; `AlbumAssembly.ShareLinkNamesAlbum` shows the id can be read back |
| AlbumAssembly.ShareLinkNamesAlbum | src/components/PhotoUploader.tsx:277 | the share link is the origin, `/album/` and the album id, which can be read back from it |
| AlbumAssembly.NewAlbum | src/components/PhotoUploader.tsx:273-280 | the album carries the id, name, photos and share link, with zero views |
| Uploader.PhotoUploader.constructor | src/components/PhotoUploader.tsx:25-35 | the initial state: nothing selected, no name, not uploading or paused, empty progress, zero statistics |
| Uploader.PhotoUploader.HandleFileSelect | src/components/PhotoUploader.tsx:204-219 | without a file list nothing changes; otherwise the selection, the dated default name, one waiting entry per file and fresh statistics, aligned |
| Uploader.PhotoUploader.RemoveFile | src/components/PhotoUploader.tsx:318-322 | removes index `i` from both lists, decrements the total whatever the index, and keeps an aligned state aligned |
| Uploader.PhotoUploader.HandlePauseResume | src/components/PhotoUploader.tsx:314-316 | flips the pause flag and nothing else |
| Uploader.PhotoUploader.BatchUploadToAppsScript | src/components/PhotoUploader.tsx:127-202 | returns every file's expected result (none when paused at render), rewrites the progress list by those results and takes the last report as the statistics |
| Uploader.PhotoUploader.UploadIntoAlbum | src/components/PhotoUploader.tsx:239-302 | uploads the selection, builds the album of the saved photos, takes the statistics from the batch and resets the form |
| Uploader.PhotoUploader.HandleUpload | src/components/PhotoUploader.tsx:221-312 | no files or no name: nothing happens; album creation fails: the selection stays and the flags are cleared; otherwise the album holds exactly the expected photos, and progress, statistics, selection and flags end as the batch leaves them |
| Uploader.UploadSettlesSelection | src/components/PhotoUploader.tsx:151-197 | for a fresh selection with distinct names a full upload settles every entry by its own file's result |
| Cleanup.Expired | functions/src/index.ts:23 | the sweep's query condition `deleteAt <= now` |
| Cleanup.ExpiredIds | functions/src/index.ts:22-24 | the ids the sweep's query returns: those of the expired records |
| Cleanup.Unexpired | functions/src/index.ts:35-50 | the records left after the expired ones are deleted; `Cleanup.UnexpiredExactly` and `Cleanup.SweepPartition` state what it keeps |
| Cleanup.PhotosOf | functions/src/index.ts:86-88 | the ids the per-album query `where('albumId', '==', id)` returns |
| Cleanup.ReferencedAlbums | functions/src/index.ts:86-90 | the album ids some photo record points at |
| Cleanup.EmptyAlbums | functions/src/index.ts:84-95 | the albums cleanup deletes: those no record points at; `Cleanup.CleanupKeepsExactlyReferenced` states the iff |
| Cleanup.DeletedPaths | functions/src/index.ts:39-44 | the storage paths of the processed records whose delete does not fail |
| Cleanup.PhotosOfEmpty | functions/src/index.ts:86-90 | the per-album query is empty iff no record points at the album |
| Cleanup.UnexpiredExactly | functions/src/index.ts:22-24 | a sweep keeps exactly the records with `deleteAt > now`, unchanged |
| Cleanup.SweepPartition | functions/src/index.ts:22-50 | the expired and the surviving records split the store |
| Cleanup.SweepIdempotent | functions/src/index.ts:28-31 | a second sweep at the same time finds nothing and changes nothing |
| Cleanup.SweepMonotone | functions/src/index.ts:23 | a later sweep selects every record an earlier one would |
| Cleanup.CleanupKeepsExactlyReferenced | functions/src/index.ts:84-95 | cleanup keeps an album iff some record points at it |
| Cleanup.CleanupIdempotent | functions/src/index.ts:84-95 | a second cleanup over the result deletes nothing |
| Cleanup.SweepThenCleanup | functions/src/index.ts:35-56 | after a sweep and its cleanup an album survives iff it has a photo that has not expired |
| Cleanup.ForceDeleteLeavesOthers | functions/src/index.ts:117-135 | after the album's records go, none points at it and every record of another album is kept unchanged |
| Cleanup.DeletedPathsAdd | functions/src/index.ts:39-44 | one more processed record removes its path too, unless that delete fails |
| Cleanup.DeleteStep | functions/src/index.ts:35-50 | one iteration of the delete loop moves the store on by exactly that record and its blob |
| Cleanup.CleanupStep | functions/src/index.ts:84-95 | one iteration of the cleanup loop deletes the album iff no record points at it, and the count follows |
| Cleanup.Store.constructor | functions/src/index.ts:16-17 | the store starts with the given records, albums and blobs |
| Cleanup.Store.DeletePhotos | functions/src/index.ts:35-50 | the records are deleted whatever happens to their blobs; exactly the blobs whose delete does not fail are removed; albums unchanged |
| Cleanup.Store.CleanupEmptyAlbums | functions/src/index.ts:77-102 | removes exactly the albums no record points at and returns their number; records and blobs unchanged |
| Cleanup.Store.AutoDeleteExpiredPhotos | functions/src/index.ts:10-64 | with nothing expired the store is unchanged; otherwise exactly the expired records go, their blobs unless failing, then the albums left empty |
| Cleanup.Store.ForceDeleteAlbum | functions/src/index.ts:105-148 | a missing or empty id is rejected and changes nothing; otherwise the album's records, their non-failing blobs and the album go, and the count of matched records is returned |
| Cleanup.Store.OnPhotoDelete | functions/src/index.ts:151-171 | without data nothing happens; otherwise the blob is removed unless its delete fails, and a failure is swallowed |

## Left out

- Reading the file, base64 encoding, the JSON payload and `fetch` are foreign calls. The network is an oracle giving each attempt's transport outcome.
- The back-off wait between attempts and the 200 ms delay between uploads involve timers, floating point and randomness. Their only effect is timing.
- `Promise.all` over the deletions is modelled as a sequential loop; each deletion touches its own record and blob, so their order does not matter.
- BatchUpload.BatchRun.Run: the workers are run one after the other, so the model makes completion order equal dequeue order. In the source, `queue.shift()` takes the files in list order, but each worker suspends at its upload and the next worker shifts the next file, so up to `concurrency` uploads are in flight and complete in any order. `results.push` and the progress updates follow completion order. The source's result list, and with it the order of the `savePhoto` calls and of the album's photos, can therefore be a permutation of the model's. When two selected files share a name, their shared progress entry ends as whichever upload finished last, which can differ from the model's outcome. The counters, the one-result-per-file property and, for distinct names, each entry's final state do not depend on that order.
- The network oracle is indexed by dequeue order: the `i`-th file dequeued gets the attempts `net(i, ·)`, so the order of dequeues, not a file's identity, picks its network outcomes.
- Strings.Lower: maps only the ASCII letters A-Z, because Unicode case mapping is not modelled.
- `toLocaleDateString` and `window.location.origin` are parameters. So is the clock: one reading `now` serves all timestamps of an upload.
- An absent `directUrl` or `error` field is represented by the empty string, which the code treats alike.
- RetryPolicy.Retry: `maxRetries` is a natural number. A negative limit, which would make `retry` throw `undefined` without calling the operation, is not modelled.
- A body that parses to `null` or to a non-object, where reading `result.success` throws a `TypeError`, is not modelled. A body without a `success` field is a rejection, and a body that does not parse is a `SyntaxError` outcome.
- Cleanup.Store.ForceDeleteAlbum: an album id is an optional string. Other falsy values (`0`, `false`, `null`) and non-string ids are not modelled.
- Query failures, failed record deletes and the `internal` error of `forceDeleteAlbum` are not modelled: the store's own operations always succeed. The try/catch blocks that log them are left out with them.
- Logging, the cron schedules, the time zone, `admin.initializeApp` and the daily scheduled cleanup wrapper are deployment details with no logic.
- The sweep's record deletes fire `onPhotoDelete` again for the same blobs. The model treats the trigger as a separate operation and does not chain it.
- Cleanup.Store.CleanupEmptyAlbums: the loop decides each album on a local copy, and the `albums` field is assigned once after the loop. Because the per-album queries read only the photo records, which the loop does not change, the final state is the same as deleting album by album.
- The `alert` messages, the console output and `onAlbumCreated` are user-facing effects. The album is returned instead.
- The React rendering and the other files of the repository (proxies, `src/lib/firestore.ts`, the type declarations) are not part of this model. The share-link format and `views: 0` of `src/lib/firestore.ts` are covered by the album assembly.
- Progress.TotalProgress: computed over `real`. JavaScript's floating-point division is not modelled; only the bounds are proved.
- Concurrent `removeFile` calls during a running batch are not modelled: the batch works on its own copy of the files and its progress updates are keyed by name.
