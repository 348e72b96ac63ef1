/** The queue-draining batch scheduler of the upload engine. */
module BatchUpload {
  import opened Wrappers
  import opened RetryPolicy
  import opened UploadClient
  import opened Progress

  /** One entry of the result list: `{file, ok: true, url}` or `{file, ok: false, error}`. */
  datatype UploadResult =
    | Uploaded(file: File, url: string)
    | Failed(file: File, error: string)

  /** The remote endpoint as an oracle: `net(i, k)` is what attempt k of the
      i-th dequeued file got back. */
  type Network = (nat, nat) -> Transport

  /** The attempts of the i-th dequeued file, as the retry loop sees them. */
  function AttemptsOf(net: Network, i: nat): nat -> Attempt<string>
  {
    (k: nat) => UploadAttempt(net(i, k))
  }

  /** The text recorded for a failure: `err.message || String(e)`. For an
      `Error` with an empty message, `String(e)` is its name. */
  function RecordedError(e: Thrown): string
  {
    match e
    case ErrorObject(name, message) => if message != "" then message else name
    case OtherValue(text) => text
  }

  /** The result the worker records for the i-th dequeued file. */
  function ExpectedResult(f: File, i: nat, net: Network, maxRetries: nat): (r: UploadResult)
    ensures r.file == f
  {
    match RetryResult(AttemptsOf(net, i), maxRetries).outcome
    case Done(url) => Uploaded(f, url)
    case Threw(e) => Failed(f, RecordedError(e))
  }

  /** The result list of a drain that processes every file. */
  function ExpectedResults(files: seq<File>, net: Network, maxRetries: nat): (r: seq<UploadResult>)
    ensures |r| == |files|
  {
    if files == [] then []
    else
      var n := |files| - 1;
      ExpectedResults(files[..n], net, maxRetries) + [ExpectedResult(files[n], n, net, maxRetries)]
  }

  /** Entry i of the result list is the result of the i-th file. */
  lemma {:induction false} ExpectedResultsAt(files: seq<File>, net: Network, maxRetries: nat)
    ensures forall i :: 0 <= i < |files| ==>
      ExpectedResults(files, net, maxRetries)[i] == ExpectedResult(files[i], i, net, maxRetries)
  {
    if files != [] {
      var n := |files| - 1;
      ExpectedResultsAt(files[..n], net, maxRetries);
      assert forall i :: 0 <= i < n ==> files[..n][i] == files[i];
    }
  }

  /** One more file extends the expected result list by that file's result. */
  lemma ExpectedResultsSnoc(files: seq<File>, n: nat, net: Network, maxRetries: nat)
    requires n < |files|
    ensures ExpectedResults(files[..n + 1], net, maxRetries)
      == ExpectedResults(files[..n], net, maxRetries) + [ExpectedResult(files[n], n, net, maxRetries)]
  {
    assert files[..n + 1][..n] == files[..n];
  }

  /** The number of successful results. */
  function CountOk(rs: seq<UploadResult>): nat
  {
    if rs == [] then 0 else CountOk(rs[..|rs| - 1]) + (if rs[|rs| - 1].Uploaded? then 1 else 0)
  }

  /** The number of failed results. */
  function CountFailed(rs: seq<UploadResult>): nat
  {
    if rs == [] then 0 else CountFailed(rs[..|rs| - 1]) + (if rs[|rs| - 1].Failed? then 1 else 0)
  }

  /** Every result is a success or a failure, so the counts add up. */
  lemma {:induction false} CountsAddUp(rs: seq<UploadResult>)
    ensures CountOk(rs) + CountFailed(rs) == |rs|
  {
    if rs != [] {
      CountsAddUp(rs[..|rs| - 1]);
    }
  }

  /** A result list without failures counts every entry as a success. */
  lemma {:induction false} AllUploadedCount(rs: seq<UploadResult>)
    requires forall i :: 0 <= i < |rs| ==> rs[i].Uploaded?
    ensures CountOk(rs) == |rs| && CountFailed(rs) == 0
  {
    if rs != [] {
      var init := rs[..|rs| - 1];
      assert forall i :: 0 <= i < |init| ==> init[i] == rs[i];
      AllUploadedCount(init);
    }
  }

  /** A result list with exactly one failure counts one failure and the rest
      as successes. */
  lemma {:induction false} OneFailureCount(rs: seq<UploadResult>, j: nat)
    requires j < |rs| && rs[j].Failed?
    requires forall i :: 0 <= i < |rs| && i != j ==> rs[i].Uploaded?
    ensures CountOk(rs) == |rs| - 1 && CountFailed(rs) == 1
  {
    var init := rs[..|rs| - 1];
    assert forall i :: 0 <= i < |init| ==> init[i] == rs[i];
    if j == |rs| - 1 {
      AllUploadedCount(init);
    } else {
      OneFailureCount(init, j);
    }
  }

  /** Appending one result extends the counts by that result alone. */
  lemma CountAppend(rs: seq<UploadResult>, r: UploadResult)
    ensures CountOk(rs + [r]) == CountOk(rs) + (if r.Uploaded? then 1 else 0)
  {
    assert (rs + [r])[..|rs|] == rs;
  }

  /** The whole life of one file's entry in the progress list: marked as
      uploading, then as completed or failed. */
  function ApplyResult(ps: seq<UploadProgress>, r: UploadResult): (qs: seq<UploadProgress>)
    ensures |qs| == |ps|
  {
    UpdateByName(UpdateByName(ps, r.file.name, StartUpload), r.file.name, if r.Uploaded? then FinishOk else FinishError)
  }

  /** The progress list after the given results, in the order they were recorded. */
  function ApplyResults(ps: seq<UploadProgress>, rs: seq<UploadResult>): (qs: seq<UploadProgress>)
    ensures |qs| == |ps|
  {
    if rs == [] then ps else ApplyResult(ApplyResults(ps, rs[..|rs| - 1]), rs[|rs| - 1])
  }

  /** Appending one result applies that result to the progress list. */
  lemma ApplyAppend(ps: seq<UploadProgress>, rs: seq<UploadResult>, r: UploadResult)
    ensures ApplyResults(ps, rs + [r]) == ApplyResult(ApplyResults(ps, rs), r)
  {
    assert (rs + [r])[..|rs|] == rs;
  }

  /** The batch keeps the progress list's length, names and valid percentages. */
  lemma {:induction false} ApplyResultsPreserves(ps: seq<UploadProgress>, rs: seq<UploadResult>)
    ensures Names(ApplyResults(ps, rs)) == Names(ps)
    ensures ValidProgress(ps) ==> ValidProgress(ApplyResults(ps, rs))
  {
    if rs != [] {
      var before := ApplyResults(ps, rs[..|rs| - 1]);
      ApplyResultsPreserves(ps, rs[..|rs| - 1]);
      var r := rs[|rs| - 1];
      var started := UpdateByName(before, r.file.name, StartUpload);
      var t := if r.Uploaded? then FinishOk else FinishError;
      UpdateByNameKeepsNames(before, r.file.name, StartUpload);
      UpdateByNameKeepsNames(started, r.file.name, t);
      if ValidProgress(ps) {
        UpdateByNameKeepsValid(before, r.file.name, StartUpload);
        UpdateByNameKeepsValid(started, r.file.name, t);
      }
    }
  }

  /** The entry a file ends with: 100% and completed after a success; error
      after a failure, at the 20% the start had set. */
  function Settled(p: UploadProgress, r: UploadResult): (q: UploadProgress)
    ensures q.fileName == p.fileName
    ensures r.Uploaded? ==> q.progress == 100 && q.status == Completed
    ensures r.Failed? ==> q.progress == 20 && q.status == Error
  {
    Apply(Apply(p, StartUpload), if r.Uploaded? then FinishOk else FinishError)
  }

  predicate DistinctNames(files: seq<File>)
  {
    forall i, j :: 0 <= i < j < |files| ==> files[i].name != files[j].name
  }

  /** One result settles the entries carrying its file's name and no others. */
  lemma ApplyResultAt(ps: seq<UploadProgress>, r: UploadResult, i: nat)
    requires i < |ps|
    ensures |ApplyResult(ps, r)| == |ps|
    ensures ApplyResult(ps, r)[i] == if ps[i].fileName == r.file.name then Settled(ps[i], r) else ps[i]
  {
    var started := UpdateByName(ps, r.file.name, StartUpload);
    UpdateByNameAt(ps, r.file.name, StartUpload);
    UpdateByNameAt(started, r.file.name, if r.Uploaded? then FinishOk else FinishError);
    assert started[i] == if ps[i].fileName == r.file.name then Apply(ps[i], StartUpload) else ps[i];
  }

  /** One more result settles its own entry and no other one: the entry at
      `i` of the list after the last result of `rs`, given the list `before`
      that the results before it produced. */
  lemma SettleNext(files: seq<File>, ps: seq<UploadProgress>, before: seq<UploadProgress>,
                   rs: seq<UploadResult>, i: nat)
    requires DistinctNames(files) && Names(ps) == FileNames(files)
    requires 0 < |rs| <= |files| && forall k :: 0 <= k < |rs| ==> rs[k].file == files[k]
    requires |before| == |ps| && i < |ps|
    requires i < |rs| - 1 ==> before[i] == Settled(ps[i], rs[i])
    requires |rs| - 1 <= i ==> before[i] == ps[i]
    ensures ApplyResult(before, rs[|rs| - 1])[i] == if i < |rs| then Settled(ps[i], rs[i]) else ps[i]
  {
    var n := |rs| - 1;
    ApplyResultAt(before, rs[n], i);
    assert Names(ps)[n] == FileNames(files)[n];
    assert Names(ps)[i] == FileNames(files)[i];
    if i != n {
      assert before[i].fileName == ps[i].fileName;
    }
  }

  /** `SettleNext` at every position of the list. */
  lemma SettleNextAll(files: seq<File>, ps: seq<UploadProgress>, before: seq<UploadProgress>,
                      rs: seq<UploadResult>)
    requires DistinctNames(files) && Names(ps) == FileNames(files)
    requires 0 < |rs| <= |files| && forall k :: 0 <= k < |rs| ==> rs[k].file == files[k]
    requires |before| == |ps|
    requires forall i :: 0 <= i < |rs| - 1 ==> before[i] == Settled(ps[i], rs[i])
    requires forall i :: |rs| - 1 <= i < |ps| ==> before[i] == ps[i]
    ensures forall i :: 0 <= i < |ps| ==>
      ApplyResult(before, rs[|rs| - 1])[i] == if i < |rs| then Settled(ps[i], rs[i]) else ps[i]
  {
    forall i | 0 <= i < |ps|
      ensures ApplyResult(before, rs[|rs| - 1])[i] == if i < |rs| then Settled(ps[i], rs[i]) else ps[i]
    {
      SettleNext(files, ps, before, rs, i);
    }
  }

  /** When the selected files have distinct names, the first n results have
      settled the first n entries and left the others untouched. */
  lemma {:induction false} ApplyResultsSettles(files: seq<File>, ps: seq<UploadProgress>, rs: seq<UploadResult>)
    requires DistinctNames(files) && Names(ps) == FileNames(files)
    requires |rs| <= |files| && forall i :: 0 <= i < |rs| ==> rs[i].file == files[i]
    ensures |ApplyResults(ps, rs)| == |ps|
    ensures forall i :: 0 <= i < |rs| ==> ApplyResults(ps, rs)[i] == Settled(ps[i], rs[i])
    ensures forall i :: |rs| <= i < |ps| ==> ApplyResults(ps, rs)[i] == ps[i]
  {
    if rs != [] {
      var n := |rs| - 1;
      var init := rs[..n];
      assert forall i :: 0 <= i < |init| ==> init[i] == rs[i];
      ApplyResultsSettles(files, ps, init);
      var before := ApplyResults(ps, init);
      SettleNextAll(files, ps, before, rs);
      assert ApplyResults(ps, rs) == ApplyResult(before, rs[n]);
    }
  }

  /** The end state of a drain over distinct names: every entry of the
      initial progress list has settled according to its own file's result. */
  lemma DrainSettlesEveryEntry(files: seq<File>, rs: seq<UploadResult>)
    requires DistinctNames(files)
    requires |rs| == |files| && forall i :: 0 <= i < |rs| ==> rs[i].file == files[i]
    ensures forall i :: 0 <= i < |files| ==>
      ApplyResults(InitialProgress(files), rs)[i] == Settled(InitialProgress(files)[i], rs[i])
  {
    InitialProgressAligned(files);
    ApplyResultsSettles(files, InitialProgress(files), rs);
  }

  /** The counting part of the worker invariant: the first `done` files
      each have their result, and the counters count those results. */
  ghost predicate Counted(files: seq<File>, net: Network, maxRetries: nat,
                          done: nat, results: seq<UploadResult>, success: nat, fail: nat)
  {
    && done <= |files|
    && results == ExpectedResults(files[..done], net, maxRetries)
    && success == CountOk(results)
    && done == success + fail
  }

  /** Recording the next file's result and bumping one counter keeps the
      counts consistent. */
  lemma CountNext(files: seq<File>, net: Network, maxRetries: nat,
                  done: nat, results: seq<UploadResult>, success: nat, fail: nat, result: UploadResult)
    requires Counted(files, net, maxRetries, done, results, success, fail)
    requires done < |files| && results + [result] == ExpectedResults(files[..done + 1], net, maxRetries)
    ensures Counted(files, net, maxRetries, done + 1, results + [result],
                    success + (if result.Uploaded? then 1 else 0), fail + (if result.Uploaded? then 0 else 1))
  {
    CountAppend(results, result);
  }

  /** Shifting the queue of the files not yet taken leaves the files after
      the next one. */
  lemma QueueAdvance(files: seq<File>, done: nat)
    requires done < |files|
    ensures files[done..][0] == files[done] && files[done..][1..] == files[done + 1..]
  {
  }

  /** `retry(() => uploadToAppsScript(...), maxRetries)` for the i-th dequeued file. */
  method UploadWithRetry(net: Network, i: nat, maxRetries: nat) returns (outcome: Attempt<string>)
    ensures outcome == RetryResult(AttemptsOf(net, i), maxRetries).outcome
  {
    var calls;
    outcome, calls := Retry(AttemptsOf(net, i), maxRetries);
  }

  /** One file through the retry loop, turned into its entry of the result
      list. */
  method UploadFile(file: File, i: nat, net: Network, maxRetries: nat) returns (result: UploadResult)
    ensures result == ExpectedResult(file, i, net, maxRetries)
  {
    var outcome := UploadWithRetry(net, i, maxRetries);
    match outcome {
      case Done(url) => result := Uploaded(file, url);
      case Threw(e) => result := Failed(file, RecordedError(e));
    }
  }

  /** The upload of the next file, as the result list sees it: the list
      of the first `index` files grows into the list of the first
      `index + 1`. */
  method UploadNext(files: seq<File>, index: nat, net: Network, maxRetries: nat) returns (result: UploadResult)
    requires index < |files|
    ensures result.file == files[index]
    ensures ExpectedResults(files[..index], net, maxRetries) + [result] == ExpectedResults(files[..index + 1], net, maxRetries)
  {
    result := UploadFile(files[index], index, net, maxRetries);
    ExpectedResultsSnoc(files, index, net, maxRetries);
  }

  /** The number of workers: `Math.max(1, Math.min(concurrency ?? 6, 20))`. */
  function EffectiveConcurrency(requested: Option<int>): (c: int)
    ensures 1 <= c <= 20
    ensures requested == None ==> c == 6
    ensures requested.Some? && 1 <= requested.value <= 20 ==> c == requested.value
    ensures requested.Some? && requested.value < 1 ==> c == 1
    ensures requested.Some? && requested.value > 20 ==> c == 20
  {
    var wanted := if requested.Some? then requested.value else 6;
    var capped := if wanted < 20 then wanted else 20;
    if capped > 1 then capped else 1
  }

  /** `maxRetries ?? 3`: the requested limit, or 3 when none is given. */
  function EffectiveMaxRetries(requested: Option<nat>): (m: nat)
    ensures requested == None ==> m == 3
    ensures requested.Some? ==> m == requested.value
  {
    if requested.Some? then requested.value else 3
  }

  /** The shared state of one `batchUploadToAppsScript` call: the queue the
      workers shift from, the result list they push to, the counters and the
      progress list they rewrite, and the last `onProgress` report. */
  class BatchRun {
    const files: seq<File>
    const net: Network
    const maxRetries: nat
    const total: nat
    ghost const startProgress: seq<UploadProgress>

    var queue: seq<File>
    var results: seq<UploadResult>
    var done: nat
    var success: nat
    var fail: nat
    var progress: seq<UploadProgress>
    var lastReport: Option<BatchStats>

    /** The counters and the result list agree with the files taken so far. */
    ghost predicate Counts()
      reads this`done, this`results, this`success, this`fail
    {
      Counted(files, net, maxRetries, done, results, success, fail)
    }

    /** The worker invariant: the first `done` files have been dequeued, each
        has exactly one result, `done == success + fail`, and the progress
        list reflects exactly the results recorded so far. */
    ghost predicate Valid()
      reads this
    {
      && total == |files|
      && Counts()
      && progress == ApplyResults(startProgress, results)
      && queue == files[done..]
      && (lastReport == if done == 0 then None else Some(BatchStats(done, success, fail, total)))
    }

    constructor (files: seq<File>, net: Network, maxRetries: nat, progress: seq<UploadProgress>)
      ensures Valid()
      ensures this.files == files && this.net == net && this.maxRetries == maxRetries
      ensures startProgress == progress && this.progress == progress
      ensures queue == files && results == [] && done == 0 && success == 0 && fail == 0
    {
      this.files := files;
      this.net := net;
      this.maxRetries := maxRetries;
      this.total := |files|;
      this.startProgress := progress;
      this.queue := files;
      this.results := [];
      this.done, this.success, this.fail := 0, 0, 0;
      this.progress := progress;
      this.lastReport := None;
    }

    /** The state in the middle of a pass: the next file has been shifted
        and marked uploading, its result is not recorded yet. `before` is the
        progress list as the pass found it. */
    ghost predicate Pending(before: seq<UploadProgress>)
      reads this
    {
      && total == |files|
      && done < |files|
      && Counts()
      && before == ApplyResults(startProgress, results)
      && queue == files[done + 1..]
      && progress == UpdateByName(before, files[done].name, StartUpload)
      && (lastReport == if done == 0 then None else Some(BatchStats(done, success, fail, total)))
    }

    /** The start of a pass: `queue.shift()` and the uploading mark. */
    method Take() returns (index: nat, file: File, ghost before: seq<UploadProgress>)
      requires Valid() && queue != []
      modifies this`queue, this`progress
      ensures Pending(before) && index == done && file == files[index]
      ensures queue == old(queue)[1..]
    {
      index := done;
      file := queue[0];
      before := progress;
      QueueAdvance(files, index);
      queue := queue[1..];
      progress := UpdateByName(progress, file.name, StartUpload);
    }

    /** The state after the file's result is recorded and before its entry
        settles: `prior` is the result list before the file's result and
        `before` the progress list before the file was marked uploading. */
    ghost predicate Recorded(result: UploadResult, prior: seq<UploadResult>, before: seq<UploadProgress>)
      reads this
    {
      && total == |files|
      && Counts()
      && results == prior + [result]
      && before == ApplyResults(startProgress, prior)
      && queue == files[done..]
      && progress == UpdateByName(before, result.file.name, StartUpload)
    }

    /** `results.push(...)` and the counter it bumps. */
    method Record(result: UploadResult, ghost before: seq<UploadProgress>)
      requires Pending(before) && result.file == files[done]
      requires results + [result] == ExpectedResults(files[..done + 1], net, maxRetries)
      modifies this`results, this`success, this`fail, this`done
      ensures Recorded(result, old(results), before)
      ensures done == old(done) + 1
    {
      CountNext(files, net, maxRetries, done, results, success, fail, result);
      var ok, failed := success, fail;
      if result.Uploaded? {
        ok := ok + 1;
      } else {
        failed := failed + 1;
      }
      QueueAdvance(files, done);
      results, success, fail, done := results + [result], ok, failed, done + 1;
    }

    /** The file's entry settles as completed or failed, and `onProgress`
        reports the statistics. */
    method Show(result: UploadResult, ghost prior: seq<UploadResult>, ghost before: seq<UploadProgress>)
      requires Recorded(result, prior, before)
      modifies this`progress, this`lastReport
      ensures Valid()
    {
      ApplyAppend(startProgress, prior, result);
      progress := UpdateByName(progress, result.file.name, if result.Uploaded? then FinishOk else FinishError);
      lastReport := Some(BatchStats(done, success, fail, total));
    }

    /** One pass of the worker loop's body: shift a file, mark it uploading,
        upload it through the retry loop, record its result, bump the
        counters, update its entry and report. */
    method Step()
      requires Valid() && queue != []
      modifies this
      ensures Valid()
      ensures queue == old(queue)[1..] && done == old(done) + 1
    {
      var index, file, before := Take();
      var result := UploadNext(files, index, net, maxRetries);
      ghost var prior := results;
      Record(result, before);
      Show(result, prior, before);
    }

    /** `next()`: drain the queue while the captured pause flag is off. */
    method Worker(paused: bool)
      requires Valid()
      modifies this
      ensures Valid()
      ensures paused ==> queue == old(queue) && results == old(results) && done == old(done)
      ensures paused ==> progress == old(progress) && lastReport == old(lastReport)
      ensures !paused ==> queue == [] && done == total
      ensures !paused ==> results == ExpectedResults(files, net, maxRetries)
    {
      while !paused && |queue| > 0
        invariant Valid()
        invariant paused ==> queue == old(queue) && results == old(results) && done == old(done)
        invariant paused ==> progress == old(progress) && lastReport == old(lastReport)
        decreases |queue|
      {
        Step();
      }
      assert !paused ==> files[..done] == files;
    }

    /** Starts `concurrency` workers over the one queue. The workers run
        one after the other here, so every upload completes before the next
        file is shifted: completion order is dequeue order. */
    method Run(concurrency: int, paused: bool)
      requires Valid() && 1 <= concurrency
      modifies this
      ensures Valid()
      ensures paused ==> results == old(results) && done == old(done) && progress == old(progress)
      ensures paused ==> lastReport == old(lastReport)
      ensures !paused ==> queue == [] && done == total
      ensures !paused ==> results == ExpectedResults(files, net, maxRetries)
    {
      var w := 0;
      while w < concurrency
        invariant Valid() && 0 <= w <= concurrency
        invariant paused ==> results == old(results) && done == old(done) && progress == old(progress)
        invariant paused ==> lastReport == old(lastReport)
        invariant !paused && w > 0 ==> queue == [] && done == total
        invariant !paused && w > 0 ==> results == ExpectedResults(files, net, maxRetries)
      {
        Worker(paused);
        w := w + 1;
      }
    }
  }
}
