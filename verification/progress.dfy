/** Per-file progress entries of an upload session and the pure operations
    on the progress list: initialisation on file selection, in-place updates
    keyed by file name, removal by index and the overall mean. */
module Progress {

  /** A selected file, as far as the engine looks at it. */
  datatype File = File(name: string, size: nat, mimeType: string)

  datatype Status = Waiting | Uploading | Completed | Error

  /** `UploadProgress`: progress is a percentage. */
  datatype UploadProgress = UploadProgress(fileName: string, progress: int, status: Status)

  /** The counters shown during a batch. */
  datatype BatchStats = BatchStats(done: int, success: int, failed: int, total: int)

  /** Every entry's percentage lies in [0, 100]. */
  predicate ValidProgress(ps: seq<UploadProgress>)
  {
    forall i :: 0 <= i < |ps| ==> 0 <= ps[i].progress <= 100
  }

  function Names(ps: seq<UploadProgress>): (r: seq<string>)
    ensures |r| == |ps| && forall i {:trigger r[i]} :: 0 <= i < |ps| ==> r[i] == ps[i].fileName
  {
    if ps == [] then [] else [ps[0].fileName] + Names(ps[1..])
  }

  function FileNames(files: seq<File>): (r: seq<string>)
    ensures |r| == |files| && forall i {:trigger r[i]} :: 0 <= i < |files| ==> r[i] == files[i].name
  {
    if files == [] then [] else [files[0].name] + FileNames(files[1..])
  }

  /** `handleFileSelect`: one waiting entry at 0% per selected file, in order. */
  function InitialProgress(files: seq<File>): (r: seq<UploadProgress>)
    ensures |r| == |files|
    ensures forall i {:trigger r[i]} :: 0 <= i < |files| ==> r[i] == UploadProgress(files[i].name, 0, Waiting)
  {
    if files == [] then [] else [UploadProgress(files[0].name, 0, Waiting)] + InitialProgress(files[1..])
  }

  /** A fresh progress list is valid and lines up with the files it was made from. */
  lemma InitialProgressAligned(files: seq<File>)
    ensures ValidProgress(InitialProgress(files))
    ensures Names(InitialProgress(files)) == FileNames(files)
  {
  }

  /** The three things the batch worker does to a file's entry. */
  datatype Transition =
    | StartUpload  // the file was dequeued
    | FinishOk     // its upload returned a URL
    | FinishError  // its upload threw after all retries

  /** The new entry after one transition. A failure keeps the percentage. */
  function Apply(item: UploadProgress, t: Transition): (r: UploadProgress)
    ensures r.fileName == item.fileName
    ensures t == StartUpload ==> r.progress == 20 && r.status == Uploading
    ensures t == FinishOk ==> r.progress == 100 && r.status == Completed
    ensures t == FinishError ==> r.progress == item.progress && r.status == Error
  {
    match t
    case StartUpload => item.(progress := 20, status := Uploading)
    case FinishOk => item.(progress := 100, status := Completed)
    case FinishError => item.(status := Error)
  }

  /** `prev.map(item => item.fileName === name ? ... : item)`: every entry
      carrying the name is updated, every other entry is left as it is. */
  function UpdateByName(ps: seq<UploadProgress>, name: string, t: Transition): (r: seq<UploadProgress>)
    ensures |r| == |ps|
  {
    if ps == [] then []
    else [if ps[0].fileName == name then Apply(ps[0], t) else ps[0]] + UpdateByName(ps[1..], name, t)
  }

  /** The update touches exactly the entries carrying the name. */
  lemma {:induction false} UpdateByNameAt(ps: seq<UploadProgress>, name: string, t: Transition)
    ensures forall i :: 0 <= i < |ps| ==>
      UpdateByName(ps, name, t)[i] == if ps[i].fileName == name then Apply(ps[i], t) else ps[i]
  {
    if ps != [] {
      UpdateByNameAt(ps[1..], name, t);
    }
  }

  /** An update keeps the list's names, in order. */
  lemma UpdateByNameKeepsNames(ps: seq<UploadProgress>, name: string, t: Transition)
    ensures Names(UpdateByName(ps, name, t)) == Names(ps)
  {
    UpdateByNameAt(ps, name, t);
    assert forall i :: 0 <= i < |ps| ==> Names(UpdateByName(ps, name, t))[i] == Names(ps)[i];
  }

  /** An update keeps every percentage in range. */
  lemma UpdateByNameKeepsValid(ps: seq<UploadProgress>, name: string, t: Transition)
    requires ValidProgress(ps)
    ensures ValidProgress(UpdateByName(ps, name, t))
  {
    UpdateByNameAt(ps, name, t);
  }

  /** An update for a name no entry carries changes nothing. */
  lemma UpdateByNameMissingName(ps: seq<UploadProgress>, name: string, t: Transition)
    requires name !in Names(ps)
    ensures UpdateByName(ps, name, t) == ps
  {
    var r := UpdateByName(ps, name, t);
    UpdateByNameAt(ps, name, t);
    forall i | 0 <= i < |ps| ensures r[i] == ps[i] {
      assert Names(ps)[i] == ps[i].fileName;
    }
  }

  /** Applying the same update twice is the same as applying it once. */
  lemma UpdateByNameIdempotent(ps: seq<UploadProgress>, name: string, t: Transition)
    ensures UpdateByName(UpdateByName(ps, name, t), name, t) == UpdateByName(ps, name, t)
  {
    var once := UpdateByName(ps, name, t);
    UpdateByNameAt(ps, name, t);
    UpdateByNameAt(once, name, t);
    assert forall i :: 0 <= i < |ps| ==> UpdateByName(once, name, t)[i] == once[i];
  }

  /** Entries are keyed by name only: two entries with the same name receive
      the same update (the source does not tell same-named files apart). */
  lemma SameNameEntriesMoveTogether(ps: seq<UploadProgress>, t: Transition, i: nat, j: nat)
    requires i < |ps| && j < |ps| && ps[i].fileName == ps[j].fileName
    ensures UpdateByName(ps, ps[i].fileName, t)[i] == Apply(ps[i], t)
    ensures UpdateByName(ps, ps[i].fileName, t)[j] == Apply(ps[j], t)
  {
    UpdateByNameAt(ps, ps[i].fileName, t);
  }

  /** `prev.filter((_, i) => i !== index)` over the suffix of the list that
      starts at position `offset`. */
  function FilterIndex<T>(s: seq<T>, index: int, offset: int): (r: seq<T>)
    ensures 0 <= index - offset < |s| ==> r == s[..index - offset] + s[index - offset + 1..]
    ensures !(0 <= index - offset < |s|) ==> r == s
    decreases |s|
  {
    if s == [] then []
    else (if offset == index then [] else [s[0]]) + FilterIndex(s[1..], index, offset + 1)
  }

  /** `removeFile`'s filter: drops exactly the element at `index`, keeping the
      rest in order; an index outside the list removes nothing. */
  function RemoveAt<T>(s: seq<T>, index: int): (r: seq<T>)
    ensures 0 <= index < |s| ==> |r| == |s| - 1
    ensures 0 <= index < |s| ==> forall k {:trigger r[k]} :: 0 <= k < |r| ==> r[k] == if k < index then s[k] else s[k + 1]
    ensures !(0 <= index < |s|) ==> r == s
  {
    FilterIndex(s, index, 0)
  }

  /** Removing the same position from the file list and from the progress
      list keeps the two lists lined up. */
  lemma RemoveAtKeepsAlignment(files: seq<File>, ps: seq<UploadProgress>, index: int)
    requires Names(ps) == FileNames(files)
    ensures Names(RemoveAt(ps, index)) == FileNames(RemoveAt(files, index))
    ensures ValidProgress(ps) ==> ValidProgress(RemoveAt(ps, index))
  {
    assert |ps| == |files|;
    var rp, rf := RemoveAt(ps, index), RemoveAt(files, index);
    if 0 <= index < |ps| {
      forall k | 0 <= k < |rp| ensures Names(rp)[k] == FileNames(rf)[k] {
        var src := if k < index then k else k + 1;
        assert Names(ps)[src] == FileNames(files)[src];
      }
    }
  }

  /** The sum of the percentages, in the order `reduce` adds them. */
  function SumProgress(ps: seq<UploadProgress>): int
  {
    if ps == [] then 0 else SumProgress(ps[..|ps| - 1]) + ps[|ps| - 1].progress
  }

  /** `totalProgress`: the mean percentage, 0 for an empty list. */
  function TotalProgress(ps: seq<UploadProgress>): real
  {
    if |ps| > 0 then SumProgress(ps) as real / |ps| as real else 0.0
  }

  lemma {:induction false} SumProgressBounds(ps: seq<UploadProgress>)
    requires ValidProgress(ps)
    ensures 0 <= SumProgress(ps) <= 100 * |ps|
  {
    if ps != [] {
      var init := ps[..|ps| - 1];
      assert ValidProgress(init) by {
        forall i | 0 <= i < |init| ensures 0 <= init[i].progress <= 100 {
          assert init[i] == ps[i];
        }
      }
      SumProgressBounds(init);
    }
  }

  lemma MeanBounds(s: real, n: real)
    requires n > 0.0 && 0.0 <= s <= 100.0 * n
    ensures 0.0 <= s / n <= 100.0
  {
    assert (s / n) * n == s;
  }

  /** The overall progress of a valid list is a percentage. */
  lemma TotalProgressBounds(ps: seq<UploadProgress>)
    requires ValidProgress(ps)
    ensures 0.0 <= TotalProgress(ps) <= 100.0
  {
    if |ps| > 0 {
      SumProgressBounds(ps);
      MeanBounds(SumProgress(ps) as real, |ps| as real);
    }
  }

  /** When every entry is at 100%, so is the overall progress. */
  lemma AllDoneIsHundred(ps: seq<UploadProgress>)
    requires |ps| > 0
    requires forall i :: 0 <= i < |ps| ==> ps[i].progress == 100
    ensures TotalProgress(ps) == 100.0
  {
    AllDoneSum(ps);
    var n := |ps| as real;
    assert SumProgress(ps) as real == 100.0 * n;
    assert (100.0 * n) / n == 100.0;
  }

  lemma {:induction false} AllDoneSum(ps: seq<UploadProgress>)
    requires forall i :: 0 <= i < |ps| ==> ps[i].progress == 100
    ensures SumProgress(ps) == 100 * |ps|
  {
    if ps != [] {
      var init := ps[..|ps| - 1];
      assert forall i :: 0 <= i < |init| ==> init[i] == ps[i];
      AllDoneSum(init);
    }
  }
}
