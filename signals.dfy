/** The `post_delete` handler of uploadmanager/signals.py: after a `File` row
    is deleted, its stored file and then its thumbnail are removed from
    disk, each with up to five attempts while the file is locked.

    The disk is a set of paths. `os.path.isfile` is membership in it; what
    `os.remove` does on attempt `i` (counting from 0) is the parameter
    `remove(i)`. The 0.1 s sleep between attempts only passes time and is
    left out. */
module Signals {
  import opened Common
  import FileModel

  type Path = string

  /** `attempts = 5` */
  const Attempts: nat := 5

  /** How one `os.remove` call ends. */
  datatype RemoveOutcome =
    | Removed                    // the file is gone
    | PermissionDenied           // PermissionError: the file is in use
    | OtherError(reason: string) // any other exception

  /** What one retry loop leaves: the files still on disk, how many
      attempts it made, and the exception it let escape, if any. */
  datatype Deletion = Deletion(files: set<Path>, attempts: nat, raised: Option<string>)

  /** The retry loop from attempt `i` on. An attempt on a missing file, a
      successful remove or an error other than `PermissionError` ends the
      loop; a `PermissionError` goes on to the next attempt, and after the
      fifth the loop ends quietly (the `else: raise e` clause of the `try`
      never runs, since the `try` body always leaves by `break`). */
  function RetryFrom(files: set<Path>, path: Path, remove: nat -> RemoveOutcome, i: nat): (d: Deletion)
    requires i <= Attempts
    ensures (if i < Attempts then i < d.attempts else d.attempts == Attempts) && d.attempts <= Attempts
    ensures d.files == files || d.files == files - {path}
    decreases Attempts - i
  {
    if i == Attempts then Deletion(files, Attempts, None)
    else if path !in files then Deletion(files, i + 1, None)
    else match remove(i)
      case Removed => Deletion(files - {path}, i + 1, None)
      case PermissionDenied => RetryFrom(files, path, remove, i + 1)
      case OtherError(e) => Deletion(files, i + 1, Some(e))
  }

  /** One `for _ in range(attempts)` loop of the handler. */
  method RemoveWithRetry(files: set<Path>, path: Path, remove: nat -> RemoveOutcome) returns (d: Deletion)
    ensures d == RetryFrom(files, path, remove, 0)
  {
    d := Deletion(files, Attempts, None);
    for i := 0 to Attempts
      invariant RetryFrom(files, path, remove, 0) == RetryFrom(files, path, remove, i)
    {
      if path in files {
        match remove(i)
        case Removed =>
          d := Deletion(files - {path}, i + 1, None);
          break;
        case PermissionDenied =>
          // time.sleep(0.1), then the next attempt
        case OtherError(e) =>
          d := Deletion(files, i + 1, Some(e));
          break;
      } else {
        d := Deletion(files, i + 1, None);
        break;
      }
    }
  }

  /** Every attempt before the last one was refused with `PermissionError`. */
  ghost predicate RefusedBefore(remove: nat -> RemoveOutcome, n: nat) {
    forall j :: 0 <= j < n ==> remove(j) == PermissionDenied
  }

  /** What the loop does, all inputs: between one and five attempts; every
      attempt but the last was refused; the loop stops at the first attempt
      that is not refused; only the one path can disappear, and only by a
      successful remove; an escaping error leaves the disk as it was; and a
      quiet end with the file still there means five refusals. */
  lemma {:induction false} RetryFacts(files: set<Path>, path: Path, remove: nat -> RemoveOutcome, i: nat)
    requires i <= Attempts
    requires i > 0 ==> path in files
    ensures var d := RetryFrom(files, path, remove, i);
      && (if i < Attempts then i < d.attempts else d.attempts == Attempts) && d.attempts <= Attempts
      && (forall j :: i <= j < d.attempts - 1 ==> remove(j) == PermissionDenied)
      && (d.files == files || d.files == files - {path})
      && (path !in d.files <==> path !in files || (d.attempts > i && remove(d.attempts - 1) == Removed))
      && (d.raised.Some? ==> d.files == files && remove(d.attempts - 1) == OtherError(d.raised.value))
      && (d.raised.None? && path in d.files ==>
            d.attempts == Attempts && forall j :: i <= j < Attempts ==> remove(j) == PermissionDenied)
    decreases Attempts - i
  {
    if i < Attempts && path in files && remove(i) == PermissionDenied {
      RetryFacts(files, path, remove, i + 1);
    }
  }

  /** At most five attempts, and the loop ends at the first one that is not
      refused: when attempt `n` is the first non-`PermissionError` remove,
      exactly `n + 1` attempts are made. */
  lemma StopsAtFirstUnrefused(files: set<Path>, path: Path, remove: nat -> RemoveOutcome, n: nat)
    requires path in files && n < Attempts
    requires RefusedBefore(remove, n) && remove(n) != PermissionDenied
    ensures RetryFrom(files, path, remove, 0).attempts == n + 1
    ensures RetryFrom(files, path, remove, 0).raised.None? <==> remove(n) == Removed
  {
    StopsAtFirstUnrefusedFrom(files, path, remove, n, 0);
  }

  lemma {:induction false} StopsAtFirstUnrefusedFrom(files: set<Path>, path: Path, remove: nat -> RemoveOutcome,
                                                      n: nat, i: nat)
    requires path in files && i <= n < Attempts
    requires RefusedBefore(remove, n) && remove(n) != PermissionDenied
    ensures RetryFrom(files, path, remove, i).attempts == n + 1
    ensures RetryFrom(files, path, remove, i).raised.None? <==> remove(n) == Removed
    decreases n - i
  {
    if i < n {
      assert remove(i) == PermissionDenied;
      StopsAtFirstUnrefusedFrom(files, path, remove, n, i + 1);
    }
  }

  /** Five `PermissionError`s in a row: the loop ends without raising and
      the file stays on disk. */
  lemma ExhaustedRetriesEndQuietly(files: set<Path>, path: Path, remove: nat -> RemoveOutcome)
    requires path in files && RefusedBefore(remove, Attempts)
    ensures RetryFrom(files, path, remove, 0) == Deletion(files, Attempts, None)
  {
    assert remove(0) == PermissionDenied && remove(1) == PermissionDenied;
    assert remove(2) == PermissionDenied && remove(3) == PermissionDenied;
    assert remove(4) == PermissionDenied;
  }

  /** A file that is not on disk takes one attempt, no remove and no error. */
  lemma MissingFileTakesOneAttempt(files: set<Path>, path: Path, remove: nat -> RemoveOutcome)
    requires path !in files
    ensures RetryFrom(files, path, remove, 0) == Deletion(files, 1, None)
  {
  }

  /** A file in use for two attempts and removed on the third: three
      attempts, no error, file gone. */
  lemma RemovedOnThirdAttempt(files: set<Path>, path: Path, remove: nat -> RemoveOutcome)
    requires path in files
    requires remove(0) == PermissionDenied && remove(1) == PermissionDenied && remove(2) == Removed
    ensures RetryFrom(files, path, remove, 0) == Deletion(files - {path}, 3, None)
  {
  }

  // ---------------------------------------------------------------------
  // delete_file_on_model_delete

  /** What the handler leaves: the files on disk, and the outcome of each
      step that ran (`None` for a step that did not run). */
  datatype Cleanup = Cleanup(files: set<Path>, fileStep: Option<Deletion>, thumbnailStep: Option<Deletion>)

  /** The exception the handler lets escape, if any. */
  function Raised(c: Cleanup): (e: Option<string>) {
    if c.fileStep.Some? && c.fileStep.value.raised.Some? then c.fileStep.value.raised
    else if c.thumbnailStep.Some? then c.thumbnailStep.value.raised
    else None
  }

  /** What the handler does, as a value. `file` and `thumbnail` are the
      stored paths, `None` when the field is empty. The file step runs
      first; when an error other than `PermissionError` escapes from it, the
      thumbnail step does not run. */
  function CleanupOf(files: set<Path>, file: Option<Path>, thumbnail: Option<Path>,
                     removeFile: nat -> RemoveOutcome, removeThumbnail: nat -> RemoveOutcome): (c: Cleanup)
    ensures c.files <= files
    ensures c.fileStep.Some? <==> file.Some?
    ensures c.thumbnailStep.Some? ==> thumbnail.Some?
  {
    var fileStep := if file.Some? then Some(RetryFrom(files, file.value, removeFile, 0)) else None;
    var afterFile := if fileStep.Some? then fileStep.value.files else files;
    if fileStep.Some? && fileStep.value.raised.Some? then Cleanup(afterFile, fileStep, None)
    else if thumbnail.Some? then
      var d := RetryFrom(afterFile, thumbnail.value, removeThumbnail, 0);
      Cleanup(d.files, fileStep, Some(d))
    else Cleanup(afterFile, fileStep, None)
  }

  /** `delete_file_on_model_delete`. */
  method DeleteFileOnModelDelete(files: set<Path>, file: Option<Path>, thumbnail: Option<Path>,
                                 removeFile: nat -> RemoveOutcome, removeThumbnail: nat -> RemoveOutcome)
    returns (c: Cleanup)
    ensures c == CleanupOf(files, file, thumbnail, removeFile, removeThumbnail)
  {
    var current := files;
    var fileStep: Option<Deletion> := None;
    if file.Some? {
      var d := RemoveWithRetry(current, file.value, removeFile);
      fileStep := Some(d);
      current := d.files;
      if d.raised.Some? {
        return Cleanup(current, fileStep, None);
      }
    }
    var thumbnailStep: Option<Deletion> := None;
    if thumbnail.Some? {
      var d := RemoveWithRetry(current, thumbnail.value, removeThumbnail);
      thumbnailStep := Some(d);
      current := d.files;
    }
    c := Cleanup(current, fileStep, thumbnailStep);
  }

  /** The handler removes nothing but the record's own two paths; the
      thumbnail step runs exactly when there is a thumbnail and the file
      step let no error escape; and an escaping error is what the last
      remove of the step that raised it reported. */
  lemma CleanupFacts(files: set<Path>, file: Option<Path>, thumbnail: Option<Path>,
                     removeFile: nat -> RemoveOutcome, removeThumbnail: nat -> RemoveOutcome)
    ensures var c := CleanupOf(files, file, thumbnail, removeFile, removeThumbnail);
      && c.files <= files
      && (forall p :: p in files && p !in c.files ==> Some(p) == file || Some(p) == thumbnail)
      && (c.fileStep.Some? <==> file.Some?)
      && (c.thumbnailStep.Some? <==> thumbnail.Some? && !(c.fileStep.Some? && c.fileStep.value.raised.Some?))
      && (Raised(c).Some? ==>
            (c.fileStep.Some? && removeFile(c.fileStep.value.attempts - 1) == OtherError(Raised(c).value)) ||
            (c.thumbnailStep.Some? &&
             removeThumbnail(c.thumbnailStep.value.attempts - 1) == OtherError(Raised(c).value)))
  {
    var afterFile := files;
    if file.Some? {
      RetryFacts(files, file.value, removeFile, 0);
      afterFile := RetryFrom(files, file.value, removeFile, 0).files;
    }
    if thumbnail.Some? {
      RetryFacts(afterFile, thumbnail.value, removeThumbnail, 0);
    }
  }

  /** An error other than `PermissionError` on the stored file escapes and
      leaves the thumbnail on disk, however its own removal would have gone. */
  lemma FileErrorSkipsThumbnail(files: set<Path>, file: Path, thumbnail: Path, e: string,
                                removeFile: nat -> RemoveOutcome, removeThumbnail: nat -> RemoveOutcome)
    requires file in files && thumbnail in files && file != thumbnail
    requires removeFile(0) == OtherError(e)
    ensures var c := CleanupOf(files, Some(file), Some(thumbnail), removeFile, removeThumbnail);
      Raised(c) == Some(e) && c.thumbnailStep.None? && file in c.files && thumbnail in c.files
  {
  }

  /** Both paths removed at the first try: nothing escapes and both are gone. */
  lemma CleanDeleteRemovesBoth(files: set<Path>, file: Path, thumbnail: Path,
                               removeFile: nat -> RemoveOutcome, removeThumbnail: nat -> RemoveOutcome)
    requires file in files && thumbnail in files
    requires removeFile(0) == Removed && removeThumbnail(0) == Removed
    ensures var c := CleanupOf(files, Some(file), Some(thumbnail), removeFile, removeThumbnail);
      Raised(c).None? && c.files == files - {file, thumbnail}
  {
  }

  // ---------------------------------------------------------------------
  // The shared default thumbnail

  /** Every record whose decoder failed points at the one shared default
      thumbnail. Deleting any such record removes that file, so every other
      record that points at it is left with a missing thumbnail. */
  lemma DeletingOneRecordRemovesSharedDefault(files: set<Path>, file: Path,
                                              removeFile: nat -> RemoveOutcome, removeThumbnail: nat -> RemoveOutcome)
    requires FileModel.DefaultThumbnailPath in files && file != FileModel.DefaultThumbnailPath
    requires removeFile(0) == Removed && removeThumbnail(0) == Removed
    ensures var c := CleanupOf(files, Some(file), Some(FileModel.DefaultThumbnailPath), removeFile, removeThumbnail);
      Raised(c).None? && FileModel.DefaultThumbnailPath !in c.files
  {
  }

  /** The handler as evidently intended: the shared default thumbnail is not
      the record's own file and stays on disk; every other thumbnail is
      removed as before. */
  function CleanupSparingDefault(files: set<Path>, file: Option<Path>, thumbnail: Option<Path>,
                                 removeFile: nat -> RemoveOutcome, removeThumbnail: nat -> RemoveOutcome)
    : (c: Cleanup)
    ensures thumbnail != Some(FileModel.DefaultThumbnailPath) ==>
      c == CleanupOf(files, file, thumbnail, removeFile, removeThumbnail)
    ensures FileModel.DefaultThumbnailPath in files && file != Some(FileModel.DefaultThumbnailPath) ==>
      FileModel.DefaultThumbnailPath in c.files
  {
    var own := if thumbnail == Some(FileModel.DefaultThumbnailPath) then None else thumbnail;
    CleanupFacts(files, file, own, removeFile, removeThumbnail);
    CleanupOf(files, file, own, removeFile, removeThumbnail)
  }
}
