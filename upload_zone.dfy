/** The upload simulator: files dropped or picked become upload records at
    0 %, and a timer per upload raises its record's progress by 10 every
    firing until it reaches 100 % and the timer is cleared. */
module Upload {
  import opened Wrappers

  /** What is read from a picked or dropped file: its name and byte size. */
  datatype FileInput = FileInput(name: string, bytes: nat)

  /** The id `${Date.now()}-${index}`: the clock reading taken for the file
      and the file's index in its batch. */
  datatype UploadId = UploadId(stamp: int, index: nat)

  /** `Error` is declared but no operation produces it. */
  datatype Status = Uploading | Completed | Error

  /** One row of the upload list. The size is kept as the byte count the
      label is formatted from. */
  datatype UploadedFile = UploadedFile(id: UploadId, name: string, bytes: nat, progress: int, status: Status)

  /** One `simulateUpload` call: the id it writes to and its closure
      counter. It fires while the counter is below 100. */
  datatype Timer = Timer(fileId: UploadId, progress: int)

  /** Percent added per firing, and the percentage at which a timer stops. */
  const Step := 10
  const Done := 100

  /** `progress >= 100 ? 'completed' : 'uploading'`. */
  function StatusFor(progress: int): (s: Status)
    ensures s != Error
    ensures s == Completed <==> progress >= Done
  {
    if progress >= Done then Completed else Uploading
  }

  /** The records `handleFiles` creates for a batch: one per file, in input
      order, at 0 % and uploading, with pairwise distinct ids. The clock is
      read once per file, inside the mapping, so `stamps[i]` is the reading
      taken for file `i`; readings may differ within a batch. */
  function NewRecords(files: seq<FileInput>, stamps: seq<int>): (r: seq<UploadedFile>)
    requires |stamps| == |files|
    ensures |r| == |files|
    ensures forall i :: 0 <= i < |r| ==>
      && r[i].name == files[i].name && r[i].bytes == files[i].bytes
      && r[i].progress == 0 && r[i].status == Uploading
      && r[i].id == UploadId(stamps[i], i)
    ensures forall i, j :: 0 <= i < j < |r| ==> r[i].id != r[j].id
  {
    seq(|files|, i requires 0 <= i < |files| =>
      UploadedFile(UploadId(stamps[i], i), files[i].name, files[i].bytes, 0, Uploading))
  }

  /** No id of the batch read with `stamps` is already taken by a record. */
  predicate FreshIds(records: seq<UploadedFile>, stamps: seq<int>) {
    forall f, i :: f in records && 0 <= i < |stamps| ==> f.id != UploadId(stamps[i], i)
  }

  /** No two records share an id. */
  predicate DistinctIds(records: seq<UploadedFile>) {
    forall i, j :: 0 <= i < j < |records| ==> records[i].id != records[j].id
  }

  /** Appending a batch keeps all ids distinct exactly when they were
      distinct before and the batch takes no id already in use. */
  lemma AppendUnique(before: seq<UploadedFile>, batch: seq<UploadedFile>, stamps: seq<int>)
    requires |stamps| == |batch|
    requires forall i :: 0 <= i < |batch| ==> batch[i].id == UploadId(stamps[i], i)
    requires DistinctIds(batch)
    ensures DistinctIds(before + batch) <==> DistinctIds(before) && FreshIds(before, stamps)
  {
    var all := before + batch;
    if DistinctIds(all) {
      forall i, j | 0 <= i < j < |before|
        ensures before[i].id != before[j].id
      {
        assert all[i] == before[i] && all[j] == before[j];
      }
      forall f, i | f in before && 0 <= i < |stamps|
        ensures f.id != UploadId(stamps[i], i)
      {
        var k :| 0 <= k < |before| && before[k] == f;
        assert all[k] == f && all[|before| + i] == batch[i];
      }
    }
    if DistinctIds(before) && FreshIds(before, stamps) {
      forall i, j | 0 <= i < j < |all|
        ensures all[i].id != all[j].id
      {
        if j < |before| {
          assert all[i] == before[i] && all[j] == before[j];
        } else if i < |before| {
          assert all[i] == before[i] && before[i] in before;
          assert all[j] == batch[j - |before|];
        } else {
          assert all[i] == batch[i - |before|] && all[j] == batch[j - |before|];
        }
      }
    }
  }

  /** Ids can collide across batches: a two-file batch whose mapping spans
      a clock tick from `t` to `t + 1` takes `t+1-1`, which a later
      two-file batch read at `t + 1` takes again. */
  lemma TickDuringBatchCollides(first: seq<FileInput>, second: seq<FileInput>, t: int)
    requires |first| == 2 && |second| == 2
    ensures !FreshIds(NewRecords(first, [t, t + 1]), [t + 1, t + 1])
  {
    var before := NewRecords(first, [t, t + 1]);
    assert before[1] in before && before[1].id == UploadId([t + 1, t + 1][1], 1);
  }

  /** The timers the batch starts, one per new record, each at 0. */
  function StartTimers(records: seq<UploadedFile>): (r: seq<Timer>)
    ensures |r| == |records|
    ensures forall i :: 0 <= i < |r| ==> r[i].fileId == records[i].id && r[i].progress == 0
  {
    seq(|records|, i requires 0 <= i < |records| => Timer(records[i].id, 0))
  }

  /** The list after one firing of the timer for `fileId`: every record
      with that id gets the new progress and its status; every other
      record, and every id and name, stays as it was. */
  function WriteProgress(files: seq<UploadedFile>, fileId: UploadId, progress: int): (r: seq<UploadedFile>)
    ensures |r| == |files|
    ensures forall i :: 0 <= i < |r| && files[i].id != fileId ==> r[i] == files[i]
    ensures forall i :: 0 <= i < |r| && files[i].id == fileId ==>
      && r[i].id == fileId && r[i].name == files[i].name && r[i].bytes == files[i].bytes
      && r[i].progress == progress
      && (r[i].status == Completed <==> progress >= Done)
      && (r[i].status == Uploading <==> progress < Done)
  {
    seq(|files|, i requires 0 <= i < |files| =>
      if files[i].id == fileId then files[i].(progress := progress, status := StatusFor(progress))
      else files[i])
  }

  /** A percentage an upload can show: 0 to 100 in steps of 10. */
  predicate ValidProgress(p: int) {
    0 <= p <= Done && p % Step == 0
  }

  /** A record shows a valid percentage and the status that goes with it. */
  predicate RecordOk(f: UploadedFile) {
    ValidProgress(f.progress) && f.status == StatusFor(f.progress)
  }

  /** The percentages a timer whose counter is at `counter` goes on to
      write, one per firing, until it is cleared. */
  function Trace(counter: int): seq<int>
    decreases Done - counter
  {
    if counter >= Done then [] else [counter + Step] + Trace(counter + Step)
  }

  /** From a valid counter the timer fires (100 - counter) / 10 more times,
      writing counter + 10, counter + 20, ... and ending at exactly 100. */
  lemma {:induction false} TraceShape(c: int)
    requires ValidProgress(c)
    ensures |Trace(c)| == (Done - c) / Step
    ensures forall k :: 0 <= k < |Trace(c)| ==> Trace(c)[k] == c + Step * (k + 1)
    ensures forall k :: 0 <= k < |Trace(c)| ==> ValidProgress(Trace(c)[k])
    ensures c < Done ==> Trace(c)[|Trace(c)| - 1] == Done
    decreases Done - c
  {
    if c < Done {
      TraceShape(c + Step);
      var t := Trace(c + Step);
      assert Trace(c) == [c + Step] + t;
      forall k | 0 <= k < |Trace(c)|
        ensures Trace(c)[k] == c + Step * (k + 1)
      {
        if k > 0 {
          assert Trace(c)[k] == t[k - 1];
        }
      }
    }
  }

  /** A new upload passes through 10, 20, ..., 100: exactly ten firings. */
  lemma FreshUploadTakesTenTicks()
    ensures |Trace(0)| == 10
    ensures forall k :: 0 <= k < 10 ==> Trace(0)[k] == 10 * (k + 1)
  {
    TraceShape(0);
  }

  /** The upload zone's state: the drag highlight, the upload list, and the
      timers `simulateUpload` started, in the same order as the list. */
  class UploadZone {
    var isDragging: bool
    var uploadedFiles: seq<UploadedFile>
    var timers: seq<Timer>

    /** Every record has its timer at the same index, writing to its id;
        every counter and record is a valid percentage, and no record is
        in error. */
    ghost predicate Valid()
      reads this
    {
      && |timers| == |uploadedFiles|
      && forall i :: 0 <= i < |timers| ==>
           && timers[i].fileId == uploadedFiles[i].id
           && ValidProgress(timers[i].progress)
           && RecordOk(uploadedFiles[i])
    }

    /** No two records share an id. */
    ghost predicate UniqueIds()
      reads this
    {
      DistinctIds(uploadedFiles)
    }

    /** Each record shows the counter of its own timer. */
    ghost predicate Synced()
      reads this
    {
      && |timers| == |uploadedFiles|
      && forall i :: 0 <= i < |timers| ==> uploadedFiles[i].progress == timers[i].progress
    }

    /** Timer `t` has not been cleared yet. */
    predicate Active(t: nat)
      reads this
    {
      t < |timers| && timers[t].progress < Done
    }

    constructor ()
      ensures Valid() && UniqueIds() && Synced()
      ensures !isDragging && uploadedFiles == [] && timers == []
    {
      isDragging := false;
      uploadedFiles := [];
      timers := [];
    }

    /** `handleDragOver`: turns the highlight on. */
    method DragOver()
      modifies this
      ensures isDragging
      ensures uploadedFiles == old(uploadedFiles) && timers == old(timers)
      ensures old(Valid()) ==> Valid()
    {
      isDragging := true;
    }

    /** `handleDragLeave`: turns the highlight off. */
    method DragLeave()
      modifies this
      ensures !isDragging
      ensures uploadedFiles == old(uploadedFiles) && timers == old(timers)
      ensures old(Valid()) ==> Valid()
    {
      isDragging := false;
    }

    /** `handleFiles`: appends the batch's records after the existing ones
        and starts one timer per new record. The batch's ids are distinct
        among themselves; all ids stay distinct exactly when they were
        before and none of the batch's ids is already taken. */
    method HandleFiles(files: seq<FileInput>, stamps: seq<int>)
      requires Valid() && |stamps| == |files|
      modifies this
      ensures Valid()
      ensures uploadedFiles == old(uploadedFiles) + NewRecords(files, stamps)
      ensures timers == old(timers) + StartTimers(NewRecords(files, stamps))
      ensures isDragging == old(isDragging)
      ensures old(Synced()) ==> Synced()
      ensures UniqueIds() <==> old(UniqueIds()) && FreshIds(old(uploadedFiles), stamps)
    {
      var newFiles := NewRecords(files, stamps);
      uploadedFiles := uploadedFiles + newFiles;
      var i := 0;
      while i < |newFiles|
        invariant 0 <= i <= |newFiles|
        invariant uploadedFiles == old(uploadedFiles) + newFiles
        invariant timers == old(timers) + StartTimers(newFiles)[..i]
        invariant isDragging == old(isDragging)
      {
        timers := timers + [Timer(newFiles[i].id, 0)];
        i := i + 1;
      }
      assert StartTimers(newFiles)[..i] == StartTimers(newFiles);
      AppendUnique(old(uploadedFiles), newFiles, stamps);
    }

    /** `handleDrop`: turns the highlight off and adds the dropped files. */
    method Drop(files: seq<FileInput>, stamps: seq<int>)
      requires Valid() && |stamps| == |files|
      modifies this
      ensures Valid() && !isDragging
      ensures uploadedFiles == old(uploadedFiles) + NewRecords(files, stamps)
      ensures timers == old(timers) + StartTimers(NewRecords(files, stamps))
      ensures old(Synced()) ==> Synced()
      ensures UniqueIds() <==> old(UniqueIds()) && FreshIds(old(uploadedFiles), stamps)
    {
      isDragging := false;
      HandleFiles(files, stamps);
    }

    /** `handleFileSelect`: adds the picked files; with no file list the
        state is left as it is. */
    method FileSelect(files: Option<seq<FileInput>>, stamps: seq<int>)
      requires Valid() && (files.Some? ==> |stamps| == |files.value|)
      modifies this
      ensures Valid() && isDragging == old(isDragging)
      ensures files.None? ==> uploadedFiles == old(uploadedFiles) && timers == old(timers)
      ensures files.Some? ==> uploadedFiles == old(uploadedFiles) + NewRecords(files.value, stamps)
      ensures files.Some? ==> timers == old(timers) + StartTimers(NewRecords(files.value, stamps))
      ensures old(Synced()) ==> Synced()
      ensures files.None? ==> (UniqueIds() <==> old(UniqueIds()))
      ensures files.Some? ==> (UniqueIds() <==> old(UniqueIds()) && FreshIds(old(uploadedFiles), stamps))
    {
      if files.Some? {
        HandleFiles(files.value, stamps);
      }
    }

    /** One firing of timer `t`: its counter goes up by 10 and is written
        into every record with its id, whose status becomes completed at
        100. Nothing else changes; the state stays valid. */
    method Tick(t: nat)
      requires Valid() && Active(t)
      modifies this
      ensures Valid()
      ensures timers == old(timers)[t := Timer(old(timers[t].fileId), old(timers[t].progress) + Step)]
      ensures uploadedFiles == WriteProgress(old(uploadedFiles), old(timers[t].fileId), old(timers[t].progress) + Step)
      ensures isDragging == old(isDragging)
      ensures UniqueIds() == old(UniqueIds())
      ensures old(UniqueIds()) && old(Synced()) ==> Synced()
    {
      var fileId := timers[t].fileId;
      var progress := timers[t].progress + Step;
      timers := timers[t := Timer(fileId, progress)];
      uploadedFiles := WriteProgress(uploadedFiles, fileId, progress);
    }

    /** Timer `t` fired until it is cleared: it writes exactly `Trace` of
        its counter and ends at 100 with the same id, and, when ids are
        unique and records show their counters, leaves its record
        completed at 100 with its id, name and size, and every other timer
        and record as they were. */
    method RunTimer(t: nat) returns (written: seq<int>)
      requires Valid() && t < |timers|
      modifies this
      ensures Valid()
      ensures written == Trace(old(timers[t].progress))
      ensures |timers| == old(|timers|) && timers[t] == Timer(old(timers[t].fileId), Done) && !Active(t)
      ensures forall i :: 0 <= i < |timers| && i != t ==> timers[i] == old(timers[i])
      ensures isDragging == old(isDragging)
      ensures old(UniqueIds()) && old(Synced()) ==>
        && uploadedFiles[t] == old(uploadedFiles[t]).(progress := Done, status := Completed)
        && forall i :: 0 <= i < |uploadedFiles| && i != t ==> uploadedFiles[i] == old(uploadedFiles[i])
    {
      written := [];
      ghost var start := timers[t].progress;
      ghost var unique := UniqueIds() && Synced();
      while timers[t].progress < Done
        invariant Valid() && |timers| == old(|timers|)
        invariant written + Trace(timers[t].progress) == Trace(start)
        invariant forall i :: 0 <= i < |timers| && i != t ==> timers[i] == old(timers[i])
        invariant timers[t].fileId == old(timers[t].fileId)
        invariant isDragging == old(isDragging)
        invariant unique ==> uploadedFiles[t].id == old(uploadedFiles[t].id) && uploadedFiles[t].name == old(uploadedFiles[t].name)
        invariant unique ==> uploadedFiles[t].bytes == old(uploadedFiles[t].bytes)
        invariant unique ==> UniqueIds() && Synced()
        invariant unique ==> forall i :: 0 <= i < |uploadedFiles| && i != t ==> uploadedFiles[i] == old(uploadedFiles[i])
        decreases Done - timers[t].progress
      {
        ghost var before := timers[t].progress;
        Tick(t);
        written := written + [timers[t].progress];
        assert Trace(before) == [before + Step] + Trace(before + Step);
        assert written + Trace(timers[t].progress) == Trace(start);
      }
    }
  }
}
