/** The page's state container: the list of uploaded-file records, replaced
    by the timer callbacks and by the privacy toggle. */
module UploadedFiles {
  import opened Records
  import opened Privacy
  import opened Upload

  class UploadList {
    /** The records in the order they were appended. */
    var files: seq<FileRecord>

    /** The page starts with an empty list. */
    constructor ()
      ensures files == []
    {
      files := [];
    }

    /** A timer callback: the record goes to the end, the earlier records
        stay as they are. */
    method Append(r: FileRecord)
      modifies this
      ensures files == old(files) + [r]
      ensures |files| == |old(files)| + 1 && files[|files| - 1] == r
      ensures forall k :: 0 <= k < |old(files)| ==> files[k] == old(files)[k]
    {
      files := files + [r];
    }

    /** The card's privacy button: the list becomes its toggled copy. */
    method TogglePrivacy(id: string)
      modifies this
      ensures files == Toggled(old(files), id)
    {
      files := Toggled(files, id);
    }

    /** The event loop running the callbacks of `timers` (of one drop or of
        several, in setting order) in a firing `order`: one append per timer. */
    method RunTimers(timers: seq<Timer>, order: seq<nat>)
      requires IsFiringOrder(timers, order)
      modifies this
      ensures files == old(files) + FiredRecords(timers, order)
    {
      for k := 0 to |order|
        invariant files == old(files) + FiredRecords(timers, order[..k])
      {
        Append(timers[order[k]].record);
        assert order[..k + 1] == order[..k] + [order[k]];
      }
      assert order[..|order|] == order;
    }
  }

  /** A drop of two files whose wall-clock readings do not step back, the
      run of their timers in input order (the only run they have, by
      BatchFiresInInputOrder), and two toggles of the first file: the
      timers wait 1000 and 1500 ms, the list becomes both records in input
      order, the first toggle makes only the first record private, and the
      second restores the list. */
  method DropTwoAndToggle(a: SourceFile, b: SourceFile, ta: nat, tb: nat, timerClock: TimerClock)
    returns (delays: seq<nat>, appended: seq<FileRecord>, once: seq<FileRecord>, twice: seq<FileRecord>)
    requires ta <= tb && |timerClock| == 2
    ensures delays == [1000, 1500]
    ensures appended == [MakeRecord(a, ta, 0), MakeRecord(b, tb, 1)]
    ensures once == [MakeRecord(a, ta, 0).(isPrivate := true), MakeRecord(b, tb, 1)]
    ensures twice == appended
  {
    var list := new UploadList();
    var timers := SimulateUpload([a, b], [ta, tb], timerClock);
    delays := [timers[0].delay, timers[1].delay];
    InputOrderFiresBatch([a, b], [ta, tb], timerClock);
    assert Positions(2) == [0, 1];
    list.RunTimers(timers, [0, 1]);
    appended := list.files;
    var ra, rb := MakeRecord(a, ta, 0), MakeRecord(b, tb, 1);
    assert appended == [ra, rb];
    RecordIdsDistinctInBatch(ta, 0, tb, 1);

    list.TogglePrivacy(ra.id);
    once := list.files;
    ToggledElement([ra, rb], ra.id, 0);
    ToggledElement([ra, rb], ra.id, 1);

    list.TogglePrivacy(ra.id);
    twice := list.files;
    ToggleTwice([ra, rb], ra.id);
  }
}
