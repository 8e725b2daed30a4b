/** The simulated upload: every dropped file becomes a record at once, and a
    timer appends it to the list after a delay that grows with its position
    in the batch. */
module Upload {
  import opened Records

  /** A pending timer: the clock reading when it was set, its delay in
      milliseconds and the record its callback appends. */
  datatype Timer = Timer(setAt: nat, delay: nat, record: FileRecord)

  /** The delay of the file at position `index` of a batch. */
  function Delay(index: nat): (ms: nat)
  {
    1000 + index * 500
  }

  /** Delays strictly increase with the position in the batch; the first
      file waits one second and each further file half a second more. */
  lemma DelayIncreasing(i: nat, j: nat)
    ensures Delay(0) == 1000
    ensures i < j ==> Delay(i) < Delay(j)
    ensures Delay(i + 1) == Delay(i) + 500
  {
  }

  /** The readings never step back. */
  predicate NonDecreasing(clock: seq<nat>)
  {
    forall i, j :: 0 <= i <= j < |clock| ==> clock[i] <= clock[j]
  }

  /** Readings of the browser's timer clock, one per `setTimeout` call of a
      drop.  Unlike the wall clock `Date.now()`, this clock is monotonic. */
  type TimerClock = s: seq<nat> | NonDecreasing(s) witness []

  /** The timers a drop of `files` sets, in the order they are set, when the
      wall clock reads `clock[i]` and the timer clock `timerClock[i]` in the
      iteration for file `i`: one timer per file, set at its timer-clock
      reading, with the delay `1000 + 500 * i`, carrying the record built from
      that file and that wall-clock reading.  So every record is public,
      keeps its file's name, size and URL, is classified by its MIME type,
      and has the plain decimal id of reading + position. */
  function Batch(files: seq<SourceFile>, clock: seq<nat>, timerClock: TimerClock): (timers: seq<Timer>)
    requires |clock| == |files| && |timerClock| == |files|
    ensures |timers| == |files|
    ensures forall i :: 0 <= i < |files| ==>
              timers[i].setAt == timerClock[i] && timers[i].delay == 1000 + i * 500 &&
              timers[i].record == MakeRecord(files[i], clock[i], i)
    ensures forall i, j :: 0 <= i < j < |files| ==> timers[i].delay < timers[j].delay
    ensures forall i :: 0 <= i < |files| ==>
              var r := timers[i].record;
              !r.isPrivate && r.name == files[i].name && r.size == files[i].size &&
              r.url == files[i].objectUrl &&
              (r.kind == Image <==> ImageMimePrefix <= files[i].mimeType) &&
              |r.id| >= 1 && IsDecimal(r.id) && (r.id[0] == '0' ==> r.id == "0") &&
              DecimalValue(r.id) == clock[i] + i
  {
    seq(|files|, i requires 0 <= i < |files| =>
      Timer(timerClock[i], Delay(i), MakeRecord(files[i], clock[i], i)))
  }

  /** The records a batch carries, in input order. */
  function BatchRecords(files: seq<SourceFile>, clock: seq<nat>): (records: seq<FileRecord>)
    requires |clock| == |files|
  {
    seq(|files|, i requires 0 <= i < |files| => MakeRecord(files[i], clock[i], i))
  }

  /** The upload routine's loop over the dropped files: reads the clock,
      builds each record and sets its timer. */
  method SimulateUpload(files: seq<SourceFile>, clock: seq<nat>, timerClock: TimerClock)
    returns (timers: seq<Timer>)
    requires |clock| == |files| && |timerClock| == |files|
    ensures timers == Batch(files, clock, timerClock)
  {
    timers := [];
    for i := 0 to |files|
      invariant |timers| == i
      invariant forall k :: 0 <= k < i ==>
                  timers[k] == Timer(timerClock[k], Delay(k), MakeRecord(files[k], clock[k], k))
    {
      var record := MakeRecord(files[i], clock[i], i);
      timers := timers + [Timer(timerClock[i], Delay(i), record)];
    }
  }

  /** No two records of one drop share an id, as long as the wall clock does
      not step back during the loop. */
  lemma BatchIdsDistinct(files: seq<SourceFile>, clock: seq<nat>, timerClock: TimerClock)
    requires |clock| == |files| && |timerClock| == |files| && NonDecreasing(clock)
    ensures forall i, j :: 0 <= i < j < |files| ==>
              Batch(files, clock, timerClock)[i].record.id != Batch(files, clock, timerClock)[j].record.id
  {
  }

  /** A wall clock that steps back one millisecond between the two
      iterations of a two-file drop gives both records the same id. */
  lemma BatchIdsCollideWhenClockStepsBack(a: SourceFile, b: SourceFile, now: nat, timerClock: TimerClock)
    requires |timerClock| == 2
    ensures var timers := Batch([a, b], [now + 1, now], timerClock);
            timers[0].record.id == timers[1].record.id
  {
    RecordIdCollides(now);
  }

  /** When timer `i` is due: its setting time plus its delay. */
  function DueAt(t: Timer): (ms: nat)
  {
    t.setAt + t.delay
  }

  /** Timer `i` runs before timer `j`: it is due earlier, or at the same
      moment and was set first (positions in `timers` are setting order). */
  predicate FiresBefore(timers: seq<Timer>, i: nat, j: nat)
    requires i < |timers| && j < |timers|
  {
    DueAt(timers[i]) < DueAt(timers[j]) || (DueAt(timers[i]) == DueAt(timers[j]) && i < j)
  }

  /** `order` lists timer positions, each below |timers|. */
  predicate InRange(timers: seq<Timer>, order: seq<nat>)
  {
    forall k :: 0 <= k < |order| ==> order[k] < |timers|
  }

  /** `order` is an order in which the event loop can run the timers: each
      timer once, every timer before all that it fires before. */
  predicate IsFiringOrder(timers: seq<Timer>, order: seq<nat>)
  {
    |order| == |timers| && InRange(timers, order) &&
    forall j, k :: 0 <= j < k < |order| ==> FiresBefore(timers, order[j], order[k])
  }

  /** The records appended when the timers run in `order`. */
  function FiredRecords(timers: seq<Timer>, order: seq<nat>): (records: seq<FileRecord>)
    requires InRange(timers, order)
    ensures |records| == |order|
    ensures forall k :: 0 <= k < |order| ==> records[k] == timers[order[k]].record
  {
    seq(|order|, k requires 0 <= k < |order| => timers[order[k]].record)
  }

  /** The positions 0, 1, ..., n - 1 in increasing order. */
  function Positions(n: nat): (order: seq<nat>)
    ensures |order| == n && forall k :: 0 <= k < n ==> order[k] == k
  {
    seq(n, k requires 0 <= k < n => k)
  }

  /** A strictly increasing sequence of positions holds at least `k` at
      index `k`. */
  lemma {:induction false} IncreasingLowerBound(order: seq<nat>, k: nat)
    requires k < |order|
    requires forall j, l :: 0 <= j < l < |order| ==> order[j] < order[l]
    ensures order[k] >= k
  {
    if k > 0 {
      IncreasingLowerBound(order, k - 1);
    }
  }

  /** A strictly increasing sequence of `n` positions, all below `n`, holds
      at most `k` at index `k`. */
  lemma {:induction false} IncreasingUpperBound(order: seq<nat>, n: nat, k: nat)
    requires k < |order| == n
    requires forall j :: 0 <= j < |order| ==> order[j] < n
    requires forall j, l :: 0 <= j < l < |order| ==> order[j] < order[l]
    ensures order[k] <= k
    decreases |order| - k
  {
    if k < |order| - 1 {
      IncreasingUpperBound(order, n, k + 1);
    }
  }

  /** Within one drop the event loop has no choice, whatever the wall clock
      reads: the only firing order is the input order, so the records are
      appended first file first. */
  lemma BatchFiresInInputOrder(files: seq<SourceFile>, clock: seq<nat>, timerClock: TimerClock, order: seq<nat>)
    requires |clock| == |files| && |timerClock| == |files|
    requires IsFiringOrder(Batch(files, clock, timerClock), order)
    ensures order == Positions(|files|)
    ensures FiredRecords(Batch(files, clock, timerClock), order) == BatchRecords(files, clock)
  {
    var timers := Batch(files, clock, timerClock);
    forall j, l | 0 <= j < l < |order| ensures order[j] < order[l] {
      assert FiresBefore(timers, order[j], order[l]);
    }
    forall k | 0 <= k < |order| ensures order[k] == k {
      IncreasingLowerBound(order, k);
      IncreasingUpperBound(order, |files|, k);
    }
  }

  /** The input order is a firing order of every drop, so the event loop can
      always run it. */
  lemma InputOrderFiresBatch(files: seq<SourceFile>, clock: seq<nat>, timerClock: TimerClock)
    requires |clock| == |files| && |timerClock| == |files|
    ensures IsFiringOrder(Batch(files, clock, timerClock), Positions(|files|))
  {
    var timers := Batch(files, clock, timerClock);
    forall j, k | 0 <= j < k < |files| ensures FiresBefore(timers, j, k) {
      DelayIncreasing(j, k);
    }
  }

  /** A wall clock that steps back a whole second between two files does
      not reverse their timers: the second file still cannot fire first. */
  lemma WallClockStepBackKeepsOrder(a: SourceFile, b: SourceFile, timerClock: TimerClock)
    requires |timerClock| == 2
    ensures !IsFiringOrder(Batch([a, b], [1000, 0], timerClock), [1, 0])
  {
    assert Positions(2)[0] == 0 != [1, 0][0];
    if IsFiringOrder(Batch([a, b], [1000, 0], timerClock), [1, 0]) {
      BatchFiresInInputOrder([a, b], [1000, 0], timerClock, [1, 0]);
      assert false;
    }
  }

  /** Timers of two drops interleave: a drop of three files at 0 ms and a
      drop of one file at 600 ms run as file 0, file 1, the later drop's
      file (due at 1600 ms), then file 2 (due at 2000 ms). */
  lemma InterleavedDrops(a0: SourceFile, a1: SourceFile, a2: SourceFile, b0: SourceFile)
    ensures IsFiringOrder(Batch([a0, a1, a2], [0, 0, 0], [0, 0, 0]) + Batch([b0], [600], [600]), [0, 1, 3, 2])
  {
    var timers := Batch([a0, a1, a2], [0, 0, 0], [0, 0, 0]) + Batch([b0], [600], [600]);
    assert DueAt(timers[0]) == 1000 && DueAt(timers[1]) == 1500;
    assert DueAt(timers[2]) == 2000 && DueAt(timers[3]) == 1600;
  }
}
