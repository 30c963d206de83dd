/** Checkpoints of the log, and what a restart rebuilds from them and from the segment files. */
module Restart {
  import opened Bytes
  import opened Records
  import opened Segments
  import opened Logs
  import opened Retention
  import opened TimeSearch
  import opened Remnants

  datatype SegmentCheckpoint = SegmentCheckpoint(tail: nat, head: nat, closed: bool)

  /** Segment files by the id they start at, which is their name. */
  type Files = map<nat, seq<byte>>

  function CheckpointOf(s: SegmentView): SegmentCheckpoint {
    SegmentCheckpoint(s.tail, s.Head(), s.closed)
  }

  /** The segments a checkpoint lists: those that start at or after the tail of the log. */
  function Listed(segs: seq<SegmentView>, tail: nat): seq<SegmentView> {
    if segs == [] then []
    else if segs[0].tail >= tail then [segs[0]] + Listed(segs[1..], tail)
    else Listed(segs[1..], tail)
  }

  function Checkpoints(segs: seq<SegmentView>): (r: seq<SegmentCheckpoint>)
    ensures |r| == |segs|
    ensures forall i :: 0 <= i < |r| ==> r[i] == CheckpointOf(segs[i])
  {
    seq(|segs|, i requires 0 <= i < |segs| => CheckpointOf(segs[i]))
  }

  function Checkpoint(log: Log): seq<SegmentCheckpoint> {
    Checkpoints(Listed(log.segments, log.tail))
  }

  /** Adds a reopened segment, closing the one before it if the new one is open. */
  function AddReopened(acc: seq<SegmentView>, s: SegmentView): seq<SegmentView> {
    if !s.closed && acc != [] then
      acc[..|acc| - 1] + [acc[|acc| - 1].(closed := true)] + [s]
    else
      acc + [s]
  }

  /** Reopens the listed segments in order, skipping missing and invalid files; none on a fault. */
  function Reopen(h: Hash, cps: seq<SegmentCheckpoint>, files: Files, acc: seq<SegmentView>): Option<seq<SegmentView>>
    decreases |cps|
  {
    if cps == [] then Some(acc)
    else if cps[0].tail !in files then Reopen(h, cps[1..], files, acc)
    else
      match Open(h, cps[0].tail, cps[0].closed, files[cps[0].tail])
      case InvalidFile => Reopen(h, cps[1..], files, acc)
      case Fault => None
      case Opened(s) => Reopen(h, cps[1..], files, AddReopened(acc, s))
  }

  function FromSegments(segs: seq<SegmentView>): Log {
    if segs == [] then Empty else Log(segs, segs[|segs| - 1].Head(), segs[0].tail)
  }

  function Recover(h: Hash, cps: seq<SegmentCheckpoint>, files: Files): Option<Log> {
    match Reopen(h, cps, files, [])
    case None => None
    case Some(segs) => Some(FromSegments(segs))
  }

  // ----- whatever the files contain

  ghost predicate ClosedButLast(segs: seq<SegmentView>) {
    forall i :: 0 <= i < |segs| - 1 ==> segs[i].closed
  }

  lemma {:induction false} ReopenedSegments(h: Hash, cps: seq<SegmentCheckpoint>, files: Files, acc: seq<SegmentView>)
    requires forall i :: 0 <= i < |cps| ==> cps[i].tail <= U64_RANGE
    requires AllWellFormed(h, acc)
    ensures var r := Reopen(h, cps, files, acc);
            r.Some? ==> AllWellFormed(h, r.value)
    decreases |cps|
  {
    hide Open, WellFormed;
    if cps != [] {
      assert forall i :: 0 <= i < |cps| - 1 ==> cps[1..][i] == cps[i + 1];
      if cps[0].tail in files {
        var r := Open(h, cps[0].tail, cps[0].closed, files[cps[0].tail]);
        OpenedIsWellFormed(h, cps[0].tail, cps[0].closed, files[cps[0].tail]);
        if r.Opened? {
          assert AllWellFormed(h, AddReopened(acc, r.segment)) by {
            assert acc != [] ==> WellFormed(h, acc[|acc| - 1]);
            ClosingIsHarmless(h);
          }
          ReopenedSegments(h, cps[1..], files, AddReopened(acc, r.segment));
        } else {
          ReopenedSegments(h, cps[1..], files, acc);
        }
      } else {
        ReopenedSegments(h, cps[1..], files, acc);
      }
    }
  }

  lemma ClosingIsHarmless(h: Hash)
    ensures forall s: SegmentView :: WellFormed(h, s) ==> WellFormed(h, s.(closed := true))
  {
  }

  /** Whatever the checkpoint and the files are, only whole records are recovered. */
  lemma RecoveredIsWellFormed(h: Hash, cps: seq<SegmentCheckpoint>, files: Files)
    requires forall i :: 0 <= i < |cps| ==> cps[i].tail <= U64_RANGE
    ensures var r := Recover(h, cps, files);
            r.Some? ==>
              && AllWellFormed(h, r.value.segments)
              && (r.value.segments != [] ==> r.value.segments[|r.value.segments| - 1].Head() == r.value.head)
  {
    hide WellFormed, Reopen;
    ReopenedSegments(h, cps, files, []);
  }

  /** The file of an entry is missing or has an invalid length. */
  predicate Unusable(cp: SegmentCheckpoint, files: Files) {
    cp.tail !in files || !ValidFileLen(|files[cp.tail]|)
  }

  /** A restart finds no segment, and starts over at id 1, exactly when no listed file is usable. */
  lemma RecoversNothing(h: Hash, cps: seq<SegmentCheckpoint>, files: Files)
    ensures (exists log :: Recover(h, cps, files) == Some(log) && log.segments == [])
       <==> forall i :: 0 <= i < |cps| ==> Unusable(cps[i], files)
    ensures (forall i :: 0 <= i < |cps| ==> Unusable(cps[i], files)) ==> Recover(h, cps, files) == Some(Empty)
  {
    hide Unusable, Reopen;
    ReopensNothing(h, cps, files, []);
  }

  lemma {:induction false} ReopensNothing(h: Hash, cps: seq<SegmentCheckpoint>, files: Files, acc: seq<SegmentView>)
    ensures var r := Reopen(h, cps, files, acc);
            && (r.Some? ==> |r.value| >= |acc|)
            && ((forall i :: 0 <= i < |cps| ==> Unusable(cps[i], files)) ==> r == Some(acc))
            && (r.Some? && |r.value| == |acc| ==> forall i :: 0 <= i < |cps| ==> Unusable(cps[i], files))
    decreases |cps|
  {
    hide Scan, Splice, Encode;
    if cps != [] {
      var cp := cps[0];
      assert cps == [cp] + cps[1..];
      if Unusable(cp, files) {
        ReopensNothing(h, cps[1..], files, acc);
        assert forall i :: 0 <= i < |cps| ==> i == 0 || cps[i] == cps[1..][i - 1];
      } else if Open(h, cp.tail, cp.closed, files[cp.tail]).Opened? {
        ReopensNothing(h, cps[1..], files, AddReopened(acc, Open(h, cp.tail, cp.closed, files[cp.tail]).segment));
      }
    }
  }

  // ----- intact files

  /** The checkpoint entry and the file on disk are those of `s`. */
  ghost predicate OnDisk(h: Hash, cp: SegmentCheckpoint, files: Files, s: SegmentView) {
    && Recoverable(h, s)
    && cp.tail == s.tail && cp.closed == s.closed
    && cp.tail in files && files[cp.tail] == s.file
  }

  lemma {:induction false} ReopenIntact(
      h: Hash, cps: seq<SegmentCheckpoint>, files: Files, acc: seq<SegmentView>, segs: seq<SegmentView>)
    requires |cps| == |segs|
    requires forall i :: 0 <= i < |cps| ==> OnDisk(h, cps[i], files, segs[i])
    requires ClosedButLast(acc + segs)
    ensures Reopen(h, cps, files, acc) == Some(acc + segs)
    decreases |cps|
  {
    hide Open, Recoverable;
    if cps == [] {
      assert acc + segs == acc;
    } else {
      var s := segs[0];
      assert OnDisk(h, cps[0], files, s);
      assert Open(h, s.tail, s.closed, s.file) == Opened(s) by { RecoverableReopens(h, s, s.closed); }
      assert AddReopened(acc, s) == acc + [s] by {
        if acc != [] {
          var n := |acc| - 1;
          assert (acc + segs)[n] == acc[n] && acc[n].closed;
          assert acc[n].(closed := true) == acc[n];
          assert acc[..n] + [acc[n]] == acc;
        }
      }
      assert acc + segs == acc + [s] + segs[1..];
      assert forall i :: 0 <= i < |cps| - 1 ==> cps[1..][i] == cps[i + 1] && segs[1..][i] == segs[i + 1];
      ReopenIntact(h, cps[1..], files, acc + [s], segs[1..]);
    }
  }

  /** Every file of the log is on disk, intact and rescannable. */
  ghost predicate Intact(h: Hash, segs: seq<SegmentView>, files: Files) {
    forall i :: 0 <= i < |segs| ==>
      Recoverable(h, segs[i]) && segs[i].tail in files && files[segs[i].tail] == segs[i].file
  }

  lemma {:induction false} ListedIsSuffix(segs: seq<SegmentView>, tail: nat) returns (n: nat)
    requires Ordered(segs)
    ensures n <= |segs| && Listed(segs, tail) == segs[n..]
    ensures n > 0 ==> segs[n - 1].tail < tail
    ensures n < |segs| ==> segs[n].tail >= tail
  {
    n := 0;
    if segs != [] {
      if segs[0].tail >= tail {
        forall i | 0 <= i < |segs|
          ensures segs[i].tail >= tail
        {
          assert i > 0 ==> segs[0].Head() <= segs[i].tail;
        }
        ListedAll(segs, tail);
      } else {
        n := ListedIsSuffix(segs[1..], tail);
        assert segs[1..][n..] == segs[n + 1..];
        n := n + 1;
      }
    }
  }

  lemma {:induction false} ListedAll(segs: seq<SegmentView>, tail: nat)
    requires forall i :: 0 <= i < |segs| ==> segs[i].tail >= tail
    ensures Listed(segs, tail) == segs
  {
    if segs != [] {
      ListedAll(segs[1..], tail);
    }
  }

  /** A checkpoint names, in order, the ids and the state of exactly the segments from the tail of the log on. */
  lemma CheckpointIsExact(log: Log) returns (n: nat)
    requires Ordered(log.segments)
    ensures n <= |log.segments| && |Checkpoint(log)| == |log.segments| - n
    ensures forall i :: 0 <= i < |log.segments| ==> (i < n <==> log.segments[i].tail < log.tail)
    ensures forall i :: n <= i < |log.segments| ==>
              var s := log.segments[i];
              Checkpoint(log)[i - n] == SegmentCheckpoint(s.tail, s.tail + |s.messages|, s.closed)
  {
    n := ListedIsSuffix(log.segments, log.tail);
    forall i | 0 <= i < |log.segments|
      ensures i < n <==> log.segments[i].tail < log.tail
    {
      assert n < i ==> log.segments[n].Head() <= log.segments[i].tail;
      assert i < n - 1 ==> log.segments[i].Head() <= log.segments[n - 1].tail;
    }
    assert forall i :: n <= i < |log.segments| ==> log.segments[n..][i - n] == log.segments[i];
  }

  /**
   * A restart right after a checkpoint keeps exactly the segments that start at or after the
   * tail of the log: what was appended to an older segment after a purge is lost.
   */
  lemma RestartKeepsListed(h: Hash, log: Log, files: Files)
    requires Shape(h, log) && Intact(h, log.segments, files)
    ensures Recover(h, Checkpoint(log), files) == Some(FromSegments(Listed(log.segments, log.tail)))
  {
    hide Reopen, Listed, Checkpoints, Intact, WellFormed;
    var n := ListedIsSuffix(log.segments, log.tail);
    ReopenSuffix(h, log.segments, files, n);
  }

  lemma ReopenSuffix(h: Hash, segs: seq<SegmentView>, files: Files, n: nat)
    requires ClosedButLast(segs) && Intact(h, segs, files) && n <= |segs|
    ensures Reopen(h, Checkpoints(segs[n..]), files, []) == Some(segs[n..])
  {
    hide Reopen, Recoverable;
    var kept := segs[n..];
    forall i | 0 <= i < |kept|
      ensures OnDisk(h, Checkpoints(kept)[i], files, kept[i])
    {
      assert kept[i] == segs[n + i];
    }
    hide OnDisk, Intact, Checkpoints;
    assert [] + kept == kept;
    ReopenIntact(h, Checkpoints(kept), files, [], kept);
  }

  /**
   * Checkpoint and restart is the identity exactly when the first segment starts at the tail, that
   * is when nothing was purged; a log without segments starts over at id 1.
   */
  lemma RestartRestores(h: Hash, log: Log, files: Files)
    requires Shape(h, log) && Intact(h, log.segments, files)
    ensures Recover(h, Checkpoint(log), files) == Some(log)
       <==> if log.segments == [] then log == Empty else log.segments[0].tail == log.tail
  {
    hide Recover, Checkpoint, Intact, Listed, AllWellFormed;
    RestartKeepsListed(h, log, files);
    var n := ListedIsSuffix(log.segments, log.tail);
    if n == 0 {
      assert log.segments[0..] == log.segments;
    } else {
      assert log.segments[0].tail <= log.segments[n - 1].tail < log.tail;
      assert |log.segments[n..]| < |log.segments|;
    }
  }

  /** A message goes on in a segment that held messages before the purge. */
  predicate Continues(log: Log, body: seq<byte>) {
    && log.segments != []
    && log.segments[|log.segments| - 1].tail < log.head
    && Fits(log.segments[|log.segments| - 1], HEADER_SIZE + |body|)
  }

  lemma PushAfterPurgeGoes(h: Hash, size: nat, log: Log, body: seq<byte>, clock: u32)
    requires Shape(h, log) && Logs.Push(h, size, Purged(log), body, clock).0.Pushed?
    ensures var log' := Logs.Push(h, size, Purged(log), body, clock).1;
            && log'.tail == log.head && log'.segments != []
            && var last := log'.segments[|log'.segments| - 1];
               last.Has(log.head) && (last.tail < log.head <==> Continues(log, body))
  {
    hide Splice, Record, AllWellFormed, Ordered, Zeros, End;
  }

  /**
   * A message pushed after a purge is lost by a checkpoint and restart exactly when it went on in
   * a segment that held messages before the purge: the checkpoint does not list that segment.
   */
  lemma PushAfterPurge(h: Hash, size: nat, log: Log, body: seq<byte>, clock: u32, files: Files)
    requires Shape(h, log) && log.head < U64_RANGE
    requires Logs.Push(h, size, Purged(log), body, clock).0.Pushed?
    requires Intact(h, Logs.Push(h, size, Purged(log), body, clock).1.segments, files)
    ensures var r := Recover(h, Checkpoint(Logs.Push(h, size, Purged(log), body, clock).1), files);
            r.Some? && (log.head in Contents(r.value.segments) <==> !Continues(log, body))
  {
    hide Recover, Checkpoint, Intact, Listed, AllWellFormed, Logs.Push, Contents, Continues;
    var log' := Logs.Push(h, size, Purged(log), body, clock).1;
    PurgeKeepsShape(h, log);
    PushKeepsShape(h, size, Purged(log), body, clock);
    PushAfterPurgeGoes(h, size, log, body, clock);
    RestartKeepsListed(h, log', files);
    var n := ListedIsSuffix(log'.segments, log'.tail);
    var kept := log'.segments[n..];
    if n == |log'.segments| {
      assert kept == [];
      assert Contents([]) == map[] by { NothingStored(); }
    } else {
      assert kept[|kept| - 1] == log'.segments[|log'.segments| - 1];
      OrderedDrop(log'.segments, n);
      assert log'.segments[n].tail <= kept[|kept| - 1].tail;
      ContentsOfSegment(kept, |kept| - 1, log.head);
    }
  }

  // ----- restarting again

  ghost predicate AllRecoverable(h: Hash, segs: seq<SegmentView>) {
    forall i :: 0 <= i < |segs| ==> Recoverable(h, segs[i])
  }

  lemma ClosingKeepsRecoverable(h: Hash, s: SegmentView, closed: bool)
    requires Recoverable(h, s)
    ensures Recoverable(h, s.(closed := closed))
  {
    hide Scan, Holds, Stamped;
  }

  lemma AddKeepsRecoverable(h: Hash, acc: seq<SegmentView>, s: SegmentView)
    requires AllRecoverable(h, acc) && Recoverable(h, s)
    ensures AllRecoverable(h, AddReopened(acc, s))
  {
    hide Recoverable;
    if acc != [] {
      ClosingKeepsRecoverable(h, acc[|acc| - 1], true);
    }
  }

  lemma {:induction false} ReopenedRecoverable(
      h: Hash, cps: seq<SegmentCheckpoint>, files: Files, acc: seq<SegmentView>)
    requires forall i :: 0 <= i < |cps| ==> cps[i].tail <= U64_RANGE
    requires AllRecoverable(h, acc)
    ensures var r := Reopen(h, cps, files, acc);
            r.Some? ==> AllRecoverable(h, r.value)
    decreases |cps|
  {
    hide Open, Recoverable, AllRecoverable;
    if cps != [] {
      assert forall i :: 0 <= i < |cps| - 1 ==> cps[1..][i] == cps[i + 1];
      if cps[0].tail in files {
        var r := Open(h, cps[0].tail, cps[0].closed, files[cps[0].tail]);
        OpenedIsQuiet(h, cps[0].tail, cps[0].closed, files[cps[0].tail], true);
        if r.Opened? {
          AddKeepsRecoverable(h, acc, r.segment);
          ReopenedRecoverable(h, cps[1..], files, AddReopened(acc, r.segment));
        } else {
          ReopenedRecoverable(h, cps[1..], files, acc);
        }
      } else {
        ReopenedRecoverable(h, cps[1..], files, acc);
      }
    }
  }

  /** Whatever the checkpoint and the files are, what is recovered is given back by its own files. */
  lemma RecoveredIsRecoverable(h: Hash, cps: seq<SegmentCheckpoint>, files: Files)
    requires forall i :: 0 <= i < |cps| ==> cps[i].tail <= U64_RANGE
    ensures var r := Recover(h, cps, files);
            r.Some? ==> AllRecoverable(h, r.value.segments)
  {
    hide Recoverable, Reopen;
    ReopenedRecoverable(h, cps, files, []);
  }

  /** The files on disk are those of the segments. */
  ghost predicate OwnFiles(segs: seq<SegmentView>, files: Files) {
    forall i :: 0 <= i < |segs| ==> segs[i].tail in files && files[segs[i].tail] == segs[i].file
  }

  /**
   * A log that any checkpoint and any files were recovered to, if it has the right shape, restarts to
   * itself, although its files may hold the rest of what was rejected.
   */
  lemma RestartIsIdempotent(h: Hash, cps: seq<SegmentCheckpoint>, files: Files, again: Files)
    requires forall i :: 0 <= i < |cps| ==> cps[i].tail <= U64_RANGE
    requires Recover(h, cps, files).Some? && Shape(h, Recover(h, cps, files).value)
    requires OwnFiles(Recover(h, cps, files).value.segments, again)
    ensures var log := Recover(h, cps, files).value;
            Recover(h, Checkpoint(log), again) == Some(log)
  {
    var log := Recover(h, cps, files).value;
    assert AllRecoverable(h, log.segments) by { RecoveredIsRecoverable(h, cps, files); }
    assert if log.segments == [] then log == Empty else log.segments[0].tail == log.tail;
    hide Recover, Checkpoint, Recoverable, Shape;
    assert Intact(h, log.segments, again);
    RestartRestores(h, log, again);
  }

  lemma NothingStored()
    ensures Contents([]) == map[]
  {
  }
}
