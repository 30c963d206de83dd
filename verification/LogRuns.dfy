/**
 * Runs of a log: appends with roll-over, collection, purges, and restarts from a checkpoint and damaged
 * files, any number of times and in any order.
 */
module LogRuns {
  import opened Bytes
  import opened Records
  import opened Segments
  import opened Remnants
  import opened Logs
  import opened Retention
  import opened Restart
  import opened Damage

  /** Ids are positive, and nothing behind the last record would be taken for one or there is no room for it. */
  ghost predicate Settled(h: Hash, s: SegmentView) {
    s.tail >= 1 && Marked(s) && (s.FileOffset() == |s.file| || Quiet(h, s))
  }

  ghost predicate AllSettled(h: Hash, segs: seq<SegmentView>) {
    forall i :: 0 <= i < |segs| ==> Settled(h, segs[i])
  }

  ghost predicate Sound(h: Hash, log: Log) {
    Shape(h, log) && log.tail >= 1 && AllSettled(h, log.segments)
  }

  /** No old record stands where the scan would look for the message after the next one. */
  ghost predicate NothingReturns(h: Hash, log: Log, body: seq<byte>) {
    log.segments != [] ==>
      var last := log.segments[|log.segments| - 1];
      var end := last.FileOffset() + HEADER_SIZE + |body|;
      end < |last.file| < U32_RANGE ==> NothingAt(h, last.file, end, last.Head() + 1)
  }

  // ----- appending

  lemma SegmentPushSettled(h: Hash, s: SegmentView, body: seq<byte>, clock: u32)
    requires WellFormed(h, s) && Settled(h, s)
    ensures var s', end := Segments.Push(h, s, body, clock).1, s.FileOffset() + HEADER_SIZE + |body|;
            Settled(h, s') <==> (end < |s.file| ==> NothingAt(h, s.file, end, s.Head() + 1))
  {
    hide Scan, Holds, Marked;
    var end := s.FileOffset() + HEADER_SIZE + |body|;
    if end <= |s.file| {
      PushIs(h, s, body, clock);
      if end < |s.file| {
        PushKeepsQuiet(h, s, body, clock);
      }
    } else {
      SameFileSettled(h, s, Segments.Push(h, s, body, clock).1);
    }
  }

  lemma SameFileSettled(h: Hash, s: SegmentView, s': SegmentView)
    requires Settled(h, s) && s'.tail == s.tail && s'.messages == s.messages && s'.file == s.file
    ensures Settled(h, s')
  {
    hide Scan, Stamped;
  }

  lemma FreshPushSettled(h: Hash, id: nat, size: nat, body: seq<byte>, clock: u32)
    requires ValidFileLen(size) && 1 <= id < U64_RANGE
    ensures Settled(h, Segments.Push(h, Fresh(id, size), body, clock).1)
  {
    hide Fresh, Segments.Push, Marked, NothingAt;
    FreshIsPristine(h, id, size);
    assert Fresh(id, size).Head() == id by { FreshHead(id, size); }
    PushKeepsPristine(h, Fresh(id, size), body, clock);
    var s := Segments.Push(h, Fresh(id, size), body, clock).1;
    PristineIsMarked(h, s);
    assert s.FileOffset() <= |s.file| by { PristineFits(h, s); }
    if s.FileOffset() < |s.file| {
      PristineIsRecoverable(h, s);
    }
  }

  lemma FreshHead(id: nat, size: nat)
    requires ValidFileLen(size)
    ensures Fresh(id, size).Head() == id
  {
  }

  lemma PristineFits(h: Hash, s: SegmentView)
    requires Pristine(h, s)
    ensures s.FileOffset() <= |s.file|
  {
  }

  lemma SettledConcat(h: Hash, a: seq<SegmentView>, b: seq<SegmentView>)
    ensures AllSettled(h, a + b) <==> AllSettled(h, a) && AllSettled(h, b)
  {
    hide Settled;
    forall i | 0 <= i < |a + b|
      ensures (a + b)[i] == if i < |a| then a[i] else b[i - |a|]
    {
    }
    if AllSettled(h, a + b) {
      assert forall i :: 0 <= i < |a| ==> a[i] == (a + b)[i];
      assert forall i :: 0 <= i < |b| ==> b[i] == (a + b)[|a| + i];
    }
  }

  lemma OneSettled(h: Hash, s: SegmentView)
    ensures AllSettled(h, [s]) <==> Settled(h, s)
  {
    hide Settled;
    assert [s][0] == s;
  }

  lemma FileFits(h: Hash, s: SegmentView)
    requires WellFormed(h, s)
    ensures |s.file| < U32_RANGE
  {
  }

  lemma RollSettled(h: Hash, size: nat, log: Log, body: seq<byte>, clock: u32)
    requires 1 <= log.head < U64_RANGE
    ensures AllSettled(h, Roll(h, size, log, body, clock).1.segments) <==> AllSettled(h, log.segments)
  {
    hide Settled, Segments.Push, Fresh, AllSettled;
    if ValidFileLen(size) {
      FreshPushSettled(h, log.head, size, body, clock);
      var s := Segments.Push(h, Fresh(log.head, size), body, clock).1;
      OneSettled(h, s);
      SettledConcat(h, log.segments, [s]);
    }
  }

  lemma InitSettled(h: Hash, segs: seq<SegmentView>, n: nat)
    requires AllSettled(h, segs) && n < |segs|
    ensures AllSettled(h, segs[..n]) && Settled(h, segs[n])
  {
    hide Settled;
  }

  /**
   * An append, with or without roll-over, keeps every segment settled exactly when no old record
   * stands behind its place that the id after it would accept.
   */
  lemma PushSettled(h: Hash, size: nat, log: Log, body: seq<byte>, clock: u32)
    requires Sound(h, log) && log.head < U64_RANGE
    ensures AllSettled(h, Logs.Push(h, size, log, body, clock).1.segments) <==> NothingReturns(h, log, body)
  {
    hide Settled, Segments.Push, NothingAt, AllSettled, WellFormed, Ordered, Roll;
    if log.segments == [] {
      RollSettled(h, size, log, body, clock);
    } else {
      var n := |log.segments| - 1;
      var init, last := log.segments[..n], log.segments[n];
      InitSettled(h, log.segments, n);
      assert WellFormed(h, last);
      FileFits(h, last);
      SegmentPushSettled(h, last, body, clock);
      var (r, s) := Segments.Push(h, last, body, clock);
      OneSettled(h, s);
      SettledConcat(h, init, [s]);
      if r.SegmentFull? {
        RollSettled(h, size, log.(segments := init + [s]), body, clock);
      }
    }
  }

  // ----- the steps

  datatype Step =
    | Append(body: seq<byte>, clock: u32)
    | Collect(smallestTail: nat, clock: u32)
    | Purge
    | Restart(files: Files)

  /** When a step can happen, of which a restart leaves every listed file missing, invalid, cut or untouched. */
  ghost predicate Can(h: Hash, log: Log, s: Step) {
    match s
    case Append(body, _) => log.head < U64_RANGE && NothingReturns(h, log, body)
    case Collect(_, _) => true
    case Purge => true
    case Restart(files) => Damaged(h, log, files)
  }

  ghost function Do(h: Hash, cfg: Config, log: Log, s: Step): Log {
    match s
    case Append(body, clock) => Logs.Push(h, cfg.segmentSize, log, body, clock).1
    case Collect(smallestTail, clock) => Gc(cfg, log, smallestTail, clock)
    case Purge => Purged(log)
    case Restart(files) =>
      var r := Recover(h, Checkpoint(log), files);
      if r.Some? then r.value else log
  }

  lemma CollectKeepsSound(h: Hash, cfg: Config, log: Log, smallestTail: nat, clock: u32)
    requires Sound(h, log)
    ensures Sound(h, Gc(cfg, log, smallestTail, clock))
  {
    hide GcCount, Settled, Get, WellFormed;
    var n := GcCount(cfg, log.segments, smallestTail, clock);
    if n > 0 {
      DropKeepsShape(h, log, n);
      var log' := DropSegments(log, n);
      assert log'.tail >= 1 by { TailGrows(h, log, n); }
      hide Shape;
      forall i | 0 <= i < |log'.segments|
        ensures Settled(h, log'.segments[i])
      {
        assert log'.segments[i] == log.segments[n + i];
      }
    }
  }

  lemma TailGrows(h: Hash, log: Log, n: nat)
    requires Sound(h, log) && 0 < n <= |log.segments|
    ensures DropSegments(log, n).tail >= 1
  {
    hide Marked, Quiet, WellFormed;
    assert n < |log.segments| ==> Settled(h, log.segments[n]);
  }

  lemma PurgeKeepsSound(h: Hash, log: Log)
    requires Sound(h, log)
    ensures Sound(h, Purged(log))
  {
    PurgeKeepsShape(h, log);
    hide Shape, Settled;
    if log.segments != [] {
      var n := |log.segments| - 1;
      SameFileSettled(h, log.segments[n], log.segments[n].(closed := true));
    }
  }

  lemma RecoverableIsSettled(h: Hash, s: SegmentView)
    requires Recoverable(h, s) && s.tail >= 1
    ensures Settled(h, s)
  {
    hide WellFormed, Marked, Quiet;
  }

  lemma RestartKeepsSound(h: Hash, log: Log, files: Files)
    requires Sound(h, log) && Damaged(h, log, files)
    ensures var r := Recover(h, Checkpoint(log), files);
            r.Some? && Sound(h, r.value)
  {
    hide Settled, Damaged, Recoverable, Recover, Checkpoint, Shape;
    DamagedRestart(h, log, files);
    DamagedRestartIsStable(h, log, files, map[]);
    var log' := Recover(h, Checkpoint(log), files).value;
    forall i | 0 <= i < |log'.segments|
      ensures Settled(h, log'.segments[i])
    {
      FirstIsTail(h, log', i) by { RecoveredTail(h, log, files); }
      RecoverableIsSettled(h, log'.segments[i]);
    }
  }

  lemma RecoveredTail(h: Hash, log: Log, files: Files)
    ensures var r := Recover(h, Checkpoint(log), files);
            r.Some? && r.value.segments != [] ==> r.value.tail == r.value.segments[0].tail
  {
    hide Reopen, Checkpoint;
  }

  lemma FirstIsTail(h: Hash, log: Log, i: nat)
    requires Shape(h, log) && i < |log.segments| && log.segments[0].tail == log.tail >= 1
    ensures log.segments[i].tail >= 1
  {
    hide WellFormed;
    assert i > 0 ==> log.segments[0].Head() <= log.segments[i].tail;
  }

  lemma AppendKeepsSound(h: Hash, size: nat, log: Log, body: seq<byte>, clock: u32)
    requires Sound(h, log) && log.head < U64_RANGE
    ensures Sound(h, Logs.Push(h, size, log, body, clock).1) <==> NothingReturns(h, log, body)
  {
    PushSettled(h, size, log, body, clock);
    PushKeepsShape(h, size, log, body, clock);
    PushExtends(h, size, log, body, clock);
    hide Shape, AllSettled, Logs.Push, NothingReturns, Contents;
  }

  lemma StepKeepsSound(h: Hash, cfg: Config, log: Log, s: Step)
    requires Sound(h, log) && Can(h, log, s)
    ensures Sound(h, Do(h, cfg, log, s))
  {
    hide Sound, Logs.Push, Gc, Purged, Recover, NothingReturns, Damaged;
    match s {
      case Append(body, clock) => AppendKeepsSound(h, cfg.segmentSize, log, body, clock);
      case Collect(smallestTail, clock) => CollectKeepsSound(h, cfg, log, smallestTail, clock);
      case Purge => PurgeKeepsSound(h, log);
      case Restart(files) => RestartKeepsSound(h, log, files);
    }
  }

  // ----- whole runs

  ghost predicate IsRun(h: Hash, cfg: Config, logs: seq<Log>, steps: seq<Step>) {
    && |logs| == |steps| + 1
    && logs[0] == Empty
    && forall i :: 0 <= i < |steps| ==> IsStep(h, cfg, logs[i], steps[i], logs[i + 1])
  }

  ghost predicate IsStep(h: Hash, cfg: Config, log: Log, s: Step, log': Log) {
    Can(h, log, s) && log' == Do(h, cfg, log, s)
  }

  /**
   * In every state of every run the log has the right shape, every lookup is the ceiling of what is
   * stored, and nothing behind the last record of a segment would be taken for one.
   */
  lemma {:induction false} RunIsSound(h: Hash, cfg: Config, logs: seq<Log>, steps: seq<Step>, i: nat, id: nat)
    requires IsRun(h, cfg, logs, steps) && i < |logs|
    ensures Sound(h, logs[i])
    ensures IsCeiling(Contents(logs[i].segments), id, Get(logs[i].segments, id))
  {
    hide Can, Do, Contents, Get, IsCeiling;
    if i > 0 {
      RunIsSound(h, cfg, logs, steps, i - 1, id);
      assert IsStep(h, cfg, logs[i - 1], steps[i - 1], logs[i]);
      hide Sound;
      StepKeepsSound(h, cfg, logs[i - 1], steps[i - 1]);
    }
    assert Ordered(logs[i].segments) by { SoundIsOrdered(h, logs[i]); }
    GetIsCeiling(logs[i].segments, id);
  }

  lemma SoundIsOrdered(h: Hash, log: Log)
    requires Sound(h, log)
    ensures Ordered(log.segments)
  {
  }

  /** In every such state the log can restart from its own files. */
  lemma OwnFilesAreSalvageable(h: Hash, log: Log, files: Files)
    requires Sound(h, log) && OwnFiles(log.segments, files)
    ensures Damaged(h, log, files)
  {
    hide Salvageable, Settled, Ordered;
    forall i | 0 <= i < |log.segments|
      ensures Salvageable(h, log.segments[i], files)
    {
      var s := log.segments[i];
      assert WellFormed(h, s) && Settled(h, s);
      SettledIsSalvageable(h, s, files);
    }
  }

  lemma SettledIsSalvageable(h: Hash, s: SegmentView, files: Files)
    requires WellFormed(h, s) && Settled(h, s) && s.tail in files && files[s.tail] == s.file
    ensures Salvageable(h, s, files)
  {
    hide Holds, Quiet, Marked;
    if s.FileOffset() == |s.file| {
      assert CutAt(s, files[s.tail], |s.file|);
    }
  }
}
