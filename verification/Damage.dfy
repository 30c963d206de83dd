/** Restarts from damaged files: what is left of a log whose files are missing, truncated or cut short. */
module Damage {
  import opened Bytes
  import opened Records
  import opened Segments
  import opened Logs
  import opened Retention
  import opened Restart
  import opened Remnants

  // ----- one record

  /** The two messages have the same checksum under this id. */
  ghost predicate SameHash(h: Hash, id: nat, m: Message, m': Message) {
    h(Payload(id, m)) == h(Payload(id, m'))
  }

  /** The bytes of a record after its hash field are its payload. */
  lemma RecordBytes(h: Hash, file: seq<byte>, off: nat, id: nat, m: Message)
    requires RecordAt(h, file, off, id, m)
    ensures file[off + 4..off + Size(m)] == Payload(id, m)
  {
    hide Encode, Decode;
    EncodeDecode(file[off + 4..off + 12]);
    EncodeDecode(file[off + 12..off + 16]);
    EncodeDecode(file[off + 16..off + 20]);
  }

  /** `cut` is `file` up to byte `k` and zero from there on. */
  ghost predicate Cut(file: seq<byte>, cut: seq<byte>, k: nat) {
    |file| == |cut| && k <= |file| && file[..k] == cut[..k] && ZeroFrom(cut, k)
  }

  /** A field of a cut file is not larger than it was; it is the same if it ends before the cut. */
  lemma CutField(file: seq<byte>, cut: seq<byte>, k: nat, a: nat, b: nat)
    requires Cut(file, cut, k) && a <= b <= |file|
    ensures Decode(cut[a..b]) <= Decode(file[a..b])
    ensures b <= k ==> cut[a..b] == file[a..b]
    ensures k <= a ==> Decode(cut[a..b]) == 0
  {
    var i := if k <= a then 0 else if b <= k then b - a else k - a;
    if k > a {
      SliceOfSlice(file, 0, k, a, a + i);
      SliceOfSlice(cut, 0, k, a, a + i);
      assert file[a..b][..i] == file[a..a + i] && cut[a..b][..i] == cut[a..a + i];
    }
    DecodeCut(file[a..b], cut[a..b], i);
    if k <= a {
      DecodeZeros(cut[a..b]);
    }
  }

  /**
   * A record that the cut goes through: the scan rejects it, or takes one message with the same
   * checksum in its place; it goes no further and never leaves the file.
   */
  lemma CutRecord(h: Hash, file: seq<byte>, cut: seq<byte>, k: nat, off: nat, id: nat, m: Message)
    requires Cut(file, cut, k) && |file| < U32_RANGE && id >= 1
    requires RecordAt(h, file, off, id, m) && off <= k < off + Size(m)
    ensures var r := Scan(h, cut, off, id);
            !r.fault && (r.messages == [] || (|r.messages| == 1 && SameHash(h, id, m, r.messages[0])))
  {
    hide Decode, Payload, Scan;
    var len, len' := LenAt(file, off), LenAt(cut, off);
    CutField(file, cut, k, off, off + 4);
    CutField(file, cut, k, off + 4, off + 12);
    CutField(file, cut, k, off + 16, off + 20);
    assert len' <= len;
    ScanUnfolds(h, cut, off, id);
    assert WrappedEnd(cut, off) == off + HEADER_SIZE + len';
    if Scan(h, cut, off, id).messages != [] {
      var m' := MessageAt(cut, off);
      assert RecordAt(h, cut, off, id, m');
      RecordBytes(h, file, off, id, m);
      RecordBytes(h, cut, off, id, m');
      assert ZeroFrom(cut, off + HEADER_SIZE + len');
      ScanZeros(h, cut, off + HEADER_SIZE + len', id + 1);
    }
  }

  // ----- one segment

  lemma {:induction false} RecordAround(ms: seq<Message>, k: nat) returns (j: nat)
    requires MAGIC_SIZE <= k < End(ms)
    ensures j < |ms| && Offset(ms, j) <= k < Offset(ms, j + 1)
  {
    var n := |ms| - 1;
    OffsetStep(ms, n);
    assert ms[..n + 1] == ms;
    if End(ms[..n]) <= k {
      j := n;
    } else {
      j := RecordAround(ms[..n], k);
      assert ms[..n][..j] == ms[..j] && ms[..n][..j + 1] == ms[..j + 1];
    }
  }

  /** What is found of `ms`: a prefix, whose last message may be another with the same checksum. */
  ghost predicate Remains(h: Hash, id: nat, ms: seq<Message>, found: seq<Message>) {
    && |found| <= |ms|
    && (forall i :: 0 <= i < |found| - 1 ==> found[i] == ms[i])
    && (found != [] ==> SameHash(h, id + |found| - 1, ms[|found| - 1], found[|found| - 1]))
  }

  lemma PrefixRemains(h: Hash, id: nat, ms: seq<Message>, j: nat)
    requires j <= |ms|
    ensures Remains(h, id, ms, ms[..j])
  {
  }

  /** Scanning a cut file finds what remains, and never leaves the file. */
  lemma CutScan(h: Hash, file: seq<byte>, cut: seq<byte>, k: nat, id: nat, ms: seq<Message>)
    requires MAGIC_SIZE < |file| < U32_RANGE && id >= 1
    requires Cut(file, cut, k) && MAGIC_SIZE <= k <= End(ms) <= |file|
    requires Holds(h, file, id, ms)
    ensures var r := Scan(h, cut, MAGIC_SIZE, id);
            !r.fault && Remains(h, id, ms, r.messages)
  {
    hide Scan, Holds, RecordAt, ZeroFrom, Remains, SameHash;
    if k == End(ms) {
      HoldsIsLocal(h, file, cut, id, ms);
      ScanInvertsWriting(h, cut, id, ms);
      PrefixRemains(h, id, ms, |ms|);
      assert ms[..|ms|] == ms;
      if ms != [] {
        PrefixRemains(h, id, ms, |ms| - 1);
      }
    } else {
      var j := RecordAround(ms, k);
      ScanUpToCut(h, file, cut, k, id, ms, j);
      RecordOf(h, file, id, ms, j);
      OffsetStep(ms, j);
      CutRecord(h, file, cut, k, Offset(ms, j), id + j, ms[j]);
      hide Offset;
      var r := Scan(h, cut, Offset(ms, j), id + j);
      if r.messages == [] {
        PrefixRemains(h, id, ms, j);
        assert ms[..j] + [] == ms[..j];
      } else {
        OneMoreRemains(h, id, ms, j, r.messages[0]);
        assert r.messages == [r.messages[0]];
      }
    }
  }

  /** The scan of a cut file goes through the records before the cut. */
  lemma ScanUpToCut(h: Hash, file: seq<byte>, cut: seq<byte>, k: nat, id: nat, ms: seq<Message>, j: nat)
    requires |file| < U32_RANGE && Cut(file, cut, k) && End(ms) <= |file| && Holds(h, file, id, ms)
    requires j < |ms| && Offset(ms, j) <= k
    ensures var r := Scan(h, cut, Offset(ms, j), id + j);
            Scan(h, cut, MAGIC_SIZE, id) == Scanned(ms[..j] + r.messages, r.fault)
  {
    hide Scan, Holds, ZeroFrom, End;
    var kept := ms[..j];
    OffsetMonotone(ms, j, |ms|);
    assert ms[..|ms|] == ms;
    HoldsPrefix(h, file, id, ms, j);
    PrefixAgrees(file, cut, k, End(kept));
    hide Cut;
    HoldsIsLocal(h, file, cut, id, kept);
    ScanThrough(h, cut, id, kept, 0);
    assert kept[..0] == [] && kept[0..] == kept;
    EndOfNothing(kept);
  }

  lemma PrefixAgrees(file: seq<byte>, cut: seq<byte>, k: nat, e: nat)
    requires Cut(file, cut, k) && e <= k
    ensures |file| == |cut| && file[..e] == cut[..e]
  {
    assert file[..e] == file[..k][..e] && cut[..e] == cut[..k][..e];
  }

  lemma RecordOf(h: Hash, file: seq<byte>, id: nat, ms: seq<Message>, j: nat)
    requires Holds(h, file, id, ms) && j < |ms|
    ensures RecordAt(h, file, Offset(ms, j), id + j, ms[j])
  {
    assert HoldsOne(h, file, id, ms, j);
  }

  lemma OneMoreRemains(h: Hash, id: nat, ms: seq<Message>, j: nat, m: Message)
    requires j < |ms| && SameHash(h, id + j, ms[j], m)
    ensures Remains(h, id, ms, ms[..j] + [m])
  {
  }

  /** The image agrees with the segment's file up to some byte of its records and is zero after it. */
  ghost predicate CutAt(s: SegmentView, image: seq<byte>, k: nat) {
    k <= s.FileOffset() <= |s.file| && Cut(s.file, image, k)
  }

  lemma StampedCut(s: SegmentView, image: seq<byte>, k: nat)
    requires CutAt(s, image, k) && |image| >= MAGIC_SIZE
    ensures Cut(Stamped(s.file), Stamped(image), Max(k, MAGIC_SIZE))
  {
    hide Encode;
    var file, cut := Stamped(s.file), Stamped(image);
    forall i | MAGIC_SIZE <= i < |file|
      ensures file[i] == s.file[i] && cut[i] == image[i]
    {
      assert file[i] == file[4..][i - 4] && cut[i] == cut[4..][i - 4];
    }
    assert file[..4] == file[0..4] == cut[0..4] == cut[..4];
    forall i | 0 <= i < Max(k, MAGIC_SIZE)
      ensures file[i] == cut[i]
    {
      if i < MAGIC_SIZE {
        assert file[i] == file[..4][i] == cut[..4][i];
      } else {
        assert s.file[i] == s.file[..k][i] == image[..k][i];
      }
    }
  }

  /**
   * Reopening a cut file never fails and finds what remains of the segment, among it every message
   * whose record ends before the cut (and before the end of the file).
   */
  lemma CutReopen(h: Hash, s: SegmentView, image: seq<byte>, k: nat, closed: bool)
    requires WellFormed(h, s) && s.tail >= 1 && CutAt(s, image, k)
    ensures var r := Open(h, s.tail, closed, image);
            && r.Opened? && r.segment.tail == s.tail && r.segment.closed == closed
            && Remains(h, s.tail, s.messages, r.segment.messages)
            && forall j :: 0 <= j <= |s.messages| && Offset(s.messages, j) <= k && Offset(s.messages, j) < |s.file| ==>
                 s.messages[..j] <= r.segment.messages
  {
    hide Scan, Holds, Remains, Cut, WrapsAfter, Stamped;
    CutIsTorn(s.file, image, k);
    StampedCut(s, image, k);
    MagicIsNotData(h, s.file, Stamped(s.file), s.tail, s.messages);
    CutScan(h, Stamped(s.file), Stamped(image), Max(k, MAGIC_SIZE), s.tail, s.messages);
    var r := Open(h, s.tail, closed, image);
    forall j | 0 <= j <= |s.messages| && Offset(s.messages, j) <= k && Offset(s.messages, j) < |s.file|
      ensures s.messages[..j] <= r.segment.messages
    {
      TornReopen(h, s, image, k, j, closed);
    }
  }

  lemma CutIsTorn(file: seq<byte>, cut: seq<byte>, k: nat)
    requires Cut(file, cut, k)
    ensures |file| == |cut| && k <= |file| && cut[..k] == file[..k]
  {
  }

  // ----- the whole log

  /** The file is that of the segment, and nothing behind its last record would be taken for one. */
  ghost predicate Untouched(h: Hash, s: SegmentView, image: seq<byte>) {
    image == s.file && Marked(s) && Quiet(h, s)
  }

  /** A listed file is missing, of an invalid length, cut within its records, or untouched. */
  ghost predicate Salvageable(h: Hash, s: SegmentView, files: Files) {
    s.tail in files && ValidFileLen(|files[s.tail]|) ==>
      Untouched(h, s, files[s.tail]) || exists k :: CutAt(s, files[s.tail], k)
  }

  /** The segments that open, in order. */
  ghost function Found(h: Hash, cps: seq<SegmentCheckpoint>, files: Files): seq<SegmentView> {
    if cps == [] then []
    else FoundOne(h, cps[0], files) + Found(h, cps[1..], files)
  }

  ghost function FoundOne(h: Hash, cp: SegmentCheckpoint, files: Files): seq<SegmentView> {
    if cp.tail !in files then []
    else
      var r := Open(h, cp.tail, cp.closed, files[cp.tail]);
      if r.Opened? then [r.segment] else []
  }

  /** The entry is that of `s`, and its file can be salvaged. */
  ghost predicate Lists(h: Hash, cp: SegmentCheckpoint, s: SegmentView, files: Files) {
    WellFormed(h, s) && s.tail >= 1 && cp.tail == s.tail && Salvageable(h, s, files)
  }

  /** What is found of one listed segment, if anything. */
  lemma FoundIsOne(h: Hash, cp: SegmentCheckpoint, s: SegmentView, files: Files)
    requires Lists(h, cp, s, files)
    ensures var f := FoundOne(h, cp, files);
            && |f| <= 1 && (f == [] <==> s.tail !in files || !ValidFileLen(|files[s.tail]|))
            && (s.tail in files ==> !Open(h, cp.tail, cp.closed, files[cp.tail]).Fault?)
            && (f != [] ==>
                  && WellFormed(h, f[0]) && f[0].tail == s.tail && f[0].closed == cp.closed
                  && Remains(h, s.tail, s.messages, f[0].messages))
  {
    hide Open, Remains, CutAt, Holds, Untouched;
    if s.tail in files {
      OpenedIsWellFormed(h, cp.tail, cp.closed, files[cp.tail]);
      OpenInvalid(h, cp.tail, cp.closed, files[cp.tail]);
      if ValidFileLen(|files[s.tail]|) {
        if Untouched(h, s, files[s.tail]) {
          UntouchedReopens(h, s, files[s.tail], cp.closed);
        } else {
          var k :| CutAt(s, files[s.tail], k);
          CutReopen(h, s, files[s.tail], k, cp.closed);
        }
      }
    }
  }

  lemma UntouchedReopens(h: Hash, s: SegmentView, image: seq<byte>, closed: bool)
    requires WellFormed(h, s) && Untouched(h, s, image)
    ensures Open(h, s.tail, closed, image) == Opened(s.(closed := closed))
    ensures Remains(h, s.tail, s.messages, s.messages)
  {
    hide Open, Marked, Quiet, WellFormed;
    RecoverableReopens(h, s, closed);
    PrefixRemains(h, s.tail, s.messages, |s.messages|);
    assert s.messages[..|s.messages|] == s.messages;
  }

  lemma OpenInvalid(h: Hash, tail: nat, closed: bool, image: seq<byte>)
    ensures Open(h, tail, closed, image).InvalidFile? <==> !ValidFileLen(|image|)
    ensures var r := Open(h, tail, closed, image);
            r.Opened? ==> r.segment.closed == closed
  {
    hide Scan;
  }

  ghost predicate AllListed(h: Hash, cps: seq<SegmentCheckpoint>, segs: seq<SegmentView>, files: Files) {
    |cps| == |segs| && forall i :: 0 <= i < |cps| ==> Lists(h, cps[i], segs[i], files)
  }

  lemma ListedRest(h: Hash, cps: seq<SegmentCheckpoint>, segs: seq<SegmentView>, files: Files)
    requires AllListed(h, cps, segs, files) && cps != []
    ensures |segs| == |cps| && Lists(h, cps[0], segs[0], files) && AllListed(h, cps[1..], segs[1..], files)
  {
    hide Lists;
    assert forall i :: 0 <= i < |cps| - 1 ==> cps[1..][i] == cps[i + 1] && segs[1..][i] == segs[i + 1];
  }

  ghost predicate ClosedEntries(cps: seq<SegmentCheckpoint>) {
    forall i :: 0 <= i < |cps| - 1 ==> cps[i].closed
  }

  ghost predicate AllClosed(segs: seq<SegmentView>) {
    forall i :: 0 <= i < |segs| ==> segs[i].closed
  }

  lemma ReopenStep(h: Hash, cps: seq<SegmentCheckpoint>, files: Files, acc: seq<SegmentView>)
    requires cps != []
    requires cps[0].tail in files ==> !Open(h, cps[0].tail, cps[0].closed, files[cps[0].tail]).Fault?
    ensures var f := FoundOne(h, cps[0], files);
            Reopen(h, cps, files, acc) == Reopen(h, cps[1..], files, if f == [] then acc else AddReopened(acc, f[0]))
  {
    hide Open;
  }

  /** Reopening skips what does not open and keeps the rest as found. */
  lemma {:induction false} ReopenIsFound(
      h: Hash, cps: seq<SegmentCheckpoint>, segs: seq<SegmentView>, files: Files, acc: seq<SegmentView>)
    requires AllListed(h, cps, segs, files) && ClosedEntries(cps) && (cps != [] ==> AllClosed(acc))
    ensures Reopen(h, cps, files, acc) == Some(acc + Found(h, cps, files))
    ensures ClosedButLast(Found(h, cps, files))
    decreases |cps|
  {
    hide Open, Lists, Remains, WellFormed, FoundOne, AllListed;
    if cps == [] {
      assert acc + [] == acc;
    } else {
      var f, rest := FoundOne(h, cps[0], files), Found(h, cps[1..], files);
      ListedRest(h, cps, segs, files);
      FoundIsOne(h, cps[0], segs[0], files);
      ListsTail(h, cps[0], segs[0], files);
      ReopenStep(h, cps, files, acc);
      assert ClosedEntries(cps[1..]);
      if f == [] {
        assert [] + rest == rest;
        ReopenIsFound(h, cps[1..], segs[1..], files, acc);
      } else {
        assert AddReopened(acc, f[0]) == acc + [f[0]] by { AddAfterClosed(acc, f[0]); }
        ReopenIsFound(h, cps[1..], segs[1..], files, acc + [f[0]]);
        assert acc + [f[0]] + rest == acc + (f + rest);
        assert cps[1..] == [] ==> rest == [];
      }
    }
  }

  /** The segments as found, but closed where an open one follows. */
  function ClosedUp(fs: seq<SegmentView>): (r: seq<SegmentView>)
    ensures |r| == |fs|
  {
    seq(|fs|, i requires 0 <= i < |fs| =>
      fs[i].(closed := fs[i].closed || (i + 1 < |fs| && !fs[i + 1].closed)))
  }

  /** The segments of a log are those found, and closed where one was found closed or an open one follows. */
  ghost predicate TakesUp(log: Log, fs: seq<SegmentView>) {
    && |log.segments| == |fs|
    && (forall i :: 0 <= i < |fs| ==>
          var s, f := log.segments[i], fs[i];
          && s.tail == f.tail && s.messages == f.messages && s.file == f.file
          && (s.closed <==> f.closed || (i + 1 < |fs| && !fs[i + 1].closed)))
    && (fs == [] ==> log.tail == log.head == 1)
    && (fs != [] ==>
          var last := fs[|fs| - 1];
          log.tail == fs[0].tail && log.head == last.tail + |last.messages|)
  }

  lemma ClosedUpTakesUp(fs: seq<SegmentView>)
    ensures TakesUp(FromSegments(ClosedUp(fs)), fs)
  {
  }

  lemma AddClosesUp(fs: seq<SegmentView>, s: SegmentView)
    ensures AddReopened(ClosedUp(fs), s) == ClosedUp(fs + [s])
  {
    var acc, n := ClosedUp(fs), |fs|;
    forall i | 0 <= i < n + 1
      ensures |AddReopened(acc, s)| == n + 1 && AddReopened(acc, s)[i] == ClosedUp(fs + [s])[i]
    {
      if i + 1 < n {
        assert AddReopened(acc, s)[i] == acc[i];
      }
    }
  }

  ghost predicate Faults(h: Hash, cp: SegmentCheckpoint, files: Files) {
    cp.tail in files && Open(h, cp.tail, cp.closed, files[cp.tail]).Fault?
  }

  lemma {:induction false} ReopenIsExact(
      h: Hash, cps: seq<SegmentCheckpoint>, files: Files, fs: seq<SegmentView>)
    ensures var r := Reopen(h, cps, files, ClosedUp(fs));
            if exists i :: 0 <= i < |cps| && Faults(h, cps[i], files) then r == None
            else r == Some(ClosedUp(fs + Found(h, cps, files)))
    decreases |cps|
  {
    hide Open, ClosedUp, FoundOne, AddReopened;
    if cps == [] {
      assert fs + [] == fs;
    } else {
      var f, rest := FoundOne(h, cps[0], files), cps[1..];
      assert forall i :: 0 < i < |cps| ==> cps[i] == rest[i - 1];
      if !Faults(h, cps[0], files) {
        ReopenStep(h, cps, files, ClosedUp(fs));
        AtMostOne(h, cps[0], files);
        hide Reopen, Faults;
        if f != [] {
          AddClosesUp(fs, f[0]);
        }
        assert fs + f + Found(h, rest, files) == fs + (f + Found(h, rest, files));
        assert f == [] ==> fs + f == fs;
        ReopenIsExact(h, rest, files, fs + f);
      }
    }
  }

  lemma AtMostOne(h: Hash, cp: SegmentCheckpoint, files: Files)
    ensures var f := FoundOne(h, cp, files);
            f == [] || f == [f[0]]
  {
    hide Open;
  }

  /**
   * Whatever the checkpoint and the files are, a restart takes the segments that open, in order, closes
   * each that an open one follows, and goes from the first id to the last; it fails only on a fault.
   */
  lemma RecoverIsExact(h: Hash, cps: seq<SegmentCheckpoint>, files: Files)
    ensures var r := Recover(h, cps, files);
            && (r.None? <==> exists i :: 0 <= i < |cps| && Faults(h, cps[i], files))
            && (r.Some? ==> TakesUp(r.value, Found(h, cps, files)))
  {
    assert ClosedUp([]) == [];
    ReopenIsExact(h, cps, files, []);
    hide Open, Found, Reopen, Faults, TakesUp, ClosedUp, FromSegments;
    var fs := Found(h, cps, files);
    assert [] + fs == fs;
    ClosedUpTakesUp(fs);
  }

  lemma ListsTail(h: Hash, cp: SegmentCheckpoint, s: SegmentView, files: Files)
    requires Lists(h, cp, s, files)
    ensures cp.tail == s.tail <= U64_RANGE && WellFormed(h, s)
  {
  }

  lemma AddAfterClosed(acc: seq<SegmentView>, s: SegmentView)
    requires AllClosed(acc)
    ensures AddReopened(acc, s) == acc + [s]
  {
    if acc != [] {
      var n := |acc| - 1;
      assert acc[n].(closed := true) == acc[n] && acc[..n] + [acc[n]] == acc;
    }
  }

  /** Every stored message was stored before under the same id, or has the checksum of the one that was. */
  ghost predicate Within(h: Hash, stored: map<nat, Message>, before: map<nat, Message>) {
    forall id :: id in stored ==> id in before && SameHash(h, id, before[id], stored[id])
  }

  ghost predicate AllFrom(segs: seq<SegmentView>, t: nat) {
    forall i :: 0 <= i < |segs| ==> segs[i].tail >= t
  }

  lemma SameAsItself(h: Hash, id: nat, m: Message)
    ensures SameHash(h, id, m, m)
  {
  }

  lemma PartWithin(h: Hash, s: SegmentView, f: SegmentView)
    requires f.tail == s.tail && Remains(h, s.tail, s.messages, f.messages)
    ensures Within(h, Part(f), Part(s))
  {
    hide SameHash;
    forall id | id in Part(f)
      ensures id in Part(s) && SameHash(h, id, Part(s)[id], Part(f)[id])
    {
      var i := id - s.tail;
      assert s.Has(id) && Part(f)[id] == f.messages[i] && Part(s)[id] == s.messages[i];
      if i < |f.messages| - 1 {
        SameAsItself(h, id, f.messages[i]);
      }
    }
  }

  lemma RemainsShort(h: Hash, id: nat, ms: seq<Message>, found: seq<Message>)
    requires Remains(h, id, ms, found)
    ensures |found| <= |ms|
  {
  }

  lemma RestStored(segs: seq<SegmentView>, id: nat)
    requires Ordered(segs) && segs != [] && id in Contents(segs[1..])
    ensures id >= segs[0].Head()
    ensures id in Contents(segs) && Contents(segs)[id] == Contents(segs[1..])[id]
  {
    ContentsBounds(segs[1..], id);
    assert segs[0].Head() <= segs[1].tail;
  }

  lemma SkipWithin(h: Hash, stored: map<nat, Message>, segs: seq<SegmentView>)
    requires Ordered(segs) && segs != [] && Within(h, stored, Contents(segs[1..]))
    ensures Within(h, stored, Contents(segs))
  {
    hide Contents, SameHash, Ordered;
    forall id | id in stored
      ensures id in Contents(segs) && SameHash(h, id, Contents(segs)[id], stored[id])
    {
      RestStored(segs, id);
    }
  }

  lemma JoinWithin(h: Hash, stored: map<nat, Message>, part: map<nat, Message>, segs: seq<SegmentView>)
    requires Ordered(segs) && segs != []
    requires Within(h, stored, Contents(segs[1..])) && Within(h, part, Part(segs[0]))
    ensures Within(h, stored + part, Contents(segs))
  {
    hide SameHash, Part, Ordered;
    SkipWithin(h, stored, segs);
    forall id | id in part
      ensures id in Contents(segs) && Contents(segs)[id] == Part(segs[0])[id]
    {
    }
  }

  lemma FrontKeepsOrder(f: SegmentView, rest: seq<SegmentView>)
    requires Ordered(rest) && AllFrom(rest, f.Head())
    ensures Ordered([f] + rest)
  {
    var fs := [f] + rest;
    forall i, j | 0 <= i < j < |fs|
      ensures fs[i].Head() <= fs[j].tail
    {
      assert fs[j] == rest[j - 1];
      assert i > 0 ==> fs[i] == rest[i - 1];
    }
  }

  lemma BoundsOfRest(segs: seq<SegmentView>, to: nat)
    requires Ordered(segs) && segs != [] && AllEndBy(segs, to)
    ensures Ordered(segs[1..]) && AllFrom(segs[1..], segs[0].Head()) && AllEndBy(segs[1..], to)
    ensures segs[0].Head() <= to
  {
    OrderedDrop(segs, 1);
    assert forall i :: 0 <= i < |segs| - 1 ==> segs[1..][i] == segs[i + 1];
  }

  /** In order, well formed, within the bounds and within the contents of `segs`. */
  ghost predicate Sound(h: Hash, fs: seq<SegmentView>, segs: seq<SegmentView>, from: nat, to: nat) {
    && Ordered(fs) && AllWellFormed(h, fs) && AllFrom(fs, from) && AllEndBy(fs, to)
    && Within(h, Contents(fs), Contents(segs))
  }

  lemma SoundSkip(h: Hash, rest: seq<SegmentView>, segs: seq<SegmentView>, from: nat, to: nat)
    requires segs != [] && Ordered(segs) && segs[0].tail >= from && Sound(h, rest, segs[1..], segs[0].Head(), to)
    ensures Sound(h, rest, segs, from, to)
  {
    hide Ordered, WellFormed, Within, Contents;
    SkipWithin(h, Contents(rest), segs);
  }

  lemma SoundJoin(h: Hash, f: SegmentView, rest: seq<SegmentView>, segs: seq<SegmentView>, from: nat, to: nat)
    requires segs != [] && Ordered(segs) && segs[0].tail >= from && segs[0].Head() <= to
    requires Sound(h, rest, segs[1..], segs[0].Head(), to)
    requires WellFormed(h, f) && f.tail == segs[0].tail && Remains(h, f.tail, segs[0].messages, f.messages)
    ensures Sound(h, [f] + rest, segs, from, to)
  {
    hide Ordered, WellFormed, Within, Remains, Part;
    RemainsShort(h, f.tail, segs[0].messages, f.messages);
    PartWithin(h, segs[0], f);
    assert ([f] + rest)[1..] == rest;
    JoinWithin(h, Contents(rest), Part(f), segs);
    assert AllFrom(rest, f.Head());
    FrontKeepsOrder(f, rest);
  }

  /** What is found is in order, well formed, within the old bounds and within the old contents. */
  lemma {:induction false} FoundIsSound(
      h: Hash, cps: seq<SegmentCheckpoint>, segs: seq<SegmentView>, files: Files, from: nat, to: nat)
    requires AllListed(h, cps, segs, files) && Ordered(segs) && AllFrom(segs, from) && AllEndBy(segs, to)
    ensures Sound(h, Found(h, cps, files), segs, from, to)
    decreases |cps|
  {
    hide Lists, Remains, WellFormed, FoundOne, Sound, Ordered, AllListed;
    if cps == [] {
      NothingIsSound(h, segs, from, to);
    } else {
      var f, rest := FoundOne(h, cps[0], files), Found(h, cps[1..], files);
      ListedRest(h, cps, segs, files);
      FoundIsOne(h, cps[0], segs[0], files);
      BoundsOfRest(segs, to);
      FoundIsSound(h, cps[1..], segs[1..], files, segs[0].Head(), to);
      assert segs[0].tail >= from;
      if f == [] {
        assert [] + rest == rest;
        SoundSkip(h, rest, segs, from, to);
      } else {
        assert f == [f[0]];
        SoundJoin(h, f[0], rest, segs, from, to);
      }
    }
  }

  lemma NothingIsSound(h: Hash, segs: seq<SegmentView>, from: nat, to: nat)
    ensures Sound(h, [], segs, from, to)
  {
  }

  /** Message `id` of segment `s` lies in an untouched file, or wholly before the cut without filling the file. */
  ghost predicate WhollyKept(h: Hash, s: SegmentView, files: Files, id: nat) {
    && s.Has(id) && s.tail in files && ValidFileLen(|files[s.tail]|)
    && (|| Untouched(h, s, files[s.tail])
        || (&& Offset(s.messages, id + 1 - s.tail) < |s.file|
            && exists k :: CutAt(s, files[s.tail], k) && Offset(s.messages, id + 1 - s.tail) <= k))
  }

  /** A message wholly before the cut of its file is found unchanged. */
  lemma {:induction false} KeptIsFound(
      h: Hash, cps: seq<SegmentCheckpoint>, segs: seq<SegmentView>, files: Files, i: nat, id: nat)
    requires AllListed(h, cps, segs, files) && Ordered(segs) && i < |segs| && WhollyKept(h, segs[i], files, id)
    ensures var stored := Contents(Found(h, cps, files));
            id in stored && stored[id] == segs[i].At(id)
    decreases |cps|
  {
    hide Lists, Remains, WellFormed, Open, WhollyKept;
    var f, rest := FoundOne(h, cps[0], files), Found(h, cps[1..], files);
    ListedRest(h, cps, segs, files);
    FoundIsOne(h, cps[0], segs[0], files);
    assert f == [] ==> [] + rest == rest;
    assert f != [] ==> f + rest == [f[0]] + rest && (f + rest)[1..] == rest;
    OrderedDrop(segs, 1);
    if i == 0 {
      KeptHere(h, cps[0], segs[0], files, id);
    } else {
      assert segs[1..][i - 1] == segs[i];
      KeptIsFound(h, cps[1..], segs[1..], files, i - 1, id);
      assert segs[0].Head() <= segs[i].tail <= id by { KeptHas(h, segs[i], files, id); }
      if f != [] {
        RemainsShort(h, segs[0].tail, segs[0].messages, f[0].messages);
      }
    }
  }

  lemma KeptHas(h: Hash, s: SegmentView, files: Files, id: nat)
    requires WhollyKept(h, s, files, id)
    ensures s.Has(id)
  {
  }

  lemma KeptHere(h: Hash, cp: SegmentCheckpoint, s: SegmentView, files: Files, id: nat)
    requires Lists(h, cp, s, files) && WhollyKept(h, s, files, id)
    ensures var f := FoundOne(h, cp, files);
            |f| == 1 && f[0].Has(id) && f[0].At(id) == s.At(id)
  {
    hide Open, Remains, CutAt, Holds, Offset, Untouched;
    if Untouched(h, s, files[s.tail]) {
      UntouchedReopens(h, s, files[s.tail], cp.closed);
      return;
    }
    var n := id + 1 - s.tail;
    var k :| CutAt(s, files[s.tail], k) && Offset(s.messages, n) <= k;
    CutReopen(h, s, files[s.tail], k, cp.closed);
    assert s.messages[..n] <= FoundOne(h, cp, files)[0].messages;
    assert s.messages[..n][n - 1] == s.messages[n - 1];
  }

  /** Every file the checkpoint of the log lists is missing, of an invalid length, cut, or untouched. */
  ghost predicate Damaged(h: Hash, log: Log, files: Files) {
    forall i :: 0 <= i < |log.segments| && log.segments[i].tail >= log.tail ==> Salvageable(h, log.segments[i], files)
  }

  /**
   * Restarting from a checkpoint and damaged files succeeds with a log of the right shape, whose
   * ids and messages are within the old ones, up to a cut message with the checksum of another.
   */
  lemma DamagedRestart(h: Hash, log: Log, files: Files)
    requires Shape(h, log) && log.tail >= 1 && Damaged(h, log, files)
    ensures var r := Recover(h, Checkpoint(log), files);
            && r.Some? && Shape(h, r.value) && r.value.head <= Max(log.head, 1) && r.value.tail >= 1
            && Within(h, Contents(r.value.segments), Contents(log.segments))
  {
    hide WellFormed, Salvageable, Contents, Found, Reopen, Within, Ordered, AllListed, ClosedEntries;
    var cps := Checkpoint(log);
    var n, kept := DamagedList(h, log, files);
    var fs := Found(h, cps, files);
    ReopenIsFound(h, cps, kept, files, []);
    assert [] + fs == fs;
    FoundIsSound(h, cps, kept, files, log.tail, log.head);
    hide AllWellFormed, ClosedButLast, AllFrom, AllEndBy, Checkpoint;
    SuffixWithin(h, Contents(fs), log.segments, n);
    FoundHasShape(h, fs, log.tail, log.head);
  }

  lemma FoundHasShape(h: Hash, fs: seq<SegmentView>, from: nat, to: nat)
    requires Ordered(fs) && AllWellFormed(h, fs) && ClosedButLast(fs) && AllFrom(fs, from) && AllEndBy(fs, to)
    requires 1 <= from && to <= U64_RANGE
    ensures Shape(h, FromSegments(fs)) && FromSegments(fs).head <= Max(to, 1) && FromSegments(fs).tail >= 1
  {
    hide WellFormed;
    if fs != [] {
      FirstBeforeLast(fs);
      hide Ordered;
    }
  }

  lemma ListedInRange(h: Hash, log: Log, files: Files)
    requires Shape(h, log) && log.tail >= 1 && Damaged(h, log, files)
    ensures forall i :: 0 <= i < |Checkpoint(log)| ==> Checkpoint(log)[i].tail <= U64_RANGE
  {
    hide Shape, Damaged, Lists;
    var cps := Checkpoint(log);
    var n, kept := DamagedList(h, log, files);
    hide Checkpoint;
    forall i | 0 <= i < |cps|
      ensures cps[i].tail <= U64_RANGE
    {
      ListsTail(h, cps[i], kept[i], files);
    }
  }

  /**
   * The log that such a restart yields is given back by its own files, and so restarts to itself,
   * although behind its records the files still hold what was rejected.
   */
  lemma DamagedRestartIsStable(h: Hash, log: Log, files: Files, again: Files)
    requires Shape(h, log) && log.tail >= 1 && Damaged(h, log, files)
    ensures var r := Recover(h, Checkpoint(log), files);
            && r.Some? && AllRecoverable(h, r.value.segments)
            && (OwnFiles(r.value.segments, again) ==> Recover(h, Checkpoint(r.value), again) == Some(r.value))
  {
    hide Damaged, Checkpoint, Shape, AllRecoverable;
    DamagedRestart(h, log, files);
    ListedInRange(h, log, files);
    var cps := Checkpoint(log);
    assert AllRecoverable(h, Recover(h, cps, files).value.segments) by { RecoveredIsRecoverable(h, cps, files); }
    hide Recover;
    if OwnFiles(Recover(h, cps, files).value.segments, again) {
      RestartIsIdempotent(h, cps, files, again);
    }
  }

  lemma FirstBeforeLast(fs: seq<SegmentView>)
    requires Ordered(fs) && fs != []
    ensures fs[0].tail <= fs[|fs| - 1].Head()
  {
    assert |fs| > 1 ==> fs[0].Head() <= fs[|fs| - 1].tail;
  }

  /** What the checkpoint of a damaged log lists: a suffix of its segments. */
  lemma DamagedList(h: Hash, log: Log, files: Files) returns (n: nat, kept: seq<SegmentView>)
    requires Shape(h, log) && log.tail >= 1 && Damaged(h, log, files)
    ensures n <= |log.segments| && kept == log.segments[n..]
    ensures AllListed(h, Checkpoint(log), kept, files) && ClosedEntries(Checkpoint(log))
    ensures Ordered(kept) && AllFrom(kept, log.tail) && AllEndBy(kept, log.head)
    ensures forall i :: 0 <= i < n ==> log.segments[i].tail < log.tail
  {
    hide WellFormed, Salvageable, Listed, Ordered;
    assert Ordered(log.segments) by { ShapeIsOrdered(h, log); }
    n := ListedIsSuffix(log.segments, log.tail);
    kept := log.segments[n..];
    SuffixBounds(log.segments, n, log.tail);
    EndsByLast(log.segments);
    SuffixEnds(log.segments, n, log.head);
    SuffixLists(h, log, files, n);
  }

  lemma SuffixLists(h: Hash, log: Log, files: Files, n: nat)
    requires AllWellFormed(h, log.segments) && ClosedButLast(log.segments) && Damaged(h, log, files)
    requires n <= |log.segments| && 1 <= log.tail && AllFrom(log.segments[n..], log.tail)
    ensures var kept := log.segments[n..];
            AllListed(h, Checkpoints(kept), kept, files) && ClosedEntries(Checkpoints(kept))
  {
    hide WellFormed, Salvageable;
    var kept := log.segments[n..];
    forall i | 0 <= i < |kept|
      ensures Lists(h, Checkpoints(kept)[i], kept[i], files) && (i < |kept| - 1 ==> kept[i].closed)
    {
      assert kept[i] == log.segments[n + i];
    }
  }

  lemma SuffixEnds(segs: seq<SegmentView>, n: nat, to: nat)
    requires n <= |segs| && (segs != [] ==> AllEndBy(segs, to))
    ensures AllEndBy(segs[n..], to)
  {
  }

  lemma SuffixBounds(segs: seq<SegmentView>, n: nat, tail: nat)
    requires Ordered(segs) && n <= |segs|
    requires (n > 0 ==> segs[n - 1].tail < tail) && (n < |segs| ==> segs[n].tail >= tail)
    ensures Ordered(segs[n..]) && AllFrom(segs[n..], tail)
    ensures forall i :: 0 <= i < n ==> segs[i].tail < tail
  {
    OrderedDrop(segs, n);
    assert forall i :: 0 <= i < n - 1 ==> segs[i].Head() <= segs[n - 1].tail;
    assert forall i :: n < i < |segs| ==> segs[n].Head() <= segs[i].tail;
  }

  lemma SuffixWithin(h: Hash, stored: map<nat, Message>, segs: seq<SegmentView>, n: nat)
    requires Ordered(segs) && n <= |segs| && Within(h, stored, Contents(segs[n..]))
    ensures Within(h, stored, Contents(segs))
  {
    hide Contents, SameHash, Ordered;
    var from := if n < |segs| then segs[n].tail else if n == 0 then 0 else segs[n - 1].Head();
    OrderedDrop(segs, n);
    EndsByLast(segs);
    assert forall i :: 0 <= i < n ==> segs[..n][i] == segs[i];
    ContentsDrop(segs, n, from);
  }

  /** Restarting from damaged files keeps every listed message that lies wholly before the cut of its file. */
  lemma DamagedRestartKeeps(h: Hash, log: Log, files: Files, i: nat, id: nat)
    requires Shape(h, log) && log.tail >= 1 && Damaged(h, log, files)
    requires i < |log.segments| && log.segments[i].tail >= log.tail && WhollyKept(h, log.segments[i], files, id)
    ensures var r := Recover(h, Checkpoint(log), files);
            && r.Some? && id in Contents(r.value.segments)
            && Contents(r.value.segments)[id] == log.segments[i].At(id)
  {
    hide WellFormed, Salvageable, Contents, Found, Reopen, WhollyKept, Listed;
    var cps := Checkpoint(log);
    var n, kept := DamagedList(h, log, files);
    ReopenIsFound(h, cps, kept, files, []);
    assert [] + Found(h, cps, files) == Found(h, cps, files);
    assert kept[i - n] == log.segments[i];
    KeptIsFound(h, cps, kept, files, i - n, id);
  }

  /** After such a restart every lookup is the ceiling of what was recovered, whatever holes are left. */
  lemma RecoveredLookups(h: Hash, log: Log, files: Files, id: nat)
    requires Shape(h, log) && log.tail >= 1 && Damaged(h, log, files)
    ensures var r := Recover(h, Checkpoint(log), files);
            && r.Some? && IsCeiling(Contents(r.value.segments), id, Get(r.value.segments, id))
            && (Get(r.value.segments, id).Some? ==> Get(r.value.segments, id).value.id in Contents(log.segments))
  {
    hide Shape, Damaged, Recover, Checkpoint, Contents, Get;
    DamagedRestart(h, log, files);
    var log' := Recover(h, Checkpoint(log), files).value;
    assert Ordered(log'.segments) by { ShapeIsOrdered(h, log'); }
    GetIsCeiling(log'.segments, id);
  }

  /** The checkpoint is that of some log whose files are at most damaged. */
  ghost predicate Survivable(h: Hash, cps: seq<SegmentCheckpoint>, files: Files) {
    exists log :: Shape(h, log) && log.tail >= 1 && cps == Checkpoint(log) && Damaged(h, log, files)
  }

  lemma SurvivableRestart(h: Hash, cps: seq<SegmentCheckpoint>, files: Files)
    ensures var r := Recover(h, cps, files);
            Survivable(h, cps, files) ==> r.Some? && Shape(h, r.value)
  {
    hide Shape, Damaged, Recover, Checkpoint;
    if Survivable(h, cps, files) {
      var log :| Shape(h, log) && log.tail >= 1 && cps == Checkpoint(log) && Damaged(h, log, files);
      DamagedRestart(h, log, files);
    }
  }
}
