/**
 * The three-state lock as a step system: a mutex for the writer and a read-write lock for the
 * readers, of which an exclusive guard takes both, one after the other.
 */
module TristateLock {
  import opened Bytes

  datatype Phase =
    | Idle
    | WantRead | Reading
    | WantWrite | Writing
    | WantLock | HalfLocked | Exclusive | Leaving
    | TriedWrite(gotW: bool) | Backing(gotW: bool, gotR: bool)

  /** Who holds the mutex, who shares the read-write lock, and who holds it alone. */
  datatype Lock = Lock(writer: Option<nat>, readers: set<nat>, owner: Option<nat>, threads: seq<Phase>)

  datatype Move = AskRead | AskWrite | AskLock | TryRead | TryWrite | TryLock | Advance

  predicate HoldsWrite(p: Phase) {
    p.Writing? || p.HalfLocked? || p.Exclusive? || (p.TriedWrite? && p.gotW) || (p.Backing? && p.gotW)
  }

  predicate HoldsShared(p: Phase) { p.Reading? }

  predicate HoldsAlone(p: Phase) { p.Exclusive? || p.Leaving? || (p.Backing? && p.gotR) }

  /** Whether a thread may join the readers; some platforms make it queue behind a waiting owner. */
  predicate MayShare(queues: bool, s: Lock) {
    s.owner.None? && (queues ==> forall t :: 0 <= t < |s.threads| ==> !s.threads[t].HalfLocked?)
  }

  predicate MayOwn(s: Lock) { s.owner.None? && s.readers == {} }

  function Start(n: nat): Lock { Lock(None, {}, None, seq(n, _ => Idle)) }

  predicate Enabled(queues: bool, s: Lock, t: nat, m: Move) {
    t < |s.threads| &&
    match s.threads[t]
    case Idle => !m.Advance?
    case WantRead => m.Advance? && MayShare(queues, s)
    case WantWrite => m.Advance? && s.writer.None?
    case WantLock => m.Advance? && s.writer.None?
    case HalfLocked => m.Advance? && MayOwn(s)
    case _ => m.Advance?
  }

  function Become(s: Lock, t: nat, p: Phase): Lock
    requires t < |s.threads|
  {
    s.(threads := s.threads[t := p])
  }

  /** A request from an idle thread; the `try` forms give up at once when they cannot go on. */
  function Ask(queues: bool, s: Lock, t: nat, m: Move): Lock
    requires t < |s.threads| && s.threads[t].Idle?
  {
    match m
    case AskRead => Become(s, t, WantRead)
    case AskWrite => Become(s, t, WantWrite)
    case AskLock => Become(s, t, WantLock)
    case TryRead => if MayShare(queues, s) then Become(s, t, Reading).(readers := s.readers + {t}) else s
    case TryWrite => if s.writer.None? then Become(s, t, Writing).(writer := Some(t)) else s
    case TryLock =>
      if s.writer.None? then Become(s, t, TriedWrite(true)).(writer := Some(t)) else Become(s, t, TriedWrite(false))
    case Advance => s
  }

  /** The next step of a thread that is not idle. */
  function Proceed(s: Lock, t: nat): Lock
    requires t < |s.threads|
  {
    match s.threads[t]
    case Idle => s
    case WantRead => Become(s, t, Reading).(readers := s.readers + {t})
    case Reading => Become(s, t, Idle).(readers := s.readers - {t})
    case WantWrite => Become(s, t, Writing).(writer := Some(t))
    case Writing => Become(s, t, Idle).(writer := None)
    case WantLock => Become(s, t, HalfLocked).(writer := Some(t))
    case HalfLocked => Become(s, t, Exclusive).(owner := Some(t))
    case Exclusive => Become(s, t, Leaving).(writer := None)
    case Leaving => Become(s, t, Idle).(owner := None)
    case TriedWrite(gotW) =>
      var gotR := MayOwn(s);
      var s' := if gotR then s.(owner := Some(t)) else s;
      Become(s', t, if gotW && gotR then Exclusive else Backing(gotW, gotR))
    case Backing(gotW, gotR) =>
      Become(s, t, Idle).(writer := if gotW then None else s.writer, owner := if gotR then None else s.owner)
  }

  function Do(queues: bool, s: Lock, t: nat, m: Move): Lock
    requires Enabled(queues, s, t, m)
  {
    if m.Advance? then Proceed(s, t) else Ask(queues, s, t, m)
  }

  // ----- safety

  /** The locks are held by exactly the threads whose phase says so. */
  ghost predicate Consistent(s: Lock) {
    && (forall t :: 0 <= t < |s.threads| ==> ConsistentAt(s, t))
    && (s.writer.Some? ==> s.writer.value < |s.threads|)
    && (s.owner.Some? ==> s.owner.value < |s.threads| && s.readers == {})
    && (forall t :: t in s.readers ==> t < |s.threads|)
  }

  ghost predicate ConsistentAt(s: Lock, t: nat)
    requires t < |s.threads|
  {
    && (HoldsWrite(s.threads[t]) <==> s.writer == Some(t))
    && (HoldsShared(s.threads[t]) <==> t in s.readers)
    && (HoldsAlone(s.threads[t]) <==> s.owner == Some(t))
  }

  lemma AskKeepsConsistent(queues: bool, s: Lock, t: nat, m: Move)
    requires Consistent(s) && t < |s.threads| && s.threads[t].Idle?
    ensures Consistent(Ask(queues, s, t, m))
  {
    var s' := Ask(queues, s, t, m);
    assert ConsistentAt(s, t);
    forall u | 0 <= u < |s'.threads|
      ensures ConsistentAt(s', u)
    {
      assert ConsistentAt(s, u);
    }
  }

  lemma ProceedKeepsAt(queues: bool, s: Lock, t: nat, u: nat)
    requires Consistent(s) && Enabled(queues, s, t, Advance) && u < |s.threads|
    ensures |Proceed(s, t).threads| == |s.threads| && ConsistentAt(Proceed(s, t), u)
  {
    assert ConsistentAt(s, t) && ConsistentAt(s, u);
  }

  lemma ProceedKeepsConsistent(queues: bool, s: Lock, t: nat)
    requires Consistent(s) && Enabled(queues, s, t, Advance)
    ensures Consistent(Proceed(s, t))
  {
    var s' := Proceed(s, t);
    assert ConsistentAt(s, t);
    hide ConsistentAt;
    forall u | 0 <= u < |s'.threads|
      ensures ConsistentAt(s', u)
    {
      ProceedKeepsAt(queues, s, t, u);
    }
  }

  lemma StepKeepsConsistent(queues: bool, s: Lock, t: nat, m: Move)
    requires Consistent(s) && Enabled(queues, s, t, m)
    ensures Consistent(Do(queues, s, t, m))
  {
    hide Consistent, Ask, Proceed;
    if m.Advance? {
      ProceedKeepsConsistent(queues, s, t);
    } else {
      AskKeepsConsistent(queues, s, t, m);
    }
  }

  /** At most one thread writes, and an exclusive guard excludes every other guard. */
  ghost predicate MutualExclusion(s: Lock) {
    forall t, u :: 0 <= t < |s.threads| && 0 <= u < |s.threads| && t != u ==>
      && !(CanWrite(s.threads[t]) && CanWrite(s.threads[u]))
      && !(s.threads[t].Exclusive? && s.threads[u].Reading?)
  }

  predicate CanWrite(p: Phase) { p.Writing? || p.Exclusive? }

  ghost predicate IsRun(queues: bool, n: nat, states: seq<Lock>, moves: seq<(nat, Move)>) {
    && |states| == |moves| + 1
    && states[0] == Start(n)
    && forall i :: 0 <= i < |moves| ==> IsStep(queues, states[i], moves[i], states[i + 1])
  }

  ghost predicate IsStep(queues: bool, s: Lock, move: (nat, Move), s': Lock) {
    Enabled(queues, s, move.0, move.1) && s' == Do(queues, s, move.0, move.1)
  }

  lemma {:induction false} RunIsConsistent(queues: bool, n: nat, states: seq<Lock>, moves: seq<(nat, Move)>, i: nat)
    requires IsRun(queues, n, states, moves) && i < |states|
    ensures Consistent(states[i])
  {
    if i > 0 {
      RunIsConsistent(queues, n, states, moves, i - 1);
      assert IsStep(queues, states[i - 1], moves[i - 1], states[i]);
      StepKeepsConsistent(queues, states[i - 1], moves[i - 1].0, moves[i - 1].1);
    }
  }

  /** Every state of every run of the lock satisfies mutual exclusion. */
  lemma RunIsSafe(queues: bool, n: nat, states: seq<Lock>, moves: seq<(nat, Move)>, i: nat)
    requires IsRun(queues, n, states, moves) && i < |states|
    ensures MutualExclusion(states[i])
  {
    RunIsConsistent(queues, n, states, moves, i);
    var s := states[i];
    forall t, u | 0 <= t < |s.threads| && 0 <= u < |s.threads| && t != u
      ensures !(CanWrite(s.threads[t]) && CanWrite(s.threads[u]))
      ensures !(s.threads[t].Exclusive? && s.threads[u].Reading?)
    {
      assert ConsistentAt(s, t) && ConsistentAt(s, u);
    }
  }

  // ----- progress

  ghost predicate CanAdvance(queues: bool, s: Lock, t: nat) { Enabled(queues, s, t, Advance) }

  /** Unless every thread is idle, some thread that is not can take its next step. */
  lemma SomeThreadAdvances(queues: bool, s: Lock, t: nat) returns (u: nat)
    requires Consistent(s) && t < |s.threads| && !s.threads[t].Idle?
    ensures CanAdvance(queues, s, u)
  {
    hide Consistent;
    assert Consistent(s);
    HoldersExist(s);
    if s.owner.Some? {
      u := s.owner.value;
    } else if r :| r in s.readers {
      u := r;
    } else if s.writer.Some? {
      u := s.writer.value;
    } else {
      u := t;
      NobodyHalfLocked(s);
    }
  }

  lemma HoldersExist(s: Lock)
    requires Consistent(s)
    ensures s.owner.Some? ==> s.owner.value < |s.threads| && HoldsAlone(s.threads[s.owner.value])
    ensures s.writer.Some? ==> s.writer.value < |s.threads| && HoldsWrite(s.threads[s.writer.value])
    ensures forall r :: r in s.readers ==> r < |s.threads| && HoldsShared(s.threads[r])
  {
    if s.owner.Some? {
      assert ConsistentAt(s, s.owner.value);
    }
    if s.writer.Some? {
      assert ConsistentAt(s, s.writer.value);
    }
    forall r | r in s.readers
      ensures r < |s.threads| && HoldsShared(s.threads[r])
    {
      assert ConsistentAt(s, r);
    }
  }

  lemma NobodyHalfLocked(s: Lock)
    requires Consistent(s) && s.writer.None?
    ensures forall t :: 0 <= t < |s.threads| ==> !s.threads[t].HalfLocked?
  {
    forall t | 0 <= t < |s.threads|
      ensures !s.threads[t].HalfLocked?
    {
      assert ConsistentAt(s, t);
    }
  }

  /** The number of steps a thread is at most away from being idle. */
  function Work(p: Phase): nat {
    match p
    case Idle => 0
    case Reading => 1
    case Writing => 1
    case Leaving => 1
    case Backing(_, _) => 1
    case WantRead => 2
    case WantWrite => 2
    case Exclusive => 2
    case HalfLocked => 3
    case TriedWrite(_) => 3
    case WantLock => 4
  }

  function TotalWork(ps: seq<Phase>): nat {
    if ps == [] then 0 else Work(ps[0]) + TotalWork(ps[1..])
  }

  lemma {:induction false} WorkChanges(ps: seq<Phase>, t: nat, p: Phase)
    requires t < |ps|
    ensures TotalWork(ps[t := p]) == TotalWork(ps) - Work(ps[t]) + Work(p)
  {
    if t == 0 {
      assert ps[t := p][1..] == ps[1..];
    } else {
      assert ps[t := p][1..] == ps[1..][t - 1 := p];
      WorkChanges(ps[1..], t - 1, p);
    }
  }

  /** Advancing the threads of `order` one after the other is possible and leads to `s'`. */
  ghost predicate Drains(queues: bool, s: Lock, order: seq<nat>, s': Lock)
    decreases |order|
  {
    if order == [] then s' == s
    else CanAdvance(queues, s, order[0]) && Drains(queues, Proceed(s, order[0]), order[1..], s')
  }

  /**
   * No deadlock: from every reachable state the threads that hold or wait can all finish, in
   * some order and without any new request, until every thread is idle.
   */
  lemma {:induction false} AlwaysDrains(queues: bool, s: Lock) returns (order: seq<nat>, s': Lock)
    requires Consistent(s)
    ensures Drains(queues, s, order, s')
    ensures forall t :: 0 <= t < |s'.threads| ==> s'.threads[t].Idle?
    decreases TotalWork(s.threads)
  {
    if t :| 0 <= t < |s.threads| && !s.threads[t].Idle? {
      var u := SomeThreadAdvances(queues, s, t);
      StepKeepsConsistent(queues, s, u, Advance);
      ProceedDoesWork(s, u);
      var rest;
      rest, s' := AlwaysDrains(queues, Proceed(s, u));
      order := [u] + rest;
    } else {
      order, s' := [], s;
    }
  }

  lemma ProceedDoesWork(s: Lock, t: nat)
    requires t < |s.threads| && !s.threads[t].Idle?
    ensures TotalWork(Proceed(s, t).threads) < TotalWork(s.threads)
  {
    var p := Proceed(s, t).threads[t];
    assert Proceed(s, t).threads == s.threads[t := p];
    WorkChanges(s.threads, t, p);
  }

  // ----- what a request gets

  ghost predicate NobodyWrites(s: Lock) { forall u :: 0 <= u < |s.threads| ==> !HoldsWrite(s.threads[u]) }

  ghost predicate NobodyReads(s: Lock) { forall u :: 0 <= u < |s.threads| ==> !HoldsShared(s.threads[u]) }

  ghost predicate NobodyOwns(s: Lock) { forall u :: 0 <= u < |s.threads| ==> !HoldsAlone(s.threads[u]) }

  ghost predicate NobodyWaitsToOwn(s: Lock) { forall u :: 0 <= u < |s.threads| ==> !s.threads[u].HalfLocked? }

  /** The locks are free exactly when no thread holds them. */
  lemma FreeIsUnheld(s: Lock)
    requires Consistent(s)
    ensures s.writer.None? <==> NobodyWrites(s)
    ensures s.readers == {} <==> NobodyReads(s)
    ensures s.owner.None? <==> NobodyOwns(s)
  {
    HoldersExist(s);
    hide HoldsWrite, HoldsShared, HoldsAlone;
    if s.readers == {} {
      forall u | 0 <= u < |s.threads|
        ensures !HoldsShared(s.threads[u])
      {
        assert ConsistentAt(s, u);
      }
    }
    forall u | 0 <= u < |s.threads|
      ensures s.writer.None? ==> !HoldsWrite(s.threads[u])
      ensures s.owner.None? ==> !HoldsAlone(s.threads[u])
    {
      assert ConsistentAt(s, u);
    }
    if s.readers != {} {
      var r :| r in s.readers;
      assert HoldsShared(s.threads[r]);
    }
  }

  /** A step changes the phase of its own thread only. */
  lemma StepLeavesOthers(queues: bool, s: Lock, t: nat, m: Move, u: nat)
    requires Enabled(queues, s, t, m) && u < |s.threads| && u != t
    ensures var s' := Do(queues, s, t, m);
            |s'.threads| == |s.threads| && s'.threads[u] == s.threads[u]
  {
  }

  /**
   * A try for a guard succeeds exactly when nobody holds what it excludes, and otherwise leaves the
   * lock as it was.
   */
  lemma TryGrantsExactly(queues: bool, s: Lock, t: nat)
    requires Consistent(s) && t < |s.threads| && s.threads[t].Idle?
    ensures var r := Do(queues, s, t, TryRead);
            if NobodyOwns(s) && (queues ==> NobodyWaitsToOwn(s)) then r.threads[t].Reading? else r == s
    ensures var w := Do(queues, s, t, TryWrite);
            if NobodyWrites(s) then w.threads[t].Writing? else w == s
  {
    FreeIsUnheld(s);
    hide Consistent, NobodyWrites, NobodyReads, NobodyOwns;
  }

  /** The same for a try for the exclusive guard, which takes a step for each lock and one to back out. */
  lemma TryLockGrantsExactly(queues: bool, s: Lock, t: nat)
    requires Consistent(s) && t < |s.threads| && s.threads[t].Idle?
    ensures var l := Proceed(Do(queues, s, t, TryLock), t);
            if NobodyWrites(s) && NobodyReads(s) && NobodyOwns(s) then l.threads[t].Exclusive?
            else l.threads[t].Backing? && Proceed(l, t) == s
  {
    FreeIsUnheld(s);
    hide Consistent, NobodyWrites, NobodyReads, NobodyOwns;
    var l := Proceed(Do(queues, s, t, TryLock), t);
    if l.threads[t].Backing? {
      assert l.threads[t := Idle] == s.threads;
    }
  }

  /** A blocked request goes on exactly when nobody holds what it waits for, and then has its guard. */
  lemma BlockedGoesOnExactly(queues: bool, s: Lock, t: nat)
    requires Consistent(s) && t < |s.threads|
    ensures s.threads[t].WantRead? ==>
              && (CanAdvance(queues, s, t) <==> NobodyOwns(s) && (queues ==> NobodyWaitsToOwn(s)))
              && Proceed(s, t).threads[t].Reading?
    ensures s.threads[t].WantWrite? ==>
              (CanAdvance(queues, s, t) <==> NobodyWrites(s)) && Proceed(s, t).threads[t].Writing?
    ensures s.threads[t].WantLock? ==>
              (CanAdvance(queues, s, t) <==> NobodyWrites(s)) && Proceed(s, t).threads[t].HalfLocked?
    ensures s.threads[t].HalfLocked? ==>
              && (CanAdvance(queues, s, t) <==> NobodyReads(s) && NobodyOwns(s))
              && Proceed(s, t).threads[t].Exclusive?
  {
    FreeIsUnheld(s);
    hide Consistent, NobodyWrites, NobodyReads, NobodyOwns;
  }

  /** A request starts to wait for its own guard, and dropping a guard is always possible and frees it. */
  lemma AskAndDrop(queues: bool, s: Lock, t: nat)
    requires t < |s.threads|
    ensures s.threads[t].Idle? ==>
              && Do(queues, s, t, AskRead).threads[t].WantRead?
              && Do(queues, s, t, AskWrite).threads[t].WantWrite?
              && Do(queues, s, t, AskLock).threads[t].WantLock?
    ensures CanWrite(s.threads[t]) || s.threads[t].Reading? || s.threads[t].Leaving? ==> CanAdvance(queues, s, t)
    ensures s.threads[t].Writing? || s.threads[t].Reading? ==> Proceed(s, t).threads[t].Idle?
    ensures s.threads[t].Exclusive? ==>
              Proceed(s, t).threads[t].Leaving? && Proceed(Proceed(s, t), t).threads[t].Idle?
  {
  }
}
