/** What the calls of sync/tryrwmutex.go do for their callers: when they spin and wait, what they hold before they
    return, that they get there, and that they never deadlock. */
module TryRWMutexCalls {
  import opened Common
  import opened TryRWMutex

  // ----- spinning -----

  /** A spinning Lock or RLock that looks again goes on spinning if and only if a Try call is in flight. */
  lemma SpinsIff(run: seq<State>, moves: seq<Move>, i: nat)
    requires Run(run, moves) && i < |moves| && moves[i].thread in run[i].pcs
    requires var pc := run[i].pcs[moves[i].thread]; pc.LockReload? || pc.RLockReload?
    ensures moves[i].thread in run[i + 1].pcs
    ensures var pc, next := run[i].pcs[moves[i].thread], run[i + 1].pcs[moves[i].thread];
      && (if pc.LockReload? then next.LockSpin? else next.RLockSpin?)
      && (Spinning(next) <==> Count(run[i].pcs, Trier) >= 1)
  {
    var t := moves[i].thread;
    assert Next(run[i], moves[i], run[i + 1]);
    WordIsThreeCounters(run, moves, i);
    assert t in Busy(run[i].pcs);
    hide Count;
  }

  /** Whoever does not spin goes on to mu, and whoever spins looks again. */
  lemma LeavesSpin(run: seq<State>, moves: seq<Move>, i: nat)
    requires AnyRun(run, moves) && i < |moves| && moves[i].thread in run[i].pcs
    requires var pc := run[i].pcs[moves[i].thread]; pc.LockSpin? || pc.RLockSpin?
    ensures moves[i].thread in run[i + 1].pcs
    ensures var pc, next := run[i].pcs[moves[i].thread], run[i + 1].pcs[moves[i].thread];
      if Spinning(pc) then (if pc.LockSpin? then next.LockReload? else next.RLockReload?)
      else (if pc.LockSpin? then next.LockMu? else next.RLockMu?)
  {
    assert Next(run[i], moves[i], run[i + 1]);
  }

  // ----- waiting -----

  predicate AtMu(pc: Pc) { pc.LockMu? || pc.RLockMu? || pc.TryLockMu? || pc.TryRLockMu? }

  ghost predicate SomeHoldsOrWaits(pcs: map<Thread, Pc>) {
    exists u :: u in pcs && (HoldsWrite(pcs[u]) || Pending(pcs[u]))
  }

  ghost predicate SomeReads(pcs: map<Thread, Pc>) { exists u :: u in pcs && HoldsRead(pcs[u]) }

  /** A thread waits if and only if it is entering mu while a writer is there or on its way, or is a writer on its
      way while somebody reads. */
  lemma WaitsIff(run: seq<State>, moves: seq<Move>, i: nat, t: Thread, call: Call)
    requires AnyRun(run, moves) && i < |run| && t in run[i].pcs
    ensures var s := run[i];
      Do(s.pcs[t], s.lock, s.mu, t, call).Blocked? <==>
        (AtMu(s.pcs[t]) && SomeHoldsOrWaits(s.pcs)) || (Pending(s.pcs[t]) && SomeReads(s.pcs))
  {
    RunKeepsMu(run, moves, i);
    MuShows(run[i].mu, run[i].pcs);
    hide MuAgrees, AnyRun, SomeHoldsOrWaits, SomeReads;
  }

  lemma MuShows(mu: Mu, pcs: map<Thread, Pc>)
    requires MuAgrees(mu, pcs)
    ensures SomeHoldsOrWaits(pcs) <==> mu.writer.Some? || mu.pending.Some?
    ensures SomeReads(pcs) <==> mu.readers != {}
  {
    OwnersStandThere(mu, pcs);
    if mu.readers != {} {
      var u :| u in mu.readers;
      assert u in pcs && HoldsRead(pcs[u]);
    }
  }

  ghost predicate CanStep(s: State, t: Thread, call: Call) {
    t in s.pcs && Do(s.pcs[t], s.lock, s.mu, t, call).Effect?
  }

  /** While any operation is in progress, some thread in the middle of one can take a step. */
  lemma NoDeadlock(run: seq<State>, moves: seq<Move>, i: nat, t: Thread, call: Call)
    requires AnyRun(run, moves) && i < |run| && t in run[i].pcs && !run[i].pcs[t].Idle?
    ensures exists u :: u in run[i].pcs && !run[i].pcs[u].Idle? && CanStep(run[i], u, call)
  {
    hide Do, AnyRun;
    var s := run[i];
    WaitsIff(run, moves, i, t, call);
    if CanStep(s, t, call) {
    } else if AtMu(s.pcs[t]) && SomeHoldsOrWaits(s.pcs) {
      var u :| u in s.pcs && (HoldsWrite(s.pcs[u]) || Pending(s.pcs[u]));
      WaitsIff(run, moves, i, u, call);
      if !CanStep(s, u, call) {
        ReaderSteps(run, moves, i, call);
      }
    } else {
      ReaderSteps(run, moves, i, call);
    }
  }

  lemma ReaderSteps(run: seq<State>, moves: seq<Move>, i: nat, call: Call)
    requires AnyRun(run, moves) && i < |run| && SomeReads(run[i].pcs)
    ensures exists u :: u in run[i].pcs && !run[i].pcs[u].Idle? && CanStep(run[i], u, call)
  {
    hide Do, AnyRun;
    var u :| u in run[i].pcs && HoldsRead(run[i].pcs[u]);
    WaitsIff(run, moves, i, u, call);
    assert CanStep(run[i], u, call);
  }

  // ----- getting there -----

  /** How many more steps of its own a thread takes at most until it is idle again, once it spins no more. */
  function StepsLeft(pc: Pc): nat {
    match pc
    case Idle => 0
    case UnlockCount => 1
    case RUnlockCount => 1
    case TryRLockRevert => 1
    case Writing => 2
    case Reading => 2
    case LockMuWait => 3
    case TryLockClear => 3
    case RLockMu => 3
    case TryRLockClear => 3
    case LockMu => 4
    case TryLockMuWait => 4
    case TryRLockMu => 4
    case LockSpin(_) => 5
    case RLockSpin(_) => 5
    case TryLockMu => 5
    case TryRLockTest(_) => 5
    case LockReload => 6
    case RLockReload => 6
  }

  /** Every step but those of spinning brings a thread closer to being idle again. */
  lemma GetsCloser(run: seq<State>, moves: seq<Move>, i: nat)
    requires AnyRun(run, moves) && i < |moves| && moves[i].thread in run[i].pcs
    requires var pc := run[i].pcs[moves[i].thread]; !pc.Idle? && !Spinning(pc)
    ensures moves[i].thread in run[i + 1].pcs
    ensures StepsLeft(run[i + 1].pcs[moves[i].thread]) < StepsLeft(run[i].pcs[moves[i].thread])
  {
    assert Next(run[i], moves[i], run[i + 1]);
  }

  // ----- whole calls -----

  /** Thread t starts the call with move i and is not idle again before j. */
  ghost predicate During(run: seq<State>, moves: seq<Move>, i: nat, j: nat, t: Thread, call: Call) {
    && AnyRun(run, moves) && i < j < |run|
    && t in run[i].pcs && run[i].pcs[t].Idle? && moves[i] == Move(t, call)
    && forall k :: i < k < j ==> t in run[k].pcs && !run[k].pcs[t].Idle?
  }

  predicate Holds(pc: Pc, write: bool) { if write then HoldsWrite(pc) else HoldsRead(pc) }

  /** At some time after i and not after k the thread had the lock. */
  ghost predicate Held(run: seq<State>, t: Thread, i: nat, k: nat, write: bool)
    requires k < |run|
  {
    exists m :: i < m <= k && t in run[m].pcs && Holds(run[m].pcs[t], write)
  }

  predicate ForWriting(call: Call) { call.CallLock? || call.CallTryLock? }

  /** What a Try call has found out with its first step. */
  predicate Granted(pc: Pc, call: Call) {
    match call
    case CallTryLock => pc.TryLockMu?
    case CallTryRLock => PassedTest(pc)
    case _ => true
  }

  /** Where a thread can be in a call, if it was granted the lock or not, and has had it already or not. */
  predicate Stage(pc: Pc, call: Call, granted: bool, held: bool) {
    match call
    case CallLock => (AtLock(pc) && (pc.UnlockCount? ==> held)) || (pc.Idle? && held)
    case CallRLock => (AtRLock(pc) && (pc.RUnlockCount? ==> held)) || (pc.Idle? && held)
    case CallTryLock =>
      if !granted then pc.Idle? && !held
      else AtTryLock(pc) || pc.Writing? || ((pc.UnlockCount? || pc.Idle?) && held)
    case CallTryRLock =>
      if !granted then (FailedTest(pc) || pc.Idle?) && !held
      else PassedTest(pc) || pc.Reading? || ((pc.RUnlockCount? || pc.Idle?) && held)
  }

  lemma FirstStage(lock: nat, mu: Mu, t: Thread, call: Call)
    ensures var e := Do(Idle, lock, mu, t, call);
      e.Effect? && Stage(e.pc, call, Granted(e.pc, call), Holds(e.pc, ForWriting(call)))
  {
  }

  lemma NextStage(pc: Pc, lock: nat, mu: Mu, t: Thread, any: Call, call: Call, granted: bool, held: bool)
    requires Stage(pc, call, granted, held) && !pc.Idle? && (Holds(pc, ForWriting(call)) ==> held)
    ensures var e := Do(pc, lock, mu, t, any);
      e.Effect? ==> Stage(e.pc, call, granted, held || Holds(e.pc, ForWriting(call)))
  {
  }

  lemma {:induction false} StageAt(run: seq<State>, moves: seq<Move>, i: nat, j: nat, t: Thread, call: Call)
    requires During(run, moves, i, j, t, call)
    ensures t in run[i + 1].pcs && t in run[j].pcs
    ensures Stage(run[j].pcs[t], call, Granted(run[i + 1].pcs[t], call), Held(run, t, i, j, ForWriting(call)))
    decreases j
  {
    hide Do, Stage, Granted, Holds;
    assert Next(run[j - 1], moves[j - 1], run[j]);
    var write := ForWriting(call);
    if j == i + 1 {
      FirstStage(run[i].lock, run[i].mu, t, call);
      HeldFirst(run, t, i, write);
    } else {
      StageAt(run, moves, i, j - 1, t, call);
      HeldNext(run, t, i, j, write);
      if moves[j - 1].thread == t {
        NextStage(run[j - 1].pcs[t], run[j - 1].lock, run[j - 1].mu, t, moves[j - 1].call, call,
                  Granted(run[i + 1].pcs[t], call), Held(run, t, i, j - 1, write));
      } else {
        assert run[j].pcs[t] == run[j - 1].pcs[t];
      }
    }
  }

  lemma HeldFirst(run: seq<State>, t: Thread, i: nat, write: bool)
    requires i + 1 < |run| && t in run[i + 1].pcs
    ensures Held(run, t, i, i + 1, write) <==> Holds(run[i + 1].pcs[t], write)
  {
  }

  lemma HeldNext(run: seq<State>, t: Thread, i: nat, j: nat, write: bool)
    requires i + 1 < j < |run| && t in run[j - 1].pcs && t in run[j].pcs
    ensures Held(run, t, i, j, write) <==> Held(run, t, i, j - 1, write) || Holds(run[j].pcs[t], write)
    ensures Holds(run[j - 1].pcs[t], write) ==> Held(run, t, i, j - 1, write)
  {
    hide Holds;
    if Held(run, t, i, j - 1, write) {
      var m :| i < m <= j - 1 && t in run[m].pcs && Holds(run[m].pcs[t], write);
      assert i < m <= j;
    }
  }

  /** When a call has returned, and its caller has released what it got: Lock and TryLock have had the write lock and
      RLock and TryRLock a read lock, a Try call if and only if its first step was granted. */
  lemma CallHolds(run: seq<State>, moves: seq<Move>, i: nat, j: nat, t: Thread, call: Call)
    requires During(run, moves, i, j, t, call) && t in run[j].pcs && run[j].pcs[t].Idle?
    ensures t in run[i + 1].pcs
    ensures Held(run, t, i, j, ForWriting(call)) <==> Granted(run[i + 1].pcs[t], call)
    ensures call.CallLock? || call.CallRLock? ==> Held(run, t, i, j, ForWriting(call))
  {
    hide AnyRun, Held;
    StageAt(run, moves, i, j, t, call);
  }
}
