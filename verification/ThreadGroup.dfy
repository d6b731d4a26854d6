/** sync/threadgroup.go as a step system.

    Taking or leaving a mutex, reading the stop context, cancelling it, changing the wait group,
    appending to a list and running a listed function are one step each.  Any finite number of
    threads make any calls in any order.
 */
module ThreadGroup {
  import opened Common

  /** A function given to OnStop or AfterStop; every call gives a new one. */
  type Fn = nat

  datatype Call = CallAdd | CallDone | CallOnStop | CallAfterStop | CallFlush | CallStop

  datatype Pc =
    | Idle
    | AddLock | AddCheck | AddCount | AddUnlock
    | FlushLock | FlushCheck | FlushWait | FlushUnlock
    // OnStop and AfterStop
    | ListLock(f: Fn, after: bool)
    | ListCheck(f: Fn, after: bool)
    | ListRun(f: Fn)                    // stopped: about to call f
    | ListAppend(f: Fn, after: bool)    // not stopped when it looked: about to append f
    | ListUnlock
    // Stop
    | StopLock | StopCheck | StopCancel
    | StopRefuse                        // already stopped, about to unlock and return
    | Stopping                          // has cancelled; Progress says how far it is

  /** How far the one Stop that cancelled has come. */
  datatype Progress =
    | NotStopped
    | UnlockB
    | LockM | UnlockM
    | OnLoop(left: nat)
    | WaitAll
    | AfterLoop(left: nat)
    | Finished

  datatype Shared = Shared(
    bmu: Owner, mu: Owner, stopped: bool, wg: nat, onStopFns: seq<Fn>, afterStopFns: seq<Fn>,
    progress: Progress, stopper: nat,
    // history
    added: nat, done: nat, nextFn: Fn, ran: seq<Fn>, onListed: seq<Fn>, afterListed: seq<Fn>, stopRan: seq<Fn>)

  datatype State = State(threads: seq<Pc>, sh: Shared)

  // ----- the steps -----

  /** A blocked step waits for a mutex or the wait group, or is a Done without an Add.  Any thread
      may call Done for an Add of any other. */
  datatype Effect = Blocked | Effect(pc: Pc, sh: Shared)

  function TakeB(sh: Shared, t: nat, pc: Pc): Effect {
    if sh.bmu.Free? then Effect(pc, sh.(bmu := By(t))) else Blocked
  }

  function LeaveB(sh: Shared): Effect { Effect(Idle, sh.(bmu := Free)) }

  function Start(sh: Shared, call: Call): Effect {
    match call
    case CallAdd => Effect(AddLock, sh)
    case CallDone =>
      if sh.wg == 0 then Blocked else Effect(Idle, sh.(wg := sh.wg - 1, done := sh.done + 1))
    case CallOnStop => Effect(ListLock(sh.nextFn, false), sh.(nextFn := sh.nextFn + 1))
    case CallAfterStop => Effect(ListLock(sh.nextFn, true), sh.(nextFn := sh.nextFn + 1))
    case CallFlush => Effect(FlushLock, sh)
    case CallStop => Effect(StopLock, sh)
  }

  function Append(sh: Shared, f: Fn, after: bool): Shared {
    if after then sh.(afterStopFns := sh.afterStopFns + [f], afterListed := sh.afterListed + [f])
    else sh.(onStopFns := sh.onStopFns + [f], onListed := sh.onListed + [f])
  }

  function RunByStop(sh: Shared, f: Fn, progress: Progress): Shared {
    sh.(ran := sh.ran + [f], stopRan := sh.stopRan + [f], progress := progress)
  }

  /** The rest of Stop after the cancel. */
  function Shutdown(sh: Shared, t: nat): Effect {
    match sh.progress
    case NotStopped => Blocked
    case UnlockB => Effect(Stopping, sh.(bmu := Free, progress := LockM))
    case LockM => if sh.mu.Free? then Effect(Stopping, sh.(mu := By(t), progress := UnlockM)) else Blocked
    case UnlockM => Effect(Stopping, sh.(mu := Free, progress := OnLoop(|sh.onStopFns|)))
    case OnLoop(i) =>
      if i == 0 then Effect(Stopping, sh.(onStopFns := [], progress := WaitAll))
      else if i <= |sh.onStopFns| then Effect(Stopping, RunByStop(sh, sh.onStopFns[i - 1], OnLoop(i - 1)))
      else Blocked
    case WaitAll => if sh.wg == 0 then Effect(Stopping, sh.(progress := AfterLoop(|sh.afterStopFns|))) else Blocked
    case AfterLoop(i) =>
      if i == 0 then Effect(Idle, sh.(afterStopFns := [], progress := Finished))
      else if i <= |sh.afterStopFns| then Effect(Stopping, RunByStop(sh, sh.afterStopFns[i - 1], AfterLoop(i - 1)))
      else Blocked
    case Finished => Blocked
  }

  function Do(pc: Pc, sh: Shared, t: nat, call: Call): Effect {
    match pc
    case Idle => Start(sh, call)
    case AddLock => TakeB(sh, t, AddCheck)
    case AddCheck => Effect(if sh.stopped then AddUnlock else AddCount, sh)
    case AddCount => Effect(AddUnlock, sh.(wg := sh.wg + 1, added := sh.added + 1))
    case AddUnlock => LeaveB(sh)
    case FlushLock => TakeB(sh, t, FlushCheck)
    case FlushCheck => Effect(if sh.stopped then FlushUnlock else FlushWait, sh)
    case FlushWait => if sh.wg == 0 then Effect(FlushUnlock, sh) else Blocked
    case FlushUnlock => LeaveB(sh)
    case ListLock(f, after) => if sh.mu.Free? then Effect(ListCheck(f, after), sh.(mu := By(t))) else Blocked
    case ListCheck(f, after) => Effect(if sh.stopped then ListRun(f) else ListAppend(f, after), sh)
    case ListRun(f) => Effect(ListUnlock, sh.(ran := sh.ran + [f]))
    case ListAppend(f, after) => Effect(ListUnlock, Append(sh, f, after))
    case ListUnlock => Effect(Idle, sh.(mu := Free))
    case StopLock => TakeB(sh, t, StopCheck)
    case StopCheck => Effect(if sh.stopped then StopRefuse else StopCancel, sh)
    case StopCancel => Effect(Stopping, sh.(stopped := true, progress := UnlockB, stopper := t))
    case StopRefuse => LeaveB(sh)
    case Stopping => Shutdown(sh, t)
  }

  datatype Move = Move(t: nat, call: Call)

  ghost predicate Next(s: State, m: Move, s': State) {
    && m.t < |s.threads|
    && var e := Do(s.threads[m.t], s.sh, m.t, m.call);
    && e.Effect?
    && s' == State(s.threads[m.t := e.pc], e.sh)
  }

  ghost predicate Init(s: State) {
    && (forall t :: 0 <= t < |s.threads| ==> s.threads[t] == Idle)
    && s.sh == Shared(Free, Free, false, 0, [], [], NotStopped, 0, 0, 0, 0, [], [], [], [])
  }

  // ----- what a thread knows -----

  predicate HoldsB(pc: Pc, sh: Shared) {
    || pc.AddCheck? || pc.AddCount? || pc.AddUnlock? || pc.FlushCheck? || pc.FlushWait? || pc.FlushUnlock?
    || pc.StopCheck? || pc.StopCancel? || pc.StopRefuse?
    || (pc.Stopping? && sh.progress.UnlockB?)
  }

  predicate HoldsM(pc: Pc, sh: Shared) {
    || pc.ListCheck? || pc.ListRun? || pc.ListAppend? || pc.ListUnlock?
    || (pc.Stopping? && sh.progress.UnlockM?)
  }

  /** Stop has been through mu, so nothing can be listed any more. */
  predicate Sealed(p: Progress) { !p.NotStopped? && !p.UnlockB? && !p.LockM? }

  predicate ThreadInv(pc: Pc, sh: Shared, t: nat) {
    && (HoldsB(pc, sh) <==> sh.bmu == By(t))
    && (HoldsM(pc, sh) <==> sh.mu == By(t))
    && (pc.AddCount? || pc.FlushWait? || pc.StopCancel? ==> !sh.stopped)
    && (pc.ListAppend? ==> !Sealed(sh.progress))
    && (pc.ListRun? ==> sh.stopped)
    && (pc.Stopping? <==> sh.stopped && !sh.progress.Finished? && sh.stopper == t)
  }

  predicate Phase(sh: Shared) { sh.stopped <==> !sh.progress.NotStopped? }

  lemma OwnStart(pc: Pc, sh: Shared, t: nat, call: Call)
    requires ThreadInv(pc, sh, t) && pc.Idle?
    ensures var e := Start(sh, call); e.Effect? ==> ThreadInv(e.pc, e.sh, t)
  {
  }

  lemma OwnShutdown(pc: Pc, sh: Shared, t: nat)
    requires ThreadInv(pc, sh, t) && Phase(sh) && pc.Stopping?
    ensures var e := Shutdown(sh, t); e.Effect? ==> ThreadInv(e.pc, e.sh, t)
  {
  }

  /** A step keeps what its own thread knows ... */
  lemma OwnKept(pc: Pc, sh: Shared, t: nat, call: Call)
    requires ThreadInv(pc, sh, t) && Phase(sh)
    ensures var e := Do(pc, sh, t, call); e.Effect? ==> ThreadInv(e.pc, e.sh, t)
  {
    hide Start, Shutdown;
    if pc.Idle? {
      hide ThreadInv;
      OwnStart(pc, sh, t, call);
    } else if pc.Stopping? {
      OwnShutdown(pc, sh, t);
    }
  }

  lemma OtherShutdown(pc: Pc, sh: Shared, t: nat, other: Pc, u: nat)
    requires ThreadInv(pc, sh, t) && ThreadInv(other, sh, u) && Phase(sh) && t != u && pc.Stopping?
    ensures var e := Shutdown(sh, t); e.Effect? ==> ThreadInv(other, e.sh, u)
  {
  }

  /** ... and what every other thread knows. */
  lemma OtherKept(pc: Pc, sh: Shared, t: nat, call: Call, other: Pc, u: nat)
    requires ThreadInv(pc, sh, t) && ThreadInv(other, sh, u) && Phase(sh) && t != u
    ensures var e := Do(pc, sh, t, call); e.Effect? ==> ThreadInv(other, e.sh, u)
  {
    hide Shutdown;
    if pc.Stopping? {
      OtherShutdown(pc, sh, t, other, u);
    }
  }

  // ----- what the shared state says -----

  /** Before the loops the lists hold all that was ever listed; during them Stop has run the
      tails, the last listed first. */
  predicate SharedInv(sh: Shared) {
    && Phase(sh)
    && match sh.progress {
      case OnLoop(i) =>
        && i <= |sh.onStopFns| && sh.onStopFns == sh.onListed && sh.afterStopFns == sh.afterListed
        && sh.stopRan == Reversed(sh.onListed[i..])
      case WaitAll =>
        sh.onStopFns == [] && sh.afterStopFns == sh.afterListed && sh.stopRan == Reversed(sh.onListed)
      case AfterLoop(i) =>
        && sh.wg == 0
        && i <= |sh.afterStopFns| && sh.onStopFns == [] && sh.afterStopFns == sh.afterListed
        && sh.stopRan == Reversed(sh.onListed) + Reversed(sh.afterListed[i..])
      case Finished =>
        && sh.wg == 0
        && sh.onStopFns == [] && sh.afterStopFns == []
        && sh.stopRan == Reversed(sh.onListed) + Reversed(sh.afterListed)
      case _ =>
        sh.onStopFns == sh.onListed && sh.afterStopFns == sh.afterListed && sh.stopRan == []
    }
  }

  lemma ShutdownKept(pc: Pc, sh: Shared, t: nat)
    requires SharedInv(sh)
    ensures var e := Shutdown(sh, t); e.Effect? ==> SharedInv(e.sh)
  {
    hide Reversed;
    match sh.progress {
      case OnLoop(i) =>
        if i == 0 {
          assert sh.onListed[0..] == sh.onListed;
        } else {
          ReversedTail(sh.onListed, i);
        }
      case AfterLoop(i) =>
        if i == 0 {
          assert sh.afterListed[0..] == sh.afterListed;
        } else {
          ReversedTail(sh.afterListed, i);
          assert sh.stopRan + [sh.afterStopFns[i - 1]] == Reversed(sh.onListed) + Reversed(sh.afterListed[i - 1..]);
        }
      case WaitAll => NoneLeft(sh.afterListed);
        assert sh.stopRan == Reversed(sh.onListed) + [];
      case UnlockM => NoneLeft(sh.onListed);
      case _ =>
    }
  }

  lemma NoneLeft(s: seq<Fn>)
    ensures Reversed(s[|s|..]) == []
  {
  }

  lemma SharedKept(pc: Pc, sh: Shared, t: nat, call: Call)
    requires ThreadInv(pc, sh, t) && SharedInv(sh)
    ensures var e := Do(pc, sh, t, call); e.Effect? ==> SharedInv(e.sh)
  {
    hide Reversed;
    if pc.Stopping? {
      ShutdownKept(pc, sh, t);
    }
  }

  // ----- counting -----

  /** How often f is in s. */
  function Times(s: seq<Fn>, f: Fn): nat {
    if s == [] then 0 else Times(s[..|s| - 1], f) + One(s[|s| - 1] == f)
  }

  lemma TimesAppend(s: seq<Fn>, x: Fn, f: Fn)
    ensures Times(s + [x], f) == Times(s, f) + One(x == f)
  {
    assert (s + [x])[..|s|] == s;
  }

  lemma TimesPrefix(s: seq<Fn>, i: nat, f: Fn)
    requires 0 < i <= |s|
    ensures Times(s[..i], f) == Times(s[..i - 1], f) + One(s[i - 1] == f)
  {
    assert s[..i] == s[..i - 1] + [s[i - 1]];
    TimesAppend(s[..i - 1], s[i - 1], f);
  }

  /** Whether a call has f in hand, neither listed nor run yet. */
  predicate Carries(pc: Pc, f: Fn) {
    match pc
    case ListLock(g, _) => f == g
    case ListCheck(g, _) => f == g
    case ListRun(g) => f == g
    case ListAppend(g, _) => f == g
    case _ => false
  }

  function Carried(threads: seq<Pc>, f: Fn): nat {
    if threads == [] then 0
    else Carried(threads[..|threads| - 1], f) + One(Carries(threads[|threads| - 1], f))
  }

  lemma {:induction false} CarriedUpdate(threads: seq<Pc>, t: nat, pc: Pc, f: Fn)
    requires t < |threads|
    ensures Carried(threads[t := pc], f) + One(Carries(threads[t], f)) ==
            Carried(threads, f) + One(Carries(pc, f))
  {
    hide Carries;
    var n := |threads| - 1;
    if t == n {
      assert threads[t := pc][..n] == threads[..n];
    } else {
      CarriedUpdate(threads[..n], t, pc, f);
      assert threads[t := pc][..n] == threads[..n][t := pc];
    }
  }

  lemma {:induction false} NotCarried(threads: seq<Pc>, f: Fn)
    requires forall t :: 0 <= t < |threads| ==> !Carries(threads[t], f)
    ensures Carried(threads, f) == 0
  {
    if threads != [] {
      NotCarried(threads[..|threads| - 1], f);
    }
  }

  /** Listed functions that Stop still has to run. */
  function OnLeft(sh: Shared): seq<Fn> {
    match sh.progress
    case OnLoop(i) => if i <= |sh.onStopFns| then sh.onStopFns[..i] else []
    case WaitAll => []
    case AfterLoop(_) => []
    case Finished => []
    case _ => sh.onStopFns
  }

  function AfterLeft(sh: Shared): seq<Fn> {
    match sh.progress
    case AfterLoop(i) => if i <= |sh.afterStopFns| then sh.afterStopFns[..i] else []
    case Finished => []
    case _ => sh.afterStopFns
  }

  /** How often f has been run or is still to be run by Stop. */
  function Placed(sh: Shared, f: Fn): nat { Times(sh.ran, f) + Times(OnLeft(sh), f) + Times(AfterLeft(sh), f) }

  lemma AppendPlaces(sh: Shared, x: Fn, after: bool, f: Fn)
    requires !Sealed(sh.progress)
    ensures Placed(Append(sh, x, after), f) == Placed(sh, f) + One(x == f)
  {
    hide Times;
    TimesAppend(sh.onStopFns, x, f);
    TimesAppend(sh.afterStopFns, x, f);
  }

  lemma ShutdownPlaces(pc: Pc, sh: Shared, t: nat, f: Fn)
    requires SharedInv(sh) && pc.Stopping?
    ensures var e := Shutdown(sh, t); e.Effect? ==>
      Placed(e.sh, f) == Placed(sh, f) && e.sh.nextFn == sh.nextFn && !Carries(e.pc, f)
  {
    hide Times, Reversed;
    match sh.progress {
      case OnLoop(i) =>
        NoTimes(sh.onStopFns[..0], f);
        if i > 0 {
          TimesPrefix(sh.onStopFns, i, f);
          TimesAppend(sh.ran, sh.onStopFns[i - 1], f);
        }
      case AfterLoop(i) =>
        NoTimes(sh.afterStopFns[..0], f);
        if i > 0 {
          TimesPrefix(sh.afterStopFns, i, f);
          TimesAppend(sh.ran, sh.afterStopFns[i - 1], f);
        }
      case WaitAll => assert sh.afterStopFns[..|sh.afterStopFns|] == sh.afterStopFns;
      case UnlockM => assert sh.onStopFns[..|sh.onStopFns|] == sh.onStopFns;
      case _ =>
    }
  }

  lemma NoTimes(s: seq<Fn>, f: Fn)
    requires s == []
    ensures Times(s, f) == 0
  {
  }

  /** No step makes a function appear, vanish or double. */
  lemma StepPlaces(pc: Pc, sh: Shared, t: nat, call: Call, f: Fn)
    requires ThreadInv(pc, sh, t) && SharedInv(sh)
    ensures var e := Do(pc, sh, t, call); e.Effect? ==>
      Placed(e.sh, f) + One(Carries(e.pc, f)) + One(f < sh.nextFn) ==
      Placed(sh, f) + One(Carries(pc, f)) + One(f < e.sh.nextFn)
  {
    hide Start, Shutdown, SharedInv, Append, Times, OnLeft, AfterLeft;
    if pc.Stopping? {
      hide Placed;
      ShutdownPlaces(pc, sh, t, f);
    } else if pc.ListAppend? {
      hide Placed;
      AppendPlaces(sh, pc.f, pc.after, f);
      AppendSame(sh, pc.f, pc.after);
    } else if pc.ListRun? {
      RunPlaces(sh, pc.f, f);
    } else if pc.Idle? {
      StartPlaces(pc, sh, call, f);
    } else {
      SharedPhase(sh);
      QuietStep(pc, sh, t, call, f);
    }
  }

  lemma RunPlaces(sh: Shared, x: Fn, f: Fn)
    ensures Placed(sh.(ran := sh.ran + [x]), f) == Placed(sh, f) + One(x == f)
  {
    hide Times;
    TimesAppend(sh.ran, x, f);
  }

  /** A call takes a new function in hand, or none. */
  lemma StartPlaces(pc: Pc, sh: Shared, call: Call, f: Fn)
    requires pc.Idle?
    ensures var e := Start(sh, call); e.Effect? ==>
      && e.sh.ran == sh.ran && OnLeft(e.sh) == OnLeft(sh) && AfterLeft(e.sh) == AfterLeft(sh)
      && One(Carries(e.pc, f)) + One(f < sh.nextFn) == One(f < e.sh.nextFn)
  {
  }

  /** All other steps leave the functions where they are. */
  lemma QuietStep(pc: Pc, sh: Shared, t: nat, call: Call, f: Fn)
    requires ThreadInv(pc, sh, t) && Phase(sh)
    requires !pc.Idle? && !pc.Stopping? && !pc.ListAppend? && !pc.ListRun?
    ensures var e := Do(pc, sh, t, call); e.Effect? ==>
      && e.sh.ran == sh.ran && OnLeft(e.sh) == OnLeft(sh) && AfterLeft(e.sh) == AfterLeft(sh)
      && e.sh.nextFn == sh.nextFn && Carries(e.pc, f) == Carries(pc, f)
  {
    hide Start, Shutdown, Append;
  }

  lemma AppendSame(sh: Shared, f: Fn, after: bool)
    ensures Append(sh, f, after).nextFn == sh.nextFn
  {
  }

  lemma StepCounts(pc: Pc, sh: Shared, t: nat, call: Call)
    ensures var e := Do(pc, sh, t, call); e.Effect? ==> e.sh.wg + e.sh.done + sh.added == sh.wg + sh.done + e.sh.added
  {
  }

  // ----- every state of every run -----

  ghost predicate Inv(s: State) {
    && (forall t :: 0 <= t < |s.threads| ==> ThreadInv(s.threads[t], s.sh, t))
    && SharedInv(s.sh)
    && s.sh.wg + s.sh.done == s.sh.added
    && (forall f: Fn :: Placed(s.sh, f) + Carried(s.threads, f) == One(f < s.sh.nextFn))
  }

  lemma {:induction false} IdleThreads(threads: seq<Pc>)
    requires forall t :: 0 <= t < |threads| ==> threads[t] == Idle
    ensures forall f: Fn :: Carried(threads, f) == 0
  {
    if threads != [] {
      IdleThreads(threads[..|threads| - 1]);
    }
  }

  lemma InitInv(s: State)
    requires Init(s)
    ensures Inv(s)
  {
    IdleThreads(s.threads);
  }

  lemma StepKeepsInv(s: State, m: Move, s': State)
    requires Inv(s) && Next(s, m, s')
    ensures Inv(s')
  {
    hide Do, ThreadInv, SharedInv, Placed, Carries, Carried;
    var t := m.t;
    var pc := s.threads[t];
    var e := Do(pc, s.sh, t, m.call);
    SharedPhase(s.sh);
    OwnKept(pc, s.sh, t, m.call);
    forall u | 0 <= u < |s.threads| && u != t
      ensures ThreadInv(s'.threads[u], s'.sh, u)
    {
      OtherKept(pc, s.sh, t, m.call, s.threads[u], u);
    }
    SharedKept(pc, s.sh, t, m.call);
    StepCounts(pc, s.sh, t, m.call);
    forall f: Fn
      ensures Placed(s'.sh, f) + Carried(s'.threads, f) == One(f < s'.sh.nextFn)
    {
      StepPlaces(pc, s.sh, t, m.call, f);
      CarriedUpdate(s.threads, t, e.pc, f);
    }
  }

  lemma SharedPhase(sh: Shared)
    requires SharedInv(sh)
    ensures Phase(sh)
  {
  }

  ghost predicate Run(run: seq<State>, moves: seq<Move>) {
    && |run| == |moves| + 1
    && Init(run[0])
    && forall i :: 0 <= i < |moves| ==> Next(run[i], moves[i], run[i + 1])
  }

  lemma {:induction false} RunKeepsInv(run: seq<State>, moves: seq<Move>, i: nat)
    requires Run(run, moves) && i < |run|
    ensures Inv(run[i])
  {
    hide Next, Inv, Init;
    if i == 0 {
      InitInv(run[0]);
    } else {
      RunKeepsInv(run, moves, i - 1);
      StepKeepsInv(run[i - 1], moves[i - 1], run[i]);
    }
  }

  // ----- what Stop promises -----

  /** When Stop has completed, a function whose OnStop or AfterStop call has listed or run it
      has been run exactly once; at no time has any been run twice. */
  lemma ExactlyOnce(run: seq<State>, moves: seq<Move>, i: nat, f: Fn)
    requires Run(run, moves) && i < |run| && f < run[i].sh.nextFn
    ensures Times(run[i].sh.ran, f) <= 1
    ensures run[i].sh.progress.Finished? && (forall t :: 0 <= t < |run[i].threads| ==>
      !Carries(run[i].threads[t], f))
      ==> Times(run[i].sh.ran, f) == 1
  {
    hide SharedInv, ThreadInv, Carries, Carried, Next;
    RunKeepsInv(run, moves, i);
    var s := run[i];
    assert Placed(s.sh, f) + Carried(s.threads, f) == 1;
    if forall t :: 0 <= t < |s.threads| ==> !Carries(s.threads[t], f) {
      NotCarried(s.threads, f);
    }
  }

  /** Stop runs what was listed with OnStop, the last listed first, and then what was listed
      with AfterStop, the last listed first. */
  lemma ReverseOrder(run: seq<State>, moves: seq<Move>, i: nat)
    requires Run(run, moves) && i < |run| && run[i].sh.progress.Finished?
    ensures run[i].sh.stopRan == Reversed(run[i].sh.onListed) + Reversed(run[i].sh.afterListed)
  {
    hide Reversed, ThreadInv, Next;
    RunKeepsInv(run, moves, i);
  }

  /** The wait group is the number of successful Adds that no Done has answered yet. */
  lemma WaitGroupCounts(run: seq<State>, moves: seq<Move>, i: nat)
    requires Run(run, moves) && i < |run|
    ensures run[i].sh.added == run[i].sh.done + run[i].sh.wg
  {
    hide ThreadInv, SharedInv, Next;
    RunKeepsInv(run, moves, i);
  }

  /** While Stop runs the AfterStop functions, every successful Add has had its Done, whoever
      called it. */
  lemma AfterStopWhenDone(run: seq<State>, moves: seq<Move>, i: nat)
    requires Run(run, moves) && i < |run|
    requires run[i].sh.progress.AfterLoop? || run[i].sh.progress.Finished?
    ensures run[i].sh.added == run[i].sh.done && run[i].sh.wg == 0
  {
    hide Reversed, ThreadInv, Next;
    RunKeepsInv(run, moves, i);
  }

  lemma StoppedStep(pc: Pc, sh: Shared, t: nat, call: Call)
    requires ThreadInv(pc, sh, t) && sh.stopped
    ensures var e := Do(pc, sh, t, call); e.Effect? ==> e.sh.stopped && e.sh.added == sh.added && e.sh.wg <= sh.wg
  {
  }

  /** After the cancel no Add succeeds, and the wait group never grows again. */
  lemma {:induction false} NoAddAfterCancel(run: seq<State>, moves: seq<Move>, i: nat, j: nat)
    requires Run(run, moves) && i <= j < |run| && run[i].sh.stopped
    ensures run[j].sh.stopped && run[j].sh.added == run[i].sh.added && run[j].sh.wg <= run[i].sh.wg
  {
    hide Do, ThreadInv, SharedInv, Placed, Carried;
    if i < j {
      NoAddAfterCancel(run, moves, i, j - 1);
      RunKeepsInv(run, moves, j - 1);
      var m := moves[j - 1];
      assert Next(run[j - 1], m, run[j]);
      StoppedStep(run[j - 1].threads[m.t], run[j - 1].sh, m.t, m.call);
    }
  }
}
