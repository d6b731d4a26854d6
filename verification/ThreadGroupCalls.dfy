/** What the calls of sync/threadgroup.go do for their callers: which list a function goes to and when it runs, what
    Add, Flush and Stop have done when they return, and what a call waits for. */
module ThreadGroupCalls {
  import opened Common
  import opened ThreadGroup

  // ----- where a function given to OnStop or AfterStop ends up -----

  /** Move i calls OnStop, or AfterStop, with f. */
  ghost predicate Gives(run: seq<State>, moves: seq<Move>, i: nat, f: Fn, after: bool) {
    && Run(run, moves) && i < |moves| && moves[i].t < |run[i].threads| && run[i].threads[moves[i].t].Idle?
    && moves[i].call == (if after then CallAfterStop else CallOnStop) && f == run[i].sh.nextFn
  }

  ghost predicate InHand(s: State, f: Fn) { exists t :: 0 <= t < |s.threads| && Carries(s.threads[t], f) }

  predicate Listed(sh: Shared, f: Fn, after: bool) {
    if after then f in sh.afterListed && f !in sh.onListed else f in sh.onListed && f !in sh.afterListed
  }

  /** The call has f in hand and will list it rightly, or has listed it, or was too late and has run it. */
  ghost predicate Fate(s: State, f: Fn, after: bool) {
    && f < s.sh.nextFn
    && (forall t :: 0 <= t < |s.threads| ==> Rightly(s.threads[t], f, after))
    && if InHand(s, f) then f !in s.sh.onListed && f !in s.sh.afterListed
       else Listed(s.sh, f, after) || (f in s.sh.ran && s.sh.stopped && f !in s.sh.onListed && f !in s.sh.afterListed)
  }

  predicate Rightly(pc: Pc, f: Fn, after: bool) {
    match pc
    case ListLock(g, a) => g == f ==> a == after
    case ListCheck(g, a) => g == f ==> a == after
    case ListAppend(g, a) => g == f ==> a == after
    case _ => true
  }

  ghost predicate OldLists(sh: Shared) {
    (forall f :: f in sh.onListed ==> f < sh.nextFn) && (forall f :: f in sh.afterListed ==> f < sh.nextFn)
  }

  lemma CarriedOld(s: State, t: nat, f: Fn)
    requires Inv(s) && t < |s.threads| && Carries(s.threads[t], f)
    ensures f < s.sh.nextFn
    ensures forall u :: 0 <= u < |s.threads| && u != t ==> !Carries(s.threads[u], f)
  {
    hide ThreadInv, SharedInv, Carries, Placed;
    assert Placed(s.sh, f) + Carried(s.threads, f) == One(f < s.sh.nextFn);
    forall u | 0 <= u < |s.threads| && u != t && Carries(s.threads[u], f)
      ensures false
    {
      TwoCarry(s.threads, t, u, f);
    }
    OneCarries(s.threads, t, f);
  }

  lemma OneCarries(threads: seq<Pc>, t: nat, f: Fn)
    requires t < |threads| && Carries(threads[t], f)
    ensures Carried(threads, f) >= 1
  {
    hide Carries;
    CarriedUpdate(threads, t, Idle, f);
    IdleCarries(f);
  }

  lemma IdleCarries(f: Fn)
    ensures !Carries(Idle, f)
  {
  }

  lemma TwoCarry(threads: seq<Pc>, t: nat, u: nat, f: Fn)
    requires t < |threads| && u < |threads| && t != u && Carries(threads[t], f) && Carries(threads[u], f)
    ensures Carried(threads, f) >= 2
  {
    hide Carries, Carried;
    IdleCarries(f);
    CarriedUpdate(threads, t, Idle, f);
    OneCarries(threads[t := Idle], u, f);
  }

  lemma ListsStayOld(pc: Pc, sh: Shared, t: nat, call: Call)
    requires OldLists(sh) && (pc.ListAppend? ==> pc.f < sh.nextFn)
    ensures var e := Do(pc, sh, t, call); e.Effect? ==> OldLists(e.sh) && e.sh.nextFn >= sh.nextFn
  {
  }

  lemma {:induction false} RunListsOld(run: seq<State>, moves: seq<Move>, i: nat)
    requires Run(run, moves) && i < |run|
    ensures OldLists(run[i].sh)
  {
    hide Do, Inv, OldLists;
    if i == 0 {
      InitLists(run[0]);
    } else {
      RunListsOld(run, moves, i - 1);
      RunKeepsInv(run, moves, i - 1);
      var s, m := run[i - 1], moves[i - 1];
      assert Next(s, m, run[i]);
      if s.threads[m.t].ListAppend? {
        CarriedOld(s, m.t, s.threads[m.t].f);
      }
      ListsStayOld(s.threads[m.t], s.sh, m.t, m.call);
    }
  }

  lemma InitLists(s: State)
    requires Init(s)
    ensures OldLists(s.sh)
  {
  }

  /** What one step does to a function that exists already. */
  lemma FnStep(pc: Pc, sh: Shared, t: nat, call: Call, f: Fn, after: bool)
    requires f < sh.nextFn && Rightly(pc, f, after)
    ensures var e := Do(pc, sh, t, call);
      e.Effect? ==>
        && f < e.sh.nextFn && Rightly(e.pc, f, after) && (sh.stopped ==> e.sh.stopped)
        && (Carries(e.pc, f) ==> Carries(pc, f))
        && (f in e.sh.onListed <==> f in sh.onListed || (pc == ListAppend(f, false)))
        && (f in e.sh.afterListed <==> f in sh.afterListed || (pc == ListAppend(f, true)))
        && (f in sh.ran || pc == ListRun(f) ==> f in e.sh.ran)
        && (pc.ListRun? || pc.ListAppend? ==> !Carries(e.pc, f))
        && (Carries(pc, f) && !Carries(e.pc, f) ==> pc == ListRun(f) || pc == ListAppend(f, after))
  {
  }

  lemma FateStep(s: State, m: Move, s': State, f: Fn, after: bool)
    requires Inv(s) && Next(s, m, s') && Fate(s, f, after)
    ensures Fate(s', f, after)
  {
    hide Do, Inv, SharedInv, Carries, Carried, Placed, Rightly;
    var t, pc := m.t, s.threads[m.t];
    FnStep(pc, s.sh, t, m.call, f, after);
    if Carries(pc, f) {
      CarriedOld(s, t, f);
      LateRun(s, t);
      assert InHand(s, f);
      if InHand(s', f) {
        StillCarried(s, s', t, f);
      } else {
        assert !Carries(s'.threads[t], f);
      }
    } else {
      NotInHandStep(s, s', t, f);
      AppendCarries(pc, f);
    }
  }

  lemma AppendCarries(pc: Pc, f: Fn)
    requires !Carries(pc, f)
    ensures pc != ListAppend(f, false) && pc != ListAppend(f, true) && pc != ListRun(f)
  {
  }

  lemma LateRun(s: State, t: nat)
    requires Inv(s) && t < |s.threads|
    ensures s.threads[t].ListRun? ==> s.sh.stopped
  {
    hide SharedInv, Placed, Carried;
    assert ThreadInv(s.threads[t], s.sh, t);
  }

  lemma StillCarried(s: State, s': State, t: nat, f: Fn)
    requires t < |s.threads| && |s'.threads| == |s.threads| && InHand(s', f)
    requires forall u :: 0 <= u < |s.threads| && u != t ==> s'.threads[u] == s.threads[u] && !Carries(s.threads[u], f)
    ensures Carries(s'.threads[t], f)
  {
  }

  lemma NotInHandStep(s: State, s': State, t: nat, f: Fn)
    requires t < |s.threads| && |s'.threads| == |s.threads| && !Carries(s.threads[t], f) && !Carries(s'.threads[t], f)
    requires forall u :: 0 <= u < |s.threads| && u != t ==> s'.threads[u] == s.threads[u]
    ensures InHand(s', f) <==> InHand(s, f)
  {
    hide Carries;
    if u :| 0 <= u < |s.threads| && Carries(s.threads[u], f) {
      assert Carries(s'.threads[u], f);
    }
  }

  /** A function goes to the list of the call it was given to and to no other, or has been run at once because the
      group was stopped. */
  lemma {:induction false} FateAt(run: seq<State>, moves: seq<Move>, i: nat, j: nat, f: Fn, after: bool)
    requires Gives(run, moves, i, f, after) && i < j < |run|
    ensures Fate(run[j], f, after)
    decreases j
  {
    hide Fate, Inv, Init;
    RunKeepsInv(run, moves, j - 1);
    assert Next(run[j - 1], moves[j - 1], run[j]);
    if j == i + 1 {
      RunListsOld(run, moves, i);
      FirstFate(run[i], moves[i], run[j], f, after);
    } else {
      FateAt(run, moves, i, j - 1, f, after);
      FateStep(run[j - 1], moves[j - 1], run[j], f, after);
    }
  }

  lemma FirstFate(s: State, m: Move, s': State, f: Fn, after: bool)
    requires Inv(s) && OldLists(s.sh) && Next(s, m, s') && s.threads[m.t].Idle? && f == s.sh.nextFn
    requires m.call == if after then CallAfterStop else CallOnStop
    ensures Fate(s', f, after)
  {
    hide Inv;
    forall t | 0 <= t < |s.threads|
      ensures !Carries(s.threads[t], f)
    {
      if Carries(s.threads[t], f) {
        CarriedOld(s, t, f);
      }
    }
    assert s'.threads[m.t] == ListLock(f, after) && Carries(s'.threads[m.t], f);
  }

  /** A function given to OnStop is never among the AfterStop functions; once its call is over it is listed or has been
      run, and once Stop waits for the threads, Stop has run it if it was listed. */
  lemma OnStopRuns(run: seq<State>, moves: seq<Move>, i: nat, j: nat, f: Fn)
    requires Gives(run, moves, i, f, false) && i < j < |run|
    ensures f !in run[j].sh.afterListed
    ensures !InHand(run[j], f) ==> f in run[j].sh.onListed || f in run[j].sh.ran
    ensures var p := run[j].sh.progress;
      f in run[j].sh.onListed && (p.WaitAll? || p.AfterLoop? || p.Finished?) ==> f in run[j].sh.stopRan
  {
    hide ThreadInv, InHand, Rightly, Placed, Carried, Init, Next;
    FateAt(run, moves, i, j, f, false);
    RunKeepsInv(run, moves, j);
    ReversedHas(run[j].sh.onListed, f);
  }

  /** A function given to AfterStop is never among the OnStop functions; once its call is over it is listed or has been
      run; Stop runs it only when every Add has had its Done, and has run it when it is finished. */
  lemma AfterStopRuns(run: seq<State>, moves: seq<Move>, i: nat, j: nat, f: Fn)
    requires Gives(run, moves, i, f, true) && i < j < |run|
    ensures f !in run[j].sh.onListed
    ensures f in run[j].sh.stopRan ==>
      (run[j].sh.progress.AfterLoop? || run[j].sh.progress.Finished?) && run[j].sh.added == run[j].sh.done
    ensures !InHand(run[j], f) ==> f in run[j].sh.afterListed || f in run[j].sh.ran
    ensures f in run[j].sh.afterListed && run[j].sh.progress.Finished? ==> f in run[j].sh.stopRan
  {
    hide ThreadInv, InHand, Rightly, Placed, Carried, Init, Next;
    FateAt(run, moves, i, j, f, true);
    RunKeepsInv(run, moves, j);
    var sh := run[j].sh;
    ReversedHas(sh.onListed, f);
    ReversedHas(sh.afterListed, f);
    if sh.progress.OnLoop? {
      ReversedHas(sh.onListed[sh.progress.left..], f);
    }
  }

  lemma ReversedHas(s: seq<Fn>, f: Fn)
    ensures f in Reversed(s) <==> f in s
  {
    var r := Reversed(s);
    if f in s {
      var i :| 0 <= i < |s| && s[i] == f;
      assert r[|s| - 1 - i] == f;
    }
  }

  // ----- what Add, Flush and Stop have done when they return -----

  /** Thread t starts the call with move i and is not idle again before j. */
  ghost predicate During(run: seq<State>, moves: seq<Move>, i: nat, j: nat, t: nat, call: Call) {
    && Run(run, moves) && i < j < |run|
    && t < |run[i].threads| && run[i].threads[t].Idle? && moves[i] == Move(t, call)
    && forall k :: i < k < j ==> t < |run[k].threads| && !run[k].threads[t].Idle?
  }

  /** The one thing a call is for: Add counts, Flush finds nobody running in a group that is not stopped, Stop stops a
      group that was not stopped. */
  predicate Achieves(call: Call, sh: Shared, sh': Shared) {
    match call
    case CallAdd => sh'.wg == sh.wg + 1 && sh'.added == sh.added + 1 && !sh.stopped
    case CallFlush => sh.wg == 0 && sh' == sh && !sh.stopped
    case CallStop => sh'.stopped && !sh.stopped
    case _ => false
  }

  /** A step of t, after move i and before k, in which the call achieves what it is for. */
  ghost predicate Achieved(run: seq<State>, moves: seq<Move>, i: nat, k: nat, t: nat, call: Call)
    requires k < |run| <= |moves| + 1
  {
    exists m :: i < m < k && moves[m].t == t && Achieves(call, run[m].sh, run[m + 1].sh)
  }

  /** After move i and before k the group was stopped while t was in its call. */
  ghost predicate Refused(run: seq<State>, i: nat, k: nat)
    requires k < |run|
  {
    exists m :: i < m < k && run[m].sh.stopped
  }

  predicate Stage(pc: Pc, sh: Shared, call: Call, achieved: bool, refused: bool) {
    match call
    case CallAdd =>
      || pc.AddLock? || pc.AddCheck? || (pc.AddCount? && !sh.stopped)
      || ((pc.AddUnlock? || pc.Idle?) && (achieved || refused))
    case CallFlush =>
      || pc.FlushLock? || pc.FlushCheck? || (pc.FlushWait? && !sh.stopped)
      || ((pc.FlushUnlock? || pc.Idle?) && (achieved || refused))
    case CallStop =>
      || pc.StopLock? || pc.StopCheck? || (pc.StopCancel? && !sh.stopped)
      || (pc.StopRefuse? && refused) || (pc.Stopping? && achieved)
      || (pc.Idle? && (refused || (achieved && sh.progress.Finished?)))
    case _ => true
  }

  lemma FirstStage(sh: Shared, t: nat, call: Call)
    requires call.CallAdd? || call.CallFlush? || call.CallStop?
    ensures var e := Do(Idle, sh, t, call); e.Effect? && Stage(e.pc, e.sh, call, false, false)
  {
  }

  lemma OwnStage(pc: Pc, sh: Shared, t: nat, any: Call, call: Call, achieved: bool, refused: bool)
    requires Stage(pc, sh, call, achieved, refused) && !pc.Idle? && ThreadInv(pc, sh, t) && Phase(sh)
    ensures var e := Do(pc, sh, t, any);
      e.Effect? ==> Stage(e.pc, e.sh, call, achieved || Achieves(call, sh, e.sh), refused || sh.stopped)
  {
  }

  lemma OtherStage(pc: Pc, sh: Shared, sh': Shared, t: nat, call: Call, achieved: bool, refused: bool)
    requires Stage(pc, sh, call, achieved, refused) && !pc.Idle? && ThreadInv(pc, sh', t)
    ensures Stage(pc, sh', call, achieved, refused || sh.stopped)
  {
  }

  lemma StageWeakens(pc: Pc, sh: Shared, call: Call, a: bool, r: bool, a': bool, r': bool)
    requires Stage(pc, sh, call, a, r) && (a ==> a') && (r ==> r')
    ensures Stage(pc, sh, call, a', r')
  {
  }

  lemma {:induction false} StageAt(run: seq<State>, moves: seq<Move>, i: nat, j: nat, t: nat, call: Call)
    requires During(run, moves, i, j, t, call) && (call.CallAdd? || call.CallFlush? || call.CallStop?)
    ensures t < |run[j].threads|
    ensures Stage(run[j].threads[t], run[j].sh, call, Achieved(run, moves, i, j, t, call), Refused(run, i, j))
    decreases j
  {
    hide Do, Stage, Inv, Init, Achieves, ThreadInv;
    assert Next(run[j - 1], moves[j - 1], run[j]);
    var a, r := Achieved(run, moves, i, j, t, call), Refused(run, i, j);
    if j == i + 1 {
      FirstStage(run[i].sh, t, call);
      StageWeakens(run[j].threads[t], run[j].sh, call, false, false, a, r);
    } else {
      var s, m := run[j - 1], moves[j - 1];
      StageAt(run, moves, i, j - 1, t, call);
      var a0, r0 := Achieved(run, moves, i, j - 1, t, call), Refused(run, i, j - 1);
      RunKeepsInv(run, moves, j - 1);
      RunKeepsInv(run, moves, j);
      KnowsAt(s, t);
      KnowsAt(run[j], t);
      AchievedNext(run, moves, i, j, t, call);
      RefusedNext(run, i, j);
      if m.t == t {
        OwnStage(s.threads[t], s.sh, t, m.call, call, a0, r0);
        StageWeakens(run[j].threads[t], run[j].sh, call, a0 || Achieves(call, s.sh, run[j].sh), r0 || s.sh.stopped, a,
                     r);
      } else {
        assert run[j].threads[t] == s.threads[t];
        OtherStage(s.threads[t], s.sh, run[j].sh, t, call, a0, r0);
        StageWeakens(run[j].threads[t], run[j].sh, call, a0, r0 || s.sh.stopped, a, r);
      }
    }
  }

  lemma KnowsAt(s: State, t: nat)
    requires Inv(s) && t < |s.threads|
    ensures ThreadInv(s.threads[t], s.sh, t) && Phase(s.sh)
  {
    hide Placed, Carried;
  }

  lemma AchievedNext(run: seq<State>, moves: seq<Move>, i: nat, j: nat, t: nat, call: Call)
    requires i + 1 < j < |run| == |moves| + 1
    ensures Achieved(run, moves, i, j - 1, t, call) ==> Achieved(run, moves, i, j, t, call)
    ensures moves[j - 1].t == t && Achieves(call, run[j - 1].sh, run[j].sh) ==> Achieved(run, moves, i, j, t, call)
  {
    hide Achieves;
    if Achieved(run, moves, i, j - 1, t, call) {
      var m :| i < m < j - 1 && moves[m].t == t && Achieves(call, run[m].sh, run[m + 1].sh);
      assert i < m < j;
    }
  }

  lemma RefusedNext(run: seq<State>, i: nat, j: nat)
    requires i + 1 < j < |run|
    ensures Refused(run, i, j - 1) || run[j - 1].sh.stopped ==> Refused(run, i, j)
  {
  }

  /** When Add, Flush or Stop returns it has done what it is for, or the group was stopped while it ran; and when Stop
      returns otherwise, it has run all the listed functions. */
  lemma CallDoes(run: seq<State>, moves: seq<Move>, i: nat, j: nat, t: nat, call: Call)
    requires During(run, moves, i, j, t, call) && (call.CallAdd? || call.CallFlush? || call.CallStop?)
    requires t < |run[j].threads| && run[j].threads[t].Idle?
    ensures Achieved(run, moves, i, j, t, call) || Refused(run, i, j)
    ensures call.CallStop? && !Refused(run, i, j) ==> run[j].sh.progress.Finished?
  {
    hide Achieved, Refused, Run;
    StageAt(run, moves, i, j, t, call);
  }

  // ----- who may change what -----

  /** Only Add and Done change the wait group, only Stop stops, only OnStop and AfterStop add to the lists, and only
      they and Stop run functions. */
  lemma StepFrame(pc: Pc, sh: Shared, t: nat, call: Call)
    ensures var e := Do(pc, sh, t, call);
      e.Effect? ==>
        && (e.sh.wg > sh.wg || e.sh.added != sh.added ==> pc.AddCount?)
        && (e.sh.wg < sh.wg || e.sh.done != sh.done ==> pc.Idle? && call.CallDone?)
        && (e.sh.stopped != sh.stopped ==> pc.StopCancel? && e.sh.stopped)
        && (e.sh.onListed != sh.onListed || e.sh.afterListed != sh.afterListed ==> pc.ListAppend?)
        && (e.sh.ran != sh.ran ==> pc.ListRun? || pc.Stopping?)
        && (e.sh.stopRan != sh.stopRan ==> pc.Stopping?)
        && (e.sh.progress != sh.progress ==> pc.StopCancel? || pc.Stopping?)
        && (pc.Idle? && call.CallDone? ==> e.pc.Idle? && e.sh.wg == sh.wg - 1 && e.sh.done == sh.done + 1)
  {
  }

  // ----- getting there -----

  /** How many more steps Stop takes once it has cancelled. */
  function ShutdownLeft(sh: Shared): nat {
    match sh.progress
    case NotStopped => |sh.onStopFns| + |sh.afterStopFns| + 7
    case UnlockB => |sh.onStopFns| + |sh.afterStopFns| + 6
    case LockM => |sh.onStopFns| + |sh.afterStopFns| + 5
    case UnlockM => |sh.onStopFns| + |sh.afterStopFns| + 4
    case OnLoop(i) => i + |sh.afterStopFns| + 3
    case WaitAll => |sh.afterStopFns| + 2
    case AfterLoop(i) => i + 1
    case Finished => 0
  }

  function StepsLeft(pc: Pc, sh: Shared): nat {
    match pc
    case Idle => 0
    case AddUnlock => 1
    case FlushUnlock => 1
    case ListUnlock => 1
    case StopRefuse => 1
    case AddCount => 2
    case FlushWait => 2
    case ListRun(_) => 2
    case ListAppend(_, _) => 2
    case AddCheck => 3
    case FlushCheck => 3
    case ListCheck(_, _) => 3
    case AddLock => 4
    case FlushLock => 4
    case ListLock(_, _) => 4
    case StopLock => ShutdownLeft(sh) + 9
    case StopCheck => ShutdownLeft(sh) + 8
    case StopCancel => ShutdownLeft(sh) + 7
    case Stopping => ShutdownLeft(sh)
  }

  /** Every step of a call brings it closer to its end. */
  lemma GetsCloser(pc: Pc, sh: Shared, t: nat, call: Call)
    requires ThreadInv(pc, sh, t) && Phase(sh) && !pc.Idle?
    ensures var e := Do(pc, sh, t, call); e.Effect? ==> StepsLeft(e.pc, e.sh) < StepsLeft(pc, sh)
  {
  }

  // ----- waiting -----

  ghost predicate SomeHoldsB(s: State) { exists u :: 0 <= u < |s.threads| && HoldsB(s.threads[u], s.sh) }

  ghost predicate SomeHoldsM(s: State) { exists u :: 0 <= u < |s.threads| && HoldsM(s.threads[u], s.sh) }

  /** A step waits if and only if it takes a mutex that somebody has, or waits for threads that are not done. */
  lemma WaitsIff(run: seq<State>, moves: seq<Move>, i: nat, t: nat, call: Call)
    requires Run(run, moves) && i < |run| && t < |run[i].threads|
    ensures var s := run[i];
      var pc := s.threads[t];
      Do(pc, s.sh, t, call).Blocked? <==>
        || ((pc.AddLock? || pc.FlushLock? || pc.StopLock?) && SomeHoldsB(s))
        || ((pc.ListLock? || (pc.Stopping? && s.sh.progress.LockM?)) && SomeHoldsM(s))
        || ((pc.FlushWait? || (pc.Stopping? && s.sh.progress.WaitAll?)) && s.sh.wg > 0)
        || (pc.Idle? && call.CallDone? && s.sh.wg == 0)
  {
    RunKeepsInv(run, moves, i);
    OwnersKnown(run, moves, i);
    KnowsAt(run[i], t);
    ShutdownSteps(run[i], t);
    hide Inv, Run, SomeHoldsB, SomeHoldsM, Shutdown, SharedInv;
  }

  lemma ShutdownSteps(s: State, t: nat)
    requires Inv(s) && t < |s.threads| && ThreadInv(s.threads[t], s.sh, t)
    ensures s.threads[t].Stopping? ==>
      (Shutdown(s.sh, t).Blocked? <==>
         (s.sh.progress.LockM? && !s.sh.mu.Free?) || (s.sh.progress.WaitAll? && s.sh.wg > 0))
  {
    hide Placed, Carried, Reversed;
  }

  /** Mutexes belong to threads of the group. */
  ghost predicate OwnersIn(s: State) {
    && (s.sh.bmu.By? ==> s.sh.bmu.t < |s.threads|) && (s.sh.mu.By? ==> s.sh.mu.t < |s.threads|)
  }

  lemma {:induction false} RunOwnersIn(run: seq<State>, moves: seq<Move>, i: nat)
    requires Run(run, moves) && i < |run|
    ensures OwnersIn(run[i])
  {
    hide Do, Append;
    if i > 0 {
      RunOwnersIn(run, moves, i - 1);
      var s, m := run[i - 1], moves[i - 1];
      assert Next(s, m, run[i]);
      OwnersFrom(s.threads[m.t], s.sh, m.t, m.call);
    }
  }

  lemma OwnersFrom(pc: Pc, sh: Shared, t: nat, call: Call)
    ensures var e := Do(pc, sh, t, call);
      e.Effect? ==>
        && (e.sh.bmu.By? ==> e.sh.bmu == sh.bmu || e.sh.bmu.t == t)
        && (e.sh.mu.By? ==> e.sh.mu == sh.mu || e.sh.mu.t == t)
  {
  }

  lemma OwnersKnown(run: seq<State>, moves: seq<Move>, i: nat)
    requires Run(run, moves) && i < |run|
    ensures SomeHoldsB(run[i]) <==> run[i].sh.bmu.By?
    ensures SomeHoldsM(run[i]) <==> run[i].sh.mu.By?
  {
    hide SharedInv, Placed, Carried, Next, Init, HoldsB, HoldsM;
    RunKeepsInv(run, moves, i);
    RunOwnersIn(run, moves, i);
    var s := run[i];
    if s.sh.bmu.By? {
      assert ThreadInv(s.threads[s.sh.bmu.t], s.sh, s.sh.bmu.t);
    }
    if s.sh.mu.By? {
      assert ThreadInv(s.threads[s.sh.mu.t], s.sh, s.sh.mu.t);
    }
  }
}
