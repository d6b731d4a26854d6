/** What the calls of sync/limiter.go do for their callers: what each has done when it returns, what it waits for, and
    that it gets there. */
module LimiterCalls {
  import opened Common
  import opened Limiter

  // ----- what a call has done when it returns -----

  /** Thread t starts the call with move i and has not returned before j. */
  ghost predicate During(run: seq<State>, moves: seq<Move>, i: nat, j: nat, t: nat, call: Call) {
    && Run(run, moves) && i < j < |run|
    && t < |run[i].pcs| && run[i].pcs[t].Idle? && moves[i] == Move(t, call)
    && forall k :: i < k < j ==> t < |run[k].pcs| && !run[k].pcs[t].Idle?
  }

  /** The change a call is for: a Request takes its units unless it is cancelled, a Release gives its units back,
      SetLimit sets the limit, and a cancellation reaches its request. */
  predicate Achieves(call: Call, sh: Shared, sh': Shared) {
    match call
    case CallRequest(n) =>
      && sh.requests !in sh.cancelled && sh'.current == sh.current + n && sh'.granted == sh.granted + n
      && sh'.limit == sh.limit && sh'.released == sh.released
    case CallRelease(n) =>
      && sh'.current == sh.current - n && sh'.released == sh.released + n
      && sh'.granted == sh.granted && sh'.limit == sh.limit
    case CallSetLimit(limit) =>
      sh'.limit == limit && sh'.current == sh.current && sh'.granted == sh.granted && sh'.released == sh.released
    case Cancel(r) => r in sh'.cancelled && sh'.current == sh.current && sh'.limit == sh.limit
    case GiveUp => false
  }

  /** The first sleeper, if there is one, is woken. */
  predicate Wakes(sh: Shared, sh': Shared) {
    if sh.waiting == [] then sh' == sh
    else sh' == sh.(waiting := sh.waiting[1..], woken := sh.woken + {sh.waiting[0]})
  }

  /** The request is turned down: it gave up before it was served, or was cancelled while it was. */
  predicate Denies(pc: Pc, m: Move, sh: Shared) {
    (pc.ReqSelect? && m.call.GiveUp?) || (HoldsMu(pc) && sh.requests in sh.cancelled)
  }

  /** Steps of t after move i and before k: the call's change, a signal behind it, and a denial. */
  ghost predicate Achieved(run: seq<State>, moves: seq<Move>, i: nat, k: nat, t: nat, call: Call)
    requires k < |run| <= |moves| + 1
  {
    exists m :: i < m < k && moves[m].t == t && Achieves(call, run[m].sh, run[m + 1].sh)
  }

  ghost predicate Signalled(run: seq<State>, moves: seq<Move>, i: nat, k: nat, t: nat, call: Call)
    requires k < |run| <= |moves| + 1
  {
    exists m :: i < m < k && moves[m].t == t && Wakes(run[m].sh, run[m + 1].sh) && Achieved(run, moves, i, m, t, call)
  }

  ghost predicate Denied(run: seq<State>, moves: seq<Move>, i: nat, k: nat, t: nat)
    requires k < |run| <= |moves| + 1
  {
    exists m :: i < m < k && moves[m].t == t && t < |run[m].pcs| && Denies(run[m].pcs[t], moves[m], run[m].sh)
  }

  predicate Stage(pc: Pc, call: Call, achieved: bool, signalled: bool, denied: bool) {
    match call
    case CallRequest(n) =>
      || ((pc.ReqSelect? || pc.ReqLock? || pc.ReqTest? || pc.ReqAsleep? || pc.ReqAwake? || pc.ReqGrant?) && pc.n == n)
      || ((pc.ReqUnlock? || pc.ReqReturn? || pc.Idle?) && (achieved || denied))
    case CallRelease(n) =>
      || pc == RelLock(n) || pc == RelSub(n) || ((pc.RelUnlock? || pc.RelSignal? || pc.Panicked?) && achieved)
      || (pc.Idle? && signalled)
    case CallSetLimit(limit) =>
      || pc == SetLock(limit) || pc == SetWrite(limit) || ((pc.SetUnlock? || pc.SetSignal?) && achieved)
      || (pc.Idle? && signalled)
    case Cancel(r) =>
      || pc == CanLock(r) || pc == CanWrite(r) || ((pc.CanUnlock? || pc.CanSignal?) && achieved)
      || (pc.Idle? && signalled)
    case GiveUp => false
  }

  lemma FirstStage(sh: Shared, t: nat, call: Call)
    ensures var e := Do(Idle, sh, t, call); e.Effect? ==> Stage(e.pc, call, false, false, false)
  {
  }

  lemma NextStage(pc: Pc, sh: Shared, t: nat, m: Move, call: Call, achieved: bool, signalled: bool, denied: bool)
    requires Stage(pc, call, achieved, signalled, denied) && !pc.Idle? && m.t == t
    ensures var e := Do(pc, sh, t, m.call);
      e.Effect? ==>
        Stage(e.pc, call, achieved || Achieves(call, sh, e.sh), signalled || (achieved && Wakes(sh, e.sh)),
              denied || Denies(pc, m, sh))
  {
  }

  lemma StageWeakens(pc: Pc, call: Call, a: bool, s: bool, d: bool, a': bool, s': bool, d': bool)
    requires Stage(pc, call, a, s, d) && (a ==> a') && (s ==> s') && (d ==> d')
    ensures Stage(pc, call, a', s', d')
  {
  }

  lemma AchievedGrows(run: seq<State>, moves: seq<Move>, i: nat, j: nat, t: nat, call: Call)
    requires i + 1 < j < |run| == |moves| + 1
    ensures Achieved(run, moves, i, j - 1, t, call) ==> Achieved(run, moves, i, j, t, call)
    ensures moves[j - 1].t == t && Achieves(call, run[j - 1].sh, run[j].sh) ==> Achieved(run, moves, i, j, t, call)
  {
    hide Achieves;
    if Achieved(run, moves, i, j - 1, t, call) {
      var m :| i < m < j - 1 && moves[m].t == t && Achieves(call, run[m].sh, run[m + 1].sh);
      assert i < m < j;
    }
  }

  lemma SignalledGrows(run: seq<State>, moves: seq<Move>, i: nat, j: nat, t: nat, call: Call)
    requires i + 1 < j < |run| == |moves| + 1
    ensures Signalled(run, moves, i, j - 1, t, call) ==> Signalled(run, moves, i, j, t, call)
    ensures moves[j - 1].t == t && Wakes(run[j - 1].sh, run[j].sh) && Achieved(run, moves, i, j - 1, t, call) ==>
      Signalled(run, moves, i, j, t, call)
  {
    hide Achieved, Wakes;
    if Signalled(run, moves, i, j - 1, t, call) {
      var m :| i < m < j - 1 && moves[m].t == t && Wakes(run[m].sh, run[m + 1].sh) &&
        Achieved(run, moves, i, m, t, call);
      assert i < m < j;
    }
  }

  lemma DeniedGrows(run: seq<State>, moves: seq<Move>, i: nat, j: nat, t: nat)
    requires i + 1 < j < |run| == |moves| + 1 && t < |run[j - 1].pcs|
    ensures Denied(run, moves, i, j - 1, t) ==> Denied(run, moves, i, j, t)
    ensures moves[j - 1].t == t && Denies(run[j - 1].pcs[t], moves[j - 1], run[j - 1].sh) ==>
      Denied(run, moves, i, j, t)
  {
    hide Denies;
    if Denied(run, moves, i, j - 1, t) {
      var m :| i < m < j - 1 && moves[m].t == t && t < |run[m].pcs| && Denies(run[m].pcs[t], moves[m], run[m].sh);
      assert i < m < j;
    }
  }

  lemma {:induction false} StageAt(run: seq<State>, moves: seq<Move>, i: nat, j: nat, t: nat, call: Call)
    requires During(run, moves, i, j, t, call)
    ensures t < |run[j].pcs|
    ensures Stage(run[j].pcs[t], call, Achieved(run, moves, i, j, t, call), Signalled(run, moves, i, j, t, call),
                  Denied(run, moves, i, j, t))
    decreases j
  {
    hide Do, Stage, Achieves, Wakes, Denies, Achieved, Signalled, Denied, Init;
    assert Next(run[j - 1], moves[j - 1], run[j]);
    var a, s, d :=
      Achieved(run, moves, i, j, t, call), Signalled(run, moves, i, j, t, call), Denied(run, moves, i, j, t);
    if j == i + 1 {
      FirstStage(run[i].sh, t, call);
      StageWeakens(run[j].pcs[t], call, false, false, false, a, s, d);
    } else {
      StageAt(run, moves, i, j - 1, t, call);
      AchievedGrows(run, moves, i, j, t, call);
      SignalledGrows(run, moves, i, j, t, call);
      DeniedGrows(run, moves, i, j, t);
      var st, m := run[j - 1], moves[j - 1];
      var a0, s0, d0 :=
        Achieved(run, moves, i, j - 1, t, call), Signalled(run, moves, i, j - 1, t, call),
        Denied(run, moves, i, j - 1, t);
      if m.t == t {
        NextStage(st.pcs[t], st.sh, t, m, call, a0, s0, d0);
        StageWeakens(run[j].pcs[t], call, a0 || Achieves(call, st.sh, run[j].sh),
                     s0 || (a0 && Wakes(st.sh, run[j].sh)), d0 || Denies(st.pcs[t], m, st.sh), a, s, d);
      } else {
        assert run[j].pcs[t] == st.pcs[t];
        StageWeakens(run[j].pcs[t], call, a0, s0, d0, a, s, d);
      }
    }
  }

  /** A Request that returns has taken exactly its units, or gave up or was cancelled; a Release, SetLimit or
      cancellation that returns has made its change and signalled after it. */
  lemma CallDoes(run: seq<State>, moves: seq<Move>, i: nat, j: nat, t: nat, call: Call)
    requires During(run, moves, i, j, t, call) && t < |run[j].pcs| && run[j].pcs[t].Idle?
    ensures call.CallRequest? ==> Achieved(run, moves, i, j, t, call) || Denied(run, moves, i, j, t)
    ensures !call.CallRequest? ==> Signalled(run, moves, i, j, t, call)
  {
    hide Run, Achieved, Signalled, Denied;
    StageAt(run, moves, i, j, t, call);
  }

  /** Units are taken only by a request that is being served, and given back only by Release; only SetLimit sets the
      limit, and only a cancellation cancels. */
  lemma StepFrame(pc: Pc, sh: Shared, t: nat, call: Call)
    ensures var e := Do(pc, sh, t, call);
      e.Effect? ==>
        && (e.sh.granted != sh.granted ==> pc.ReqGrant? && sh.requests !in sh.cancelled)
        && (e.sh.released != sh.released ==> pc.RelSub?)
        && (e.sh.limit != sh.limit ==> pc.SetWrite?)
        && (e.sh.cancelled != sh.cancelled ==> pc.CanWrite?)
        && (e.sh.waiting != sh.waiting ==> pc.ReqTest? || pc.RelSignal? || pc.SetSignal? || pc.CanSignal?)
        && (pc.ReqGrant? && sh.requests !in sh.cancelled ==> e.sh.granted == sh.granted + pc.n)
  {
  }

  // ----- waiting -----

  ghost predicate SomeHoldsMu(s: State) { exists u :: 0 <= u < |s.pcs| && HoldsMu(s.pcs[u]) }

  ghost predicate SomeHoldsL(s: State) { exists u :: 0 <= u < |s.pcs| && HoldsL(s.pcs[u]) }

  ghost predicate OwnersIn(s: State) {
    (s.sh.mu.By? ==> s.sh.mu.t < |s.pcs|) && (s.sh.l.By? ==> s.sh.l.t < |s.pcs|)
  }

  lemma OwnersFrom(pc: Pc, sh: Shared, t: nat, call: Call)
    ensures var e := Do(pc, sh, t, call);
      e.Effect? ==>
        (e.sh.mu.By? ==> e.sh.mu == sh.mu || e.sh.mu.t == t) && (e.sh.l.By? ==> e.sh.l == sh.l || e.sh.l.t == t)
  {
  }

  lemma {:induction false} RunOwnersIn(run: seq<State>, moves: seq<Move>, i: nat)
    requires Run(run, moves) && i < |run|
    ensures OwnersIn(run[i])
  {
    hide Do;
    if i > 0 {
      RunOwnersIn(run, moves, i - 1);
      var s, m := run[i - 1], moves[i - 1];
      assert Next(s, m, run[i]);
      OwnersFrom(s.pcs[m.t], s.sh, m.t, m.call);
    }
  }

  lemma OwnersKnown(run: seq<State>, moves: seq<Move>, i: nat)
    requires Run(run, moves) && i < |run|
    ensures SomeHoldsMu(run[i]) <==> run[i].sh.mu.By?
    ensures SomeHoldsL(run[i]) <==> run[i].sh.l.By?
  {
    hide SharedInv, Next, Init, HoldsMu, HoldsL;
    RunKeepsInv(run, moves, i);
    RunOwnersIn(run, moves, i);
    var s := run[i];
    if s.sh.mu.By? {
      assert ThreadInv(s.pcs[s.sh.mu.t], s.sh, s.sh.mu.t);
    }
    if s.sh.l.By? {
      assert ThreadInv(s.pcs[s.sh.l.t], s.sh, s.sh.l.t);
    }
  }

  predicate AtL(pc: Pc) { pc.ReqLock? || pc.ReqAwake? || pc.RelLock? || pc.SetLock? || pc.CanLock? }

  /** A thread waits if and only if it wants the request lock or the lock of the condition variable while somebody has
      it, or sleeps and has not been woken, or has panicked; an idle one has nothing to give up, and cannot cancel a
      request that is not there. */
  lemma WaitsIff(run: seq<State>, moves: seq<Move>, i: nat, t: nat, call: Call)
    requires Run(run, moves) && i < |run| && t < |run[i].pcs|
    ensures var s := run[i];
      var pc := s.pcs[t];
      Do(pc, s.sh, t, call).Blocked? <==>
        || (pc.ReqSelect? && !call.GiveUp? && SomeHoldsMu(s))
        || (AtL(pc) && SomeHoldsL(s))
        || (pc.ReqAsleep? && t !in s.sh.woken)
        || pc.Panicked?
        || (pc.Idle? && (call.GiveUp? || (call.Cancel? && call.r > s.sh.requests)))
  {
    OwnersKnown(run, moves, i);
    hide Run, SomeHoldsMu, SomeHoldsL;
  }

  // ----- getting there -----

  function StepsLeft(pc: Pc): nat {
    match pc
    case Idle => 0
    case Panicked => 0
    case ReqReturn => 1
    case RelSignal => 1
    case SetSignal => 1
    case CanSignal => 1
    case ReqUnlock => 2
    case RelUnlock => 2
    case SetUnlock => 2
    case CanUnlock => 2
    case ReqGrant(_) => 3
    case RelSub(_) => 3
    case SetWrite(_) => 3
    case CanWrite(_) => 3
    case ReqTest(_) => 4
    case RelLock(_) => 4
    case SetLock(_) => 4
    case CanLock(_) => 4
    case ReqAwake(_) => 5
    case ReqLock(_) => 5
    case ReqAsleep(_) => 6
    case ReqSelect(_) => 6
  }

  /** Every step of a call brings it closer to its end, but for going to sleep, which it does if and only if it has to
      wait. */
  lemma GetsCloser(pc: Pc, sh: Shared, t: nat, call: Call)
    requires !pc.Idle?
    ensures var e := Do(pc, sh, t, call);
      e.Effect? ==>
        if pc.ReqTest? && Waits(sh) then e.pc == ReqAsleep(pc.n) && e.sh.waiting == sh.waiting + [t]
        else StepsLeft(e.pc) < StepsLeft(pc)
  {
  }

  /** A request has to wait if and only if its units do not fit under the limit next to those that are out, and some
      are out, and it is not cancelled. */
  lemma WaitsWhen(run: seq<State>, moves: seq<Move>, i: nat, t: nat)
    requires Run(run, moves) && i < |run| && t < |run[i].pcs| && run[i].pcs[t].ReqTest?
    ensures var sh, n := run[i].sh, run[i].pcs[t].n;
      Waits(sh) <==>
        sh.granted - sh.released + n > sh.limit && sh.granted != sh.released && sh.requests !in sh.cancelled
  {
    hide Next, Init;
    RunKeepsInv(run, moves, i);
    assert ThreadInv(run[i].pcs[t], run[i].sh, t);
  }
}
