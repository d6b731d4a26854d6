/** sync/limiter.go as a step system.

    Taking or leaving a lock, testing the wait condition, going to sleep on the condition
    variable, changing a field and signalling are one step each.  Any finite number of threads
    make any calls in any order, also a Release of units that were never granted.
 */
module Limiter {
  import opened Common

  /** GiveUp takes the cancel branch of Request's first select.  Cancel is the goroutine that a
      request starts, once the request's cancel channel is closed. */
  datatype Call =
    | CallRequest(n: nat)
    | GiveUp
    | CallRelease(n: nat)
    | CallSetLimit(limit: int)
    | Cancel(r: nat)

  datatype Pc =
    | Idle
    | ReqSelect(n: nat)      // waiting for l.mu or for cancel
    | ReqLock(n: nat)        // has l.mu, about to lock cond.L
    | ReqTest(n: nat)        // about to test the wait condition
    | ReqAsleep(n: nat)      // in cond.Wait
    | ReqAwake(n: nat)       // signalled, about to lock cond.L again
    | ReqGrant(n: nat)       // out of the loop
    | ReqUnlock              // about to unlock cond.L
    | ReqReturn              // about to give l.mu back
    | RelLock(n: nat) | RelSub(n: nat) | RelUnlock | RelSignal
    | SetLock(limit: int) | SetWrite(limit: int) | SetUnlock | SetSignal
    | CanLock(r: nat) | CanWrite(r: nat) | CanUnlock | CanSignal
    | Panicked

  /** waiting is the notify list of the condition variable and woken the threads it has let go.
      requests numbers the calls that got l.mu; the newest of them is being served with size
      asked.  The history counts units granted and released, and whether a Release has panicked. */
  datatype Shared = Shared(
    limit: int, current: int, mu: Owner, l: Owner, waiting: seq<nat>, woken: set<nat>,
    requests: nat, asked: nat, cancelled: set<nat>,
    // history
    granted: nat, released: nat, panicked: bool)

  datatype State = State(pcs: seq<Pc>, sh: Shared)

  datatype Effect = Blocked | Effect(pc: Pc, sh: Shared)

  /** The condition of Request's loop, for the request being served. */
  predicate Waits(sh: Shared) {
    sh.current + sh.asked > sh.limit && sh.current != 0 && sh.requests !in sh.cancelled
  }

  function TakeL(sh: Shared, t: nat, pc: Pc): Effect {
    if sh.l.Free? then Effect(pc, sh.(l := By(t))) else Blocked
  }

  function LeaveL(sh: Shared, pc: Pc): Effect { Effect(pc, sh.(l := Free)) }

  /** cond.Signal: the first sleeper, if there is one. */
  function Signal(sh: Shared): Effect {
    Effect(Idle, if sh.waiting == [] then sh else sh.(waiting := sh.waiting[1..], woken := sh.woken + {sh.waiting[0]}))
  }

  function Start(sh: Shared, call: Call): Effect {
    match call
    case CallRequest(n) => Effect(ReqSelect(n), sh)
    case GiveUp => Blocked
    case CallRelease(n) => Effect(RelLock(n), sh)
    case CallSetLimit(limit) => Effect(SetLock(limit), sh)
    case Cancel(r) => if r <= sh.requests then Effect(CanLock(r), sh) else Blocked
  }

  function Do(pc: Pc, sh: Shared, t: nat, call: Call): Effect {
    match pc
    case Idle => Start(sh, call)
    case ReqSelect(n) =>
      if call.GiveUp? then Effect(Idle, sh)
      else if sh.mu.Free? then Effect(ReqLock(n), sh.(mu := By(t), requests := sh.requests + 1, asked := n))
      else Blocked
    case ReqLock(n) => TakeL(sh, t, ReqTest(n))
    case ReqTest(n) =>
      if Waits(sh) then Effect(ReqAsleep(n), sh.(l := Free, waiting := sh.waiting + [t]))
      else Effect(ReqGrant(n), sh)
    case ReqAsleep(n) => if t in sh.woken then Effect(ReqAwake(n), sh.(woken := sh.woken - {t})) else Blocked
    case ReqAwake(n) => TakeL(sh, t, ReqTest(n))
    case ReqGrant(n) =>
      if sh.requests in sh.cancelled then Effect(ReqUnlock, sh)
      else Effect(ReqUnlock, sh.(current := sh.current + n, granted := sh.granted + n))
    case ReqUnlock => LeaveL(sh, ReqReturn)
    case ReqReturn => Effect(Idle, sh.(mu := Free))
    case RelLock(n) => TakeL(sh, t, RelSub(n))
    case RelSub(n) =>
      if sh.current - n < 0 then
        Effect(Panicked, sh.(current := sh.current - n, released := sh.released + n, l := Free, panicked := true))
      else Effect(RelUnlock, sh.(current := sh.current - n, released := sh.released + n))
    case RelUnlock => LeaveL(sh, RelSignal)
    case RelSignal => Signal(sh)
    case SetLock(limit) => TakeL(sh, t, SetWrite(limit))
    case SetWrite(limit) => Effect(SetUnlock, sh.(limit := limit))
    case SetUnlock => LeaveL(sh, SetSignal)
    case SetSignal => Signal(sh)
    case CanLock(r) => TakeL(sh, t, CanWrite(r))
    case CanWrite(r) => Effect(CanUnlock, sh.(cancelled := sh.cancelled + {r}))
    case CanUnlock => LeaveL(sh, CanSignal)
    case CanSignal => Signal(sh)
    case Panicked => Blocked
  }

  datatype Move = Move(t: nat, call: Call)

  ghost predicate Next(s: State, m: Move, s': State) {
    && m.t < |s.pcs|
    && var e := Do(s.pcs[m.t], s.sh, m.t, m.call);
    && e.Effect?
    && s' == State(s.pcs[m.t := e.pc], e.sh)
  }

  ghost predicate Init(s: State) {
    && (forall t :: 0 <= t < |s.pcs| ==> s.pcs[t] == Idle)
    && s.sh == Shared(s.sh.limit, 0, Free, Free, [], {}, 0, 0, {}, 0, 0, false)
  }

  // ----- what a thread knows -----

  predicate HoldsMu(pc: Pc) {
    pc.ReqLock? || pc.ReqTest? || pc.ReqAsleep? || pc.ReqAwake? || pc.ReqGrant? || pc.ReqUnlock? || pc.ReqReturn?
  }

  predicate HoldsL(pc: Pc) {
    || pc.ReqTest? || pc.ReqGrant? || pc.ReqUnlock?
    || pc.RelSub? || pc.RelUnlock? || pc.SetWrite? || pc.SetUnlock? || pc.CanWrite? || pc.CanUnlock?
  }

  predicate ThreadInv(pc: Pc, sh: Shared, t: nat) {
    && (HoldsMu(pc) <==> sh.mu == By(t))
    && (HoldsL(pc) <==> sh.l == By(t))
    && (pc.ReqAsleep? <==> t in sh.waiting || t in sh.woken)
    && (HoldsMu(pc) && !pc.ReqUnlock? && !pc.ReqReturn? ==> pc.n == sh.asked)
    && (pc.ReqGrant? ==> !Waits(sh))
    && (pc.Panicked? ==> sh.panicked)
  }

  /** At most the thread that holds l.mu sleeps, and once woken it is off the list. */
  predicate SharedInv(sh: Shared) {
    && (sh.waiting != [] ==> sh.mu.By? && sh.waiting == [sh.mu.t] && sh.mu.t !in sh.woken)
    && sh.current == sh.granted - sh.released
    && (!sh.panicked ==> sh.current >= 0)
  }

  /** A thread that has changed a field and has yet to signal. */
  predicate Signalling(pc: Pc) {
    pc.RelUnlock? || pc.RelSignal? || pc.SetUnlock? || pc.SetSignal? || pc.CanUnlock? || pc.CanSignal?
  }

  lemma OwnKept(pc: Pc, sh: Shared, t: nat, call: Call)
    requires ThreadInv(pc, sh, t) && SharedInv(sh)
    ensures var e := Do(pc, sh, t, call); e.Effect? ==> ThreadInv(e.pc, e.sh, t) && SharedInv(e.sh)
  {
    hide ThreadInv, SharedInv;
    OwnThread(pc, sh, t, call);
    OwnShared(pc, sh, t, call);
  }

  lemma OwnThread(pc: Pc, sh: Shared, t: nat, call: Call)
    requires ThreadInv(pc, sh, t) && SharedInv(sh)
    ensures var e := Do(pc, sh, t, call); e.Effect? ==> ThreadInv(e.pc, e.sh, t)
  {
    hide Start;
    if pc.Idle? {
      OwnStart(pc, sh, t, call);
    }
  }

  lemma OwnStart(pc: Pc, sh: Shared, t: nat, call: Call)
    requires ThreadInv(pc, sh, t) && pc.Idle?
    ensures var e := Start(sh, call); e.Effect? ==> ThreadInv(e.pc, e.sh, t)
  {
  }

  lemma OwnShared(pc: Pc, sh: Shared, t: nat, call: Call)
    requires ThreadInv(pc, sh, t) && SharedInv(sh)
    ensures var e := Do(pc, sh, t, call); e.Effect? ==> SharedInv(e.sh)
  {
  }

  lemma OtherKept(pc: Pc, sh: Shared, t: nat, call: Call, other: Pc, u: nat)
    requires ThreadInv(pc, sh, t) && ThreadInv(other, sh, u) && SharedInv(sh) && t != u
    ensures var e := Do(pc, sh, t, call); e.Effect? ==> ThreadInv(other, e.sh, u)
  {
  }

  /** A Release that takes back more than current, and with it the reason why somebody sleeps. */
  predicate Undercuts(pc: Pc, sh: Shared) {
    pc.RelSub? && sh.current < pc.n && sh.waiting != [] && sh.current - pc.n + sh.asked <= sh.limit
  }

  /** A change that a signal follows, or a panic that gives the sleeper a reason to sleep again. */
  predicate Mending(pc: Pc, sh: Shared) {
    || pc.SetWrite? || pc.CanWrite?
    || (pc.RelSub? && sh.current >= pc.n)
    || (pc.RelSub? && sh.current - pc.n + sh.asked > sh.limit && sh.requests !in sh.cancelled)
  }

  /** Somebody sleeps without a reason. */
  predicate Idles(sh: Shared) { sh.waiting != [] && !Waits(sh) }

  /** A step without a signal makes somebody sleep for no reason exactly by undercutting; one that
      sends a signal leaves nobody asleep, and one that promises a signal mends. */
  lemma IdlesStep(pc: Pc, sh: Shared, t: nat, call: Call)
    requires ThreadInv(pc, sh, t) && SharedInv(sh)
    ensures var e := Do(pc, sh, t, call);
      e.Effect? ==>
        && (!Signalling(pc) && !Signalling(e.pc) ==>
              (Idles(e.sh) <==> Undercuts(pc, sh) || (Idles(sh) && !Mending(pc, sh))))
        && (Signalling(pc) && !Signalling(e.pc) ==> e.sh.waiting == [])
        && (Signalling(e.pc) ==> !Undercuts(pc, sh) && (Signalling(pc) || Mending(pc, sh)))
  {
    if sh.waiting != [] {
      assert sh.waiting[0] in sh.waiting && sh.waiting[1..] == [];
    }
  }

  // ----- all threads together -----

  /** How many signals are still to come. */
  function Signals(pcs: seq<Pc>): nat {
    if pcs == [] then 0 else Signals(pcs[..|pcs| - 1]) + One(Signalling(pcs[|pcs| - 1]))
  }

  lemma {:induction false} SignalsUpdate(pcs: seq<Pc>, t: nat, pc: Pc)
    requires t < |pcs|
    ensures Signals(pcs[t := pc]) + One(Signalling(pcs[t])) == Signals(pcs) + One(Signalling(pc))
    ensures One(Signalling(pcs[t])) <= Signals(pcs)
  {
    hide Signalling;
    var n := |pcs| - 1;
    if t == n {
      assert pcs[t := pc][..n] == pcs[..n];
    } else {
      SignalsUpdate(pcs[..n], t, pc);
      assert pcs[t := pc][..n] == pcs[..n][t := pc];
    }
  }

  ghost predicate Inv(s: State) {
    && (forall t :: 0 <= t < |s.pcs| ==> ThreadInv(s.pcs[t], s.sh, t))
    && SharedInv(s.sh)
  }

  lemma InitInv(s: State)
    requires Init(s)
    ensures Inv(s)
  {
  }

  lemma StepKeepsInv(s: State, m: Move, s': State)
    requires Inv(s) && Next(s, m, s')
    ensures Inv(s')
  {
    hide Do, ThreadInv, SharedInv;
    var t := m.t;
    var pc := s.pcs[t];
    OwnKept(pc, s.sh, t, m.call);
    forall u | 0 <= u < |s.pcs| && u != t
      ensures ThreadInv(s'.pcs[u], s'.sh, u)
    {
      OtherKept(pc, s.sh, t, m.call, s.pcs[u], u);
    }
  }

  ghost predicate Run(run: seq<State>, moves: seq<Move>) {
    && |run| == |moves| + 1
    && Init(run[0])
    && forall i :: 0 <= i < |moves| ==> Next(run[i], moves[i], run[i + 1])
  }

  lemma {:induction false} RunKeepsInv(run: seq<State>, moves: seq<Move>, i: nat)
    requires Run(run, moves) && i < |run|
    ensures Inv(run[i])
  {
    hide Next, Inv, Init;
    if i == 0 {
      InitInv(run[0]);
    } else {
      RunKeepsInv(run, moves, i - 1);
      StepKeepsInv(run[i - 1], moves[i - 1], run[i]);
    }
  }

  // ----- what the limiter promises -----

  /** current is what has been granted and not yet taken back. */
  lemma CurrentIsOutstanding(run: seq<State>, moves: seq<Move>, i: nat)
    requires Run(run, moves) && i < |run|
    ensures run[i].sh.current == run[i].sh.granted - run[i].sh.released
    ensures run[i].sh.panicked || run[i].sh.current >= 0
  {
    hide Next, ThreadInv;
    RunKeepsInv(run, moves, i);
  }

  /** A Release panics if and only if it takes back more than was granted. */
  lemma PanicsIff(run: seq<State>, moves: seq<Move>, i: nat)
    requires Run(run, moves) && i < |moves| && moves[i].t < |run[i].pcs| && run[i].pcs[moves[i].t].RelSub?
    ensures run[i + 1].pcs[moves[i].t].Panicked? <==>
      run[i].sh.released + run[i].pcs[moves[i].t].n > run[i].sh.granted
  {
    hide ThreadInv;
    RunKeepsInv(run, moves, i);
    assert Next(run[i], moves[i], run[i + 1]);
  }

  /** A grant leaves current within the limit, or the request is alone; and the request was not cancelled. */
  lemma GrantFits(run: seq<State>, moves: seq<Move>, i: nat)
    requires Run(run, moves) && i < |moves| && moves[i].t < |run[i].pcs| && run[i].pcs[moves[i].t].ReqGrant?
    requires run[i + 1].sh.current != run[i].sh.current
    ensures run[i + 1].sh.current <= run[i].sh.limit || run[i + 1].sh.current == run[i].pcs[moves[i].t].n
    ensures run[i + 1].sh.current == run[i].sh.current + run[i].pcs[moves[i].t].n
    ensures run[i].sh.requests !in run[i].sh.cancelled
  {
    hide SharedInv;
    RunKeepsInv(run, moves, i);
    assert Next(run[i], moves[i], run[i + 1]);
  }

  // ----- lost wakeups -----

  /** A wakeup is lost: somebody sleeps without a reason, and no signal is still to come. */
  predicate Lost(s: State) { Idles(s.sh) && Signals(s.pcs) == 0 }

  /** The step that loses a wakeup, ... */
  predicate Loses(s: State, m: Move) {
    m.t < |s.pcs| && Undercuts(s.pcs[m.t], s.sh) && Signals(s.pcs) == 0
  }

  /** ... and the step that makes up for it. */
  predicate Mends(s: State, m: Move) {
    m.t < |s.pcs| && Mending(s.pcs[m.t], s.sh)
  }

  /** A wakeup is lost after a step if and only if the step loses it, or it was lost and the step
      does not make up for it. */
  lemma LostNext(s: State, m: Move, s': State)
    requires Inv(s) && Next(s, m, s')
    ensures Lost(s') <==> Loses(s, m) || (Lost(s) && !Mends(s, m))
    ensures Loses(s, m) ==> s'.sh.panicked
    ensures s.sh.panicked ==> s'.sh.panicked
  {
    hide ThreadInv, SharedInv, Signalling, Signals, Waits, Mending;
    var pc := s.pcs[m.t];
    var e := Do(pc, s.sh, m.t, m.call);
    assert ThreadInv(pc, s.sh, m.t);
    SignalsUpdate(s.pcs, m.t, e.pc);
    IdlesStep(pc, s.sh, m.t, m.call);
  }

  /** Some earlier step lost a wakeup, and no step since has made up for it. */
  ghost predicate LostBefore(run: seq<State>, moves: seq<Move>, i: nat)
    requires Run(run, moves) && i < |run|
  {
    exists j :: 0 <= j < i && Loses(run[j], moves[j]) && Unmended(run, moves, j + 1, i)
  }

  ghost predicate Unmended(run: seq<State>, moves: seq<Move>, from: nat, to: nat)
    requires Run(run, moves) && to < |run|
  {
    forall k :: from <= k < to ==> !Mends(run[k], moves[k])
  }

  lemma {:induction false} LostIff(run: seq<State>, moves: seq<Move>, i: nat)
    requires Run(run, moves) && i < |run|
    ensures Lost(run[i]) <==> LostBefore(run, moves, i)
    ensures Lost(run[i]) ==> run[i].sh.panicked
  {
    hide Next, Inv, Lost, Loses, Mends;
    if i == 0 {
      NothingLost(run[0]);
    } else {
      LostIff(run, moves, i - 1);
      RunKeepsInv(run, moves, i - 1);
      LostNext(run[i - 1], moves[i - 1], run[i]);
      LostBeforeNext(run, moves, i);
    }
  }

  lemma NothingLost(s: State)
    requires Init(s)
    ensures !Lost(s)
  {
  }

  lemma LostBeforeNext(run: seq<State>, moves: seq<Move>, i: nat)
    requires Run(run, moves) && 0 < i < |run|
    ensures LostBefore(run, moves, i) <==>
      Loses(run[i - 1], moves[i - 1]) || (LostBefore(run, moves, i - 1) && !Mends(run[i - 1], moves[i - 1]))
  {
    hide Next, Init, Loses, Mends;
    if Loses(run[i - 1], moves[i - 1]) {
      assert Unmended(run, moves, i, i);
    } else if LostBefore(run, moves, i - 1) && !Mends(run[i - 1], moves[i - 1]) {
      var j :| 0 <= j < i - 1 && Loses(run[j], moves[j]) && Unmended(run, moves, j + 1, i - 1);
      assert Unmended(run, moves, j + 1, i);
    }
    if LostBefore(run, moves, i) {
      var j :| 0 <= j < i && Loses(run[j], moves[j]) && Unmended(run, moves, j + 1, i);
      if j < i - 1 {
        assert Unmended(run, moves, j + 1, i - 1);
      }
    }
  }

  /** In every state of every run: a requester that sleeps unsignalled has to wait, or a thread that has
      changed limit, current or cancelled has yet to signal, if and only if no Release that panicked
      has taken a wakeup that nobody has made up for since.  Without a panic it is always so. */
  lemma NoLostWakeup(run: seq<State>, moves: seq<Move>, i: nat, t: nat)
    requires Run(run, moves) && i < |run| && t < |run[i].pcs|
    requires run[i].pcs[t].ReqAsleep? && t !in run[i].sh.woken
    ensures Waits(run[i].sh) || Signals(run[i].pcs) > 0 <==> !LostBefore(run, moves, i)
    ensures !run[i].sh.panicked ==> Waits(run[i].sh) || Signals(run[i].pcs) > 0
    ensures run[i].pcs[t].n == run[i].sh.asked && run[i].sh.waiting == [t]
  {
    hide Next, Waits, Signals, LostBefore;
    RunKeepsInv(run, moves, i);
    assert ThreadInv(run[i].pcs[t], run[i].sh, t);
    LostIff(run, moves, i);
  }

  /** And the next signal goes to it. */
  lemma SignalWakes(run: seq<State>, moves: seq<Move>, i: nat, t: nat)
    requires Run(run, moves) && i < |moves| && t < |run[i].pcs| && moves[i].t < |run[i].pcs|
    requires run[i].pcs[t].ReqAsleep? && t !in run[i].sh.woken
    requires var pc := run[i].pcs[moves[i].t]; pc.RelSignal? || pc.SetSignal? || pc.CanSignal?
    ensures t in run[i + 1].sh.woken && run[i + 1].pcs[t] == run[i].pcs[t]
  {
    hide SharedInv, Waits, Signals, ThreadInv, LostBefore;
    NoLostWakeup(run, moves, i, t);
    assert Next(run[i], moves[i], run[i + 1]);
  }

  // ----- a wakeup that a panic loses -----

  /** With a limit of one: one thread is granted the unit, ... */
  function Grants(i: nat): State {
    var s := Shared(1, 0, Free, Free, [], {}, 0, 0, {}, 0, 0, false);
    var mine := s.(mu := By(0), requests := 1, asked := 1);
    var got := mine.(current := 1, granted := 1);
    if i == 0 then State([Idle, Idle, Idle], s)
    else if i == 1 then State([ReqSelect(1), Idle, Idle], s)
    else if i == 2 then State([ReqLock(1), Idle, Idle], mine)
    else if i == 3 then State([ReqTest(1), Idle, Idle], mine.(l := By(0)))
    else if i == 4 then State([ReqGrant(1), Idle, Idle], mine.(l := By(0)))
    else if i == 5 then State([ReqUnlock, Idle, Idle], got.(l := By(0)))
    else if i == 6 then State([ReqReturn, Idle, Idle], got)
    else State([Idle, Idle, Idle], got.(mu := Free))
  }

  /** ... another falls asleep, and a third releases five. */
  function Oversteps(i: nat): State {
    var s := Shared(1, 1, Free, Free, [], {}, 1, 1, {}, 1, 0, false);
    var mine := s.(mu := By(1), requests := 2);
    var asleep := mine.(waiting := [1]);
    if i == 0 then State([Idle, Idle, Idle], s)
    else if i == 1 then State([Idle, ReqSelect(1), Idle], s)
    else if i == 2 then State([Idle, ReqLock(1), Idle], mine)
    else if i == 3 then State([Idle, ReqTest(1), Idle], mine.(l := By(1)))
    else if i == 4 then State([Idle, ReqAsleep(1), Idle], asleep)
    else if i == 5 then State([Idle, ReqAsleep(1), RelLock(5)], asleep)
    else if i == 6 then State([Idle, ReqAsleep(1), RelSub(5)], asleep.(l := By(2)))
    else State([Idle, ReqAsleep(1), Panicked], asleep.(current := -4, released := 5, panicked := true))
  }

  function OverstepMove(i: nat): Move { if i < 4 then Move(1, CallRequest(1)) else Move(2, CallRelease(5)) }

  lemma GrantDoes(i: nat)
    requires i < 7
    ensures var s, s' := Grants(i), Grants(i + 1);
      && |s.pcs| == |s'.pcs| == 3 && s.pcs[1] == s'.pcs[1] && s.pcs[2] == s'.pcs[2]
      && Do(s.pcs[0], s.sh, 0, CallRequest(1)) == Effect(s'.pcs[0], s'.sh)
  {
  }

  lemma GrantStep(i: nat)
    requires i < 7
    ensures Next(Grants(i), Move(0, CallRequest(1)), Grants(i + 1))
  {
    hide Grants, Do;
    GrantDoes(i);
    var s, s' := Grants(i), Grants(i + 1);
    assert s.pcs[0 := s'.pcs[0]] == s'.pcs;
  }

  lemma OverstepDoes(i: nat)
    requires i < 7
    ensures var s, s', m := Oversteps(i), Oversteps(i + 1), OverstepMove(i);
      && |s.pcs| == |s'.pcs| == 3 && m.t < 3 && (forall u :: 0 <= u < 3 && u != m.t ==> s.pcs[u] == s'.pcs[u])
      && Do(s.pcs[m.t], s.sh, m.t, m.call) == Effect(s'.pcs[m.t], s'.sh)
  {
  }

  lemma OverstepStep(i: nat)
    requires i < 7
    ensures Next(Oversteps(i), OverstepMove(i), Oversteps(i + 1))
  {
    hide Oversteps, OverstepMove, Do;
    OverstepDoes(i);
    var s, s', m := Oversteps(i), Oversteps(i + 1), OverstepMove(i);
    assert s.pcs[m.t := s'.pcs[m.t]] == s'.pcs;
  }

  /** A run whose end has a sleeper that need not wait any more and that nobody will signal. */
  lemma PanicLosesWakeup() returns (run: seq<State>, moves: seq<Move>)
    ensures Run(run, moves) && |run| == 15 && |run[14].pcs| == 3
    ensures run[14].sh.panicked && run[14].pcs[1].ReqAsleep? && run[14].sh.woken == {}
    ensures !Waits(run[14].sh) && Signals(run[14].pcs) == 0 && Lost(run[14])
  {
    run := seq(15, i requires 0 <= i < 15 => if i <= 7 then Grants(i) else Oversteps(i - 7));
    moves := seq(14, i requires 0 <= i < 14 => if i < 7 then Move(0, CallRequest(1)) else OverstepMove(i - 7));
    hide Next, Init, Grants, Oversteps, OverstepMove, Waits, Signals, Lost;
    Joins();
    forall i | 0 <= i < 14
      ensures Next(run[i], moves[i], run[i + 1])
    {
      if i < 7 {
        GrantStep(i);
      } else {
        OverstepStep(i - 7);
      }
    }
    EndIsLost();
  }

  lemma Joins()
    ensures Init(Grants(0)) && Grants(7) == Oversteps(0)
  {
  }

  lemma EndIsLost()
    ensures var s := Oversteps(7);
      && |s.pcs| == 3 && s.sh.panicked && s.pcs[1].ReqAsleep? && s.sh.woken == {}
      && !Waits(s.sh) && Signals(s.pcs) == 0 && Lost(s)
  {
    NoSignals(Oversteps(7).pcs);
  }

  lemma {:induction false} NoSignals(pcs: seq<Pc>)
    requires forall t :: 0 <= t < |pcs| ==> !Signalling(pcs[t])
    ensures Signals(pcs) == 0
  {
    if pcs != [] {
      NoSignals(pcs[..|pcs| - 1]);
    }
  }
}
