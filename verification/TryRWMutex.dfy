/** The try-lock protocol of sync/tryrwmutex.go as a step system.

    Every atomic action of the Go code (an atomic add, a load, a compare-and-swap, a call
    into the embedded sync.RWMutex) is one step of one thread.  A run interleaves the steps
    of any finite set of threads in any order.
 */
module TryRWMutex {
  import opened Common
  import opened Wire

  const READ_OFFSET: nat := 1
  const WRITE_OFFSET: nat := 0x10_0000            // 1 << 20
  const TRY_OFFSET: nat := 0x100_0000_0000        // 1 << 40
  const TRY_MASK: nat := 0xFF_FFFF_FFFF           // 1099511627775

  /** atomic.AddUint64: addition modulo 2^64. */
  function AddU64(x: nat, delta: nat): nat {
    (x + delta) % TWO_64
  }

  /** The Go expression ^(x - 1): the two's complement negation of x. */
  function Negated(x: nat): nat
    requires 0 < x < TWO_64
  {
    TWO_64 - x
  }

  /** v & tryMask: the mask is 2^40 - 1, so masking is a remainder. */
  function Masked(v: nat): nat {
    v % (TRY_MASK + 1)
  }

  type Thread = nat

  /** Where a thread stands.  A parameter v is the thread's local variable of that name. */
  datatype Pc =
    | Idle
    // Lock
    | LockSpin(v: nat)       // about to test v > tryOffset
    | LockReload             // test failed, about to load the word again
    | LockMu                 // about to enter mu.Lock
    | LockMuWait             // inside mu.Lock, waiting for readers to drain
    | Writing                // holds the write lock
    | UnlockCount            // mu.Unlock done, about to subtract writeOffset
    // RLock
    | RLockSpin(v: nat)
    | RLockReload
    | RLockMu
    | Reading
    | RUnlockCount
    // TryLock, after its compare-and-swap succeeded
    | TryLockMu
    | TryLockMuWait
    | TryLockClear           // holds the write lock, about to subtract tryOffset
    // TryRLock, after its atomic add
    | TryRLockTest(v: nat)   // about to test the masked value
    | TryRLockRevert         // test failed, about to subtract readOffset + tryOffset
    | TryRLockMu             // test passed, about to enter mu.RLock
    | TryRLockClear          // holds a read lock, about to subtract tryOffset

  /** sync.RWMutex: an announced writer keeps new readers out until it has had its turn. */
  datatype Mu = Mu(writer: Option<Thread>, pending: Option<Thread>, readers: set<Thread>)

  datatype State = State(lock: nat, mu: Mu, pcs: map<Thread, Pc>)

  /** What an idle thread decides to call. */
  datatype Call = CallLock | CallRLock | CallTryLock | CallTryRLock

  // ----- the steps -----

  /** What one step does: add delta to the word, replace mu, move on to pc.  A blocked step
      is a call into mu that has to wait. */
  datatype Effect = Blocked | Effect(delta: nat, mu: Mu, pc: Pc)

  function MuAnnounce(mu: Mu, t: Thread, pc: Pc): Effect {
    if mu.writer.None? && mu.pending.None? then Effect(0, mu.(pending := Some(t)), pc) else Blocked
  }

  function MuAcquire(mu: Mu, t: Thread, pc: Pc): Effect {
    if mu.readers == {} then Effect(0, mu.(pending := None, writer := Some(t)), pc) else Blocked
  }

  function MuRLock(mu: Mu, t: Thread, pc: Pc): Effect {
    if mu.writer.None? && mu.pending.None? then Effect(0, mu.(readers := mu.readers + {t}), pc) else Blocked
  }

  /** First step of a call. */
  function Start(lock: nat, mu: Mu, call: Call): Effect {
    match call
    case CallLock => Effect(WRITE_OFFSET, mu, LockSpin(AddU64(lock, WRITE_OFFSET)))
    case CallRLock => Effect(READ_OFFSET, mu, RLockSpin(AddU64(lock, READ_OFFSET)))
    case CallTryLock =>
      // a compare-and-swap from zero; a failed one returns false
      if lock == 0 then Effect(WRITE_OFFSET + TRY_OFFSET, mu, TryLockMu) else Effect(0, mu, Idle)
    case CallTryRLock =>
      Effect(READ_OFFSET + TRY_OFFSET, mu, TryRLockTest(AddU64(lock, READ_OFFSET + TRY_OFFSET)))
  }

  /** The next step of a thread at pc.  A thread that holds a lock steps by releasing it.
      The parameter call matters only for an idle thread. */
  function Do(pc: Pc, lock: nat, mu: Mu, t: Thread, call: Call): Effect {
    match pc
    case Idle => Start(lock, mu, call)
    case LockSpin(v) => Effect(0, mu, if v > TRY_OFFSET then LockReload else LockMu)
    case LockReload => Effect(0, mu, LockSpin(lock))
    case LockMu => MuAnnounce(mu, t, LockMuWait)
    case LockMuWait => MuAcquire(mu, t, Writing)
    case Writing => Effect(0, mu.(writer := None), UnlockCount)
    case UnlockCount => Effect(Negated(WRITE_OFFSET), mu, Idle)
    case RLockSpin(v) => Effect(0, mu, if v > TRY_OFFSET then RLockReload else RLockMu)
    case RLockReload => Effect(0, mu, RLockSpin(lock))
    case RLockMu => MuRLock(mu, t, Reading)
    case Reading => Effect(0, mu.(readers := mu.readers - {t}), RUnlockCount)
    case RUnlockCount => Effect(Negated(READ_OFFSET), mu, Idle)
    case TryLockMu => MuAnnounce(mu, t, TryLockMuWait)
    case TryLockMuWait => MuAcquire(mu, t, TryLockClear)
    case TryLockClear => Effect(Negated(TRY_OFFSET), mu, Writing)
    case TryRLockTest(v) => Effect(0, mu, if Masked(v) > WRITE_OFFSET then TryRLockRevert else TryRLockMu)
    case TryRLockRevert => Effect(Negated(READ_OFFSET + TRY_OFFSET), mu, Idle)
    case TryRLockMu => MuRLock(mu, t, TryRLockClear)
    case TryRLockClear => Effect(Negated(TRY_OFFSET), mu, Reading)
  }

  function Apply(s: State, t: Thread, e: Effect): State
    requires e.Effect?
  {
    State(AddU64(s.lock, e.delta), e.mu, s.pcs[t := e.pc])
  }

  ghost predicate Init(s: State) {
    && s.lock == 0
    && s.mu == Mu(None, None, {})
    && forall t :: t in s.pcs ==> s.pcs[t].Idle?
  }

  /** A move picks which thread steps next and, if it is idle, what it calls. */
  datatype Move = Move(thread: Thread, call: Call)

  ghost predicate Next(s: State, m: Move, s': State) {
    && m.thread in s.pcs
    && var e := Do(s.pcs[m.thread], s.lock, s.mu, m.thread, m.call);
    && e.Effect?
    && s' == Apply(s, m.thread, e)
  }

  // ----- counting -----

  datatype Role = Reader | Writer | Trier

  predicate AtLock(pc: Pc) {
    pc.LockSpin? || pc.LockReload? || pc.LockMu? || pc.LockMuWait? || pc.Writing? || pc.UnlockCount?
  }

  predicate AtRLock(pc: Pc) {
    pc.RLockSpin? || pc.RLockReload? || pc.RLockMu? || pc.Reading? || pc.RUnlockCount?
  }

  /** A TryLock whose swap succeeded and whose contention is not yet resolved. */
  predicate AtTryLock(pc: Pc) {
    pc.TryLockMu? || pc.TryLockMuWait? || pc.TryLockClear?
  }

  predicate AtTryRLock(pc: Pc) {
    pc.TryRLockTest? || pc.TryRLockRevert? || pc.TryRLockMu? || pc.TryRLockClear?
  }

  /** Which of the three packed counters a thread has incremented. */
  predicate Has(pc: Pc, role: Role) {
    match role
    case Reader => AtRLock(pc) || AtTryRLock(pc)
    case Writer => AtLock(pc) || AtTryLock(pc)
    case Trier => AtTryLock(pc) || AtTryRLock(pc)
  }

  function Members(pcs: map<Thread, Pc>, role: Role): set<Thread> {
    set t | t in pcs && Has(pcs[t], role)
  }

  function Count(pcs: map<Thread, Pc>, role: Role): nat {
    |Members(pcs, role)|
  }

  /** Operations in progress, including held locks. */
  function Active(pcs: map<Thread, Pc>): nat {
    |Busy(pcs)|
  }

  function Busy(pcs: map<Thread, Pc>): set<Thread> {
    set t | t in pcs && !pcs[t].Idle?
  }

  function Word(readers: nat, writers: nat, tries: nat): nat {
    readers * READ_OFFSET + writers * WRITE_OFFSET + tries * TRY_OFFSET
  }

  function Packed(pcs: map<Thread, Pc>): nat {
    Word(Count(pcs, Reader), Count(pcs, Writer), Count(pcs, Trier))
  }

  lemma SizeWithout<T>(a: set<T>, x: T)
    ensures |a| == |a - {x}| + One(x in a)
  {
    if x in a {
      assert a == (a - {x}) + {x};
    } else {
      assert a == a - {x};
    }
  }

  lemma CountUpdate(pcs: map<Thread, Pc>, t: Thread, pc: Pc, role: Role)
    requires t in pcs
    ensures Count(pcs[t := pc], role) == Count(pcs, role) - One(Has(pcs[t], role)) + One(Has(pc, role))
  {
    var before, after := Members(pcs, role), Members(pcs[t := pc], role);
    forall u ensures u in before - {t} <==> u in after - {t} {
    }
    assert before - {t} == after - {t};
    SizeWithout(before, t);
    SizeWithout(after, t);
  }

  /** What one thread contributes to the packed word. */
  function Weight(pc: Pc): nat {
    if AtLock(pc) then WRITE_OFFSET
    else if AtRLock(pc) then READ_OFFSET
    else if AtTryLock(pc) then WRITE_OFFSET + TRY_OFFSET
    else if AtTryRLock(pc) then READ_OFFSET + TRY_OFFSET
    else 0
  }

  lemma PackedUpdate(pcs: map<Thread, Pc>, t: Thread, pc: Pc)
    requires t in pcs
    ensures Packed(pcs[t := pc]) == Packed(pcs) - Weight(pcs[t]) + Weight(pc)
  {
    CountUpdate(pcs, t, pc, Reader);
    CountUpdate(pcs, t, pc, Writer);
    CountUpdate(pcs, t, pc, Trier);
  }

  /** An operation in progress is registered as exactly one of reader and writer. */
  lemma ActiveSplits(pcs: map<Thread, Pc>)
    ensures Active(pcs) == Count(pcs, Reader) + Count(pcs, Writer)
    ensures Count(pcs, Trier) <= Active(pcs)
  {
    var r, w, k := Members(pcs, Reader), Members(pcs, Writer), Members(pcs, Trier);
    var all := Busy(pcs);
    assert all == r + w && r !! w;
    assert |r + w| == |r| + |w|;
    assert k <= all;
    SubsetSize(k, all);
  }

  lemma SubsetSize<T>(a: set<T>, b: set<T>)
    requires a <= b
    ensures |a| <= |b|
  {
    assert b == a + (b - a);
  }

  lemma MemberCounts(pcs: map<Thread, Pc>, t: Thread, role: Role)
    requires t in pcs && Has(pcs[t], role)
    ensures Count(pcs, role) >= 1
  {
    assert t in Members(pcs, role);
  }

  lemma NoMembers(pcs: map<Thread, Pc>, t: Thread, role: Role)
    requires t in pcs && Count(pcs, role) == 0
    ensures !Has(pcs[t], role)
  {
    assert t !in Members(pcs, role);
  }

  // ----- what the comparisons on the packed word decide -----

  /** The test of TryRLock is right about "a writer is registered" exactly when a writer is
      registered or at most 2^20 readers are. */
  lemma TryRLockTestDecides(readers: nat, writers: nat, tries: nat)
    requires readers >= 1 && readers + writers * WRITE_OFFSET < TRY_OFFSET
    ensures ((Masked(Word(readers, writers, tries)) > WRITE_OFFSET) <==> writers >= 1)
       <==> (writers >= 1 || readers <= WRITE_OFFSET)
  {
    assert Masked(Word(readers, writers, tries)) == readers + writers * WRITE_OFFSET;
  }

  /** The spin test is right about "a Try call is in flight" exactly when one is or the
      reader and writer fields together do not exceed 2^40. */
  lemma SpinTestDecides(readers: nat, writers: nat, tries: nat)
    requires readers + writers >= 1
    ensures ((Word(readers, writers, tries) > TRY_OFFSET) <==> tries >= 1)
       <==> (tries >= 1 || readers + writers * WRITE_OFFSET <= TRY_OFFSET)
  {
  }

  /** The documented limit of 2^20 operations is sharp: one reader more and TryRLock refuses
      a read lock although no writer is registered. */
  lemma LimitIsSharp()
    ensures Masked(Word(WRITE_OFFSET + 1, 0, 1)) > WRITE_OFFSET
  {
  }

  // ----- the invariant -----

  predicate HoldsWrite(pc: Pc) { pc.Writing? || pc.TryLockClear? }
  predicate HoldsRead(pc: Pc) { pc.Reading? || pc.TryRLockClear? }
  predicate Pending(pc: Pc) { pc.LockMuWait? || pc.TryLockMuWait? }

  /** Kept away from mu by a Try call in flight. */
  predicate Spinning(pc: Pc) {
    || pc.LockReload? || pc.RLockReload?
    || (pc.LockSpin? && pc.v > TRY_OFFSET)
    || (pc.RLockSpin? && pc.v > TRY_OFFSET)
  }

  /** A TryRLock that will return true. */
  predicate PassedTest(pc: Pc) {
    || pc.TryRLockMu? || pc.TryRLockClear?
    || (pc.TryRLockTest? && Masked(pc.v) <= WRITE_OFFSET)
  }

  /** A TryRLock that will return false. */
  predicate FailedTest(pc: Pc) {
    || pc.TryRLockRevert?
    || (pc.TryRLockTest? && Masked(pc.v) > WRITE_OFFSET)
  }

  ghost predicate MuAgrees(mu: Mu, pcs: map<Thread, Pc>) {
    && (forall t :: mu.writer == Some(t) <==> t in pcs && HoldsWrite(pcs[t]))
    && (forall t :: mu.pending == Some(t) <==> t in pcs && Pending(pcs[t]))
    && (forall t :: t in mu.readers <==> t in pcs && HoldsRead(pcs[t]))
    && (mu.writer.Some? ==> mu.readers == {} && mu.pending.None?)
  }

  /** While a TryRLock is past its test, every registered writer is still spinning. */
  ghost predicate TryReaderShielded(pcs: map<Thread, Pc>) {
    forall t, u :: t in pcs && u in pcs && PassedTest(pcs[t]) && Has(pcs[u], Writer) ==> Spinning(pcs[u])
  }

  /** While a TryLock is in flight, everyone else is idle, spinning or about to fail. */
  ghost predicate TryWriterShielded(pcs: map<Thread, Pc>) {
    forall t, u :: t in pcs && u in pcs && t != u && AtTryLock(pcs[t]) ==>
      pcs[u].Idle? || Spinning(pcs[u]) || FailedTest(pcs[u])
  }

  ghost predicate Inv(s: State) {
    && s.lock == Packed(s.pcs)
    && MuAgrees(s.mu, s.pcs)
    && TryReaderShielded(s.pcs)
    && TryWriterShielded(s.pcs)
  }

  /** Within the documented limit the packed word never wraps. */
  lemma WordFits(pcs: map<Thread, Pc>)
    requires Active(pcs) <= WRITE_OFFSET
    ensures Packed(pcs) < TWO_64
  {
    ActiveSplits(pcs);
  }

  lemma {:induction false} InitInv(s: State)
    requires Init(s)
    ensures Inv(s)
  {
    assert Members(s.pcs, Reader) == {};
    assert Members(s.pcs, Writer) == {};
    assert Members(s.pcs, Trier) == {};
  }

  /** Every step adds to the word, modulo 2^64, exactly what it changes in the thread's
      contribution. */
  lemma StepMovesWeight(pc: Pc, lock: nat, mu: Mu, t: Thread, call: Call)
    requires Do(pc, lock, mu, t, call).Effect?
    ensures var e := Do(pc, lock, mu, t, call);
      Weight(pc) + e.delta == Weight(e.pc) || Weight(pc) + e.delta == Weight(e.pc) + TWO_64
  {
  }

  lemma WordKept(s: State, m: Move, s': State)
    requires s.lock == Packed(s.pcs) && Next(s, m, s')
    requires Active(s.pcs) <= WRITE_OFFSET && Active(s'.pcs) <= WRITE_OFFSET
    ensures s'.lock == Packed(s'.pcs)
  {
    WordFits(s.pcs);
    WordFits(s'.pcs);
    StepMovesWeight(s.pcs[m.thread], s.lock, s.mu, m.thread, m.call);
    PackedUpdate(s.pcs, m.thread, s'.pcs[m.thread]);
  }

  /** A step that changes neither mu nor how its thread stands with mu. */
  lemma MuQuiet(mu: Mu, pcs: map<Thread, Pc>, t: Thread, pc: Pc)
    requires t in pcs && MuAgrees(mu, pcs)
    requires HoldsWrite(pc) == HoldsWrite(pcs[t]) && Pending(pc) == Pending(pcs[t]) &&
      HoldsRead(pc) == HoldsRead(pcs[t])
    ensures MuAgrees(mu, pcs[t := pc])
  {
  }

  lemma MuAnnounced(mu: Mu, pcs: map<Thread, Pc>, t: Thread, pc: Pc)
    requires t in pcs && MuAgrees(mu, pcs) && Pending(pc) && MuAnnounce(mu, t, pc).Effect?
    requires !HoldsRead(pcs[t])
    ensures MuAgrees(MuAnnounce(mu, t, pc).mu, pcs[t := pc])
  {
  }

  lemma MuAcquired(mu: Mu, pcs: map<Thread, Pc>, t: Thread, pc: Pc)
    requires t in pcs && MuAgrees(mu, pcs) && Pending(pcs[t]) && HoldsWrite(pc) && MuAcquire(mu, t, pc).Effect?
    ensures MuAgrees(MuAcquire(mu, t, pc).mu, pcs[t := pc])
  {
    assert mu.pending == Some(t);
  }

  lemma MuRLocked(mu: Mu, pcs: map<Thread, Pc>, t: Thread, pc: Pc)
    requires t in pcs && MuAgrees(mu, pcs) && HoldsRead(pc) && MuRLock(mu, t, pc).Effect?
    ensures MuAgrees(MuRLock(mu, t, pc).mu, pcs[t := pc])
  {
  }

  lemma MuReleased(mu: Mu, pcs: map<Thread, Pc>, t: Thread, pc: Pc)
    requires t in pcs && MuAgrees(mu, pcs)
    requires !HoldsWrite(pc) && !HoldsRead(pc) && !Pending(pc)
    ensures HoldsWrite(pcs[t]) ==> MuAgrees(mu.(writer := None), pcs[t := pc])
    ensures HoldsRead(pcs[t]) ==> MuAgrees(mu.(readers := mu.readers - {t}), pcs[t := pc])
  {
    assert HoldsWrite(pcs[t]) ==> mu.writer == Some(t);
    assert HoldsRead(pcs[t]) ==> t in mu.readers;
  }

  lemma MuKept(s: State, m: Move, s': State)
    requires MuAgrees(s.mu, s.pcs) && Next(s, m, s')
    ensures MuAgrees(s'.mu, s'.pcs)
  {
    var t := m.thread;
    var pc := s'.pcs[t];
    match s.pcs[t] {
      case LockMu => MuAnnounced(s.mu, s.pcs, t, pc);
      case TryLockMu => MuAnnounced(s.mu, s.pcs, t, pc);
      case LockMuWait => MuAcquired(s.mu, s.pcs, t, pc);
      case TryLockMuWait => MuAcquired(s.mu, s.pcs, t, pc);
      case RLockMu => MuRLocked(s.mu, s.pcs, t, pc);
      case TryRLockMu => MuRLocked(s.mu, s.pcs, t, pc);
      case Writing => MuReleased(s.mu, s.pcs, t, pc);
      case Reading => MuReleased(s.mu, s.pcs, t, pc);
      case _ => MuQuiet(s.mu, s.pcs, t, pc);
    }
  }

  /** The word shows every Try call in flight to the spin loops. */
  lemma TrySeen(s: State, t: Thread)
    requires s.lock == Packed(s.pcs) && t in s.pcs && Has(s.pcs[t], Trier)
    ensures s.lock > TRY_OFFSET
  {
    MemberCounts(s.pcs, t, Trier);
    MemberCounts(s.pcs, t, if Has(s.pcs[t], Reader) then Reader else Writer);
  }

  /** The word shows every registered writer to the test of TryRLock. */
  lemma WriterSeen(s: State, t: Thread, u: Thread)
    requires s.lock == Packed(s.pcs) && Active(s.pcs) <= WRITE_OFFSET
    requires t in s.pcs && u in s.pcs && Has(s.pcs[t], Reader) && Has(s.pcs[u], Writer)
    ensures Masked(s.lock) > WRITE_OFFSET
  {
    ActiveSplits(s.pcs);
    MemberCounts(s.pcs, t, Reader);
    MemberCounts(s.pcs, u, Writer);
    TryRLockTestDecides(Count(s.pcs, Reader), Count(s.pcs, Writer), Count(s.pcs, Trier));
  }

  /** The only way to pass the test of TryRLock is to register and read the word. */
  lemma PassesByRegistering(pc: Pc, lock: nat, mu: Mu, t: Thread, call: Call)
    requires Do(pc, lock, mu, t, call).Effect?
    ensures var e := Do(pc, lock, mu, t, call);
      PassedTest(e.pc) && !PassedTest(pc) ==> e.pc == TryRLockTest(AddU64(lock, e.delta))
  {
  }

  /** With a Try call in flight before and after its step, a newly registered or spinning
      thread spins, and a TryLock cannot get in. */
  lemma KeepsSpinning(pc: Pc, lock: nat, mu: Mu, t: Thread, call: Call)
    requires Do(pc, lock, mu, t, call).Effect?
    requires pc.Idle? || Spinning(pc)
    requires lock > TRY_OFFSET && AddU64(lock, Do(pc, lock, mu, t, call).delta) > TRY_OFFSET
    ensures var e := Do(pc, lock, mu, t, call);
      e.pc.Idle? || Spinning(e.pc) || e.pc == TryRLockTest(AddU64(lock, e.delta))
  {
  }

  lemma WriterFromIdle(pc: Pc, lock: nat, mu: Mu, t: Thread, call: Call)
    requires Do(pc, lock, mu, t, call).Effect?
    ensures Has(Do(pc, lock, mu, t, call).pc, Writer) ==> pc.Idle? || Has(pc, Writer)
  {
  }

  /** A registered writer and a TryRLock past its test meet only while the writer spins:
      each of the two sees the other's registration in the word. */
  lemma TryReaderKept(s: State, m: Move, s': State)
    requires s.lock == Packed(s.pcs) && s'.lock == Packed(s'.pcs) && Next(s, m, s')
    requires TryReaderShielded(s.pcs) && Active(s'.pcs) <= WRITE_OFFSET
    ensures TryReaderShielded(s'.pcs)
  {
    var t := m.thread;
    var pc := s.pcs[t];
    forall a, b | a in s'.pcs && b in s'.pcs && PassedTest(s'.pcs[a]) && Has(s'.pcs[b], Writer)
      ensures Spinning(s'.pcs[b])
    {
      PassesByRegistering(pc, s.lock, s.mu, t, m.call);
      if a == t && !PassedTest(pc) {
        WriterSeen(s', a, b);
        assert false;
      } else if b == t {
        TrySeen(s, a);
        TrySeen(s', a);
        WriterFromIdle(pc, s.lock, s.mu, t, m.call);
        KeepsSpinning(pc, s.lock, s.mu, t, m.call);
      }
    }
  }

  lemma FailedStays(pc: Pc, lock: nat, mu: Mu, t: Thread, call: Call)
    requires Do(pc, lock, mu, t, call).Effect? && FailedTest(pc)
    ensures var e := Do(pc, lock, mu, t, call); e.pc.Idle? || FailedTest(e.pc)
  {
  }

  /** A TryLock gets in only when the word is zero. */
  lemma TryLockFromZero(pc: Pc, lock: nat, mu: Mu, t: Thread, call: Call)
    requires Do(pc, lock, mu, t, call).Effect?
    ensures AtTryLock(Do(pc, lock, mu, t, call).pc) ==> AtTryLock(pc) || lock == 0
  {
  }

  lemma ZeroWordAllIdle(s: State, t: Thread)
    requires s.lock == Packed(s.pcs) && s.lock == 0 && t in s.pcs
    ensures s.pcs[t].Idle?
  {
    NoMembers(s.pcs, t, Reader);
    NoMembers(s.pcs, t, Writer);
  }

  /** A TryLock starts from an all-idle state and everyone who arrives later is held off. */
  lemma TryWriterKept(s: State, m: Move, s': State)
    requires s.lock == Packed(s.pcs) && s'.lock == Packed(s'.pcs) && Next(s, m, s')
    requires TryWriterShielded(s.pcs) && Active(s'.pcs) <= WRITE_OFFSET
    ensures TryWriterShielded(s'.pcs)
  {
    var t := m.thread;
    var pc := s.pcs[t];
    forall a, b | a in s'.pcs && b in s'.pcs && a != b && AtTryLock(s'.pcs[a])
      ensures s'.pcs[b].Idle? || Spinning(s'.pcs[b]) || FailedTest(s'.pcs[b])
    {
      TryLockFromZero(pc, s.lock, s.mu, t, m.call);
      if a == t && !AtTryLock(pc) {
        ZeroWordAllIdle(s, b);
      } else if b == t {
        TrySeen(s, a);
        TrySeen(s', a);
        if FailedTest(pc) {
          FailedStays(pc, s.lock, s.mu, t, m.call);
        } else {
          KeepsSpinning(pc, s.lock, s.mu, t, m.call);
          if s'.pcs[b].TryRLockTest? {
            WriterSeen(s', b, a);
          }
        }
      }
    }
  }

  lemma StepKeepsInv(s: State, m: Move, s': State)
    requires Inv(s) && Next(s, m, s')
    requires Active(s.pcs) <= WRITE_OFFSET && Active(s'.pcs) <= WRITE_OFFSET
    ensures Inv(s')
  {
    WordKept(s, m, s');
    MuKept(s, m, s');
    TryReaderKept(s, m, s');
    TryWriterKept(s, m, s');
  }

  // ----- whole runs -----

  /** A run of any length from an unlocked mutex, in any interleaving. */
  ghost predicate AnyRun(run: seq<State>, moves: seq<Move>) {
    && |run| == |moves| + 1
    && Init(run[0])
    && (forall i :: 0 <= i < |moves| ==> Next(run[i], moves[i], run[i + 1]))
  }

  /** A run that never has more than 1 << 20 operations active at once. */
  ghost predicate Run(run: seq<State>, moves: seq<Move>) {
    && AnyRun(run, moves)
    && (forall i :: 0 <= i < |run| ==> Active(run[i].pcs) <= WRITE_OFFSET)
  }

  lemma {:induction false} RunKeepsInv(run: seq<State>, moves: seq<Move>, i: nat)
    requires Run(run, moves) && i < |run|
    ensures Inv(run[i])
  {
    hide Next, Inv, Init, Active;
    if i == 0 {
      InitInv(run[0]);
    } else {
      RunKeepsInv(run, moves, i - 1);
      StepKeepsInv(run[i - 1], moves[i - 1], run[i]);
    }
  }

  /** In every state of every run the word is exactly the three counters side by side, and
      so each comparison in the code decides exactly what it is meant to decide. */
  lemma WordIsThreeCounters(run: seq<State>, moves: seq<Move>, i: nat)
    requires Run(run, moves) && i < |run|
    ensures run[i].lock == Packed(run[i].pcs) < TWO_64
    ensures run[i].lock == 0 <==> Active(run[i].pcs) == 0
    ensures Active(run[i].pcs) >= 1 ==> (run[i].lock > TRY_OFFSET <==> Count(run[i].pcs, Trier) >= 1)
    ensures Count(run[i].pcs, Reader) >= 1 ==>
      (Masked(run[i].lock) > WRITE_OFFSET <==> Count(run[i].pcs, Writer) >= 1)
  {
    RunKeepsInv(run, moves, i);
    WordFits(run[i].pcs);
    ActiveSplits(run[i].pcs);
    var r, w, k := Count(run[i].pcs, Reader), Count(run[i].pcs, Writer), Count(run[i].pcs, Trier);
    if r >= 1 {
      TryRLockTestDecides(r, w, k);
    }
  }

  /** An owner of mu is some thread standing there. */
  lemma OwnersStandThere(mu: Mu, pcs: map<Thread, Pc>)
    requires MuAgrees(mu, pcs)
    ensures mu.writer.Some? ==> mu.writer.value in pcs && HoldsWrite(pcs[mu.writer.value])
    ensures mu.pending.Some? ==> mu.pending.value in pcs && Pending(pcs[mu.pending.value])
  {
    if mu.writer.Some? {
      assert mu.writer == Some(mu.writer.value);
    }
    if mu.pending.Some? {
      assert mu.pending == Some(mu.pending.value);
    }
  }

  lemma TryLockFindsMuFree(mu: Mu, pcs: map<Thread, Pc>, t: Thread)
    requires MuAgrees(mu, pcs) && TryWriterShielded(pcs) && t in pcs && AtTryLock(pcs[t])
    ensures mu.readers == {}
    ensures pcs[t].TryLockMu? ==> mu.writer.None? && mu.pending.None?
  {
    OwnersStandThere(mu, pcs);
    assert forall u :: u in pcs ==> !HoldsRead(pcs[u]);
  }

  lemma TryRLockFindsMuFree(mu: Mu, pcs: map<Thread, Pc>, t: Thread)
    requires MuAgrees(mu, pcs) && TryReaderShielded(pcs) && t in pcs && PassedTest(pcs[t])
    ensures mu.writer.None? && mu.pending.None?
  {
    OwnersStandThere(mu, pcs);
    assert forall u :: u in pcs ==> !HoldsWrite(pcs[u]) && !Pending(pcs[u]);
  }

  lemma UnblockedWhenFree(pc: Pc, lock: nat, mu: Mu, t: Thread, call: Call)
    requires AtTryLock(pc) ==> mu.readers == {}
    requires pc.TryLockMu? || pc.TryRLockMu? ==> mu.writer.None? && mu.pending.None?
    requires AtTryLock(pc) || AtTryRLock(pc)
    ensures Do(pc, lock, mu, t, call).Effect?
  {
  }

  /** Whenever a Try call reaches mu, mu is free for it: its next step is never blocked. */
  lemma TryNeverWaits(run: seq<State>, moves: seq<Move>, i: nat, t: Thread, call: Call)
    requires Run(run, moves) && i < |run| && t in run[i].pcs
    requires AtTryLock(run[i].pcs[t]) || AtTryRLock(run[i].pcs[t])
    ensures Do(run[i].pcs[t], run[i].lock, run[i].mu, t, call).Effect?
    ensures run[i].pcs[t].TryLockMu? ==> run[i].mu == Mu(None, None, {})
    ensures run[i].pcs[t].TryRLockMu? ==> run[i].mu.writer.None? && run[i].mu.pending.None?
  {
    RunKeepsInv(run, moves, i);
    var s := run[i];
    if AtTryLock(s.pcs[t]) {
      TryLockFindsMuFree(s.mu, s.pcs, t);
    } else if PassedTest(s.pcs[t]) {
      TryRLockFindsMuFree(s.mu, s.pcs, t);
    }
    UnblockedWhenFree(s.pcs[t], s.lock, s.mu, t, call);
  }

  /** What a Try call answers: TryLock gets in exactly when no operation is in progress,
      TryRLock exactly when no writer is registered. */
  lemma TryOutcome(run: seq<State>, moves: seq<Move>, i: nat)
    requires Run(run, moves) && i < |moves|
    requires Next(run[i], moves[i], run[i + 1]) && run[i].pcs[moves[i].thread].Idle?
    ensures var pc := run[i + 1].pcs[moves[i].thread];
      match moves[i].call
      case CallTryLock => if Active(run[i].pcs) == 0 then pc.TryLockMu? else pc.Idle?
      case CallTryRLock => if Count(run[i].pcs, Writer) == 0 then PassedTest(pc) else FailedTest(pc)
      case _ => Spinning(pc) <==> Count(run[i].pcs, Trier) >= 1
  {
    var t := moves[i].thread;
    var pc := run[i + 1].pcs[t];
    WordIsThreeCounters(run, moves, i);
    WordIsThreeCounters(run, moves, i + 1);
    CountUpdate(run[i].pcs, t, pc, Writer);
    CountUpdate(run[i].pcs, t, pc, Trier);
    if !moves[i].call.CallTryLock? {
      assert t in Busy(run[i + 1].pcs);
      assert Active(run[i + 1].pcs) >= 1;
      if moves[i].call.CallTryRLock? {
        MemberCounts(run[i + 1].pcs, t, Reader);
      }
    }
  }

  lemma {:induction false} RunKeepsMu(run: seq<State>, moves: seq<Move>, i: nat)
    requires AnyRun(run, moves) && i < |run|
    ensures MuAgrees(run[i].mu, run[i].pcs)
  {
    hide Next, Init, MuAgrees;
    if i == 0 {
      InitMu(run[0]);
    } else {
      RunKeepsMu(run, moves, i - 1);
      MuKept(run[i - 1], moves[i - 1], run[i]);
    }
  }

  lemma InitMu(s: State)
    requires Init(s)
    ensures MuAgrees(s.mu, s.pcs)
  {
  }

  /** The write lock excludes every other holder, also beyond the documented limit. */
  lemma MutualExclusion(run: seq<State>, moves: seq<Move>, i: nat, t: Thread, u: Thread)
    requires AnyRun(run, moves) && i < |run| && t in run[i].pcs && u in run[i].pcs && t != u
    requires HoldsWrite(run[i].pcs[t])
    ensures !HoldsWrite(run[i].pcs[u]) && !HoldsRead(run[i].pcs[u])
  {
    RunKeepsMu(run, moves, i);
    assert run[i].mu.writer == Some(t);
  }
}
