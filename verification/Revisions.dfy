/** The contract revisions of types/filecontracts.go. */
module Revisions {
  import Wire

  datatype Output = Output(value: nat, unlockHash: nat)

  datatype Error = CostTooHigh | MissingVoid | NotIncremented
  datatype Result<+T> = Ok(value: T) | Err(error: Error)

  /** The output slices are references: copying a revision does not copy its outputs. */
  datatype Revision = Revision(
    parentID: nat, number: nat, fileSize: nat, fileMerkleRoot: nat, valid: array<Output>, missed: array<Output>)

  // ----- on values -----

  /** What a revision says. */
  datatype Terms = Terms(
    parentID: nat, number: nat, fileSize: nat, fileMerkleRoot: nat, valid: seq<Output>, missed: seq<Output>)

  datatype Step =
    | Pay(amount: nat)
    | Fund(amount: nat)
    | Execute(number: nat, transfer: nat, newRoot: nat, newSize: nat)

  /** Outputs 0 and 1 belong to renter and host; a third missed output is the void. */
  const RENTER := 0
  const HOST := 1
  const VOID := 2

  predicate Complete(t: Terms) { |t.valid| >= 2 && |t.missed| >= 2 && t.number < Wire.TWO_64 }

  function Moved(s: seq<Output>, from: nat, to: nat, amount: nat): seq<Output>
    requires from < |s| && to < |s| && from != to && amount <= s[from].value
  {
    s[from := s[from].(value := s[from].value - amount)][to := s[to].(value := s[to].value + amount)]
  }

  function Applied(t: Terms, s: Step): Result<Terms>
    requires Complete(t)
  {
    match s
    case Pay(amount) =>
      if t.valid[RENTER].value < amount || t.missed[RENTER].value < amount then Err(CostTooHigh)
      else if |t.missed| <= 2 then Err(MissingVoid)
      else
        Ok(t.(valid := Moved(t.valid, RENTER, HOST, amount), missed := Moved(t.missed, RENTER, VOID, amount),
              number := (t.number + 1) % Wire.TWO_64))
    case Fund(amount) =>
      if t.valid[RENTER].value < amount || t.missed[RENTER].value < amount then Err(CostTooHigh)
      else
        Ok(t.(valid := Moved(t.valid, RENTER, HOST, amount), missed := Moved(t.missed, RENTER, HOST, amount),
              number := (t.number + 1) % Wire.TWO_64))
    case Execute(number, transfer, newRoot, newSize) =>
      if t.number >= number then Err(NotIncremented)
      else if t.missed[HOST].value < transfer then Err(CostTooHigh)
      else if |t.missed| <= 2 then Err(MissingVoid)
      else
        Ok(t.(missed := Moved(t.missed, HOST, VOID, transfer), number := number % Wire.TWO_64,
              fileMerkleRoot := newRoot, fileSize := newSize))
  }

  function Total(s: seq<Output>): nat {
    if s == [] then 0 else Total(s[..|s| - 1]) + s[|s| - 1].value
  }

  lemma {:induction false} TotalUpdate(s: seq<Output>, i: nat, o: Output)
    requires i < |s|
    ensures Total(s[i := o]) + s[i].value == Total(s) + o.value
  {
    var n := |s| - 1;
    if i == n {
      assert s[i := o][..n] == s[..n];
    } else {
      TotalUpdate(s[..n], i, o);
      assert s[i := o][..n] == s[..n][i := o];
    }
  }

  lemma MovedKeepsTotal(s: seq<Output>, from: nat, to: nat, amount: nat)
    requires from < |s| && to < |s| && from != to && amount <= s[from].value
    ensures Total(Moved(s, from, to, amount)) == Total(s)
  {
    hide Total;
    var mid := s[from := s[from].(value := s[from].value - amount)];
    TotalUpdate(s, from, mid[from]);
    TotalUpdate(mid, to, mid[to].(value := mid[to].value + amount));
  }

  /** The number still fits, or was given by the caller. */
  predicate Numbered(t: Terms, s: Step) { if s.Execute? then s.number < Wire.TWO_64 else t.number + 1 < Wire.TWO_64 }

  function Void(t: Terms): nat { if |t.missed| > 2 then t.missed[VOID].value else 0 }

  predicate SameOwners(a: seq<Output>, b: seq<Output>) {
    |a| == |b| && forall i :: 0 <= i < |a| ==> a[i].unlockHash == b[i].unlockHash
  }

  /** What a later revision keeps of an earlier one. */
  predicate Keeps(t: Terms, u: Terms) {
    && SameOwners(t.valid, u.valid) && SameOwners(t.missed, u.missed) && u.parentID == t.parentID
    && Total(u.valid) == Total(t.valid) && Total(u.missed) == Total(t.missed)
    && Complete(t) && Complete(u)
    && u.valid[RENTER].value <= t.valid[RENTER].value && t.valid[HOST].value <= u.valid[HOST].value
    && t.valid[RENTER].value - u.valid[RENTER].value == t.missed[RENTER].value - u.missed[RENTER].value
    && Void(t) <= Void(u)
  }

  lemma StepKeeps(t: Terms, s: Step)
    requires Complete(t) && Applied(t, s).Ok? && Numbered(t, s)
    ensures Keeps(t, Applied(t, s).value) && t.number < Applied(t, s).value.number
  {
    hide Total;
    match s {
      case Pay(amount) =>
        MovedKeepsTotal(t.valid, RENTER, HOST, amount);
        MovedKeepsTotal(t.missed, RENTER, VOID, amount);
      case Fund(amount) =>
        MovedKeepsTotal(t.valid, RENTER, HOST, amount);
        MovedKeepsTotal(t.missed, RENTER, HOST, amount);
      case Execute(_, transfer, _, _) =>
        MovedKeepsTotal(t.missed, HOST, VOID, transfer);
    }
  }

  /** Nothing but the value of these outputs differs, by these amounts. */
  predicate Differ(a: seq<Output>, b: seq<Output>, loses: nat, gains: nat, amount: nat) {
    && |a| == |b| && loses < |a| && gains < |a| && loses != gains
    && b[loses].value == a[loses].value - amount && b[gains].value == a[gains].value + amount
    && (forall i :: 0 <= i < |a| ==> b[i].unlockHash == a[i].unlockHash)
    && (forall i :: 0 <= i < |a| && i != loses && i != gains ==> b[i].value == a[i].value)
  }

  /** When each step succeeds, with which error it fails, and what exactly it changes: a payment goes from renter to
      host, or to the void if the proof is missed; a funding to the host in both cases; an execution moves only what
      the host would have got for a missed proof, and sets root, size and number. */
  lemma StepExact(t: Terms, s: Step)
    requires Complete(t)
    ensures match s
      case Pay(amount) =>
        var poor := t.valid[0].value < amount || t.missed[0].value < amount;
        && (Applied(t, s) == Err(CostTooHigh) <==> poor)
        && (Applied(t, s) == Err(MissingVoid) <==> !poor && |t.missed| == 2)
        && (!poor && |t.missed| > 2 <==> Applied(t, s).Ok?)
        && (Applied(t, s).Ok? ==>
              var u := Applied(t, s).value;
              && Differ(t.valid, u.valid, 0, 1, amount) && Differ(t.missed, u.missed, 0, 2, amount)
              && u.parentID == t.parentID && u.fileSize == t.fileSize && u.fileMerkleRoot == t.fileMerkleRoot
              && u.number == if t.number == 0xffff_ffff_ffff_ffff then 0 else t.number + 1)
      case Fund(amount) =>
        var poor := t.valid[0].value < amount || t.missed[0].value < amount;
        && (Applied(t, s) == Err(CostTooHigh) <==> poor) && (Applied(t, s).Ok? <==> !poor)
        && (Applied(t, s).Ok? ==>
              var u := Applied(t, s).value;
              && Differ(t.valid, u.valid, 0, 1, amount) && Differ(t.missed, u.missed, 0, 1, amount)
              && u.parentID == t.parentID && u.fileSize == t.fileSize && u.fileMerkleRoot == t.fileMerkleRoot
              && u.number == if t.number == 0xffff_ffff_ffff_ffff then 0 else t.number + 1)
      case Execute(number, transfer, newRoot, newSize) =>
        && (Applied(t, s) == Err(NotIncremented) <==> number <= t.number)
        && (Applied(t, s) == Err(CostTooHigh) <==> number > t.number && t.missed[1].value < transfer)
        && (Applied(t, s) == Err(MissingVoid) <==>
              number > t.number && t.missed[1].value >= transfer && |t.missed| == 2)
        && (Applied(t, s).Ok? ==>
              var u := Applied(t, s).value;
              && u.valid == t.valid && Differ(t.missed, u.missed, 1, 2, transfer)
              && u.parentID == t.parentID && u.fileSize == newSize && u.fileMerkleRoot == newRoot
              && (number < Wire.TWO_64 ==> u.number == number))
  {
  }

  /** Without the bound the number can fall: it grows exactly when it does not wrap around. */
  lemma NumberGrowsIff(t: Terms, s: Step)
    requires Complete(t) && (s.Pay? || s.Fund?) && Applied(t, s).Ok?
    ensures t.number < Applied(t, s).value.number <==> t.number != Wire.TWO_64 - 1
  {
  }

  // ----- in memory -----

  function View(r: Revision): Terms
    reads r.valid, r.missed
  {
    Terms(r.parentID, r.number, r.fileSize, r.fileMerkleRoot, r.valid[..], r.missed[..])
  }

  predicate Separate(r: Revision) { r.valid != r.missed }

  method SetPayout(outputs: array<Output>, i: nat, value: nat)
    requires i < outputs.Length
    modifies outputs
    ensures outputs[..] == old(outputs[..])[i := old(outputs[i]).(value := value)]
  {
    outputs[i] := outputs[i].(value := value);
  }

  method CopyOutputs(s: array<Output>) returns (c: array<Output>)
    ensures fresh(c) && c[..] == s[..]
  {
    c := new Output[s.Length](i requires 0 <= i < s.Length reads s => s[i]);
  }

  /** Two of the setters: one output loses what another gains. */
  method MovePayout(outputs: array<Output>, from: nat, to: nat, amount: nat)
    requires from < outputs.Length && to < outputs.Length && from != to && amount <= outputs[from].value
    modifies outputs
    ensures outputs[..] == Moved(old(outputs[..]), from, to, amount)
  {
    SetPayout(outputs, from, outputs[from].value - amount);
    SetPayout(outputs, to, outputs[to].value + amount);
  }

  /** The result of a step: new terms in new memory, or an error. */
  ghost predicate Refines(t: Result<Terms>, r: Result<Revision>)
    reads if r.Ok? then {r.value.valid, r.value.missed} else {}
  {
    if t.Err? then r == Err(t.error) else r.Ok? && View(r.value) == t.value && Separate(r.value)
  }

  method PaymentRevision(fcr: Revision, amount: nat) returns (r: Result<Revision>)
    requires Complete(View(fcr))
    ensures Refines(Applied(View(fcr), Pay(amount)), r)
    ensures r.Ok? ==> fresh(r.value.valid) && fresh(r.value.missed)
  {
    var valid := CopyOutputs(fcr.valid);
    var missed := CopyOutputs(fcr.missed);
    var rev := fcr.(valid := valid, missed := missed);
    if fcr.valid[RENTER].value < amount {
      return Err(CostTooHigh);
    }
    if fcr.missed[RENTER].value < amount {
      return Err(CostTooHigh);
    }
    MovePayout(valid, RENTER, HOST, amount);
    if fcr.missed.Length <= 2 {
      return Err(MissingVoid);
    }
    MovePayout(missed, RENTER, VOID, amount);
    rev := rev.(number := (rev.number + 1) % Wire.TWO_64);
    return Ok(rev);
  }

  method EAFundRevision(fcr: Revision, amount: nat) returns (r: Result<Revision>)
    requires Complete(View(fcr))
    ensures Refines(Applied(View(fcr), Fund(amount)), r)
    ensures r.Ok? ==> fresh(r.value.valid) && fresh(r.value.missed)
  {
    var valid := CopyOutputs(fcr.valid);
    var missed := CopyOutputs(fcr.missed);
    var rev := fcr.(valid := valid, missed := missed);
    if fcr.valid[RENTER].value < amount {
      return Err(CostTooHigh);
    }
    if fcr.missed[RENTER].value < amount {
      return Err(CostTooHigh);
    }
    MovePayout(valid, RENTER, HOST, amount);
    MovePayout(missed, RENTER, HOST, amount);
    rev := rev.(number := (rev.number + 1) % Wire.TWO_64);
    return Ok(rev);
  }

  method ExecuteProgramRevision(fcr: Revision, revisionNumber: nat, transfer: nat, newRoot: nat, newSize: nat)
    returns (r: Result<Revision>)
    requires Complete(View(fcr)) && revisionNumber < Wire.TWO_64
    ensures Refines(Applied(View(fcr), Execute(revisionNumber, transfer, newRoot, newSize)), r)
    ensures r.Ok? ==> fresh(r.value.valid) && fresh(r.value.missed)
  {
    var valid := CopyOutputs(fcr.valid);
    var missed := CopyOutputs(fcr.missed);
    var rev := fcr.(valid := valid, missed := missed, fileMerkleRoot := newRoot, fileSize := newSize,
      number := revisionNumber);
    if fcr.number >= revisionNumber {
      return Err(NotIncremented);
    }
    if rev.missed[HOST].value < transfer {
      return Err(CostTooHigh);
    }
    if rev.missed.Length <= 2 {
      return Err(MissingVoid);
    }
    MovePayout(missed, HOST, VOID, transfer);
    return Ok(rev);
  }

  /** FileContractRevision.TotalPayout */
  method TotalPayout(r: Revision) returns (valid: nat, missed: nat)
    ensures valid == Total(View(r).valid) && missed == Total(View(r).missed)
  {
    valid := SumOutputs(r.valid);
    missed := SumOutputs(r.missed);
  }

  method SumOutputs(s: array<Output>) returns (sum: nat)
    ensures sum == Total(s[..])
  {
    sum := 0;
    for i := 0 to s.Length
      invariant sum == Total(s[..i])
    {
      sum := sum + s[i].value;
      assert s[..i + 1][..i] == s[..i];
    }
    assert s[..s.Length] == s[..];
  }

  // ----- runs -----

  method Revise(fcr: Revision, s: Step) returns (r: Result<Revision>)
    requires Complete(View(fcr)) && (s.Execute? ==> s.number < Wire.TWO_64)
    ensures Refines(Applied(View(fcr), s), r)
    ensures r.Ok? ==> fresh(r.value.valid) && fresh(r.value.missed)
  {
    match s {
      case Pay(amount) => r := PaymentRevision(fcr, amount);
      case Fund(amount) => r := EAFundRevision(fcr, amount);
      case Execute(number, transfer, newRoot, newSize) =>
        r := ExecuteProgramRevision(fcr, number, transfer, newRoot, newSize);
    }
  }

  /** Revisions made one from the other; a step that fails leaves the last revision in force. */
  function Next(t: Terms, s: Step): (u: Terms)
    requires Complete(t)
    ensures Complete(u)
  {
    match Applied(t, s)
    case Ok(u) => u
    case Err(_) => t
  }

  lemma NextKeeps(t: Terms, s: Step)
    requires Complete(t) && Numbered(t, s)
    ensures Keeps(t, Next(t, s)) && t.number <= Next(t, s).number && (Applied(t, s).Ok? ==>
      t.number < Next(t, s).number)
  {
    hide Total, Applied;
    if Applied(t, s).Ok? {
      StepKeeps(t, s);
    }
  }

  lemma KeepsTrans(t: Terms, u: Terms, v: Terms)
    requires Keeps(t, u) && Keeps(u, v)
    ensures Keeps(t, v)
  {
    hide Total;
  }

  /** No step of the run takes the number past 64 bits. */
  predicate NoOverflow(t: Terms, steps: seq<Step>)
    requires Complete(t)
    decreases steps
  {
    steps == [] || (Numbered(t, steps[0]) && NoOverflow(Next(t, steps[0]), steps[1..]))
  }

  /** Every revision of a run still says, at its end, what it said when it was made; each has a
      higher number than the one before unless its step failed; and the last keeps what Keeps
      demands of the first. */
  method ReviseAll(fcr: Revision, steps: seq<Step>) returns (revs: seq<Revision>)
    requires Complete(View(fcr)) && NoOverflow(View(fcr), steps)
    ensures |revs| == |steps| + 1 && revs[0] == fcr
    ensures forall i :: 0 <= i < |steps| ==>
      && Complete(View(revs[i])) && View(revs[i + 1]) == Next(View(revs[i]), steps[i])
      && (Applied(View(revs[i]), steps[i]).Ok? ==> revs[i].number < revs[i + 1].number)
    ensures Keeps(View(fcr), View(revs[|steps|]))
  {
    hide Total, Applied, Keeps, Complete, NoOverflow;
    revs := [fcr];
    var last := fcr;
    KeepsSelf(View(fcr));
    assert steps[0..] == steps;
    for i := 0 to |steps|
      invariant |revs| == i + 1 && revs[0] == fcr && last == revs[i]
      invariant Complete(View(last)) && NoOverflow(View(last), steps[i..])
      invariant forall k :: 0 <= k < |revs| ==> allocated(revs[k].valid) && allocated(revs[k].missed)
      invariant forall k :: 0 <= k < i ==>
        && Complete(View(revs[k])) && View(revs[k + 1]) == Next(View(revs[k]), steps[k])
        && (Applied(View(revs[k]), steps[k]).Ok? ==> revs[k].number < revs[k + 1].number)
      invariant Keeps(View(fcr), View(last))
    {
      NoOverflowStep(View(last), steps, i);
      NextKeeps(View(last), steps[i]);
      KeepsTrans(View(fcr), View(last), Next(View(last), steps[i]));
      var r := Revise(last, steps[i]);
      if r.Ok? {
        last := r.value;
      }
      revs := revs + [last];
    }
  }

  lemma NoOverflowStep(t: Terms, steps: seq<Step>, i: nat)
    requires Complete(t) && i < |steps| && NoOverflow(t, steps[i..])
    ensures Numbered(t, steps[i]) && (steps[i].Execute? ==> steps[i].number < Wire.TWO_64)
    ensures Complete(Next(t, steps[i])) && NoOverflow(Next(t, steps[i]), steps[i + 1..])
  {
    hide Total, Applied;
    assert steps[i..][1..] == steps[i + 1..];
    NextKeeps(t, steps[i]);
  }

  lemma KeepsSelf(t: Terms)
    requires Complete(t)
    ensures Keeps(t, t)
  {
  }
}
