/** The programs that a renter has a host execute: modules/mdmprogrambuilder.go builds one and adds
    up its cost; modules/host/mdm decodes it and charges for it. */
module HostPrograms {
  import opened Wire
  import opened Encoding
  import opened WireLayout

  const SECTOR_SIZE := 0x40_0000
  const REGISTRY_ENTRY_SIZE := 256
  const BLOCKS_PER_YEAR := 52560

  // ----- instructions and their operands -----

  /** What a program asks for. */
  datatype Op =
    | Append(data: Bytes, proof: bool)
    | DropSectors(numSectors: U64, proof: bool)
    | HasSector(root: Hash)
    | ReadOffset(length: U64, offset: U64, proof: bool)
    | ReadSector(length: U64, offset: U64, root: Hash, proof: bool)
    | Revision
    | SwapSector(sector1: U64, sector2: U64, proof: bool)
    | UpdateRegistry(key: SiaPublicKey, tweak: Hash, revision: U64, signature: Segment, value: Blob)
    | ReadRegistry(key: SiaPublicKey, tweak: Hash)

  datatype Kind =
    | KAppend | KDropSectors | KHasSector | KReadOffset | KReadSector | KRevision | KSwapSector | KUpdateRegistry |
      KReadRegistry

  datatype Instruction = Instruction(kind: Kind, args: Bytes)

  predicate WellFormed(op: Op) { op.Append? ==> |op.data| == SECTOR_SIZE }

  function Flag(b: bool): Bytes { [if b then 1 else 0] }

  /** What the builder writes to the program data for an instruction. */
  function Operands(op: Op): Bytes {
    match op
    case Append(data, _) => data
    case DropSectors(n, _) => PutU64(n)
    case HasSector(root) => root
    case ReadOffset(length, offset, _) => PutU64(length) + PutU64(offset)
    case ReadSector(length, offset, root, _) => PutU64(length) + PutU64(offset) + root
    case Revision => []
    case SwapSector(a, b, _) => PutU64(a) + PutU64(b)
    case UpdateRegistry(key, tweak, revision, signature, data) =>
      tweak + PutU64(revision) + signature + PutKey(key) + data
    case ReadRegistry(key, tweak) => PutKey(key) + tweak
  }

  /** The instruction, with the offsets of operands that start at off. */
  function Instr(op: Op, off: nat): Instruction {
    match op
    case Append(_, proof) => Instruction(KAppend, PutU64(off) + Flag(proof))
    case DropSectors(_, proof) => Instruction(KDropSectors, PutU64(off) + Flag(proof))
    case HasSector(_) => Instruction(KHasSector, PutU64(off))
    case ReadOffset(_, _, proof) => Instruction(KReadOffset, PutU64(off + 8) + PutU64(off) + Flag(proof))
    case ReadSector(_, _, _, proof) =>
      Instruction(KReadSector, PutU64(off + 16) + PutU64(off + 8) + PutU64(off) + Flag(proof))
    case Revision => Instruction(KRevision, [])
    case SwapSector(_, _, proof) => Instruction(KSwapSector, PutU64(off) + PutU64(off + 8) + Flag(proof))
    case UpdateRegistry(key, _, _, _, data) =>
      var keyLen := |PutKey(key)|;
      Instruction(KUpdateRegistry,
        PutU64(off) + PutU64(off + 32) + PutU64(off + 40) + PutU64(off + 104) + PutU64(keyLen) +
        PutU64(off + 104 + keyLen) + PutU64(|data|))
    case ReadRegistry(key, _) =>
      var keyLen := |PutKey(key)|;
      Instruction(KReadRegistry, PutU64(off) + PutU64(keyLen) + PutU64(off + keyLen))
  }

  // ----- the host's side -----

  /** Argument number k. */
  function Arg(args: Bytes, k: nat): nat
    requires 8 * k + 8 <= |args|
  {
    FromLittleEndian(args[8 * k..8 * k + 8])
  }

  /** programData.managedBytes, once all of the data has arrived. */
  function BytesAt(data: Bytes, off: nat, len: nat): (r: Parsed<Bytes>)
    ensures r.Ok? ==> |r.value| == len
  {
    if off + len > |data| then Fail else Ok(data[off..off + len], [])
  }

  function U64At(data: Bytes, off: nat): Parsed<U64> {
    var (b, _) :- BytesAt(data, off, 8);
    var (x, _) :- GetWord(b);
    Ok(x, [])
  }

  function KeyAt(data: Bytes, off: nat, len: nat): Parsed<SiaPublicKey> {
    var (b, _) :- BytesAt(data, off, len);
    var (key, _) :- GetKey(b);
    Ok(key, [])
  }

  /** decodeInstruction, and the operands that Execute fetches. */
  function Decode(i: Instruction, data: Bytes): Parsed<Op> {
    var args := i.args;
    match i.kind
    case KAppend =>
      if |args| != 9 then Fail
      else
        var (d, _) :- BytesAt(data, Arg(args, 0), SECTOR_SIZE);
        Ok(Append(d, args[8] == 1), [])
    case KDropSectors =>
      if |args| != 9 then Fail
      else
        var (n, _) :- U64At(data, Arg(args, 0));
        Ok(DropSectors(n, args[8] == 1), [])
    case KHasSector =>
      if |args| != 8 then Fail
      else
        var (root, _) :- BytesAt(data, Arg(args, 0), 32);
        Ok(HasSector(root), [])
    case KReadOffset =>
      if |args| != 17 then Fail
      else
        var (length, _) :- U64At(data, Arg(args, 1));
        var (offset, _) :- U64At(data, Arg(args, 0));
        Ok(ReadOffset(length, offset, args[16] == 1), [])
    case KReadSector =>
      if |args| != 25 then Fail
      else
        var (length, _) :- U64At(data, Arg(args, 2));
        var (offset, _) :- U64At(data, Arg(args, 1));
        var (root, _) :- BytesAt(data, Arg(args, 0), 32);
        Ok(ReadSector(length, offset, root, args[24] == 1), [])
    case KRevision => if |args| != 0 then Fail else Ok(Revision, [])
    case KSwapSector =>
      if |args| != 17 then Fail
      else
        var (a, _) :- U64At(data, Arg(args, 0));
        var (b, _) :- U64At(data, Arg(args, 1));
        Ok(SwapSector(a, b, args[16] == 1), [])
    case KUpdateRegistry =>
      if |args| != 56 then Fail
      else
        var (tweak, _) :- BytesAt(data, Arg(args, 0), 32);
        var (revision, _) :- U64At(data, Arg(args, 1));
        var (signature, _) :- BytesAt(data, Arg(args, 2), 64);
        var (key, _) :- KeyAt(data, Arg(args, 3), Arg(args, 4));
        var (d, _) :- BytesAt(data, Arg(args, 5), Arg(args, 6));
        if |d| >= TWO_63 then Fail else Ok(UpdateRegistry(key, tweak, revision, signature, d), [])
    case KReadRegistry =>
      if |args| != 24 then Fail
      else
        var (key, _) :- KeyAt(data, Arg(args, 0), Arg(args, 1));
        var (tweak, _) :- BytesAt(data, Arg(args, 2), 32);
        Ok(ReadRegistry(key, tweak), [])
  }

  // ----- decoding undoes building -----

  lemma AtSplit(data: Bytes, off: nat, x: Bytes, y: Bytes)
    requires At(data, off, x + y)
    ensures At(data, off, x) && At(data, off + |x|, y)
  {
    var s := data[off..off + |x + y|];
    assert data[off..off + |x|] == s[..|x|];
    assert data[off + |x|..off + |x| + |y|] == s[|x|..];
  }

  lemma AtBytes(data: Bytes, off: nat, x: Bytes)
    requires At(data, off, x)
    ensures BytesAt(data, off, |x|) == Ok(x, [])
  {
  }

  lemma AtU64(data: Bytes, off: nat, x: U64)
    requires At(data, off, PutU64(x))
    ensures U64At(data, off) == Ok(x, [])
  {
    hide PutU64, GetWord;
    AtBytes(data, off, PutU64(x));
    WordIsU64(x);
    WordCodec(x, []);
    assert PutU64(x) + [] == PutU64(x);
  }

  lemma WordIsU64(x: U64)
    ensures PutWord(x) == PutU64(x)
  {
  }

  lemma AtKey(data: Bytes, off: nat, key: SiaPublicKey)
    requires At(data, off, PutKey(key))
    ensures KeyAt(data, off, |PutKey(key)|) == Ok(key, [])
  {
    hide PutKey, GetKey;
    AtBytes(data, off, PutKey(key));
    KeyCodec(key, []);
    assert PutKey(key) + [] == PutKey(key);
  }

  /** The argument that stands behind k others. */
  lemma ArgAt(args: Bytes, k: nat, before: Bytes, x: nat, behind: Bytes)
    requires args == before + PutU64(x) + behind && |before| == 8 * k && x < TWO_64
    ensures 8 * k + 8 <= |args| && Arg(args, k) == x
  {
    hide LittleEndian, FromLittleEndian;
    assert args[8 * k..8 * k + 8] == PutU64(x);
    PowEight();
    LittleEndianRoundTrip(x, 8);
  }

  lemma OneArg(x: nat, b: bool)
    requires x < TWO_64
    ensures var args := PutU64(x) + Flag(b); |args| == 9 && Arg(args, 0) == x && (args[8] == 1 <==> b)
    ensures Arg(PutU64(x), 0) == x
  {
    hide PutU64, Arg;
    ArgAt(PutU64(x) + Flag(b), 0, [], x, Flag(b));
    ArgAt(PutU64(x), 0, [], x, []);
  }

  lemma TwoArgs(x: nat, y: nat, b: bool)
    requires x < TWO_64 && y < TWO_64
    ensures var args := PutU64(x) + PutU64(y) + Flag(b);
      |args| == 17 && Arg(args, 0) == x && Arg(args, 1) == y && (args[16] == 1 <==> b)
  {
    hide PutU64, Arg;
    var args := PutU64(x) + PutU64(y) + Flag(b);
    ArgAt(args, 0, [], x, PutU64(y) + Flag(b));
    ArgAt(args, 1, PutU64(x), y, Flag(b));
  }

  lemma ThreeArgs(x: nat, y: nat, z: nat, tail: Bytes)
    requires x < TWO_64 && y < TWO_64 && z < TWO_64
    ensures var args := PutU64(x) + PutU64(y) + PutU64(z) + tail;
      |args| == 24 + |tail| && Arg(args, 0) == x && Arg(args, 1) == y && Arg(args, 2) == z && args[24..] == tail
  {
    hide PutU64, Arg;
    var args := PutU64(x) + PutU64(y) + PutU64(z) + tail;
    ArgAt(args, 0, [], x, PutU64(y) + PutU64(z) + tail);
    ArgAt(args, 1, PutU64(x), y, PutU64(z) + tail);
    ArgAt(args, 2, PutU64(x) + PutU64(y), z, tail);
  }

  /** Arguments behind a tail of arguments. */
  lemma ArgShift(front: Bytes, tail: Bytes, k: nat, j: nat)
    requires |front| == 8 * j && k >= j && 8 * (k - j) + 8 <= |tail|
    ensures Arg(front + tail, k) == Arg(tail, k - j)
  {
    hide FromLittleEndian;
    var args := front + tail;
    assert args[8 * k..8 * k + 8] == tail[8 * (k - j)..8 * (k - j) + 8];
  }

  lemma SevenArgs(t: nat, r: nat, s: nat, k: nat, kl: nat, d: nat, dl: nat)
    requires t < TWO_64 && r < TWO_64 && s < TWO_64 && k < TWO_64 && kl < TWO_64 && d < TWO_64 && dl < TWO_64
    ensures var args := PutU64(t) + PutU64(r) + PutU64(s) + PutU64(k) + PutU64(kl) + PutU64(d) + PutU64(dl);
      && |args| == 56
      && Arg(args, 0) == t && Arg(args, 1) == r && Arg(args, 2) == s && Arg(args, 3) == k
      && Arg(args, 4) == kl && Arg(args, 5) == d && Arg(args, 6) == dl
  {
    hide PutU64, Arg;
    var front := PutU64(t) + PutU64(r) + PutU64(s);
    var mid := PutU64(k) + PutU64(kl) + PutU64(d);
    var tail := mid + PutU64(dl);
    var args := PutU64(t) + PutU64(r) + PutU64(s) + PutU64(k) + PutU64(kl) + PutU64(d) + PutU64(dl);
    assert args == front + tail;
    ThreeArgs(t, r, s, tail);
    ThreeArgs(k, kl, d, PutU64(dl));
    ArgAt(tail, 3, mid, dl, []);
    ArgShift(front, tail, 3, 3);
    ArgShift(front, tail, 4, 3);
    ArgShift(front, tail, 5, 3);
    ArgShift(front, tail, 6, 3);
  }

  lemma DecodesShort(op: Op, off: nat, data: Bytes)
    requires At(data, off, Operands(op)) && WellFormed(op) && |data| < TWO_64
    requires op.Append? || op.DropSectors? || op.HasSector? || op.Revision?
    ensures Decode(Instr(op, off), data) == Ok(op, [])
  {
    hide PutU64, Arg, BytesAt, U64At, At, Flag;
    AtEnd(data, off, Operands(op));
    match op {
      case Append(d, proof) => OneArg(off, proof); AtBytes(data, off, d);
      case DropSectors(n, proof) => OneArg(off, proof); AtU64(data, off, n);
      case HasSector(root) => OneArg(off, false); AtBytes(data, off, root);
      case Revision =>
    }
  }

  lemma AtEnd(data: Bytes, off: nat, x: Bytes)
    requires At(data, off, x)
    ensures off + |x| <= |data|
  {
  }

  lemma DecodesPair(op: Op, off: nat, data: Bytes)
    requires At(data, off, Operands(op)) && |data| < TWO_64
    requires op.ReadOffset? || op.SwapSector?
    ensures Decode(Instr(op, off), data) == Ok(op, [])
  {
    hide PutU64, Arg, BytesAt, U64At, At, Flag;
    AtEnd(data, off, Operands(op));
    match op {
      case ReadOffset(length, offset, proof) =>
        TwoArgs(off + 8, off, proof);
        AtSplit(data, off, PutU64(length), PutU64(offset));
        AtU64(data, off, length);
        AtU64(data, off + 8, offset);
      case SwapSector(x, y, proof) =>
        TwoArgs(off, off + 8, proof);
        AtSplit(data, off, PutU64(x), PutU64(y));
        AtU64(data, off, x);
        AtU64(data, off + 8, y);
    }
  }

  lemma DecodesReadSector(op: Op, off: nat, data: Bytes)
    requires At(data, off, Operands(op)) && |data| < TWO_64 && op.ReadSector?
    ensures Decode(Instr(op, off), data) == Ok(op, [])
  {
    hide PutU64, Arg, BytesAt, U64At, At;
    AtEnd(data, off, Operands(op));
    var l, o := PutU64(op.length), PutU64(op.offset);
    ThreeArgs(off + 16, off + 8, off, Flag(op.proof));
    AtSplit(data, off, l + o, op.root);
    AtSplit(data, off, l, o);
    AtU64(data, off, op.length);
    AtU64(data, off + 8, op.offset);
    AtBytes(data, off + 16, op.root);
    var args := Instr(op, off).args;
    assert args[24..] == Flag(op.proof) && args[24] == args[24..][0];
  }

  lemma DecodesReadRegistry(op: Op, off: nat, data: Bytes)
    requires At(data, off, Operands(op)) && |data| < TWO_64 && op.ReadRegistry?
    ensures Decode(Instr(op, off), data) == Ok(op, [])
  {
    hide PutU64, Arg, BytesAt, KeyAt, At, PutKey;
    AtEnd(data, off, Operands(op));
    var keyLen := |PutKey(op.key)|;
    ThreeArgs(off, keyLen, off + keyLen, []);
    var args := Instr(op, off).args;
    assert args + [] == args;
    AtSplit(data, off, PutKey(op.key), op.tweak);
    AtKey(data, off, op.key);
    AtBytes(data, off + keyLen, op.tweak);
  }

  lemma UpdateOperandsAt(op: Op, off: nat, data: Bytes)
    requires At(data, off, Operands(op)) && op.UpdateRegistry?
    ensures var keyLen := |PutKey(op.key)|;
      && At(data, off, op.tweak) && At(data, off + 32, PutU64(op.revision)) && At(data, off + 40, op.signature)
      && At(data, off + 104, PutKey(op.key)) && At(data, off + 104 + keyLen, op.value)
      && off + 104 + keyLen + |op.value| <= |data|
  {
    hide PutU64, At, PutKey;
    AtEnd(data, off, Operands(op));
    var t, r, s, k := op.tweak, PutU64(op.revision), op.signature, PutKey(op.key);
    AtSplit(data, off, t + r + s + k, op.value);
    AtSplit(data, off, t + r + s, k);
    AtSplit(data, off, t + r, s);
    AtSplit(data, off, t, r);
  }

  lemma DecodesUpdateRegistry(op: Op, off: nat, data: Bytes)
    requires At(data, off, Operands(op)) && |data| < TWO_64 && op.UpdateRegistry?
    ensures Decode(Instr(op, off), data) == Ok(op, [])
  {
    hide PutU64, Arg, BytesAt, U64At, KeyAt, At, PutKey;
    UpdateOperandsAt(op, off, data);
    var keyLen := |PutKey(op.key)|;
    SevenArgs(off, off + 32, off + 40, off + 104, keyLen, off + 104 + keyLen, |op.value|);
    AtBytes(data, off, op.tweak);
    AtU64(data, off + 32, op.revision);
    AtBytes(data, off + 40, op.signature);
    AtKey(data, off + 104, op.key);
    AtBytes(data, off + 104 + keyLen, op.value);
  }

  /** The host finds exactly the operands that were given to the builder. */
  lemma DecodesBack(op: Op, off: nat, data: Bytes)
    requires At(data, off, Operands(op)) && WellFormed(op) && |data| < TWO_64
    ensures Decode(Instr(op, off), data) == Ok(op, [])
  {
    hide Decode, Instr, Operands, At;
    match op {
      case ReadOffset(_, _, _) => DecodesPair(op, off, data);
      case SwapSector(_, _, _) => DecodesPair(op, off, data);
      case ReadSector(_, _, _, _) => DecodesReadSector(op, off, data);
      case UpdateRegistry(_, _, _, _, _) => DecodesUpdateRegistry(op, off, data);
      case ReadRegistry(_, _) => DecodesReadRegistry(op, off, data);
      case _ => DecodesShort(op, off, data);
    }
  }

  // ----- whole programs -----

  function Data(ops: seq<Op>): Bytes {
    if ops == [] then [] else Data(ops[..|ops| - 1]) + Operands(ops[|ops| - 1])
  }

  function Program(ops: seq<Op>): (p: seq<Instruction>)
    ensures |p| == |ops|
  {
    if ops == [] then []
    else Program(ops[..|ops| - 1]) + [Instr(ops[|ops| - 1], |Data(ops[..|ops| - 1])|)]
  }

  lemma AppendOp(ops: seq<Op>, op: Op)
    ensures Data(ops + [op]) == Data(ops) + Operands(op)
    ensures Program(ops + [op]) == Program(ops) + [Instr(op, |Data(ops)|)]
  {
    assert (ops + [op])[..|ops|] == ops;
  }

  ghost predicate AllWellFormed(ops: seq<Op>) { forall i :: 0 <= i < |ops| ==> WellFormed(ops[i]) }

  lemma {:induction false} OperandsStay(ops: seq<Op>, i: nat)
    requires i < |ops|
    ensures Program(ops)[i] == Instr(ops[i], |Data(ops[..i])|)
    ensures At(Data(ops), |Data(ops[..i])|, Operands(ops[i]))
  {
    hide Instr, Operands;
    var n := |ops| - 1;
    var init := ops[..n];
    if i < n {
      OperandsStay(init, i);
      assert init[..i] == ops[..i];
      AtLonger(Data(init), Operands(ops[n]), |Data(ops[..i])|, Operands(ops[i]));
    }
  }

  lemma AtLonger(data: Bytes, more: Bytes, off: nat, x: Bytes)
    requires At(data, off, x)
    ensures At(data + more, off, x)
  {
    assert (data + more)[off..off + |x|] == data[off..off + |x|];
  }

  /** However many instructions are added behind it, the host decodes every instruction of the
      program to what was asked for. */
  lemma ProgramDecodes(ops: seq<Op>, i: nat)
    requires AllWellFormed(ops) && i < |ops| && |Data(ops)| < TWO_64
    ensures Decode(Program(ops)[i], Data(ops)) == Ok(ops[i], [])
  {
    hide Decode, Instr, Operands, At, Data, Program, WellFormed;
    OperandsStay(ops, i);
    DecodesBack(ops[i], |Data(ops[..i])|, Data(ops));
  }

  // ----- what stands where -----

  /** Arguments: these numbers, and a flag byte or none. */
  predicate ArgsAre(args: Bytes, xs: seq<nat>, flag: Bytes) {
    && |args| == 8 * |xs| + |flag| && At(args, 8 * |xs|, flag)
    && forall k :: 0 <= k < |xs| ==> NumberAt(args, 8 * k, xs[k])
  }

  /** How the host's documentation lays out an instruction, and where the builder puts its operands: every
      argument is the place of an operand in the data, or a length. */
  ghost predicate Format(op: Op, off: nat, i: Instruction, data: Bytes) {
    match op
    case Append(d, proof) =>
      i.kind.KAppend? && ArgsAre(i.args, [off], [if proof then 1 else 0]) && At(data, off, d)
    case DropSectors(n, proof) =>
      i.kind.KDropSectors? && ArgsAre(i.args, [off], [if proof then 1 else 0]) && NumberAt(data, off, n)
    case HasSector(root) => i.kind.KHasSector? && ArgsAre(i.args, [off], []) && At(data, off, root)
    case ReadOffset(length, offset, proof) =>
      && i.kind.KReadOffset? && ArgsAre(i.args, [off + 8, off], [if proof then 1 else 0])
      && NumberAt(data, off, length) && NumberAt(data, off + 8, offset)
    case ReadSector(length, offset, root, proof) =>
      && i.kind.KReadSector? && ArgsAre(i.args, [off + 16, off + 8, off], [if proof then 1 else 0])
      && NumberAt(data, off, length) && NumberAt(data, off + 8, offset) && At(data, off + 16, root)
    case Revision => i.kind.KRevision? && ArgsAre(i.args, [], [])
    case SwapSector(a, b, proof) =>
      && i.kind.KSwapSector? && ArgsAre(i.args, [off, off + 8], [if proof then 1 else 0])
      && NumberAt(data, off, a) && NumberAt(data, off + 8, b)
    case UpdateRegistry(key, tweak, revision, signature, value) =>
      var end := off + 128 + |key.key|;
      && i.kind.KUpdateRegistry?
      && ArgsAre(i.args, [off, off + 32, off + 40, off + 104, 24 + |key.key|, end, |value|], [])
      && At(data, off, tweak) && NumberAt(data, off + 32, revision) && At(data, off + 40, signature)
      && At(data, off + 104, key.algorithm) && BlobAt(data, off + 120, key.key) && At(data, end, value)
    case ReadRegistry(key, tweak) =>
      var end := off + 24 + |key.key|;
      && i.kind.KReadRegistry? && ArgsAre(i.args, [off, 24 + |key.key|, end], [])
      && At(data, off, key.algorithm) && BlobAt(data, off + 16, key.key) && At(data, end, tweak)
  }

  lemma KeyStands(data: Bytes, off: nat, key: SiaPublicKey)
    requires At(data, off, PutKey(key))
    ensures At(data, off, key.algorithm) && BlobAt(data, off + 16, key.key) && |PutKey(key)| == 24 + |key.key|
  {
    hide PutBlob, BlobAt;
    KeyCodec(key, []);
    AtSplit(data, off, key.algorithm, PutBlob(key.key));
    var p := data[..off + 16];
    assert p + PutBlob(key.key) == data[..off + 16 + |PutBlob(key.key)|];
    BlobBehind(data, p, key.key);
  }

  lemma ArgsFormat(args: Bytes, xs: seq<nat>, flag: Bytes)
    requires args == PutNumbers(xs) + flag && forall k :: 0 <= k < |xs| ==> xs[k] < TWO_64
    ensures ArgsAre(args, xs, flag)
  {
    hide PutU64, NumberAt, PutNumbers, At;
    PutNumbersAt(xs);
    AtBack(PutNumbers(xs), flag);
    forall k | 0 <= k < |xs|
      ensures NumberAt(args, 8 * k, xs[k])
    {
      AtLonger(PutNumbers(xs), flag, 8 * k, PutU64(xs[k]));
      NumberIs(args, 8 * k, xs[k]);
    }
  }

  lemma AtBack(front: Bytes, x: Bytes)
    ensures At(front + x, |front|, x)
  {
  }

  function PutNumbers(xs: seq<nat>): Bytes {
    if xs == [] then [] else PutNumbers(xs[..|xs| - 1]) + PutU64(xs[|xs| - 1])
  }

  lemma {:induction false} PutNumbersAt(xs: seq<nat>)
    ensures |PutNumbers(xs)| == 8 * |xs|
    ensures forall k :: 0 <= k < |xs| ==> At(PutNumbers(xs), 8 * k, PutU64(xs[k]))
  {
    hide PutU64;
    if xs != [] {
      var n := |xs| - 1;
      PutNumbersAt(xs[..n]);
      forall k | 0 <= k < n
        ensures At(PutNumbers(xs), 8 * k, PutU64(xs[k]))
      {
        AtLonger(PutNumbers(xs[..n]), PutU64(xs[n]), 8 * k, PutU64(xs[..n][k]));
      }
    }
  }

  lemma NumbersUpTo3(x: nat, y: nat, z: nat)
    ensures PutNumbers([]) == [] && PutNumbers([x]) == PutU64(x) && PutNumbers([x, y]) == PutU64(x) + PutU64(y)
    ensures PutNumbers([x, y, z]) == PutU64(x) + PutU64(y) + PutU64(z)
  {
    hide PutU64;
    assert [x][..0] == [] && [x, y][..1] == [x] && [x, y, z][..2] == [x, y];
    assert PutNumbers([x]) == [] + PutU64(x);
  }

  lemma NumbersUpTo7(xs: seq<nat>)
    requires |xs| == 7
    ensures PutNumbers(xs) == PutU64(xs[0]) + PutU64(xs[1]) + PutU64(xs[2]) + PutU64(xs[3]) + PutU64(xs[4]) +
                              PutU64(xs[5]) + PutU64(xs[6])
  {
    hide PutU64, PutNumbers;
    NumbersUpTo3(xs[0], xs[1], xs[2]);
    assert xs[..3] == [xs[0], xs[1], xs[2]];
    NextNumber(xs, 3);
    NextNumber(xs, 4);
    NextNumber(xs, 5);
    NextNumber(xs, 6);
    assert xs[..7] == xs;
  }

  lemma NextNumber(xs: seq<nat>, k: nat)
    requires k < |xs|
    ensures PutNumbers(xs[..k + 1]) == PutNumbers(xs[..k]) + PutU64(xs[k])
  {
    assert xs[..k + 1][..k] == xs[..k];
  }

  lemma FlagFormat(op: Op, off: nat, data: Bytes)
    requires At(data, off, Operands(op)) && |data| < TWO_64
    requires op.Append? || op.DropSectors? || op.HasSector? || op.Revision? || op.ReadOffset? || op.SwapSector?
    ensures Format(op, off, Instr(op, off), data)
  {
    hide PutU64, NumberAt, ArgsAre, PutNumbers;
    AtEnd(data, off, Operands(op));
    hide At;
    var args := Instr(op, off).args;
    match op {
      case Append(_, proof) => NumbersUpTo3(off, 0, 0); ArgsFormat(args, [off], Flag(proof));
      case DropSectors(n, proof) =>
        NumbersUpTo3(off, 0, 0);
        ArgsFormat(args, [off], Flag(proof));
        NumberIs(data, off, n);
      case HasSector(_) => NumbersUpTo3(off, 0, 0); ArgsFormat(args, [off], []);
      case ReadOffset(length, offset, proof) =>
        NumbersUpTo3(off + 8, off, 0);
        ArgsFormat(args, [off + 8, off], Flag(proof));
        AtSplit(data, off, PutU64(length), PutU64(offset));
        NumberIs(data, off, length);
        NumberIs(data, off + 8, offset);
      case SwapSector(a, b, proof) =>
        NumbersUpTo3(off, off + 8, 0);
        ArgsFormat(args, [off, off + 8], Flag(proof));
        AtSplit(data, off, PutU64(a), PutU64(b));
        NumberIs(data, off, a);
        NumberIs(data, off + 8, b);
      case Revision => NumbersUpTo3(0, 0, 0); ArgsFormat(args, [], []);
    }
  }

  lemma ReadSectorFormat(op: Op, off: nat, data: Bytes)
    requires At(data, off, Operands(op)) && |data| < TWO_64 && op.ReadSector?
    ensures Format(op, off, Instr(op, off), data)
  {
    hide PutU64, NumberAt, ArgsAre, PutNumbers;
    AtEnd(data, off, Operands(op));
    hide At;
    var l, o := PutU64(op.length), PutU64(op.offset);
    NumbersUpTo3(off + 16, off + 8, off);
    ArgsFormat(Instr(op, off).args, [off + 16, off + 8, off], Flag(op.proof));
    AtSplit(data, off, l + o, op.root);
    AtSplit(data, off, l, o);
    NumberIs(data, off, op.length);
    NumberIs(data, off + 8, op.offset);
  }

  lemma ReadRegistryFormat(op: Op, off: nat, data: Bytes)
    requires At(data, off, Operands(op)) && |data| < TWO_64 && op.ReadRegistry?
    ensures Format(op, off, Instr(op, off), data)
  {
    hide PutU64, NumberAt, ArgsAre, PutNumbers, PutKey, BlobAt;
    AtEnd(data, off, Operands(op));
    hide At;
    AtSplit(data, off, PutKey(op.key), op.tweak);
    KeyStands(data, off, op.key);
    var n := 24 + |op.key.key|;
    NumbersUpTo3(off, n, off + n);
    ArgsFormat(Instr(op, off).args, [off, n, off + n], []);
  }

  lemma UpdateRegistryFormat(op: Op, off: nat, data: Bytes)
    requires At(data, off, Operands(op)) && |data| < TWO_64 && op.UpdateRegistry?
    ensures Format(op, off, Instr(op, off), data)
  {
    hide PutU64, NumberAt, ArgsAre, PutNumbers, PutKey, At, BlobAt;
    UpdateOperandsAt(op, off, data);
    KeyStands(data, off + 104, op.key);
    NumberIs(data, off + 32, op.revision);
    var n := 24 + |op.key.key|;
    var xs := [off, off + 32, off + 40, off + 104, n, off + 104 + n, |op.value|];
    NumbersUpTo7(xs);
    ArgsFormat(Instr(op, off).args, xs, []);
  }

  /** Every instruction of every built program, and its operands, are laid out as documented. */
  lemma ProgramFormat(ops: seq<Op>, i: nat)
    requires i < |ops| && |Data(ops)| < TWO_64
    ensures Format(ops[i], |Data(ops[..i])|, Program(ops)[i], Data(ops))
  {
    hide Format, Instr, Operands, At, Data, Program;
    OperandsStay(ops, i);
    var off, data := |Data(ops[..i])|, Data(ops);
    match ops[i] {
      case ReadSector(_, _, _, _) => ReadSectorFormat(ops[i], off, data);
      case UpdateRegistry(_, _, _, _, _) => UpdateRegistryFormat(ops[i], off, data);
      case ReadRegistry(_, _) => ReadRegistryFormat(ops[i], off, data);
      case _ => FlagFormat(ops[i], off, data);
    }
  }

  // ----- what the host makes of any instruction -----

  /** Argument number k, as a sum of its bytes. */
  function Place(args: Bytes, k: nat): nat
    requires 8 * k + 8 <= |args|
  {
    Number(args[8 * k..8 * k + 8])
  }

  /** A public key that takes up at most len bytes. */
  predicate KeyStandsIn(data: Bytes, off: nat, len: nat, key: SiaPublicKey) {
    && off + len <= |data| && 24 + |key.key| <= len
    && At(data, off, key.algorithm) && BlobAt(data, off + 16, key.key)
  }

  /** The instruction has the length its kind asks for, and this is what its arguments lead to in the data. */
  predicate Reads(i: Instruction, data: Bytes, op: Op) {
    var a := i.args;
    match op
    case Append(d, proof) =>
      i.kind.KAppend? && |a| == 9 && |d| == 4194304 && At(data, Place(a, 0), d) && proof == (a[8] == 1)
    case DropSectors(n, proof) =>
      i.kind.KDropSectors? && |a| == 9 && NumberAt(data, Place(a, 0), n) && proof == (a[8] == 1)
    case HasSector(root) => i.kind.KHasSector? && |a| == 8 && At(data, Place(a, 0), root)
    case ReadOffset(length, offset, proof) =>
      && i.kind.KReadOffset? && |a| == 17 && NumberAt(data, Place(a, 0), offset) && NumberAt(data, Place(a, 1), length)
      && proof == (a[16] == 1)
    case ReadSector(length, offset, root, proof) =>
      && i.kind.KReadSector? && |a| == 25 && At(data, Place(a, 0), root) && NumberAt(data, Place(a, 1), offset)
      && NumberAt(data, Place(a, 2), length) && proof == (a[24] == 1)
    case Revision => i.kind.KRevision? && |a| == 0
    case SwapSector(x, y, proof) =>
      && i.kind.KSwapSector? && |a| == 17 && NumberAt(data, Place(a, 0), x) && NumberAt(data, Place(a, 1), y)
      && proof == (a[16] == 1)
    case UpdateRegistry(key, tweak, revision, signature, value) =>
      && i.kind.KUpdateRegistry? && |a| == 56
      && At(data, Place(a, 0), tweak) && NumberAt(data, Place(a, 1), revision) && At(data, Place(a, 2), signature)
      && KeyStandsIn(data, Place(a, 3), Place(a, 4), key)
      && At(data, Place(a, 5), value) && |value| == Place(a, 6)
    case ReadRegistry(key, tweak) =>
      && i.kind.KReadRegistry? && |a| == 24
      && KeyStandsIn(data, Place(a, 0), Place(a, 1), key) && At(data, Place(a, 2), tweak)
  }

  lemma ArgIs(args: Bytes, k: nat)
    requires 8 * k + 8 <= |args|
    ensures Arg(args, k) == Place(args, k)
  {
    EightBytes(args[8 * k..8 * k + 8]);
  }

  lemma BytesIff(data: Bytes, off: nat, len: nat, x: Bytes)
    ensures var r := BytesAt(data, off, len); r.Ok? && r.value == x <==> |x| == len && At(data, off, x)
  {
  }

  lemma NumberIff(data: Bytes, off: nat, x: U64)
    ensures var r := U64At(data, off); r.Ok? && r.value == x <==> NumberAt(data, off, x)
  {
    if off + 8 <= |data| {
      var b := data[off..off + 8];
      EightBytes(b);
      hide FromLittleEndian, Number;
      assert b[..8] == b;
      LittleEndianBound(b);
      PowEight();
    }
  }

  lemma KeyIff(data: Bytes, off: nat, len: nat, key: SiaPublicKey)
    ensures var r := KeyAt(data, off, len); r.Ok? && r.value == key <==> KeyStandsIn(data, off, len, key)
  {
    if off + len <= |data| {
      ParseKeyIff(data[off..off + len], key);
      hide GetKey, NumberAt;
      if 24 + |key.key| <= len {
        InSlice(data, off, len, 0, key.algorithm);
        InSlice(data, off, len, 24, key.key);
        NumberInSlice(data, off, len, |key.key|);
      }
    }
  }

  lemma SliceOfSlice(data: Bytes, off: nat, len: nat, i: nat, n: nat)
    requires off + len <= |data| && i + n <= len
    ensures data[off..off + len][i..i + n] == data[off + i..off + i + n]
  {
    var s, t := data[off..off + len][i..i + n], data[off + i..off + i + n];
    forall k | 0 <= k < n
      ensures s[k] == t[k]
    {
      assert s[k] == data[off..off + len][i + k];
    }
    assert s == t;
  }

  lemma InSlice(data: Bytes, off: nat, len: nat, i: nat, x: Bytes)
    requires off + len <= |data| && i + |x| <= len
    ensures At(data[off..off + len], i, x) <==> At(data, off + i, x)
  {
    SliceOfSlice(data, off, len, i, |x|);
  }

  lemma NumberInSlice(data: Bytes, off: nat, len: nat, x: nat)
    requires off + len <= |data| && 24 <= len
    ensures NumberAt(data[off..off + len], 16, x) <==> NumberAt(data, off + 16, x)
  {
    SliceOfSlice(data, off, len, 16, 8);
  }

  lemma ParseKeyIff(b: Bytes, key: SiaPublicKey)
    ensures GetKey(b).Ok? && GetKey(b).value == key <==>
      24 + |key.key| <= |b| && At(b, 0, key.algorithm) && BlobAt(b, 16, key.key)
  {
    if |b| >= 24 {
      var s := b[16..];
      assert s[..8] == b[16..24];
      EightBytes(b[16..24]);
      hide FromLittleEndian, Number;
      var n := FromLittleEndian(s[..8]);
      if 24 + n <= |b| {
        assert s[8..][..n] == b[24..24 + n];
      }
    }
  }

  lemma ShortIff(i: Instruction, data: Bytes, op: Op)
    requires i.kind.KAppend? || i.kind.KDropSectors? || i.kind.KHasSector? || i.kind.KRevision?
    ensures Decode(i, data) == Ok(op, []) <==> Reads(i, data, op)
  {
    hide Arg, Place, At, NumberAt, BytesAt, U64At;
    if |i.args| >= 8 {
      ArgIs(i.args, 0);
      var o := Arg(i.args, 0);
      match op {
        case Append(d, _) => BytesIff(data, o, SECTOR_SIZE, d);
        case DropSectors(n, _) => NumberIff(data, o, n);
        case HasSector(root) => BytesIff(data, o, 32, root);
        case _ =>
      }
    }
  }

  lemma PairIff(i: Instruction, data: Bytes, op: Op)
    requires i.kind.KReadOffset? || i.kind.KSwapSector? || i.kind.KReadSector?
    ensures Decode(i, data) == Ok(op, []) <==> Reads(i, data, op)
  {
    hide Arg, Place, At, NumberAt, BytesAt, U64At;
    if |i.args| >= 16 {
      ArgIs(i.args, 0);
      ArgIs(i.args, 1);
      match op {
        case ReadOffset(length, offset, _) =>
          NumberIff(data, Arg(i.args, 1), length);
          NumberIff(data, Arg(i.args, 0), offset);
        case SwapSector(x, y, _) =>
          NumberIff(data, Arg(i.args, 0), x);
          NumberIff(data, Arg(i.args, 1), y);
        case ReadSector(length, offset, root, _) =>
          if |i.args| == 25 {
            ArgIs(i.args, 2);
            NumberIff(data, Arg(i.args, 2), length);
            NumberIff(data, Arg(i.args, 1), offset);
            BytesIff(data, Arg(i.args, 0), 32, root);
          }
        case _ =>
      }
    }
  }

  lemma ReadRegistryIff(i: Instruction, data: Bytes, op: Op)
    requires i.kind.KReadRegistry?
    ensures Decode(i, data) == Ok(op, []) <==> Reads(i, data, op)
  {
    hide Arg, Place, At, KeyAt, BytesAt, KeyStandsIn;
    if |i.args| == 24 && op.ReadRegistry? {
      ArgIs(i.args, 0);
      ArgIs(i.args, 1);
      ArgIs(i.args, 2);
      KeyIff(data, Arg(i.args, 0), Arg(i.args, 1), op.key);
      BytesIff(data, Arg(i.args, 2), 32, op.tweak);
    }
  }

  lemma UpdateRegistryIff(i: Instruction, data: Bytes, op: Op)
    requires i.kind.KUpdateRegistry? && |data| < TWO_63
    ensures Decode(i, data) == Ok(op, []) <==> Reads(i, data, op)
  {
    hide Arg, Place, KeyAt, U64At, NumberAt, KeyStandsIn;
    if |i.args| == 56 && op.UpdateRegistry? {
      ArgIs(i.args, 0);
      ArgIs(i.args, 1);
      ArgIs(i.args, 2);
      ArgIs(i.args, 3);
      ArgIs(i.args, 4);
      ArgIs(i.args, 5);
      ArgIs(i.args, 6);
      BytesIff(data, Arg(i.args, 0), 32, op.tweak);
      NumberIff(data, Arg(i.args, 1), op.revision);
      BytesIff(data, Arg(i.args, 2), 64, op.signature);
      KeyIff(data, Arg(i.args, 3), Arg(i.args, 4), op.key);
      BytesIff(data, Arg(i.args, 5), Arg(i.args, 6), op.value);
    }
  }

  /** Whatever a renter sends: the host makes an operation of an instruction if and only if its arguments have the
      right length and lead to the operands of that operation. */
  lemma DecodeIff(i: Instruction, data: Bytes, op: Op)
    requires |data| < TWO_63
    ensures Decode(i, data) == Ok(op, []) <==> Reads(i, data, op)
  {
    hide Decode, Reads;
    match i.kind {
      case KReadOffset => PairIff(i, data, op);
      case KSwapSector => PairIff(i, data, op);
      case KReadSector => PairIff(i, data, op);
      case KUpdateRegistry => UpdateRegistryIff(i, data, op);
      case KReadRegistry => ReadRegistryIff(i, data, op);
      case _ => ShortIff(i, data, op);
    }
  }

  predicate Writes(k: Kind) { k.KAppend? || k.KDropSectors? || k.KSwapSector? }

  /** Program.ReadOnly */
  method ReadOnly(p: seq<Instruction>) returns (r: bool)
    ensures r == IsReadOnly(p)
  {
    for i := 0 to |p|
      invariant forall k :: 0 <= k < i ==> !Writes(p[k].kind)
    {
      if Writes(p[i].kind) {
        return false;
      }
    }
    return true;
  }

  predicate IsReadOnly(p: seq<Instruction>) { forall i :: 0 <= i < |p| ==> !Writes(p[i].kind) }

  lemma StillReadOnly(p: seq<Instruction>, i: Instruction)
    ensures IsReadOnly(p + [i]) <==> IsReadOnly(p) && !Writes(i.kind)
  {
    assert (p + [i])[..|p|] == p;
    if IsReadOnly(p + [i]) {
      forall k | 0 <= k < |p|
        ensures !Writes(p[k].kind)
      {
        assert p[k] == (p + [i])[k];
      }
      assert (p + [i])[|p|] == i;
    }
  }

  // ----- prices -----

  const TIME_APPEND := 10000
  const TIME_COMMIT := 50000
  const TIME_HAS_SECTOR := 1
  const TIME_READ_OFFSET := 1000
  const TIME_READ_SECTOR := 1000
  const TIME_REVISION := 1
  const TIME_SWAP_SECTOR := 1
  const TIME_UPDATE_REGISTRY := 10000
  const TIME_READ_REGISTRY := 1000
  const INIT_MEMORY := 0x10_0000

  datatype PriceTable = PriceTable(
    initBaseCost: nat, memoryTimeCost: nat, dropSectorsBaseCost: nat, dropSectorsUnitCost: nat,
    hasSectorBaseCost: nat, readBaseCost: nat, readLengthCost: nat, revisionBaseCost: nat,
    swapSectorCost: nat, writeBaseCost: nat, writeLengthCost: nat, writeStoreCost: nat, collateralCost: nat)

  /** Memory and time are multiplied as unsigned 64-bit integers. */
  function MemoryCost(pt: PriceTable, memory: nat, time: nat): nat { pt.memoryTimeCost * ((memory * time) % TWO_64) }

  function WriteCost(pt: PriceTable, length: nat): nat {
    var rounded := if length % 4096 != 0 then length + (4096 - length % 4096) else length;
    pt.writeLengthCost * rounded + pt.writeBaseCost
  }

  function ReadCost(pt: PriceTable, length: nat): nat { pt.readLengthCost * length + pt.readBaseCost }

  function StoreCost(pt: PriceTable, size: nat, duration: nat): nat { pt.writeStoreCost * size * duration }

  function AppendCollateral(pt: PriceTable): nat { pt.collateralCost * SECTOR_SIZE }

  function InitCost(pt: PriceTable, dataLen: nat, numInstructions: nat): nat {
    MemoryCost(pt, dataLen, (1 + numInstructions) % TWO_64) + pt.initBaseCost
  }

  function DropSectorsTime(n: nat): nat { (1 + n) % TWO_64 }

  /** What one instruction adds to each account. */
  datatype Price = Price(collateral: nat, cost: nat, storage: nat, memory: nat, time: nat)

  /** Collateral, Cost, Memory and Time of the host's instructions. */
  function HostPrice(pt: PriceTable, duration: nat, op: Op): Price {
    match op
    case Append(_, _) =>
      var store := StoreCost(pt, SECTOR_SIZE, duration);
      Price(AppendCollateral(pt), WriteCost(pt, SECTOR_SIZE) + store, store, SECTOR_SIZE, TIME_APPEND)
    case DropSectors(n, _) =>
      Price(0, pt.dropSectorsUnitCost * n + pt.dropSectorsBaseCost, 0, 0, DropSectorsTime(n))
    case HasSector(_) => Price(0, pt.hasSectorBaseCost, 0, 0, TIME_HAS_SECTOR)
    case ReadOffset(length, _, _) => Price(0, ReadCost(pt, length), 0, 0, TIME_READ_SECTOR)
    case ReadSector(length, _, _, _) => Price(0, ReadCost(pt, length), 0, 0, TIME_READ_SECTOR)
    case Revision => Price(0, pt.revisionBaseCost, 0, 0, TIME_REVISION)
    case SwapSector(_, _, _) => Price(0, pt.swapSectorCost, 0, 0, TIME_SWAP_SECTOR)
    case UpdateRegistry(_, _, _, _, _) =>
      var store := StoreCost(pt, REGISTRY_ENTRY_SIZE, 5 * BLOCKS_PER_YEAR);
      Price(0, WriteCost(pt, REGISTRY_ENTRY_SIZE) + store, store, 0, TIME_UPDATE_REGISTRY)
    case ReadRegistry(_, _) =>
      var store := StoreCost(pt, REGISTRY_ENTRY_SIZE, 10 * BLOCKS_PER_YEAR);
      Price(0, WriteCost(pt, REGISTRY_ENTRY_SIZE) + store, store, 0, TIME_READ_REGISTRY)
  }

  /** What a program has run up so far; storage is what is refunded when it fails. */
  datatype Spent = Spent(cost: nat, storage: nat, collateral: nat, memory: nat)

  function Charge(pt: PriceTable, s: Spent, p: Price): Spent {
    var memory := (s.memory + p.memory) % TWO_64;
    Spent(s.cost + (MemoryCost(pt, memory, p.time) + p.cost), s.storage + p.storage, s.collateral + p.collateral,
      memory)
  }

  function AllSpent(pt: PriceTable, duration: nat, ops: seq<Op>): Spent {
    if ops == [] then Spent(0, 0, 0, INIT_MEMORY)
    else Charge(pt, AllSpent(pt, duration, ops[..|ops| - 1]), HostPrice(pt, duration, ops[|ops| - 1]))
  }

  lemma AppendFacts(pt: PriceTable, duration: nat, data: Bytes, proof: bool, off: nat)
    requires |data| == SECTOR_SIZE
    ensures var op, store := Append(data, proof), StoreCost(pt, SECTOR_SIZE, duration);
      && WellFormed(op) && Operands(op) == data
      && Instr(op, off) == Instruction(KAppend, PutU64(off) + Flag(proof))
      && HostPrice(pt, duration, op) == Price(AppendCollateral(pt), WriteCost(pt, SECTOR_SIZE) + store, store,
                                              SECTOR_SIZE, TIME_APPEND)
  {
    hide WriteCost, StoreCost, AppendCollateral, PutU64;
  }

  lemma SpentNext(pt: PriceTable, duration: nat, ops: seq<Op>, op: Op)
    ensures AllSpent(pt, duration, ops + [op]) == Charge(pt, AllSpent(pt, duration, ops), HostPrice(pt, duration, op))
  {
    hide Charge, HostPrice;
    assert (ops + [op])[..|ops|] == ops;
  }

  // ----- what things cost -----

  /** What is charged for writing is the least number of whole blocks of 4096 bytes. */
  lemma WriteRounds(pt: PriceTable, length: nat)
    ensures exists blocks: nat :: WritesBlocks(pt, length, blocks)
  {
    var r := if length % 4096 != 0 then length + (4096 - length % 4096) else length;
    assert WritesBlocks(pt, length, r / 4096);
  }

  predicate WritesBlocks(pt: PriceTable, length: nat, blocks: nat) {
    && 4096 * blocks - 4096 < length <= 4096 * blocks
    && WriteCost(pt, length) == 4096 * blocks * pt.writeLengthCost + pt.writeBaseCost
  }

  /** The price of every instruction, in numbers. */
  lemma Prices(pt: PriceTable, duration: nat, op: Op)
    ensures var p := HostPrice(pt, duration, op);
      match op
      case Append(_, _) =>
        && p.cost == 4194304 * pt.writeLengthCost + pt.writeBaseCost + 4194304 * pt.writeStoreCost * duration
        && p.storage == 4194304 * pt.writeStoreCost * duration && p.collateral == 4194304 * pt.collateralCost
        && p.memory == 4194304 && p.time == 10000
      case DropSectors(n, _) =>
        p == Price(0, pt.dropSectorsBaseCost + pt.dropSectorsUnitCost * n, 0, 0,
                   if n == 0xffff_ffff_ffff_ffff then 0 else n + 1)
      case HasSector(_) => p == Price(0, pt.hasSectorBaseCost, 0, 0, 1)
      case ReadOffset(length, _, _) => p == Price(0, pt.readBaseCost + pt.readLengthCost * length, 0, 0, 1000)
      case ReadSector(length, _, _, _) => p == Price(0, pt.readBaseCost + pt.readLengthCost * length, 0, 0, 1000)
      case Revision => p == Price(0, pt.revisionBaseCost, 0, 0, 1)
      case SwapSector(_, _, _) => p == Price(0, pt.swapSectorCost, 0, 0, 1)
      case UpdateRegistry(_, _, _, _, _) =>
        && p.cost == 4096 * pt.writeLengthCost + pt.writeBaseCost + 256 * 5 * 52560 * pt.writeStoreCost
        && p.storage == 256 * 5 * 52560 * pt.writeStoreCost && p.collateral == 0 && p.memory == 0 && p.time == 10000
      case ReadRegistry(_, _) =>
        && p.cost == 4096 * pt.writeLengthCost + pt.writeBaseCost + 256 * 10 * 52560 * pt.writeStoreCost
        && p.storage == 256 * 10 * 52560 * pt.writeStoreCost && p.collateral == 0 && p.memory == 0 && p.time == 1000
  {
  }

  function Appends(ops: seq<Op>): nat {
    if ops == [] then 0 else Appends(ops[..|ops| - 1]) + if ops[|ops| - 1].Append? then 1 else 0
  }

  /** A program holds on to one MiB and to every sector it has appended, which is also its collateral. */
  lemma {:induction false} MemoryAndCollateral(pt: PriceTable, duration: nat, ops: seq<Op>)
    ensures var s := AllSpent(pt, duration, ops);
      && s.memory == (0x10_0000 + 0x40_0000 * Appends(ops)) % TWO_64
      && s.collateral == Appends(ops) * (0x40_0000 * pt.collateralCost)
  {
    hide HostPrice, MemoryCost;
    if ops != [] {
      var n := |ops| - 1;
      MemoryAndCollateral(pt, duration, ops[..n]);
      PriceOfAppend(pt, duration, ops[n]);
      NextAppend(Appends(ops[..n]), 0x40_0000 * pt.collateralCost);
    }
  }

  lemma PriceOfAppend(pt: PriceTable, duration: nat, op: Op)
    ensures var p := HostPrice(pt, duration, op);
      && p.memory == (if op.Append? then 0x40_0000 else 0)
      && p.collateral == (if op.Append? then 0x40_0000 * pt.collateralCost else 0)
  {
    hide WriteCost, StoreCost, ReadCost;
  }

  lemma NextAppend(n: nat, c: nat)
    ensures (n + 1) * c == n * c + c
    ensures ((0x10_0000 + 0x40_0000 * n) % TWO_64 + 0x40_0000) % TWO_64 == (0x10_0000 + 0x40_0000 * (n + 1)) % TWO_64
  {
  }

  /** Each instruction adds its price, and all memory held so far for as long as it runs. */
  lemma CostGrows(pt: PriceTable, duration: nat, ops: seq<Op>)
    requires ops != []
    ensures var n := |ops| - 1;
      var s, t, p := AllSpent(pt, duration, ops[..n]), AllSpent(pt, duration, ops), HostPrice(pt, duration, ops[n]);
      && t.cost == s.cost + p.cost + pt.memoryTimeCost * ((t.memory * p.time) % TWO_64)
      && t.storage == s.storage + p.storage
  {
    hide HostPrice;
  }

  // ----- the host -----

  /** What a renter puts up for a program. */
  datatype Funds = Funds(money: nat, collateral: nat)

  /** Currency.Sub, which gives zero where the difference would be negative. */
  function Sub(x: nat, y: nat): nat { if x < y then 0 else x - y }

  /** refundCost */
  function Less(s: Spent, refund: nat): Spent { s.(cost := Sub(s.cost, refund), storage := Sub(s.storage, refund)) }

  /** What Execute gives back: the storage of a registry entry that is not there. */
  function RefundOf(pt: PriceTable, duration: nat, op: Op, missing: bool): nat {
    if op.ReadRegistry? && missing then HostPrice(pt, duration, op).storage else 0
  }

  /** The host's bill for a program, from the program and its data, when the registry lacks the entries
      that the instructions at the positions in missing ask for.  An empty program is refused, and so is
      one that is not paid for. */
  function HostBill(pt: PriceTable, duration: nat, p: seq<Instruction>, data: Bytes, finalized: bool,
                    missing: set<nat>, funds: Funds): Parsed<Spent>
  {
    var init := InitCost(pt, |data|, |p|);
    if p == [] || init > funds.money then Fail
    else
      var (s, _) :- HostSpent(pt, duration, p, data, missing, Funds(funds.money - init, funds.collateral));
      var commit := if !IsReadOnly(p) && finalized then MemoryCost(pt, s.memory, TIME_COMMIT) else 0;
      if init + s.cost + commit > funds.money then Fail else Ok(s.(cost := init + s.cost + commit), [])
  }

  /** executeInstructions: every instruction is priced by the operands found in the data, charged before
      it runs and refunded after. */
  function HostSpent(pt: PriceTable, duration: nat, p: seq<Instruction>, data: Bytes, missing: set<nat>, funds: Funds):
    Parsed<Spent>
  {
    if p == [] then Ok(Spent(0, 0, 0, INIT_MEMORY), [])
    else
      var n := |p| - 1;
      var (s, _) :- HostSpent(pt, duration, p[..n], data, missing, funds);
      var (op, _) :- Decode(p[n], data);
      var c := Charge(pt, s, HostPrice(pt, duration, op));
      if c.collateral > funds.collateral || c.cost > funds.money then Fail
      else Ok(Less(c, RefundOf(pt, duration, op, n in missing)), [])
  }

  // ----- the host's bill for what was built -----

  function Refunds(pt: PriceTable, duration: nat, ops: seq<Op>, missing: set<nat>): nat {
    if ops == [] then 0
    else
      var n := |ops| - 1;
      Refunds(pt, duration, ops[..n], missing) + RefundOf(pt, duration, ops[n], n in missing)
  }

  function Misses(ops: seq<Op>, missing: set<nat>): nat {
    if ops == [] then 0
    else
      var n := |ops| - 1;
      Misses(ops[..n], missing) + if ops[n].ReadRegistry? && n in missing then 1 else 0
  }

  /** Ten years of storing 256 bytes are given back for every entry that is read and missing, and nothing else. */
  lemma {:induction false} RefundsAre(pt: PriceTable, duration: nat, ops: seq<Op>, missing: set<nat>)
    ensures Refunds(pt, duration, ops, missing) == Misses(ops, missing) * (256 * 10 * 52560 * pt.writeStoreCost)
  {
    if ops != [] {
      var n := |ops| - 1;
      RefundsAre(pt, duration, ops[..n], missing);
      RefundIs(pt, duration, ops[n], n in missing);
      hide RefundOf;
      OneRefundMore(Misses(ops[..n], missing), 256 * 10 * 52560 * pt.writeStoreCost);
    }
  }

  lemma OneRefundMore(n: nat, c: nat)
    ensures (n + 1) * c == n * c + c
  {
  }

  lemma RefundIs(pt: PriceTable, duration: nat, op: Op, missing: bool)
    ensures RefundOf(pt, duration, op, missing) ==
      if op.ReadRegistry? && missing then 256 * 10 * 52560 * pt.writeStoreCost else 0
  {
  }

  lemma PriceCovers(pt: PriceTable, duration: nat, op: Op, missing: bool)
    ensures var p := HostPrice(pt, duration, op); RefundOf(pt, duration, op, missing) <= p.storage <= p.cost
  {
    hide StoreCost, WriteCost, ReadCost;
  }

  /** A refund is never more than what was charged, so that no subtraction is cut off. */
  lemma {:induction false} RefundsCovered(pt: PriceTable, duration: nat, ops: seq<Op>, missing: set<nat>)
    ensures var s := AllSpent(pt, duration, ops); Refunds(pt, duration, ops, missing) <= s.storage <= s.cost
  {
    hide HostPrice, RefundOf, MemoryCost;
    if ops != [] {
      var n := |ops| - 1;
      RefundsCovered(pt, duration, ops[..n], missing);
      PriceCovers(pt, duration, ops[n], n in missing);
    }
  }

  /** Charging after a refund is charging before it. */
  lemma ChargeLess(pt: PriceTable, s: Spent, refund: nat, p: Price, next: nat)
    requires refund <= s.storage <= s.cost && next <= p.storage <= p.cost
    ensures Charge(pt, Less(s, refund), p) == Less(Charge(pt, s, p), refund)
    ensures Less(Less(Charge(pt, s, p), refund), next) == Less(Charge(pt, s, p), refund + next)
  {
    hide MemoryCost;
  }

  /** Before each of the first n instructions, what was charged and not refunded is within the funds. */
  ghost predicate Affords(pt: PriceTable, duration: nat, ops: seq<Op>, missing: set<nat>, funds: Funds, n: nat)
    requires n <= |ops|
  {
    forall i :: 0 <= i < n ==> AffordsNext(pt, duration, ops, missing, funds, i)
  }

  predicate AffordsNext(pt: PriceTable, duration: nat, ops: seq<Op>, missing: set<nat>, funds: Funds, i: nat)
    requires i < |ops|
  {
    var c := AllSpent(pt, duration, ops[..i + 1]);
    c.collateral <= funds.collateral && Sub(c.cost, Refunds(pt, duration, ops[..i], missing)) <= funds.money
  }

  /** The host runs a built program up to the n-th instruction if and only if the funds allow, and has then
      charged what the builder has counted, less what it has refunded. */
  lemma {:induction false} HostSpends(pt: PriceTable, duration: nat, ops: seq<Op>, missing: set<nat>, funds: Funds,
                                      n: nat)
    requires AllWellFormed(ops) && |Data(ops)| < TWO_64 && n <= |ops|
    ensures HostSpent(pt, duration, Program(ops)[..n], Data(ops), missing, funds) ==
      if Affords(pt, duration, ops, missing, funds, n)
        then Ok(Less(AllSpent(pt, duration, ops[..n]), Refunds(pt, duration, ops[..n], missing)), [])
        else Fail
  {
    hide Decode, Program, Data, Charge, HostPrice, WellFormed, RefundOf, AffordsNext, Less, AllSpent, Refunds;
    if n == 0 {
      NothingSpent(pt, duration, missing);
    } else {
      HostSpends(pt, duration, ops, missing, funds, n - 1);
      ProgramDecodes(ops, n - 1);
      assert Program(ops)[..n][..n - 1] == Program(ops)[..n - 1];
      NextSpent(pt, duration, ops, missing, funds, n - 1);
    }
  }

  lemma NothingSpent(pt: PriceTable, duration: nat, missing: set<nat>)
    ensures Less(AllSpent(pt, duration, []), Refunds(pt, duration, [], missing)) == Spent(0, 0, 0, INIT_MEMORY)
  {
  }

  lemma NextSpent(pt: PriceTable, duration: nat, ops: seq<Op>, missing: set<nat>, funds: Funds, n: nat)
    requires n < |ops|
    ensures var s := Less(AllSpent(pt, duration, ops[..n]), Refunds(pt, duration, ops[..n], missing));
      var c := Charge(pt, s, HostPrice(pt, duration, ops[n]));
      && (c.collateral <= funds.collateral && c.cost <= funds.money <==>
          AffordsNext(pt, duration, ops, missing, funds, n))
      && Less(c, RefundOf(pt, duration, ops[n], n in missing)) ==
         Less(AllSpent(pt, duration, ops[..n + 1]), Refunds(pt, duration, ops[..n + 1], missing))
  {
    hide Charge, HostPrice, RefundOf;
    assert ops[..n + 1][..n] == ops[..n];
    RefundsCovered(pt, duration, ops[..n], missing);
    PriceCovers(pt, duration, ops[n], n in missing);
    ChargeLess(pt, AllSpent(pt, duration, ops[..n]), Refunds(pt, duration, ops[..n], missing),
               HostPrice(pt, duration, ops[n]), RefundOf(pt, duration, ops[n], n in missing));
  }

  /** Costs only grow. */
  lemma {:induction false} SpentGrows(pt: PriceTable, duration: nat, ops: seq<Op>, i: nat)
    requires i <= |ops|
    ensures var s, t := AllSpent(pt, duration, ops[..i]), AllSpent(pt, duration, ops);
      s.cost <= t.cost && s.collateral <= t.collateral
  {
    hide HostPrice, MemoryCost;
    if i == |ops| {
      assert ops[..i] == ops;
    } else {
      SpentGrows(pt, duration, ops[..|ops| - 1], i);
      assert ops[..|ops| - 1][..i] == ops[..i];
    }
  }

  lemma {:induction false} NoRefunds(pt: PriceTable, duration: nat, ops: seq<Op>)
    ensures Refunds(pt, duration, ops, {}) == 0
  {
    if ops != [] {
      NoRefunds(pt, duration, ops[..|ops| - 1]);
    }
  }

  /** All of the costs are enough for every instruction, and without refunds no less is. */
  lemma AllAfforded(pt: PriceTable, duration: nat, ops: seq<Op>, missing: set<nat>, funds: Funds)
    ensures var t := AllSpent(pt, duration, ops);
      && (t.cost <= funds.money && t.collateral <= funds.collateral ==>
            Affords(pt, duration, ops, missing, funds, |ops|))
      && (Affords(pt, duration, ops, {}, funds, |ops|) ==> t.cost <= funds.money && t.collateral <= funds.collateral)
  {
    hide AllSpent, Refunds;
    var t := AllSpent(pt, duration, ops);
    if t.cost <= funds.money && t.collateral <= funds.collateral {
      forall i | 0 <= i < |ops|
        ensures AffordsNext(pt, duration, ops, missing, funds, i)
      {
        SpentGrows(pt, duration, ops, i + 1);
      }
    }
    if Affords(pt, duration, ops, {}, funds, |ops|) {
      LastAfforded(pt, duration, ops, funds);
    }
  }

  lemma LastAfforded(pt: PriceTable, duration: nat, ops: seq<Op>, funds: Funds)
    requires Affords(pt, duration, ops, {}, funds, |ops|)
    ensures var t := AllSpent(pt, duration, ops); t.cost <= funds.money && t.collateral <= funds.collateral
  {
    if ops != [] {
      var n := |ops| - 1;
      hide AllSpent, Refunds;
      assert AffordsNext(pt, duration, ops, {}, funds, n);
      assert ops[..n + 1] == ops;
      NoRefunds(pt, duration, ops[..n]);
    }
  }

  function CommitCost(pt: PriceTable, duration: nat, ops: seq<Op>, finalized: bool): nat {
    if IsReadOnly(Program(ops)) || !finalized then 0
    else MemoryCost(pt, AllSpent(pt, duration, ops).memory, TIME_COMMIT)
  }

  /** Everything that a program costs. */
  function Full(pt: PriceTable, duration: nat, ops: seq<Op>, finalized: bool): Spent {
    var s := AllSpent(pt, duration, ops);
    s.(cost := InitCost(pt, |Data(ops)|, |ops|) + s.cost + CommitCost(pt, duration, ops, finalized))
  }

  /** The full cost in numbers: the data held for one unit of time and one more an instruction, the instructions,
      and for a program that changes the contract all memory held for the commit. */
  lemma FullIs(pt: PriceTable, duration: nat, ops: seq<Op>, finalized: bool)
    requires |ops| + 1 < TWO_64
    ensures var s := AllSpent(pt, duration, ops);
      Full(pt, duration, ops, finalized).cost ==
        pt.initBaseCost + pt.memoryTimeCost * ((|Data(ops)| * (1 + |ops|)) % TWO_64) + s.cost +
        if SomeChange(ops) && finalized then pt.memoryTimeCost * ((s.memory * 50000) % TWO_64) else 0
  {
    hide AllSpent, Data, Program, IsReadOnly, SomeChange;
    ReadOnlyIff(ops);
  }

  predicate Changes(op: Op) { op.Append? || op.DropSectors? || op.SwapSector? }

  ghost predicate SomeChange(ops: seq<Op>) { exists i :: 0 <= i < |ops| && Changes(ops[i]) }

  lemma {:induction false} ReadOnlyIff(ops: seq<Op>)
    ensures IsReadOnly(Program(ops)) <==> !SomeChange(ops)
  {
    hide Instr, Data, IsReadOnly, Changes, Writes, SomeChange;
    if ops == [] {
      NothingChanges();
    } else {
      var n := |ops| - 1;
      ReadOnlyIff(ops[..n]);
      StillReadOnly(Program(ops[..n]), Instr(ops[n], |Data(ops[..n])|));
      LastChanges(ops);
      KindWrites(ops[n], |Data(ops[..n])|);
    }
  }

  lemma NothingChanges()
    ensures IsReadOnly([]) && !SomeChange([])
  {
  }

  lemma LastChanges(ops: seq<Op>)
    requires ops != []
    ensures SomeChange(ops) <==> SomeChange(ops[..|ops| - 1]) || Changes(ops[|ops| - 1])
  {
    hide Changes;
    var n := |ops| - 1;
    if SomeChange(ops[..n]) {
      var i :| 0 <= i < n && Changes(ops[..n][i]);
      assert Changes(ops[i]);
    }
    if SomeChange(ops) && !Changes(ops[n]) {
      var i :| 0 <= i < |ops| && Changes(ops[i]);
      assert ops[..n][i] == ops[i];
    }
  }

  lemma KindWrites(op: Op, off: nat)
    ensures Writes(Instr(op, off).kind) <==> Changes(op)
  {
    hide PutU64, PutKey;
  }

  /** The bill for a program of this full cost: with the cost put up it is the cost less the refunds, which are
      never more than the cost; and when no entry is missing there is a bill only then. */
  predicate Settles(bill: Parsed<Spent>, full: Spent, refunds: nat, missing: set<nat>, funds: Funds) {
    && refunds <= full.storage <= full.cost
    && (full.cost <= funds.money && full.collateral <= funds.collateral ==>
          bill == Ok(full.(cost := full.cost - refunds, storage := full.storage - refunds), []))
    && (missing == {} && bill.Ok? ==> full.cost <= funds.money && full.collateral <= funds.collateral)
  }

  /** With its full cost put up, a built program runs to its end, and is billed that cost less what is refunded;
      and when nothing is refunded it runs to its end only then. */
  lemma BillIs(pt: PriceTable, duration: nat, ops: seq<Op>, finalized: bool, missing: set<nat>, funds: Funds)
    requires AllWellFormed(ops) && |Data(ops)| < TWO_64 && ops != []
    ensures Settles(HostBill(pt, duration, Program(ops), Data(ops), finalized, missing, funds),
                    Full(pt, duration, ops, finalized), Refunds(pt, duration, ops, missing), missing, funds)
  {
    hide InitCost, MemoryCost, HostSpent, Affords, AllSpent, Refunds, Program, Data, IsReadOnly, AllWellFormed;
    RefundsCovered(pt, duration, ops, missing);
    NoRefunds(pt, duration, ops);
    assert Program(ops)[..|ops|] == Program(ops) && ops[..|ops|] == ops;
    var init := InitCost(pt, |Data(ops)|, |ops|);
    if init <= funds.money {
      var left := Funds(funds.money - init, funds.collateral);
      HostSpends(pt, duration, ops, missing, left, |ops|);
      AllAfforded(pt, duration, ops, missing, left);
    }
  }

  // ----- the builder -----

  class ProgramBuilder {
    const duration: nat
    const pt: PriceTable
    var readonly: bool
    var program: seq<Instruction>
    var programData: Bytes
    var executionCost: nat
    var additionalStorage: nat
    var riskedCollateral: nat
    var usedMemory: nat
    /** What has been added so far. */
    ghost var ops: seq<Op>

    ghost predicate Valid()
      reads this
    {
      && AllWellFormed(ops) && program == Program(ops) && programData == Data(ops)
      && readonly == IsReadOnly(program)
      && Spent(executionCost, additionalStorage, riskedCollateral, usedMemory) == AllSpent(pt, duration, ops)
    }

    constructor (pt: PriceTable, duration: nat)
      ensures Valid() && ops == [] && this.pt == pt && this.duration == duration
    {
      this.pt, this.duration := pt, duration;
      readonly, program, programData := true, [], [];
      executionCost, additionalStorage, riskedCollateral, usedMemory := 0, 0, 0, INIT_MEMORY;
      ops := [];
    }

    /** addInstruction, together with the append to the program that precedes it everywhere. */
    method AddInstruction(ghost op: Op, operands: Bytes, i: Instruction, collateral: nat, cost: nat, storage: nat,
                          memory: nat, time: nat)
      requires Valid() && WellFormed(op)
      requires operands == Operands(op) && i == Instr(op, |programData|)
      requires Price(collateral, cost, storage, memory, time) == HostPrice(pt, duration, op)
      modifies this
      ensures ops == old(ops) + [op] && readonly == old(readonly)
      ensures AllWellFormed(ops) && program == Program(ops) && programData == Data(ops)
      ensures program == old(program) + [i]
      ensures Spent(executionCost, additionalStorage, riskedCollateral, usedMemory) == AllSpent(pt, duration, ops)
    {
      hide Operands, Instr, HostPrice, MemoryCost, WellFormed, AllSpent, Program, Data, IsReadOnly;
      SpentNext(pt, duration, ops, op);
      programData := programData + operands;
      program := program + [i];
      riskedCollateral := riskedCollateral + collateral;
      usedMemory := (usedMemory + memory) % TWO_64;
      var memoryCost := MemoryCost(pt, usedMemory, time);
      executionCost := executionCost + memoryCost;
      executionCost := executionCost + cost;
      additionalStorage := additionalStorage + storage;
      AppendOp(ops, op);
      ops := ops + [op];
    }

    method AddAppendInstruction(data: Bytes, merkleProof: bool) returns (ok: bool)
      requires Valid()
      modifies this
      ensures Valid() && ok == (|data| == SECTOR_SIZE)
      ensures ops == if ok then old(ops) + [Append(data, merkleProof)] else old(ops)
    {
      hide MemoryCost, WriteCost, StoreCost, AppendCollateral, AllSpent, Program, Data, IsReadOnly, Operands, Instr,
        HostPrice, WellFormed, PutU64, Flag;
      if |data| != SECTOR_SIZE {
        return false;
      }
      var dataOffset := |programData|;
      AppendFacts(pt, duration, data, merkleProof, dataOffset);
      var i := Instruction(KAppend, PutU64(dataOffset) + Flag(merkleProof));
      StillReadOnly(program, i);
      var store := StoreCost(pt, SECTOR_SIZE, duration);
      AddInstruction(Append(data, merkleProof), data, i, AppendCollateral(pt),
                     WriteCost(pt, SECTOR_SIZE) + store, store, SECTOR_SIZE, TIME_APPEND);
      readonly := false;
      return true;
    }

    method AddDropSectorsInstruction(numSectors: U64, merkleProof: bool)
      requires Valid()
      modifies this
      ensures Valid() && ops == old(ops) + [DropSectors(numSectors, merkleProof)]
    {
      hide MemoryCost, AllSpent, Program, Data, IsReadOnly;
      var numSectorsOffset := |programData|;
      var i := Instruction(KDropSectors, PutU64(numSectorsOffset) + Flag(merkleProof));
      StillReadOnly(program, i);
      AddInstruction(DropSectors(numSectors, merkleProof), PutU64(numSectors), i, 0,
                     pt.dropSectorsUnitCost * numSectors + pt.dropSectorsBaseCost, 0, 0, DropSectorsTime(numSectors));
      readonly := false;
    }

    method AddHasSectorInstruction(merkleRoot: Hash)
      requires Valid()
      modifies this
      ensures Valid() && ops == old(ops) + [HasSector(merkleRoot)]
    {
      hide MemoryCost, AllSpent, Program, Data, IsReadOnly;
      var i := Instruction(KHasSector, PutU64(|programData|));
      StillReadOnly(program, i);
      AddInstruction(HasSector(merkleRoot), merkleRoot, i, 0, pt.hasSectorBaseCost, 0, 0, TIME_HAS_SECTOR);
    }

    method AddReadOffsetInstruction(length: U64, offset: U64, merkleProof: bool)
      requires Valid()
      modifies this
      ensures Valid() && ops == old(ops) + [ReadOffset(length, offset, merkleProof)]
    {
      hide MemoryCost, ReadCost, AllSpent, Program, Data, IsReadOnly;
      var lengthOffset := |programData|;
      var offsetOffset := lengthOffset + 8;
      var i := Instruction(KReadOffset, PutU64(offsetOffset) + PutU64(lengthOffset) + Flag(merkleProof));
      StillReadOnly(program, i);
      AddInstruction(ReadOffset(length, offset, merkleProof), PutU64(length) + PutU64(offset), i, 0,
                     ReadCost(pt, length), 0, 0, TIME_READ_OFFSET);
    }

    method AddReadSectorInstruction(length: U64, offset: U64, merkleRoot: Hash, merkleProof: bool)
      requires Valid()
      modifies this
      ensures Valid() && ops == old(ops) + [ReadSector(length, offset, merkleRoot, merkleProof)]
    {
      hide MemoryCost, ReadCost, AllSpent, Program, Data, IsReadOnly;
      var lengthOffset := |programData|;
      var offsetOffset := lengthOffset + 8;
      var merkleRootOffset := offsetOffset + 8;
      var i := Instruction(KReadSector,
        PutU64(merkleRootOffset) + PutU64(offsetOffset) + PutU64(lengthOffset) + Flag(merkleProof));
      StillReadOnly(program, i);
      AddInstruction(ReadSector(length, offset, merkleRoot, merkleProof), PutU64(length) + PutU64(offset) + merkleRoot,
                     i, 0, ReadCost(pt, length), 0, 0, TIME_READ_SECTOR);
    }

    method AddRevisionInstruction()
      requires Valid()
      modifies this
      ensures Valid() && ops == old(ops) + [Revision]
    {
      hide MemoryCost, AllSpent, Program, Data, IsReadOnly;
      var i := Instruction(KRevision, []);
      StillReadOnly(program, i);
      AddInstruction(Revision, [], i, 0, pt.revisionBaseCost, 0, 0, TIME_REVISION);
    }

    method AddSwapSectorInstruction(sector1Idx: U64, sector2Idx: U64, merkleProof: bool)
      requires Valid()
      modifies this
      ensures Valid() && ops == old(ops) + [SwapSector(sector1Idx, sector2Idx, merkleProof)]
    {
      hide MemoryCost, AllSpent, Program, Data, IsReadOnly;
      var sector1Offset := |programData|;
      var sector2Offset := sector1Offset + 8;
      var i := Instruction(KSwapSector, PutU64(sector1Offset) + PutU64(sector2Offset) + Flag(merkleProof));
      StillReadOnly(program, i);
      AddInstruction(SwapSector(sector1Idx, sector2Idx, merkleProof), PutU64(sector1Idx) + PutU64(sector2Idx), i, 0,
                     pt.swapSectorCost, 0, 0, TIME_SWAP_SECTOR);
      readonly := false;
    }

    method AddUpdateRegistryInstruction(key: SiaPublicKey, tweak: Hash, revision: U64, signature: Segment, value: Blob)
      requires Valid()
      modifies this
      ensures Valid() && ops == old(ops) + [UpdateRegistry(key, tweak, revision, signature, value)]
    {
      hide MemoryCost, WriteCost, StoreCost, PutKey, AllSpent, Program, Data, IsReadOnly;
      var pk := PutKey(key);
      var tweakOff := |programData|;
      var revisionOff := tweakOff + 32;
      var signatureOff := revisionOff + 8;
      var pubKeyOff := signatureOff + 64;
      var dataOff := pubKeyOff + |pk|;
      var i := Instruction(KUpdateRegistry,
        PutU64(tweakOff) + PutU64(revisionOff) + PutU64(signatureOff) + PutU64(pubKeyOff) + PutU64(|pk|) +
        PutU64(dataOff) + PutU64(|value|));
      StillReadOnly(program, i);
      var store := StoreCost(pt, REGISTRY_ENTRY_SIZE, 5 * BLOCKS_PER_YEAR);
      AddInstruction(UpdateRegistry(key, tweak, revision, signature, value),
                     tweak + PutU64(revision) + signature + pk + value, i, 0,
                     WriteCost(pt, REGISTRY_ENTRY_SIZE) + store, store, 0, TIME_UPDATE_REGISTRY);
    }

    method AddReadRegistryInstruction(key: SiaPublicKey, tweak: Hash) returns (refund: nat)
      requires Valid()
      modifies this
      ensures Valid() && ops == old(ops) + [ReadRegistry(key, tweak)]
      ensures refund == HostPrice(pt, duration, ReadRegistry(key, tweak)).storage
    {
      hide MemoryCost, WriteCost, StoreCost, PutKey, AllSpent, Program, Data, IsReadOnly;
      var pk := PutKey(key);
      var pubKeyOff := |programData|;
      var tweakOff := pubKeyOff + |pk|;
      var i := Instruction(KReadRegistry, PutU64(pubKeyOff) + PutU64(|pk|) + PutU64(tweakOff));
      StillReadOnly(program, i);
      refund := StoreCost(pt, REGISTRY_ENTRY_SIZE, 10 * BLOCKS_PER_YEAR);
      AddInstruction(ReadRegistry(key, tweak), pk + tweak, i, 0, WriteCost(pt, REGISTRY_ENTRY_SIZE) + refund, refund, 0,
                     TIME_READ_REGISTRY);
    }

    /** Cost is, to the last unit, what the host charges for the program before refunds, and enough for it. */
    method Cost(finalized: bool) returns (cost: nat, storage: nat, collateral: nat)
      requires Valid()
      ensures |programData| < TWO_64 && ops != [] ==> forall missing, funds ::
        Settles(HostBill(pt, duration, program, programData, finalized, missing, funds),
                Spent(cost, storage, collateral, usedMemory), Refunds(pt, duration, ops, missing), missing, funds)
      ensures ops == [] ==> forall missing, funds ::
        HostBill(pt, duration, program, programData, finalized, missing, funds).Fail?
    {
      hide MemoryCost, Program, Data, HostSpent, HostBill, AllSpent, Refunds, Settles;
      cost := InitCost(pt, |programData|, |program|);
      cost := cost + executionCost;
      if !readonly && finalized {
        cost := cost + MemoryCost(pt, usedMemory, TIME_COMMIT);
      }
      storage, collateral := additionalStorage, riskedCollateral;
      assert Spent(cost, storage, collateral, usedMemory) == Full(pt, duration, ops, finalized);
      if ops == [] {
        forall missing, funds
          ensures HostBill(pt, duration, program, programData, finalized, missing, funds).Fail?
        {
          EmptyRefused(pt, duration, programData, finalized, missing, funds);
        }
      } else if |programData| < TWO_64 {
        forall missing, funds
          ensures Settles(HostBill(pt, duration, program, programData, finalized, missing, funds),
                          Spent(cost, storage, collateral, usedMemory), Refunds(pt, duration, ops, missing), missing,
                          funds)
        {
          BillIs(pt, duration, ops, finalized, missing, funds);
        }
      }
    }
  }

  lemma EmptyRefused(pt: PriceTable, duration: nat, data: Bytes, finalized: bool, missing: set<nat>, funds: Funds)
    ensures HostBill(pt, duration, [], data, finalized, missing, funds).Fail?
  {
  }
}
