/** The v1 skylink bitfield of modules/skylink.go: a 16-bit, variable-width encoding of an
    offset and a fetch size inside one 4 MiB sector.

    Bit operations with powers of two are written as the division, remainder and
    multiplication they are; every uint16 and uint64 truncation is explicit.
 */
module SkylinkBitfield {
  import opened Multiples
  import opened Packing
  import opened Wire

  const MAX_FETCH: nat := 0x40_0000        // 1 << 22
  const TWO_16: nat := 0x1_0000

  lemma PowValues()
    ensures Pow2(0) == 1 && Pow2(1) == 2 && Pow2(2) == 4 && Pow2(3) == 8 && Pow2(4) == 16 && Pow2(5) == 32
    ensures Pow2(6) == 64 && Pow2(7) == 128 && Pow2(8) == 256 && Pow2(9) == 512 && Pow2(10) == 1024
  {
    assert Pow2(3) == 8;
    assert Pow2(6) == 64;
    assert Pow2(9) == 512;
  }

  // ----- what a bitfield means -----

  /** 4 KiB, doubled once per mode. */
  function OffsetAlign(mode: nat): nat { 4096 * Pow2(mode) }

  function FetchAlign(mode: nat): nat { if mode == 0 then 4096 else 2048 * Pow2(mode) }

  /** The table of fetch sizes: eight per mode, each mode going on where the one before ends. */
  function FetchSize(mode: nat, step: nat): nat {
    (step + 1 + if mode == 0 then 0 else 8) * FetchAlign(mode)
  }

  /** The table of fetch sizes in the documentation of OffsetAndFetchSize, in KiB. */
  const TABLE: seq<seq<nat>> := [
    [4, 8, 12, 16, 20, 24, 28, 32],
    [36, 40, 44, 48, 52, 56, 60, 64],
    [72, 80, 88, 96, 104, 112, 120, 128],
    [144, 160, 176, 192, 208, 224, 240, 256],
    [288, 320, 352, 384, 416, 448, 480, 512],
    [576, 640, 704, 768, 832, 896, 960, 1024],
    [1152, 1280, 1408, 1536, 1664, 1792, 1920, 2048],
    [2304, 2560, 2816, 3072, 3328, 3584, 3840, 4096]]

  /** Fetch sizes are those of the table, and offsets multiples of 4, 8, ... 512 KiB. */
  lemma FetchTable(mode: nat, step: nat)
    requires mode < 8 && step < 8
    ensures |TABLE| == 8 && |TABLE[mode]| == 8 && FetchSize(mode, step) == 1024 * TABLE[mode][step]
    ensures OffsetAlign(mode) == 1024 * [4, 8, 16, 32, 64, 128, 256, 512][mode]
  {
    PowValues();
    if mode == 0 {} else if mode == 1 {} else if mode == 2 {} else if mode == 3 {}
    else if mode == 4 {} else if mode == 5 {} else if mode == 6 {} else { assert mode == 7; }
  }

  function Slots(mode: nat): nat
    requires mode < 8
  {
    Pow2(10 - mode)
  }

  /** A legal code: a mode, one of its eight fetch sizes and one of its offsets. */
  datatype Code = Code(mode: nat, step: nat, index: nat) {
    predicate InRange() {
      mode < 8 && step < 8 && index < Slots(mode)
    }

    function Offset(): nat { index * OffsetAlign(mode) }

    function Fetch(): nat { FetchSize(mode, step) }

    predicate Valid() {
      InRange() && Offset() + Fetch() <= MAX_FETCH
    }

    /** Version bits 00, then mode ones closed by a zero, then the fetch size, then the offset. */
    function Bits(): nat {
      4 * (Pow2(mode) - 1 + 2 * Pow2(mode) * (8 * index + step))
    }
  }

  /** Number of consecutive one bits from the lowest bit on. */
  function TrailingOnes(x: nat): nat {
    if x % 2 == 0 then 0 else 1 + TrailingOnes(x / 2)
  }

  function Read(bitfield: nat): Code {
    var c := bitfield / 4;
    var mode := TrailingOnes(c);
    var d := Div(c, 2 * Pow2(mode));
    Code(mode, d % 8, d / 8)
  }

  predicate Accepts(bitfield: nat) {
    bitfield % 4 == 0 && Read(bitfield).Valid()
  }

  // ----- reading back what was written -----

  lemma {:induction false} OnesSplit(x: nat)
    ensures var m := TrailingOnes(x); x == Pow2(m) - 1 + 2 * Pow2(m) * Div(x, 2 * Pow2(m))
  {
    var m := TrailingOnes(x);
    if x % 2 == 1 {
      hide Div;
      OnesSplit(x / 2);
      OnesSplitStep(x, x / 2, Pow2(m - 1));
    }
  }

  lemma OnesSplitStep(x: nat, h: nat, p: nat)
    requires p > 0 && x == 2 * h + 1 && h == p - 1 + 2 * p * Div(h, 2 * p)
    ensures x == 2 * p - 1 + 2 * (2 * p) * Div(x, 2 * (2 * p))
  {
    hide Div;
    HalvedBy(x, h, 2 * p, 2 * (2 * p));
    Regrouped(p, Div(h, 2 * p));
  }

  lemma Regrouped(p: nat, d: nat)
    ensures 2 * (2 * p * d) == 2 * (2 * p) * d
  {
  }

  /** Half of x has the same quotient by m as x has by twice m. */
  lemma HalvedBy(x: nat, h: nat, m: nat, n: nat)
    requires m > 0 && n == 2 * m && x == 2 * h + 1
    ensures Div(x, n) == Div(h, m)
  {
    var q := Div(h, m);
    Between(h, m, q);
    Twice(q, m, n);
    QuotientUnique(x, n, q, x - 2 * (q * m));
  }

  lemma Between(h: nat, m: nat, q: nat)
    requires m > 0 && q == h / m
    ensures q * m <= h < q * m + m
  {
    Quotient(h, m);
  }

  lemma Twice(q: nat, m: nat, n: nat)
    requires n == 2 * m
    ensures q * n == 2 * (q * m)
  {
  }

  lemma {:induction false} OnesOf(m: nat, d: nat)
    ensures TrailingOnes(Pow2(m) - 1 + 2 * Pow2(m) * d) == m
  {
    if m > 0 {
      OnesOf(m - 1, d);
      OnesOfStep(Pow2(m - 1), d);
    } else {
      assert Pow2(0) - 1 + 2 * Pow2(0) * d == 2 * d;
    }
  }

  lemma OnesOfStep(p: nat, d: nat)
    requires p > 0
    ensures 2 * p - 1 + 2 * (2 * p) * d == 2 * (p - 1 + 2 * p * d) + 1
  {
  }

  lemma PayloadOf(m: nat, d: nat)
    ensures (Pow2(m) - 1 + 2 * Pow2(m) * d) / (2 * Pow2(m)) == d
  {
    QuotientUnique(Pow2(m) - 1 + 2 * Pow2(m) * d, 2 * Pow2(m), d, Pow2(m) - 1);
  }

  lemma ReadBits(c: Code)
    requires c.step < 8
    ensures Read(c.Bits()) == c && c.Bits() % 4 == 0
  {
    hide TrailingOnes, Pow2, Read;
    var d := 8 * c.index + c.step;
    OnesOf(c.mode, d);
    PayloadOf(c.mode, d);
    ReadWhole(c.Bits() / 4, c.mode, d);
  }

  lemma ReadWhole(x: nat, mode: nat, d: nat)
    requires TrailingOnes(x) == mode && Div(x, 2 * Pow2(mode)) == d
    ensures Read(4 * x) == Code(mode, d % 8, d / 8)
  {
    assert 4 * x / 4 == x;
  }

  lemma BitsRead(bitfield: nat)
    requires bitfield % 4 == 0
    ensures Read(bitfield).Bits() == bitfield && Read(bitfield).step < 8
  {
    OnesSplit(bitfield / 4);
  }

  lemma SlotsProduct(mode: nat)
    requires mode < 8
    ensures Slots(mode) * Pow2(mode) == 1024
  {
    PowValues();
    if mode == 0 {} else if mode == 1 {} else if mode == 2 {} else if mode == 3 {}
    else if mode == 4 {} else if mode == 5 {} else if mode == 6 {} else { assert mode == 7; }
  }

  lemma BitsAre(c: Code)
    ensures c.Bits() == 4 * (Pow2(c.mode) - 1) + 64 * (c.index * Pow2(c.mode)) + 8 * (c.step * Pow2(c.mode))
  {
    var p := Pow2(c.mode);
    assert 2 * p * (8 * c.index + c.step) == 16 * (c.index * p) + 2 * (c.step * p);
  }

  lemma IndexProduct(mode: nat, index: nat)
    requires mode < 8
    ensures index < Slots(mode) ==> index * Pow2(mode) + Pow2(mode) <= 1024
    ensures index >= Slots(mode) ==> index * Pow2(mode) >= 1024
  {
    SlotsProduct(mode);
    if index < Slots(mode) {
      Gap(index, Slots(mode), Pow2(mode));
    } else {
      Scale(Slots(mode), index, Pow2(mode));
    }
  }

  lemma BitsBelow(p: nat, i: nat, s: nat)
    requires p > 0 && s <= 7 * p
    ensures i + p <= 1024 ==> 4 * (p - 1) + 64 * i + 8 * s < TWO_16
    ensures i >= 1024 ==> 4 * (p - 1) + 64 * i + 8 * s >= TWO_16
  {
  }

  /** A code with a legal mode and fetch size is a 16-bit word exactly when its offset is in range, and its
      two version bits are zero. */
  lemma BitsFit(c: Code)
    requires c.mode < 8 && c.step < 8
    ensures c.Bits() < TWO_16 <==> c.InRange()
    ensures c.Bits() % 4 == 0
  {
    hide Code.Bits, Pow2, Slots;
    BitsAre(c);
    IndexProduct(c.mode, c.index);
    Scale(c.step, 7, Pow2(c.mode));
    BitsBelow(Pow2(c.mode), c.index * Pow2(c.mode), c.step * Pow2(c.mode));
  }

  /** Every v1 word below 2^16 with fewer than eight mode bits is a code in range. */
  lemma ReadInRange(bitfield: nat)
    requires bitfield % 4 == 0 && bitfield < TWO_16 && Read(bitfield).mode < 8
    ensures Read(bitfield).InRange()
  {
    hide Read;
    BitsRead(bitfield);
    BitsFit(Read(bitfield));
  }

  // ----- what is written for an offset and a length -----

  /** The mode whose offsets a piece of this length may use; the last mode takes what is longer. */
  function LengthMode(length: nat): nat {
    if Mode(length, 1024) < 8 then Mode(length, 1024) else 7
  }

  function Remainder(length: nat): nat
    ensures LengthMode(length) > 0 ==> Remainder(length) + 8 * FetchAlign(LengthMode(length)) == length
  {
    var mode := LengthMode(length);
    if mode == 0 then length
    else
      LengthAboveBase(length);
      length - 8 * FetchAlign(mode)
  }

  lemma LengthAboveBase(length: nat)
    requires LengthMode(length) > 0
    ensures length > 8 * FetchAlign(LengthMode(length))
  {
    var mode := LengthMode(length);
    assert length > SizeLimit(mode - 1, 1024);
    assert Pow2(mode) == 2 * Pow2(mode - 1);
  }

  function LengthStep(length: nat): nat {
    var rem := Remainder(length);
    if rem == 0 then 0 else Div(rem - 1, FetchAlign(LengthMode(length)))
  }

  function Encoded(offset: nat, length: nat): Code {
    var mode := LengthMode(length);
    Code(mode, LengthStep(length), Div(offset, OffsetAlign(mode)))
  }

  predicate Aligned(offset: nat, length: nat) {
    IsMultiple(offset, OffsetAlign(LengthMode(length)))
  }

  function LeastFetch(length: nat): nat { FetchSize(LengthMode(length), LengthStep(length)) }

  /** offset + fetchSize on uint64. */
  function WrappedEnd(offset: nat, length: nat): nat { (offset + length) % TWO_64 }

  predicate Encodable(offset: nat, length: nat) {
    WrappedEnd(offset, length) <= MAX_FETCH && Aligned(offset, length)
  }

  /** Rounding up in whole steps. */
  lemma CeilDivide(rem: nat, unit: nat)
    requires unit > 0 && 0 < rem <= 8 * unit
    ensures var step := (rem - 1) / unit;
      step < 8 && rem <= (step + 1) * unit < rem + unit
  {
    var step := (rem - 1) / unit;
    Quotient(rem - 1, unit);
    assert (step + 1) * unit == step * unit + unit;
    if step >= 8 {
      Gap(7, step, unit);
    }
  }

  /** The top of a mode's fetch sizes is the size limit of the packer for that mode. */
  lemma TopOfMode(mode: nat)
    requires mode < 8
    ensures FetchSize(mode, 7) == SizeLimit(mode, 1024) <= MAX_FETCH
    ensures OffsetAlign(mode) == Alignment(mode, 1024)
  {
    PowValues();
    PowMonotone(mode, 7);
  }

  lemma FetchSizeIs(mode: nat, step: nat)
    ensures FetchSize(mode, step) == (step + 1) * FetchAlign(mode) + if mode == 0 then 0 else 8 * FetchAlign(mode)
    ensures FetchAlign(mode) > 0
  {
    var fa := FetchAlign(mode);
    assert (step + 1 + 8) * fa == (step + 1) * fa + 8 * fa;
  }

  lemma FetchSizeMonotone(mode: nat, step: nat, step': nat)
    requires step <= step'
    ensures FetchSize(mode, step) <= FetchSize(mode, step')
  {
    FetchSizeIs(mode, step);
    FetchSizeIs(mode, step');
    if step < step' {
      Gap(step + 1, step' + 1, FetchAlign(mode));
    }
  }

  lemma RemainderFits(length: nat)
    requires length <= MAX_FETCH
    ensures LengthMode(length) < 8 && Remainder(length) <= 8 * FetchAlign(LengthMode(length))
    ensures FetchSize(LengthMode(length), 7) <= MAX_FETCH
  {
    ModeExists(length, 1024);
    TopOfMode(LengthMode(length));
    FetchSizeIs(LengthMode(length), 7);
  }

  /** Up to 4 MiB the fetch size covers the length and is less than a step longer. */
  lemma StepInRange(length: nat)
    requires length <= MAX_FETCH
    ensures LengthMode(length) < 8 && LengthStep(length) < 8
    ensures length <= LeastFetch(length) <= MAX_FETCH
    ensures length > 0 ==> LeastFetch(length) < length + FetchAlign(LengthMode(length))
  {
    var mode, step := LengthMode(length), LengthStep(length);
    RemainderFits(length);
    FetchSizeIs(mode, step);
    if Remainder(length) > 0 {
      CeilDivide(Remainder(length), FetchAlign(mode));
    }
    FetchSizeMonotone(mode, step, 7);
  }

  function LittleEndian16(low: Byte, high: Byte): (r: nat)
    ensures r < TWO_16 && r % 256 == low && r / 256 == high
  {
    256 * (high as nat) + low
  }

  class Skylink {
    var bitfield: nat
    var merkleRoot: seq<Byte>

    /** A bitfield that parses and a 32-byte root. */
    ghost predicate Valid()
      reads this
    {
      bitfield < TWO_16 && Accepts(bitfield) && |merkleRoot| == 32
    }

    constructor ()
      ensures bitfield == 0 && merkleRoot == seq(32, _ => 0)
    {
      bitfield := 0;
      merkleRoot := seq(32, _ => 0);
    }

    method SetOffsetAndFetchSize(offset: nat, length: nat) returns (ok: bool)
      requires offset < TWO_64 && length < TWO_64
      modifies this`bitfield
      ensures ok == Encodable(offset, length)
      ensures bitfield == if ok then Encoded(offset, length).Bits() % TWO_16 else old(bitfield)
    {
      if (offset + length) % TWO_64 > MAX_FETCH {
        return false;
      }
      var offsetAlign := FindOffsetAlign(length);
      if offset % offsetAlign != 0 {
        return false;
      }
      var bitwiseOffset := (offset / offsetAlign) % TWO_16;
      var bitwiseFetchSize := FindFetchStep(length, offsetAlign);
      bitfield := AssembleBits(bitwiseOffset, bitwiseFetchSize, offsetAlign, Encoded(offset, length));
      ok := true;
    }

    method Bytes() returns (raw: seq<Byte>)
      requires Valid()
      ensures raw == [bitfield % 256, bitfield / 256] + merkleRoot
    {
      raw := [bitfield % 256, bitfield / 256] + merkleRoot;
    }

    /** A skylink that fails to load is left as it was. */
    method LoadBytes(data: seq<Byte>) returns (ok: bool)
      modifies this
      ensures ok == (|data| == 34 && Accepts(LittleEndian16(data[0], data[1])))
      ensures ok ==> Valid() && data == [bitfield % 256, bitfield / 256] + merkleRoot
      ensures !ok ==> bitfield == old(bitfield) && merkleRoot == old(merkleRoot)
    {
      hide Accepts, LittleEndian16;
      if |data| != 34 {
        return false;
      }
      var bits := LittleEndian16(data[0], data[1]);
      var _, _, valid := ValidateAndParseV1Bitfield(bits);
      if !valid {
        return false;
      }
      bitfield, merkleRoot := bits, data[2..];
      ok := true;
    }
  }

  /** Loading the bytes of a valid skylink gives that skylink back. */
  method RoundTripBytes(sl: Skylink, into: Skylink) returns (ok: bool)
    requires sl.Valid() && sl != into
    modifies into
    ensures ok && into.bitfield == sl.bitfield && into.merkleRoot == sl.merkleRoot
  {
    var raw := sl.Bytes();
    assert LittleEndian16(raw[0], raw[1]) == sl.bitfield && raw[2..] == sl.merkleRoot;
    ok := into.LoadBytes(raw);
    assert raw == [into.bitfield % 256, into.bitfield / 256] + into.merkleRoot;
    assert raw[2..] == into.merkleRoot;
  }

  method NewSkylinkV1(merkleRoot: seq<Byte>, offset: nat, length: nat) returns (sl: Skylink, ok: bool)
    requires |merkleRoot| == 32 && offset < TWO_64 && length < TWO_64
    ensures ok == Encodable(offset, length)
    ensures ok ==> sl.merkleRoot == merkleRoot && sl.bitfield == Encoded(offset, length).Bits() % TWO_16
  {
    sl := new Skylink();
    ok := sl.SetOffsetAndFetchSize(offset, length);
    if ok {
      sl.merkleRoot := merkleRoot;
    }
  }

  /** The first loop of setOffsetAndFetchSize: halve the alignment while the length allows it. */
  method FindOffsetAlign(length: nat) returns (offsetAlign: nat)
    ensures offsetAlign == OffsetAlign(LengthMode(length))
  {
    var minFetchSize := 0x20_0000;
    offsetAlign := 0x8_0000;
    ghost var mode: nat := 7;
    PowValues();
    while length <= minFetchSize && offsetAlign > 4096
      invariant mode <= 7 && offsetAlign == OffsetAlign(mode) && minFetchSize == 16384 * Pow2(mode)
      invariant LengthMode(length) <= mode
      decreases mode
    {
      assert Pow2(mode) == 2 * Pow2(mode - 1);
      assert length <= SizeLimit(mode - 1, 1024);
      offsetAlign := offsetAlign / 2;
      minFetchSize := minFetchSize / 2;
      mode := mode - 1;
    }
    LoopStopsAtMode(length, mode, minFetchSize, offsetAlign);
  }

  method FindFetchStep(length: nat, offsetAlign: nat) returns (step: nat)
    requires offsetAlign == OffsetAlign(LengthMode(length))
    ensures step == LengthStep(length) % TWO_16
  {
    var fetchSize := length;
    var fetchSizeAlign := 4096;
    if offsetAlign > 8192 {
      fetchSizeAlign := offsetAlign / 2;
    }
    FetchAlignIs(LengthMode(length), offsetAlign, fetchSizeAlign);
    if offsetAlign > 4096 {
      LengthAboveBase(length);
      fetchSize := fetchSize - fetchSizeAlign * 8;
    }
    if fetchSize > 0 {
      RoundDownSteps(fetchSize, fetchSizeAlign);
    }
    if fetchSize != 0 && fetchSize == (fetchSize / fetchSizeAlign) * fetchSizeAlign {
      fetchSize := fetchSize - 1;
    }
    fetchSize := fetchSize - fetchSize % fetchSizeAlign;
    step := (fetchSize / fetchSizeAlign) % TWO_16;
  }

  lemma RoundDownSteps(rem: nat, unit: nat)
    requires unit > 0 && rem > 0
    ensures rem != (rem / unit) * unit ==> (rem - 1) / unit == rem / unit
    ensures (rem - rem % unit) / unit == rem / unit
    ensures (rem - 1 - (rem - 1) % unit) / unit == (rem - 1) / unit
  {
    RoundDown(rem, unit);
    RoundDown(rem - 1, unit);
    OneBelow(rem, unit);
  }

  lemma RoundDown(x: nat, unit: nat)
    requires unit > 0
    ensures (x - x % unit) / unit == x / unit
  {
    Quotient(x, unit);
    QuotientUnique(x - x % unit, unit, x / unit, 0);
  }

  lemma OneBelow(rem: nat, unit: nat)
    requires unit > 0 && rem > 0
    ensures rem != (rem / unit) * unit ==> (rem - 1) / unit == rem / unit
  {
    Quotient(rem, unit);
    if rem % unit != 0 {
      QuotientUnique(rem - 1, unit, rem / unit, rem % unit - 1);
    }
  }

  /** x with n one bits shifted in below. */
  function ShiftInOnes(x: nat, n: nat): nat {
    if n == 0 then x else 2 * ShiftInOnes(x, n - 1) + 1
  }

  lemma {:induction false} ShiftInOnesIs(x: nat, n: nat)
    ensures ShiftInOnes(x, n) == Pow2(n) - 1 + Pow2(n) * x
  {
    if n > 0 {
      ShiftInOnesIs(x, n - 1);
      assert 2 * (Pow2(n - 1) * x) == Pow2(n) * x;
    }
  }

  lemma AlignOrder(m: nat, n: nat)
    ensures OffsetAlign(m) < OffsetAlign(n) <==> m < n
  {
    if m < n {
      PowMonotone(m + 1, n);
    } else {
      PowMonotone(n, m);
    }
  }

  /** The shifts at the end of setOffsetAndFetchSize, on a uint16. */
  method AssembleBits(bitwiseOffset: nat, bitwiseFetchSize: nat, offsetAlign: nat, ghost code: Code) returns (bits: nat)
    requires offsetAlign == OffsetAlign(code.mode)
    requires bitwiseOffset == code.index % TWO_16 && bitwiseFetchSize == code.step % TWO_16
    ensures bits == code.Bits() % TWO_16
  {
    hide Pow2, Code.Bits;
    Truncate(code.index, code.step);
    bits := bitwiseOffset * 8 % TWO_16;
    bits := (bits + bitwiseFetchSize) % TWO_16;
    bits := bits * 2 % TWO_16;
    ghost var payload := 2 * (8 * code.index + code.step);
    var baseAlign := 4096;
    ghost var ones: nat := 0;
    PowValues();
    AlignOrder(ones, code.mode);
    while baseAlign < offsetAlign
      invariant ones <= code.mode && baseAlign == OffsetAlign(ones)
      invariant baseAlign < offsetAlign <==> ones < code.mode
      invariant bits == ShiftInOnes(payload, ones) % TWO_16
      decreases code.mode - ones
    {
      DoubleAlign(ones);
      TruncateShift(ShiftInOnes(payload, ones));
      baseAlign := baseAlign * 2;
      bits := bits * 2 % TWO_16;
      bits := (bits + 1) % TWO_16;
      ones := ones + 1;
      AlignOrder(ones, code.mode);
    }
    TruncateShift(ShiftInOnes(payload, ones));
    bits := bits * 4 % TWO_16;
    assert 4 * ShiftInOnes(payload, code.mode) == code.Bits() by {
      ShiftInOnesIs(payload, code.mode);
      CodeBits(code);
    }
  }

  lemma DoubleAlign(mode: nat)
    ensures OffsetAlign(mode + 1) == 2 * OffsetAlign(mode)
  {
  }

  lemma ModShift(y: nat, k: nat)
    ensures (y + k * TWO_16) % TWO_16 == y % TWO_16
  {
  }

  /** Truncating an operand to 16 bits does not change a truncated result. */
  lemma TruncateOnce(a: nat, x: nat, c: nat)
    ensures (x % TWO_16 * a + c) % TWO_16 == (a * x + c) % TWO_16
  {
    var q, r := x / TWO_16, x % TWO_16;
    assert a * x == r * a + (a * q) * TWO_16 by {
      assert x == q * TWO_16 + r;
    }
    ModShift(r * a + c, a * q);
  }

  lemma Truncate(index: nat, step: nat)
    ensures ((index % TWO_16 * 8 % TWO_16 + step % TWO_16) % TWO_16) * 2 % TWO_16 == 2 * (8 * index + step) % TWO_16
  {
    TruncateOnce(8, index, 0);
    TruncateOnce(1, 8 * index, step % TWO_16);
    TruncateOnce(1, step, 8 * index);
    TruncateOnce(2, 8 * index + step, 0);
  }

  lemma TruncateShift(x: nat)
    ensures (x % TWO_16 * 2 % TWO_16 + 1) % TWO_16 == (2 * x + 1) % TWO_16
    ensures x % TWO_16 * 4 % TWO_16 == 4 * x % TWO_16
  {
    TruncateOnce(2, x, 0);
    TruncateOnce(1, 2 * x, 1);
    TruncateOnce(4, x, 0);
  }

  lemma CodeBits(code: Code)
    ensures code.Bits() == 4 * (Pow2(code.mode) - 1 + Pow2(code.mode) * (2 * (8 * code.index + code.step)))
  {
    var p, d := Pow2(code.mode), 8 * code.index + code.step;
    assert 2 * p * d == p * (2 * d);
  }

  lemma LoopStopsAtMode(length: nat, mode: nat, minFetchSize: nat, offsetAlign: nat)
    requires mode <= 7 && offsetAlign == OffsetAlign(mode) && minFetchSize == 16384 * Pow2(mode)
    requires LengthMode(length) <= mode && (length > minFetchSize || offsetAlign <= 4096)
    ensures mode == LengthMode(length)
  {
    if LengthMode(length) < mode {
      PowMonotone(LengthMode(length), mode - 1);
    }
  }

  lemma FetchAlignIs(mode: nat, offsetAlign: nat, fetchSizeAlign: nat)
    requires offsetAlign == OffsetAlign(mode) && fetchSizeAlign == if offsetAlign > 8192 then offsetAlign / 2 else 4096
    ensures fetchSizeAlign == FetchAlign(mode) && (offsetAlign > 4096 <==> mode > 0)
  {
    PowValues();
    if mode >= 2 {
      PowMonotone(2, mode);
    }
  }

  // ----- parsing -----

  lemma {:induction false} LowOnes(x: nat, n: nat)
    ensures TrailingOnes(x) >= n <==> x % Pow2(n) == Pow2(n) - 1
  {
    if n > 0 {
      LowOnes(x / 2, n - 1);
      HalfOnes(x, Pow2(n - 1));
    }
  }

  lemma HalfOnes(x: nat, p: nat)
    requires p > 0
    ensures x % (2 * p) == 2 * p - 1 <==> x % 2 == 1 && (x / 2) % p == p - 1
  {
    var k, r := (x / 2) / p, (x / 2) % p;
    Quotient(x / 2, p);
    assert x == k * (2 * p) + (2 * r + x % 2);
    QuotientUnique(x, 2 * p, k, 2 * r + x % 2);
  }

  lemma HalfFetchAlign(mode: nat)
    ensures FetchAlign(mode) == if mode > 0 then 4096 * Pow2(mode - 1) else 4096
  {
  }

  /** The second half of the parser, once the mode bits are shifted out. */
  method ParseFields(rest: nat, modeBits: nat) returns (offset: nat, fetchSize: nat)
    ensures offset == Code(modeBits, rest % 8, rest / 8).Offset()
    ensures fetchSize == Code(modeBits, rest % 8, rest / 8).Fetch()
  {
    var offsetAlign := 4096 * Pow2(modeBits);
    var fetchSizeAlign := 4096;
    if modeBits > 0 {
      fetchSizeAlign := fetchSizeAlign * Pow2(modeBits - 1);
    }
    HalfFetchAlign(modeBits);
    FetchSizeIs(modeBits, rest % 8);
    fetchSize := (rest % 8 + 1) * fetchSizeAlign;
    if modeBits > 0 {
      fetchSize := fetchSize + fetchSizeAlign * 8;
    }
    offset := rest / 8 * offsetAlign;
  }

  lemma ModeIsLegal(bitfield: nat)
    requires bitfield % 4 == 0 && bitfield < TWO_16
    ensures (bitfield / 4) % 256 == 255 <==> TrailingOnes(bitfield / 4) > 7
    ensures TrailingOnes(bitfield / 4) <= 7 <==> Read(bitfield).InRange()
    ensures Read(bitfield) == var mode := TrailingOnes(bitfield / 4);
      var rest := (bitfield / 4) / Pow2(mode + 1);
      Code(mode, rest % 8, rest / 8)
  {
    PowValues();
    LowOnes(bitfield / 4, 8);
    if TrailingOnes(bitfield / 4) <= 7 {
      ReadInRange(bitfield);
    }
  }

  method ValidateAndParseV1Bitfield(bitfield: nat) returns (offset: nat, fetchSize: nat, ok: bool)
    requires bitfield < TWO_16
    ensures ok == Accepts(bitfield)
    ensures ok ==> offset == Read(bitfield).Offset() && fetchSize == Read(bitfield).Fetch()
    ensures !ok ==> offset == 0 && fetchSize == MAX_FETCH
  {
    hide Read, Code.Offset, Code.Fetch, Code.InRange, TrailingOnes;
    offset, fetchSize, ok := 0, MAX_FETCH, false;
    if bitfield % 4 != 0 {
      return;
    }
    var rest := bitfield / 4;
    ModeIsLegal(bitfield);
    if rest % 256 == 255 {
      return;
    }
    // the number of trailing one bits
    var modeBits := TrailingOnes(rest);
    if modeBits > 7 {
      return;
    }
    rest := rest / Pow2(modeBits + 1);
    var off, size := ParseFields(rest, modeBits);
    if off + size > MAX_FETCH {
      return;
    }
    offset, fetchSize, ok := off, size, true;
  }

  // ----- writing, then reading -----

  /** The bitfield setOffsetAndFetchSize stores for an accepted pair. */
  function Stored(offset: nat, length: nat): nat { Encoded(offset, length).Bits() % TWO_16 }

  /** The stored bitfield parses, and gives back the offset and a fetch size that covers the length. */
  predicate Recovers(offset: nat, length: nat) {
    && Accepts(Stored(offset, length))
    && Read(Stored(offset, length)).Offset() == offset
    && Read(Stored(offset, length)).Fetch() >= length
  }

  lemma MaxIsSlots(mode: nat)
    requires mode < 8
    ensures Slots(mode) * OffsetAlign(mode) == MAX_FETCH
  {
    PowValues();
    if mode == 0 {} else if mode == 1 {} else if mode == 2 {} else if mode == 3 {}
    else if mode == 4 {} else if mode == 5 {} else if mode == 6 {} else { assert mode == 7; }
  }

  lemma AlignsNest(mode: nat)
    ensures FetchAlign(mode) > 0 && IsMultiple(OffsetAlign(mode), FetchAlign(mode))
  {
    Scaled(if mode == 0 then 1 else 2, FetchAlign(mode));
  }

  lemma FetchIsMultiple(mode: nat, step: nat)
    ensures FetchAlign(mode) > 0 && IsMultiple(FetchSize(mode, step), FetchAlign(mode)) && FetchSize(mode, step) > 0
  {
    FetchSizeIs(mode, step);
    Scaled(step + 1 + if mode == 0 then 0 else 8, FetchAlign(mode));
  }

  /** The least table entry is the least multiple of the mode's step that covers the length. */
  lemma LeastFetchIsLeast(length: nat, room: nat)
    requires length <= MAX_FETCH && length <= room && room > 0
    requires IsMultiple(room, FetchAlign(LengthMode(length)))
    ensures LeastFetch(length) <= room
  {
    StepInRange(length);
    FetchIsMultiple(LengthMode(length), LengthStep(length));
    if room < LeastFetch(length) {
      MultiplesApart(room, LeastFetch(length), FetchAlign(LengthMode(length)));
      if length == 0 {
        LeastOfNothing();
      }
    }
  }

  lemma LeastOfNothing()
    ensures LengthMode(0) == 0 && LeastFetch(0) == 4096
  {
    assert LengthMode(0) == 0;
  }

  lemma EncodedInRange(offset: nat, length: nat)
    requires Aligned(offset, length) && offset < MAX_FETCH && offset + length <= MAX_FETCH
    ensures var c := Encoded(offset, length);
      c.Valid() && c.Offset() == offset && c.Fetch() == LeastFetch(length) >= length
  {
    var mode := LengthMode(length);
    var oa, fa := OffsetAlign(mode), FetchAlign(mode);
    StepInRange(length);
    Quotient(offset, oa);
    MaxIsSlots(mode);
    if offset / oa >= Slots(mode) {
      if offset / oa > Slots(mode) {
        Gap(Slots(mode), offset / oa, oa);
      }
    }
    AlignsNest(mode);
    Scaled(Slots(mode), oa);
    Sum(MAX_FETCH, offset, oa);
    Coarser(MAX_FETCH - offset, oa, fa);
    LeastFetchIsLeast(length, MAX_FETCH - offset);
  }

  /** A stored skylink gives back the offset and covers the length exactly when the piece
      lies inside the sector and does not start at its very end.  The code also accepts an
      offset of 4 MiB with length 0, and pairs whose uint64 sum wraps around; those are
      exactly the accepted pairs it loses. */
  lemma RecoversIff(offset: nat, length: nat)
    requires offset < TWO_64 && length < TWO_64 && Encodable(offset, length)
    ensures Recovers(offset, length) <==> offset < MAX_FETCH && offset + length <= MAX_FETCH
    ensures Recovers(offset, length) ==> Read(Stored(offset, length)).Fetch() == LeastFetch(length)
  {
    hide Read, Stored, Encodable, Recovers, Code.Fetch;
    if offset < MAX_FETCH && offset + length <= MAX_FETCH {
      RecoversInside(offset, length);
    } else {
      LosesOutside(offset, length);
    }
  }

  lemma RecoversInside(offset: nat, length: nat)
    requires Encodable(offset, length) && offset < MAX_FETCH && offset + length <= MAX_FETCH
    ensures Recovers(offset, length) && Read(Stored(offset, length)).Fetch() == LeastFetch(length)
  {
    hide Read, Encoded, Aligned, LeastFetch, Code.Bits, Code.Fetch, Code.Offset;
    var c := Encoded(offset, length);
    EncodedInRange(offset, length);
    BitsFit(c);
    ReadBits(c);
    assert Stored(offset, length) == c.Bits();
  }

  lemma LosesOutside(offset: nat, length: nat)
    requires Encodable(offset, length) && !(offset < MAX_FETCH && offset + length <= MAX_FETCH)
    ensures !Recovers(offset, length)
  {
    hide Read, Stored, Encodable, Code.Fetch, Code.Offset;
    FetchPositive(Read(Stored(offset, length)));
  }

  lemma FetchPositive(c: Code)
    ensures c.Fetch() > 0
  {
    FetchSizeIs(c.mode, c.step);
  }

  /** Two accepted pairs that are lost: the end of the sector with nothing in it, and a sum
      that wraps to zero. */
  lemma LostPairs()
    ensures Encodable(MAX_FETCH, 0) && !Recovers(MAX_FETCH, 0)
    ensures Encodable(TWO_64 - 4096, 4096) && !Recovers(TWO_64 - 4096, 4096)
  {
    hide Recovers;
    PowValues();
    assert LengthMode(0) == 0 && LengthMode(4096) == 0;
    RecoversIff(MAX_FETCH, 0);
    RecoversIff(TWO_64 - 4096, 4096);
  }

  /** Without wrap-around, a pair is accepted exactly when it lies inside the sector and the
      offset meets the packer's alignment for that length. */
  lemma EncodableIff(offset: nat, length: nat)
    requires offset + length < TWO_64 && length <= MAX_FETCH
    ensures Encodable(offset, length) <==>
      offset + length <= MAX_FETCH && IsMultiple(offset, Alignment(Mode(length, 1024), 1024))
  {
    ModeExists(length, 1024);
    TopOfMode(LengthMode(length));
  }

  // ----- reading, then writing -----

  lemma FetchSizeMode(mode: nat, step: nat)
    requires mode < 8 && step < 8
    ensures LengthMode(FetchSize(mode, step)) == mode && LengthStep(FetchSize(mode, step)) == step
  {
    var size := FetchSize(mode, step);
    FetchSizeIs(mode, step);
    FetchSizeMonotone(mode, step, 7);
    TopOfMode(mode);
    ModeExists(size, 1024);
    var m := Mode(size, 1024);
    if mode > 0 {
      TopOfMode(mode - 1);
      BaseOfMode(mode);
      FetchBase(mode, step);
      if m < mode {
        PowMonotone(m, mode - 1);
      }
    }
    QuotientUnique((step + 1) * FetchAlign(mode) - 1, FetchAlign(mode), step, FetchAlign(mode) - 1);
  }

  lemma BaseOfMode(mode: nat)
    requires mode > 0
    ensures 8 * FetchAlign(mode) == SizeLimit(mode - 1, 1024)
  {
  }

  lemma FetchBase(mode: nat, step: nat)
    requires mode > 0
    ensures FetchSize(mode, step) > 8 * FetchAlign(mode)
  {
    FetchSizeIs(mode, step);
    Gap(0, step + 1, FetchAlign(mode));
  }

  lemma OffsetIndex(mode: nat, index: nat)
    ensures Div(index * OffsetAlign(mode), OffsetAlign(mode)) == index
    ensures IsMultiple(index * OffsetAlign(mode), OffsetAlign(mode))
  {
    Scaled(index, OffsetAlign(mode));
    QuotientUnique(index * OffsetAlign(mode), OffsetAlign(mode), index, 0);
  }

  lemma CodeReencodes(c: Code)
    requires c.mode < 8 && c.step < 8
    ensures Encoded(c.Offset(), c.Fetch()) == c && Aligned(c.Offset(), c.Fetch())
  {
    hide OffsetAlign, FetchSize, LengthMode, LengthStep;
    FetchSizeMode(c.mode, c.step);
    OffsetIndex(c.mode, c.index);
  }

  /** Every accepted bitfield re-encodes to itself. */
  lemma Reencodes(bitfield: nat)
    requires bitfield < TWO_16 && Accepts(bitfield)
    ensures var c := Read(bitfield); Encodable(c.Offset(), c.Fetch()) && Stored(c.Offset(), c.Fetch()) == bitfield
  {
    hide Read, Encoded, Aligned, Code.Bits, Code.Offset, Code.Fetch;
    BitsRead(bitfield);
    CodeReencodes(Read(bitfield));
  }

  /** No shorter entry of the table of fetch sizes covers the length. */
  lemma LeastInTable(length: nat, mode: nat, step: nat)
    requires length <= MAX_FETCH && mode < 8 && step < 8 && FetchSize(mode, step) >= length
    ensures FetchSize(mode, step) >= LeastFetch(length)
  {
    StepInRange(length);
    var m := LengthMode(length);
    if mode == m {
      FetchIsMultiple(mode, step);
      LeastFetchIsLeast(length, FetchSize(mode, step));
    } else if mode > m {
      FetchSizeMonotone(m, LengthStep(length), 7);
      TopOfMode(m);
      BaseOfMode(mode);
      FetchBase(mode, step);
      PowMonotone(m, mode - 1);
    } else {
      PowMonotone(mode, m - 1);
      TopOfMode(mode);
      FetchSizeMonotone(mode, step, 7);
    }
  }

  // ----- how many codes are illegal -----

  /** Offsets at which the given fetch size would reach past the sector. */
  function IllegalOffsets(mode: nat, step: nat): set<nat>
    requires mode < 8
  {
    set i: nat | i < Slots(mode) && !Code(mode, step, i).Valid()
  }

  function IllegalCount(mode: nat, step: nat): nat { if mode == 0 then step else (step + 8) / 2 }

  lemma IllegalIff(mode: nat, step: nat, index: nat)
    requires mode < 8 && step < 8 && index < Slots(mode)
    ensures !Code(mode, step, index).Valid() <==> index + IllegalCount(mode, step) >= Slots(mode)
  {
    PowValues();
    FetchSizeIs(mode, step);
    if mode == 0 {} else if mode == 1 {} else if mode == 2 {} else if mode == 3 {}
    else if mode == 4 {} else if mode == 5 {} else if mode == 6 {} else { assert mode == 7; }
  }

  function Range(low: nat, high: nat): set<nat> {
    if low >= high then {} else Range(low, high - 1) + {(high - 1) as nat}
  }

  lemma {:induction false} RangeSize(low: nat, high: nat)
    requires low <= high
    ensures |Range(low, high)| == high - low
    ensures forall i :: i in Range(low, high) <==> low <= i < high
  {
    if low < high {
      RangeSize(low, high - 1);
    }
  }

  lemma IllegalOffsetsSize(mode: nat, step: nat)
    requires mode < 8 && step < 8
    ensures |IllegalOffsets(mode, step)| == IllegalCount(mode, step)
  {
    PowValues();
    var n, k := Slots(mode), IllegalCount(mode, step);
    assert k <= n by { PowMonotone(3, 10 - mode); }
    forall i: nat | i < n
      ensures !Code(mode, step, i).Valid() <==> n - k <= i
    {
      IllegalIff(mode, step, i);
    }
    RangeSize(n - k, n);
    assert IllegalOffsets(mode, step) == Range(n - k, n);
  }

  /** The first mode has 28 illegal states; each later mode has 44, not the 60 that the
      comment on OffsetAndFetchSize gives. */
  lemma IllegalStates(mode: nat)
    requires mode < 8
    ensures |IllegalOffsets(mode, 0)| + |IllegalOffsets(mode, 1)| + |IllegalOffsets(mode, 2)| +
            |IllegalOffsets(mode, 3)| + |IllegalOffsets(mode, 4)| + |IllegalOffsets(mode, 5)| +
            |IllegalOffsets(mode, 6)| + |IllegalOffsets(mode, 7)| == if mode == 0 then 28 else 44
  {
    forall step: nat | step < 8
      ensures |IllegalOffsets(mode, step)| == IllegalCount(mode, step)
    {
      IllegalOffsetsSize(mode, step);
    }
  }

  // ----- packed files as skylinks -----

  /** With the constants of the Standard build, every placement of the packer has a skylink,
      and that skylink leads back to the file: the exact offset and the least fetch size of
      the table that covers it, still inside the sector. */
  lemma PackedFilesHaveSkylinks(p: FilePlacement, numSectors: nat)
    requires WellPlaced(p, numSectors, 1024)
    ensures Encodable(p.sectorOffset, p.size) && Accepts(Stored(p.sectorOffset, p.size))
    ensures var c := Read(Stored(p.sectorOffset, p.size));
      && c.Offset() == p.sectorOffset
      && c.Fetch() == LeastFetch(p.size) >= p.size
      && c.Offset() + c.Fetch() <= SectorSize(1024)
  {
    EncodableIff(p.sectorOffset, p.size);
    RecoversIff(p.sectorOffset, p.size);
  }

  /** And so it is for every file in every state of the packer. */
  lemma EveryPackedFileHasSkylink(p: Packer, i: nat)
    requires PackInv(p, 1024) && i < |p.placements|
    ensures var f := p.placements[i];
      && Encodable(f.sectorOffset, f.size) && Recovers(f.sectorOffset, f.size)
      && Read(Stored(f.sectorOffset, f.size)).Fetch() == LeastFetch(f.size)
  {
    hide Encodable, Stored, Read, Recovers, LeastFetch;
    var f := p.placements[i];
    assert WellPlaced(f, p.numSectors, 1024);
    PackedFilesHaveSkylinks(f, p.numSectors);
    InsideSector(f, p.numSectors);
    RecoversIff(f.sectorOffset, f.size);
  }

  lemma InsideSector(f: FilePlacement, numSectors: nat)
    requires WellPlaced(f, numSectors, 1024)
    ensures f.sectorOffset < MAX_FETCH && f.sectorOffset + f.size <= MAX_FETCH
  {
  }
}
