/** Multiples of a unit, the arithmetic under every alignment argument. */
module Multiples {
  predicate IsMultiple(x: nat, unit: nat)
    requires unit > 0
  {
    x % unit == 0
  }

  /** The least multiple of unit that is not below x. */
  function RoundUp(x: nat, unit: nat): (r: nat)
    requires unit > 0
    ensures x <= r < x + unit && IsMultiple(r, unit)
    ensures IsMultiple(x, unit) ==> r == x
  {
    if x % unit == 0 then x
    else
      var q := x / unit;
      Scaled(q + 1, unit);
      assert x - x % unit + unit == (q + 1) * unit by { Quotient(x, unit); }
      x - x % unit + unit
  }

  function Div(x: nat, unit: nat): nat
    requires unit > 0
  {
    x / unit
  }

  lemma Quotient(x: nat, unit: nat)
    requires unit > 0
    ensures x == (x / unit) * unit + x % unit
  {
  }

  lemma Gap(p: nat, q: nat, unit: nat)
    requires p < q
    ensures p * unit + unit <= q * unit
  {
    var d: nat := q - p - 1;
    var more: nat := d * unit;
    assert (p + 1 + d) * unit == p * unit + unit + more;
  }

  lemma QuotientUnique(x: nat, unit: nat, q: nat, r: nat)
    requires unit > 0 && x == q * unit + r && r < unit
    ensures x / unit == q && x % unit == r
  {
    Quotient(x, unit);
    if x / unit < q {
      Gap(x / unit, q, unit);
    } else if q < x / unit {
      Gap(q, x / unit, unit);
    }
  }

  lemma Scale(p: nat, q: nat, unit: nat)
    requires p <= q
    ensures p * unit <= q * unit
  {
    if p < q {
      Gap(p, q, unit);
    }
  }

  /** Different multiples are at least a unit apart. */
  lemma MultiplesApart(x: nat, y: nat, unit: nat)
    requires unit > 0 && IsMultiple(x, unit) && IsMultiple(y, unit) && x < y
    ensures x + unit <= y
  {
    Quotient(x, unit);
    Quotient(y, unit);
    if x / unit < y / unit {
      Gap(x / unit, y / unit, unit);
    } else {
      Scale(y / unit, x / unit, unit);
    }
  }

  lemma Scaled(q: nat, unit: nat)
    requires unit > 0
    ensures IsMultiple(q * unit, unit)
  {
    var x := q * unit;
    var p := x / unit;
    Quotient(x, unit);
    if p < q {
      Gap(p, q, unit);
    } else if q < p {
      Gap(q, p, unit);
    }
  }

  lemma Sum(x: nat, y: nat, unit: nat)
    requires unit > 0 && IsMultiple(x, unit) && IsMultiple(y, unit)
    ensures IsMultiple(x + y, unit)
    ensures x >= y ==> IsMultiple(x - y, unit)
  {
    Quotient(x, unit);
    Quotient(y, unit);
    var p, q := x / unit, y / unit;
    assert x + y == (p + q) * unit;
    Scaled(p + q, unit);
    if p >= q {
      assert x - y == (p - q) * unit;
      Scaled(p - q, unit);
    } else {
      Gap(p, q, unit);
    }
  }

  lemma Coarser(x: nat, big: nat, unit: nat)
    requires unit > 0 && big > 0 && IsMultiple(x, big) && IsMultiple(big, unit)
    ensures IsMultiple(x, unit)
  {
    Quotient(x, big);
    Quotient(big, unit);
    var p, q := x / big, big / unit;
    assert x == p * (q * unit) == (p * q) * unit;
    Scaled(p * q, unit);
  }

  lemma RoundUpShift(start: nat, x: nat, unit: nat)
    requires unit > 0 && IsMultiple(start, unit)
    ensures RoundUp(start + x, unit) == start + RoundUp(x, unit)
  {
    var r, r' := RoundUp(x, unit), RoundUp(start + x, unit);
    Sum(start, r, unit);
    RoundUpIsLeast(start + x, start + r, unit);
    Sum(r', start, unit);
    RoundUpIsLeast(x, r' - start, unit);
  }

  /** No multiple of unit lies strictly between x and RoundUp(x, unit). */
  lemma RoundUpIsLeast(x: nat, y: nat, unit: nat)
    requires unit > 0 && IsMultiple(y, unit) && x <= y
    ensures RoundUp(x, unit) <= y
  {
    var r := RoundUp(x, unit);
    Quotient(r, unit);
    Quotient(y, unit);
    if y / unit < r / unit {
      Gap(y / unit, r / unit, unit);
    } else if r / unit < y / unit {
      Gap(r / unit, y / unit, unit);
    }
  }
}

/** The sector packer of modules/packing.go.

    A parameter scale stands for alignmentScaling; the sector size is 4096 * scale in every
    build.  Lengths and offsets are nat, so each subtraction carries the obligation that the
    uint64 subtraction of the source does not wrap below zero.
 */
module Packing {
  import opened Common
  import opened Multiples
  datatype Error = SizeTooLarge | ZeroSize
  datatype Result<T> = Ok(value: T) | Err(error: Error)

  datatype Bucket = Bucket(sectorIndex: nat, sectorOffset: nat, length: nat)
  datatype PackingFile = PackingFile(id: string, size: nat)
  datatype FilePlacement = FilePlacement(fileID: string, size: nat, sectorIndex: nat, sectorOffset: nat)

  function SectorSize(scale: nat): nat { 4096 * scale }

  /** Every bucket starts and ends on a multiple of the smallest alignment. */
  function Unit(scale: nat): nat { 4 * scale }

  function Pow2(n: nat): (r: nat)
    ensures r > 0
  {
    if n == 0 then 1 else 2 * Pow2(n - 1)
  }

  // ----- alignment -----

  function SizeLimit(mode: nat, scale: nat): nat { 32 * Pow2(mode) * scale }

  function Alignment(mode: nat, scale: nat): nat { 4 * Pow2(mode) * scale }

  /** The first mode from n on whose size limit covers the file; 8 when there is none. */
  function LeastMode(size: nat, scale: nat, n: nat): (mode: nat)
    requires n <= 8
    ensures n <= mode <= 8
    ensures mode < 8 ==> size <= SizeLimit(mode, scale)
    ensures forall m :: n <= m < mode ==> size > SizeLimit(m, scale)
    decreases 8 - n
  {
    if n == 8 || size <= SizeLimit(n, scale) then n else LeastMode(size, scale, n + 1)
  }

  function Mode(size: nat, scale: nat): nat { LeastMode(size, scale, 0) }

  method RequiredAlignment(size: nat, scale: nat) returns (r: Result<nat>)
    ensures r == if Mode(size, scale) < 8 then Ok(Alignment(Mode(size, scale), scale)) else Err(SizeTooLarge)
  {
    var n := 0;
    while n < 8
      invariant n <= 8
      invariant LeastMode(size, scale, n) == Mode(size, scale)
    {
      if size <= 32 * Pow2(n) * scale {
        return Ok(4 * Pow2(n) * scale);
      }
      n := n + 1;
    }
    return Err(SizeTooLarge);
  }

  /** Exactly the sizes up to the sector size have an alignment. */
  lemma ModeExists(size: nat, scale: nat)
    ensures Mode(size, scale) < 8 <==> size <= SectorSize(scale)
  {
    assert Pow2(7) == 128 by {
      assert Pow2(4) == 16;
    }
    assert SizeLimit(7, scale) == SectorSize(scale);
    forall m | m < 8
      ensures SizeLimit(m, scale) <= SectorSize(scale)
    {
      PowMonotone(m, 7);
      assert 32 * Pow2(m) <= 4096;
    }
  }

  lemma {:induction false} PowMonotone(m: nat, n: nat)
    requires m <= n
    ensures Pow2(m) <= Pow2(n)
    decreases n - m
  {
    if m < n {
      PowMonotone(m, n - 1);
    }
  }

  function AlignInBucket(size: nat, scale: nat, sectorOffset: nat): nat
    requires scale > 0 && size <= SectorSize(scale)
  {
    ModeExists(size, scale);
    RoundUp(sectorOffset, Alignment(Mode(size, scale), scale)) - sectorOffset
  }

  method AlignFileInBucket(size: nat, scale: nat, sectorOffset: nat) returns (r: Result<nat>)
    requires scale > 0
    ensures r == if size <= SectorSize(scale) then Ok(AlignInBucket(size, scale, sectorOffset)) else Err(SizeTooLarge)
  {
    ModeExists(size, scale);
    var a := RequiredAlignment(size, scale);
    if a.Err? {
      return a;
    }
    var required := a.value;
    var alignmentInSector := sectorOffset;
    if sectorOffset % required != 0 {
      alignmentInSector := sectorOffset - sectorOffset % required + required;
    }
    r := Ok(alignmentInSector - sectorOffset);
  }

  lemma AlignmentIsUnits(mode: nat, scale: nat)
    requires scale > 0
    ensures IsMultiple(Alignment(mode, scale), Unit(scale))
  {
    Scaled(Pow2(mode), Unit(scale));
    assert Pow2(mode) * Unit(scale) == Alignment(mode, scale);
  }

  /** The space lost to alignment is a whole number of units and at most the file size, so
      length - alignment never wraps once length >= size. */
  lemma AlignInBucketSmall(size: nat, scale: nat, sectorOffset: nat)
    requires scale > 0 && size <= SectorSize(scale) && IsMultiple(sectorOffset, Unit(scale))
    ensures var a := AlignInBucket(size, scale, sectorOffset);
      && IsMultiple(a, Unit(scale)) && IsMultiple(sectorOffset + a, Unit(scale))
      && a <= size
  {
    ModeExists(size, scale);
    var mode := Mode(size, scale);
    var required := Alignment(mode, scale);
    AlignmentIsUnits(mode, scale);
    var start := RoundUp(sectorOffset, required);
    Coarser(start, required, Unit(scale));
    Sum(start, sectorOffset, Unit(scale));
    if mode == 0 {
      assert required == Unit(scale);
    } else {
      LimitOverAlignment(mode - 1, scale);
    }
  }

  lemma LimitOverAlignment(mode: nat, scale: nat)
    ensures SizeLimit(mode, scale) == 4 * Alignment(mode + 1, scale)
  {
    assert Pow2(mode + 1) == 2 * Pow2(mode);
  }

  // ----- finding a bucket -----

  /** The file still fits once it is aligned. */
  predicate Fits(b: Bucket, size: nat, scale: nat)
    requires scale > 0
  {
    size <= SectorSize(scale) && AlignInBucket(size, scale, b.sectorOffset) + size <= b.length
  }

  /** A nonempty piece of a sector that starts and ends on a unit. */
  ghost predicate ValidBucket(b: Bucket, scale: nat)
    requires scale > 0
  {
    && IsMultiple(b.sectorOffset, Unit(scale)) && IsMultiple(b.length, Unit(scale))
    && b.length > 0 && BucketEnd(b) <= SectorSize(scale)
  }

  ghost predicate ValidBuckets(buckets: seq<Bucket>, scale: nat)
    requires scale > 0
  {
    forall i :: 0 <= i < |buckets| ==> ValidBucket(buckets[i], scale)
  }

  function BucketEnd(b: Bucket): nat { b.sectorOffset + b.length }

  /** The alignment that the design asks for: files of up to 32, 64, 128, ... units of scale start at multiples
      of 4, 8, 16, ... of them. */
  predicate Aligned(start: nat, size: nat, scale: nat)
    requires scale > 0
  {
    && (size <= 32 * scale ==> IsMultiple(start, 4 * scale))
    && (32 * scale < size <= 64 * scale ==> IsMultiple(start, 8 * scale))
    && (64 * scale < size <= 128 * scale ==> IsMultiple(start, 16 * scale))
    && (128 * scale < size <= 256 * scale ==> IsMultiple(start, 32 * scale))
    && (256 * scale < size <= 512 * scale ==> IsMultiple(start, 64 * scale))
    && (512 * scale < size <= 1024 * scale ==> IsMultiple(start, 128 * scale))
    && (1024 * scale < size <= 2048 * scale ==> IsMultiple(start, 256 * scale))
    && (2048 * scale < size <= 4096 * scale ==> IsMultiple(start, 512 * scale))
  }

  /** The file can start here and still end inside the bucket. */
  predicate Room(b: Bucket, start: nat, size: nat, scale: nat)
    requires scale > 0
  {
    b.sectorOffset <= start && start + size <= BucketEnd(b) && Aligned(start, size, scale)
  }

  ghost predicate CanHold(b: Bucket, size: nat, scale: nat)
    requires scale > 0
  {
    exists start :: Room(b, start, size, scale)
  }

  lemma ModeIs(size: nat, scale: nat)
    requires scale > 0 && size <= SectorSize(scale)
    ensures var a := Alignment(Mode(size, scale), scale);
      && (size <= 32 * scale ==> a == 4 * scale)
      && (32 * scale < size <= 64 * scale ==> a == 8 * scale)
      && (64 * scale < size <= 128 * scale ==> a == 16 * scale)
      && (128 * scale < size <= 256 * scale ==> a == 32 * scale)
      && (256 * scale < size <= 512 * scale ==> a == 64 * scale)
      && (512 * scale < size <= 1024 * scale ==> a == 128 * scale)
      && (1024 * scale < size <= 2048 * scale ==> a == 256 * scale)
      && (2048 * scale < size <= 4096 * scale ==> a == 512 * scale)
  {
    ModeExists(size, scale);
    var m := Mode(size, scale);
    assert size <= SizeLimit(m, scale) && forall n :: 0 <= n < m ==> size > SizeLimit(n, scale);
    hide LeastMode, SizeLimit, Alignment;
    Limits(scale);
  }

  lemma Limits(scale: nat)
    ensures SizeLimit(0, scale) == 32 * scale && Alignment(0, scale) == 4 * scale
    ensures SizeLimit(1, scale) == 64 * scale && Alignment(1, scale) == 8 * scale
    ensures SizeLimit(2, scale) == 128 * scale && Alignment(2, scale) == 16 * scale
    ensures SizeLimit(3, scale) == 256 * scale && Alignment(3, scale) == 32 * scale
    ensures SizeLimit(4, scale) == 512 * scale && Alignment(4, scale) == 64 * scale
    ensures SizeLimit(5, scale) == 1024 * scale && Alignment(5, scale) == 128 * scale
    ensures SizeLimit(6, scale) == 2048 * scale && Alignment(6, scale) == 256 * scale
    ensures SizeLimit(7, scale) == 4096 * scale && Alignment(7, scale) == 512 * scale
  {
    assert Pow2(1) == 2 && Pow2(2) == 4 && Pow2(3) == 8 && Pow2(4) == 16;
    assert Pow2(5) == 32 && Pow2(6) == 64 && Pow2(7) == 128;
  }

  lemma AlignedIs(start: nat, size: nat, scale: nat)
    requires scale > 0 && size <= SectorSize(scale)
    ensures Aligned(start, size, scale) <==> IsMultiple(start, Alignment(Mode(size, scale), scale))
  {
    hide Alignment, Mode, IsMultiple;
    ModeIs(size, scale);
  }

  /** Where the file goes is the first place in the bucket where it can go, and it fits exactly if there is one. */
  lemma FitsIff(b: Bucket, size: nat, scale: nat)
    requires scale > 0 && ValidBucket(b, scale)
    ensures Fits(b, size, scale) <==> CanHold(b, size, scale)
    ensures Fits(b, size, scale) ==>
      && Room(b, FileStart(b, size, scale), size, scale)
      && forall start :: Room(b, start, size, scale) ==> FileStart(b, size, scale) <= start
  {
    hide Aligned, Alignment, Mode, IsMultiple;
    if size <= SectorSize(scale) {
      var first := FileStart(b, size, scale);
      AlignedIs(first, size, scale);
      assert Fits(b, size, scale) ==> Room(b, first, size, scale);
      forall start | Room(b, start, size, scale)
        ensures first <= start
      {
        AlignedIs(start, size, scale);
        RoundUpIsLeast(b.sectorOffset, start, Alignment(Mode(size, scale), scale));
      }
    }
  }

  /** k is the first of the largest buckets among the first n that can hold the file. */
  ghost predicate FirstOfLargest(buckets: seq<Bucket>, n: nat, k: nat, size: nat, scale: nat)
    requires scale > 0 && n <= |buckets|
  {
    && k < n && Fits(buckets[k], size, scale)
    && (forall j :: 0 <= j < n && Fits(buckets[j], size, scale) ==> buckets[j].length <= buckets[k].length)
    && (forall j :: 0 <= j < k && Fits(buckets[j], size, scale) ==> buckets[j].length < buckets[k].length)
  }

  /** The first of the largest fitting buckets among the first n, if any fits. */
  function Best(buckets: seq<Bucket>, n: nat, size: nat, scale: nat): (r: Option<nat>)
    requires scale > 0 && n <= |buckets|
    ensures r.Some? ==> r.value < n && FirstOfLargest(buckets, n, r.value, size, scale)
    ensures r.None? <==> forall j :: 0 <= j < n ==> !Fits(buckets[j], size, scale)
  {
    if n == 0 then None
    else
      var prev := Best(buckets, n - 1, size, scale);
      var b := buckets[n - 1];
      if Fits(b, size, scale) && (prev.None? || b.length > buckets[prev.value].length) then Some(n - 1) else prev
  }

  method FindBucket(size: nat, buckets: seq<Bucket>, scale: nat) returns (r: Option<nat>)
    requires scale > 0 && ValidBuckets(buckets, scale)
    ensures r == Best(buckets, |buckets|, size, scale)
    ensures r.Some? ==> FirstOfLargest(buckets, |buckets|, r.value, size, scale)
    ensures r.None? <==> forall j :: 0 <= j < |buckets| ==> !CanHold(buckets[j], size, scale)
    ensures r.Some? ==>
      && CanHold(buckets[r.value], size, scale)
      && (forall j :: 0 <= j < |buckets| && CanHold(buckets[j], size, scale) ==>
            buckets[j].length <= buckets[r.value].length)
      && (forall j :: 0 <= j < r.value && CanHold(buckets[j], size, scale) ==>
            buckets[j].length < buckets[r.value].length)
  {
    hide FirstOfLargest, AlignInBucket, RoundUp;
    r := None;
    for i := 0 to |buckets|
      invariant r == Best(buckets, i, size, scale)
    {
      var bucket := buckets[i];
      if !((r.None? && bucket.length >= size) || (r.Some? && bucket.length > buckets[r.value].length)) {
        continue;
      }
      assert bucket.length >= size by {
        if r.Some? {
          assert FirstOfLargest(buckets, i, r.value, size, scale);
          FitsIsLongEnough(buckets, i, r.value, size, scale);
        }
      }
      var fits := FitsAligned(size, bucket, scale);
      if fits {
        r := Some(i);
      }
    }
    BestHolds(buckets, size, scale);
  }

  lemma BestHolds(buckets: seq<Bucket>, size: nat, scale: nat)
    requires scale > 0 && ValidBuckets(buckets, scale)
    ensures var r := Best(buckets, |buckets|, size, scale);
      && (r.None? <==> forall j :: 0 <= j < |buckets| ==> !CanHold(buckets[j], size, scale))
      && (r.Some? ==>
            && CanHold(buckets[r.value], size, scale)
            && (forall j :: 0 <= j < |buckets| && CanHold(buckets[j], size, scale) ==>
                  buckets[j].length <= buckets[r.value].length)
            && (forall j :: 0 <= j < r.value && CanHold(buckets[j], size, scale) ==>
                  buckets[j].length < buckets[r.value].length))
  {
    hide Fits, CanHold, ValidBucket;
    forall j | 0 <= j < |buckets|
      ensures Fits(buckets[j], size, scale) <==> CanHold(buckets[j], size, scale)
    {
      FitsIff(buckets[j], size, scale);
    }
  }

  lemma FitsIsLongEnough(buckets: seq<Bucket>, n: nat, k: nat, size: nat, scale: nat)
    requires scale > 0 && n <= |buckets| && FirstOfLargest(buckets, n, k, size, scale)
    ensures buckets[k].length >= size
  {
  }

  /** The check inside the loop of findBucket; the subtraction does not wrap. */
  method FitsAligned(size: nat, bucket: Bucket, scale: nat) returns (fits: bool)
    requires scale > 0 && ValidBucket(bucket, scale) && bucket.length >= size
    ensures fits == Fits(bucket, size, scale)
    ensures fits <==> CanHold(bucket, size, scale)
  {
    FitsIff(bucket, size, scale);
    AlignInBucketSmall(size, scale, bucket.sectorOffset);
    var a := AlignFileInBucket(size, scale, bucket.sectorOffset);
    var room: nat := bucket.length - a.value;
    fits := room >= size;
  }

  // ----- packing into a bucket -----

  method ExtendSectors(buckets: seq<Bucket>, numSectors: nat, scale: nat) returns (r: seq<Bucket>, n: nat)
    ensures r == buckets + [Bucket(numSectors, 0, SectorSize(scale))] && n == numSectors + 1
  {
    r, n := buckets + [Bucket(numSectors, 0, SectorSize(scale))], numSectors + 1;
  }

  method InsertBucket(buckets: seq<Bucket>, b: Bucket, i: nat) returns (r: seq<Bucket>)
    requires i <= |buckets|
    ensures r == buckets[..i] + [b] + buckets[i..]
  {
    r := buckets + [Bucket(0, 0, 0)];
    // shift everything from i on by one place
    r := r[..i + 1] + r[i..|r| - 1];
    r := r[i := b];
  }

  /** The free space [from, to) of a sector as a list of at most one bucket. */
  function Space(sectorIndex: nat, from: nat, to: nat): seq<Bucket>
    requires from <= to
  {
    if from == to then [] else [Bucket(sectorIndex, from, to - from)]
  }

  method CreateNewBucket(sectorIndex: nat, sectorOffset: nat, length: nat, bucketIndex: nat, buckets: seq<Bucket>,
    scale: nat)
    returns (index: nat, r: seq<Bucket>)
    requires scale > 0 && bucketIndex <= |buckets| && IsMultiple(sectorOffset + length, Unit(scale))
    ensures RoundUp(sectorOffset, Unit(scale)) <= sectorOffset + length
    ensures var space := Space(sectorIndex, RoundUp(sectorOffset, Unit(scale)), sectorOffset + length);
      && r == buckets[..bucketIndex] + space + buckets[bucketIndex..]
      && index == bucketIndex + |space|
  {
    RoundUpIsLeast(sectorOffset, sectorOffset + length, Unit(scale));
    assert buckets == buckets[..bucketIndex] + buckets[bucketIndex..];
    index, r := bucketIndex, buckets;
    if length == 0 {
      return;
    }
    var a := AlignFileInBucket(1, scale, sectorOffset);
    assert Mode(1, scale) == 0 && Alignment(0, scale) == Unit(scale);
    var minimumAlignment := a.value;
    if minimumAlignment >= length {
      return;
    }
    r := InsertBucket(buckets, Bucket(sectorIndex, sectorOffset + minimumAlignment, length - minimumAlignment),
      bucketIndex);
    index := bucketIndex + 1;
  }

  /** Where a file that fits starts and, rounded up to a unit, ends. */
  function FileStart(b: Bucket, size: nat, scale: nat): nat
    requires scale > 0 && size <= SectorSize(scale)
  {
    b.sectorOffset + AlignInBucket(size, scale, b.sectorOffset)
  }

  function FileEnd(b: Bucket, size: nat, scale: nat): nat
    requires scale > 0 && size <= SectorSize(scale)
  {
    RoundUp(FileStart(b, size, scale) + size, Unit(scale))
  }

  lemma FileInsideBucket(b: Bucket, size: nat, scale: nat)
    requires scale > 0 && size > 0 && Fits(b, size, scale) && ValidBucket(b, scale)
    ensures b.sectorOffset <= FileStart(b, size, scale) < FileEnd(b, size, scale) <= BucketEnd(b)
    ensures IsMultiple(FileStart(b, size, scale), Unit(scale)) && IsMultiple(BucketEnd(b), Unit(scale))
  {
    AlignInBucketSmall(size, scale, b.sectorOffset);
    Sum(b.sectorOffset, b.length, Unit(scale));
    RoundUpIsLeast(FileStart(b, size, scale) + size, BucketEnd(b), Unit(scale));
  }

  /** What is left of a bucket around a packed file. */
  function Leftover(b: Bucket, size: nat, scale: nat): seq<Bucket>
    requires scale > 0 && size > 0 && Fits(b, size, scale) && ValidBucket(b, scale)
  {
    FileInsideBucket(b, size, scale);
    Space(b.sectorIndex, b.sectorOffset, FileStart(b, size, scale))
    + Space(b.sectorIndex, FileEnd(b, size, scale), BucketEnd(b))
  }

  method PackBucket(file: PackingFile, bucketIndex: nat, buckets: seq<Bucket>, scale: nat)
    returns (placement: FilePlacement, r: seq<Bucket>)
    requires scale > 0 && file.size > 0 && ValidBuckets(buckets, scale)
    requires bucketIndex < |buckets| && Fits(buckets[bucketIndex], file.size, scale)
    ensures var b := buckets[bucketIndex];
      && placement == FilePlacement(file.id, file.size, b.sectorIndex, FileStart(b, file.size, scale))
      && r == buckets[..bucketIndex] + Leftover(b, file.size, scale) + buckets[bucketIndex + 1..]
  {
    var oldBucket := buckets[bucketIndex];
    var sectorIndex, sectorOffset := oldBucket.sectorIndex, oldBucket.sectorOffset;
    FileInsideBucket(oldBucket, file.size, scale);
    // Delete the bucket.
    ghost var pre, post := buckets[..bucketIndex], buckets[bucketIndex + 1..];
    r := buckets[..bucketIndex] + buckets[bucketIndex + 1..];
    var a := AlignFileInBucket(file.size, scale, sectorOffset);
    var bucketAlignment := a.value;
    var index: nat;
    index, r := CreateNewBucket(sectorIndex, sectorOffset, bucketAlignment, bucketIndex, r, scale);
    ghost var before := Space(sectorIndex, sectorOffset, FileStart(oldBucket, file.size, scale));
    assert r == pre + before + post;
    assert r[..index] == pre + before && r[index..] == post;
    var bucketAfterLength: nat := oldBucket.length - file.size - bucketAlignment;
    var _, s := CreateNewBucket(sectorIndex, sectorOffset + bucketAlignment + file.size, bucketAfterLength, index, r,
      scale);
    r := s;
    placement := FilePlacement(file.id, file.size, sectorIndex, sectorOffset + bucketAlignment);
  }

  // ----- the layout invariant -----

  /** A stretch of one sector. */
  datatype Extent = Extent(sector: nat, start: nat, end: nat)

  function FreeExtent(b: Bucket): Extent { Extent(b.sectorIndex, b.sectorOffset, BucketEnd(b)) }

  /** A placed file together with the bytes lost to rounding its end up to a unit. */
  function PlacedExtent(p: FilePlacement, scale: nat): Extent
    requires scale > 0
  {
    Extent(p.sectorIndex, p.sectorOffset, RoundUp(p.sectorOffset + p.size, Unit(scale)))
  }

  predicate Apart(x: Extent, y: Extent) {
    x.sector != y.sector || x.end <= y.start || y.end <= x.start
  }

  predicate Before(x: Extent, y: Extent) {
    x.sector < y.sector || (x.sector == y.sector && x.end <= y.start)
  }

  predicate Inside(x: Extent, y: Extent) {
    x.sector == y.sector && y.start <= x.start <= x.end <= y.end
  }

  ghost predicate Sorted(buckets: seq<Bucket>) {
    forall i, j :: 0 <= i < j < |buckets| ==> Before(FreeExtent(buckets[i]), FreeExtent(buckets[j]))
  }

  /** A placement meets the alignment its size calls for and lies inside a used sector. */
  ghost predicate WellPlaced(p: FilePlacement, numSectors: nat, scale: nat)
    requires scale > 0
  {
    && 0 < p.size && p.sectorIndex < numSectors
    && Mode(p.size, scale) < 8 && IsMultiple(p.sectorOffset, Alignment(Mode(p.size, scale), scale))
    && p.sectorOffset + p.size <= PlacedExtent(p, scale).end <= SectorSize(scale)
  }

  ghost predicate Disjoint(placements: seq<FilePlacement>, scale: nat)
    requires scale > 0
  {
    forall i, j :: 0 <= i < j < |placements| ==>
      Apart(PlacedExtent(placements[i], scale), PlacedExtent(placements[j], scale))
  }

  ghost predicate ClearOf(x: Extent, placements: seq<FilePlacement>, scale: nat)
    requires scale > 0
  {
    forall i :: 0 <= i < |placements| ==> Apart(x, PlacedExtent(placements[i], scale))
  }

  ghost predicate HasFile(sector: nat, placements: seq<FilePlacement>) {
    exists i :: 0 <= i < |placements| && placements[i].sectorIndex == sector
  }

  function FreeBytes(buckets: seq<Bucket>): nat {
    if buckets == [] then 0 else buckets[0].length + FreeBytes(buckets[1..])
  }

  /** Placed sizes, each rounded up to a unit. */
  function UsedBytes(placements: seq<FilePlacement>, scale: nat): nat
    requires scale > 0
  {
    if placements == [] then 0
    else UsedBytes(placements[..|placements| - 1], scale) + RoundUp(placements[|placements| - 1].size, Unit(scale))
  }

  ghost predicate Layout(buckets: seq<Bucket>, placements: seq<FilePlacement>, numSectors: nat, scale: nat)
    requires scale > 0
  {
    && ValidBuckets(buckets, scale) && Sorted(buckets)
    && (forall i :: 0 <= i < |buckets| ==> buckets[i].sectorIndex < numSectors)
    && (forall i :: 0 <= i < |placements| ==> WellPlaced(placements[i], numSectors, scale))
    && Disjoint(placements, scale)
    && (forall i :: 0 <= i < |buckets| ==> ClearOf(FreeExtent(buckets[i]), placements, scale))
  }

  ghost predicate Conserved(buckets: seq<Bucket>, placements: seq<FilePlacement>, numSectors: nat, scale: nat)
    requires scale > 0
  {
    FreeBytes(buckets) + UsedBytes(placements, scale) == numSectors * SectorSize(scale)
  }

  ghost predicate AllUsed(placements: seq<FilePlacement>, numSectors: nat) {
    && numSectors <= |placements|
    && forall k :: 0 <= k < numSectors ==> HasFile(k, placements)
  }

  // ----- a packed file keeps the layout -----

  lemma InsideApart(x: Extent, y: Extent, z: Extent)
    requires Inside(x, y) && x.start < x.end && z.start < z.end && Apart(y, z)
    ensures Apart(x, z)
  {
  }

  lemma LeftoverShape(b: Bucket, size: nat, scale: nat)
    requires scale > 0 && size > 0 && Fits(b, size, scale) && ValidBucket(b, scale)
    ensures var left := Leftover(b, size, scale);
      var file := Extent(b.sectorIndex, FileStart(b, size, scale), FileEnd(b, size, scale));
      && ValidBuckets(left, scale) && Sorted(left)
      && forall i :: 0 <= i < |left| ==> Inside(FreeExtent(left[i]), FreeExtent(b)) && Apart(FreeExtent(left[i]), file)
  {
    FileInsideBucket(b, size, scale);
    var start, end := FileStart(b, size, scale), FileEnd(b, size, scale);
    Sum(start, b.sectorOffset, Unit(scale));
    Sum(BucketEnd(b), end, Unit(scale));
  }

  lemma SplitSorted(pre: seq<Bucket>, b: Bucket, mid: seq<Bucket>, post: seq<Bucket>)
    requires Sorted(pre + [b] + post) && Sorted(mid)
    requires forall i :: 0 <= i < |mid| ==> Inside(FreeExtent(mid[i]), FreeExtent(b))
    ensures Sorted(pre + mid + post)
  {
    var was, now := pre + [b] + post, pre + mid + post;
    var p, m := |pre|, |mid|;
    forall i, j | 0 <= i < j < |now|
      ensures Before(FreeExtent(now[i]), FreeExtent(now[j]))
    {
      // the position in the old list of the bucket that now[k] lies inside
      var oi := if i < p then i else if i < p + m then p else i - m + 1;
      var oj := if j < p then j else if j < p + m then p else j - m + 1;
      if oi < oj {
        assert Before(FreeExtent(was[oi]), FreeExtent(was[oj]));
      } else {
        assert now[i] == mid[i - p] && now[j] == mid[j - p];
      }
    }
  }

  /** The new free list and the new placement when a file goes into bucket k. */
  function PackedBuckets(buckets: seq<Bucket>, k: nat, size: nat, scale: nat): seq<Bucket>
    requires scale > 0 && size > 0 && ValidBuckets(buckets, scale)
    requires k < |buckets| && Fits(buckets[k], size, scale)
  {
    buckets[..k] + Leftover(buckets[k], size, scale) + buckets[k + 1..]
  }

  function Placed(file: PackingFile, b: Bucket, scale: nat): FilePlacement
    requires scale > 0 && file.size <= SectorSize(scale)
  {
    FilePlacement(file.id, file.size, b.sectorIndex, FileStart(b, file.size, scale))
  }

  lemma PackKeepsBuckets(buckets: seq<Bucket>, k: nat, size: nat, numSectors: nat, scale: nat)
    requires scale > 0 && size > 0 && ValidBuckets(buckets, scale) && Sorted(buckets)
    requires k < |buckets| && Fits(buckets[k], size, scale)
    requires forall i :: 0 <= i < |buckets| ==> buckets[i].sectorIndex < numSectors
    ensures var r := PackedBuckets(buckets, k, size, scale);
      && ValidBuckets(r, scale) && Sorted(r)
      && forall i :: 0 <= i < |r| ==> r[i].sectorIndex < numSectors
  {
    LeftoverShape(buckets[k], size, scale);
    var pre, post := buckets[..k], buckets[k + 1..];
    assert buckets == pre + [buckets[k]] + post;
    SplitSorted(pre, buckets[k], Leftover(buckets[k], size, scale), post);
  }

  /** The new file is inside the old bucket, so it is clear of every other bucket. */
  lemma PackClearsBuckets(buckets: seq<Bucket>, k: nat, file: PackingFile, scale: nat)
    requires scale > 0 && file.size > 0 && ValidBuckets(buckets, scale) && Sorted(buckets)
    requires k < |buckets| && Fits(buckets[k], file.size, scale)
    ensures var r := PackedBuckets(buckets, k, file.size, scale);
      forall i :: 0 <= i < |r| ==> Apart(FreeExtent(r[i]), PlacedExtent(Placed(file, buckets[k], scale), scale))
  {
    LeftoverShape(buckets[k], file.size, scale);
    FileInsideBucket(buckets[k], file.size, scale);
    var r, left := PackedBuckets(buckets, k, file.size, scale), Leftover(buckets[k], file.size, scale);
    forall i | 0 <= i < |r|
      ensures Apart(FreeExtent(r[i]), PlacedExtent(Placed(file, buckets[k], scale), scale))
    {
      if i < k {
        assert Before(FreeExtent(buckets[i]), FreeExtent(buckets[k]));
      } else if i < k + |left| {
        assert r[i] == left[i - k];
      } else {
        assert r[i] == buckets[i - |left| + 1];
        assert Before(FreeExtent(buckets[k]), FreeExtent(buckets[i - |left| + 1]));
      }
    }
  }

  /** What is left of the old bucket is inside it, so it is clear of every older placement. */
  lemma PackClearsPlacements(buckets: seq<Bucket>, k: nat, size: nat, placements: seq<FilePlacement>,
    numSectors: nat, scale: nat)
    requires scale > 0 && size > 0 && Layout(buckets, placements, numSectors, scale)
    requires k < |buckets| && Fits(buckets[k], size, scale)
    ensures var r := PackedBuckets(buckets, k, size, scale);
      forall i :: 0 <= i < |r| ==> ClearOf(FreeExtent(r[i]), placements, scale)
  {
    LeftoverShape(buckets[k], size, scale);
    var r, left := PackedBuckets(buckets, k, size, scale), Leftover(buckets[k], size, scale);
    forall i, j | 0 <= i < |r| && 0 <= j < |placements|
      ensures Apart(FreeExtent(r[i]), PlacedExtent(placements[j], scale))
    {
      if i < k {
        assert ClearOf(FreeExtent(buckets[i]), placements, scale);
      } else if i < k + |left| {
        assert r[i] == left[i - k];
        assert ClearOf(FreeExtent(buckets[k]), placements, scale);
        assert ValidBucket(left[i - k], scale);
        InsideApart(FreeExtent(r[i]), FreeExtent(buckets[k]), PlacedExtent(placements[j], scale));
      } else {
        assert r[i] == buckets[i - |left| + 1];
        assert ClearOf(FreeExtent(buckets[i - |left| + 1]), placements, scale);
      }
    }
  }

  lemma PlacedWell(file: PackingFile, b: Bucket, numSectors: nat, scale: nat)
    requires scale > 0 && file.size > 0 && ValidBucket(b, scale) && Fits(b, file.size, scale) &&
      b.sectorIndex < numSectors
    ensures WellPlaced(Placed(file, b, scale), numSectors, scale)
    ensures Inside(PlacedExtent(Placed(file, b, scale), scale), FreeExtent(b))
  {
    FileInsideBucket(b, file.size, scale);
    ModeExists(file.size, scale);
  }

  lemma PackClearsFiles(buckets: seq<Bucket>, k: nat, file: PackingFile, placements: seq<FilePlacement>,
    numSectors: nat, scale: nat)
    requires scale > 0 && file.size > 0 && Layout(buckets, placements, numSectors, scale)
    requires k < |buckets| && Fits(buckets[k], file.size, scale)
    ensures ClearOf(PlacedExtent(Placed(file, buckets[k], scale), scale), placements, scale)
  {
    var p := Placed(file, buckets[k], scale);
    PlacedWell(file, buckets[k], numSectors, scale);
    forall i | 0 <= i < |placements|
      ensures Apart(PlacedExtent(p, scale), PlacedExtent(placements[i], scale))
    {
      assert ClearOf(FreeExtent(buckets[k]), placements, scale);
      InsideApart(PlacedExtent(p, scale), FreeExtent(buckets[k]), PlacedExtent(placements[i], scale));
    }
  }

  lemma PackKeepsLayout(buckets: seq<Bucket>, k: nat, file: PackingFile, placements: seq<FilePlacement>,
    numSectors: nat, scale: nat)
    requires scale > 0 && file.size > 0 && Layout(buckets, placements, numSectors, scale)
    requires k < |buckets| && Fits(buckets[k], file.size, scale)
    ensures Layout(PackedBuckets(buckets, k, file.size, scale), placements + [Placed(file, buckets[k], scale)],
      numSectors, scale)
  {
    PackKeepsBuckets(buckets, k, file.size, numSectors, scale);
    PackClearsBuckets(buckets, k, file, scale);
    PackClearsPlacements(buckets, k, file.size, placements, numSectors, scale);
    PlacedWell(file, buckets[k], numSectors, scale);
    PackClearsFiles(buckets, k, file, placements, numSectors, scale);
    hide PackedBuckets, Placed, PlacedExtent, FreeExtent, Fits, ValidBucket, WellPlaced;
  }

  // ----- conservation -----

  lemma {:induction false} FreeBytesConcat(a: seq<Bucket>, b: seq<Bucket>)
    ensures FreeBytes(a + b) == FreeBytes(a) + FreeBytes(b)
  {
    if a == [] {
      assert a + b == b;
    } else {
      FreeBytesConcat(a[1..], b);
      assert (a + b)[1..] == a[1..] + b;
    }
  }

  /** A file takes out of the free space exactly its size rounded up to a unit. */
  lemma PackConserves(buckets: seq<Bucket>, k: nat, file: PackingFile, placements: seq<FilePlacement>,
    numSectors: nat, scale: nat)
    requires scale > 0 && file.size > 0 && ValidBuckets(buckets, scale)
    requires k < |buckets| && Fits(buckets[k], file.size, scale)
    requires Conserved(buckets, placements, numSectors, scale)
    ensures Conserved(PackedBuckets(buckets, k, file.size, scale), placements + [Placed(file, buckets[k], scale)],
      numSectors, scale)
  {
    var b := buckets[k];
    var pre, left, post := buckets[..k], Leftover(b, file.size, scale), buckets[k + 1..];
    assert buckets == pre + ([b] + post);
    FreeBytesConcat(pre, [b] + post);
    FreeBytesConcat([b], post);
    FreeBytesConcat(pre + left, post);
    FreeBytesConcat(pre, left);
    FileInsideBucket(b, file.size, scale);
    RoundUpShift(FileStart(b, file.size, scale), file.size, Unit(scale));
    LeftoverBytes(b, file.size, scale);
    var p := placements + [Placed(file, b, scale)];
    assert p[..|p| - 1] == placements;
  }

  lemma LeftoverBytes(b: Bucket, size: nat, scale: nat)
    requires scale > 0 && size > 0 && Fits(b, size, scale) && ValidBucket(b, scale)
    ensures FreeBytes(Leftover(b, size, scale)) == b.length - (FileEnd(b, size, scale) - FileStart(b, size, scale))
  {
    FileInsideBucket(b, size, scale);
    FreeBytesConcat(Space(b.sectorIndex, b.sectorOffset, FileStart(b, size, scale)),
                    Space(b.sectorIndex, FileEnd(b, size, scale), BucketEnd(b)));
  }

  // ----- a new sector keeps the layout -----

  lemma FreshSectorValid(sector: nat, scale: nat)
    requires scale > 0
    ensures ValidBucket(Bucket(sector, 0, SectorSize(scale)), scale)
  {
    Scaled(1024, Unit(scale));
    Scaled(0, Unit(scale));
  }

  lemma ExtendKeepsLayout(buckets: seq<Bucket>, placements: seq<FilePlacement>, numSectors: nat, scale: nat)
    requires scale > 0 && Layout(buckets, placements, numSectors, scale)
    ensures Layout(buckets + [Bucket(numSectors, 0, SectorSize(scale))], placements, numSectors + 1, scale)
  {
    var whole := Bucket(numSectors, 0, SectorSize(scale));
    FreshSectorValid(numSectors, scale);
    forall i | 0 <= i < |placements|
      ensures WellPlaced(placements[i], numSectors + 1, scale) &&
        Apart(FreeExtent(whole), PlacedExtent(placements[i], scale))
    {
      assert WellPlaced(placements[i], numSectors, scale);
    }
  }

  lemma ExtendConserves(buckets: seq<Bucket>, placements: seq<FilePlacement>, numSectors: nat, scale: nat)
    requires scale > 0 && Conserved(buckets, placements, numSectors, scale)
    ensures Conserved(buckets + [Bucket(numSectors, 0, SectorSize(scale))], placements, numSectors + 1, scale)
  {
    var whole := Bucket(numSectors, 0, SectorSize(scale));
    FreeBytesConcat(buckets, [whole]);
    assert FreeBytes([whole]) == SectorSize(scale);
    assert (numSectors + 1) * SectorSize(scale) == numSectors * SectorSize(scale) + SectorSize(scale);
  }

  /** A whole sector holds any file. */
  lemma EmptySectorFits(sector: nat, size: nat, scale: nat)
    requires scale > 0 && size <= SectorSize(scale)
    ensures Fits(Bucket(sector, 0, SectorSize(scale)), size, scale)
  {
    ModeExists(size, scale);
  }

  // ----- PackFiles -----

  function Ids(list: seq<PackingFile>): set<string> { set i | 0 <= i < |list| :: list[i].id }

  ghost predicate Descending(list: seq<PackingFile>) {
    forall i, j :: 0 <= i < j < |list| ==> list[i].size >= list[j].size
  }

  ghost predicate DistinctIds(list: seq<PackingFile>) {
    forall i, j :: 0 <= i < j < |list| ==> list[i].id != list[j].id
  }

  ghost predicate FromMap(list: seq<PackingFile>, files: map<string, nat>) {
    forall i :: 0 <= i < |list| ==> list[i].id in files && files[list[i].id] == list[i].size
  }

  /** Some order in which sort.Sort may leave the entries of the map: descending by size. */
  ghost predicate SortedFiles(list: seq<PackingFile>, files: map<string, nat>) {
    Descending(list) && DistinctIds(list) && FromMap(list, files) && Ids(list) == files.Keys
  }

  ghost predicate IsLargest(m: map<string, nat>, id: string) {
    id in m && forall other :: other in m ==> m[other] <= m[id]
  }

  /** list has been taken from files in descending order and rest is what remains. */
  ghost predicate PartlySorted(list: seq<PackingFile>, rest: map<string, nat>, files: map<string, nat>) {
    && Descending(list) && DistinctIds(list) && FromMap(list, files)
    && rest == files - Ids(list)
    && forall i, id :: 0 <= i < |list| && id in rest ==> list[i].size >= rest[id]
  }

  lemma IdsAppend(list: seq<PackingFile>, f: PackingFile)
    ensures Ids(list + [f]) == Ids(list) + {f.id}
  {
    var more := list + [f];
    assert forall i :: 0 <= i < |list| ==> more[i] == list[i];
    assert more[|list|] == f;
    forall id | id in Ids(list) + {f.id}
      ensures id in Ids(more)
    {
      if id in Ids(list) {
        var i :| 0 <= i < |list| && list[i].id == id;
        assert more[i].id == id;
      }
    }
  }

  lemma SortStep(list: seq<PackingFile>, rest: map<string, nat>, files: map<string, nat>, id: string)
    requires PartlySorted(list, rest, files) && IsLargest(rest, id)
    ensures PartlySorted(list + [PackingFile(id, rest[id])], rest - {id}, files)
  {
    var f := PackingFile(id, rest[id]);
    IdsAppend(list, f);
    assert rest - {id} == files - Ids(list + [f]);
    forall i | 0 <= i < |list|
      ensures list[i].id != id
    {
      assert list[i].id in Ids(list);
    }
  }

  lemma {:induction false} HasLargest(m: map<string, nat>)
    requires m != map[]
    ensures exists id :: IsLargest(m, id)
    decreases |m|
  {
    var k :| k in m;
    var rest := m - {k};
    if rest == map[] {
      assert forall x :: x in m && x != k ==> x in rest;
      assert IsLargest(m, k);
    } else {
      assert m.Keys == rest.Keys + {k};
      HasLargest(rest);
      var id :| IsLargest(rest, id);
      assert IsLargest(m, if m[k] > m[id] then k else id);
    }
  }

  lemma SortDone(list: seq<PackingFile>, files: map<string, nat>)
    requires PartlySorted(list, map[], files)
    ensures SortedFiles(list, files)
  {
    assert forall id :: id in files && id !in Ids(list) ==> id in files - Ids(list);
  }

  method SortByFileSizeDescending(files: map<string, nat>) returns (list: seq<PackingFile>)
    ensures SortedFiles(list, files)
  {
    var rest := files;
    list := [];
    while rest != map[]
      invariant PartlySorted(list, rest, files)
      decreases rest.Keys
    {
      var id := TakeLargest(rest);
      SortStep(list, rest, files, id);
      list, rest := list + [PackingFile(id, rest[id])], rest - {id};
    }
    SortDone(list, files);
  }

  /** Any one of the largest entries: map iteration and sort.Sort leave ties in any order. */
  method TakeLargest(m: map<string, nat>) returns (id: string)
    requires m != map[]
    ensures IsLargest(m, id)
  {
    HasLargest(m);
    id :| id in m && forall other :: other in m ==> m[other] <= m[id];
  }

  lemma SectorGetsFile(placements: seq<FilePlacement>, p: FilePlacement, numSectors: nat)
    requires AllUsed(placements, numSectors) || (numSectors > 0 && AllUsed(placements, numSectors - 1) &&
      p.sectorIndex == numSectors - 1)
    ensures AllUsed(placements + [p], numSectors)
  {
    var more := placements + [p];
    forall k | 0 <= k < numSectors
      ensures HasFile(k, more)
    {
      if HasFile(k, placements) {
        var i :| 0 <= i < |placements| && placements[i].sectorIndex == k;
        assert more[i].sectorIndex == k;
      } else {
        assert more[|placements|].sectorIndex == k;
      }
    }
  }

  /** The placements are the files of the list, in order. */
  ghost predicate Covers(placements: seq<FilePlacement>, list: seq<PackingFile>) {
    && |placements| == |list|
    && forall i :: 0 <= i < |list| ==> placements[i].fileID == list[i].id && placements[i].size == list[i].size
  }

  predicate Packable(size: nat, scale: nat) { 0 < size <= SectorSize(scale) }

  /** The state of the packing loop. */
  datatype Packer = Packer(buckets: seq<Bucket>, placements: seq<FilePlacement>, numSectors: nat)

  /** A new sector when no bucket can hold the file. */
  ghost function MakeRoom(p: Packer, size: nat, scale: nat): Packer
    requires scale > 0
  {
    if Best(p.buckets, |p.buckets|, size, scale).Some? then p
    else p.(buckets := p.buckets + [Bucket(p.numSectors, 0, SectorSize(scale))], numSectors := p.numSectors + 1)
  }

  /** The bucket the file goes into, once there is room. */
  ghost function Target(p: Packer, size: nat, scale: nat): nat
    requires scale > 0
  {
    match Best(p.buckets, |p.buckets|, size, scale)
    case Some(k) => k
    case None => |p.buckets|
  }

  lemma TargetFits(p: Packer, size: nat, scale: nat)
    requires scale > 0 && size <= SectorSize(scale) && ValidBuckets(p.buckets, scale)
    ensures var q := MakeRoom(p, size, scale);
      ValidBuckets(q.buckets, scale) && Target(p, size, scale) < |q.buckets| &&
        Fits(q.buckets[Target(p, size, scale)], size, scale)
  {
    EmptySectorFits(p.numSectors, size, scale);
    FreshSectorValid(p.numSectors, scale);
  }

  ghost function PackStep(p: Packer, file: PackingFile, scale: nat): (r: Packer)
    requires scale > 0 && Packable(file.size, scale) && ValidBuckets(p.buckets, scale)
    ensures ValidBuckets(r.buckets, scale)
  {
    TargetFits(p, file.size, scale);
    var q, k := MakeRoom(p, file.size, scale), Target(p, file.size, scale);
    LeftoverShape(q.buckets[k], file.size, scale);
    Packer(PackedBuckets(q.buckets, k, file.size, scale), q.placements + [Placed(file, q.buckets[k], scale)],
      q.numSectors)
  }

  ghost predicate AllPackable(list: seq<PackingFile>, scale: nat) {
    forall i :: 0 <= i < |list| ==> Packable(list[i].size, scale)
  }

  /** Packing the files of a list one after the other. */
  ghost function Greedy(list: seq<PackingFile>, scale: nat): (r: Packer)
    requires scale > 0 && AllPackable(list, scale)
    ensures ValidBuckets(r.buckets, scale)
  {
    if list == [] then Packer([], [], 0)
    else PackStep(Greedy(list[..|list| - 1], scale), list[|list| - 1], scale)
  }

  /** What every iteration of the packing loop keeps. */
  ghost predicate PackInv(p: Packer, scale: nat)
    requires scale > 0
  {
    && Layout(p.buckets, p.placements, p.numSectors, scale)
    && Conserved(p.buckets, p.placements, p.numSectors, scale)
    && AllUsed(p.placements, p.numSectors)
  }

  lemma MakeRoomKeeps(p: Packer, size: nat, scale: nat)
    requires scale > 0 && PackInv(p, scale)
    ensures var q := MakeRoom(p, size, scale);
      Layout(q.buckets, q.placements, q.numSectors, scale) && Conserved(q.buckets, q.placements, q.numSectors, scale)
  {
    hide Layout, Conserved, AllUsed;
    ExtendKeepsLayout(p.buckets, p.placements, p.numSectors, scale);
    ExtendConserves(p.buckets, p.placements, p.numSectors, scale);
  }

  lemma StepKeepsInv(p: Packer, file: PackingFile, scale: nat)
    requires scale > 0 && Packable(file.size, scale) && PackInv(p, scale)
    ensures PackInv(PackStep(p, file, scale), scale)
  {
    var q, k := MakeRoom(p, file.size, scale), Target(p, file.size, scale);
    TargetFits(p, file.size, scale);
    MakeRoomKeeps(p, file.size, scale);
    PackKeepsLayout(q.buckets, k, file, q.placements, q.numSectors, scale);
    PackConserves(q.buckets, k, file, q.placements, q.numSectors, scale);
    SectorGetsFile(p.placements, Placed(file, q.buckets[k], scale), q.numSectors);
  }

  /** Whatever the sizes and their order: every file is placed once and well, nothing
      overlaps, every byte is accounted for and no sector is wasted. */
  lemma {:induction false} GreedyKeepsInv(list: seq<PackingFile>, scale: nat)
    requires scale > 0 && AllPackable(list, scale)
    ensures PackInv(Greedy(list, scale), scale) && Covers(Greedy(list, scale).placements, list)
  {
    if list == [] {
      GreedyOfNone(scale);
    } else {
      var rest := list[..|list| - 1];
      assert AllPackable(rest, scale);
      GreedyKeepsInv(rest, scale);
      GreedyOfMore(list, scale);
    }
  }

  lemma GreedyOfNone(scale: nat)
    requires scale > 0
    ensures PackInv(Greedy([], scale), scale) && Covers(Greedy([], scale).placements, [])
  {
    assert 0 * SectorSize(scale) == 0;
  }

  lemma GreedyOfMore(list: seq<PackingFile>, scale: nat)
    requires scale > 0 && AllPackable(list, scale) && list != []
    requires var rest := list[..|list| - 1];
      AllPackable(rest, scale) && PackInv(Greedy(rest, scale), scale) && Covers(Greedy(rest, scale).placements, rest)
    ensures PackInv(Greedy(list, scale), scale) && Covers(Greedy(list, scale).placements, list)
  {
    hide Layout, Conserved, AllUsed, PackStep, ValidBucket;
    var rest := list[..|list| - 1];
    StepKeepsInv(Greedy(rest, scale), list[|list| - 1], scale);
    StepCovers(Greedy(rest, scale), rest, list[|list| - 1], scale);
    assert list == rest + [list[|list| - 1]];
  }

  lemma StepCovers(p: Packer, list: seq<PackingFile>, file: PackingFile, scale: nat)
    requires scale > 0 && Packable(file.size, scale) && ValidBuckets(p.buckets, scale) && Covers(p.placements, list)
    ensures Covers(PackStep(p, file, scale).placements, list + [file])
  {
  }

  /** One turn of the packing loop. */
  method PackNext(file: PackingFile, buckets: seq<Bucket>, placements: seq<FilePlacement>, numSectors: nat, scale: nat)
    returns (buckets': seq<Bucket>, placements': seq<FilePlacement>, numSectors': nat)
    requires scale > 0 && Packable(file.size, scale) && ValidBuckets(buckets, scale)
    ensures Packer(buckets', placements', numSectors') == PackStep(Packer(buckets, placements, numSectors), file, scale)
  {
    hide Fits, FirstOfLargest;
    TargetFits(Packer(buckets, placements, numSectors), file.size, scale);
    var bucketIndex := 0;
    buckets', numSectors' := buckets, numSectors;
    var found := FindBucket(file.size, buckets, scale);
    if found.None? {
      buckets', numSectors' := ExtendSectors(buckets, numSectors, scale);
      bucketIndex := |buckets'| - 1;
    } else {
      bucketIndex := found.value;
    }
    var placement: FilePlacement;
    placement, buckets' := PackBucket(file, bucketIndex, buckets', scale);
    placements' := placements + [placement];
  }

  /** Packing a list in order: the error, if any, is that of the first file that cannot be packed. */
  method PackSorted(list: seq<PackingFile>, scale: nat)
    returns (r: Result<seq<FilePlacement>>, numSectors: nat, free: seq<Bucket>, ghost bad: nat)
    requires scale > 0
    ensures r.Ok? ==> AllPackable(list, scale) && Packer(free, r.value, numSectors) == Greedy(list, scale)
    ensures r.Err? ==> bad < |list| && FirstBad(list, bad, scale)
    ensures r.Err? ==> r.error == if list[bad].size == 0 then ZeroSize else SizeTooLarge
    ensures r.Err? ==> numSectors == 0
  {
    hide PackStep, ValidBucket;
    bad := 0;
    var buckets: seq<Bucket> := [];
    var filePlacements: seq<FilePlacement> := [];
    numSectors := 0;
    for i := 0 to |list|
      invariant AllPackable(list[..i], scale)
      invariant Packer(buckets, filePlacements, numSectors) == Greedy(list[..i], scale)
    {
      var file := list[i];
      if file.size > SectorSize(scale) {
        return Err(SizeTooLarge), 0, [], i;
      }
      if file.size == 0 {
        return Err(ZeroSize), 0, [], i;
      }
      assert list[..i + 1][..i] == list[..i];
      buckets, filePlacements, numSectors := PackNext(file, buckets, filePlacements, numSectors, scale);
    }
    assert list[..|list|] == list;
    return Ok(filePlacements), numSectors, buckets, bad;
  }

  ghost predicate FirstBad(list: seq<PackingFile>, i: nat, scale: nat)
    requires i < |list|
  {
    !Packable(list[i].size, scale) && forall j :: 0 <= j < i ==> Packable(list[j].size, scale)
  }

  method PackFiles(files: map<string, nat>, scale: nat)
    returns (r: Result<seq<FilePlacement>>, numSectors: nat, ghost list: seq<PackingFile>, ghost free: seq<Bucket>)
    requires scale > 0
    ensures SortedFiles(list, files)
    ensures r.Ok? <==> forall id :: id in files ==> Packable(files[id], scale)
    ensures r == Err(SizeTooLarge) <==> exists id :: id in files && files[id] > SectorSize(scale)
    ensures r.Ok? ==> AllPackable(list, scale) && Packer(free, r.value, numSectors) == Greedy(list, scale)
    ensures r.Ok? ==> Covers(r.value, list) && PackInv(Packer(free, r.value, numSectors), scale)
  {
    var filesSorted := SortByFileSizeDescending(files);
    list := filesSorted;
    ghost var bad;
    r, numSectors, free, bad := PackSorted(filesSorted, scale);
    if r.Ok? {
      ListPackable(filesSorted, files, scale);
      GreedyKeepsInv(filesSorted, scale);
    } else {
      NotAllPackable(filesSorted, files, scale, bad);
    }
  }

  lemma ListPackable(list: seq<PackingFile>, files: map<string, nat>, scale: nat)
    requires SortedFiles(list, files) && AllPackable(list, scale)
    ensures forall id :: id in files ==> Packable(files[id], scale)
  {
    ListCovers(list, files);
  }

  lemma NotAllPackable(list: seq<PackingFile>, files: map<string, nat>, scale: nat, bad: nat)
    requires SortedFiles(list, files) && bad < |list| && FirstBad(list, bad, scale)
    ensures !forall id :: id in files ==> Packable(files[id], scale)
    ensures list[bad].size != 0 <==> exists id :: id in files && files[id] > SectorSize(scale)
  {
    assert list[bad].id in files && files[list[bad].id] == list[bad].size;
    if list[bad].size == 0 {
      BoundedByList(list, files, bad, SectorSize(scale));
    }
  }

  lemma ListCovers(list: seq<PackingFile>, files: map<string, nat>)
    requires SortedFiles(list, files)
    ensures forall id :: id in files ==> exists i :: 0 <= i < |list| && list[i] == PackingFile(id, files[id])
  {
    forall id | id in files
      ensures exists i :: 0 <= i < |list| && list[i] == PackingFile(id, files[id])
    {
      assert id in Ids(list);
      var i :| 0 <= i < |list| && list[i].id == id;
      assert list[i] == PackingFile(id, files[id]);
    }
  }

  /** In a descending list the first i + 1 sizes bound them all. */
  lemma BoundedByList(list: seq<PackingFile>, files: map<string, nat>, i: nat, bound: nat)
    requires SortedFiles(list, files) && i < |list|
    requires forall j :: 0 <= j <= i ==> list[j].size <= bound
    ensures forall id :: id in files ==> files[id] <= bound
  {
    ListCovers(list, files);
    forall id | id in files
      ensures files[id] <= bound
    {
      var k :| 0 <= k < |list| && list[k] == PackingFile(id, files[id]);
      if k > i {
        assert list[i].size >= list[k].size;
      }
    }
  }
}
