/** Which place the packer of modules/packing.go gives a file, in terms of the files already placed: its buckets are
    exactly the gaps between them, and a new sector is opened only when no gap can hold the file. */
module PackingChoice {
  import opened Common
  import opened Multiples
  import opened Packing

  predicate Contains(x: Extent, sector: nat, pos: nat) { x.sector == sector && x.start <= pos < x.end }

  ghost predicate InFree(buckets: seq<Bucket>, sector: nat, pos: nat) {
    exists i :: 0 <= i < |buckets| && Contains(FreeExtent(buckets[i]), sector, pos)
  }

  ghost predicate InPlaced(placements: seq<FilePlacement>, scale: nat, sector: nat, pos: nat)
    requires scale > 0
  {
    exists i :: 0 <= i < |placements| && Contains(PlacedExtent(placements[i], scale), sector, pos)
  }

  /** Every byte of every sector is free or belongs to a file. */
  ghost predicate Accounted(p: Packer, scale: nat)
    requires scale > 0
  {
    forall sector: nat, pos: nat :: sector < p.numSectors && pos < SectorSize(scale) ==>
      InFree(p.buckets, sector, pos) || InPlaced(p.placements, scale, sector, pos)
  }

  /** No two buckets touch. */
  ghost predicate Separate(buckets: seq<Bucket>) {
    forall i, j :: 0 <= i < j < |buckets| && buckets[i].sectorIndex == buckets[j].sectorIndex ==>
      BucketEnd(buckets[i]) < buckets[j].sectorOffset
  }

  ghost predicate Exact(p: Packer, scale: nat)
    requires scale > 0
  {
    PackInv(p, scale) && Accounted(p, scale) && Separate(p.buckets)
  }

  // ----- every step keeps this -----

  lemma LeftoverSplits(b: Bucket, size: nat, scale: nat, pos: nat)
    requires scale > 0 && size > 0 && Fits(b, size, scale) && ValidBucket(b, scale)
    requires b.sectorOffset <= pos < BucketEnd(b)
    ensures InFree(Leftover(b, size, scale), b.sectorIndex, pos) ||
            FileStart(b, size, scale) <= pos < FileEnd(b, size, scale)
  {
    hide ValidBucket, AlignInBucket, FileStart, FileEnd;
    FileInsideBucket(b, size, scale);
    var left, start, end := Leftover(b, size, scale), FileStart(b, size, scale), FileEnd(b, size, scale);
    if pos < start {
      assert left[0] == Bucket(b.sectorIndex, b.sectorOffset, start - b.sectorOffset);
      assert Contains(FreeExtent(left[0]), b.sectorIndex, pos);
    } else if pos >= end {
      var i := |left| - 1;
      assert left[i] == Bucket(b.sectorIndex, end, BucketEnd(b) - end);
      assert Contains(FreeExtent(left[i]), b.sectorIndex, pos);
    }
  }

  lemma FreeSplit(a: seq<Bucket>, b: seq<Bucket>, c: seq<Bucket>, sector: nat, pos: nat)
    ensures InFree(a + b + c, sector, pos) <==>
      InFree(a, sector, pos) || InFree(b, sector, pos) || InFree(c, sector, pos)
  {
    var s := a + b + c;
    if InFree(a, sector, pos) {
      var i :| 0 <= i < |a| && Contains(FreeExtent(a[i]), sector, pos);
      assert s[i] == a[i];
    }
    if InFree(b, sector, pos) {
      var i :| 0 <= i < |b| && Contains(FreeExtent(b[i]), sector, pos);
      assert s[|a| + i] == b[i];
    }
    if InFree(c, sector, pos) {
      var i :| 0 <= i < |c| && Contains(FreeExtent(c[i]), sector, pos);
      assert s[|a| + |b| + i] == c[i];
    }
  }

  lemma OneFree(b: Bucket, sector: nat, pos: nat)
    ensures InFree([b], sector, pos) <==> Contains(FreeExtent(b), sector, pos)
  {
    assert [b][0] == b;
  }

  lemma PlacedIn(placements: seq<FilePlacement>, p: FilePlacement, scale: nat, sector: nat, pos: nat)
    requires scale > 0
    ensures InPlaced(placements + [p], scale, sector, pos) <==>
      InPlaced(placements, scale, sector, pos) || Contains(PlacedExtent(p, scale), sector, pos)
  {
    var more := placements + [p];
    if InPlaced(placements, scale, sector, pos) {
      var i :| 0 <= i < |placements| && Contains(PlacedExtent(placements[i], scale), sector, pos);
      assert more[i] == placements[i];
    }
    assert more[|placements|] == p;
  }

  lemma PackAccounts(q: Packer, k: nat, file: PackingFile, scale: nat)
    requires scale > 0 && file.size > 0 && ValidBuckets(q.buckets, scale) && Accounted(q, scale)
    requires k < |q.buckets| && Fits(q.buckets[k], file.size, scale)
    ensures Accounted(Packer(PackedBuckets(q.buckets, k, file.size, scale),
                             q.placements + [Placed(file, q.buckets[k], scale)], q.numSectors), scale)
  {
    hide AlignInBucket, ValidBucket, InFree, InPlaced, Leftover;
    var b, p := q.buckets[k], Placed(file, q.buckets[k], scale);
    var pre, post, left := q.buckets[..k], q.buckets[k + 1..], Leftover(b, file.size, scale);
    assert q.buckets == pre + [b] + post;
    forall sector: nat, pos: nat | sector < q.numSectors && pos < SectorSize(scale)
      ensures InFree(pre + left + post, sector, pos) || InPlaced(q.placements + [p], scale, sector, pos)
    {
      FreeSplit(pre, [b], post, sector, pos);
      FreeSplit(pre, left, post, sector, pos);
      OneFree(b, sector, pos);
      PlacedIn(q.placements, p, scale, sector, pos);
      if Contains(FreeExtent(b), sector, pos) {
        LeftoverSplits(b, file.size, scale, pos);
      }
    }
  }

  lemma PackSeparates(buckets: seq<Bucket>, k: nat, size: nat, scale: nat)
    requires scale > 0 && size > 0 && ValidBuckets(buckets, scale) && Separate(buckets)
    requires k < |buckets| && Fits(buckets[k], size, scale)
    ensures Separate(PackedBuckets(buckets, k, size, scale))
  {
    hide Fits, ValidBucket, FileStart, FileEnd;
    var b, left := buckets[k], Leftover(buckets[k], size, scale);
    FileInsideBucket(b, size, scale);
    LeftoverShape(b, size, scale);
    SplitSeparate(buckets[..k], b, left, buckets[k + 1..]);
    assert buckets == buckets[..k] + [b] + buckets[k + 1..];
  }

  lemma SplitSeparate(pre: seq<Bucket>, b: Bucket, mid: seq<Bucket>, post: seq<Bucket>)
    requires Separate(pre + [b] + post) && Separate(mid)
    requires forall i :: 0 <= i < |mid| ==> Inside(FreeExtent(mid[i]), FreeExtent(b))
    ensures Separate(pre + mid + post)
  {
    var was, now := pre + [b] + post, pre + mid + post;
    forall i, j | 0 <= i < j < |now| && now[i].sectorIndex == now[j].sectorIndex
      ensures BucketEnd(now[i]) < now[j].sectorOffset
    {
      var m := |pre| + |mid|;
      if i < |pre| && j < |pre| {
        assert now[i] == was[i] && now[j] == was[j];
      } else if i < |pre| && j < m {
        assert now[i] == was[i] && now[j] == mid[j - |pre|] && was[|pre|] == b;
      } else if i < |pre| {
        assert now[i] == was[i] && now[j] == was[j - |mid| + 1];
      } else if i < m && j < m {
        assert now[i] == mid[i - |pre|] && now[j] == mid[j - |pre|];
      } else if i < m {
        assert now[i] == mid[i - |pre|] && was[|pre|] == b && now[j] == was[j - |mid| + 1];
      } else {
        assert now[i] == was[i - |mid| + 1] && now[j] == was[j - |mid| + 1];
      }
    }
  }

  lemma RoomAccounts(p: Packer, size: nat, scale: nat)
    requires scale > 0 && Exact(p, scale)
    ensures var q := MakeRoom(p, size, scale); Accounted(q, scale) && Separate(q.buckets)
  {
    hide InFree, InPlaced, Conserved, AllUsed, Best;
    var q := MakeRoom(p, size, scale);
    if q != p {
      var b := Bucket(p.numSectors, 0, SectorSize(scale));
      assert q.buckets == p.buckets + [b] + [];
      forall sector: nat, pos: nat | sector < q.numSectors && pos < SectorSize(scale)
        ensures InFree(q.buckets, sector, pos) || InPlaced(q.placements, scale, sector, pos)
      {
        FreeSplit(p.buckets, [b], [], sector, pos);
        OneFree(b, sector, pos);
      }
    }
  }

  lemma StepKeepsExact(p: Packer, file: PackingFile, scale: nat)
    requires scale > 0 && Packable(file.size, scale) && Exact(p, scale)
    ensures Exact(PackStep(p, file, scale), scale)
  {
    hide InFree, InPlaced, Conserved, AllUsed, Fits, ValidBucket;
    var q, k := MakeRoom(p, file.size, scale), Target(p, file.size, scale);
    TargetFits(p, file.size, scale);
    RoomAccounts(p, file.size, scale);
    hide MakeRoom, Target, Separate, Accounted;
    PackAccounts(q, k, file, scale);
    PackSeparates(q.buckets, k, file.size, scale);
    StepKeepsInv(p, file, scale);
  }

  lemma {:induction false} GreedyExact(list: seq<PackingFile>, scale: nat)
    requires scale > 0 && AllPackable(list, scale)
    ensures Exact(Greedy(list, scale), scale)
  {
    hide PackStep, Layout, Conserved, AllUsed, Separate;
    if list == [] {
      GreedyOfNone(scale);
      NothingSeparate();
    } else {
      var rest := list[..|list| - 1];
      assert AllPackable(rest, scale);
      GreedyExact(rest, scale);
      StepKeepsExact(Greedy(rest, scale), list[|list| - 1], scale);
    }
  }

  lemma NothingSeparate()
    ensures Separate([])
  {
  }

  // ----- buckets are gaps -----

  /** No placed file, rounded up to a unit, reaches into this stretch of a sector. */
  ghost predicate Clear(p: Packer, scale: nat, sector: nat, low: nat, high: nat)
    requires scale > 0
  {
    forall pos: nat :: low <= pos < high ==> !InPlaced(p.placements, scale, sector, pos)
  }

  /** A clear stretch that cannot be extended at either end. */
  ghost predicate IsGap(p: Packer, scale: nat, sector: nat, low: nat, high: nat)
    requires scale > 0
  {
    && sector < p.numSectors && low < high <= SectorSize(scale) && Clear(p, scale, sector, low, high)
    && (low == 0 || InPlaced(p.placements, scale, sector, low - 1))
    && (high == SectorSize(scale) || InPlaced(p.placements, scale, sector, high))
  }

  lemma BucketClear(p: Packer, scale: nat, i: nat)
    requires scale > 0 && Layout(p.buckets, p.placements, p.numSectors, scale) && i < |p.buckets|
    ensures Clear(p, scale, p.buckets[i].sectorIndex, p.buckets[i].sectorOffset, BucketEnd(p.buckets[i]))
  {
    hide WellPlaced, Disjoint, Sorted;
    assert ClearOf(FreeExtent(p.buckets[i]), p.placements, scale);
  }

  /** What is clear lies in one bucket. */
  lemma {:induction false} ClearInBucket(p: Packer, scale: nat, sector: nat, low: nat, high: nat) returns (i: nat)
    requires scale > 0 && Exact(p, scale) && sector < p.numSectors && low < high <= SectorSize(scale)
    requires Clear(p, scale, sector, low, high)
    ensures i < |p.buckets| && Inside(Extent(sector, low, high), FreeExtent(p.buckets[i]))
    decreases high
  {
    hide Layout, Conserved, AllUsed, InPlaced;
    assert InFree(p.buckets, sector, high - 1);
    i :| 0 <= i < |p.buckets| && Contains(FreeExtent(p.buckets[i]), sector, high - 1);
    if low < high - 1 {
      var j := ClearInBucket(p, scale, sector, low, high - 1);
      Touching(p.buckets, i, j, sector, high - 1);
    }
  }

  lemma Touching(buckets: seq<Bucket>, i: nat, j: nat, sector: nat, pos: nat)
    requires Separate(buckets) && i < |buckets| && j < |buckets|
    requires Contains(FreeExtent(buckets[i]), sector, pos)
    requires buckets[j].sectorIndex == sector && buckets[j].sectorOffset < pos <= BucketEnd(buckets[j])
    ensures i == j
  {
  }

  /** In every state of the packer the buckets are exactly the gaps between the placed files. */
  lemma BucketsAreGaps(list: seq<PackingFile>, scale: nat, sector: nat, low: nat, high: nat)
    requires scale > 0 && AllPackable(list, scale) && low < high
    ensures var p := Greedy(list, scale);
      Bucket(sector, low, high - low) in p.buckets <==> IsGap(p, scale, sector, low, high)
  {
    hide Layout, Conserved, AllUsed, Greedy, Separate, Accounted;
    var p := Greedy(list, scale);
    GreedyExact(list, scale);
    if Bucket(sector, low, high - low) in p.buckets {
      var i :| 0 <= i < |p.buckets| && p.buckets[i] == Bucket(sector, low, high - low);
      BucketIsGap(p, scale, i);
    }
    if IsGap(p, scale, sector, low, high) {
      var i := ClearInBucket(p, scale, sector, low, high);
      GapIsBucket(p, scale, sector, low, high, i);
    }
  }

  lemma BucketIsGap(p: Packer, scale: nat, i: nat)
    requires scale > 0 && Exact(p, scale) && i < |p.buckets|
    ensures var b := p.buckets[i]; IsGap(p, scale, b.sectorIndex, b.sectorOffset, BucketEnd(b))
  {
    hide InFree, InPlaced, Conserved, AllUsed, Sorted, WellPlaced, Disjoint, ClearOf;
    var b := p.buckets[i];
    assert ValidBucket(b, scale);
    BucketClear(p, scale, i);
    if b.sectorOffset > 0 {
      NextToBucket(p.buckets, scale, i, b.sectorOffset - 1);
    }
    if BucketEnd(b) < SectorSize(scale) {
      NextToBucket(p.buckets, scale, i, BucketEnd(b));
    }
  }

  lemma NextToBucket(buckets: seq<Bucket>, scale: nat, i: nat, pos: nat)
    requires scale > 0 && i < |buckets| && Separate(buckets) && ValidBuckets(buckets, scale)
    requires pos == BucketEnd(buckets[i]) || pos == buckets[i].sectorOffset - 1
    ensures !InFree(buckets, buckets[i].sectorIndex, pos)
  {
    hide IsMultiple;
    if InFree(buckets, buckets[i].sectorIndex, pos) {
      var j :| 0 <= j < |buckets| && Contains(FreeExtent(buckets[j]), buckets[i].sectorIndex, pos);
    }
  }

  lemma GapIsBucket(p: Packer, scale: nat, sector: nat, low: nat, high: nat, i: nat)
    requires scale > 0 && Exact(p, scale) && IsGap(p, scale, sector, low, high)
    requires i < |p.buckets| && Inside(Extent(sector, low, high), FreeExtent(p.buckets[i]))
    ensures p.buckets[i] == Bucket(sector, low, high - low)
  {
    hide InFree, InPlaced, Conserved, AllUsed, Sorted, WellPlaced, Disjoint, ClearOf;
    assert ValidBucket(p.buckets[i], scale);
    BucketClear(p, scale, i);
  }

  // ----- when a sector is opened -----

  /** The file could be placed here without touching any other. */
  ghost predicate HasPlace(p: Packer, size: nat, scale: nat, sector: nat, start: nat)
    requires scale > 0
  {
    && sector < p.numSectors && Aligned(start, size, scale) && start + size <= SectorSize(scale)
    && Clear(p, scale, sector, start, start + size)
  }

  /** In every state of the packer, the next file opens a new sector if and only if there is no place for it in any
      sector between the files already placed. */
  lemma OpensSectorIff(list: seq<PackingFile>, file: PackingFile, scale: nat)
    requires scale > 0 && AllPackable(list, scale) && Packable(file.size, scale)
    ensures var p := Greedy(list, scale);
      var q := PackStep(p, file, scale);
      && (q.numSectors == p.numSectors + 1 <==> !exists sector, start :: HasPlace(p, file.size, scale, sector, start))
      && (q.numSectors == p.numSectors <==> exists sector, start :: HasPlace(p, file.size, scale, sector, start))
  {
    hide Greedy, Exact, CanHold, HasPlace, PackedBuckets, Placed, Best;
    var p := Greedy(list, scale);
    GreedyExact(list, scale);
    BestHolds(p.buckets, file.size, scale);
    if i: nat :| i < |p.buckets| && CanHold(p.buckets[i], file.size, scale) {
      HeldHasPlace(p, file.size, scale, i);
    }
    if sector, start :| HasPlace(p, file.size, scale, sector, start) {
      PlaceIsHeld(p, file.size, scale, sector, start);
    }
  }

  /** f starts at the first place for it in gap k, and k is the first of the longest gaps that can hold it. */
  ghost predicate GoesTo(buckets: seq<Bucket>, k: nat, f: FilePlacement, scale: nat)
    requires scale > 0 && k < |buckets|
  {
    && f.sectorIndex == buckets[k].sectorIndex && Room(buckets[k], f.sectorOffset, f.size, scale)
    && (forall start :: Room(buckets[k], start, f.size, scale) ==> f.sectorOffset <= start)
    && (forall j :: 0 <= j < |buckets| && CanHold(buckets[j], f.size, scale) ==> buckets[j].length <= buckets[k].length)
    && (forall j :: 0 <= j < k && CanHold(buckets[j], f.size, scale) ==> buckets[j].length < buckets[k].length)
  }

  /** The next file goes there, or to the beginning of the new sector. */
  lemma PlacesFile(list: seq<PackingFile>, file: PackingFile, scale: nat)
    requires scale > 0 && AllPackable(list, scale) && Packable(file.size, scale)
    ensures var p := Greedy(list, scale);
      var q := PackStep(p, file, scale);
      && |q.placements| == |p.placements| + 1 && q.placements[..|p.placements|] == p.placements
      && var f := q.placements[|p.placements|];
      && f.fileID == file.id && f.size == file.size
      && (q.numSectors == p.numSectors + 1 ==> f.sectorIndex == p.numSectors && f.sectorOffset == 0)
      && (q.numSectors == p.numSectors ==> exists k :: 0 <= k < |p.buckets| && GoesTo(p.buckets, k, f, scale))
  {
    hide Greedy, PackStep, MakeRoom, Target, Placed, GoesTo, ValidBucket;
    var p := Greedy(list, scale);
    StepIs(p, file, scale);
    var k := Target(p, file.size, scale);
    if k < |p.buckets| {
      PlacedGoes(p, k, file, scale);
    } else {
      FreshStart(p.numSectors, file, scale);
    }
  }

  lemma StepIs(p: Packer, file: PackingFile, scale: nat)
    requires scale > 0 && Packable(file.size, scale) && ValidBuckets(p.buckets, scale)
    ensures var k, q := Target(p, file.size, scale), PackStep(p, file, scale);
      && k <= |p.buckets|
      && (k < |p.buckets| ==>
            && Best(p.buckets, |p.buckets|, file.size, scale) == Some(k)
            && q.numSectors == p.numSectors && q.placements == p.placements + [Placed(file, p.buckets[k], scale)])
      && (k == |p.buckets| ==>
            && q.numSectors == p.numSectors + 1
            && q.placements == p.placements + [Placed(file, Bucket(p.numSectors, 0, SectorSize(scale)), scale)])
  {
    hide Placed, PackedBuckets, ValidBucket, Fits, FirstOfLargest;
    TargetFits(p, file.size, scale);
  }

  lemma PlacedGoes(p: Packer, k: nat, file: PackingFile, scale: nat)
    requires scale > 0 && Packable(file.size, scale) && ValidBuckets(p.buckets, scale) && k < |p.buckets|
    requires Best(p.buckets, |p.buckets|, file.size, scale) == Some(k)
    ensures GoesTo(p.buckets, k, Placed(file, p.buckets[k], scale), scale)
    ensures Placed(file, p.buckets[k], scale).fileID == file.id && Placed(file, p.buckets[k], scale).size == file.size
  {
    hide CanHold, Room, Best, ValidBucket, FileStart;
    BestHolds(p.buckets, file.size, scale);
    FitsIff(p.buckets[k], file.size, scale);
  }

  lemma FreshStart(sector: nat, file: PackingFile, scale: nat)
    requires scale > 0 && Packable(file.size, scale)
    ensures Placed(file, Bucket(sector, 0, SectorSize(scale)), scale) == FilePlacement(file.id, file.size, sector, 0)
  {
    ModeExists(file.size, scale);
    assert IsMultiple(0, Alignment(Mode(file.size, scale), scale));
  }

  lemma HeldHasPlace(p: Packer, size: nat, scale: nat, i: nat)
    requires scale > 0 && Exact(p, scale) && i < |p.buckets| && CanHold(p.buckets[i], size, scale)
    ensures exists sector, start :: HasPlace(p, size, scale, sector, start)
  {
    hide InFree, InPlaced, Conserved, AllUsed, Sorted, WellPlaced, Disjoint, ClearOf, Aligned;
    var b := p.buckets[i];
    assert ValidBucket(b, scale);
    var start :| Room(b, start, size, scale);
    BucketClear(p, scale, i);
    assert HasPlace(p, size, scale, b.sectorIndex, start);
  }

  lemma PlaceIsHeld(p: Packer, size: nat, scale: nat, sector: nat, start: nat)
    requires scale > 0 && size > 0 && Exact(p, scale) && HasPlace(p, size, scale, sector, start)
    ensures exists i :: 0 <= i < |p.buckets| && CanHold(p.buckets[i], size, scale)
  {
    hide Exact, Aligned;
    var i := ClearInBucket(p, scale, sector, start, start + size);
    assert Room(p.buckets[i], start, size, scale);
  }
}
