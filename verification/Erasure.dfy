/** modules/erasure.go: the coder that works on segments of 64 bytes, over an abstract code. */
module Erasure {
  import opened Common
  import opened Wire
  import Multiples

  const SEGMENT_SIZE := 64

  /** A systematic code: k data shards, n shards in all.  A missing shard is an empty one. */
  datatype Code = Code(k: nat, n: nat, parity: seq<Bytes> -> seq<Bytes>, rebuild: seq<Bytes> -> Option<seq<Bytes>>)

  predicate Shards(ds: seq<Bytes>, count: nat, size: nat) {
    |ds| == count && forall i :: 0 <= i < |ds| ==> |ds[i]| == size
  }

  function Encoded(c: Code, ds: seq<Bytes>): seq<Bytes> { ds + c.parity(ds) }

  /** ps is full with some shards missing. */
  predicate Survivors(ps: seq<Bytes>, full: seq<Bytes>) {
    |ps| == |full| && forall i :: 0 <= i < |ps| ==> ps[i] == full[i] || ps[i] == []
  }

  function Present(ps: seq<Bytes>): nat {
    if ps == [] then 0 else One(ps[0] != []) + Present(ps[1..])
  }

  /** At least k shards of the encoded data are left. */
  predicate Enough(c: Code, ds: seq<Bytes>, ps: seq<Bytes>) {
    Survivors(ps, Encoded(c, ds)) && Present(ps) >= c.k
  }

  /** What the Reed-Solomon library promises: any k shards give the data back. */
  ghost predicate KofN(c: Code) {
    && 0 < c.k <= c.n
    && (forall ds, size: nat :: size > 0 && Shards(ds, c.k, size) ==> Shards(c.parity(ds), c.n - c.k, size))
    && (forall ds, ps, w: nat :: w > 0 && Shards(ds, c.k, w) && Enough(c, ds, ps) ==> c.rebuild(ps) == Some(ds))
  }

  // ----- cutting up -----

  function Chunks(s: Bytes, size: nat, m: nat): (r: seq<Bytes>)
    requires |s| == size * m
    ensures Shards(r, m, size)
    decreases m
  {
    if m == 0 then [] else OneLess(size, m); [s[..size]] + Chunks(s[size..], size, m - 1)
  }

  lemma OneLess(size: nat, m: nat)
    requires m > 0
    ensures size * m == size + size * (m - 1)
  {
  }

  lemma {:induction false} ChunksConcat(s: Bytes, size: nat, m: nat)
    requires |s| == size * m
    ensures Concat(Chunks(s, size, m)) == s
    decreases m
  {
    if m > 0 {
      OneLess(size, m);
      ChunksConcat(s[size..], size, m - 1);
      var cs := Chunks(s, size, m);
      assert cs[0] == s[..size] && cs[1..] == Chunks(s[size..], size, m - 1);
    }
  }

  lemma {:induction false} ConcatLength(ds: seq<Bytes>, size: nat)
    requires Shards(ds, |ds|, size)
    ensures |Concat(ds)| == size * |ds|
  {
    if ds != [] {
      ConcatLength(ds[1..], size);
      OneLess(size, |ds|);
    }
  }

  // ----- the pieces -----

  /** The n shards of one block of k segments. */
  function BlockShards(c: Code, block: Bytes): seq<Bytes>
    requires |block| == SEGMENT_SIZE * c.k
  {
    Encoded(c, Chunks(block, SEGMENT_SIZE, c.k))
  }

  predicate Blocks(c: Code, blocks: seq<Bytes>) { Shards(blocks, |blocks|, SEGMENT_SIZE * c.k) }

  /** Piece i is shard i of every block. */
  ghost function Piece(c: Code, blocks: seq<Bytes>, i: nat): Bytes
    requires KofN(c) && Blocks(c, blocks) && i < c.n
  {
    if blocks == [] then []
    else BlockShard(c, blocks[0], i) + Piece(c, blocks[1..], i)
  }

  ghost function BlockShard(c: Code, block: Bytes, i: nat): (s: Bytes)
    requires KofN(c) && |block| == SEGMENT_SIZE * c.k && i < c.n
    ensures |s| == SEGMENT_SIZE
  {
    var ds := Chunks(block, SEGMENT_SIZE, c.k);
    assert Shards(c.parity(ds), c.n - c.k, SEGMENT_SIZE);
    BlockShards(c, block)[i]
  }

  ghost function Pieces(c: Code, blocks: seq<Bytes>): seq<Bytes>
    requires KofN(c) && Blocks(c, blocks)
  {
    seq(c.n, i requires 0 <= i < c.n => Piece(c, blocks, i))
  }

  lemma {:induction false} PieceLength(c: Code, blocks: seq<Bytes>, i: nat)
    requires KofN(c) && Blocks(c, blocks) && i < c.n
    ensures |Piece(c, blocks, i)| == SEGMENT_SIZE * |blocks|
  {
    hide KofN;
    if blocks != [] {
      PieceLength(c, blocks[1..], i);
    }
  }

  lemma {:induction false} PieceNext(c: Code, blocks: seq<Bytes>, b: Bytes, i: nat)
    requires KofN(c) && Blocks(c, blocks) && |b| == SEGMENT_SIZE * c.k && i < c.n
    ensures Piece(c, blocks + [b], i) == Piece(c, blocks, i) + BlockShard(c, b, i)
  {
    hide KofN;
    if blocks == [] {
      assert blocks + [b] == [b] && [b][1..] == [];
    } else {
      PieceNext(c, blocks[1..], b, i);
      assert (blocks + [b])[1..] == blocks[1..] + [b];
    }
  }

  /** Segment j of piece i is shard i of block j. */
  lemma {:induction false} PieceSegment(c: Code, blocks: seq<Bytes>, i: nat, j: nat)
    requires KofN(c) && Blocks(c, blocks) && i < c.n && j < |blocks|
    ensures SEGMENT_SIZE * j + SEGMENT_SIZE <= |Piece(c, blocks, i)|
    ensures Piece(c, blocks, i)[SEGMENT_SIZE * j..SEGMENT_SIZE * j + SEGMENT_SIZE] == BlockShard(c, blocks[j], i)
  {
    hide KofN, BlockShard;
    var p := Piece(c, blocks, i);
    PieceLength(c, blocks, i);
    if j > 0 {
      PieceSegment(c, blocks[1..], i, j - 1);
      var off := SEGMENT_SIZE * (j - 1);
      assert p[SEGMENT_SIZE + off..SEGMENT_SIZE + off + SEGMENT_SIZE]
          == p[SEGMENT_SIZE..][off..off + SEGMENT_SIZE];
      assert p[SEGMENT_SIZE..] == Piece(c, blocks[1..], i);
    }
  }

  /** Shard i of a block is its i-th segment, for the first k shards; the others are the code's parity of these. */
  lemma ShardIs(c: Code, block: Bytes, i: nat)
    requires KofN(c) && |block| == SEGMENT_SIZE * c.k && i < c.n
    ensures i < c.k ==> 64 * i + 64 <= |block| && BlockShard(c, block, i) == block[64 * i..64 * i + 64]
    ensures i >= c.k ==>
      var ps := c.parity(Chunks(block, SEGMENT_SIZE, c.k)); i - c.k < |ps| && BlockShard(c, block, i) == ps[i - c.k]
  {
    var ds := Chunks(block, SEGMENT_SIZE, c.k);
    assert Shards(c.parity(ds), c.n - c.k, SEGMENT_SIZE);
    hide KofN;
    if i < c.k {
      ChunkIs(block, c.k, i);
    }
  }

  lemma {:induction false} ChunkIs(s: Bytes, m: nat, i: nat)
    requires |s| == SEGMENT_SIZE * m && i < m
    ensures Chunks(s, SEGMENT_SIZE, m)[i] == s[64 * i..64 * i + 64]
    decreases m
  {
    if i > 0 {
      ChunkIs(s[64..], m - 1, i - 1);
      assert s[64..][64 * (i - 1)..64 * (i - 1) + 64] == s[64 * i..64 * i + 64];
    }
  }

  /** The first k pieces hold the data itself: segment j of piece i is segment i of block j. */
  lemma DataPieces(c: Code, blocks: seq<Bytes>, i: nat, j: nat)
    requires KofN(c) && Blocks(c, blocks) && i < c.k <= c.n && j < |blocks|
    ensures 64 * j + 64 <= |Piece(c, blocks, i)| && 64 * i + 64 <= |blocks[j]|
    ensures Piece(c, blocks, i)[64 * j..64 * j + 64] == blocks[j][64 * i..64 * i + 64]
  {
    hide KofN, Piece, BlockShard;
    PieceSegment(c, blocks, i, j);
    ShardIs(c, blocks[j], i);
  }

  // ----- taking segments out -----

  /** ExtractSegment */
  function ExtractSegment(pieces: seq<Bytes>, segmentIndex: nat): seq<Bytes> {
    var off := segmentIndex * SEGMENT_SIZE;
    seq(|pieces|, i requires 0 <= i < |pieces| =>
      if |pieces[i]| >= off + SEGMENT_SIZE then pieces[i][off..off + SEGMENT_SIZE] else [])
  }

  lemma {:induction false} SamePresent(ps: seq<Bytes>, qs: seq<Bytes>)
    requires |ps| == |qs| && forall i :: 0 <= i < |ps| ==> (ps[i] == [] <==> qs[i] == [])
    ensures Present(ps) == Present(qs)
  {
    if ps != [] {
      SamePresent(ps[1..], qs[1..]);
    }
  }

  /** A segment of the surviving pieces survives from the shards of its block. */
  lemma SegmentSurvives(c: Code, blocks: seq<Bytes>, pieces: seq<Bytes>, j: nat)
    requires KofN(c) && Blocks(c, blocks) && j < |blocks| && Survivors(pieces, Pieces(c, blocks))
    ensures Survivors(ExtractSegment(pieces, j), BlockShards(c, blocks[j]))
    ensures Present(ExtractSegment(pieces, j)) == Present(pieces)
  {
    var seg := ExtractSegment(pieces, j);
    var full := BlockShards(c, blocks[j]);
    assert Shards(c.parity(Chunks(blocks[j], SEGMENT_SIZE, c.k)), c.n - c.k, SEGMENT_SIZE);
    forall i | 0 <= i < c.n
      ensures (seg[i] == full[i] || seg[i] == []) && (seg[i] == [] <==> pieces[i] == [])
    {
      PieceSegment(c, blocks, i, j);
      PieceLength(c, blocks, i);
      assert Pieces(c, blocks)[i] == Piece(c, blocks, i);
      assert full[i] == BlockShard(c, blocks[j], i);
    }
    SamePresent(seg, pieces);
  }

  /** Recovering one extracted segment gives exactly that block of the data. */
  lemma SegmentExact(c: Code, blocks: seq<Bytes>, pieces: seq<Bytes>, j: nat)
    requires KofN(c) && Blocks(c, blocks) && j < |blocks| && Survivors(pieces, Pieces(c, blocks)) &&
      Present(pieces) >= c.k
    ensures c.rebuild(ExtractSegment(pieces, j)).Some?
    ensures Concat(c.rebuild(ExtractSegment(pieces, j)).value) == blocks[j]
  {
    SegmentSurvives(c, blocks, pieces, j);
    var ds := Chunks(blocks[j], SEGMENT_SIZE, c.k);
    assert Shards(ds, c.k, SEGMENT_SIZE);
    assert c.rebuild(ExtractSegment(pieces, j)) == Some(ds);
    ChunksConcat(blocks[j], SEGMENT_SIZE, c.k);
  }

  // ----- Encode -----

  function PieceSize(len: nat, k: nat): (per: nat)
    requires k > 0
    ensures len <= per * k < len + k
  {
    var q := (len + k - 1) / k;
    Ceiling(len, k, q);
    q
  }

  lemma Ceiling(len: nat, k: nat, q: nat)
    requires k > 0 && q == (len + k - 1) / k
    ensures len <= q * k < len + k
  {
    var r := (len + k - 1) % k;
    assert len + k - 1 == q * k + r;
  }

  function Padded(data: Bytes, k: nat): Bytes
    requires k > 0
  {
    data + Zeros(PieceSize(|data|, k) * k - |data|)
  }

  /** The library's Split: k shards of equal length, padded with zeros; nothing cannot be split. */
  function Split(data: Bytes, k: nat): Option<seq<Bytes>>
    requires k > 0
  {
    if data == [] then None else Some(Chunks(Padded(data, k), PieceSize(|data|, k), k))
  }

  /** RSCode.Encode */
  function RSEncode(c: Code, data: Bytes): Option<seq<Bytes>>
    requires c.k > 0
  {
    match Split(data, c.k)
    case None => None
    case Some(ds) => Some(Encoded(c, ds))
  }

  lemma Unique(a: nat, b: nat, k: nat, len: nat)
    requires len == a * k && len <= b * k < len + k
    ensures a == b
  {
    if b > a {
      Multiples.Gap(a, b, k);
    } else if b < a {
      Multiples.Gap(b, a, k);
    }
  }

  lemma BlockEncode(c: Code, block: Bytes)
    requires KofN(c) && |block| == SEGMENT_SIZE * c.k
    ensures RSEncode(c, block) == Some(BlockShards(c, block))
  {
    hide KofN, Chunks;
    OneOfMany(c);
    Unique(SEGMENT_SIZE, PieceSize(|block|, c.k), c.k, |block|);
    assert Padded(block, c.k) == block;
  }

  lemma OneOfMany(c: Code)
    requires KofN(c)
    ensures 0 < c.k <= c.n
  {
  }

  /** The blocks that EncodeShards cuts the flattened shards into. */
  function DataBlocks(c: Code, shards: seq<Bytes>): (blocks: seq<Bytes>)
    requires |shards| == c.k > 0 && |shards[0]| % SEGMENT_SIZE == 0 && Shards(shards, c.k, |shards[0]|)
    ensures Blocks(c, blocks) && |blocks| == |shards[0]| / SEGMENT_SIZE && Concat(blocks) == Concat(shards)
  {
    var m := |shards[0]| / SEGMENT_SIZE;
    ConcatLength(shards, |shards[0]|);
    Swap(|shards[0]|, m, c.k);
    ChunksConcat(Concat(shards), SEGMENT_SIZE * c.k, m);
    Chunks(Concat(shards), SEGMENT_SIZE * c.k, m)
  }

  lemma Swap(size: nat, m: nat, k: nat)
    requires size == SEGMENT_SIZE * m
    ensures size * k == (SEGMENT_SIZE * k) * m
  {
  }

  /** Every piece grows by its segment. */
  method AppendSegments(pieces: seq<Bytes>, segments: seq<Bytes>) returns (r: seq<Bytes>)
    requires |pieces| == |segments|
    ensures |r| == |pieces| && forall i :: 0 <= i < |r| ==> r[i] == pieces[i] + segments[i]
  {
    r := pieces;
    for i := 0 to |segments|
      invariant |r| == |pieces|
      invariant forall k :: 0 <= k < i ==> r[k] == pieces[k] + segments[k]
      invariant forall k :: i <= k < |r| ==> r[k] == pieces[k]
    {
      r := r[i := r[i] + segments[i]];
    }
  }

  method SameSize(pieces: seq<Bytes>, size: nat) returns (same: bool)
    ensures same <==> Shards(pieces, |pieces|, size)
  {
    for i := 0 to |pieces|
      invariant forall k :: 0 <= k < i ==> |pieces[k]| == size
    {
      if |pieces[i]| != size {
        return false;
      }
    }
    return true;
  }

  method Flatten(pieces: seq<Bytes>) returns (data: Bytes)
    ensures data == Concat(pieces)
  {
    data := [];
    assert pieces[0..] == pieces;
    for i := 0 to |pieces|
      invariant data + Concat(pieces[i..]) == Concat(pieces)
    {
      data := data + pieces[i];
      assert pieces[i..][1..] == pieces[i + 1..];
    }
  }

  lemma PiecesNext(c: Code, blocks: seq<Bytes>, b: Bytes, now: seq<Bytes>)
    requires KofN(c) && Blocks(c, blocks) && |b| == SEGMENT_SIZE * c.k
    requires |now| == c.n == |BlockShards(c, b)|
    requires forall i :: 0 <= i < c.n ==> now[i] == Pieces(c, blocks)[i] + BlockShards(c, b)[i]
    ensures now == Pieces(c, blocks + [b])
  {
    hide KofN, BlockShards;
    OneOfMany(c);
    forall i | 0 <= i < c.n
      ensures now[i] == Pieces(c, blocks + [b])[i]
    {
      PieceNext(c, blocks, b, i);
      ShardAt(c, b, i);
    }
  }

  lemma ShardAt(c: Code, b: Bytes, i: nat)
    requires KofN(c) && |b| == SEGMENT_SIZE * c.k && i < c.n
    ensures |BlockShards(c, b)| == c.n && BlockShard(c, b, i) == BlockShards(c, b)[i]
  {
    assert Shards(Chunks(b, SEGMENT_SIZE, c.k), c.k, SEGMENT_SIZE);
  }

  /** The loop of EncodeShards over the flattened data. */
  method EncodeBlocks(c: Code, data: Bytes, ghost m: nat) returns (pieces: seq<Bytes>)
    requires KofN(c) && |data| == SEGMENT_SIZE * c.k * m
    ensures pieces == Pieces(c, Chunks(data, SEGMENT_SIZE * c.k, m))
  {
    hide KofN, BlockShards, BlockShard, RSEncode, Piece;
    OneOfMany(c);
    var blockSize := SEGMENT_SIZE * c.k;
    pieces := seq(c.n, _ => []);
    var buf := data;
    ghost var done: seq<Bytes> := [];
    NoPieces(c, pieces);
    while buf != []
      invariant |done| <= m && |buf| == blockSize * (m - |done|) && Blocks(c, done)
      invariant done + Chunks(buf, blockSize, m - |done|) == Chunks(data, blockSize, m)
      invariant pieces == Pieces(c, done)
      decreases |buf|
    {
      NotDone(|buf|, blockSize, m - |done|);
      OneLess(blockSize, m - |done|);
      var s := buf[..blockSize];
      BlockEncode(c, s);
      ShardAt(c, s, 0);
      ghost var was := pieces;
      pieces := AppendSegments(pieces, RSEncode(c, s).value);
      PiecesNext(c, done, s, pieces);
      ghost var tail := Chunks(buf, blockSize, m - |done|);
      assert tail == [s] + tail[1..] && tail[1..] == Chunks(buf[blockSize..], blockSize, m - |done| - 1);
      assert done + tail == done + [s] + tail[1..];
      done := done + [s];
      buf := buf[blockSize..];
    }
    AllDone(blockSize, m - |done|);
    assert done + [] == done;
  }

  lemma NotDone(len: nat, size: nat, m: nat)
    requires len == size * m && len > 0
    ensures m > 0
  {
  }

  lemma AllDone(size: nat, m: nat)
    requires size > 0 && size * m == 0
    ensures m == 0
  {
  }

  lemma NoPieces(c: Code, pieces: seq<Bytes>)
    requires KofN(c) && |pieces| == c.n && forall i :: 0 <= i < c.n ==> pieces[i] == []
    ensures pieces == Pieces(c, [])
  {
  }

  /** RSSubCode.EncodeShards */
  method EncodeShards(c: Code, shards: seq<Bytes>) returns (r: Option<seq<Bytes>>)
    requires KofN(c)
    ensures r.Some? <==>
      |shards| == c.k && |shards[0]| % SEGMENT_SIZE == 0 && Shards(shards, c.k, |shards[0]|)
    ensures r.Some? ==> r.value == Pieces(c, DataBlocks(c, shards))
  {
    hide KofN, Pieces, Chunks;
    OneOfMany(c);
    if |shards| != c.k {
      return None;
    }
    var pieceSize := |shards[0]|;
    if pieceSize % SEGMENT_SIZE != 0 {
      return None;
    }
    var same := SameSize(shards, pieceSize);
    if !same {
      return None;
    }
    var data := Flatten(shards);
    ghost var blocks := DataBlocks(c, shards);
    ConcatLength(shards, pieceSize);
    Swap(pieceSize, pieceSize / SEGMENT_SIZE, c.k);
    var pieces := EncodeBlocks(c, data, pieceSize / SEGMENT_SIZE);
    return Some(pieces);
  }

  /** RSSubCode.Encode: it fails for no data and for pieces that are not whole segments. */
  method Encode(c: Code, data: Bytes) returns (r: Option<seq<Bytes>>)
    requires KofN(c)
    ensures r.Some? <==> data != [] && PieceSize(|data|, c.k) % SEGMENT_SIZE == 0
    ensures r.Some? ==> r.value == Pieces(c, DataBlocks(c, Split(data, c.k).value))
  {
    hide KofN, Pieces, Chunks, DataBlocks;
    OneOfMany(c);
    match Split(data, c.k) {
      case None => r := None;
      case Some(ds) => r := EncodeShards(c, ds);
    }
  }

  // ----- Recover -----

  /** The length of the first piece that is there. */
  function FirstSize(pieces: seq<Bytes>): nat {
    if pieces == [] then 0 else if pieces[0] != [] then |pieces[0]| else FirstSize(pieces[1..])
  }

  /** ReconstructData and Join of segment after segment, from segment j on, until n bytes are written. */
  function RecoverFrom(c: Code, pieces: seq<Bytes>, j: nat, m: nat, n: nat): Option<Bytes>
    decreases m - j
  {
    if j >= m || n == 0 then Some([])
    else
      var size := if n < SEGMENT_SIZE * c.k then n else SEGMENT_SIZE * c.k;
      match RSRecover(c, ExtractSegment(pieces, j), size)
      case None => None
      case Some(out) =>
        match RecoverFrom(c, pieces, j + 1, m, n - size)
        case None => None
        case Some(rest) => Some(out + rest)
  }

  /** RSCode.Recover */
  function RSRecover(c: Code, pieces: seq<Bytes>, n: nat): (r: Option<Bytes>)
    ensures r.Some? ==> |r.value| == n
  {
    match c.rebuild(pieces)
    case None => None
    case Some(ds) => if |Concat(ds)| < n then None else Some(Concat(ds)[..n])
  }

  function Recovered(c: Code, pieces: seq<Bytes>, n: nat): Option<Bytes> {
    var size := FirstSize(pieces);
    if |pieces| != c.n || size % SEGMENT_SIZE != 0 then None
    else RecoverFrom(c, pieces, 0, size / SEGMENT_SIZE, n)
  }

  /** RSSubCode.Recover */
  method Recover(c: Code, pieces: seq<Bytes>, n: nat) returns (ok: bool, out: Bytes)
    requires c.k > 0
    ensures |pieces| != c.n || FirstSize(pieces) % 64 != 0 ==> !ok
    ensures ok <==> Recovered(c, pieces, n).Some?
    ensures ok ==> out == Recovered(c, pieces, n).value
  {
    hide RSRecover, ExtractSegment;
    out := [];
    if |pieces| != c.n {
      return false, [];
    }
    var size := FindSize(pieces);
    if size % SEGMENT_SIZE != 0 {
      return false, [];
    }
    var left: nat := n;
    var decodedSize := SEGMENT_SIZE * c.k;
    var j, m := 0, size / SEGMENT_SIZE;
    ghost var all := RecoverFrom(c, pieces, 0, m, n);
    assert all.Some? ==> [] + all.value == all.value;
    while j < m && left > 0
      invariant j <= m
      invariant decodedSize == SEGMENT_SIZE * c.k || left == 0
      invariant var rest := RecoverFrom(c, pieces, j, m, left);
        if rest.None? then all.None? else all == Some(out + rest.value)
      decreases m - j
    {
      if left < decodedSize {
        decodedSize := left;
      }
      ghost var rest := RecoverFrom(c, pieces, j + 1, m, left - decodedSize);
      match RSRecover(c, ExtractSegment(pieces, j), decodedSize) {
        case None => return false, out;
        case Some(d) =>
          if rest.Some? {
            assert out + (d + rest.value) == out + d + rest.value;
          }
          out := out + d;
      }
      left := left - decodedSize;
      j := j + 1;
    }
    ok := true;
    assert out + [] == out;
  }

  method FindSize(pieces: seq<Bytes>) returns (size: nat)
    ensures size == FirstSize(pieces)
  {
    size := 0;
    assert pieces[0..] == pieces;
    for i := 0 to |pieces|
      invariant FirstSize(pieces) == FirstSize(pieces[i..])
    {
      if |pieces[i]| > size {
        return |pieces[i]|;
      }
      assert pieces[i..][1..] == pieces[i + 1..];
    }
  }

  function Least(a: nat, b: nat): nat { if a < b then a else b }

  lemma {:induction false} RecoverBlocks(c: Code, blocks: seq<Bytes>, pieces: seq<Bytes>, j: nat, n: nat)
    requires KofN(c) && Blocks(c, blocks) && Survivors(pieces, Pieces(c, blocks)) && Present(pieces) >= c.k
    requires j <= |blocks|
    ensures RecoverFrom(c, pieces, j, |blocks|, n) == Some(Concat(blocks[j..])[..Least(n, |Concat(blocks[j..])|)])
    decreases |blocks| - j
  {
    hide KofN, Pieces, ExtractSegment, Present, Survivors;
    var all := Concat(blocks[j..]);
    if j < |blocks| && n > 0 {
      var b := blocks[j];
      SegmentExact(c, blocks, pieces, j);
      assert blocks[j..] == [b] + blocks[j + 1..];
      var tail := Concat(blocks[j + 1..]);
      assert all == b + tail;
      var size := Least(n, |b|);
      RecoverBlocks(c, blocks, pieces, j + 1, n - size);
      assert all[..Least(n, |all|)] == b[..size] + tail[..Least(n - size, |tail|)];
    }
  }

  lemma {:induction false} FirstSizeIs(pieces: seq<Bytes>, size: nat)
    requires Present(pieces) > 0 && forall i :: 0 <= i < |pieces| ==> |pieces[i]| == size || pieces[i] == []
    ensures FirstSize(pieces) == size
  {
    if pieces[0] == [] {
      FirstSizeIs(pieces[1..], size);
    }
  }

  /** With any k pieces left, Recover writes exactly the first n bytes of the encoded data. */
  lemma RecoverExact(c: Code, blocks: seq<Bytes>, pieces: seq<Bytes>, n: nat)
    requires KofN(c) && Blocks(c, blocks) && Survivors(pieces, Pieces(c, blocks)) && Present(pieces) >= c.k
    ensures Recovered(c, pieces, n) == Some(Concat(blocks)[..Least(n, |Concat(blocks)|)])
  {
    hide KofN, Present, RecoverFrom;
    OneOfMany(c);
    forall i | 0 <= i < |pieces|
      ensures |pieces[i]| == SEGMENT_SIZE * |blocks| || pieces[i] == []
    {
      PieceLength(c, blocks, i);
    }
    FirstSizeIs(pieces, SEGMENT_SIZE * |blocks|);
    assert blocks[0..] == blocks;
    RecoverBlocks(c, blocks, pieces, 0, n);
  }

  /** Encode and Recover: all of the data comes back from any k of the n pieces. */
  lemma DataComesBack(c: Code, data: Bytes, pieces: seq<Bytes>, n: nat)
    requires KofN(c) && data != [] && PieceSize(|data|, c.k) % SEGMENT_SIZE == 0 && n <= |data|
    requires Survivors(pieces, Pieces(c, DataBlocks(c, Split(data, c.k).value))) && Present(pieces) >= c.k
    ensures Recovered(c, pieces, n) == Some(data[..n])
  {
    hide KofN, Present, Recovered, Pieces, Survivors, Chunks;
    OneOfMany(c);
    var ds := Split(data, c.k).value;
    var blocks := DataBlocks(c, ds);
    RecoverExact(c, blocks, pieces, n);
    ChunksConcat(Padded(data, c.k), PieceSize(|data|, c.k), c.k);
    assert Padded(data, c.k)[..n] == data[..n];
  }

  // ----- one segment alone -----

  lemma {:induction false} ChunkAt(s: Bytes, size: nat, m: nat, j: nat)
    requires |s| == size * m && j < m
    ensures size * j + size <= |s| && Chunks(s, size, m)[j] == s[size * j..size * j + size]
    decreases m
  {
    hide Chunks;
    OneLess(size, m);
    ChunksFirst(s, size, m);
    if j == 0 {
      assert size * j == 0;
    } else {
      ChunkAt(s[size..], size, m - 1, j - 1);
      OneLess(size, j);
      SliceShift(s, size, size * (j - 1));
    }
  }

  lemma ChunksFirst(s: Bytes, size: nat, m: nat)
    requires m > 0 && |s| == size * m
    ensures size <= |s| && |s[size..]| == size * (m - 1)
    ensures Chunks(s, size, m) == [s[..size]] + Chunks(s[size..], size, m - 1)
  {
    OneLess(size, m);
  }

  lemma SliceShift(s: Bytes, size: nat, off: nat)
    requires size + off + size <= |s|
    ensures s[size..][off..off + size] == s[size + off..size + off + size]
  {
  }

  /** A segment is its own first segment. */
  lemma ExtractTwice(c: Code, blocks: seq<Bytes>, pieces: seq<Bytes>, j: nat)
    requires KofN(c) && Blocks(c, blocks) && j < |blocks| && Survivors(pieces, Pieces(c, blocks))
    ensures var seg := ExtractSegment(pieces, j);
      && ExtractSegment(seg, 0) == seg && Survivors(seg, Pieces(c, [blocks[j]]))
      && Present(seg) == Present(pieces)
  {
    hide KofN, Piece, Present;
    SegmentSurvives(c, blocks, pieces, j);
    OneOfMany(c);
    var seg, full := ExtractSegment(pieces, j), Pieces(c, [blocks[j]]);
    forall i | 0 <= i < c.n
      ensures (seg[i] == full[i] || seg[i] == []) && ExtractSegment(seg, 0)[i] == seg[i]
    {
      ShardAt(c, blocks[j], i);
      PieceOne(c, blocks[j], i);
    }
    ShardAt(c, blocks[j], 0);
  }

  lemma PieceOne(c: Code, b: Bytes, i: nat)
    requires KofN(c) && |b| == SEGMENT_SIZE * c.k && i < c.n
    ensures Piece(c, [b], i) == BlockShard(c, b, i)
  {
    hide KofN;
    assert [b][1..] == [];
  }

  lemma ConcatOne(b: Bytes)
    ensures Concat([b]) == b
  {
    var one: seq<Bytes> := [b];
    assert one[1..] == [];
  }

  /** Recover on one extracted segment, from any k pieces, writes exactly that block of the data. */
  lemma SegmentRecovers(c: Code, blocks: seq<Bytes>, pieces: seq<Bytes>, j: nat, n: nat)
    requires KofN(c) && Blocks(c, blocks) && j < |blocks| && Survivors(pieces, Pieces(c, blocks))
    requires Present(pieces) >= c.k
    ensures Recovered(c, ExtractSegment(pieces, j), n) == Some(blocks[j][..Least(n, |blocks[j]|)])
  {
    hide KofN, Pieces, ExtractSegment, Present, Survivors, Recovered;
    ExtractTwice(c, blocks, pieces, j);
    RecoverExact(c, [blocks[j]], ExtractSegment(pieces, j), n);
    ConcatOne(blocks[j]);
  }

  /** Segment j of encoded data is the j-th stretch of 64k bytes of it, padded at its end. */
  lemma SegmentIsSlice(c: Code, data: Bytes, pieces: seq<Bytes>, j: nat)
    requires KofN(c) && data != [] && PieceSize(|data|, c.k) % SEGMENT_SIZE == 0
    requires Survivors(pieces, Pieces(c, DataBlocks(c, Split(data, c.k).value))) && Present(pieces) >= c.k
    requires j < PieceSize(|data|, c.k) / SEGMENT_SIZE
    ensures var size := SEGMENT_SIZE * c.k;
      && size * j + size <= |Padded(data, c.k)|
      && Recovered(c, ExtractSegment(pieces, j), size) == Some(Padded(data, c.k)[size * j..size * j + size])
  {
    hide KofN, Pieces, ExtractSegment, Present, Survivors, Recovered, Chunks;
    OneOfMany(c);
    var ds, size := Split(data, c.k).value, SEGMENT_SIZE * c.k;
    var m := PieceSize(|data|, c.k) / SEGMENT_SIZE;
    var blocks := DataBlocks(c, ds);
    SegmentRecovers(c, blocks, pieces, j, size);
    ChunksConcat(Padded(data, c.k), PieceSize(|data|, c.k), c.k);
    ConcatLength(ds, PieceSize(|data|, c.k));
    Swap(PieceSize(|data|, c.k), m, c.k);
    ChunkAt(Concat(ds), size, m, j);
    assert blocks[j][..size] == blocks[j];
  }

  // ----- codes -----

  /** Two data shards and their sum, byte by byte modulo 256. */
  function SumCode(): Code {
    Code(2, 3, ds => if |ds| == 2 && |ds[0]| == |ds[1]| then [SumOf(ds[0], ds[1])] else [], ps => FromSum(ps))
  }

  function Plus(x: Byte, y: Byte): Byte { var a: int, b: int := x, y; (a + b) % 256 }

  function Minus(x: Byte, y: Byte): Byte { var a: int, b: int := x, y; (a - b) % 256 }

  function SumOf(a: Bytes, b: Bytes): Bytes
    requires |a| == |b|
  {
    seq(|a|, i requires 0 <= i < |a| => Plus(a[i], b[i]))
  }

  function DifferenceOf(p: Bytes, b: Bytes): Bytes
    requires |p| == |b|
  {
    seq(|p|, i requires 0 <= i < |p| => Minus(p[i], b[i]))
  }

  function FromSum(ps: seq<Bytes>): Option<seq<Bytes>> {
    if |ps| != 3 then None
    else if ps[0] != [] && ps[1] != [] then Some([ps[0], ps[1]])
    else if ps[1] != [] && |ps[1]| == |ps[2]| then Some([DifferenceOf(ps[2], ps[1]), ps[1]])
    else if ps[0] != [] && |ps[0]| == |ps[2]| then Some([ps[0], DifferenceOf(ps[2], ps[0])])
    else None
  }

  lemma SumBack(a: Bytes, b: Bytes)
    requires |a| == |b|
    ensures DifferenceOf(SumOf(a, b), b) == a && DifferenceOf(SumOf(a, b), a) == b
  {
  }

  lemma TwoPresent(ps: seq<Bytes>)
    requires |ps| == 3 && Present(ps) >= 2
    ensures (ps[0] != [] && ps[1] != []) || (ps[1] != [] && ps[2] != []) || (ps[0] != [] && ps[2] != [])
  {
    assert Present(ps) == One(ps[0] != []) + Present(ps[1..]);
    assert Present(ps[1..]) == One(ps[1] != []) + Present(ps[1..][1..]);
    assert Present(ps[1..][1..]) == One(ps[2] != []);
  }

  /** The assumption about the library is one that a code with real parity meets. */
  lemma SumKofN()
    ensures KofN(SumCode())
  {
    var c := SumCode();
    forall ds, ps, w: nat | w > 0 && Shards(ds, 2, w) && Enough(c, ds, ps)
      ensures c.rebuild(ps) == Some(ds)
    {
      SumBack(ds[0], ds[1]);
      TwoPresent(ps);
      assert Encoded(c, ds) == [ds[0], ds[1], SumOf(ds[0], ds[1])];
      assert ds == [ds[0], ds[1]];
    }
  }
}
