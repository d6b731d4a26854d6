/** A file behind a write-back cache, and what a crash may leave of it. */
module CrashDisk {
  import opened Wire

  /** The part of the file that one disk sector holds and that is written atomically. */
  const HEADER_LEN := 40

  function Truncated(file: Bytes, n: nat): Bytes {
    if n <= |file| then file[..n] else file + Zeros(n - |file|)
  }

  /** A truncated file has the length asked for, its old bytes up to there, and zeros behind them. */
  lemma TruncatedAt(file: Bytes, n: nat)
    ensures var f := Truncated(file, n);
      |f| == n && forall i :: 0 <= i < n ==> f[i] == if i < |file| then file[i] else 0
  {
  }

  /** What may be on disk after a crash, given the contents since the last sync, oldest first:
      the header of one of them, and every later byte on which they all agree.  All else,
      including the bytes of unsynced writes and the length of the file, is arbitrary. */
  ghost predicate CrashImage(versions: seq<Bytes>, img: Bytes) {
    && |img| >= HEADER_LEN
    && (exists k :: 0 <= k < |versions| && SameHeader(versions[k], img))
    && (forall i :: HEADER_LEN <= i && Settled(versions, i) ==> i < |img| && img[i] == versions[0][i])
  }

  predicate SameHeader(file: Bytes, img: Bytes) {
    |file| >= HEADER_LEN && |img| >= HEADER_LEN && img[..HEADER_LEN] == file[..HEADER_LEN]
  }

  ghost predicate Settled(versions: seq<Bytes>, i: nat) {
    && |versions| > 0 && i < |versions[0]|
    && forall k :: 0 <= k < |versions| ==> i < |versions[k]| && versions[k][i] == versions[0][i]
  }

  /** Each of the contents may be what a crash leaves, and so may one's header in front of another's rest. */
  lemma CrashShows(versions: seq<Bytes>, j: nat, k: nat)
    requires j < |versions| && k < |versions| && |versions[j]| >= HEADER_LEN && |versions[k]| >= HEADER_LEN
    ensures CrashImage(versions, versions[k])
    ensures CrashImage(versions, versions[j][..HEADER_LEN] + versions[k][HEADER_LEN..])
  {
    assert SameHeader(versions[k], versions[k]);
    var img := versions[j][..HEADER_LEN] + versions[k][HEADER_LEN..];
    assert SameHeader(versions[j], img);
  }

  class Disk {
    var content: Bytes
    /** The contents since the last sync, oldest first; the last one is the current one. */
    ghost var versions: seq<Bytes>
    /** Every value versions has had: the moments at which a crash may strike. */
    ghost var moments: seq<seq<Bytes>>

    ghost predicate Valid()
      reads this
    {
      && |versions| > 0 && versions[|versions| - 1] == content
      && |moments| > 0 && moments[|moments| - 1] == versions
    }

    constructor (file: Bytes)
      ensures Valid() && content == file && versions == [file] && moments == [[file]]
    {
      content, versions, moments := file, [file], [[file]];
    }

    method Truncate(n: nat)
      requires Valid()
      modifies this
      ensures Valid() && content == Truncated(old(content), n)
      ensures versions == old(versions) + [content] && moments == old(moments) + [versions]
    {
      content := Truncated(content, n);
      versions := versions + [content];
      moments := moments + [versions];
    }

    method WriteAt(data: Bytes, off: nat)
      requires Valid()
      modifies this
      ensures Valid() && content == Overwrite(old(content), off, data)
      ensures versions == old(versions) + [content] && moments == old(moments) + [versions]
    {
      content := Overwrite(content, off, data);
      versions := versions + [content];
      moments := moments + [versions];
    }

    method Sync()
      requires Valid()
      modifies this
      ensures Valid() && content == old(content)
      ensures versions == [content] && moments == old(moments) + [versions]
    {
      versions := [content];
      moments := moments + [versions];
    }
  }

  // ----- several writes in a row -----

  /** The moments of writing chunks one behind the other. */
  function FillMoments(versions: seq<Bytes>, off: nat, chunks: seq<Bytes>): (ms: seq<seq<Bytes>>)
    requires |versions| > 0
    ensures |ms| == |chunks|
    ensures forall k :: 0 <= k < |ms| ==> |ms[k]| > 0
    decreases chunks
  {
    if chunks == [] then []
    else
      var now := versions + [Overwrite(versions[|versions| - 1], off, chunks[0])];
      [now] + FillMoments(now, off + |chunks[0]|, chunks[1..])
  }

  function LastOf(versions: seq<Bytes>, ms: seq<seq<Bytes>>): Bytes
    requires |versions| > 0 && forall k :: 0 <= k < |ms| ==> |ms[k]| > 0
  {
    var vs := if ms == [] then versions else ms[|ms| - 1];
    vs[|vs| - 1]
  }

  lemma FillFirst(versions: seq<Bytes>, off: nat, chunks: seq<Bytes>)
    requires |versions| > 0 && chunks != []
    ensures var now := versions + [Overwrite(versions[|versions| - 1], off, chunks[0])];
      var rest := FillMoments(now, off + |chunks[0]|, chunks[1..]);
      && FillMoments(versions, off, chunks) == [now] + rest
      && LastOf(versions, FillMoments(versions, off, chunks)) == LastOf(now, rest)
  {
    hide Overwrite;
  }

  lemma OverwriteTwice(file: Bytes, off: nat, a: Bytes, b: Bytes)
    requires off <= |file|
    ensures Overwrite(Overwrite(file, off, a), off + |a|, b) == Overwrite(file, off, a + b)
  {
    var f := Overwrite(file, off, a);
    assert f[..off + |a|] == file[..off] + a;
    if off + |a| + |b| <= |file| {
      assert f[off + |a| + |b|..] == file[off + |a| + |b|..];
    }
  }

  lemma {:induction false} FillLast(versions: seq<Bytes>, off: nat, chunks: seq<Bytes>)
    requires |versions| > 0 && off <= |versions[|versions| - 1]|
    ensures LastOf(versions, FillMoments(versions, off, chunks)) ==
            Overwrite(versions[|versions| - 1], off, Concat(chunks))
    decreases chunks
  {
    var last := versions[|versions| - 1];
    if chunks != [] {
      hide FillMoments;
      FillFirst(versions, off, chunks);
      OverwriteTwice(last, off, chunks[0], Concat(chunks[1..]));
      FillLast(versions + [Overwrite(last, off, chunks[0])], off + |chunks[0]|, chunks[1..]);
    }
  }

  /** An encoder on the file: every chunk is one write, behind the one before. */
  method WriteChunks(disk: Disk, off: nat, chunks: seq<Bytes>)
    requires disk.Valid() && off <= |disk.content|
    modifies disk
    ensures disk.Valid() && disk.content == Overwrite(old(disk.content), off, Concat(chunks))
    ensures disk.moments == old(disk.moments) + FillMoments(old(disk.versions), off, chunks)
  {
    hide Overwrite, FillMoments, LastOf;
    ghost var all := FillMoments(disk.versions, off, chunks);
    FillLast(disk.versions, off, chunks);
    assert chunks[0..] == chunks && disk.moments + all == old(disk.moments) + all;
    var end: nat := off;
    for i := 0 to |chunks|
      invariant disk.Valid()
      invariant disk.moments + FillMoments(disk.versions, end, chunks[i..]) == old(disk.moments) + all
      invariant LastOf(disk.versions, FillMoments(disk.versions, end, chunks[i..])) == LastOf(old(disk.versions), all)
    {
      FillFirst(disk.versions, end, chunks[i..]);
      assert chunks[i..][0] == chunks[i] && chunks[i..][1..] == chunks[i + 1..];
      ghost var was, rest := disk.moments, FillMoments(
        disk.versions + [Overwrite(disk.content, end, chunks[i])], end + |chunks[i]|, chunks[i + 1..]);
      disk.WriteAt(chunks[i], end);
      assert was + ([disk.versions] + rest) == was + [disk.versions] + rest;
      end := end + |chunks[i]|;
    }
    FillNone(disk.versions, end, chunks[|chunks|..]);
  }

  lemma FillNone(versions: seq<Bytes>, off: nat, chunks: seq<Bytes>)
    requires |versions| > 0 && chunks == []
    ensures FillMoments(versions, off, chunks) == []
    ensures LastOf(versions, []) == versions[|versions| - 1]
  {
  }
}

/** A log of bytes from offset base on whose length is kept in the header: the layout that
    persist/appendonly.go and skykey/skykeymanager.go share. */
module LengthLog {
  import opened Wire
  import opened CrashDisk
  import opened WireLayout

  /** 32 fixed bytes (two specifiers), then the offset of the end of the log. */
  datatype Layout = Layout(head: Bytes, base: nat) {
    predicate Valid() { |head| == 32 && base >= HEADER_LEN }

    function Header(data: Bytes): Bytes { head + PutU64(base + |data|) }

    predicate HeaderFor(file: Bytes, data: Bytes) {
      |file| >= HEADER_LEN && file[..HEADER_LEN] == Header(data)
    }

    /** The log's bytes are in place, whatever the header says. */
    predicate Stores(file: Bytes, data: Bytes) {
      data != [] ==> base + |data| <= |file| && file[base..base + |data|] == data
    }

    /** Reading the file gives exactly this data. */
    predicate Holds(file: Bytes, data: Bytes) {
      HeaderFor(file, data) && Stores(file, data)
    }
  }

  /** What stands where in a file that holds data. */
  lemma HoldsFormat(l: Layout, file: Bytes, data: Bytes)
    requires l.Valid() && l.Holds(file, data) && l.base + |data| < TWO_64
    ensures At(file, 0, l.head) && NumberAt(file, 32, l.base + |data|) && (data == [] || At(file, l.base, data))
  {
    hide PutU64, NumberAt;
    var h := file[..HEADER_LEN];
    assert file[..32] == h[..32];
    assert file[32..40] == h[32..] == PutU64(l.base + |data|);
    NumberIs(file, 32, l.base + |data|);
  }

  lemma StoresPrefix(l: Layout, file: Bytes, a: Bytes, b: Bytes)
    requires l.Stores(file, a + b)
    ensures l.Stores(file, a)
  {
    if a != [] {
      assert file[l.base..l.base + |a|] == file[l.base..l.base + |a + b|][..|a|];
    }
  }

  ghost predicate AllStore(l: Layout, versions: seq<Bytes>, data: Bytes) {
    forall k :: 0 <= k < |versions| ==> l.Stores(versions[k], data)
  }

  ghost predicate AllHeaded(l: Layout, versions: seq<Bytes>, a: Bytes, b: Bytes) {
    forall k :: 0 <= k < |versions| ==> l.HeaderFor(versions[k], a) || l.HeaderFor(versions[k], b)
  }

  lemma CrashByte(l: Layout, versions: seq<Bytes>, img: Bytes, data: Bytes, i: nat)
    requires l.Valid() && |versions| > 0 && AllStore(l, versions, data) && CrashImage(versions, img) && i < |data|
    ensures l.base + i < |img| && img[l.base + i] == data[i]
  {
    forall k | 0 <= k < |versions|
      ensures l.base + i < |versions[k]| && versions[k][l.base + i] == data[i]
    {
      assert l.Stores(versions[k], data);
      assert versions[k][l.base + i] == versions[k][l.base..l.base + |data|][i];
    }
    assert Settled(versions, l.base + i);
  }

  /** Bytes that all contents since the last sync agree on survive a crash. */
  lemma CrashStores(l: Layout, versions: seq<Bytes>, img: Bytes, data: Bytes)
    requires l.Valid() && |versions| > 0 && AllStore(l, versions, data) && CrashImage(versions, img)
    ensures l.Stores(img, data)
  {
    if data != [] {
      CrashByte(l, versions, img, data, |data| - 1);
      forall i | 0 <= i < |data|
        ensures img[l.base..l.base + |data|][i] == data[i]
      {
        CrashByte(l, versions, img, data, i);
      }
    }
  }

  /** The header survives as one of the headers written. */
  lemma CrashHeader(l: Layout, versions: seq<Bytes>, img: Bytes, a: Bytes, b: Bytes)
    requires AllHeaded(l, versions, a, b) && CrashImage(versions, img)
    ensures l.HeaderFor(img, a) || l.HeaderFor(img, b)
  {
    var k :| 0 <= k < |versions| && SameHeader(versions[k], img);
    assert l.HeaderFor(versions[k], a) || l.HeaderFor(versions[k], b);
  }

  /** Every content since the last sync holds the data. */
  ghost predicate Steady(l: Layout, versions: seq<Bytes>, data: Bytes) {
    |versions| > 0 && forall k :: 0 <= k < |versions| ==> l.Holds(versions[k], data)
  }

  /** The new bytes are in place everywhere; only the header is still open. */
  ghost predicate Committing(l: Layout, versions: seq<Bytes>, data: Bytes, more: Bytes) {
    |versions| > 0 && AllHeaded(l, versions, data, data + more) && AllStore(l, versions, data + more)
  }

  /** A crash at this moment leaves all of the data, and all or none of what is being appended. */
  ghost predicate Survives(l: Layout, versions: seq<Bytes>, data: Bytes, more: Bytes) {
    forall img :: CrashImage(versions, img) ==> l.Holds(img, data) || l.Holds(img, data + more)
  }

  lemma SteadyCrash(l: Layout, versions: seq<Bytes>, data: Bytes, img: Bytes)
    requires l.Valid() && Steady(l, versions, data) && CrashImage(versions, img)
    ensures l.Holds(img, data)
  {
    CrashHeader(l, versions, img, data, data);
    CrashStores(l, versions, img, data);
  }

  lemma SteadySurvives(l: Layout, versions: seq<Bytes>, data: Bytes, more: Bytes)
    requires l.Valid() && Steady(l, versions, data)
    ensures Survives(l, versions, data, more)
  {
    forall img | CrashImage(versions, img)
      ensures l.Holds(img, data)
    {
      SteadyCrash(l, versions, data, img);
    }
  }

  lemma CommittingSurvives(l: Layout, versions: seq<Bytes>, data: Bytes, more: Bytes)
    requires l.Valid() && Committing(l, versions, data, more)
    ensures Survives(l, versions, data, more)
  {
    forall img | CrashImage(versions, img)
      ensures l.Holds(img, data) || l.Holds(img, data + more)
    {
      CrashHeader(l, versions, img, data, data + more);
      CrashStores(l, versions, img, data + more);
      StoresPrefix(l, img, data, more);
    }
  }

  // ----- what the file operations do to the log -----

  lemma TruncateKeeps(l: Layout, file: Bytes, data: Bytes, n: nat)
    requires l.Valid() && l.Holds(file, data) && n >= l.base + |data|
    ensures l.Holds(Truncated(file, n), data)
  {
    var f := Truncated(file, n);
    assert f[..HEADER_LEN] == file[..HEADER_LEN];
    if data != [] {
      assert f[l.base..l.base + |data|] == file[l.base..l.base + |data|];
    }
  }

  lemma AppendKeeps(l: Layout, file: Bytes, data: Bytes, off: nat, more: Bytes)
    requires l.Valid() && l.Holds(file, data) && off >= l.base + |data|
    ensures l.Holds(Overwrite(file, off, more), data)
  {
    var f := Overwrite(file, off, more);
    assert f[..HEADER_LEN] == file[..HEADER_LEN];
    if data != [] {
      assert f[l.base..l.base + |data|] == file[l.base..l.base + |data|];
    }
  }

  lemma AppendStores(l: Layout, file: Bytes, data: Bytes, more: Bytes)
    requires l.Valid() && l.Stores(file, data)
    ensures l.Stores(Overwrite(file, l.base + |data|, more), data + more)
  {
    var f := Overwrite(file, l.base + |data|, more);
    var end := l.base + |data|;
    if data + more != [] {
      assert |f| >= end + |more|;
      assert f[end..end + |more|] == more;
      if data != [] {
        assert f[l.base..end] == file[l.base..end];
      }
      assert f[l.base..end + |more|] == f[l.base..end] + f[end..end + |more|];
    }
  }

  /** Writing inside the header leaves the log's bytes alone. */
  lemma HeaderWriteKeeps(l: Layout, file: Bytes, data: Bytes, off: nat, bytes: Bytes)
    requires l.Valid() && l.Stores(file, data) && |file| >= HEADER_LEN && off + |bytes| <= HEADER_LEN
    ensures l.Stores(Overwrite(file, off, bytes), data) && |Overwrite(file, off, bytes)| == |file|
    ensures Overwrite(file, off, bytes)[..HEADER_LEN] ==
      file[..HEADER_LEN][..off] + bytes + file[..HEADER_LEN][off + |bytes|..]
  {
    var f := Overwrite(file, off, bytes);
    assert f[off + |bytes|..] == file[off + |bytes|..];
    if data != [] {
      var skip := off + |bytes|;
      assert f[l.base..l.base + |data|] == f[skip..][l.base - skip..l.base + |data| - skip];
      assert file[l.base..l.base + |data|] == file[skip..][l.base - skip..l.base + |data| - skip];
    }
  }

  lemma LengthWritten(l: Layout, file: Bytes, data: Bytes, more: Bytes)
    requires l.Valid() && l.HeaderFor(file, data) && l.Stores(file, data + more)
    ensures l.Holds(Overwrite(file, 32, PutU64(l.base + |data + more|)), data + more)
  {
    hide PutU64;
    HeaderWriteKeeps(l, file, data + more, 32, PutU64(l.base + |data + more|));
    assert file[..HEADER_LEN][..32] == l.head;
  }

  // ----- reading the log -----

  /** The header is the expected one and the file is at least as long as it says. */
  predicate Sound(l: Layout, file: Bytes) {
    && |file| >= HEADER_LEN && file[..32] == l.head
    && l.base <= EndOf(file)
    && (l.base < EndOf(file) ==> EndOf(file) <= |file|)
  }

  function EndOf(file: Bytes): nat
    requires |file| >= HEADER_LEN
  {
    FromLittleEndian(file[32..HEADER_LEN])
  }

  function Data(l: Layout, file: Bytes): Bytes
    requires Sound(l, file)
  {
    if l.base < EndOf(file) then file[l.base..EndOf(file)] else []
  }

  lemma HeadedEnd(l: Layout, file: Bytes, data: Bytes)
    requires l.Valid() && l.HeaderFor(file, data) && l.base + |data| < TWO_64
    ensures EndOf(file) == l.base + |data| && file[..32] == l.head
  {
    hide PutU64, FromLittleEndian;
    var h := file[..HEADER_LEN];
    assert file[32..HEADER_LEN] == h[32..] == PutU64(l.base + |data|);
    assert file[..32] == h[..32];
    assert PutU64(l.base + |data|) + [] == PutU64(l.base + |data|);
    U64RoundTrip(l.base + |data|, []);
  }

  /** A file that holds data is read as that data. */
  lemma HoldsData(l: Layout, file: Bytes, data: Bytes)
    requires l.Valid() && l.Holds(file, data) && l.base + |data| < TWO_64
    ensures Sound(l, file) && Data(l, file) == data
  {
    hide PutU64, EndOf;
    HeadedEnd(l, file, data);
  }

  /** And every sound file holds what is read from it. */
  lemma DataHolds(l: Layout, file: Bytes)
    requires l.Valid() && Sound(l, file)
    ensures l.Holds(file, Data(l, file))
  {
    hide LittleEndian, FromLittleEndian;
    LittleEndianUnique(file[32..HEADER_LEN]);
    assert file[..HEADER_LEN] == file[..32] + file[32..HEADER_LEN];
  }
}

/** persist/appendonly.go */
module AppendOnly {
  import opened Common
  import opened Wire
  import opened CrashDisk
  import opened LengthLog
  import opened WireLayout

  const METADATA_PAGE_SIZE := 4096
  const MAX_INT64 := 0x7fff_ffff_ffff_ffff

  datatype LoadError = TooShort | NotText | WrongHeader | WrongVersion | BadLength

  datatype Loaded = Failed(error: LoadError) | Reader(bytes: Bytes)

  /** Specifiers are made of ASCII characters. */
  predicate IsText(s: Bytes) { forall i :: 0 <= i < |s| ==> s[i] < 128 }

  /** What is wrong with the metadata, in the order in which load finds it. */
  function MetadataError(file: Bytes, header: Bytes, version: Bytes): Option<LoadError> {
    if |file| < HEADER_LEN then Some(TooShort)
    else if !IsText(file[..32]) then Some(NotText)
    else if file[..16] != header then Some(WrongHeader)
    else if file[16..32] != version then Some(WrongVersion)
    else if EndOf(file) > MAX_INT64 then Some(BadLength)
    else None
  }

  /** Exactly which files are accepted, and the length they give. */
  lemma AcceptedIff(file: Bytes, header: Bytes, version: Bytes, n: nat)
    requires |header| == 16 && |version| == 16 && IsText(header) && IsText(version)
    ensures MetadataError(file, header, version).None? && EndOf(file) == n <==>
      At(file, 0, header) && At(file, 16, version) && NumberAt(file, 32, n) && n <= 0x7fff_ffff_ffff_ffff
  {
    if |file| >= HEADER_LEN {
      EightBytes(file[32..40]);
      hide FromLittleEndian, Number;
      SplitSpecifiers(file, header, version);
    }
  }

  /** What load hands out, whatever length the metadata gives: a file too short for it is filled up with zeros. */
  function Handed(file: Bytes): Bytes
    requires |file| >= HEADER_LEN
  {
    if EndOf(file) <= METADATA_PAGE_SIZE then [] else Truncated(file, EndOf(file))[METADATA_PAGE_SIZE..]
  }

  /** What load leaves on the disk. */
  function LeftBehind(file: Bytes): Bytes
    requires |file| >= HEADER_LEN
  {
    if EndOf(file) == METADATA_PAGE_SIZE then file else Truncated(file, EndOf(file))
  }

  /** A file that was loaded loads again if and only if the length in it reaches past the metadata, and then
      it gives the same bytes. */
  lemma LoadsAgain(file: Bytes, header: Bytes, version: Bytes)
    requires |header| == 16 && |version| == 16 && MetadataError(file, header, version).None?
    ensures MetadataError(LeftBehind(file), header, version).None? <==> EndOf(file) >= HEADER_LEN
    ensures EndOf(file) >= HEADER_LEN ==>
      Handed(LeftBehind(file)) == Handed(file) && LeftBehind(LeftBehind(file)) == LeftBehind(file)
  {
    hide FromLittleEndian;
    var f := LeftBehind(file);
    if EndOf(file) >= HEADER_LEN {
      assert f[..16] == file[..16] && f[16..32] == file[16..32] && f[..32] == file[..32];
      assert f[32..HEADER_LEN] == file[32..HEADER_LEN];
    }
  }

  /** The moments at which a crash can strike during a write, in order. */
  function WriteMoments(versions: seq<Bytes>, length: nat, b: Bytes): seq<seq<Bytes>>
    requires |versions| > 0
  {
    var t := Truncated(versions[|versions| - 1], length);
    var w := Overwrite(t, length, b);
    var h := Overwrite(w, 32, PutU64(length + |b|));
    [versions + [t], versions + [t] + [w], [w], [w] + [h], [h]]
  }

  /** Wherever in the write the crash strikes, the file holds the old data or all of the new. */
  lemma WriteSurvives(l: Layout, versions: seq<Bytes>, data: Bytes, b: Bytes)
    requires l.Valid() && Steady(l, versions, data)
    ensures forall vs :: vs in WriteMoments(versions, l.base + |data|, b) ==> Survives(l, vs, data, b)
    ensures Steady(l, WriteMoments(versions, l.base + |data|, b)[4], data + b)
  {
    hide Overwrite, Truncated, PutU64, Survives, Layout.HeaderFor, Layout.Stores;
    var end := l.base + |data|;
    var last := versions[|versions| - 1];
    var t := Truncated(last, end);
    TruncateKeeps(l, last, data, end);
    SteadySurvives(l, versions + [t], data, b);
    var w := Overwrite(t, end, b);
    AppendKeeps(l, t, data, end, b);
    AppendStores(l, t, data, b);
    SteadySurvives(l, versions + [t] + [w], data, b);
    SteadySurvives(l, [w], data, b);
    var h := Overwrite(w, 32, PutU64(end + |b|));
    assert end + |b| == l.base + |data + b|;
    LengthWritten(l, w, data, b);
    CommittingSurvives(l, [w] + [h], data, b);
    CommittingSurvives(l, [h], data, b);
    var ms := WriteMoments(versions, end, b);
    assert ms[0] == versions + [t] && ms[1] == versions + [t] + [w] && ms[2] == [w] && ms[3] == [w] + [h] &&
      ms[4] == [h];
  }

  /** A write leaves a file of exactly the length it records. */
  lemma WrittenLength(file: Bytes, length: nat, b: Bytes)
    requires length >= METADATA_PAGE_SIZE
    ensures |Overwrite(Overwrite(Truncated(file, length), length, b), 32, PutU64(length + |b|))| == length + |b|
  {
    hide Overwrite, Truncated, PutU64;
    var t := Truncated(file, length);
    TruncatedAt(file, length);
    OverwriteAt(t, length, b);
    OverwriteAt(Overwrite(t, length, b), 32, PutU64(length + |b|));
  }

  class AppendOnlyPersist {
    const header: Bytes
    const version: Bytes
    const disk: Disk
    /** metadata.Length */
    var length: nat
    /** Everything written so far. */
    ghost var data: Bytes

    function Form(): Layout { Layout(header + version, METADATA_PAGE_SIZE) }

    ghost predicate Valid()
      reads this, disk
    {
      && |header| == 16 && |version| == 16
      && disk.Valid() && Steady(Form(), disk.versions, data)
      && length == METADATA_PAGE_SIZE + |data| <= MAX_INT64
    }

    constructor (header: Bytes, version: Bytes, disk: Disk)
      ensures this.header == header && this.version == version && this.disk == disk
    {
      this.header, this.version, this.disk := header, version, disk;
      length, data := 0, [];
    }

    /** init, on the empty file that it has just created. */
    method Init()
      requires |header| == 16 && |version| == 16 && disk.Valid() && disk.content == []
      modifies this, disk
      ensures Valid() && data == []
    {
      length := METADATA_PAGE_SIZE;
      disk.WriteAt(header + version + PutU64(length), 0);
      disk.Sync();
      data := [];
      assert disk.content[..HEADER_LEN] == Form().Header([]);
    }

    /** Write appends b, and every moment on the way survives a crash. */
    method Write(b: Bytes) returns (n: nat)
      requires Valid() && length + |b| <= MAX_INT64
      modifies this, disk
      ensures Valid() && data == old(data) + b && n == |b| && |disk.content| == length
      ensures disk.moments == old(disk.moments) + WriteMoments(old(disk.versions), old(length), b)
    {
      hide Overwrite, Truncated, PutU64, Steady, Survives;
      SteadyNonempty(Form(), disk.versions, data);
      WriteSurvives(Form(), disk.versions, data, b);
      WrittenLength(disk.content, length, b);
      disk.Truncate(length);
      disk.WriteAt(b, length);
      n := |b|;
      disk.Sync();
      length := length + n;
      disk.WriteAt(PutU64(length), 32);
      disk.Sync();
      data := data + b;
    }

    /** load: what a sound file holds, and the object is then fit for writing. */
    method Load() returns (r: Loaded)
      requires |header| == 16 && |version| == 16 && IsText(header) && IsText(version)
      requires disk.Valid() && disk.versions == [disk.content]
      modifies this, disk
      ensures r.Failed? <==> MetadataError(old(disk.content), header, version).Some?
      ensures r.Failed? ==> MetadataError(old(disk.content), header, version) == Some(r.error)
      ensures r.Reader? ==>
        var was := old(disk.content);
        length == EndOf(was) && r.bytes == Handed(was) && disk.content == LeftBehind(was)
      ensures Sound(Form(), old(disk.content)) && EndOf(old(disk.content)) <= MAX_INT64 ==>
        && r == Reader(Data(Form(), old(disk.content))) && Valid() && data == r.bytes
        && disk.versions == LoadVersions(Form(), old(disk.content))
    {
      hide LittleEndian, FromLittleEndian, Overwrite;
      var f := disk.content;
      if |f| < HEADER_LEN { return Failed(TooShort); }
      SplitSpecifiers(f, header, version);
      if !IsText(f[..16]) || !IsText(f[16..32]) { return Failed(NotText); }
      if f[..16] != header { return Failed(WrongHeader); }
      if f[16..32] != version { return Failed(WrongVersion); }
      length := EndOf(f);
      if Sound(Form(), f) && length <= MAX_INT64 {
        data := Data(Form(), f);
        DataHolds(Form(), f);
      }
      var goodBytes := (length - METADATA_PAGE_SIZE) % TWO_64;
      if goodBytes == 0 {
        EndBound(f);
        return Reader([]);
      }
      if length > MAX_INT64 { return Failed(BadLength); }
      disk.Truncate(length);
      var t := disk.content;
      r := Reader(if |t| <= METADATA_PAGE_SIZE then [] else t[METADATA_PAGE_SIZE..]);
      if Sound(Form(), f) {
        TruncateKeeps(Form(), f, data, length);
      }
    }
  }

  lemma SplitSpecifiers(f: Bytes, header: Bytes, version: Bytes)
    requires |f| >= HEADER_LEN && |header| == 16 && |version| == 16
    ensures f[..32] == header + version <==> f[..16] == header && f[16..32] == version
    ensures IsText(f[..32]) <==> IsText(f[..16]) && IsText(f[16..32])
  {
    assert f[..32] == f[..16] + f[16..32];
    assert (header + version)[..16] == header && (header + version)[16..] == version;
    if IsText(f[..32]) {
      forall i | 0 <= i < 16
        ensures f[16..32][i] < 128
      {
        assert f[16..32][i] == f[..32][16 + i];
      }
    }
  }

  lemma SteadyNonempty(l: Layout, versions: seq<Bytes>, data: Bytes)
    requires Steady(l, versions, data)
    ensures |versions| > 0
  {
  }

  lemma EndBound(file: Bytes)
    requires |file| >= HEADER_LEN
    ensures EndOf(file) < TWO_64
  {
    LittleEndianBound(file[32..HEADER_LEN]);
    PowEight();
  }

  /** What is unsynced after a load: a file with data is truncated. */
  function LoadVersions(l: Layout, file: Bytes): seq<Bytes>
    requires Sound(l, file)
  {
    if EndOf(file) == l.base then [file] else [file, Truncated(file, EndOf(file))]
  }

  // ----- runs with crashes -----

  /** A write that returned, or a crash that struck a write of b, k moments in (zero: before it
      began), left img on the disk, and was followed by a load. */
  datatype Event = Wrote(b: Bytes) | Crashed(b: Bytes, k: nat, img: Bytes)

  datatype State = State(versions: seq<Bytes>, data: Bytes)

  function Moments(l: Layout, s: State, b: Bytes): seq<seq<Bytes>>
    requires |s.versions| > 0
  {
    [s.versions] + WriteMoments(s.versions, l.base + |s.data|, b)
  }

  ghost predicate Possible(l: Layout, s: State, e: Event) {
    && |s.versions| > 0
    && l.base + |s.data| + |e.b| <= MAX_INT64
    && (e.Crashed? ==> e.k < |Moments(l, s, e.b)| && CrashImage(Moments(l, s, e.b)[e.k], e.img))
  }

  function After(l: Layout, s: State, e: Event): State
    requires |s.versions| > 0
  {
    match e
    case Wrote(b) => State(Moments(l, s, b)[5], s.data + b)
    case Crashed(b, k, img) => if Sound(l, img) then State(LoadVersions(l, img), Data(l, img)) else State([img], [])
  }

  ghost predicate PossibleRun(l: Layout, s: State, events: seq<Event>)
    decreases events
  {
    events == [] || (Possible(l, s, events[0]) && PossibleRun(l, After(l, s, events[0]), events[1..]))
  }

  function AfterRun(l: Layout, s: State, events: seq<Event>): State
    decreases events
  {
    if events == [] || |s.versions| == 0 then s else AfterRun(l, After(l, s, events[0]), events[1..])
  }

  /** Starting from data, got is data and then, in order, everything written by a write that
      returned, and all or nothing of each write that a crash struck. */
  predicate Explains(data: Bytes, events: seq<Event>, got: Bytes)
    decreases events
  {
    if events == [] then got == data
    else
      || Explains(data + events[0].b, events[1..], got)
      || (events[0].Crashed? && Explains(data, events[1..], got))
  }

  lemma LoadSteady(l: Layout, img: Bytes, data: Bytes)
    requires l.Valid() && l.Holds(img, data) && l.base + |data| < TWO_64
    ensures Sound(l, img) && Data(l, img) == data && Steady(l, LoadVersions(l, img), data)
  {
    hide Truncated, LittleEndian, FromLittleEndian;
    HoldsData(l, img, data);
    HeadedEnd(l, img, data);
    TruncateKeeps(l, img, data, l.base + |data|);
  }

  lemma StepDurable(l: Layout, s: State, e: Event)
    requires l.Valid() && Steady(l, s.versions, s.data) && Possible(l, s, e)
    ensures Steady(l, After(l, s, e).versions, After(l, s, e).data)
    ensures After(l, s, e).data == s.data + e.b || (e.Crashed? && After(l, s, e).data == s.data)
  {
    hide Steady, WriteMoments, LoadVersions, CrashImage, Sound, Layout.Holds;
    var ms := Moments(l, s, e.b);
    WriteSurvives(l, s.versions, s.data, e.b);
    SteadySurvives(l, s.versions, s.data, e.b);
    if e.Crashed? {
      assert Survives(l, ms[e.k], s.data, e.b);
      LoadSteady(l, e.img, if l.Holds(e.img, s.data) then s.data else s.data + e.b);
    }
  }

  /** Over any run of writes and crashes no acknowledged write is ever lost, and no write is
      ever seen in part. */
  lemma {:induction false} RunDurable(l: Layout, s: State, events: seq<Event>)
    requires l.Valid() && Steady(l, s.versions, s.data) && PossibleRun(l, s, events)
    ensures Steady(l, AfterRun(l, s, events).versions, AfterRun(l, s, events).data)
    ensures Explains(s.data, events, AfterRun(l, s, events).data)
    decreases events
  {
    hide Steady, WriteMoments, After, Possible;
    if events != [] {
      SteadyNonempty(l, s.versions, s.data);
      StepDurable(l, s, events[0]);
      RunDurable(l, After(l, s, events[0]), events[1..]);
    }
  }
}
