/** The byte-level building blocks of the Sia encoding: little-endian 8-byte integers and
    length-prefixed byte strings.  A parser takes the bytes that are left and gives back a
    value and the bytes after it, or fails.
 */
module Wire {
  type Byte = b: nat | b < 256
  type Bytes = seq<Byte>

  const TWO_64: nat := 0x1_0000_0000_0000_0000

  datatype Parsed<+T> = Fail | Ok(value: T, rest: Bytes) {
    predicate IsFailure() { Fail? }
    function PropagateFailure<U>(): Parsed<U>
      requires Fail?
    {
      Fail
    }
    function Extract(): (T, Bytes)
      requires Ok?
    {
      (value, rest)
    }
  }

  // ----- integers -----

  function Pow256(n: nat): (r: nat)
    ensures r > 0
  {
    if n == 0 then 1 else 256 * Pow256(n - 1)
  }

  /** x in n little-endian bytes. */
  function LittleEndian(x: nat, n: nat): (s: Bytes)
    ensures |s| == n
  {
    if n == 0 then [] else [x % 256] + LittleEndian(x / 256, n - 1)
  }

  function FromLittleEndian(s: Bytes): nat {
    if s == [] then 0 else s[0] + 256 * FromLittleEndian(s[1..])
  }

  lemma {:induction false} LittleEndianRoundTrip(x: nat, n: nat)
    requires x < Pow256(n)
    ensures FromLittleEndian(LittleEndian(x, n)) == x
  {
    if n > 0 {
      var s := LittleEndian(x, n);
      LittleEndianRoundTrip(x / 256, n - 1);
      assert s[1..] == LittleEndian(x / 256, n - 1);
    }
  }

  lemma {:induction false} LittleEndianUnique(s: Bytes)
    ensures LittleEndian(FromLittleEndian(s), |s|) == s
  {
    if s != [] {
      LittleEndianUnique(s[1..]);
      var x := FromLittleEndian(s);
      assert x % 256 == s[0] && x / 256 == FromLittleEndian(s[1..]);
    }
  }

  lemma {:induction false} LittleEndianBound(s: Bytes)
    ensures FromLittleEndian(s) < Pow256(|s|)
  {
    if s != [] {
      LittleEndianBound(s[1..]);
    }
  }

  lemma PowEight()
    ensures Pow256(8) == TWO_64
  {
    assert Pow256(4) == 0x1_0000_0000;
  }

  function PutU64(x: nat): (s: Bytes)
    ensures |s| == 8
  {
    LittleEndian(x, 8)
  }

  function GetU64(s: Bytes): Parsed<nat> {
    if |s| < 8 then Fail else Ok(FromLittleEndian(s[..8]), s[8..])
  }

  lemma U64RoundTrip(x: nat, rest: Bytes)
    requires x < TWO_64
    ensures GetU64(PutU64(x) + rest) == Ok(x, rest)
  {
    PowEight();
    LittleEndianRoundTrip(x, 8);
    assert (PutU64(x) + rest)[..8] == PutU64(x);
  }

  // ----- byte strings -----

  /** Exactly n bytes, as io.ReadFull reads them. */
  function GetFixed(s: Bytes, n: nat): (r: Parsed<Bytes>)
    ensures r.Ok? ==> |r.value| == n
  {
    if |s| < n then Fail else Ok(s[..n], s[n..])
  }

  lemma FixedRoundTrip(x: Bytes, rest: Bytes)
    ensures GetFixed(x + rest, |x|) == Ok(x, rest)
  {
    assert (x + rest)[..|x|] == x;
    assert (x + rest)[|x|..] == rest;
  }

  function PutPrefixed(x: Bytes): Bytes { PutU64(|x|) + x }

  function GetPrefixed(s: Bytes): Parsed<Bytes> {
    var (n, rest) :- GetU64(s);
    GetFixed(rest, n)
  }

  lemma PrefixedRoundTrip(x: Bytes, rest: Bytes)
    requires |x| < TWO_64
    ensures GetPrefixed(PutPrefixed(x) + rest) == Ok(x, rest)
  {
    assert PutPrefixed(x) + rest == PutU64(|x|) + (x + rest);
    U64RoundTrip(|x|, x + rest);
    FixedRoundTrip(x, rest);
  }

  function Concat(chunks: seq<Bytes>): Bytes {
    if chunks == [] then [] else chunks[0] + Concat(chunks[1..])
  }

  /** x stands at off in data. */
  predicate At(data: Bytes, off: nat, x: Bytes) { off + |x| <= |data| && data[off..off + |x|] == x }

  // ----- files -----

  function Zeros(n: nat): Bytes { seq(n, _ => 0) }

  /** A file after a write, byte by byte: the new bytes where they were written, the old ones elsewhere, and zeros in
      a gap between them. */
  lemma OverwriteAt(file: Bytes, off: nat, data: Bytes)
    ensures var f := Overwrite(file, off, data);
      && |f| == (if |file| < off + |data| then off + |data| else |file|)
      && forall i :: 0 <= i < |f| ==>
           f[i] == if off <= i < off + |data| then data[i - off] else if i < |file| then file[i] else 0
  {
  }

  /** Seek to off, then write. */
  function Overwrite(file: Bytes, off: nat, data: Bytes): Bytes {
    var f := if |file| < off then file + Zeros(off - |file|) else file;
    f[..off] + data + if off + |data| <= |f| then f[off + |data|..] else []
  }
}
