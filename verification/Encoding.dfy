/** How types.Currency is laid out: the magnitude of a big integer, kept in 64-bit words, written
    as its bytes without leading zeros, the most significant first. */
module CurrencyBytes {
  import opened Common
  import opened Wire

  /** The least significant byte first, without zeros at the far end. */
  function Digits(c: nat): Bytes {
    if c == 0 then [] else [c % 256] + Digits(c / 256)
  }

  predicate Canonical(d: Bytes) { d == [] || d[|d| - 1] != 0 }

  lemma {:induction false} DigitsValue(c: nat)
    ensures FromLittleEndian(Digits(c)) == c && Canonical(Digits(c))
  {
    if c != 0 {
      DigitsValue(c / 256);
      var d := Digits(c);
      assert d[1..] == Digits(c / 256);
      if c / 256 != 0 {
        assert d[|d| - 1] == d[1..][|d| - 2];
      }
    }
  }

  /** No other string of bytes without a zero at the far end has the same value. */
  lemma {:induction false} DigitsUnique(d: Bytes)
    requires Canonical(d)
    ensures Digits(FromLittleEndian(d)) == d
  {
    if d != [] {
      var x := FromLittleEndian(d);
      assert Canonical(d[1..]);
      DigitsUnique(d[1..]);
      assert x % 256 == d[0] && x / 256 == FromLittleEndian(d[1..]);
      if d[1..] == [] {
        assert d == [d[0]];
      } else {
        CanonicalPositive(d[1..]);
      }
    }
  }

  lemma {:induction false} CanonicalPositive(d: Bytes)
    requires Canonical(d) && d != []
    ensures FromLittleEndian(d) > 0
  {
    if |d| > 1 {
      CanonicalPositive(d[1..]);
    } else {
      assert d == [d[0]] && d[1..] == [];
    }
  }

  /** big.Int.Bits: the 64-bit words, least significant first, without a zero word at the end. */
  function Bits(c: nat): (w: seq<nat>)
    ensures forall i :: 0 <= i < |w| ==> w[i] < TWO_64
  {
    if c == 0 then [] else [c % TWO_64] + Bits(c / TWO_64)
  }

  /** The bytes of the words, in the order in which MarshalSia numbers them. */
  function WordBytes(w: seq<nat>): (s: Bytes)
    ensures |s| == 8 * |w|
  {
    if w == [] then [] else LittleEndian(w[0], 8) + WordBytes(w[1..])
  }

  lemma {:induction false} ConcatValue(a: Bytes, b: Bytes)
    ensures FromLittleEndian(a + b) == FromLittleEndian(a) + Pow256(|a|) * FromLittleEndian(b)
  {
    if a == [] {
      assert a + b == b;
    } else {
      assert (a + b)[1..] == a[1..] + b;
      ConcatValue(a[1..], b);
      Distribute(256, FromLittleEndian(a[1..]), Pow256(|a| - 1), FromLittleEndian(b));
    }
  }

  lemma Distribute(k: nat, x: nat, p: nat, y: nat)
    ensures k * (x + p * y) == k * x + (k * p) * y
  {
  }

  lemma {:induction false} WordBytesValue(c: nat)
    ensures FromLittleEndian(WordBytes(Bits(c))) == c
  {
    if c != 0 {
      hide LittleEndian, FromLittleEndian, WordBytes, Bits, Pow256;
      var low, rest := LittleEndian(c % TWO_64, 8), WordBytes(Bits(c / TWO_64));
      FirstWord(c);
      WordBytesValue(c / TWO_64);
      PowEight();
      LittleEndianRoundTrip(c % TWO_64, 8);
      ConcatValue(low, rest);
    }
  }

  lemma FirstWord(c: nat)
    requires c != 0
    ensures WordBytes(Bits(c)) == LittleEndian(c % TWO_64, 8) + WordBytes(Bits(c / TWO_64))
  {
    hide LittleEndian;
    var w := Bits(c);
    assert w[0] == c % TWO_64 && w[1..] == Bits(c / TWO_64);
  }

  /** Byte i is what the source's index and shift select. */
  lemma {:induction false} WordByteAt(w: seq<nat>, i: nat)
    requires i < 8 * |w| && forall k :: 0 <= k < |w| ==> w[k] < TWO_64
    ensures WordBytes(w)[i] == Shift(w[i / 8], i % 8) % 256
  {
    hide LittleEndian;
    if i < 8 {
      assert WordBytes(w)[i] == LittleEndian(w[0], 8)[i];
      LittleEndianAt(w[0], 8, i);
    } else {
      WordByteAt(w[1..], i - 8);
      assert WordBytes(w)[i] == WordBytes(w[1..])[i - 8];
    }
  }

  /** A right shift by k bytes. */
  function Shift(x: nat, k: nat): nat { if k == 0 then x else Shift(x / 256, k - 1) }

  lemma {:induction false} LittleEndianAt(x: nat, n: nat, k: nat)
    requires k < n
    ensures LittleEndian(x, n)[k] == Shift(x, k) % 256
  {
    if k > 0 {
      LittleEndianAt(x / 256, n - 1, k - 1);
    }
  }

  lemma {:induction false} ShiftOnce(x: nat, k: nat)
    ensures Shift(x, k + 1) == Shift(x, k) / 256
  {
    if k > 0 {
      ShiftOnce(x / 256, k - 1);
    }
  }

  lemma {:induction false} ShiftOut(x: nat, k: nat)
    requires x < Pow256(k)
    ensures Shift(x, k) == 0
  {
    if k > 0 {
      ShiftOut(x / 256, k - 1);
    }
  }

  lemma ShiftZero(w: seq<nat>, q: nat, j: nat)
    requires q < |w| && j <= 8 && forall k :: 0 <= k < |w| ==> w[k] < TWO_64
    requires forall k :: 8 * q + j <= k < 8 * q + 8 ==> WordBytes(w)[k] == 0
    ensures Shift(w[q], j) == 0
    decreases 8 - j
  {
    hide Shift, WordBytes;
    if j == 8 {
      PowEight();
      ShiftOut(w[q], 8);
    } else {
      ShiftZero(w, q, j + 1);
      ShiftOnce(w[q], j);
      WordByteAt(w, 8 * q + j);
    }
  }

  /** While every byte above j of a word is zero, the shifted word is byte j. */
  lemma TopByte(w: seq<nat>, q: nat, j: nat)
    requires q < |w| && j < 8 && forall k :: 0 <= k < |w| ==> w[k] < TWO_64
    requires forall k :: 8 * q + j < k < 8 * q + 8 ==> WordBytes(w)[k] == 0
    ensures Shift(w[q], j) == WordBytes(w)[8 * q + j]
  {
    hide Shift, WordBytes;
    ShiftZero(w, q, j + 1);
    ShiftOnce(w[q], j);
    WordByteAt(w, 8 * q + j);
  }

  /** s without the zeros at its end. */
  lemma {:induction false} TrimValue(s: Bytes, m: nat)
    requires m <= |s| && forall k :: m <= k < |s| ==> s[k] == 0
    ensures FromLittleEndian(s[..m]) == FromLittleEndian(s)
    decreases |s|
  {
    if m == 0 {
      if s != [] {
        TrimValue(s[1..], 0);
        assert s[1..][..0] == [] == s[..0];
      }
    } else {
      TrimValue(s[1..], m - 1);
      assert s[..m][1..] == s[1..][..m - 1];
    }
  }

  /** The minimal bytes of the value are the word bytes up to the last one that is not zero. */
  lemma TrimmedIsDigits(c: nat, m: nat)
    requires m <= 8 * |Bits(c)| && forall k :: m <= k < 8 * |Bits(c)| ==> WordBytes(Bits(c))[k] == 0
    requires m == 0 || WordBytes(Bits(c))[m - 1] != 0
    ensures WordBytes(Bits(c))[..m] == Digits(c)
  {
    var s := WordBytes(Bits(c));
    TrimValue(s, m);
    WordBytesValue(c);
    DigitsUnique(s[..m]);
  }

  function PutCurrency(c: nat): Bytes { PutPrefixed(Reversed(Digits(c))) }

  /** UnmarshalSia, with big.Int.SetBytes. */
  function GetCurrency(s: Bytes): Parsed<nat> {
    var (b, rest) :- GetPrefixed(s);
    Ok(FromLittleEndian(Reversed(b)), rest)
  }

  lemma CurrencyRoundTrip(c: nat, rest: Bytes)
    requires |Digits(c)| < TWO_64
    ensures GetCurrency(PutCurrency(c) + rest) == Ok(c, rest)
  {
    PrefixedRoundTrip(Reversed(Digits(c)), rest);
    ReversedTwice(Digits(c));
    DigitsValue(c);
  }

  /** The decoder takes any bytes, but only those without a leading zero are ever encoded. */
  lemma CurrencyReencodes(b: Bytes, rest: Bytes)
    requires |b| < TWO_64
    ensures var r := GetCurrency(PutPrefixed(b) + rest);
      && r.Ok? && r.rest == rest
      && (PutCurrency(r.value) == PutPrefixed(b) <==> (b == [] || b[0] != 0))
  {
    PrefixedRoundTrip(b, rest);
    ReversedTwice(b);
    var d := Reversed(b);
    var c := FromLittleEndian(d);
    DigitsValue(c);
    if Canonical(d) {
      DigitsUnique(d);
    } else if PutCurrency(c) == PutPrefixed(b) {
      hide PutU64;
      assert |Digits(c)| == |b|;
      assert PutPrefixed(b)[8..] == b && PutCurrency(c)[8..] == Reversed(Digits(c));
      ReversedTwice(Digits(c));
    }
  }

  /** A decoded value never needs more bytes than it was decoded from. */
  lemma DigitsShorter(b: Bytes)
    ensures |Digits(FromLittleEndian(Reversed(b)))| <= |b|
  {
    DigitsBound(Reversed(b));
  }

  lemma {:induction false} DigitsBound(d: Bytes)
    ensures |Digits(FromLittleEndian(d))| <= |d|
  {
    if d != [] {
      DigitsBound(d[1..]);
      assert FromLittleEndian(d) / 256 == FromLittleEndian(d[1..]);
    }
  }

  /** Currency.MarshalSia: find the highest byte that is not zero, then write down from there. */
  method MarshalSia(c: nat) returns (out: Bytes)
    ensures out == PutCurrency(c)
  {
    hide Digits, WordBytes, Shift, PutU64, Bits;
    var bits := Bits(c);
    ghost var s := WordBytes(bits);
    var i := |bits| * 8 - 1;
    while i >= 0
      invariant -1 <= i < |s|
      invariant forall k :: i < k < |s| ==> s[k] == 0
    {
      TopByte(bits, i / 8, i % 8);
      if Shift(bits[i / 8], i % 8) != 0 {
        break;
      }
      i := i - 1;
    }
    TrimmedIsDigits(c, i + 1);
    ghost var d := Digits(c);
    assert d == s[..i + 1];
    out := PutU64(i + 1);
    while i >= 0
      invariant -1 <= i < |d|
      invariant out == PutU64(|d|) + Reversed(d)[..|d| - 1 - i]
    {
      WordByteAt(bits, i);
      out := out + [Shift(bits[i / 8], i % 8) % 256];
      i := i - 1;
    }
  }

  /** Currency.MarshalSiaSize: start from all bytes of all words and take the zero ones off. */
  method MarshalSiaSize(c: nat) returns (size: nat)
    ensures size == |PutCurrency(c)|
  {
    hide Digits, WordBytes, Shift, PutU64, Bits;
    var bits := Bits(c);
    ghost var s := WordBytes(bits);
    size := |bits| * 8;
    var i := |bits| - 1;
    label zeros:
    while i >= 0
      invariant -1 <= i < |bits| && size == 8 * (i + 1)
      invariant forall k :: size <= k < |s| ==> s[k] == 0
    {
      var j := 7;
      while j >= 0
        invariant -1 <= j <= 7 && size == 8 * i + j + 1
        invariant forall k :: size <= k < |s| ==> s[k] == 0
      {
        TopByte(bits, i, j);
        if Shift(bits[i], j) != 0 {
          assert s[size - 1] != 0;
          break zeros;
        }
        size := size - 1;
        j := j - 1;
      }
      i := i - 1;
    }
    TrimmedIsDigits(c, size);
    size := 8 + size;
  }
}

/** types/encoding.go: the consensus encoding of transactions and blocks. */
module Encoding {
  import opened Common
  import opened Wire
  import CurrencyBytes

  const TWO_63 := 0x8000_0000_0000_0000

  type U64 = x: nat | x < TWO_64
  /** Lengths are signed 64-bit integers. */
  type Slice<T> = s: seq<T> | |s| < TWO_63 witness []
  type Blob = Slice<Byte>
  type Specifier = s: Bytes | |s| == 16 witness Zeros(16)
  type Hash = s: Bytes | |s| == 32 witness Zeros(32)
  type Segment = s: Bytes | |s| == 64 witness Zeros(64)
  type Nonce = s: Bytes | |s| == 8 witness Zeros(8)
  type Currency = c: nat | |CurrencyBytes.Digits(c)| < TWO_63 witness 0

  datatype SiaPublicKey = SiaPublicKey(algorithm: Specifier, key: Blob)
  datatype UnlockConditions =
    UnlockConditions(timelock: U64, publicKeys: Slice<SiaPublicKey>, signaturesRequired: U64)
  datatype SiacoinInput = SiacoinInput(parentID: Hash, unlockConditions: UnlockConditions)
  datatype SiacoinOutput = SiacoinOutput(value: Currency, unlockHash: Hash)
  datatype SiafundInput =
    SiafundInput(parentID: Hash, unlockConditions: UnlockConditions, claimUnlockHash: Hash)
  datatype SiafundOutput = SiafundOutput(value: Currency, unlockHash: Hash, claimStart: Currency)
  datatype FileContract =
    FileContract(fileSize: U64, fileMerkleRoot: Hash, windowStart: U64, windowEnd: U64, payout: Currency,
                 validProofOutputs: Slice<SiacoinOutput>, missedProofOutputs: Slice<SiacoinOutput>,
                 unlockHash: Hash, revisionNumber: U64)
  datatype FileContractRevision =
    FileContractRevision(parentID: Hash, unlockConditions: UnlockConditions, newRevisionNumber: U64,
                         newFileSize: U64, newFileMerkleRoot: Hash, newWindowStart: U64, newWindowEnd: U64,
                         newValidProofOutputs: Slice<SiacoinOutput>, newMissedProofOutputs: Slice<SiacoinOutput>,
                         newUnlockHash: Hash)
  datatype StorageProof = StorageProof(parentID: Hash, segment: Segment, hashSet: Slice<Hash>)
  datatype CoveredFields =
    CoveredFields(wholeTransaction: bool, siacoinInputs: Slice<U64>, siacoinOutputs: Slice<U64>,
                  fileContracts: Slice<U64>, fileContractRevisions: Slice<U64>, storageProofs: Slice<U64>,
                  siafundInputs: Slice<U64>, siafundOutputs: Slice<U64>, minerFees: Slice<U64>,
                  arbitraryData: Slice<U64>, transactionSignatures: Slice<U64>)
  datatype TransactionSignature =
    TransactionSignature(parentID: Hash, publicKeyIndex: U64, timelock: U64, coveredFields: CoveredFields,
                         signature: Blob)
  datatype Transaction =
    Transaction(siacoinInputs: Slice<SiacoinInput>, siacoinOutputs: Slice<SiacoinOutput>,
                fileContracts: Slice<FileContract>, fileContractRevisions: Slice<FileContractRevision>,
                storageProofs: Slice<StorageProof>, siafundInputs: Slice<SiafundInput>,
                siafundOutputs: Slice<SiafundOutput>, minerFees: Slice<Currency>, arbitraryData: Slice<Blob>,
                transactionSignatures: Slice<TransactionSignature>)
  datatype Block =
    Block(parentID: Hash, nonce: Nonce, timestamp: U64, minerPayouts: Slice<SiacoinOutput>,
          transactions: Slice<Transaction>)

  // ----- lists -----

  function PutEach<T>(xs: seq<T>, put: T -> Bytes): Bytes {
    if xs == [] then [] else put(xs[0]) + PutEach(xs[1..], put)
  }

  function PutList<T>(xs: seq<T>, put: T -> Bytes): Bytes { PutU64(|xs|) + PutEach(xs, put) }

  function GetEach<T>(s: Bytes, n: nat, get: Bytes -> Parsed<T>): (r: Parsed<seq<T>>)
    ensures r.Ok? ==> |r.value| == n
    decreases n
  {
    if n == 0 then Ok([], s)
    else
      var (x, rest) :- get(s);
      var (xs, rest') :- GetEach(rest, n - 1, get);
      Ok([x] + xs, rest')
  }

  /** A length that no slice can have is refused. */
  function GetList<T>(s: Bytes, get: Bytes -> Parsed<T>): Parsed<Slice<T>> {
    var (n, rest) :- GetU64(s);
    if n >= TWO_63 then Fail else GetEach(rest, n, get)
  }

  function Total<T>(xs: seq<T>, size: T -> nat): nat {
    if xs == [] then 0 else size(xs[0]) + Total(xs[1..], size)
  }

  /** get undoes put on the elements of xs whatever follows, and size counts put's bytes. */
  ghost predicate Codec<T>(xs: seq<T>, put: T -> Bytes, get: Bytes -> Parsed<T>, size: T -> nat) {
    && (forall x, rest: Bytes :: x in xs ==> get(put(x) + rest) == Ok(x, rest))
    && (forall x :: x in xs ==> |put(x)| == size(x))
  }

  lemma {:induction false} EachCodec<T>(xs: seq<T>, put: T -> Bytes, get: Bytes -> Parsed<T>, size: T -> nat,
    rest: Bytes)
    requires Codec(xs, put, get, size)
    ensures GetEach(PutEach(xs, put) + rest, |xs|, get) == Ok(xs, rest)
    ensures |PutEach(xs, put)| == Total(xs, size)
  {
    if xs == [] {
      assert PutEach(xs, put) + rest == rest;
    } else {
      var tail := PutEach(xs[1..], put);
      EachCodec(xs[1..], put, get, size, rest);
      assert PutEach(xs, put) + rest == put(xs[0]) + (tail + rest);
      assert get(put(xs[0]) + (tail + rest)) == Ok(xs[0], tail + rest);
      assert |put(xs[0])| == size(xs[0]);
      assert [xs[0]] + xs[1..] == xs;
    }
  }

  lemma ListCodec<T>(xs: Slice<T>, put: T -> Bytes, get: Bytes -> Parsed<T>, size: T -> nat, rest: Bytes)
    requires Codec(xs, put, get, size)
    ensures GetList(PutList(xs, put) + rest, get) == Ok(xs, rest)
    ensures |PutList(xs, put)| == 8 + Total(xs, size)
  {
    hide PutEach, GetEach, Total, PutU64, GetU64, Codec;
    assert PutList(xs, put) + rest == PutU64(|xs|) + (PutEach(xs, put) + rest);
    U64RoundTrip(|xs|, PutEach(xs, put) + rest);
    EachCodec(xs, put, get, size, rest);
  }

  // ----- leaves -----

  function PutHash(h: Hash): Bytes { h }
  function GetHash(s: Bytes): Parsed<Hash> { GetFixed(s, 32) }

  function PutWord(x: U64): Bytes { PutU64(x) }
  function GetWord(s: Bytes): Parsed<U64> {
    var (x, rest) :- GetU64(s);
    if x < TWO_64 then Ok(x, rest) else Fail
  }

  function PutBlob(b: Blob): Bytes { PutPrefixed(b) }
  function GetBlob(s: Bytes): Parsed<Blob> {
    var (n, rest) :- GetU64(s);
    if n >= TWO_63 then Fail else GetFixed(rest, n)
  }
  function SizeBlob(b: Blob): nat { 8 + |b| }

  lemma WordCodec(x: U64, rest: Bytes)
    ensures GetWord(PutWord(x) + rest) == Ok(x, rest) && |PutWord(x)| == 8
  {
    U64RoundTrip(x, rest);
  }

  lemma HashCodec(h: Hash, rest: Bytes)
    ensures GetHash(PutHash(h) + rest) == Ok(h, rest)
  {
    FixedRoundTrip(h, rest);
  }

  lemma BlobCodec(b: Blob, rest: Bytes)
    ensures GetBlob(PutBlob(b) + rest) == Ok(b, rest) && |PutBlob(b)| == SizeBlob(b)
  {
    assert PutBlob(b) + rest == PutU64(|b|) + (b + rest);
    U64RoundTrip(|b|, b + rest);
    FixedRoundTrip(b, rest);
  }

  function PutCurrency(c: Currency): Bytes { CurrencyBytes.PutCurrency(c) }
  function GetCurrency(s: Bytes): Parsed<Currency> {
    var (b, rest) :- GetBlob(s);
    CurrencyBytes.DigitsShorter(b);
    Ok(FromLittleEndian(Reversed(b)), rest)
  }
  function SizeCurrency(c: Currency): nat { 8 + |CurrencyBytes.Digits(c)| }

  lemma CurrencyCodec(c: Currency, rest: Bytes)
    ensures GetCurrency(PutCurrency(c) + rest) == Ok(c, rest) && |PutCurrency(c)| == SizeCurrency(c)
  {
    var d := CurrencyBytes.Digits(c);
    BlobCodec(Reversed(d), rest);
    ReversedTwice(d);
    CurrencyBytes.DigitsValue(c);
  }

  // ----- structures -----

  lemma Regroup(p: Bytes, x: Bytes, s: Bytes)
    ensures (p + x) + s == p + (x + s)
  {
  }

  function PutKey(k: SiaPublicKey): Bytes { k.algorithm + PutBlob(k.key) }
  function GetKey(s: Bytes): Parsed<SiaPublicKey> {
    var (a, s) :- GetFixed(s, 16);
    var (k, s) :- GetBlob(s);
    Ok(SiaPublicKey(a, k), s)
  }
  function SizeKey(k: SiaPublicKey): nat { 16 + SizeBlob(k.key) }

  lemma KeyCodec(k: SiaPublicKey, rest: Bytes)
    ensures GetKey(PutKey(k) + rest) == Ok(k, rest) && |PutKey(k)| == SizeKey(k)
  {
    hide PutBlob, GetBlob, GetFixed;
    assert PutKey(k) + rest == k.algorithm + (PutBlob(k.key) + rest);
    FixedRoundTrip(k.algorithm, PutBlob(k.key) + rest);
    BlobCodec(k.key, rest);
  }

  lemma KeysCodec(ks: seq<SiaPublicKey>)
    ensures Codec(ks, PutKey, GetKey, SizeKey)
  {
    var put, get, size := PutKey, GetKey, SizeKey;
    forall x, r: Bytes | x in ks
      ensures get(put(x) + r) == Ok(x, r)
    {
      KeyCodec(x, r);
    }
    forall x | x in ks
      ensures |put(x)| == size(x)
    {
      KeyCodec(x, []);
    }
  }

  function PutConditions(uc: UnlockConditions): Bytes {
    PutWord(uc.timelock) + PutList(uc.publicKeys, PutKey) + PutWord(uc.signaturesRequired)
  }
  function GetConditions(s: Bytes): Parsed<UnlockConditions> {
    var (t, s) :- GetWord(s);
    var (keys, s) :- GetList(s, GetKey);
    var (n, s) :- GetWord(s);
    Ok(UnlockConditions(t, keys, n), s)
  }
  function SizeConditions(uc: UnlockConditions): nat {
    8 + 8 + Total(uc.publicKeys, SizeKey) + 8
  }

  lemma ConditionsCodec(uc: UnlockConditions, rest: Bytes)
    ensures GetConditions(PutConditions(uc) + rest) == Ok(uc, rest) && |PutConditions(uc)| == SizeConditions(uc)
  {
    hide PutWord, GetWord, PutList, GetList, Total, PutKey, GetKey, SizeKey;
    var a, b, c := PutWord(uc.timelock), PutList(uc.publicKeys, PutKey), PutWord(uc.signaturesRequired);
    assert PutConditions(uc) + rest == a + (b + (c + rest));
    WordCodec(uc.timelock, b + (c + rest));
    KeysCodec(uc.publicKeys);
    ListCodec(uc.publicKeys, PutKey, GetKey, SizeKey, c + rest);
    WordCodec(uc.signaturesRequired, rest);
  }

  function PutInput(sci: SiacoinInput): Bytes {
    sci.parentID + PutConditions(sci.unlockConditions)
  }
  function GetInput(s: Bytes): Parsed<SiacoinInput> {
    var (a, s) :- GetFixed(s, 32);
    var (b, s) :- GetConditions(s);
    Ok(SiacoinInput(a, b), s)
  }
  function SizeInput(sci: SiacoinInput): nat {
    32 + SizeConditions(sci.unlockConditions)
  }

  lemma InputCodec(sci: SiacoinInput, rest: Bytes)
    ensures GetInput(PutInput(sci) + rest) == Ok(sci, rest) && |PutInput(sci)| == SizeInput(sci)
  {
    hide GetConditions, GetFixed, PutConditions, SizeConditions;
    var a, b :=
      sci.parentID, PutConditions(sci.unlockConditions);
    var s1 := b + rest;
    assert PutInput(sci) + rest == a + s1;
    FixedRoundTrip(sci.parentID, s1);
    ConditionsCodec(sci.unlockConditions, rest);
  }

  lemma InputsCodec(xs: seq<SiacoinInput>)
    ensures Codec(xs, PutInput, GetInput, SizeInput)
  {
    var put, get, size := PutInput, GetInput, SizeInput;
    forall x, r: Bytes | x in xs
      ensures get(put(x) + r) == Ok(x, r)
    {
      InputCodec(x, r);
    }
    forall x | x in xs
      ensures |put(x)| == size(x)
    {
      InputCodec(x, []);
    }
  }

  function PutOutput(sco: SiacoinOutput): Bytes {
    PutCurrency(sco.value) + sco.unlockHash
  }
  function GetOutput(s: Bytes): Parsed<SiacoinOutput> {
    var (a, s) :- GetCurrency(s);
    var (b, s) :- GetFixed(s, 32);
    Ok(SiacoinOutput(a, b), s)
  }
  function SizeOutput(sco: SiacoinOutput): nat {
    SizeCurrency(sco.value) + 32
  }

  lemma OutputCodec(sco: SiacoinOutput, rest: Bytes)
    ensures GetOutput(PutOutput(sco) + rest) == Ok(sco, rest) && |PutOutput(sco)| == SizeOutput(sco)
  {
    hide GetCurrency, GetFixed, PutCurrency, SizeCurrency;
    var a, b :=
      PutCurrency(sco.value), sco.unlockHash;
    var s1 := b + rest;
    assert PutOutput(sco) + rest == a + s1;
    CurrencyCodec(sco.value, s1);
    FixedRoundTrip(sco.unlockHash, rest);
  }

  lemma OutputsCodec(xs: seq<SiacoinOutput>)
    ensures Codec(xs, PutOutput, GetOutput, SizeOutput)
  {
    var put, get, size := PutOutput, GetOutput, SizeOutput;
    forall x, r: Bytes | x in xs
      ensures get(put(x) + r) == Ok(x, r)
    {
      OutputCodec(x, r);
    }
    forall x | x in xs
      ensures |put(x)| == size(x)
    {
      OutputCodec(x, []);
    }
  }

  function PutFundInput(sfi: SiafundInput): Bytes {
    sfi.parentID + PutConditions(sfi.unlockConditions) + sfi.claimUnlockHash
  }
  function GetFundInput(s: Bytes): Parsed<SiafundInput> {
    var (a, s) :- GetFixed(s, 32);
    var (b, s) :- GetConditions(s);
    var (c, s) :- GetFixed(s, 32);
    Ok(SiafundInput(a, b, c), s)
  }
  function SizeFundInput(sfi: SiafundInput): nat {
    32 + SizeConditions(sfi.unlockConditions) + 32
  }

  lemma FundInputCodec(sfi: SiafundInput, rest: Bytes)
    ensures GetFundInput(PutFundInput(sfi) + rest) == Ok(sfi, rest) && |PutFundInput(sfi)| == SizeFundInput(sfi)
  {
    hide GetConditions, GetFixed, PutConditions, SizeConditions;
    var a, b, c :=
      sfi.parentID, PutConditions(sfi.unlockConditions), sfi.claimUnlockHash;
    var s2 := c + rest;
    var s1 := b + s2;
    assert PutFundInput(sfi) + rest == a + s1;
    FixedRoundTrip(sfi.parentID, s1);
    ConditionsCodec(sfi.unlockConditions, s2);
    FixedRoundTrip(sfi.claimUnlockHash, rest);
  }

  lemma FundInputsCodec(xs: seq<SiafundInput>)
    ensures Codec(xs, PutFundInput, GetFundInput, SizeFundInput)
  {
    var put, get, size := PutFundInput, GetFundInput, SizeFundInput;
    forall x, r: Bytes | x in xs
      ensures get(put(x) + r) == Ok(x, r)
    {
      FundInputCodec(x, r);
    }
    forall x | x in xs
      ensures |put(x)| == size(x)
    {
      FundInputCodec(x, []);
    }
  }

  function PutFundOutput(sfo: SiafundOutput): Bytes {
    PutCurrency(sfo.value) + sfo.unlockHash + PutCurrency(sfo.claimStart)
  }
  function GetFundOutput(s: Bytes): Parsed<SiafundOutput> {
    var (a, s) :- GetCurrency(s);
    var (b, s) :- GetFixed(s, 32);
    var (c, s) :- GetCurrency(s);
    Ok(SiafundOutput(a, b, c), s)
  }
  function SizeFundOutput(sfo: SiafundOutput): nat {
    SizeCurrency(sfo.value) + 32 + SizeCurrency(sfo.claimStart)
  }

  lemma FundOutputCodec(sfo: SiafundOutput, rest: Bytes)
    ensures GetFundOutput(PutFundOutput(sfo) + rest) == Ok(sfo, rest) && |PutFundOutput(sfo)| == SizeFundOutput(sfo)
  {
    hide GetCurrency, GetFixed, PutCurrency, SizeCurrency;
    var a, b, c :=
      PutCurrency(sfo.value), sfo.unlockHash, PutCurrency(sfo.claimStart);
    var s2 := c + rest;
    var s1 := b + s2;
    assert PutFundOutput(sfo) + rest == a + s1;
    CurrencyCodec(sfo.value, s1);
    FixedRoundTrip(sfo.unlockHash, s2);
    CurrencyCodec(sfo.claimStart, rest);
  }

  lemma FundOutputsCodec(xs: seq<SiafundOutput>)
    ensures Codec(xs, PutFundOutput, GetFundOutput, SizeFundOutput)
  {
    var put, get, size := PutFundOutput, GetFundOutput, SizeFundOutput;
    forall x, r: Bytes | x in xs
      ensures get(put(x) + r) == Ok(x, r)
    {
      FundOutputCodec(x, r);
    }
    forall x | x in xs
      ensures |put(x)| == size(x)
    {
      FundOutputCodec(x, []);
    }
  }

  function PutContract(fc: FileContract): Bytes {
    PutWord(fc.fileSize) + fc.fileMerkleRoot + PutWord(fc.windowStart) + PutWord(fc.windowEnd) +
    PutCurrency(fc.payout) + PutList(fc.validProofOutputs, PutOutput) +
    PutList(fc.missedProofOutputs, PutOutput) + fc.unlockHash + PutWord(fc.revisionNumber)
  }
  function GetContract(s: Bytes): Parsed<FileContract> {
    var (a, s) :- GetWord(s);
    var (b, s) :- GetFixed(s, 32);
    var (c, s) :- GetWord(s);
    var (d, s) :- GetWord(s);
    var (e, s) :- GetCurrency(s);
    var (f, s) :- GetList(s, GetOutput);
    var (g, s) :- GetList(s, GetOutput);
    var (h, s) :- GetFixed(s, 32);
    var (i, s) :- GetWord(s);
    Ok(FileContract(a, b, c, d, e, f, g, h, i), s)
  }
  function SizeContract(fc: FileContract): nat {
    8 + 32 + 8 + 8 + SizeCurrency(fc.payout) + 8 + Total(fc.validProofOutputs, SizeOutput) +
    8 + Total(fc.missedProofOutputs, SizeOutput) + 32 + 8
  }

  lemma ContractCodec(fc: FileContract, rest: Bytes)
    ensures GetContract(PutContract(fc) + rest) == Ok(fc, rest) && |PutContract(fc)| == SizeContract(fc)
  {
    hide GetCurrency, GetFixed, GetList, GetOutput, GetWord, PutCurrency, PutList, PutOutput, PutWord, SizeCurrency,
      SizeOutput, Total;
    var a, b, c, d, e, f, g, h, i :=
      PutWord(fc.fileSize), fc.fileMerkleRoot, PutWord(fc.windowStart), PutWord(fc.windowEnd),
      PutCurrency(fc.payout), PutList(fc.validProofOutputs, PutOutput),
      PutList(fc.missedProofOutputs, PutOutput), fc.unlockHash, PutWord(fc.revisionNumber);
    var s8 := i + rest;
    var s7 := h + s8;
    var s6 := g + s7;
    var s5 := f + s6;
    var s4 := e + s5;
    var s3 := d + s4;
    var s2 := c + s3;
    var s1 := b + s2;
    var p1 := a + b;
    var p2 := p1 + c;
    var p3 := p2 + d;
    var p4 := p3 + e;
    var p5 := p4 + f;
    var p6 := p5 + g;
    var p7 := p6 + h;
    Regroup(p7, i, rest);
    Regroup(p6, h, s8);
    Regroup(p5, g, s7);
    Regroup(p4, f, s6);
    Regroup(p3, e, s5);
    Regroup(p2, d, s4);
    Regroup(p1, c, s3);
    Regroup(a, b, s2);
    WordCodec(fc.fileSize, s1);
    FixedRoundTrip(fc.fileMerkleRoot, s2);
    WordCodec(fc.windowStart, s3);
    WordCodec(fc.windowEnd, s4);
    CurrencyCodec(fc.payout, s5);
    OutputsCodec(fc.validProofOutputs);
    ListCodec(fc.validProofOutputs, PutOutput, GetOutput, SizeOutput, s6);
    OutputsCodec(fc.missedProofOutputs);
    ListCodec(fc.missedProofOutputs, PutOutput, GetOutput, SizeOutput, s7);
    FixedRoundTrip(fc.unlockHash, s8);
    WordCodec(fc.revisionNumber, rest);
  }

  lemma ContractsCodec(xs: seq<FileContract>)
    ensures Codec(xs, PutContract, GetContract, SizeContract)
  {
    var put, get, size := PutContract, GetContract, SizeContract;
    forall x, r: Bytes | x in xs
      ensures get(put(x) + r) == Ok(x, r)
    {
      ContractCodec(x, r);
    }
    forall x | x in xs
      ensures |put(x)| == size(x)
    {
      ContractCodec(x, []);
    }
  }

  function PutRevision(fcr: FileContractRevision): Bytes {
    fcr.parentID + PutConditions(fcr.unlockConditions) + PutWord(fcr.newRevisionNumber) +
    PutWord(fcr.newFileSize) + fcr.newFileMerkleRoot + PutWord(fcr.newWindowStart) + PutWord(fcr.newWindowEnd) +
    PutList(fcr.newValidProofOutputs, PutOutput) + PutList(fcr.newMissedProofOutputs, PutOutput) +
    fcr.newUnlockHash
  }
  function GetRevision(s: Bytes): Parsed<FileContractRevision> {
    var (a, s) :- GetFixed(s, 32);
    var (b, s) :- GetConditions(s);
    var (c, s) :- GetWord(s);
    var (d, s) :- GetWord(s);
    var (e, s) :- GetFixed(s, 32);
    var (f, s) :- GetWord(s);
    var (g, s) :- GetWord(s);
    var (h, s) :- GetList(s, GetOutput);
    var (i, s) :- GetList(s, GetOutput);
    var (j, s) :- GetFixed(s, 32);
    Ok(FileContractRevision(a, b, c, d, e, f, g, h, i, j), s)
  }
  function SizeRevision(fcr: FileContractRevision): nat {
    32 + SizeConditions(fcr.unlockConditions) + 8 + 8 + 32 + 8 + 8 +
    8 + Total(fcr.newValidProofOutputs, SizeOutput) + 8 + Total(fcr.newMissedProofOutputs, SizeOutput) + 32
  }

  lemma RevisionCodec(fcr: FileContractRevision, rest: Bytes)
    ensures GetRevision(PutRevision(fcr) + rest) == Ok(fcr, rest) && |PutRevision(fcr)| == SizeRevision(fcr)
  {
    hide GetConditions, GetFixed, GetList, GetOutput, GetWord, PutConditions, PutList, PutOutput, PutWord,
      SizeConditions, SizeOutput, Total;
    var a, b, c, d, e, f, g, h, i, j :=
      fcr.parentID, PutConditions(fcr.unlockConditions), PutWord(fcr.newRevisionNumber),
      PutWord(fcr.newFileSize), fcr.newFileMerkleRoot, PutWord(fcr.newWindowStart), PutWord(fcr.newWindowEnd),
      PutList(fcr.newValidProofOutputs, PutOutput), PutList(fcr.newMissedProofOutputs, PutOutput),
      fcr.newUnlockHash;
    var s9 := j + rest;
    var s8 := i + s9;
    var s7 := h + s8;
    var s6 := g + s7;
    var s5 := f + s6;
    var s4 := e + s5;
    var s3 := d + s4;
    var s2 := c + s3;
    var s1 := b + s2;
    var p1 := a + b;
    var p2 := p1 + c;
    var p3 := p2 + d;
    var p4 := p3 + e;
    var p5 := p4 + f;
    var p6 := p5 + g;
    var p7 := p6 + h;
    var p8 := p7 + i;
    Regroup(p8, j, rest);
    Regroup(p7, i, s9);
    Regroup(p6, h, s8);
    Regroup(p5, g, s7);
    Regroup(p4, f, s6);
    Regroup(p3, e, s5);
    Regroup(p2, d, s4);
    Regroup(p1, c, s3);
    Regroup(a, b, s2);
    FixedRoundTrip(fcr.parentID, s1);
    ConditionsCodec(fcr.unlockConditions, s2);
    WordCodec(fcr.newRevisionNumber, s3);
    WordCodec(fcr.newFileSize, s4);
    FixedRoundTrip(fcr.newFileMerkleRoot, s5);
    WordCodec(fcr.newWindowStart, s6);
    WordCodec(fcr.newWindowEnd, s7);
    OutputsCodec(fcr.newValidProofOutputs);
    ListCodec(fcr.newValidProofOutputs, PutOutput, GetOutput, SizeOutput, s8);
    OutputsCodec(fcr.newMissedProofOutputs);
    ListCodec(fcr.newMissedProofOutputs, PutOutput, GetOutput, SizeOutput, s9);
    FixedRoundTrip(fcr.newUnlockHash, rest);
  }

  lemma RevisionsCodec(xs: seq<FileContractRevision>)
    ensures Codec(xs, PutRevision, GetRevision, SizeRevision)
  {
    var put, get, size := PutRevision, GetRevision, SizeRevision;
    forall x, r: Bytes | x in xs
      ensures get(put(x) + r) == Ok(x, r)
    {
      RevisionCodec(x, r);
    }
    forall x | x in xs
      ensures |put(x)| == size(x)
    {
      RevisionCodec(x, []);
    }
  }

  function SizeHash(h: Hash): nat { 32 }

  lemma HashesCodec(xs: seq<Hash>)
    ensures Codec(xs, PutHash, GetHash, SizeHash)
  {
    var put, get, size := PutHash, GetHash, SizeHash;
    forall x, r: Bytes | x in xs
      ensures get(put(x) + r) == Ok(x, r)
    {
      HashCodec(x, r);
    }
    forall x | x in xs
      ensures |put(x)| == size(x)
    {
      HashCodec(x, []);
    }
  }

  function PutProof(sp: StorageProof): Bytes {
    sp.parentID + sp.segment + PutList(sp.hashSet, PutHash)
  }
  function GetProof(s: Bytes): Parsed<StorageProof> {
    var (a, s) :- GetFixed(s, 32);
    var (b, s) :- GetFixed(s, 64);
    var (c, s) :- GetList(s, GetHash);
    Ok(StorageProof(a, b, c), s)
  }
  function SizeProof(sp: StorageProof): nat {
    32 + 64 + 8 + Total(sp.hashSet, SizeHash)
  }

  lemma ProofCodec(sp: StorageProof, rest: Bytes)
    ensures GetProof(PutProof(sp) + rest) == Ok(sp, rest) && |PutProof(sp)| == SizeProof(sp)
  {
    hide GetFixed, GetHash, GetList, PutHash, PutList, SizeHash, Total;
    var a, b, c :=
      sp.parentID, sp.segment, PutList(sp.hashSet, PutHash);
    var s2 := c + rest;
    var s1 := b + s2;
    assert PutProof(sp) + rest == a + s1;
    FixedRoundTrip(sp.parentID, s1);
    FixedRoundTrip(sp.segment, s2);
    HashesCodec(sp.hashSet);
    ListCodec(sp.hashSet, PutHash, GetHash, SizeHash, rest);
  }

  lemma ProofsCodec(xs: seq<StorageProof>)
    ensures Codec(xs, PutProof, GetProof, SizeProof)
  {
    var put, get, size := PutProof, GetProof, SizeProof;
    forall x, r: Bytes | x in xs
      ensures get(put(x) + r) == Ok(x, r)
    {
      ProofCodec(x, r);
    }
    forall x | x in xs
      ensures |put(x)| == size(x)
    {
      ProofCodec(x, []);
    }
  }

  function SizeWord(x: U64): nat { 8 }

  lemma WordsCodec(xs: seq<U64>)
    ensures Codec(xs, PutWord, GetWord, SizeWord)
  {
    var put, get, size := PutWord, GetWord, SizeWord;
    forall x, r: Bytes | x in xs
      ensures get(put(x) + r) == Ok(x, r)
    {
      WordCodec(x, r);
    }
    forall x | x in xs
      ensures |put(x)| == size(x)
    {
      WordCodec(x, []);
    }
  }

  lemma {:induction false} TotalWords(xs: seq<U64>)
    ensures Total(xs, SizeWord) == |xs| * 8
  {
    if xs != [] {
      TotalWords(xs[1..]);
    }
  }

  function PutField(f: Slice<U64>): Bytes { PutList(f, PutWord) }
  function GetField(s: Bytes): Parsed<Slice<U64>> { GetList(s, GetWord) }
  function SizeField(f: Slice<U64>): nat { 8 + |f| * 8 }

  lemma FieldCodec(f: Slice<U64>, rest: Bytes)
    ensures GetField(PutField(f) + rest) == Ok(f, rest) && |PutField(f)| == SizeField(f)
  {
    hide PutList, GetList, Total, PutWord, GetWord;
    WordsCodec(f);
    ListCodec(f, PutWord, GetWord, SizeWord, rest);
    TotalWords(f);
  }

  lemma FieldsCodec(xs: seq<Slice<U64>>)
    ensures Codec(xs, PutField, GetField, SizeField)
  {
    var put, get, size := PutField, GetField, SizeField;
    forall x, r: Bytes | x in xs
      ensures get(put(x) + r) == Ok(x, r)
    {
      FieldCodec(x, r);
    }
    forall x | x in xs
      ensures |put(x)| == size(x)
    {
      FieldCodec(x, []);
    }
  }

  /** The ten lists in the order in which MarshalSia and UnmarshalSia go through them. */
  function Fields(cf: CoveredFields): seq<Slice<U64>> {
    [cf.siacoinInputs, cf.siacoinOutputs, cf.fileContracts, cf.fileContractRevisions, cf.storageProofs,
     cf.siafundInputs, cf.siafundOutputs, cf.minerFees, cf.arbitraryData, cf.transactionSignatures]
  }

  function PutCovered(cf: CoveredFields): Bytes {
    [if cf.wholeTransaction then 1 else 0] + PutEach(Fields(cf), PutField)
  }
  function GetCovered(s: Bytes): Parsed<CoveredFields> {
    var (b, s) :- GetFixed(s, 1);
    var (f, s) :- GetEach(s, 10, GetField);
    Ok(CoveredFields(b[0] == 1, f[0], f[1], f[2], f[3], f[4], f[5], f[6], f[7], f[8], f[9]), s)
  }
  function SizeCovered(cf: CoveredFields): nat { 1 + Total(Fields(cf), SizeField) }

  lemma CoveredCodec(cf: CoveredFields, rest: Bytes)
    ensures GetCovered(PutCovered(cf) + rest) == Ok(cf, rest) && |PutCovered(cf)| == SizeCovered(cf)
  {
    hide PutEach, GetEach, Total, PutField, GetField, SizeField, GetFixed;
    var b: Bytes := [if cf.wholeTransaction then 1 else 0];
    var fs := PutEach(Fields(cf), PutField);
    assert PutCovered(cf) + rest == b + (fs + rest);
    FixedRoundTrip(b, fs + rest);
    FieldsCodec(Fields(cf));
    EachCodec(Fields(cf), PutField, GetField, SizeField, rest);
  }

  function PutSignature(ts: TransactionSignature): Bytes {
    ts.parentID + PutWord(ts.publicKeyIndex) + PutWord(ts.timelock) + PutCovered(ts.coveredFields) +
    PutBlob(ts.signature)
  }
  function GetSignature(s: Bytes): Parsed<TransactionSignature> {
    var (a, s) :- GetFixed(s, 32);
    var (b, s) :- GetWord(s);
    var (c, s) :- GetWord(s);
    var (d, s) :- GetCovered(s);
    var (e, s) :- GetBlob(s);
    Ok(TransactionSignature(a, b, c, d, e), s)
  }
  function SizeSignature(ts: TransactionSignature): nat {
    32 + 8 + 8 + SizeCovered(ts.coveredFields) + SizeBlob(ts.signature)
  }

  lemma SignatureCodec(ts: TransactionSignature, rest: Bytes)
    ensures GetSignature(PutSignature(ts) + rest) == Ok(ts, rest) && |PutSignature(ts)| == SizeSignature(ts)
  {
    hide GetBlob, GetCovered, GetFixed, GetWord, PutBlob, PutCovered, PutWord, SizeBlob, SizeCovered;
    var a, b, c, d, e :=
      ts.parentID, PutWord(ts.publicKeyIndex), PutWord(ts.timelock), PutCovered(ts.coveredFields),
      PutBlob(ts.signature);
    var s4 := e + rest;
    var s3 := d + s4;
    var s2 := c + s3;
    var s1 := b + s2;
    assert PutSignature(ts) + rest == a + s1;
    FixedRoundTrip(ts.parentID, s1);
    WordCodec(ts.publicKeyIndex, s2);
    WordCodec(ts.timelock, s3);
    CoveredCodec(ts.coveredFields, s4);
    BlobCodec(ts.signature, rest);
  }

  lemma SignaturesCodec(xs: seq<TransactionSignature>)
    ensures Codec(xs, PutSignature, GetSignature, SizeSignature)
  {
    var put, get, size := PutSignature, GetSignature, SizeSignature;
    forall x, r: Bytes | x in xs
      ensures get(put(x) + r) == Ok(x, r)
    {
      SignatureCodec(x, r);
    }
    forall x | x in xs
      ensures |put(x)| == size(x)
    {
      SignatureCodec(x, []);
    }
  }

  lemma CurrenciesCodec(xs: seq<Currency>)
    ensures Codec(xs, PutCurrency, GetCurrency, SizeCurrency)
  {
    var put, get, size := PutCurrency, GetCurrency, SizeCurrency;
    forall x, r: Bytes | x in xs
      ensures get(put(x) + r) == Ok(x, r)
    {
      CurrencyCodec(x, r);
    }
    forall x | x in xs
      ensures |put(x)| == size(x)
    {
      CurrencyCodec(x, []);
    }
  }

  lemma BlobsCodec(xs: seq<Blob>)
    ensures Codec(xs, PutBlob, GetBlob, SizeBlob)
  {
    var put, get, size := PutBlob, GetBlob, SizeBlob;
    forall x, r: Bytes | x in xs
      ensures get(put(x) + r) == Ok(x, r)
    {
      BlobCodec(x, r);
    }
    forall x | x in xs
      ensures |put(x)| == size(x)
    {
      BlobCodec(x, []);
    }
  }

  /** marshalSiaNoSignatures, the bytes that a transaction's ID is the hash of. */
  function PutUnsigned(t: Transaction): Bytes {
    PutList(t.siacoinInputs, PutInput) + PutList(t.siacoinOutputs, PutOutput) +
    PutList(t.fileContracts, PutContract) + PutList(t.fileContractRevisions, PutRevision) +
    PutList(t.storageProofs, PutProof) + PutList(t.siafundInputs, PutFundInput) +
    PutList(t.siafundOutputs, PutFundOutput) + PutList(t.minerFees, PutCurrency) +
    PutList(t.arbitraryData, PutBlob)
  }

  function PutTransaction(t: Transaction): Bytes {
    PutUnsigned(t) + PutList(t.transactionSignatures, PutSignature)
  }
  function GetTransaction(s: Bytes): Parsed<Transaction> {
    var (a, s) :- GetList(s, GetInput);
    var (b, s) :- GetList(s, GetOutput);
    var (c, s) :- GetList(s, GetContract);
    var (d, s) :- GetList(s, GetRevision);
    var (e, s) :- GetList(s, GetProof);
    var (f, s) :- GetList(s, GetFundInput);
    var (g, s) :- GetList(s, GetFundOutput);
    var (h, s) :- GetList(s, GetCurrency);
    var (i, s) :- GetList(s, GetBlob);
    var (j, s) :- GetList(s, GetSignature);
    Ok(Transaction(a, b, c, d, e, f, g, h, i, j), s)
  }
  function SizeTransaction(t: Transaction): nat {
    8 + Total(t.siacoinInputs, SizeInput) + 8 + Total(t.siacoinOutputs, SizeOutput) +
    8 + Total(t.fileContracts, SizeContract) + 8 + Total(t.fileContractRevisions, SizeRevision) +
    8 + Total(t.storageProofs, SizeProof) + 8 + Total(t.siafundInputs, SizeFundInput) +
    8 + Total(t.siafundOutputs, SizeFundOutput) + 8 + Total(t.minerFees, SizeCurrency) +
    8 + Total(t.arbitraryData, SizeBlob) + 8 + Total(t.transactionSignatures, SizeSignature)
  }

  lemma TransactionCodec(t: Transaction, rest: Bytes)
    ensures GetTransaction(PutTransaction(t) + rest) == Ok(t, rest) && |PutTransaction(t)| == SizeTransaction(t)
  {
    hide GetBlob, GetContract, GetCurrency, GetFundInput, GetFundOutput, GetInput, GetList, GetOutput, GetProof,
      GetRevision, GetSignature, PutBlob, PutContract, PutCurrency, PutFundInput, PutFundOutput, PutInput, PutList,
      PutOutput, PutProof, PutRevision, PutSignature, SizeBlob, SizeContract, SizeCurrency, SizeFundInput,
      SizeFundOutput, SizeInput, SizeOutput, SizeProof, SizeRevision, SizeSignature, Total;
    var a, b, c, d, e, f, g, h, i, j :=
      PutList(t.siacoinInputs, PutInput), PutList(t.siacoinOutputs, PutOutput),
      PutList(t.fileContracts, PutContract), PutList(t.fileContractRevisions, PutRevision),
      PutList(t.storageProofs, PutProof), PutList(t.siafundInputs, PutFundInput),
      PutList(t.siafundOutputs, PutFundOutput), PutList(t.minerFees, PutCurrency),
      PutList(t.arbitraryData, PutBlob), PutList(t.transactionSignatures, PutSignature);
    var s9 := j + rest;
    var s8 := i + s9;
    var s7 := h + s8;
    var s6 := g + s7;
    var s5 := f + s6;
    var s4 := e + s5;
    var s3 := d + s4;
    var s2 := c + s3;
    var s1 := b + s2;
    var p1 := a + b;
    var p2 := p1 + c;
    var p3 := p2 + d;
    var p4 := p3 + e;
    var p5 := p4 + f;
    var p6 := p5 + g;
    var p7 := p6 + h;
    var p8 := p7 + i;
    Regroup(p8, j, rest);
    Regroup(p7, i, s9);
    Regroup(p6, h, s8);
    Regroup(p5, g, s7);
    Regroup(p4, f, s6);
    Regroup(p3, e, s5);
    Regroup(p2, d, s4);
    Regroup(p1, c, s3);
    Regroup(a, b, s2);
    InputsCodec(t.siacoinInputs);
    ListCodec(t.siacoinInputs, PutInput, GetInput, SizeInput, s1);
    OutputsCodec(t.siacoinOutputs);
    ListCodec(t.siacoinOutputs, PutOutput, GetOutput, SizeOutput, s2);
    ContractsCodec(t.fileContracts);
    ListCodec(t.fileContracts, PutContract, GetContract, SizeContract, s3);
    RevisionsCodec(t.fileContractRevisions);
    ListCodec(t.fileContractRevisions, PutRevision, GetRevision, SizeRevision, s4);
    ProofsCodec(t.storageProofs);
    ListCodec(t.storageProofs, PutProof, GetProof, SizeProof, s5);
    FundInputsCodec(t.siafundInputs);
    ListCodec(t.siafundInputs, PutFundInput, GetFundInput, SizeFundInput, s6);
    FundOutputsCodec(t.siafundOutputs);
    ListCodec(t.siafundOutputs, PutFundOutput, GetFundOutput, SizeFundOutput, s7);
    CurrenciesCodec(t.minerFees);
    ListCodec(t.minerFees, PutCurrency, GetCurrency, SizeCurrency, s8);
    BlobsCodec(t.arbitraryData);
    ListCodec(t.arbitraryData, PutBlob, GetBlob, SizeBlob, s9);
    SignaturesCodec(t.transactionSignatures);
    ListCodec(t.transactionSignatures, PutSignature, GetSignature, SizeSignature, rest);
  }

  lemma TransactionsCodec(xs: seq<Transaction>)
    ensures Codec(xs, PutTransaction, GetTransaction, SizeTransaction)
  {
    var put, get, size := PutTransaction, GetTransaction, SizeTransaction;
    forall x, r: Bytes | x in xs
      ensures get(put(x) + r) == Ok(x, r)
    {
      TransactionCodec(x, r);
    }
    forall x | x in xs
      ensures |put(x)| == size(x)
    {
      TransactionCodec(x, []);
    }
  }

  function PutBlock(blk: Block): Bytes {
    blk.parentID + blk.nonce + PutWord(blk.timestamp) + PutList(blk.minerPayouts, PutOutput) +
    PutList(blk.transactions, PutTransaction)
  }
  function GetBlock(s: Bytes): Parsed<Block> {
    var (a, s) :- GetFixed(s, 32);
    var (b, s) :- GetFixed(s, 8);
    var (c, s) :- GetWord(s);
    var (d, s) :- GetList(s, GetOutput);
    var (e, s) :- GetList(s, GetTransaction);
    Ok(Block(a, b, c, d, e), s)
  }

  lemma BlockCodec(blk: Block, rest: Bytes)
    ensures GetBlock(PutBlock(blk) + rest) == Ok(blk, rest)
  {
    hide GetFixed, GetList, GetOutput, GetTransaction, GetWord, PutList, PutOutput, PutTransaction, PutWord, SizeOutput,
      SizeTransaction, Total;
    var a, b, c, d, e :=
      blk.parentID, blk.nonce, PutWord(blk.timestamp), PutList(blk.minerPayouts, PutOutput),
      PutList(blk.transactions, PutTransaction);
    var s4 := e + rest;
    var s3 := d + s4;
    var s2 := c + s3;
    var s1 := b + s2;
    assert PutBlock(blk) + rest == a + s1;
    FixedRoundTrip(blk.parentID, s1);
    FixedRoundTrip(blk.nonce, s2);
    WordCodec(blk.timestamp, s3);
    OutputsCodec(blk.minerPayouts);
    ListCodec(blk.minerPayouts, PutOutput, GetOutput, SizeOutput, s4);
    TransactionsCodec(blk.transactions);
    ListCodec(blk.transactions, PutTransaction, GetTransaction, SizeTransaction, rest);
  }

  // ----- what the encoding promises -----

  /** No transaction's encoding is a prefix of another's, whatever follows it in the stream. */
  lemma TransactionPrefixFree(t: Transaction, u: Transaction, r: Bytes, s: Bytes)
    ensures PutTransaction(t) + r == PutTransaction(u) + s <==> t == u && r == s
  {
    hide PutTransaction, GetTransaction;
    TransactionCodec(t, r);
    TransactionCodec(u, s);
  }

  lemma BlockPrefixFree(b: Block, c: Block, r: Bytes, s: Bytes)
    ensures PutBlock(b) + r == PutBlock(c) + s <==> b == c && r == s
  {
    hide PutBlock, GetBlock;
    BlockCodec(b, r);
    BlockCodec(c, s);
  }

  /** The bytes that an ID is the hash of cover everything but the signatures. */
  lemma UnsignedCovers(t: Transaction, u: Transaction)
    ensures PutUnsigned(t) == PutUnsigned(u) <==> t.(transactionSignatures := []) == u.(transactionSignatures := [])
  {
    hide PutList, PutInput, PutOutput, PutContract, PutRevision, PutProof, PutFundInput, PutFundOutput, PutCurrency,
      PutBlob, PutSignature;
    var t0, u0 := t.(transactionSignatures := []), u.(transactionSignatures := []);
    if PutUnsigned(t) == PutUnsigned(u) {
      TransactionPrefixFree(t0, u0, [], []);
    }
  }

  // ----- the stream -----

  class Encoder {
    var out: Bytes

    constructor ()
      ensures out == []
    {
      out := [];
    }

    method Write(b: Bytes)
      modifies this
      ensures out == old(out) + b
    {
      out := out + b;
    }

    /** The length, then every element. */
    method WriteList<T>(xs: seq<T>, put: T -> Bytes)
      modifies this
      ensures out == old(out) + PutList(xs, put)
    {
      hide PutU64;
      Write(PutU64(|xs|));
      assert out == old(out) + PutU64(|xs|) + PutEach(xs[..0], put);
      for i := 0 to |xs|
        invariant out == old(out) + PutU64(|xs|) + PutEach(xs[..i], put)
      {
        PutEachNext(xs[..i + 1], put);
        assert xs[..i + 1][..i] == xs[..i];
        Write(put(xs[i]));
      }
      assert xs[..|xs|] == xs;
    }

    /** Transaction.MarshalSia */
    method MarshalTransaction(t: Transaction)
      modifies this
      ensures out == old(out) + PutTransaction(t)
    {
      hide PutList, PutInput, PutOutput, PutContract, PutRevision, PutProof, PutFundInput, PutFundOutput,
        PutCurrency, PutBlob, PutSignature;
      MarshalUnsigned(t);
      WriteList(t.transactionSignatures, PutSignature);
      Regroup(old(out), PutUnsigned(t), PutList(t.transactionSignatures, PutSignature));
    }

    method MarshalUnsigned(t: Transaction)
      modifies this
      ensures out == old(out) + PutUnsigned(t)
    {
      hide PutList, PutInput, PutOutput, PutContract, PutRevision, PutProof, PutFundInput, PutFundOutput,
        PutCurrency, PutBlob;
      ghost var a, b, c := PutList(t.siacoinInputs, PutInput), PutList(t.siacoinOutputs, PutOutput),
        PutList(t.fileContracts, PutContract);
      ghost var d, e, f := PutList(t.fileContractRevisions, PutRevision), PutList(t.storageProofs, PutProof),
        PutList(t.siafundInputs, PutFundInput);
      ghost var g, h, i := PutList(t.siafundOutputs, PutFundOutput), PutList(t.minerFees, PutCurrency),
        PutList(t.arbitraryData, PutBlob);
      ghost var was := out;
      WriteList(t.siacoinInputs, PutInput);
      WriteList(t.siacoinOutputs, PutOutput);
      Regroup(was, a, b);
      WriteList(t.fileContracts, PutContract);
      Regroup(was, a + b, c);
      WriteList(t.fileContractRevisions, PutRevision);
      Regroup(was, a + b + c, d);
      WriteList(t.storageProofs, PutProof);
      Regroup(was, a + b + c + d, e);
      WriteList(t.siafundInputs, PutFundInput);
      Regroup(was, a + b + c + d + e, f);
      WriteList(t.siafundOutputs, PutFundOutput);
      Regroup(was, a + b + c + d + e + f, g);
      WriteList(t.minerFees, PutCurrency);
      Regroup(was, a + b + c + d + e + f + g, h);
      WriteList(t.arbitraryData, PutBlob);
      Regroup(was, a + b + c + d + e + f + g + h, i);
    }

    /** Block.MarshalSia */
    method MarshalBlock(blk: Block)
      modifies this
      ensures out == old(out) + PutBlock(blk)
    {
      hide PutList, PutWord, PutOutput, PutTransaction;
      ghost var was := out;
      Write(blk.parentID);
      Write(blk.nonce);
      Regroup(was, blk.parentID, blk.nonce);
      Write(PutWord(blk.timestamp));
      Regroup(was, blk.parentID + blk.nonce, PutWord(blk.timestamp));
      WriteList(blk.minerPayouts, PutOutput);
      Regroup(was, blk.parentID + blk.nonce + PutWord(blk.timestamp), PutList(blk.minerPayouts, PutOutput));
      WriteList(blk.transactions, PutTransaction);
      Regroup(was, blk.parentID + blk.nonce + PutWord(blk.timestamp) + PutList(blk.minerPayouts, PutOutput),
              PutList(blk.transactions, PutTransaction));
    }
  }

  lemma {:induction false} PutEachNext<T>(xs: seq<T>, put: T -> Bytes)
    requires xs != []
    ensures PutEach(xs, put) == PutEach(xs[..|xs| - 1], put) + put(xs[|xs| - 1])
  {
    if |xs| > 1 {
      PutEachNext(xs[1..], put);
      assert xs[..|xs| - 1][1..] == xs[1..][..|xs| - 2];
    }
  }

  /** What one read does to a decoder whose error, once set, stays set. */
  predicate Reads<T(==)>(wasFailed: bool, p: Parsed<T>, failed: bool, rest: Bytes, x: T) {
    if wasFailed || p.Fail? then failed else !failed && x == p.value && rest == p.rest
  }

  /** p is xs and then what q parses. */
  predicate Prepends<T(==)>(p: Parsed<seq<T>>, xs: seq<T>, q: Parsed<seq<T>>) {
    if q.Fail? then p.Fail? else p == Ok(xs + q.value, q.rest)
  }

  lemma PrependFirst<T>(p: Parsed<seq<T>>)
    ensures Prepends(p, [], p)
  {
    if p.Ok? {
      assert [] + p.value == p.value;
    }
  }

  lemma PrependNext<T>(p: Parsed<seq<T>>, xs: seq<T>, s: Bytes, k: nat, get: Bytes -> Parsed<T>)
    requires k > 0 && Prepends(p, xs, GetEach(s, k, get))
    ensures get(s).Fail? ==> p.Fail?
    ensures get(s).Ok? ==> Prepends(p, xs + [get(s).value], GetEach(get(s).rest, k - 1, get))
  {
    if get(s).Ok? {
      var x, tail := get(s).value, GetEach(get(s).rest, k - 1, get);
      if tail.Ok? {
        assert xs + ([x] + tail.value) == xs + [x] + tail.value;
      }
    }
  }

  lemma PrependLast<T>(p: Parsed<seq<T>>, xs: seq<T>, s: Bytes, get: Bytes -> Parsed<T>)
    ensures Prepends(p, xs, GetEach(s, 0, get)) <==> p == Ok(xs, s)
  {
    assert xs + [] == xs;
  }

  class Decoder {
    var rest: Bytes
    var failed: bool

    constructor (s: Bytes)
      ensures rest == s && !failed
    {
      rest, failed := s, false;
    }

    method Next<T(0,==)>(get: Bytes -> Parsed<T>) returns (x: T)
      modifies this
      ensures Reads(old(failed), get(old(rest)), failed, rest, x)
    {
      x := *;
      if !failed {
        match get(rest) {
          case Fail => failed := true;
          case Ok(v, r) => x, rest := v, r;
        }
      }
    }

    /** NextPrefix elements, each read whether or not the decoder has failed meanwhile. */
    method ReadList<T(0,==)>(get: Bytes -> Parsed<T>) returns (xs: Slice<T>)
      modifies this
      ensures Reads(old(failed), GetList(old(rest), get), failed, rest, xs)
    {
      hide GetU64, GetEach, Prepends;
      var n := NextPrefix();
      ghost var p := GetEach(rest, n, get);
      ghost var bad := failed;
      xs := [];
      PrependFirst(p);
      for i := 0 to n
        invariant |xs| == i
        invariant bad ==> failed
        invariant !bad && failed ==> p.Fail?
        invariant !bad && !failed ==> Prepends(p, xs, GetEach(rest, n - i, get))
      {
        if !failed {
          PrependNext(p, xs, rest, n - i, get);
        }
        var x := Next(get);
        xs := xs + [x];
      }
      PrependLast(p, xs, rest, get);
    }

    method NextPrefix() returns (n: nat)
      modifies this
      ensures n < TWO_63
      ensures if old(failed) || GetU64(old(rest)).Fail? || GetU64(old(rest)).value >= TWO_63 then failed && n == 0
              else !failed && GetU64(old(rest)) == Ok(n, rest)
    {
      n := 0;
      if !failed {
        match GetU64(rest) {
          case Fail => failed := true;
          case Ok(v, r) =>
            if v >= TWO_63 {
              failed := true;
            } else {
              n, rest := v, r;
            }
        }
      }
    }

    /** Transaction.UnmarshalSia */
    method UnmarshalTransaction() returns (t: Transaction)
      modifies this
      ensures Reads(old(failed), GetTransaction(old(rest)), failed, rest, t)
    {
      hide GetList, GetInput, GetOutput, GetContract, GetRevision, GetProof, GetFundInput, GetFundOutput, GetCurrency,
        GetBlob, GetSignature;
      var a := ReadList(GetInput);
      var b := ReadList(GetOutput);
      var c := ReadList(GetContract);
      var d := ReadList(GetRevision);
      var e := ReadList(GetProof);
      var f := ReadList(GetFundInput);
      var g := ReadList(GetFundOutput);
      var h := ReadList(GetCurrency);
      var i := ReadList(GetBlob);
      var j := ReadList(GetSignature);
      t := Transaction(a, b, c, d, e, f, g, h, i, j);
    }

    /** Block.UnmarshalSia */
    method UnmarshalBlock() returns (blk: Block)
      modifies this
      ensures Reads(old(failed), GetBlock(old(rest)), failed, rest, blk)
    {
      hide GetList, GetWord, GetOutput, GetTransaction, GetFixed;
      var a := Next(GetHash);
      var b := Next(GetNonce);
      var c := Next(GetWord);
      var d := ReadList(GetOutput);
      var e := ReadList(GetTransaction);
      blk := Block(a, b, c, d, e);
    }
  }

  function GetNonce(s: Bytes): Parsed<Nonce> { GetFixed(s, 8) }

  /** Adds up the sizes of all elements. */
  method Accumulate<T>(start: nat, xs: seq<T>, size: T -> nat) returns (n: nat)
    ensures n == start + Total(xs, size)
  {
    n := start;
    assert xs[0..] == xs;
    for i := 0 to |xs|
      invariant n + Total(xs[i..], size) == start + Total(xs, size)
    {
      n := n + size(xs[i]);
      assert xs[i..][1..] == xs[i + 1..];
    }
  }

  /** Transaction.MarshalSiaSize counts exactly the bytes that MarshalSia writes. */
  method TransactionSize(t: Transaction) returns (size: nat)
    ensures size == |PutTransaction(t)|
  {
    hide PutTransaction, Total, SizeInput, SizeOutput, SizeContract, SizeRevision, SizeProof, SizeFundInput,
      SizeFundOutput, SizeCurrency, SizeBlob, SizeSignature;
    size := Accumulate(8, t.siacoinInputs, SizeInput);
    size := Accumulate(size + 8, t.siacoinOutputs, SizeOutput);
    size := Accumulate(size + 8, t.fileContracts, SizeContract);
    size := Accumulate(size + 8, t.fileContractRevisions, SizeRevision);
    size := Accumulate(size + 8, t.storageProofs, SizeProof);
    size := Accumulate(size + 8, t.siafundInputs, SizeFundInput);
    size := Accumulate(size + 8, t.siafundOutputs, SizeFundOutput);
    size := Accumulate(size + 8, t.minerFees, SizeCurrency);
    size := Accumulate(size + 8, t.arbitraryData, SizeBlob);
    size := Accumulate(size + 8, t.transactionSignatures, SizeSignature);
    TransactionCodec(t, []);
  }

  /** Writing a block and reading it back, with anything behind it. */
  method BlockThroughStream(blk: Block, behind: Bytes) returns (e: Encoder, d: Decoder, back: Block)
    ensures !d.failed && back == blk && d.rest == behind
  {
    hide PutBlock, GetBlock;
    e := new Encoder();
    e.MarshalBlock(blk);
    BlockCodec(blk, behind);
    assert [] + PutBlock(blk) == PutBlock(blk);
    d := new Decoder(e.out + behind);
    back := d.UnmarshalBlock();
  }
}
