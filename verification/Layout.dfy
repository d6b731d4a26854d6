/** What stands at which byte of the consensus encoding, without the functions that write or read it:
    numbers with their least significant byte first, currencies with their most significant byte first. */
module WireLayout {
  import opened Common
  import opened Wire
  import opened Encoding
  import CurrencyBytes

  /** The number that the eight bytes from i on stand for. */
  predicate NumberAt(b: Bytes, i: nat, x: nat) {
    i + 8 <= |b| && x == Number(b[i..i + 8])
  }

  function Number(s: seq<nat>): nat
    requires |s| == 8
  {
    s[0] + 0x100 * s[1] + 0x1_0000 * s[2] + 0x100_0000 * s[3] + 0x1_0000_0000 * s[4]
    + 0x100_0000_0000 * s[5] + 0x1_0000_0000_0000 * s[6] + 0x100_0000_0000_0000 * s[7]
  }

  /** A length and that many bytes. */
  predicate BlobAt(b: Bytes, i: nat, x: Bytes) { NumberAt(b, i, |x|) && At(b, i + 8, x) }

  function BigEndian(s: Bytes): nat {
    if s == [] then 0 else 256 * BigEndian(s[..|s| - 1]) + s[|s| - 1]
  }

  /** A length and that many bytes, the first of them not zero, that make up c. */
  ghost predicate CurrencyAt(b: Bytes, i: nat, c: nat) {
    exists s :: BlobAt(b, i, s) && BigEndian(s) == c && (s == [] || s[0] != 0)
  }

  /** A length and that many elements, each behind all of those before it. */
  ghost predicate ListAt<T>(b: Bytes, i: nat, xs: seq<T>, put: T -> Bytes, size: T -> nat) {
    && NumberAt(b, i, |xs|)
    && forall k :: 0 <= k < |xs| ==> At(b, i + 8 + Total(xs[..k], size), put(xs[k]))
  }

  // ----- the parts -----

  lemma Behind(b: Bytes, p: Bytes, x: Bytes)
    requires p + x <= b
    ensures p <= b && At(b, |p|, x)
  {
    assert b[..|p + x|] == p + x;
    assert b[|p|..|p| + |x|] == (p + x)[|p|..];
    assert b[..|p|] == (p + x)[..|p|];
  }

  lemma EightBytes(s: Bytes)
    requires |s| == 8
    ensures FromLittleEndian(s) == Number(s)
  {
    FourBytes(s, s[1..], s[2..], s[3..], s[4..]);
    FourBytes(s[4..], s[5..], s[6..], s[7..], []);
  }

  lemma FourBytes(s: Bytes, s1: Bytes, s2: Bytes, s3: Bytes, s4: Bytes)
    requires |s| >= 4 && s1 == s[1..] && s2 == s[2..] && s3 == s[3..] && s4 == s[4..]
    ensures var n: seq<nat> := s;
      FromLittleEndian(s) == n[0] + 0x100 * n[1] + 0x1_0000 * n[2] + 0x100_0000 * n[3]
                             + 0x1_0000_0000 * FromLittleEndian(s4)
  {
    assert s2 == s1[1..] && s3 == s2[1..] && s4 == s3[1..];
    var n: seq<nat> := s;
    assert FromLittleEndian(s3) == n[3] + 256 * FromLittleEndian(s4);
    assert FromLittleEndian(s2) == n[2] + 256 * FromLittleEndian(s3);
    assert FromLittleEndian(s1) == n[1] + 256 * FromLittleEndian(s2);
  }

  lemma NumberIs(b: Bytes, i: nat, x: nat)
    requires At(b, i, PutU64(x)) && x < TWO_64
    ensures NumberAt(b, i, x)
  {
    hide FromLittleEndian, LittleEndian;
    PowEight();
    LittleEndianRoundTrip(x, 8);
    EightBytes(b[i..i + 8]);
  }

  lemma WordBehind(b: Bytes, p: Bytes, x: U64)
    requires p + PutWord(x) <= b
    ensures p <= b && NumberAt(b, |p|, x) && |PutWord(x)| == 8
  {
    hide PutU64, NumberAt;
    Behind(b, p, PutWord(x));
    NumberIs(b, |p|, x);
  }

  lemma BlobBehind(b: Bytes, p: Bytes, x: Blob)
    requires p + PutBlob(x) <= b
    ensures p <= b && BlobAt(b, |p|, x) && |PutBlob(x)| == 8 + |x|
  {
    hide PutU64, NumberAt;
    Prefixed(b, p, x);
  }

  lemma Prefixed(b: Bytes, p: Bytes, x: Bytes)
    requires p + PutPrefixed(x) <= b && |x| < TWO_64
    ensures p <= b && BlobAt(b, |p|, x)
  {
    hide PutU64, NumberAt;
    assert p + PutPrefixed(x) == p + PutU64(|x|) + x;
    Behind(b, p + PutU64(|x|), x);
    Behind(b, p, PutU64(|x|));
    NumberIs(b, |p|, |x|);
  }

  lemma {:induction false} BigEndianIs(d: Bytes)
    ensures BigEndian(Reversed(d)) == FromLittleEndian(d)
  {
    if d != [] {
      var r := Reversed(d);
      assert r[..|r| - 1] == Reversed(d[1..]);
      BigEndianIs(d[1..]);
    }
  }

  lemma CurrencyBehind(b: Bytes, p: Bytes, c: Currency)
    requires p + PutCurrency(c) <= b
    ensures p <= b && CurrencyAt(b, |p|, c) && |PutCurrency(c)| == SizeCurrency(c)
  {
    hide BlobAt, FromLittleEndian;
    var d := CurrencyBytes.Digits(c);
    hide CurrencyBytes.Digits;
    var s := Reversed(d);
    Prefixed(b, p, s);
    BigEndianIs(d);
    CurrencyBytes.DigitsValue(c);
    assert BlobAt(b, |p|, s);
  }

  lemma {:induction false} EachBehind<T>(b: Bytes, p: Bytes, xs: seq<T>, put: T -> Bytes, get: Bytes -> Parsed<T>,
                                         size: T -> nat, k: nat)
    requires p + PutEach(xs, put) <= b && Codec(xs, put, get, size) && k < |xs|
    ensures At(b, |p| + Total(xs[..k], size), put(xs[k]))
    decreases k
  {
    hide Codec, At, PutEach, Total;
    var x, rest := put(xs[0]), PutEach(xs[1..], put);
    FirstOfEach(xs, put);
    Regroup(p, x, rest);
    Behind(b, p + x, rest);
    Behind(b, p, x);
    TotalFirst(xs, size, k);
    if k > 0 {
      FirstSize(xs, put, get, size);
      TailCodec(xs, put, get, size);
      EachBehind(b, p + x, xs[1..], put, get, size, k - 1);
    }
  }

  lemma FirstOfEach<T>(xs: seq<T>, put: T -> Bytes)
    requires xs != []
    ensures PutEach(xs, put) == put(xs[0]) + PutEach(xs[1..], put)
  {
  }

  lemma TotalFirst<T>(xs: seq<T>, size: T -> nat, k: nat)
    requires k < |xs|
    ensures Total(xs[..k], size) == if k == 0 then 0 else size(xs[0]) + Total(xs[1..][..k - 1], size)
  {
    if k > 0 {
      assert xs[..k][1..] == xs[1..][..k - 1];
    }
  }

  lemma FirstSize<T>(xs: seq<T>, put: T -> Bytes, get: Bytes -> Parsed<T>, size: T -> nat)
    requires Codec(xs, put, get, size) && xs != []
    ensures |put(xs[0])| == size(xs[0])
  {
    assert xs[0] in xs;
  }

  lemma TailCodec<T>(xs: seq<T>, put: T -> Bytes, get: Bytes -> Parsed<T>, size: T -> nat)
    requires Codec(xs, put, get, size) && xs != []
    ensures Codec(xs[1..], put, get, size)
  {
    assert forall x :: x in xs[1..] ==> x in xs;
  }

  lemma ListBehind<T>(b: Bytes, p: Bytes, xs: Slice<T>, put: T -> Bytes, get: Bytes -> Parsed<T>, size: T -> nat)
    requires p + PutList(xs, put) <= b && Codec(xs, put, get, size)
    ensures p <= b && ListAt(b, |p|, xs, put, size) && |PutList(xs, put)| == 8 + Total(xs, size)
  {
    hide PutU64, PutEach, NumberAt, Total, Codec;
    ListCodec(xs, put, get, size, []);
    assert p + PutList(xs, put) == p + PutU64(|xs|) + PutEach(xs, put);
    Behind(b, p + PutU64(|xs|), PutEach(xs, put));
    Behind(b, p, PutU64(|xs|));
    NumberIs(b, |p|, |xs|);
    forall k | 0 <= k < |xs|
      ensures At(b, |p| + 8 + Total(xs[..k], size), put(xs[k]))
    {
      EachBehind(b, p + PutU64(|xs|), xs, put, get, size, k);
    }
  }

  // ----- the structures -----
  /** A public key: the algorithm, then the key. */
  ghost predicate KeyFormat(b: Bytes, k: SiaPublicKey) {
    var o1: nat := 16 + 8 + |k.key|;
    && At(b, 0, k.algorithm)
    && BlobAt(b, 16, k.key)
    && |b| == o1
  }

  lemma KeyLayout(k: SiaPublicKey)
    ensures KeyFormat(PutKey(k), k)
  {
    hide At, BlobAt, CurrencyAt, ListAt, NumberAt, PutBlob;
    var b := PutKey(k);
    var p1 := k.algorithm;
    var p2 := p1 + PutBlob(k.key);
    assert b == p2;
    assert p2 <= b;
    BlobBehind(b, p1, k.key);
    assert [] + p1 == p1;
    Behind(b, [], k.algorithm);
  }

  /** Unlock conditions. */
  ghost predicate ConditionsFormat(b: Bytes, uc: UnlockConditions) {
    var o1: nat := 8 + 8 + Total(uc.publicKeys, SizeKey);
    && NumberAt(b, 0, uc.timelock)
    && ListAt(b, 8, uc.publicKeys, PutKey, SizeKey)
    && NumberAt(b, o1, uc.signaturesRequired)
    && |b| == o1 + 8
  }

  lemma ConditionsLayout(uc: UnlockConditions)
    ensures ConditionsFormat(PutConditions(uc), uc)
  {
    hide At, BlobAt, CurrencyAt, GetKey, ListAt, NumberAt, PutKey, PutList, PutWord, SizeKey, Total;
    var b := PutConditions(uc);
    var p1 := PutWord(uc.timelock);
    var p2 := p1 + PutList(uc.publicKeys, PutKey);
    var p3 := p2 + PutWord(uc.signaturesRequired);
    assert b == p3;
    assert p3 <= b;
    WordBehind(b, p2, uc.signaturesRequired);
    KeysCodec(uc.publicKeys);
    ListBehind(b, p1, uc.publicKeys, PutKey, GetKey, SizeKey);
    assert [] + p1 == p1;
    WordBehind(b, [], uc.timelock);
  }

  /** Siacoin inputs. */
  ghost predicate InputFormat(b: Bytes, sci: SiacoinInput) {
    var o1: nat := 32 + SizeConditions(sci.unlockConditions);
    && At(b, 0, sci.parentID)
    && At(b, 32, PutConditions(sci.unlockConditions))
    && |b| == o1
  }

  lemma InputLayout(sci: SiacoinInput)
    ensures InputFormat(PutInput(sci), sci)
  {
    hide At, BlobAt, CurrencyAt, ListAt, NumberAt, PutConditions, SizeConditions;
    var b := PutInput(sci);
    var p1 := sci.parentID;
    var p2 := p1 + PutConditions(sci.unlockConditions);
    assert b == p2;
    assert p2 <= b;
    ConditionsCodec(sci.unlockConditions, []);
    Behind(b, p1, PutConditions(sci.unlockConditions));
    assert [] + p1 == p1;
    Behind(b, [], sci.parentID);
  }

  /** Siacoin outputs. */
  ghost predicate OutputFormat(b: Bytes, sco: SiacoinOutput) {
    var o1: nat := SizeCurrency(sco.value);
    && CurrencyAt(b, 0, sco.value)
    && At(b, o1, sco.unlockHash)
    && |b| == o1 + 32
  }

  lemma OutputLayout(sco: SiacoinOutput)
    ensures OutputFormat(PutOutput(sco), sco)
  {
    hide At, BlobAt, CurrencyAt, ListAt, NumberAt, PutCurrency, SizeCurrency;
    var b := PutOutput(sco);
    var p1 := PutCurrency(sco.value);
    var p2 := p1 + sco.unlockHash;
    assert b == p2;
    assert p2 <= b;
    Behind(b, p1, sco.unlockHash);
    assert [] + p1 == p1;
    CurrencyBehind(b, [], sco.value);
  }

  /** Siafund inputs. */
  ghost predicate FundInputFormat(b: Bytes, sfi: SiafundInput) {
    var o1: nat := 32 + SizeConditions(sfi.unlockConditions);
    && At(b, 0, sfi.parentID)
    && At(b, 32, PutConditions(sfi.unlockConditions))
    && At(b, o1, sfi.claimUnlockHash)
    && |b| == o1 + 32
  }

  lemma FundInputLayout(sfi: SiafundInput)
    ensures FundInputFormat(PutFundInput(sfi), sfi)
  {
    hide At, BlobAt, CurrencyAt, ListAt, NumberAt, PutConditions, SizeConditions;
    var b := PutFundInput(sfi);
    var p1 := sfi.parentID;
    var p2 := p1 + PutConditions(sfi.unlockConditions);
    var p3 := p2 + sfi.claimUnlockHash;
    assert b == p3;
    assert p3 <= b;
    Behind(b, p2, sfi.claimUnlockHash);
    ConditionsCodec(sfi.unlockConditions, []);
    Behind(b, p1, PutConditions(sfi.unlockConditions));
    assert [] + p1 == p1;
    Behind(b, [], sfi.parentID);
  }

  /** Siafund outputs. */
  ghost predicate FundOutputFormat(b: Bytes, sfo: SiafundOutput) {
    var o1: nat := SizeCurrency(sfo.value);
    var o2: nat := o1 + 32 + SizeCurrency(sfo.claimStart);
    && CurrencyAt(b, 0, sfo.value)
    && At(b, o1, sfo.unlockHash)
    && CurrencyAt(b, o1 + 32, sfo.claimStart)
    && |b| == o2
  }

  lemma FundOutputLayout(sfo: SiafundOutput)
    ensures FundOutputFormat(PutFundOutput(sfo), sfo)
  {
    hide At, BlobAt, CurrencyAt, ListAt, NumberAt, PutCurrency, SizeCurrency;
    var b := PutFundOutput(sfo);
    var p1 := PutCurrency(sfo.value);
    var p2 := p1 + sfo.unlockHash;
    var p3 := p2 + PutCurrency(sfo.claimStart);
    assert b == p3;
    assert p3 <= b;
    CurrencyBehind(b, p2, sfo.claimStart);
    Behind(b, p1, sfo.unlockHash);
    assert [] + p1 == p1;
    CurrencyBehind(b, [], sfo.value);
  }

  /** File contracts. */
  ghost predicate ContractFormat(b: Bytes, fc: FileContract) {
    var o1: nat := 56 + SizeCurrency(fc.payout);
    var o2: nat := o1 + 8 + Total(fc.validProofOutputs, SizeOutput);
    var o3: nat := o2 + 8 + Total(fc.missedProofOutputs, SizeOutput);
    && NumberAt(b, 0, fc.fileSize)
    && At(b, 8, fc.fileMerkleRoot)
    && NumberAt(b, 40, fc.windowStart)
    && NumberAt(b, 48, fc.windowEnd)
    && CurrencyAt(b, 56, fc.payout)
    && ListAt(b, o1, fc.validProofOutputs, PutOutput, SizeOutput)
    && ListAt(b, o2, fc.missedProofOutputs, PutOutput, SizeOutput)
    && At(b, o3, fc.unlockHash)
    && NumberAt(b, o3 + 32, fc.revisionNumber)
    && |b| == o3 + 40
  }

  lemma ContractLayout(fc: FileContract)
    ensures ContractFormat(PutContract(fc), fc)
  {
    hide At, BlobAt, CurrencyAt, GetOutput, ListAt, NumberAt, PutCurrency, PutList, PutOutput, PutWord, SizeCurrency,
      SizeOutput, Total;
    var b := PutContract(fc);
    var p1 := PutWord(fc.fileSize);
    var p2 := p1 + fc.fileMerkleRoot;
    var p3 := p2 + PutWord(fc.windowStart);
    var p4 := p3 + PutWord(fc.windowEnd);
    var p5 := p4 + PutCurrency(fc.payout);
    var p6 := p5 + PutList(fc.validProofOutputs, PutOutput);
    var p7 := p6 + PutList(fc.missedProofOutputs, PutOutput);
    var p8 := p7 + fc.unlockHash;
    var p9 := p8 + PutWord(fc.revisionNumber);
    assert b == p9;
    assert p9 <= b;
    WordBehind(b, p8, fc.revisionNumber);
    Behind(b, p7, fc.unlockHash);
    OutputsCodec(fc.missedProofOutputs);
    ListBehind(b, p6, fc.missedProofOutputs, PutOutput, GetOutput, SizeOutput);
    OutputsCodec(fc.validProofOutputs);
    ListBehind(b, p5, fc.validProofOutputs, PutOutput, GetOutput, SizeOutput);
    CurrencyBehind(b, p4, fc.payout);
    WordBehind(b, p3, fc.windowEnd);
    WordBehind(b, p2, fc.windowStart);
    Behind(b, p1, fc.fileMerkleRoot);
    assert [] + p1 == p1;
    WordBehind(b, [], fc.fileSize);
  }

  /** File contract revisions. */
  ghost predicate RevisionFormat(b: Bytes, fcr: FileContractRevision) {
    var o1: nat := 32 + SizeConditions(fcr.unlockConditions);
    var o2: nat := o1 + 64 + 8 + Total(fcr.newValidProofOutputs, SizeOutput);
    var o3: nat := o2 + 8 + Total(fcr.newMissedProofOutputs, SizeOutput);
    && At(b, 0, fcr.parentID)
    && At(b, 32, PutConditions(fcr.unlockConditions))
    && NumberAt(b, o1, fcr.newRevisionNumber)
    && NumberAt(b, o1 + 8, fcr.newFileSize)
    && At(b, o1 + 16, fcr.newFileMerkleRoot)
    && NumberAt(b, o1 + 48, fcr.newWindowStart)
    && NumberAt(b, o1 + 56, fcr.newWindowEnd)
    && ListAt(b, o1 + 64, fcr.newValidProofOutputs, PutOutput, SizeOutput)
    && ListAt(b, o2, fcr.newMissedProofOutputs, PutOutput, SizeOutput)
    && At(b, o3, fcr.newUnlockHash)
    && |b| == o3 + 32
  }

  lemma RevisionLayout(fcr: FileContractRevision)
    ensures RevisionFormat(PutRevision(fcr), fcr)
  {
    hide At, BlobAt, CurrencyAt, GetOutput, ListAt, NumberAt, PutConditions, PutList, PutOutput, PutWord,
      SizeConditions, SizeOutput, Total;
    var b := PutRevision(fcr);
    var p1 := fcr.parentID;
    var p2 := p1 + PutConditions(fcr.unlockConditions);
    var p3 := p2 + PutWord(fcr.newRevisionNumber);
    var p4 := p3 + PutWord(fcr.newFileSize);
    var p5 := p4 + fcr.newFileMerkleRoot;
    var p6 := p5 + PutWord(fcr.newWindowStart);
    var p7 := p6 + PutWord(fcr.newWindowEnd);
    var p8 := p7 + PutList(fcr.newValidProofOutputs, PutOutput);
    var p9 := p8 + PutList(fcr.newMissedProofOutputs, PutOutput);
    var p10 := p9 + fcr.newUnlockHash;
    assert b == p10;
    assert p10 <= b;
    Behind(b, p9, fcr.newUnlockHash);
    OutputsCodec(fcr.newMissedProofOutputs);
    ListBehind(b, p8, fcr.newMissedProofOutputs, PutOutput, GetOutput, SizeOutput);
    OutputsCodec(fcr.newValidProofOutputs);
    ListBehind(b, p7, fcr.newValidProofOutputs, PutOutput, GetOutput, SizeOutput);
    WordBehind(b, p6, fcr.newWindowEnd);
    WordBehind(b, p5, fcr.newWindowStart);
    Behind(b, p4, fcr.newFileMerkleRoot);
    WordBehind(b, p3, fcr.newFileSize);
    WordBehind(b, p2, fcr.newRevisionNumber);
    ConditionsCodec(fcr.unlockConditions, []);
    Behind(b, p1, PutConditions(fcr.unlockConditions));
    assert [] + p1 == p1;
    Behind(b, [], fcr.parentID);
  }

  /** Storage proofs. */
  ghost predicate ProofFormat(b: Bytes, sp: StorageProof) {
    var o1: nat := 96 + 8 + Total(sp.hashSet, SizeHash);
    && At(b, 0, sp.parentID)
    && At(b, 32, sp.segment)
    && ListAt(b, 96, sp.hashSet, PutHash, SizeHash)
    && |b| == o1
  }

  lemma ProofLayout(sp: StorageProof)
    ensures ProofFormat(PutProof(sp), sp)
  {
    hide At, BlobAt, CurrencyAt, GetHash, ListAt, NumberAt, PutHash, PutList, SizeHash, Total;
    var b := PutProof(sp);
    var p1 := sp.parentID;
    var p2 := p1 + sp.segment;
    var p3 := p2 + PutList(sp.hashSet, PutHash);
    assert b == p3;
    assert p3 <= b;
    HashesCodec(sp.hashSet);
    ListBehind(b, p2, sp.hashSet, PutHash, GetHash, SizeHash);
    Behind(b, p1, sp.segment);
    assert [] + p1 == p1;
    Behind(b, [], sp.parentID);
  }

  /** Covered fields: a flag byte, and ten lists of numbers. */
  ghost predicate CoveredFormat(b: Bytes, cf: CoveredFields) {
    var o1 := 9 + 8 * |cf.siacoinInputs|;
    var o2 := o1 + 8 + 8 * |cf.siacoinOutputs|;
    var o3 := o2 + 8 + 8 * |cf.fileContracts|;
    var o4 := o3 + 8 + 8 * |cf.fileContractRevisions|;
    var o5 := o4 + 8 + 8 * |cf.storageProofs|;
    var o6 := o5 + 8 + 8 * |cf.siafundInputs|;
    var o7 := o6 + 8 + 8 * |cf.siafundOutputs|;
    var o8 := o7 + 8 + 8 * |cf.minerFees|;
    var o9 := o8 + 8 + 8 * |cf.arbitraryData|;
    && |b| > 0 && b[0] == (if cf.wholeTransaction then 1 else 0)
    && NumbersAt(b, 1, cf.siacoinInputs)
    && NumbersAt(b, o1, cf.siacoinOutputs)
    && NumbersAt(b, o2, cf.fileContracts)
    && NumbersAt(b, o3, cf.fileContractRevisions)
    && NumbersAt(b, o4, cf.storageProofs)
    && NumbersAt(b, o5, cf.siafundInputs)
    && NumbersAt(b, o6, cf.siafundOutputs)
    && NumbersAt(b, o7, cf.minerFees)
    && NumbersAt(b, o8, cf.arbitraryData)
    && NumbersAt(b, o9, cf.transactionSignatures)
    && |b| == o9 + 8 + 8 * |cf.transactionSignatures|
  }

  lemma CoveredLayout(cf: CoveredFields)
    ensures CoveredFormat(PutCovered(cf), cf)
  {
    hide PutEach, NumbersAt, PutField, GetField, Total, SizeField;
    FieldOffsets(cf);
    CoveredCodec(cf, []);
    FieldAt(cf, 0);
    FieldAt(cf, 1);
    FieldAt(cf, 2);
    FieldAt(cf, 3);
    FieldAt(cf, 4);
    FieldAt(cf, 5);
    FieldAt(cf, 6);
    FieldAt(cf, 7);
    FieldAt(cf, 8);
    FieldAt(cf, 9);
  }

  /** A length and that many numbers. */
  ghost predicate NumbersAt(b: Bytes, i: nat, xs: seq<nat>) {
    NumberAt(b, i, |xs|) && forall k :: 0 <= k < |xs| ==> NumberAt(b, i + 8 + 8 * k, xs[k])
  }

  lemma FieldAt(cf: CoveredFields, k: nat)
    requires k < 10
    ensures NumbersAt(PutCovered(cf), 1 + Total(Fields(cf)[..k], SizeField), Fields(cf)[k])
  {
    hide PutEach, NumbersAt, PutField, GetField, Codec, At, Total;
    var b, fs := PutCovered(cf), Fields(cf);
    var flag: Bytes := [if cf.wholeTransaction then 1 else 0];
    assert flag + PutEach(fs, PutField) <= b;
    FieldsCodec(fs);
    EachBehind(b, flag, fs, PutField, GetField, SizeField, k);
    NumbersIs(b, 1 + Total(fs[..k], SizeField), fs[k]);
  }

  lemma NumbersIs(b: Bytes, o: nat, f: Slice<U64>)
    requires At(b, o, PutField(f))
    ensures NumbersAt(b, o, f)
  {
    hide PutU64, NumberAt, PutEach, PutWord, GetWord;
    var p := b[..o];
    assert p + PutField(f) == b[..o + |PutField(f)|];
    WordsCodec(f);
    ListBehind(b, p, f, PutWord, GetWord, SizeWord);
    forall k | 0 <= k < |f|
      ensures NumberAt(b, o + 8 + 8 * k, f[k])
    {
      TotalWords(f[..k]);
      WordIsNumber(f[k]);
      NumberIs(b, o + 8 + 8 * k, f[k]);
    }
  }

  lemma WordIsNumber(x: U64)
    ensures PutWord(x) == PutU64(x)
  {
  }

  lemma FieldOffsets(cf: CoveredFields)
    ensures var fs, size := Fields(cf), SizeField;
      var o1 := 9 + 8 * |cf.siacoinInputs|;
      var o2 := o1 + 8 + 8 * |cf.siacoinOutputs|;
      var o3 := o2 + 8 + 8 * |cf.fileContracts|;
      var o4 := o3 + 8 + 8 * |cf.fileContractRevisions|;
      var o5 := o4 + 8 + 8 * |cf.storageProofs|;
      var o6 := o5 + 8 + 8 * |cf.siafundInputs|;
      var o7 := o6 + 8 + 8 * |cf.siafundOutputs|;
      var o8 := o7 + 8 + 8 * |cf.minerFees|;
      var o9 := o8 + 8 + 8 * |cf.arbitraryData|;
      && Total(fs[..0], size) == 0 && 1 + Total(fs[..1], size) == o1 && 1 + Total(fs[..2], size) == o2
      && 1 + Total(fs[..3], size) == o3 && 1 + Total(fs[..4], size) == o4 && 1 + Total(fs[..5], size) == o5
      && 1 + Total(fs[..6], size) == o6 && 1 + Total(fs[..7], size) == o7 && 1 + Total(fs[..8], size) == o8
      && 1 + Total(fs[..9], size) == o9 && 1 + Total(fs, size) == o9 + 8 + 8 * |cf.transactionSignatures|
  {
    hide Total;
    var fs := Fields(cf);
    NoFields(fs);
    NextField(fs, 0);
    NextField(fs, 1);
    NextField(fs, 2);
    NextField(fs, 3);
    NextField(fs, 4);
    NextField(fs, 5);
    NextField(fs, 6);
    NextField(fs, 7);
    NextField(fs, 8);
    NextField(fs, 9);
    assert fs[..10] == fs;
  }

  lemma NoFields(fs: seq<Slice<U64>>)
    ensures Total(fs[..0], SizeField) == 0
  {
  }

  lemma NextField(fs: seq<Slice<U64>>, k: nat)
    requires k < |fs|
    ensures Total(fs[..k + 1], SizeField) == Total(fs[..k], SizeField) + 8 + 8 * |fs[k]|
  {
    hide Total;
    assert fs[..k + 1] == fs[..k] + [fs[k]];
    TotalLast(fs[..k], fs[k]);
  }

  lemma {:induction false} TotalLast(xs: seq<Slice<U64>>, x: Slice<U64>)
    ensures Total(xs + [x], SizeField) == Total(xs, SizeField) + SizeField(x)
  {
    hide SizeField;
    if xs != [] {
      assert (xs + [x])[1..] == xs[1..] + [x];
      TotalLast(xs[1..], x);
    }
  }

  /** Transaction signatures. */
  ghost predicate SignatureFormat(b: Bytes, ts: TransactionSignature) {
    var o1: nat := 48 + SizeCovered(ts.coveredFields);
    var o2: nat := o1 + 8 + |ts.signature|;
    && At(b, 0, ts.parentID)
    && NumberAt(b, 32, ts.publicKeyIndex)
    && NumberAt(b, 40, ts.timelock)
    && At(b, 48, PutCovered(ts.coveredFields))
    && BlobAt(b, o1, ts.signature)
    && |b| == o2
  }

  lemma SignatureLayout(ts: TransactionSignature)
    ensures SignatureFormat(PutSignature(ts), ts)
  {
    hide At, BlobAt, CurrencyAt, ListAt, NumberAt, PutBlob, PutCovered, PutWord, SizeCovered;
    var b := PutSignature(ts);
    var p1 := ts.parentID;
    var p2 := p1 + PutWord(ts.publicKeyIndex);
    var p3 := p2 + PutWord(ts.timelock);
    var p4 := p3 + PutCovered(ts.coveredFields);
    var p5 := p4 + PutBlob(ts.signature);
    assert b == p5;
    assert p5 <= b;
    BlobBehind(b, p4, ts.signature);
    CoveredCodec(ts.coveredFields, []);
    Behind(b, p3, PutCovered(ts.coveredFields));
    WordBehind(b, p2, ts.timelock);
    WordBehind(b, p1, ts.publicKeyIndex);
    assert [] + p1 == p1;
    Behind(b, [], ts.parentID);
  }

  /** Transactions: five lists, ... */
  ghost predicate ContractLists(b: Bytes, t: Transaction) {
    var o1: nat := 8 + Total(t.siacoinInputs, SizeInput);
    var o2: nat := o1 + 8 + Total(t.siacoinOutputs, SizeOutput);
    var o3: nat := o2 + 8 + Total(t.fileContracts, SizeContract);
    var o4: nat := o3 + 8 + Total(t.fileContractRevisions, SizeRevision);
    && ListAt(b, 0, t.siacoinInputs, PutInput, SizeInput)
    && ListAt(b, o1, t.siacoinOutputs, PutOutput, SizeOutput)
    && ListAt(b, o2, t.fileContracts, PutContract, SizeContract)
    && ListAt(b, o3, t.fileContractRevisions, PutRevision, SizeRevision)
    && ListAt(b, o4, t.storageProofs, PutProof, SizeProof)
  }

  /** Where the siafund inputs begin. */
  function FundsAt(t: Transaction): nat {
    40 + Total(t.siacoinInputs, SizeInput) + Total(t.siacoinOutputs, SizeOutput) + Total(t.fileContracts, SizeContract)
    + Total(t.fileContractRevisions, SizeRevision) + Total(t.storageProofs, SizeProof)
  }

  /** ... and five more. */
  ghost predicate FundLists(b: Bytes, t: Transaction, o: nat) {
    var o1: nat := o + 8 + Total(t.siafundInputs, SizeFundInput);
    var o2: nat := o1 + 8 + Total(t.siafundOutputs, SizeFundOutput);
    var o3: nat := o2 + 8 + Total(t.minerFees, SizeCurrency);
    var o4: nat := o3 + 8 + Total(t.arbitraryData, SizeBlob);
    && ListAt(b, o, t.siafundInputs, PutFundInput, SizeFundInput)
    && ListAt(b, o1, t.siafundOutputs, PutFundOutput, SizeFundOutput)
    && ListAt(b, o2, t.minerFees, PutCurrency, SizeCurrency)
    && ListAt(b, o3, t.arbitraryData, PutBlob, SizeBlob)
    && ListAt(b, o4, t.transactionSignatures, PutSignature, SizeSignature)
    && |b| == o4 + 8 + Total(t.transactionSignatures, SizeSignature)
  }

  ghost predicate TransactionFormat(b: Bytes, t: Transaction) { ContractLists(b, t) && FundLists(b, t, FundsAt(t)) }

  lemma TransactionLayout(t: Transaction)
    ensures TransactionFormat(PutTransaction(t), t)
  {
    hide At, BlobAt, CurrencyAt, GetBlob, GetContract, GetCurrency, GetFundInput, GetFundOutput, GetInput, GetOutput,
      GetProof, GetRevision, GetSignature, ListAt, NumberAt, PutBlob, PutContract, PutCurrency, PutFundInput,
      PutFundOutput, PutInput, PutList, PutOutput, PutProof, PutRevision, PutSignature, SizeBlob, SizeContract,
      SizeCurrency, SizeFundInput, SizeFundOutput, SizeInput, SizeOutput, SizeProof, SizeRevision, SizeSignature,
      Total;
    var b := PutTransaction(t);
    var p1 := PutList(t.siacoinInputs, PutInput);
    var p2 := p1 + PutList(t.siacoinOutputs, PutOutput);
    var p3 := p2 + PutList(t.fileContracts, PutContract);
    var p4 := p3 + PutList(t.fileContractRevisions, PutRevision);
    var p5 := p4 + PutList(t.storageProofs, PutProof);
    var p6 := p5 + PutList(t.siafundInputs, PutFundInput);
    var p7 := p6 + PutList(t.siafundOutputs, PutFundOutput);
    var p8 := p7 + PutList(t.minerFees, PutCurrency);
    var p9 := p8 + PutList(t.arbitraryData, PutBlob);
    var p10 := p9 + PutList(t.transactionSignatures, PutSignature);
    assert b == p10;
    assert p10 <= b;
    SignaturesCodec(t.transactionSignatures);
    ListBehind(b, p9, t.transactionSignatures, PutSignature, GetSignature, SizeSignature);
    BlobsCodec(t.arbitraryData);
    ListBehind(b, p8, t.arbitraryData, PutBlob, GetBlob, SizeBlob);
    CurrenciesCodec(t.minerFees);
    ListBehind(b, p7, t.minerFees, PutCurrency, GetCurrency, SizeCurrency);
    FundOutputsCodec(t.siafundOutputs);
    ListBehind(b, p6, t.siafundOutputs, PutFundOutput, GetFundOutput, SizeFundOutput);
    FundInputsCodec(t.siafundInputs);
    ListBehind(b, p5, t.siafundInputs, PutFundInput, GetFundInput, SizeFundInput);
    ProofsCodec(t.storageProofs);
    ListBehind(b, p4, t.storageProofs, PutProof, GetProof, SizeProof);
    RevisionsCodec(t.fileContractRevisions);
    ListBehind(b, p3, t.fileContractRevisions, PutRevision, GetRevision, SizeRevision);
    ContractsCodec(t.fileContracts);
    ListBehind(b, p2, t.fileContracts, PutContract, GetContract, SizeContract);
    OutputsCodec(t.siacoinOutputs);
    ListBehind(b, p1, t.siacoinOutputs, PutOutput, GetOutput, SizeOutput);
    assert [] + p1 == p1;
    InputsCodec(t.siacoinInputs);
    ListBehind(b, [], t.siacoinInputs, PutInput, GetInput, SizeInput);
  }

  /** Blocks. */
  ghost predicate BlockFormat(b: Bytes, blk: Block) {
    var o1: nat := 48 + 8 + Total(blk.minerPayouts, SizeOutput);
    var o2: nat := o1 + 8 + Total(blk.transactions, SizeTransaction);
    && At(b, 0, blk.parentID)
    && At(b, 32, blk.nonce)
    && NumberAt(b, 40, blk.timestamp)
    && ListAt(b, 48, blk.minerPayouts, PutOutput, SizeOutput)
    && ListAt(b, o1, blk.transactions, PutTransaction, SizeTransaction)
    && |b| == o2
  }

  lemma BlockLayout(blk: Block)
    ensures BlockFormat(PutBlock(blk), blk)
  {
    hide At, BlobAt, CurrencyAt, GetOutput, GetTransaction, ListAt, NumberAt, PutList, PutOutput, PutTransaction,
      PutWord, SizeOutput, SizeTransaction, Total;
    var b := PutBlock(blk);
    var p1 := blk.parentID;
    var p2 := p1 + blk.nonce;
    var p3 := p2 + PutWord(blk.timestamp);
    var p4 := p3 + PutList(blk.minerPayouts, PutOutput);
    var p5 := p4 + PutList(blk.transactions, PutTransaction);
    assert b == p5;
    assert p5 <= b;
    TransactionsCodec(blk.transactions);
    ListBehind(b, p4, blk.transactions, PutTransaction, GetTransaction, SizeTransaction);
    OutputsCodec(blk.minerPayouts);
    ListBehind(b, p3, blk.minerPayouts, PutOutput, GetOutput, SizeOutput);
    WordBehind(b, p2, blk.timestamp);
    Behind(b, p1, blk.nonce);
    assert [] + p1 == p1;
    Behind(b, [], blk.parentID);
  }
}
