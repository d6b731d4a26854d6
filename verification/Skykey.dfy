/** Skykeys and the records they leave in the key file (skykey/skykey.go). */
module SkykeyFormat {
  import opened Wire
  import opened WireLayout

  const KEY_SIZE := 32            // chacha.KeySize
  const ENTROPY_LEN := 56         // chacha.KeySize + chacha.XNonceSize
  const MAX_NAME_LEN := 128
  const MAX_ENTROPY_LEN := 256
  const TYPE_PUBLIC_ID: Byte := 1
  const TYPE_PRIVATE_ID: Byte := 2
  const TYPE_DELETED: Byte := 255

  datatype Skykey = Skykey(name: Bytes, typ: Byte, entropy: Bytes)

  predicate IsValid(sk: Skykey) {
    && |sk.name| <= MAX_NAME_LEN
    && (sk.typ == TYPE_PUBLIC_ID || sk.typ == TYPE_PRIVATE_ID)
    && |sk.entropy| == ENTROPY_LEN
  }

  /** What one stretch of the key file holds: a key, or the grave of a deleted one. */
  datatype Record = Live(sk: Skykey) | Dead(size: nat)

  predicate WellFormed(r: Record) {
    match r
    case Live(sk) => IsValid(sk)
    case Dead(size) => size <= MAX_ENTROPY_LEN
  }

  /** marshalDeletedSkykey */
  function MarshalDeleted(size: nat): Bytes { [TYPE_DELETED] + PutU64(size) + Zeros(size) }

  function RecordBytes(r: Record): Bytes {
    match r
    case Live(sk) => [sk.typ] + sk.entropy + PutPrefixed(sk.name)
    case Dead(size) => MarshalDeleted(size)
  }

  /** What stands where in a record: the type, 56 bytes of entropy and the name with its length; or the mark of a
      tombstone, a length and that many zeros. */
  lemma RecordLayout(r: Record)
    requires WellFormed(r)
    ensures var b := RecordBytes(r);
      match r
      case Live(sk) =>
        && |b| == 65 + |sk.name| && (b[0] == 1 || b[0] == 2) && b[0] == sk.typ
        && At(b, 1, sk.entropy) && BlobAt(b, 57, sk.name)
      case Dead(size) =>
        |b| == 9 + size && b[0] == 255 && NumberAt(b, 1, size) && forall i :: 9 <= i < |b| ==> b[i] == 0
  {
    hide PutU64, NumberAt;
    var b := RecordBytes(r);
    match r {
      case Live(sk) =>
        var p := [sk.typ] + sk.entropy;
        Prefixed(b, p, sk.name);
      case Dead(size) =>
        var p: Bytes := [TYPE_DELETED];
        assert b[1..9] == PutU64(size);
        NumberIs(b, 1, size);
    }
  }

  /** unmarshalSia on a stream. */
  function Unmarshal(s: Bytes): Parsed<Record> {
    var (head, rest) :- GetFixed(s, 1);
    var typ := head[0];
    if typ == TYPE_PUBLIC_ID || typ == TYPE_PRIVATE_ID then
      var (entropy, rest) :- GetFixed(rest, ENTROPY_LEN);
      var (name, rest) :- GetPrefixed(rest);
      var sk := Skykey(name, typ, entropy);
      if IsValid(sk) then Ok(Live(sk), rest) else Fail
    else if typ == TYPE_DELETED then
      var (size, rest) :- GetU64(rest);
      if size > MAX_ENTROPY_LEN then Fail
      else
        var (_, rest) :- GetFixed(rest, size);
        Ok(Dead(size), rest)
    else Fail
  }

  /** A record is read back from the front of any stream, so records are prefix-free. */
  lemma RecordRoundTrip(r: Record, rest: Bytes)
    requires WellFormed(r)
    ensures Unmarshal(RecordBytes(r) + rest) == Ok(r, rest)
  {
    match r
    case Live(sk) =>
      var body := sk.entropy + (PutPrefixed(sk.name) + rest);
      assert RecordBytes(r) + rest == [sk.typ] + body;
      FixedRoundTrip([sk.typ], body);
      FixedRoundTrip(sk.entropy, PutPrefixed(sk.name) + rest);
      PrefixedRoundTrip(sk.name, rest);
    case Dead(size) =>
      var body := PutU64(size) + (Zeros(size) + rest);
      assert RecordBytes(r) + rest == [TYPE_DELETED] + body;
      FixedRoundTrip([TYPE_DELETED], body);
      U64RoundTrip(size, Zeros(size) + rest);
      FixedRoundTrip(Zeros(size), rest);
  }

  /** Exactly what is read as a record: a valid key in front, or the mark of a tombstone, a length of at most 256
      and that many bytes, whatever they are. */
  lemma UnmarshalExact(s: Bytes, r: Record, rest: Bytes)
    ensures r.Live? ==> (Unmarshal(s) == Ok(r, rest) <==> IsValid(r.sk) && s == RecordBytes(r) + rest)
    ensures r.Dead? ==>
      (Unmarshal(s) == Ok(r, rest) <==>
         |s| >= 9 + r.size && s[0] == 255 && NumberAt(s, 1, r.size) && r.size <= 256 && rest == s[9 + r.size..])
  {
    hide PutU64, GetU64, NumberAt;
    if r.Live? {
      if IsValid(r.sk) && s == RecordBytes(r) + rest {
        RecordRoundTrip(r, rest);
      } else if Unmarshal(s) == Ok(r, rest) {
        LiveFront(s, r, rest);
      }
    } else {
      DeadFront(s, r.size, rest);
    }
  }

  lemma LiveFront(s: Bytes, r: Record, rest: Bytes)
    requires Unmarshal(s) == Ok(r, rest) && r.Live?
    ensures IsValid(r.sk) && s == RecordBytes(r) + rest
  {
    hide GetU64, PutU64;
    var t := s[57..];
    assert s[1..][..56] == s[1..57] && s[1..][56..] == t;
    PrefixedFront(t, r.sk.name, rest);
    var front := s[..57];
    assert front == [r.sk.typ] + r.sk.entropy;
    assert s == front + t;
    hide PutPrefixed;
    Regroup(front, PutPrefixed(r.sk.name), rest);
  }

  lemma PrefixedFront(t: Bytes, name: Bytes, rest: Bytes)
    requires GetPrefixed(t) == Ok(name, rest)
    ensures t == PutPrefixed(name) + rest
  {
    hide FromLittleEndian, LittleEndian;
    var n := FromLittleEndian(t[..8]);
    LittleEndianUnique(t[..8]);
    assert t == t[..8] + (t[8..][..n] + t[8..][n..]);
  }

  lemma Regroup(a: Bytes, b: Bytes, c: Bytes)
    ensures a + (b + c) == a + b + c
  {
  }

  lemma DeadFront(s: Bytes, size: nat, rest: Bytes)
    ensures Unmarshal(s) == Ok(Dead(size), rest) <==>
      |s| >= 9 + size && s[0] == 255 && NumberAt(s, 1, size) && size <= 256 && rest == s[9 + size..]
  {
    if |s| >= 9 {
      assert s[1..][..8] == s[1..9] && s[1..][8..] == s[9..];
      EightBytes(s[1..9]);
      hide FromLittleEndian, Number;
    }
  }

  lemma UnmarshalConsumes(s: Bytes)
    ensures Unmarshal(s).Ok? ==> |Unmarshal(s).rest| < |s|
  {
  }

  /** The grave of a record: its type byte and the length prefix leave this much to zero out. */
  function Grave(r: Record): Record { Dead(if |RecordBytes(r)| < 9 then 0 else |RecordBytes(r)| - 9) }

  /** The grave written over a record takes exactly the record's bytes and is short enough
      to be read again. */
  lemma GraveFits(r: Record)
    requires WellFormed(r) && r.Live?
    ensures Grave(r) == Dead(|RecordBytes(r)| - 8 - 1)
    ensures WellFormed(Grave(r)) && |RecordBytes(Grave(r))| == |RecordBytes(r)|
  {
  }

  function Flatten(rs: seq<Record>): Bytes {
    if rs == [] then [] else Flatten(rs[..|rs| - 1]) + RecordBytes(rs[|rs| - 1])
  }

  ghost predicate AllWellFormed(rs: seq<Record>) {
    forall i :: 0 <= i < |rs| ==> WellFormed(rs[i])
  }

  lemma FlattenNone(rs: seq<Record>)
    requires rs == []
    ensures Flatten(rs) == []
  {
  }

  lemma FlattenOne(rs: seq<Record>, r: Record)
    ensures Flatten(rs + [r]) == Flatten(rs) + RecordBytes(r)
  {
    hide RecordBytes;
    assert (rs + [r])[..|rs|] == rs;
  }

  lemma {:induction false} FlattenConcat(a: seq<Record>, b: seq<Record>)
    ensures Flatten(a + b) == Flatten(a) + Flatten(b)
  {
    hide Flatten, RecordBytes;
    if b == [] {
      assert a + b == a;
      FlattenNone(b);
    } else {
      var init, last := b[..|b| - 1], b[|b| - 1];
      FlattenConcat(a, init);
      FlattenOne(a + init, last);
      FlattenOne(init, last);
      assert a + b == (a + init) + [last] && b == init + [last];
    }
  }

  /** The file around record i. */
  lemma FlattenAt(rs: seq<Record>, i: nat)
    requires i < |rs|
    ensures Flatten(rs) == Flatten(rs[..i]) + RecordBytes(rs[i]) + Flatten(rs[i + 1..])
  {
    hide Flatten, RecordBytes;
    SplitAt(rs, i);
    FlattenAround(rs, rs[..i], rs[i], rs[i + 1..]);
  }

  lemma SplitAt(rs: seq<Record>, i: nat)
    requires i < |rs|
    ensures rs == rs[..i] + [rs[i]] + rs[i + 1..]
  {
  }

  lemma FlattenAround(rs: seq<Record>, a: seq<Record>, r: Record, b: seq<Record>)
    requires rs == a + [r] + b
    ensures Flatten(rs) == Flatten(a) + RecordBytes(r) + Flatten(b)
  {
    hide Flatten, RecordBytes;
    FlattenOne(a, r);
    FlattenConcat(a + [r], b);
  }
}

/** The key store of skykey/skykeymanager.go: two maps in memory and an append-only file
    whose deleted records are overwritten in place.
 */
module SkykeyStore {
  import opened Wire
  import opened WireLayout
  import opened CrashDisk
  import opened SkykeyFormat

  type ID = Bytes

  const SPECIFIER_LEN := 16

  /** "SkykeyFile", "1.4.9" and "1.4.4" as 16-byte specifiers. */
  const MAGIC: Bytes := [83, 107, 121, 107, 101, 121, 70, 105, 108, 101, 0, 0, 0, 0, 0, 0]
  const VERSION: Bytes := [49, 46, 52, 46, 57, 0, 0, 0, 0, 0, 0, 0, 0, 0, 0, 0]
  const OLD_VERSION: Bytes := [49, 46, 52, 46, 52, 0, 0, 0, 0, 0, 0, 0, 0, 0, 0, 0]

  function Header(version: Bytes, fileLen: nat): Bytes { MAGIC + version + PutU64(fileLen) }

  /** The two maps of the manager. */
  datatype Index = Index(idsByName: map<Bytes, ID>, keysByID: map<ID, Skykey>)

  /** The hash of type and key material, cut to 16 bytes.  The model leaves the hash function open. */
  type Hash = (Byte, Bytes) -> ID

  function KeyID(h: Hash, sk: Skykey): ID {
    h(sk.typ, if |sk.entropy| < KEY_SIZE then sk.entropy else sk.entropy[..KEY_SIZE])
  }

  /** The ID depends on the type and the key, the first 32 bytes of the entropy, and on nothing else: not on the name
      and not on the nonce. */
  lemma IdIsTypeAndKey(a: Skykey, b: Skykey)
    requires IsValid(a) && IsValid(b)
    ensures (forall h: Hash :: KeyID(h, a) == KeyID(h, b)) <==> a.typ == b.typ && a.entropy[..32] == b.entropy[..32]
  {
    var tell: Hash := (typ, key) => [typ] + key;
    if KeyID(tell, a) == KeyID(tell, b) {
      assert KeyID(tell, a)[1..] == a.entropy[..32] && KeyID(tell, b)[1..] == b.entropy[..32];
      assert KeyID(tell, a)[0] == a.typ && KeyID(tell, b)[0] == b.typ;
    }
  }

  /** A file that holds records: the two specifiers, the length, and from byte 40 on the records. */
  lemma FileFormat(file: Bytes, fileLen: nat, rs: seq<Record>)
    requires FileHolds(file, fileLen, rs)
    ensures At(file, 0, MAGIC) && At(file, 16, VERSION) && NumberAt(file, 32, fileLen) && At(file, 40, Flatten(rs))
  {
    hide PutU64, NumberAt, Flatten;
    var h := file[..40];
    assert file[..16] == h[..16] && file[16..32] == h[16..32];
    assert file[32..40] == h[32..] == PutU64(fileLen);
    NumberIs(file, 32, fileLen);
  }

  function Store(x: Index, h: Hash, sk: Skykey): Index {
    Index(x.idsByName[sk.name := KeyID(h, sk)], x.keysByID[KeyID(h, sk) := sk])
  }

  /** The maps that reading the records in order builds. */
  function Rebuild(h: Hash, rs: seq<Record>): Index {
    if rs == [] then Index(map[], map[])
    else
      var x := Rebuild(h, rs[..|rs| - 1]);
      match rs[|rs| - 1]
      case Live(sk) => Store(x, h, sk)
      case Dead(_) => x
  }

  /** No live record has the ID or the name of an earlier live record. */
  ghost predicate Distinct(h: Hash, rs: seq<Record>) {
    rs == [] ||
    var init, last := rs[..|rs| - 1], rs[|rs| - 1];
    && Distinct(h, init)
    && (last.Live? ==> KeyID(h, last.sk) !in Rebuild(h, init).keysByID && last.sk.name !in Rebuild(h, init).idsByName)
  }

  /** The two maps are mutually inverse. */
  ghost predicate Inverse(h: Hash, x: Index) {
    && (forall name :: name in x.idsByName ==>
          x.idsByName[name] in x.keysByID && x.keysByID[x.idsByName[name]].name == name)
    && (forall id :: id in x.keysByID ==>
          && KeyID(h, x.keysByID[id]) == id
          && x.keysByID[id].name in x.idsByName && x.idsByName[x.keysByID[id].name] == id)
  }

  /** Storing a key under a new name keeps the maps inverse exactly when its ID is new too. */
  lemma StoreInverse(h: Hash, x: Index, sk: Skykey)
    requires Inverse(h, x) && sk.name !in x.idsByName
    ensures Inverse(h, Store(x, h, sk)) <==> KeyID(h, sk) !in x.keysByID
  {
    hide KeyID;
    var id, y := KeyID(h, sk), Store(x, h, sk);
    if id in x.keysByID {
      var name := x.keysByID[id].name;
      assert name in y.idsByName && y.idsByName[name] == id;
    }
  }

  lemma {:induction false} DistinctInverse(h: Hash, rs: seq<Record>)
    requires Distinct(h, rs)
    ensures Inverse(h, Rebuild(h, rs))
  {
    if rs != [] {
      var init, last := rs[..|rs| - 1], rs[|rs| - 1];
      DistinctInverse(h, init);
      if last.Live? {
        StoreInverse(h, Rebuild(h, init), last.sk);
      }
    }
  }

  lemma RebuildNone(h: Hash)
    ensures Rebuild(h, []) == Index(map[], map[])
  {
  }

  lemma RebuildOne(h: Hash, rs: seq<Record>, r: Record)
    ensures Rebuild(h, rs + [r]) == if r.Live? then Store(Rebuild(h, rs), h, r.sk) else Rebuild(h, rs)
    ensures Distinct(h, rs + [r]) <==>
      && Distinct(h, rs)
      && (r.Live? ==> KeyID(h, r.sk) !in Rebuild(h, rs).keysByID && r.sk.name !in Rebuild(h, rs).idsByName)
  {
    hide KeyID, Store;
    assert (rs + [r])[..|rs|] == rs;
  }

  /** An ID in the map belongs to a live record. */
  lemma {:induction false} OnlyLiveKeys(h: Hash, rs: seq<Record>, id: ID)
    requires forall i :: 0 <= i < |rs| && rs[i].Live? ==> KeyID(h, rs[i].sk) != id
    ensures id !in Rebuild(h, rs).keysByID
  {
    hide KeyID;
    if rs != [] {
      OnlyLiveKeys(h, rs[..|rs| - 1], id);
    }
  }

  /** A live record's key is in the maps, under its ID and its name. */
  lemma {:induction false} LiveKeyStored(h: Hash, rs: seq<Record>, i: nat)
    requires Distinct(h, rs) && i < |rs| && rs[i].Live?
    ensures var x, sk := Rebuild(h, rs), rs[i].sk;
      && KeyID(h, sk) in x.keysByID && x.keysByID[KeyID(h, sk)] == sk
      && sk.name in x.idsByName && x.idsByName[sk.name] == KeyID(h, sk)
  {
    hide KeyID;
    if i < |rs| - 1 {
      LiveKeyStored(h, rs[..|rs| - 1], i);
    }
  }

  function Without(x: Index, name: Bytes, id: ID): Index {
    Index(x.idsByName - {name}, x.keysByID - {id})
  }

  /** Overwriting a live record with a grave takes exactly its key out of the maps. */
  lemma {:induction false} BuryRemoves(h: Hash, rs: seq<Record>, i: nat, size: nat)
    requires Distinct(h, rs) && i < |rs| && rs[i].Live?
    ensures Rebuild(h, rs[i := Dead(size)]) == Without(Rebuild(h, rs), rs[i].sk.name, KeyID(h, rs[i].sk))
    ensures Distinct(h, rs[i := Dead(size)])
  {
    hide KeyID;
    var init, last := rs[..|rs| - 1], rs[|rs| - 1];
    var id, name := KeyID(h, rs[i].sk), rs[i].sk.name;
    if i == |rs| - 1 {
      assert rs[i := Dead(size)] == init + [Dead(size)];
      RebuildOne(h, init, Dead(size));
      assert Without(Store(Rebuild(h, init), h, last.sk), name, id) == Rebuild(h, init);
    } else {
      BuryRemoves(h, init, i, size);
      LiveKeyStored(h, init, i);
      assert rs[i := Dead(size)] == init[i := Dead(size)] + [last];
      RebuildOne(h, init[i := Dead(size)], last);
      if last.Live? {
        StoreWithout(Rebuild(h, init), h, last.sk, name, id);
      }
    }
  }

  lemma StoreWithout(x: Index, h: Hash, sk: Skykey, name: Bytes, id: ID)
    requires sk.name != name && KeyID(h, sk) != id
    ensures Store(Without(x, name, id), h, sk) == Without(Store(x, h, sk), name, id)
  {
  }

  // ----- the file -----

  lemma OverwriteParts(file: Bytes, off: nat, data: Bytes)
    requires off <= |file|
    ensures var f := Overwrite(file, off, data);
      && |f| == (if off + |data| <= |file| then |file| else off + |data|)
      && f[..off] == file[..off] && f[off..off + |data|] == data
      && (off + |data| <= |file| ==> f[off + |data|..] == file[off + |data|..])
  {
  }

  /** Reading one record at offset n; the result carries the offset after it. */
  function RecordAt(file: Bytes, n: nat): Parsed<Record>
    requires n <= |file|
  {
    Unmarshal(file[n..])
  }

  /** What the loop of load reads from offset n on: all records up to fileLen, and nothing
      unless the last one ends exactly there. */
  function ReadRecords(file: Bytes, n: nat, fileLen: nat): (r: Parsed<seq<Record>>)
    requires n <= |file|
    decreases |file| - n
  {
    if n >= fileLen then (if n == fileLen then Ok([], []) else Fail)
    else
      UnmarshalConsumes(file[n..]);
      var (rec, rest) :- RecordAt(file, n);
      var (more, _) :- ReadRecords(file, |file| - |rest|, fileLen);
      Ok([rec] + more, [])
  }

  lemma Split(whole: Bytes, a: Bytes, b: Bytes, n: nat, m: nat)
    requires n <= m <= |whole| && whole[n..m] == a + b
    ensures n + |a| <= m && whole[n + |a|..m] == b && whole[n..] == a + (b + whole[m..])
  {
    assert whole[n..] == whole[n..m] + whole[m..];
    assert whole[n + |a|..m] == whole[n..m][|a|..];
  }

  /** Where the bytes of a list of records start, the first of them is read, and after it
      the bytes of the others follow. */
  lemma NextRecord(file: Bytes, n: nat, fileLen: nat, rs: seq<Record>)
    requires n <= fileLen <= |file| && AllWellFormed(rs) && rs != [] && file[n..fileLen] == Flatten(rs)
    ensures var k := n + |RecordBytes(rs[0])|;
      && n < k <= fileLen && file[k..fileLen] == Flatten(rs[1..])
      && RecordAt(file, n) == Ok(rs[0], file[k..])
  {
    hide Flatten, RecordBytes, Unmarshal;
    FlattenAt(rs, 0);
    assert Flatten(rs[..0]) == [] by { FlattenNone(rs[..0]); }
    var first, tail := RecordBytes(rs[0]), Flatten(rs[1..]);
    RecordNotEmpty(rs[0]);
    assert file[n..fileLen] == first + tail;
    Split(file, first, tail, n, fileLen);
    RecordRoundTrip(rs[0], tail + file[fileLen..]);
    assert file[n + |first|..] == tail + file[fileLen..];
  }

  /** The bytes of a list of records are read back as that list. */
  lemma {:induction false} RecordsReadBack(file: Bytes, n: nat, fileLen: nat, rs: seq<Record>)
    requires n <= fileLen <= |file| && AllWellFormed(rs) && file[n..fileLen] == Flatten(rs)
    ensures ReadRecords(file, n, fileLen) == Ok(rs, [])
    decreases |rs|
  {
    hide RecordBytes, Unmarshal;
    if rs == [] {
      FlattenNone(rs);
    } else {
      NextRecord(file, n, fileLen, rs);
      RecordsReadBack(file, n + |RecordBytes(rs[0])|, fileLen, rs[1..]);
      assert [rs[0]] + rs[1..] == rs;
    }
  }

  lemma RecordNotEmpty(r: Record)
    ensures |RecordBytes(r)| >= 9
  {
  }

  /** The file starts with a header for fileLen and holds exactly the records up to there. */
  ghost predicate FileHolds(file: Bytes, fileLen: nat, rs: seq<Record>) {
    && HEADER_LEN <= fileLen <= |file| && fileLen < TWO_64
    && file[..HEADER_LEN] == Header(VERSION, fileLen)
    && AllWellFormed(rs) && file[HEADER_LEN..fileLen] == Flatten(rs)
  }

  function WithHeader(file: Bytes, fileLen: nat): Bytes
    requires HEADER_LEN <= |file|
  {
    Header(VERSION, fileLen) + file[HEADER_LEN..]
  }

  /** Writing a record behind the valid part and then the new length adds the record. */
  lemma AppendHolds(file: Bytes, fileLen: nat, rs: seq<Record>, r: Record)
    requires FileHolds(file, fileLen, rs) && WellFormed(r) && fileLen + |RecordBytes(r)| < TWO_64
    ensures |Overwrite(file, fileLen, RecordBytes(r))| >= HEADER_LEN
    ensures FileHolds(WithHeader(Overwrite(file, fileLen, RecordBytes(r)), fileLen + |RecordBytes(r)|),
                      fileLen + |RecordBytes(r)|, rs + [r])
  {
    hide RecordBytes, Flatten, WellFormed, PutU64;
    var data := RecordBytes(r);
    var len := fileLen + |data|;
    OverwriteParts(file, fileLen, data);
    var grown := Overwrite(file, fileLen, data);
    FlattenOne(rs, r);
    assert grown[HEADER_LEN..len] == grown[HEADER_LEN..fileLen] + data;
    assert grown[HEADER_LEN..fileLen] == file[HEADER_LEN..fileLen];
    assert WithHeader(grown, len)[HEADER_LEN..len] == grown[HEADER_LEN..len];
  }

  /** The file that saveKey leaves holds the new key behind the old records. */
  lemma SavedHolds(file: Bytes, fileLen: nat, rs: seq<Record>, sk: Skykey)
    requires FileHolds(file, fileLen, rs) && IsValid(sk) && fileLen + |RecordBytes(Live(sk))| < TWO_64
    ensures fileLen <= |file|
    ensures var data := RecordBytes(Live(sk));
      FileHolds(Header(VERSION, fileLen + |data|) + Rest(Overwrite(file, fileLen, data), HEADER_LEN),
                fileLen + |data|, rs + [Live(sk)])
  {
    hide RecordBytes, Flatten, Overwrite, PutU64;
    AppendHolds(file, fileLen, rs, Live(sk));
  }

  lemma Cut(whole: Bytes, n: nat, m: nat, a: Bytes, b: Bytes, c: Bytes)
    requires n <= m <= |whole| && whole[n..m] == a + b + c
    ensures n + |a| + |b| <= m && whole[n..n + |a|] == a && whole[n + |a| + |b|..m] == c
  {
    var part := a + b + c;
    assert whole[n..n + |a|] == part[..|a|];
    assert whole[n + |a| + |b|..m] == part[|a| + |b|..];
  }

  /** Writing a record of the same length over record i replaces it. */
  lemma ReplaceHolds(file: Bytes, fileLen: nat, rs: seq<Record>, i: nat, r: Record)
    requires FileHolds(file, fileLen, rs) && i < |rs| && WellFormed(r) && |RecordBytes(r)| == |RecordBytes(rs[i])|
    ensures HEADER_LEN + |Flatten(rs[..i])| <= |file|
    ensures FileHolds(Overwrite(file, HEADER_LEN + |Flatten(rs[..i])|, RecordBytes(r)), fileLen, rs[i := r])
    ensures |Overwrite(file, HEADER_LEN + |Flatten(rs[..i])|, RecordBytes(r))| == |file|
  {
    hide RecordBytes, Flatten, WellFormed, PutU64;
    var a, b, c := Flatten(rs[..i]), RecordBytes(rs[i]), Flatten(rs[i + 1..]);
    FlattenAt(rs, i);
    FlattenAt(rs[i := r], i);
    assert rs[i := r][..i] == rs[..i] && rs[i := r][i + 1..] == rs[i + 1..];
    var start := HEADER_LEN + |a|;
    OverwriteParts(file, start, RecordBytes(r));
    var f := Overwrite(file, start, RecordBytes(r));
    assert f[..HEADER_LEN] == f[..start][..HEADER_LEN] == file[..HEADER_LEN];
    Cut(file, HEADER_LEN, fileLen, a, b, c);
    assert f[HEADER_LEN..fileLen] == f[HEADER_LEN..start] + f[start..start + |b|] + f[start + |b|..fileLen];
  }

  /** What is left behind the first n bytes. */
  function Rest(file: Bytes, n: nat): Bytes { if |file| >= n then file[n..] else [] }

  lemma OverwriteNext(file: Bytes, front: Bytes, back: Bytes, data: Bytes)
    requires file == front + back
    ensures Overwrite(file, |front|, data) == front + data + Rest(back, |data|)
  {
    assert file[..|front|] == front;
    if |data| <= |back| {
      assert file[|front| + |data|..] == back[|data|..];
    }
  }

  /** The three writes of saveHeader, in order. */
  lemma HeaderWritten(file: Bytes, version: Bytes, fileLen: nat)
    requires |version| == SPECIFIER_LEN
    ensures var f1 := Overwrite(file, 0, MAGIC);
      var f2 := Overwrite(f1, SPECIFIER_LEN, version);
      Overwrite(f2, 2 * SPECIFIER_LEN, PutU64(fileLen)) == Header(version, fileLen) + Rest(file, HEADER_LEN)
  {
    hide Overwrite, PutU64;
    OverwriteNext(file, [], file, MAGIC);
    var b1 := Rest(file, 16);
    OverwriteNext(MAGIC + b1, MAGIC, b1, version);
    assert [] + MAGIC + b1 == MAGIC + b1;
    var b2 := Rest(b1, 16);
    OverwriteNext(MAGIC + version + b2, MAGIC + version, b2, PutU64(fileLen));
    assert Rest(b2, 8) == Rest(file, HEADER_LEN);
  }

  datatype Error = InvalidKey | IdExists | NameExists | NameTooLong | UnsupportedType | NoSuchId | NoSuchName |
    NotOnDisk | BadFile
  datatype Outcome = Success | Failure(error: Error)

  /** The writes that marshalSia makes of a valid key's record.  The contract leaves open where
      the encoder cuts. */
  method EncoderWrites(sk: Skykey) returns (chunks: seq<Bytes>)
    requires IsValid(sk)
    ensures Concat(chunks) == RecordBytes(Live(sk))
  {
    chunks := [[sk.typ], sk.entropy, PutU64(|sk.name|), sk.name];
    ConcatFour([sk.typ], sk.entropy, PutU64(|sk.name|), sk.name);
  }

  /** The writes of marshalDeletedSkykey. */
  method GraveWrites(size: nat) returns (chunks: seq<Bytes>)
    ensures Concat(chunks) == RecordBytes(Dead(size))
  {
    chunks := [[TYPE_DELETED], PutU64(size), Zeros(size)];
    ConcatThree([TYPE_DELETED], PutU64(size), Zeros(size));
  }

  lemma ConcatThree(a: Bytes, b: Bytes, c: Bytes)
    ensures Concat([a, b, c]) == a + b + c
  {
    assert [a, b, c][1..] == [b, c] && [b, c][1..] == [c] && [c][1..] == [];
    assert Concat([c]) == c;
    assert Concat([b, c]) == b + c;
  }

  lemma ConcatFour(a: Bytes, b: Bytes, c: Bytes, d: Bytes)
    ensures Concat([a, b, c, d]) == a + b + (c + d)
  {
    assert [a, b, c, d][1..] == [b, c, d];
    ConcatThree(b, c, d);
  }

  /** The moments of saveHeader: three writes and a sync. */
  function HeaderMoments(versions: seq<Bytes>, version: Bytes, fileLen: nat): seq<seq<Bytes>>
    requires |versions| > 0
  {
    var h1 := Overwrite(versions[|versions| - 1], 0, MAGIC);
    var h2 := Overwrite(h1, SPECIFIER_LEN, version);
    var h3 := Overwrite(h2, 2 * SPECIFIER_LEN, PutU64(fileLen));
    [versions + [h1], versions + [h1] + [h2], versions + [h1] + [h2] + [h3], [h3]]
  }

  /** The moments of saveKey: the record in as many writes as the encoder makes of it, a sync,
      and those of saveHeader. */
  function SaveMoments(versions: seq<Bytes>, fileLen: nat, chunks: seq<Bytes>): seq<seq<Bytes>>
    requires |versions| > 0
  {
    var fill := FillMoments(versions, fileLen, chunks);
    var w := LastOf(versions, fill);
    fill + [[w]] + HeaderMoments([w], VERSION, fileLen + |Concat(chunks)|)
  }

  /** loadHeader: magic and a known version, then the length of the valid part. */
  function ReadHeader(file: Bytes): Parsed<nat>
    requires |file| >= HEADER_LEN
  {
    if file[..SPECIFIER_LEN] != MAGIC then Fail
    else if FileVersion(file) != VERSION && FileVersion(file) != OLD_VERSION then Fail
    else GetU64(file[2 * SPECIFIER_LEN..HEADER_LEN])
  }

  function FileVersion(file: Bytes): Bytes
    requires |file| >= HEADER_LEN
  {
    file[SPECIFIER_LEN..2 * SPECIFIER_LEN]
  }

  /** Exactly which headers are accepted, and the length they give: the magic, one of the two versions, and a number. */
  lemma HeaderExact(file: Bytes, n: nat)
    requires |file| >= HEADER_LEN
    ensures ReadHeader(file).Ok? && ReadHeader(file).value == n <==>
      At(file, 0, MAGIC) && (At(file, 16, VERSION) || At(file, 16, OLD_VERSION)) && NumberAt(file, 32, n)
  {
    EightBytes(file[32..40]);
    hide FromLittleEndian, Number;
    assert file[32..40][..8] == file[32..40];
  }

  /** Everything load reads from a file with a header. */
  function ReadFile(file: Bytes): Parsed<seq<Record>>
    requires |file| >= HEADER_LEN
  {
    var (fileLen, _) :- ReadHeader(file);
    ReadRecords(file, HEADER_LEN, fileLen)
  }

  lemma HeaderReadBack(file: Bytes, fileLen: nat)
    requires |file| >= HEADER_LEN && fileLen < TWO_64 && file[..HEADER_LEN] == Header(VERSION, fileLen)
    ensures ReadHeader(file) == Ok(fileLen, []) && FileVersion(file) == VERSION
  {
    hide PutU64, GetU64;
    var h := file[..HEADER_LEN];
    assert file[..SPECIFIER_LEN] == h[..SPECIFIER_LEN] == MAGIC;
    assert file[SPECIFIER_LEN..2 * SPECIFIER_LEN] == h[SPECIFIER_LEN..2 * SPECIFIER_LEN] == VERSION;
    assert file[2 * SPECIFIER_LEN..HEADER_LEN] == h[2 * SPECIFIER_LEN..] == PutU64(fileLen) + [];
    U64RoundTrip(fileLen, []);
  }

  /** A file that holds a list of records is read back as that list. */
  lemma FileReadBack(file: Bytes, fileLen: nat, rs: seq<Record>)
    requires FileHolds(file, fileLen, rs)
    ensures ReadFile(file) == Ok(rs, []) && ReadHeader(file) == Ok(fileLen, []) && FileVersion(file) == VERSION
  {
    HeaderReadBack(file, fileLen);
    RecordsReadBack(file, HEADER_LEN, fileLen, rs);
  }

  lemma EmptyHolds(file: Bytes)
    requires file == Header(VERSION, HEADER_LEN)
    ensures FileHolds(file, HEADER_LEN, [])
  {
    hide PutU64;
    FlattenNone([]);
  }

  /** A live record with this ID has become its grave, on the disk as well, and nothing else has changed. */
  ghost predicate Buries(h: Hash, id: ID, rs: seq<Record>, file: Bytes, rs': seq<Record>, file': Bytes) {
    exists i :: 0 <= i < |rs| && BuriesAt(h, id, rs, file, i, rs', file')
  }

  predicate BuriesAt(h: Hash, id: ID, rs: seq<Record>, file: Bytes, i: nat, rs': seq<Record>, file': Bytes)
    requires i < |rs|
  {
    && rs[i].Live? && KeyID(h, rs[i].sk) == id && rs' == rs[i := Grave(rs[i])]
    && file' == Overwrite(file, HEADER_LEN + |Flatten(rs[..i])|, RecordBytes(Grave(rs[i])))
  }

  /** The loop of load: store every live record up to fileLen. */
  method LoadRecords(file: Bytes, fileLen: nat, h: Hash) returns (r: Parsed<Index>)
    requires |file| >= HEADER_LEN
    ensures r == match ReadRecords(file, HEADER_LEN, fileLen)
                 case Ok(rs, _) => Ok(Rebuild(h, rs), [])
                 case Fail => Fail
  {
    hide Unmarshal, KeyID, Rebuild, Distinct;
    var idsByName: map<Bytes, ID> := map[];
    var keysByID: map<ID, Skykey> := map[];
    var n := HEADER_LEN;
    RebuildNone(h);
    ghost var done: seq<Record> := [];
    ghost var all := ReadRecords(file, HEADER_LEN, fileLen);
    while n < fileLen
      invariant n <= |file|
      invariant all.Ok? <==> ReadRecords(file, n, fileLen).Ok?
      invariant all.Ok? ==> all.value == done + ReadRecords(file, n, fileLen).value
      invariant Index(idsByName, keysByID) == Rebuild(h, done)
      decreases |file| - n
    {
      UnmarshalConsumes(file[n..]);
      var next := RecordAt(file, n);
      if next.Fail? {
        return Fail;
      }
      RebuildOne(h, done, next.value);
      n := |file| - |next.rest|;
      if next.value.Live? {
        var sk := next.value.sk;
        idsByName := idsByName[sk.name := KeyID(h, sk)];
        keysByID := keysByID[KeyID(h, sk) := sk];
      }
      done := done + [next.value];
    }
    if n != fileLen {
      return Fail;
    }
    assert all.value == done;
    r := Ok(Index(idsByName, keysByID), []);
  }

  class SkykeyManager {
    var idsByName: map<Bytes, ID>
    var keysByID: map<ID, Skykey>
    var staticVersion: Bytes
    var fileLen: nat
    /** The persist file. */
    const disk: Disk
    const hash: Hash

    /** What the valid part of the file holds. */
    ghost var records: seq<Record>

    ghost function Maps(): Index
      reads this
    {
      Index(idsByName, keysByID)
    }

    /** The file is synced, carries a header and exactly the records, and the maps are what
        reading them builds. */
    ghost predicate Agrees()
      reads this, disk
    {
      && staticVersion == VERSION
      && disk.Valid() && disk.versions == [disk.content]
      && FileHolds(disk.content, fileLen, records)
      && Maps() == Rebuild(hash, records)
    }

    ghost predicate Valid()
      reads this, disk
    {
      Agrees() && Distinct(hash, records)
    }

    /** saveHeader */
    method SaveHeader()
      requires |staticVersion| == SPECIFIER_LEN && disk.Valid()
      modifies disk
      ensures disk.Valid() && disk.versions == [disk.content]
      ensures disk.content == Header(staticVersion, fileLen) + Rest(old(disk.content), HEADER_LEN)
      ensures disk.moments == old(disk.moments) + HeaderMoments(old(disk.versions), staticVersion, fileLen)
    {
      hide Overwrite, PutU64;
      HeaderWritten(disk.content, staticVersion, fileLen);
      disk.WriteAt(MAGIC, 0);
      disk.WriteAt(staticVersion, SPECIFIER_LEN);
      disk.WriteAt(PutU64(fileLen), 2 * SPECIFIER_LEN);
      disk.Sync();
    }

    /** saveKey: the maps first, then the record behind the valid part and a sync, then the header. */
    method SaveKey(sk: Skykey) returns (ghost chunks: seq<Bytes>)
      requires Agrees() && IsValid(sk)
      requires fileLen + |RecordBytes(Live(sk))| < TWO_64
      modifies this, disk
      ensures Agrees() && records == old(records) + [Live(sk)]
      ensures Maps() == Store(old(Maps()), hash, sk)
      ensures fileLen == old(fileLen) + |RecordBytes(Live(sk))|
      ensures Concat(chunks) == RecordBytes(Live(sk))
      ensures disk.moments == old(disk.moments) + SaveMoments(old(disk.versions), old(fileLen), chunks)
    {
      hide RecordBytes, Flatten, Overwrite, KeyID, FillMoments, LastOf, HeaderMoments, FileHolds, Header, Rest, Rebuild,
        IsValid, Distinct;
      SavedHolds(disk.content, fileLen, records, sk);
      RebuildOne(hash, records, Live(sk));
      var keyID := KeyID(hash, sk);
      idsByName := idsByName[sk.name := keyID];
      keysByID := keysByID[keyID := sk];
      var cs := EncoderWrites(sk);
      chunks := cs;
      FillLast(disk.versions, fileLen, cs);
      WriteChunks(disk, fileLen, cs);
      disk.Sync();
      fileLen := fileLen + |Concat(cs)|;
      SaveHeader();
      records := records + [Live(sk)];
    }

    method AddKey(sk: Skykey) returns (r: Outcome)
      requires Valid() && fileLen + 1024 < TWO_64
      modifies this, disk
      ensures Valid()
      ensures r == if !IsValid(sk) then Failure(InvalidKey)
                   else if KeyID(hash, sk) in old(keysByID) then Failure(IdExists)
                   else if sk.name in old(idsByName) then Failure(NameExists)
                   else Success
      ensures r.Success? ==> Maps() == Store(old(Maps()), hash, sk) && records == old(records) + [Live(sk)]
      ensures r.Failure? ==> Maps() == old(Maps()) && disk.content == old(disk.content) && records == old(records)
      ensures old(fileLen) <= fileLen <= old(fileLen) + 256
    {
      if !IsValid(sk) {
        return Failure(InvalidKey);
      }
      if KeyID(hash, sk) in keysByID {
        return Failure(IdExists);
      }
      if sk.name in idsByName {
        return Failure(NameExists);
      }
      RebuildOne(hash, records, Live(sk));
      RecordLength(sk);
      var _ := SaveKey(sk);
      r := Success;
    }

    /** CreateKey checks the name but not the ID of the key it has generated: the maps stay
        inverse exactly when the generated ID is new. */
    method CreateKey(name: Bytes, typ: Byte, entropy: Bytes) returns (r: Outcome)
      requires Valid() && fileLen + 1024 < TWO_64 && |entropy| == ENTROPY_LEN
      modifies this, disk
      ensures Agrees()
      ensures old(fileLen) <= fileLen <= old(fileLen) + 256
      ensures r == if |name| > MAX_NAME_LEN then Failure(NameTooLong)
                   else if typ != TYPE_PUBLIC_ID && typ != TYPE_PRIVATE_ID then Failure(UnsupportedType)
                   else if name in old(idsByName) then Failure(NameExists)
                   else Success
      ensures r.Success? ==> var sk := Skykey(name, typ, entropy);
        && Maps() == Store(old(Maps()), hash, sk) && records == old(records) + [Live(sk)]
        && (Valid() <==> KeyID(hash, sk) !in old(keysByID))
        && (Inverse(hash, Maps()) <==> KeyID(hash, sk) !in old(keysByID))
      ensures r.Failure? ==>
        Valid() && Maps() == old(Maps()) && disk.content == old(disk.content) && records == old(records)
    {
      hide RecordBytes, Flatten, KeyID, FileHolds;
      if |name| > MAX_NAME_LEN {
        return Failure(NameTooLong);
      }
      if typ != TYPE_PUBLIC_ID && typ != TYPE_PRIVATE_ID {
        return Failure(UnsupportedType);
      }
      if name in idsByName {
        return Failure(NameExists);
      }
      var sk := Skykey(name, typ, entropy);
      DistinctInverse(hash, records);
      StoreInverse(hash, Maps(), sk);
      RebuildOne(hash, records, Live(sk));
      RecordLength(sk);
      var _ := SaveKey(sk);
      r := Success;
    }

    constructor (disk: Disk, h: Hash)
      ensures this.disk == disk && hash == h && idsByName == map[] && keysByID == map[]
    {
      this.disk, hash := disk, h;
      idsByName, keysByID := map[], map[];
      staticVersion, fileLen, records := VERSION, 0, [];
    }

    /** load on a fresh manager: a file without a header gets one, any other file is accepted
        exactly when its header is and its records end exactly at the length in the header. */
    method Load() returns (r: Outcome)
      requires idsByName == map[] && keysByID == map[]
      requires disk.Valid() && disk.versions == [disk.content]
      modifies this, disk
      ensures disk.Valid() && disk.versions == [disk.content]
      ensures |old(disk.content)| < HEADER_LEN ==> r == Success && Valid() && records == []
      ensures |old(disk.content)| >= HEADER_LEN ==>
        r == if ReadFile(old(disk.content)).Ok? then Success else Failure(BadFile)
      ensures |old(disk.content)| >= HEADER_LEN && r.Success? ==>
        var was := old(disk.content);
        && staticVersion == VERSION && fileLen == ReadHeader(was).value
        && disk.content == (if FileVersion(was) == VERSION then was else WithHeader(was, fileLen))
        && records == ReadFile(was).value && Maps() == Rebuild(hash, records)
    {
      hide ReadRecords, ReadHeader, PutU64, HeaderMoments;
      var file := disk.content;
      if |file| < HEADER_LEN {
        staticVersion, fileLen, records := VERSION, HEADER_LEN, [];
        SaveHeader();
        EmptyHolds(disk.content);
        return Success;
      }
      var header := ReadHeader(file);
      if header.Fail? {
        return Failure(BadFile);
      }
      staticVersion, fileLen := FileVersion(file), header.value;
      var read := LoadRecords(file, fileLen, hash);
      if read.Fail? {
        return Failure(BadFile);
      }
      idsByName, keysByID := read.value.idsByName, read.value.keysByID;
      records := ReadRecords(file, HEADER_LEN, fileLen).value;
      if staticVersion != VERSION {
        staticVersion := VERSION;
        SaveHeader();
      }
      r := Success;
    }

    /** The scan of deleteKeyByID: the first live record with the given ID. */
    method FindRecord(id: ID) returns (found: bool, startOffset: nat, endOffset: nat, ghost i: nat)
      requires Agrees()
      ensures found ==>
        && i < |records| && records[i].Live? && KeyID(hash, records[i].sk) == id
        && startOffset == HEADER_LEN + |Flatten(records[..i])| && endOffset == startOffset + |RecordBytes(records[i])|
      ensures !found ==> forall j :: 0 <= j < |records| && records[j].Live? ==> KeyID(hash, records[j].sk) != id
    {
      hide RecordBytes, Flatten, Unmarshal, KeyID, Rebuild;
      startOffset, endOffset, found, i := HEADER_LEN, 0, false, 0;
      FlattenNone(records[..0]);
      assert records[0..] == records;
      while startOffset < fileLen
        invariant i <= |records| && startOffset == HEADER_LEN + |Flatten(records[..i])| <= fileLen
        invariant disk.content[startOffset..fileLen] == Flatten(records[i..])
        invariant forall j :: 0 <= j < i && records[j].Live? ==> KeyID(hash, records[j].sk) != id
        decreases fileLen - startOffset
      {
        FlattenNoneIff(records[i..]);
        NextRecord(disk.content, startOffset, fileLen, records[i..]);
        var next := RecordAt(disk.content, startOffset);
        endOffset := |disk.content| - |next.rest|;
        if next.value.Live? && KeyID(hash, next.value.sk) == id {
          return true, startOffset, endOffset, i;
        }
        FlattenOne(records[..i], records[i]);
        assert records[..i] + [records[i]] == records[..i + 1];
        assert records[i..][1..] == records[i + 1..];
        startOffset, i := endOffset, i + 1;
      }
      FlattenNoneIff(records[i..]);
    }

    method DeleteKeyByID(id: ID) returns (r: Outcome)
      requires Valid()
      modifies this, disk
      ensures Valid()
      ensures r == if id in old(keysByID) then Success else Failure(NoSuchId)
      ensures r.Success? ==> Maps() == Without(old(Maps()), old(keysByID)[id].name, id)
      ensures r.Success? ==>
        Buries(hash, id, old(records), old(disk.content), records, disk.content) && disk.versions == [disk.content]
      ensures fileLen == old(fileLen) && |disk.content| == old(|disk.content|)
      ensures r.Failure? ==> Maps() == old(Maps()) && disk.content == old(disk.content) && records == old(records)
    {
      hide RecordBytes, Flatten, Overwrite, KeyID, Rebuild, Distinct, Grave, WellFormed;
      if id !in keysByID {
        return Failure(NoSuchId);
      }
      var key := keysByID[id];
      var found, startOffset, endOffset, i := FindRecord(id);
      if !found {
        OnlyLiveKeys(hash, records, id);
        return Failure(NotOnDisk);
      }
      // markSkykeyDeleted
      GraveFits(records[i]);
      var size := endOffset - startOffset - 8 - 1;
      LiveKeyStored(hash, records, i);
      BuryRemoves(hash, records, i, size);
      ReplaceHolds(disk.content, fileLen, records, i, Dead(size));
      var chunks := GraveWrites(size);
      WriteChunks(disk, startOffset, chunks);
      disk.Sync();
      assert BuriesAt(hash, id, records, old(disk.content), i, records[i := Dead(size)], disk.content);
      records := records[i := Dead(size)];
      keysByID := keysByID - {id};
      idsByName := idsByName - {key.name};
      r := Success;
    }

    method DeleteKeyByName(name: Bytes) returns (r: Outcome)
      requires Valid()
      modifies this, disk
      ensures Valid()
      ensures r == if name in old(idsByName) then Success else Failure(NoSuchName)
      ensures r.Success? ==> Maps() == Without(old(Maps()), name, old(idsByName)[name])
      ensures r.Success? ==>
        && Buries(hash, old(idsByName)[name], old(records), old(disk.content), records, disk.content)
        && disk.versions == [disk.content]
      ensures r.Failure? ==> Maps() == old(Maps()) && disk.content == old(disk.content) && records == old(records)
      ensures fileLen == old(fileLen)
    {
      if name !in idsByName {
        return Failure(NoSuchName);
      }
      DistinctInverse(hash, records);
      r := DeleteKeyByID(idsByName[name]);
    }
  }

  /** Whatever has been added and deleted: a new manager on the same file has the same maps
      and is valid again. */
  method Reload(sm: SkykeyManager) returns (again: SkykeyManager)
    requires sm.Valid()
    modifies sm.disk
    ensures fresh(again) && again.Valid() && again.Maps() == sm.Maps() && again.records == sm.records
    ensures again.disk == sm.disk && again.hash == sm.hash && again.fileLen == sm.fileLen
  {
    again := new SkykeyManager(sm.disk, sm.hash);
    FileReadBack(sm.disk.content, sm.fileLen, sm.records);
    var r := again.Load();
  }

  /** What a user of the store does; Reopen starts over from the file. */
  datatype Op =
    | Add(sk: Skykey)
    | Create(name: Bytes, typ: Byte, entropy: Bytes)
    | DeleteByID(id: ID)
    | DeleteByName(name: Bytes)
    | Reopen

  /** What each operation means for the two maps, with no file in sight. */
  function Apply(h: Hash, x: Index, op: Op): Index {
    match op
    case Add(sk) =>
      if IsValid(sk) && KeyID(h, sk) !in x.keysByID && sk.name !in x.idsByName then Store(x, h, sk) else x
    case Create(name, typ, entropy) =>
      if Creatable(x, name, typ) then Store(x, h, Skykey(name, typ, entropy)) else x
    case DeleteByID(id) => if id in x.keysByID then Without(x, x.keysByID[id].name, id) else x
    case DeleteByName(name) => if name in x.idsByName then Without(x, name, x.idsByName[name]) else x
    case Reopen => x
  }

  predicate Creatable(x: Index, name: Bytes, typ: Byte) {
    |name| <= MAX_NAME_LEN && (typ == TYPE_PUBLIC_ID || typ == TYPE_PRIVATE_ID) && name !in x.idsByName
  }

  /** A key that the operation generates has entropy of the right length and an ID that is not taken. */
  predicate Generated(h: Hash, x: Index, op: Op) {
    op.Create? ==>
      |op.entropy| == ENTROPY_LEN && KeyID(h, Skykey(op.name, op.typ, op.entropy)) !in x.keysByID
  }

  function ApplyAll(h: Hash, x: Index, ops: seq<Op>): Index {
    if ops == [] then x else Apply(h, ApplyAll(h, x, ops[..|ops| - 1]), ops[|ops| - 1])
  }

  /** Over every run of additions, creations, deletions and restarts in which every generated ID
      is new, the store with its file behaves like the plain pair of maps, and the maps stay inverse. */
  method RunOps(sm: SkykeyManager, ops: seq<Op>) returns (last: SkykeyManager)
    requires sm.Valid() && sm.fileLen + 256 * |ops| + 1024 < TWO_64
    requires forall i :: 0 <= i < |ops| ==> Generated(sm.hash, ApplyAll(sm.hash, sm.Maps(), ops[..i]), ops[i])
    modifies sm, sm.disk
    ensures last.Valid() && last.hash == sm.hash
    ensures last.Maps() == ApplyAll(sm.hash, old(sm.Maps()), ops)
    ensures Inverse(sm.hash, last.Maps())
  {
    hide KeyID, Store, Without, FileHolds, Rebuild, Distinct, Buries;
    last := sm;
    for i := 0 to |ops|
      invariant last.Valid() && last.hash == sm.hash && last.disk == sm.disk && (last == sm || fresh(last))
      invariant last.Maps() == ApplyAll(sm.hash, old(sm.Maps()), ops[..i])
      invariant last.fileLen + 256 * (|ops| - i) + 1024 < TWO_64
    {
      assert ops[..i + 1][..i] == ops[..i];
      assert Generated(sm.hash, ApplyAll(sm.hash, old(sm.Maps()), ops[..i]), ops[i]);
      match ops[i] {
        case Add(sk) => var _ := last.AddKey(sk);
        case Create(name, typ, entropy) => var _ := last.CreateKey(name, typ, entropy);
        case DeleteByID(id) => var _ := last.DeleteKeyByID(id);
        case DeleteByName(name) => var _ := last.DeleteKeyByName(name);
        case Reopen => last := Reload(last);
      }
    }
    assert ops[..|ops|] == ops;
    DistinctInverse(last.hash, last.records);
  }

  lemma FlattenNoneIff(rs: seq<Record>)
    ensures Flatten(rs) == [] <==> rs == []
  {
    if rs != [] {
      RecordNotEmpty(rs[|rs| - 1]);
    }
  }

  lemma RecordLength(sk: Skykey)
    requires IsValid(sk)
    ensures |RecordBytes(Live(sk))| <= 256
  {
  }
}
