/** Which encodings of types/encoding.go are the ones that would be written.

    Every decoder here is paired with a checker that walks the same bytes and says whether every
    currency in them is without a leading zero byte and every flag byte is 0 or 1.
 */
module CanonicalEncoding {
  import opened Common
  import opened Wire
  import opened Encoding
  import CurrencyBytes

  /** The bytes written for what was read from the front of s, up to rest, are never longer than
      what was read, and are the same bytes exactly when canonical is true. */
  predicate Remakes(s: Bytes, written: Bytes, rest: Bytes, canonical: bool) {
    && |rest| <= |s| && rest == s[|s| - |rest|..]
    && |written| + |rest| <= |s|
    && (written + rest == s <==> canonical)
  }

  /** Parts that are read one behind the other are remade together exactly when each is. */
  lemma Compose(s: Bytes, w1: Bytes, s1: Bytes, c1: bool, w2: Bytes, s2: Bytes, c2: bool)
    requires Remakes(s, w1, s1, c1) && Remakes(s1, w2, s2, c2)
    ensures Remakes(s, w1 + w2, s2, c1 && c2)
  {
    assert w1 + w2 + s2 == w1 + (w2 + s2);
    Tail(s, s1, s2);
    if w1 + w2 + s2 == s {
      assert |w1| == |s| - |s1|;
      assert s[|w1|..] == w2 + s2;
      assert s == s[..|w1|] + s[|w1|..] && s[..|w1|] == w1;
    }
  }

  lemma Tail(s: Bytes, s1: Bytes, s2: Bytes)
    requires |s1| <= |s| && s1 == s[|s| - |s1|..] && |s2| <= |s1| && s2 == s1[|s1| - |s2|..]
    ensures s2 == s[|s| - |s2|..]
  {
  }

  /** A decoder whose every accepted input is remade. */
  predicate Plain<T>(s: Bytes, p: Parsed<T>, put: T -> Bytes) {
    p.Ok? ==> Remakes(s, put(p.value), p.rest, true)
  }

  /** A decoder and its checker: they accept the same bytes, and the checker says what is remade. */
  predicate Fits<T>(s: Bytes, p: Parsed<T>, put: T -> Bytes, check: Parsed<bool>) {
    && (p.Ok? <==> check.Ok?)
    && (p.Ok? ==> check.rest == p.rest && Remakes(s, put(p.value), p.rest, check.value))
  }

  ghost predicate AllPlain<T>(put: T -> Bytes, get: Bytes -> Parsed<T>) {
    forall s :: Plain(s, get(s), put)
  }

  ghost predicate AllFit<T>(put: T -> Bytes, get: Bytes -> Parsed<T>, check: Bytes -> Parsed<bool>) {
    forall s :: Fits(s, get(s), put, check(s))
  }

  // ----- leaves -----

  lemma FixedPlain(s: Bytes, n: nat)
    ensures GetFixed(s, n).Ok? ==> Remakes(s, GetFixed(s, n).value, GetFixed(s, n).rest, true)
  {
    if |s| >= n {
      assert s[..n] + s[n..] == s;
    }
  }

  lemma NumberPlain(s: Bytes)
    ensures GetU64(s).Ok? ==> Remakes(s, PutU64(GetU64(s).value), GetU64(s).rest, true)
  {
    if |s| >= 8 {
      hide LittleEndian, FromLittleEndian;
      LittleEndianUnique(s[..8]);
      assert s[..8] + s[8..] == s;
    }
  }

  lemma WordPlain(s: Bytes)
    ensures Plain(s, GetWord(s), PutWord)
  {
    hide GetU64, PutU64, Remakes;
    NumberPlain(s);
  }

  lemma HashPlain(s: Bytes)
    ensures Plain(s, GetHash(s), PutHash)
  {
    FixedPlain(s, 32);
  }

  lemma BlobPlain(s: Bytes)
    ensures Plain(s, GetBlob(s), PutBlob)
  {
    hide GetU64, PutU64, GetFixed, Remakes;
    NumberPlain(s);
    var p := GetU64(s);
    if p.Ok? && p.value < TWO_63 {
      FixedPlain(p.rest, p.value);
      var q := GetFixed(p.rest, p.value);
      if q.Ok? {
        Compose(s, PutU64(p.value), p.rest, true, q.value, q.rest, true);
      }
    }
  }

  function CheckCurrency(s: Bytes): Parsed<bool> {
    var (b, rest) :- GetBlob(s);
    Ok(b == [] || b[0] != 0, rest)
  }

  lemma CurrencyFits(s: Bytes)
    ensures Fits(s, GetCurrency(s), PutCurrency, CheckCurrency(s))
  {
    hide GetBlob;
    BlobPlain(s);
    var p := GetBlob(s);
    if p.Ok? {
      CurrencyRemade(s, p.value, p.rest);
    }
  }

  lemma CurrencyRemade(s: Bytes, b: Blob, rest: Bytes)
    requires Remakes(s, PutBlob(b), rest, true)
    ensures var c := FromLittleEndian(Reversed(b));
      Remakes(s, CurrencyBytes.PutCurrency(c), rest, b == [] || b[0] != 0)
  {
    var c := FromLittleEndian(Reversed(b));
    hide FromLittleEndian, CurrencyBytes.Digits, PutU64;
    CurrencyBytes.DigitsShorter(b);
    CurrencyBytes.CurrencyReencodes(b, rest);
    PrefixedRoundTrip(b, rest);
    Cancel(CurrencyBytes.PutCurrency(c), PutBlob(b), rest);
  }

  lemma Cancel(a: Bytes, b: Bytes, rest: Bytes)
    ensures a + rest == b + rest <==> a == b
  {
    if a + rest == b + rest {
      assert (a + rest)[..|a|] == a && (b + rest)[..|b|] == b;
    }
  }

  // ----- lists -----

  function CheckEach(s: Bytes, n: nat, check: Bytes -> Parsed<bool>): Parsed<bool>
    decreases n
  {
    if n == 0 then Ok(true, s)
    else
      var (c, rest) :- check(s);
      var (cs, rest') :- CheckEach(rest, n - 1, check);
      Ok(c && cs, rest')
  }

  function CheckList(s: Bytes, check: Bytes -> Parsed<bool>): Parsed<bool> {
    var (n, rest) :- GetU64(s);
    if n >= TWO_63 then Fail else CheckEach(rest, n, check)
  }

  lemma NothingRemade(s: Bytes)
    ensures Remakes(s, [], s, true)
  {
    assert [] + s == s;
  }

  lemma {:induction false} EachFits<T>(s: Bytes, n: nat, put: T -> Bytes, get: Bytes -> Parsed<T>,
                                       check: Bytes -> Parsed<bool>)
    requires AllFit(put, get, check)
    ensures var p, c := GetEach(s, n, get), CheckEach(s, n, check);
      && (p.Ok? <==> c.Ok?)
      && (p.Ok? ==> c.rest == p.rest && Remakes(s, PutEach(p.value, put), p.rest, c.value))
    decreases n
  {
    hide Remakes;
    if n == 0 {
      NothingRemade(s);
    } else {
      var p := get(s);
      assert Fits(s, p, put, check(s));
      if p.Ok? {
        EachFits(p.rest, n - 1, put, get, check);
        var q := GetEach(p.rest, n - 1, get);
        if q.Ok? {
          Compose(s, put(p.value), p.rest, check(s).value, PutEach(q.value, put), q.rest,
            CheckEach(p.rest, n - 1, check).value);
          PutEachFirst(p.value, q.value, put);
        }
      }
    }
  }

  lemma PutEachFirst<T>(x: T, xs: seq<T>, put: T -> Bytes)
    ensures PutEach([x] + xs, put) == put(x) + PutEach(xs, put)
  {
    assert ([x] + xs)[1..] == xs;
  }

  lemma {:induction false} EachPlain<T>(s: Bytes, n: nat, put: T -> Bytes, get: Bytes -> Parsed<T>)
    requires AllPlain(put, get)
    ensures var p := GetEach(s, n, get); p.Ok? ==> Remakes(s, PutEach(p.value, put), p.rest, true)
    decreases n
  {
    hide Remakes;
    if n == 0 {
      NothingRemade(s);
    } else {
      var p := get(s);
      assert Plain(s, p, put);
      if p.Ok? {
        EachPlain(p.rest, n - 1, put, get);
        var q := GetEach(p.rest, n - 1, get);
        if q.Ok? {
          Compose(s, put(p.value), p.rest, true, PutEach(q.value, put), q.rest, true);
          PutEachFirst(p.value, q.value, put);
        }
      }
    }
  }

  lemma ListFits<T>(s: Bytes, put: T -> Bytes, get: Bytes -> Parsed<T>, check: Bytes -> Parsed<bool>)
    requires AllFit(put, get, check)
    ensures var p, c := GetList(s, get), CheckList(s, check);
      && (p.Ok? <==> c.Ok?)
      && (p.Ok? ==> c.rest == p.rest && Remakes(s, PutList(p.value, put), p.rest, c.value))
  {
    hide Remakes, GetU64, PutU64, GetEach, PutEach, CheckEach, AllFit;
    NumberPlain(s);
    var p := GetU64(s);
    if p.Ok? && p.value < TWO_63 {
      EachFits(p.rest, p.value, put, get, check);
      var q := GetEach(p.rest, p.value, get);
      if q.Ok? {
        Compose(s, PutU64(p.value), p.rest, true, PutEach(q.value, put), q.rest,
          CheckEach(p.rest, p.value, check).value);
      }
    }
  }

  lemma ListPlain<T>(s: Bytes, put: T -> Bytes, get: Bytes -> Parsed<T>)
    requires AllPlain(put, get)
    ensures var p := GetList(s, get); p.Ok? ==> Remakes(s, PutList(p.value, put), p.rest, true)
  {
    hide Remakes, GetU64, PutU64, GetEach, PutEach, AllPlain;
    NumberPlain(s);
    var p := GetU64(s);
    if p.Ok? && p.value < TWO_63 {
      EachPlain(p.rest, p.value, put, get);
      var q := GetEach(p.rest, p.value, get);
      if q.Ok? {
        Compose(s, PutU64(p.value), p.rest, true, PutEach(q.value, put), q.rest, true);
      }
    }
  }

  lemma WordsPlain()
    ensures AllPlain(PutWord, GetWord)
  {
    forall s
      ensures Plain(s, GetWord(s), PutWord)
    {
      WordPlain(s);
    }
  }

  lemma HashesPlain()
    ensures AllPlain(PutHash, GetHash)
  {
    forall s
      ensures Plain(s, GetHash(s), PutHash)
    {
      HashPlain(s);
    }
  }

  lemma BlobsPlain()
    ensures AllPlain(PutBlob, GetBlob)
  {
    forall s
      ensures Plain(s, GetBlob(s), PutBlob)
    {
      BlobPlain(s);
    }
  }

  lemma FieldsPlain()
    ensures AllPlain(PutField, GetField)
  {
    hide GetList, PutList, GetWord, PutWord, Remakes;
    WordsPlain();
    forall s
      ensures Plain(s, GetField(s), PutField)
    {
      ListPlain(s, PutWord, GetWord);
    }
  }

  lemma CurrenciesFit()
    ensures AllFit(PutCurrency, GetCurrency, CheckCurrency)
  {
    forall s
      ensures Fits(s, GetCurrency(s), PutCurrency, CheckCurrency(s))
    {
      CurrencyFits(s);
    }
  }

  // ----- one part behind the other -----

  /** How far a decoder has come: what is written for the bytes it has read, the bytes it has left,
      and whether what is written is what was read. */
  datatype Progress = Progress(written: Bytes, rest: Bytes, canonical: bool)
  {
    function Then(part: Bytes, rest: Bytes, canonical: bool): (next: Progress)
      ensures written == [] ==> next.written == part
    {
      Progress(written + part, rest, this.canonical && canonical)
    }
  }

  predicate Reaches(s: Bytes, at: Progress) { Remakes(s, at.written, at.rest, at.canonical) }

  /** If the next part is remade, the decoder has come that much further. */
  lemma Then(s: Bytes, at: Progress, part: Bytes, rest: Bytes, canonical: bool)
    requires Reaches(s, at) && Remakes(at.rest, part, rest, canonical)
    ensures Reaches(s, at.Then(part, rest, canonical))
  {
    Compose(s, at.written, at.rest, at.canonical, part, rest, canonical);
  }

  lemma Begin(s: Bytes) returns (at: Progress)
    ensures at == Progress([], s, true) && Reaches(s, at)
  {
    at := Progress([], s, true);
    NothingRemade(s);
  }

  lemma FixedPart(s: Bytes, at: Progress, n: nat) returns (p: Parsed<Bytes>, next: Progress)
    requires Reaches(s, at)
    ensures p == GetFixed(at.rest, n)
    ensures p.Ok? ==> next == at.Then(p.value, p.rest, true) && Reaches(s, next)
  {
    hide GetFixed, Remakes, Reaches;
    p, next := GetFixed(at.rest, n), at;
    FixedPlain(at.rest, n);
    if p.Ok? {
      next := at.Then(p.value, p.rest, true);
      Then(s, at, p.value, p.rest, true);
    }
  }

  lemma PlainPart<T>(s: Bytes, at: Progress, put: T -> Bytes, get: Bytes -> Parsed<T>)
    returns (p: Parsed<T>, next: Progress)
    requires Reaches(s, at) && AllPlain(put, get)
    ensures p == get(at.rest)
    ensures p.Ok? ==> next == at.Then(put(p.value), p.rest, true) && Reaches(s, next)
  {
    hide Remakes, Reaches;
    p, next := get(at.rest), at;
    assert Plain(at.rest, p, put);
    if p.Ok? {
      next := at.Then(put(p.value), p.rest, true);
      Then(s, at, put(p.value), p.rest, true);
    }
  }

  lemma FitPart<T>(s: Bytes, at: Progress, put: T -> Bytes, get: Bytes -> Parsed<T>, check: Bytes -> Parsed<bool>)
    returns (p: Parsed<T>, next: Progress)
    requires Reaches(s, at) && AllFit(put, get, check)
    ensures p == get(at.rest) && (p.Ok? <==> check(at.rest).Ok?)
    ensures p.Ok? ==>
      && check(at.rest).rest == p.rest
      && next == at.Then(put(p.value), p.rest, check(at.rest).value) && Reaches(s, next)
  {
    hide Remakes, Reaches;
    p, next := get(at.rest), at;
    assert Fits(at.rest, p, put, check(at.rest));
    if p.Ok? {
      next := at.Then(put(p.value), p.rest, check(at.rest).value);
      Then(s, at, put(p.value), p.rest, check(at.rest).value);
    }
  }

  lemma PlainList<T>(s: Bytes, at: Progress, put: T -> Bytes, get: Bytes -> Parsed<T>)
    returns (p: Parsed<seq<T>>, next: Progress)
    requires Reaches(s, at) && AllPlain(put, get)
    ensures p == GetList(at.rest, get)
    ensures p.Ok? ==> next == at.Then(PutList(p.value, put), p.rest, true) && Reaches(s, next)
  {
    hide Remakes, Reaches, GetList, PutList, AllPlain;
    p, next := GetList(at.rest, get), at;
    ListPlain(at.rest, put, get);
    if p.Ok? {
      next := at.Then(PutList(p.value, put), p.rest, true);
      Then(s, at, PutList(p.value, put), p.rest, true);
    }
  }

  lemma FitList<T>(s: Bytes, at: Progress, put: T -> Bytes, get: Bytes -> Parsed<T>, check: Bytes -> Parsed<bool>)
    returns (p: Parsed<seq<T>>, next: Progress)
    requires Reaches(s, at) && AllFit(put, get, check)
    ensures p == GetList(at.rest, get) && (p.Ok? <==> CheckList(at.rest, check).Ok?)
    ensures p.Ok? ==>
      && CheckList(at.rest, check).rest == p.rest
      && next == at.Then(PutList(p.value, put), p.rest, CheckList(at.rest, check).value) && Reaches(s, next)
  {
    hide Remakes, Reaches, GetList, PutList, CheckList, AllFit;
    p, next := GetList(at.rest, get), at;
    ListFits(at.rest, put, get, check);
    if p.Ok? {
      next := at.Then(PutList(p.value, put), p.rest, CheckList(at.rest, check).value);
      Then(s, at, PutList(p.value, put), p.rest, CheckList(at.rest, check).value);
    }
  }

  // ----- structures -----

  lemma KeyPlain(s: Bytes)
    ensures Plain(s, GetKey(s), PutKey)
  {
    hide AllFit, AllPlain, GetBlob, GetFixed, PutBlob, Remakes;
    BlobsPlain();
    var at0 := Begin(s);
    var p0, at1 := FixedPart(s, at0, 16);
    if p0.Fail? { return; }
    var p1, at2 := PlainPart(s, at1, PutBlob, GetBlob);
  }

  lemma KeysPlain()
    ensures AllPlain(PutKey, GetKey)
  {
    forall s
      ensures Plain(s, GetKey(s), PutKey)
    {
      KeyPlain(s);
    }
  }

  lemma ConditionsPlain(s: Bytes)
    ensures Plain(s, GetConditions(s), PutConditions)
  {
    hide AllFit, AllPlain, GetKey, GetList, GetWord, PutKey, PutList, PutWord, Remakes;
    WordsPlain();
    KeysPlain();
    var at0 := Begin(s);
    var p0, at1 := PlainPart(s, at0, PutWord, GetWord);
    if p0.Fail? { return; }
    var p1, at2 := PlainList(s, at1, PutKey, GetKey);
    if p1.Fail? { return; }
    var p2, at3 := PlainPart(s, at2, PutWord, GetWord);
  }

  lemma ConditionsAllPlain()
    ensures AllPlain(PutConditions, GetConditions)
  {
    forall s
      ensures Plain(s, GetConditions(s), PutConditions)
    {
      ConditionsPlain(s);
    }
  }

  lemma InputPlain(s: Bytes)
    ensures Plain(s, GetInput(s), PutInput)
  {
    hide AllFit, AllPlain, GetConditions, GetFixed, PutConditions, Remakes;
    ConditionsAllPlain();
    var at0 := Begin(s);
    var p0, at1 := FixedPart(s, at0, 32);
    if p0.Fail? { return; }
    var p1, at2 := PlainPart(s, at1, PutConditions, GetConditions);
  }

  lemma InputsPlain()
    ensures AllPlain(PutInput, GetInput)
  {
    forall s
      ensures Plain(s, GetInput(s), PutInput)
    {
      InputPlain(s);
    }
  }

  function CheckOutput(s: Bytes): Parsed<bool> {
    var (c0, s) :- CheckCurrency(s);
    var (_, s) :- GetFixed(s, 32);
    Ok(c0, s)
  }

  lemma OutputFits(s: Bytes)
    ensures Fits(s, GetOutput(s), PutOutput, CheckOutput(s))
  {
    hide AllFit, AllPlain, CheckCurrency, GetCurrency, GetFixed, PutCurrency, Remakes;
    CurrenciesFit();
    var at0 := Begin(s);
    var p0, at1 := FitPart(s, at0, PutCurrency, GetCurrency, CheckCurrency);
    if p0.Fail? { return; }
    var p1, at2 := FixedPart(s, at1, 32);
  }

  lemma OutputsFit()
    ensures AllFit(PutOutput, GetOutput, CheckOutput)
  {
    forall s
      ensures Fits(s, GetOutput(s), PutOutput, CheckOutput(s))
    {
      OutputFits(s);
    }
  }

  lemma FundInputPlain(s: Bytes)
    ensures Plain(s, GetFundInput(s), PutFundInput)
  {
    hide AllFit, AllPlain, GetConditions, GetFixed, PutConditions, Remakes;
    ConditionsAllPlain();
    var at0 := Begin(s);
    var p0, at1 := FixedPart(s, at0, 32);
    if p0.Fail? { return; }
    var p1, at2 := PlainPart(s, at1, PutConditions, GetConditions);
    if p1.Fail? { return; }
    var p2, at3 := FixedPart(s, at2, 32);
  }

  lemma FundInputsPlain()
    ensures AllPlain(PutFundInput, GetFundInput)
  {
    forall s
      ensures Plain(s, GetFundInput(s), PutFundInput)
    {
      FundInputPlain(s);
    }
  }

  function CheckFundOutput(s: Bytes): Parsed<bool> {
    var (c0, s) :- CheckCurrency(s);
    var (_, s) :- GetFixed(s, 32);
    var (c2, s) :- CheckCurrency(s);
    Ok(c0 && c2, s)
  }

  lemma FundOutputFits(s: Bytes)
    ensures Fits(s, GetFundOutput(s), PutFundOutput, CheckFundOutput(s))
  {
    hide AllFit, AllPlain, CheckCurrency, GetCurrency, GetFixed, PutCurrency, Remakes;
    CurrenciesFit();
    var at0 := Begin(s);
    var p0, at1 := FitPart(s, at0, PutCurrency, GetCurrency, CheckCurrency);
    if p0.Fail? { return; }
    var p1, at2 := FixedPart(s, at1, 32);
    if p1.Fail? { return; }
    var p2, at3 := FitPart(s, at2, PutCurrency, GetCurrency, CheckCurrency);
  }

  lemma FundOutputsFit()
    ensures AllFit(PutFundOutput, GetFundOutput, CheckFundOutput)
  {
    forall s
      ensures Fits(s, GetFundOutput(s), PutFundOutput, CheckFundOutput(s))
    {
      FundOutputFits(s);
    }
  }

  function CheckContract(s: Bytes): Parsed<bool> {
    var (_, s) :- GetWord(s);
    var (_, s) :- GetFixed(s, 32);
    var (_, s) :- GetWord(s);
    var (_, s) :- GetWord(s);
    var (c4, s) :- CheckCurrency(s);
    var (c5, s) :- CheckList(s, CheckOutput);
    var (c6, s) :- CheckList(s, CheckOutput);
    var (_, s) :- GetFixed(s, 32);
    var (_, s) :- GetWord(s);
    Ok(c4 && c5 && c6, s)
  }

  lemma ContractFits(s: Bytes)
    ensures Fits(s, GetContract(s), PutContract, CheckContract(s))
  {
    hide AllFit, AllPlain, CheckCurrency, CheckList, CheckOutput, GetCurrency, GetFixed, GetList, GetOutput, GetWord,
      PutCurrency, PutList, PutOutput, PutWord, Remakes;
    WordsPlain();
    CurrenciesFit();
    OutputsFit();
    var at0 := Begin(s);
    var p0, at1 := PlainPart(s, at0, PutWord, GetWord);
    if p0.Fail? { return; }
    var p1, at2 := FixedPart(s, at1, 32);
    if p1.Fail? { return; }
    var p2, at3 := PlainPart(s, at2, PutWord, GetWord);
    if p2.Fail? { return; }
    var p3, at4 := PlainPart(s, at3, PutWord, GetWord);
    if p3.Fail? { return; }
    var p4, at5 := FitPart(s, at4, PutCurrency, GetCurrency, CheckCurrency);
    if p4.Fail? { return; }
    var p5, at6 := FitList(s, at5, PutOutput, GetOutput, CheckOutput);
    if p5.Fail? { return; }
    var p6, at7 := FitList(s, at6, PutOutput, GetOutput, CheckOutput);
    if p6.Fail? { return; }
    var p7, at8 := FixedPart(s, at7, 32);
    if p7.Fail? { return; }
    var p8, at9 := PlainPart(s, at8, PutWord, GetWord);
  }

  lemma ContractsFit()
    ensures AllFit(PutContract, GetContract, CheckContract)
  {
    forall s
      ensures Fits(s, GetContract(s), PutContract, CheckContract(s))
    {
      ContractFits(s);
    }
  }

  function CheckRevision(s: Bytes): Parsed<bool> {
    var (_, s) :- GetFixed(s, 32);
    var (_, s) :- GetConditions(s);
    var (_, s) :- GetWord(s);
    var (_, s) :- GetWord(s);
    var (_, s) :- GetFixed(s, 32);
    var (_, s) :- GetWord(s);
    var (_, s) :- GetWord(s);
    var (c7, s) :- CheckList(s, CheckOutput);
    var (c8, s) :- CheckList(s, CheckOutput);
    var (_, s) :- GetFixed(s, 32);
    Ok(c7 && c8, s)
  }

  lemma RevisionFits(s: Bytes)
    ensures Fits(s, GetRevision(s), PutRevision, CheckRevision(s))
  {
    hide AllFit, AllPlain, CheckList, CheckOutput, GetConditions, GetFixed, GetList, GetOutput, GetWord, PutConditions,
      PutList, PutOutput, PutWord, Remakes;
    ConditionsAllPlain();
    WordsPlain();
    OutputsFit();
    var at0 := Begin(s);
    var p0, at1 := FixedPart(s, at0, 32);
    if p0.Fail? { return; }
    var p1, at2 := PlainPart(s, at1, PutConditions, GetConditions);
    if p1.Fail? { return; }
    var p2, at3 := PlainPart(s, at2, PutWord, GetWord);
    if p2.Fail? { return; }
    var p3, at4 := PlainPart(s, at3, PutWord, GetWord);
    if p3.Fail? { return; }
    var p4, at5 := FixedPart(s, at4, 32);
    if p4.Fail? { return; }
    var p5, at6 := PlainPart(s, at5, PutWord, GetWord);
    if p5.Fail? { return; }
    var p6, at7 := PlainPart(s, at6, PutWord, GetWord);
    if p6.Fail? { return; }
    var p7, at8 := FitList(s, at7, PutOutput, GetOutput, CheckOutput);
    if p7.Fail? { return; }
    var p8, at9 := FitList(s, at8, PutOutput, GetOutput, CheckOutput);
    if p8.Fail? { return; }
    var p9, at10 := FixedPart(s, at9, 32);
  }

  lemma RevisionsFit()
    ensures AllFit(PutRevision, GetRevision, CheckRevision)
  {
    forall s
      ensures Fits(s, GetRevision(s), PutRevision, CheckRevision(s))
    {
      RevisionFits(s);
    }
  }

  lemma ProofPlain(s: Bytes)
    ensures Plain(s, GetProof(s), PutProof)
  {
    hide AllFit, AllPlain, GetFixed, GetHash, GetList, PutHash, PutList, Remakes;
    HashesPlain();
    var at0 := Begin(s);
    var p0, at1 := FixedPart(s, at0, 32);
    if p0.Fail? { return; }
    var p1, at2 := FixedPart(s, at1, 64);
    if p1.Fail? { return; }
    var p2, at3 := PlainList(s, at2, PutHash, GetHash);
  }

  lemma ProofsPlain()
    ensures AllPlain(PutProof, GetProof)
  {
    forall s
      ensures Plain(s, GetProof(s), PutProof)
    {
      ProofPlain(s);
    }
  }

  /** A flag byte is 1 for true; every other byte is taken for false, but only 0 is written for it. */
  function CheckCovered(s: Bytes): Parsed<bool> {
    var (b, s) :- GetFixed(s, 1);
    var (_, s) :- GetEach(s, 10, GetField);
    Ok(b[0] <= 1, s)
  }

  lemma CoveredFits(s: Bytes)
    ensures Fits(s, GetCovered(s), PutCovered, CheckCovered(s))
  {
    hide GetEach, PutEach, GetField, PutField, Remakes;
    FlagFits(s);
    var p0 := GetFixed(s, 1);
    if p0.Ok? {
      var s1 := p0.rest;
      FieldsPlain();
      EachPlain(s1, 10, PutField, GetField);
      var p1 := GetEach(s1, 10, GetField);
      if p1.Ok? {
        var flag: Bytes := [if p0.value[0] == 1 then 1 else 0];
        Compose(s, flag, s1, p0.value[0] <= 1, PutEach(p1.value, PutField), p1.rest, true);
        assert Fields(GetCovered(s).value) == p1.value;
      }
    }
  }

  lemma FlagFits(s: Bytes)
    ensures GetFixed(s, 1).Ok? ==>
      var p := GetFixed(s, 1); Remakes(s, [if p.value[0] == 1 then 1 else 0], p.rest, p.value[0] <= 1)
  {
    if |s| >= 1 {
      assert s == [s[0]] + s[1..];
      if s[0] > 1 {
        assert ([0] + s[1..])[0] == 0;
      }
    }
  }

  lemma CoveredAllFit()
    ensures AllFit(PutCovered, GetCovered, CheckCovered)
  {
    forall s
      ensures Fits(s, GetCovered(s), PutCovered, CheckCovered(s))
    {
      CoveredFits(s);
    }
  }

  function CheckSignature(s: Bytes): Parsed<bool> {
    var (_, s) :- GetFixed(s, 32);
    var (_, s) :- GetWord(s);
    var (_, s) :- GetWord(s);
    var (c3, s) :- CheckCovered(s);
    var (_, s) :- GetBlob(s);
    Ok(c3, s)
  }

  lemma SignatureFits(s: Bytes)
    ensures Fits(s, GetSignature(s), PutSignature, CheckSignature(s))
  {
    hide AllFit, AllPlain, CheckCovered, GetBlob, GetCovered, GetFixed, GetWord, PutBlob, PutCovered, PutWord, Remakes;
    WordsPlain();
    CoveredAllFit();
    BlobsPlain();
    var at0 := Begin(s);
    var p0, at1 := FixedPart(s, at0, 32);
    if p0.Fail? { return; }
    var p1, at2 := PlainPart(s, at1, PutWord, GetWord);
    if p1.Fail? { return; }
    var p2, at3 := PlainPart(s, at2, PutWord, GetWord);
    if p2.Fail? { return; }
    var p3, at4 := FitPart(s, at3, PutCovered, GetCovered, CheckCovered);
    if p3.Fail? { return; }
    var p4, at5 := PlainPart(s, at4, PutBlob, GetBlob);
  }

  lemma SignaturesFit()
    ensures AllFit(PutSignature, GetSignature, CheckSignature)
  {
    forall s
      ensures Fits(s, GetSignature(s), PutSignature, CheckSignature(s))
    {
      SignatureFits(s);
    }
  }

  function CheckTransaction(s: Bytes): Parsed<bool> {
    var (_, s) :- GetList(s, GetInput);
    var (c1, s) :- CheckList(s, CheckOutput);
    var (c2, s) :- CheckList(s, CheckContract);
    var (c3, s) :- CheckList(s, CheckRevision);
    var (_, s) :- GetList(s, GetProof);
    var (_, s) :- GetList(s, GetFundInput);
    var (c6, s) :- CheckList(s, CheckFundOutput);
    var (c7, s) :- CheckList(s, CheckCurrency);
    var (_, s) :- GetList(s, GetBlob);
    var (c9, s) :- CheckList(s, CheckSignature);
    Ok(c1 && c2 && c3 && c6 && c7 && c9, s)
  }

  lemma TransactionFits(s: Bytes)
    ensures Fits(s, GetTransaction(s), PutTransaction, CheckTransaction(s))
  {
    hide AllFit, AllPlain, CheckContract, CheckCurrency, CheckFundOutput, CheckList, CheckOutput, CheckRevision,
      CheckSignature, GetBlob, GetContract, GetCurrency, GetFundInput, GetFundOutput, GetInput, GetList, GetOutput,
      GetProof, GetRevision, GetSignature, PutBlob, PutContract, PutCurrency, PutFundInput, PutFundOutput, PutInput,
      PutList, PutOutput, PutProof, PutRevision, PutSignature, Remakes;
    InputsPlain();
    OutputsFit();
    ContractsFit();
    RevisionsFit();
    ProofsPlain();
    FundInputsPlain();
    FundOutputsFit();
    CurrenciesFit();
    BlobsPlain();
    SignaturesFit();
    var at0 := Begin(s);
    var p0, at1 := PlainList(s, at0, PutInput, GetInput);
    if p0.Fail? { return; }
    var p1, at2 := FitList(s, at1, PutOutput, GetOutput, CheckOutput);
    if p1.Fail? { return; }
    var p2, at3 := FitList(s, at2, PutContract, GetContract, CheckContract);
    if p2.Fail? { return; }
    var p3, at4 := FitList(s, at3, PutRevision, GetRevision, CheckRevision);
    if p3.Fail? { return; }
    var p4, at5 := PlainList(s, at4, PutProof, GetProof);
    if p4.Fail? { return; }
    var p5, at6 := PlainList(s, at5, PutFundInput, GetFundInput);
    if p5.Fail? { return; }
    var p6, at7 := FitList(s, at6, PutFundOutput, GetFundOutput, CheckFundOutput);
    if p6.Fail? { return; }
    var p7, at8 := FitList(s, at7, PutCurrency, GetCurrency, CheckCurrency);
    if p7.Fail? { return; }
    var p8, at9 := PlainList(s, at8, PutBlob, GetBlob);
    if p8.Fail? { return; }
    var p9, at10 := FitList(s, at9, PutSignature, GetSignature, CheckSignature);
  }

  lemma TransactionsFit()
    ensures AllFit(PutTransaction, GetTransaction, CheckTransaction)
  {
    forall s
      ensures Fits(s, GetTransaction(s), PutTransaction, CheckTransaction(s))
    {
      TransactionFits(s);
    }
  }

  function CheckBlock(s: Bytes): Parsed<bool> {
    var (_, s) :- GetFixed(s, 32);
    var (_, s) :- GetFixed(s, 8);
    var (_, s) :- GetWord(s);
    var (c3, s) :- CheckList(s, CheckOutput);
    var (c4, s) :- CheckList(s, CheckTransaction);
    Ok(c3 && c4, s)
  }

  lemma BlockFits(s: Bytes)
    ensures Fits(s, GetBlock(s), PutBlock, CheckBlock(s))
  {
    hide AllFit, AllPlain, CheckList, CheckOutput, CheckTransaction, GetFixed, GetList, GetOutput, GetTransaction,
      GetWord, PutList, PutOutput, PutTransaction, PutWord, Remakes;
    WordsPlain();
    OutputsFit();
    TransactionsFit();
    var at0 := Begin(s);
    var p0, at1 := FixedPart(s, at0, 32);
    if p0.Fail? { return; }
    var p1, at2 := FixedPart(s, at1, 8);
    if p1.Fail? { return; }
    var p2, at3 := PlainPart(s, at2, PutWord, GetWord);
    if p2.Fail? { return; }
    var p3, at4 := FitList(s, at3, PutOutput, GetOutput, CheckOutput);
    if p3.Fail? { return; }
    var p4, at5 := FitList(s, at4, PutTransaction, GetTransaction, CheckTransaction);
  }

  // ----- what is remade -----

  /** Re-encoding decoded covered fields gives the bytes back if and only if the flag byte is 0 or 1. */
  lemma CoveredReencodes(s: Bytes)
    ensures var p := GetCovered(s); p.Ok? ==> |s| > 0 && (PutCovered(p.value) + p.rest == s <==> s[0] <= 1)
  {
    hide GetEach, PutCovered, GetField;
    CoveredFits(s);
  }

  /** Accepted covered fields that are not remade: a flag byte of 2 and ten empty lists. */
  lemma FlagTwo()
    ensures var s := [2] + Zeros(80);
      GetCovered(s).Ok? && GetCovered(s).rest == [] && PutCovered(GetCovered(s).value) != s
  {
    var s: Bytes := [2] + Zeros(80);
    EmptyFields(Zeros(80), 10);
    assert s[1..] == Zeros(80);
    CoveredReencodes(s);
    assert GetCovered(s).Ok?;
    assert PutCovered(GetCovered(s).value) + [] == PutCovered(GetCovered(s).value);
  }

  /** An accepted currency that is not remade: one zero byte for nothing at all. */
  lemma LeadingZero()
    ensures var s := PutU64(1) + [0]; GetCurrency(s) == Ok(0, []) && PutCurrency(0) != s
  {
    var zero: Bytes := [0];
    var s := PutU64(1) + zero;
    hide PutU64, GetU64, GetBlob;
    BlobCodec(zero, []);
    assert PutBlob(zero) + [] == s;
    assert Reversed(zero) == zero && zero[1..] == [] && FromLittleEndian(zero) == 0;
    CurrencyCodec(0, []);
    assert |PutCurrency(0)| == 8 && |s| == 9;
  }

  lemma {:induction false} EmptyFields(s: Bytes, n: nat)
    requires s == Zeros(8 * n)
    ensures GetEach(s, n, GetField).Ok? && GetEach(s, n, GetField).rest == []
    decreases n
  {
    if n > 0 {
      assert s[..8] == [0, 0, 0, 0, 0, 0, 0, 0];
      ZeroNumber(s[..8]);
      assert s[8..] == Zeros(8 * (n - 1));
      EmptyFields(s[8..], n - 1);
    }
  }

  lemma {:induction false} ZeroNumber(s: Bytes)
    requires forall i :: 0 <= i < |s| ==> s[i] == 0
    ensures FromLittleEndian(s) == 0
  {
    if s != [] {
      ZeroNumber(s[1..]);
    }
  }

  /** A transaction decoded from any bytes encodes back to those bytes if and only if every currency
      in them is without a leading zero byte and every flag byte is 0 or 1. */
  lemma TransactionReencodes(s: Bytes)
    ensures GetTransaction(s).Ok? <==> CheckTransaction(s).Ok?
    ensures var p := GetTransaction(s); p.Ok? ==>
      (PutTransaction(p.value) + p.rest == s <==> CheckTransaction(s).value)
  {
    hide GetTransaction, CheckTransaction, PutTransaction;
    TransactionFits(s);
  }

  /** The same for blocks. */
  lemma BlockReencodes(s: Bytes)
    ensures GetBlock(s).Ok? <==> CheckBlock(s).Ok?
    ensures var p := GetBlock(s); p.Ok? ==> (PutBlock(p.value) + p.rest == s <==> CheckBlock(s).value)
  {
    hide GetBlock, CheckBlock, PutBlock;
    BlockFits(s);
  }

  /** Of all bytes that decode to one transaction, the encoding is the shortest. */
  lemma EncodingIsShortest(s: Bytes)
    ensures var p := GetTransaction(s); p.Ok? ==> |PutTransaction(p.value)| + |p.rest| <= |s|
  {
    hide GetTransaction, CheckTransaction, PutTransaction;
    TransactionFits(s);
  }
}
