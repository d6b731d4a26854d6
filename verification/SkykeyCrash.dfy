/** Crashes while the skykey manager appends a key to its file. */
module SkykeyCrash {
  import opened Wire
  import opened CrashDisk
  import opened LengthLog
  import opened SkykeyFormat
  import opened SkykeyStore

  function SkykeyLog(): Layout { Layout(MAGIC + VERSION, HEADER_LEN) }

  lemma FillStep(l: Layout, versions: seq<Bytes>, data: Bytes, done: Bytes, chunk: Bytes) returns (next: Bytes)
    requires l.Valid() && Steady(l, versions, data) && l.Stores(versions[|versions| - 1], data + done)
    ensures next == Overwrite(versions[|versions| - 1], l.base + |data + done|, chunk)
    ensures Steady(l, versions + [next], data) && l.Stores(next, data + (done + chunk))
  {
    hide Overwrite, Layout.HeaderFor, Layout.Stores;
    var off := l.base + |data + done|;
    var last := versions[|versions| - 1];
    next := Overwrite(last, off, chunk);
    AppendKeeps(l, last, data, off, chunk);
    AppendStores(l, last, data + done, chunk);
    assert data + done + chunk == data + (done + chunk);
  }

  /** While the record is written the old log stays intact, and in the end its bytes are in place. */
  lemma {:induction false} FillKeeps(l: Layout, versions: seq<Bytes>, data: Bytes, done: Bytes, chunks: seq<Bytes>)
    requires l.Valid() && Steady(l, versions, data) && l.Stores(versions[|versions| - 1], data + done)
    ensures var ms := FillMoments(versions, l.base + |data + done|, chunks);
      && (forall k :: 0 <= k < |ms| ==> Steady(l, ms[k], data))
      && l.Holds(LastOf(versions, ms), data)
      && l.Stores(LastOf(versions, ms), data + done + Concat(chunks))
    decreases chunks
  {
    hide Overwrite, Steady, Layout.Holds, Layout.HeaderFor, Layout.Stores;
    SteadyLast(l, versions, data);
    if chunks == [] {
      assert data + done + Concat(chunks) == data + done;
    } else {
      var off := l.base + |data + done|;
      var next := FillStep(l, versions, data, done, chunks[0]);
      FillKeeps(l, versions + [next], data, done + chunks[0], chunks[1..]);
      assert data + (done + chunks[0]) + Concat(chunks[1..]) == data + done + Concat(chunks);
      var rest := FillMoments(versions + [next], off + |chunks[0]|, chunks[1..]);
      assert off + |chunks[0]| == l.base + |data + (done + chunks[0])|;
      FillFirst(versions, off, chunks);
    }
  }

  /** Rewriting bytes of the header with what is there changes nothing. */
  lemma HeaderRewritten(l: Layout, file: Bytes, data: Bytes, stored: Bytes, off: nat, bytes: Bytes)
    requires l.Valid() && l.HeaderFor(file, data) && l.Stores(file, stored)
    requires off + |bytes| <= HEADER_LEN && file[off..off + |bytes|] == bytes
    ensures l.HeaderFor(Overwrite(file, off, bytes), data) && l.Stores(Overwrite(file, off, bytes), stored)
  {
    hide Overwrite, PutU64;
    HeaderWriteKeeps(l, file, stored, off, bytes);
    var h := file[..HEADER_LEN];
    assert h == h[..off] + file[off..off + |bytes|] + h[off + |bytes|..];
  }

  lemma SpecifiersAt(file: Bytes, data: Bytes)
    requires SkykeyLog().HeaderFor(file, data)
    ensures file[0..16] == MAGIC && file[16..32] == VERSION
  {
    hide PutU64;
    var h := file[..HEADER_LEN];
    assert file[0..16] == h[..16] && file[16..32] == h[16..32];
  }

  lemma HeaderSurvives(w: Bytes, data: Bytes, more: Bytes)
    requires SkykeyLog().Holds(w, data) && SkykeyLog().Stores(w, data + more)
    ensures var ms := HeaderMoments([w], VERSION, HEADER_LEN + |data + more|);
      && (forall vs :: vs in ms ==> Survives(SkykeyLog(), vs, data, more))
      && Steady(SkykeyLog(), ms[3], data + more)
  {
    hide Overwrite, PutU64, Survives, Layout.HeaderFor, Layout.Stores;
    var l := SkykeyLog();
    SpecifiersAt(w, data);
    HeaderRewritten(l, w, data, data + more, 0, MAGIC);
    var h1 := Overwrite(w, 0, MAGIC);
    SpecifiersAt(h1, data);
    HeaderRewritten(l, h1, data, data + more, 16, VERSION);
    var h2 := Overwrite(h1, 16, VERSION);
    LengthWritten(l, h2, data, more);
    var h3 := Overwrite(h2, 32, PutU64(HEADER_LEN + |data + more|));
    CommittingSurvives(l, [w] + [h1], data, more);
    CommittingSurvives(l, [w] + [h1] + [h2], data, more);
    CommittingSurvives(l, [w] + [h1] + [h2] + [h3], data, more);
    CommittingSurvives(l, [h3], data, more);
  }

  /** The moments up to the first sync: the old log is all there is, and the record is in place. */
  lemma FillSurvives(versions: seq<Bytes>, data: Bytes, chunks: seq<Bytes>)
    requires Steady(SkykeyLog(), versions, data)
    ensures var fill := FillMoments(versions, HEADER_LEN + |data|, chunks);
      var w := LastOf(versions, fill);
      && (forall vs :: vs in fill ==> Survives(SkykeyLog(), vs, data, Concat(chunks)))
      && Survives(SkykeyLog(), [w], data, Concat(chunks))
      && SkykeyLog().Holds(w, data) && SkykeyLog().Stores(w, data + Concat(chunks))
  {
    hide Overwrite, PutU64, Survives, Steady, FillMoments, LastOf, Layout.Holds, Layout.Stores;
    var l := SkykeyLog();
    assert data + [] == data;
    SteadyLast(l, versions, data);
    FillKeeps(l, versions, data, [], chunks);
    var fill := FillMoments(versions, HEADER_LEN + |data|, chunks);
    forall vs | vs in fill
      ensures Survives(l, vs, data, Concat(chunks))
    {
      SteadySurvives(l, vs, data, Concat(chunks));
    }
    var w := LastOf(versions, fill);
    SteadyOne(l, w, data);
    SteadySurvives(l, [w], data, Concat(chunks));
  }

  /** Wherever in saveKey a crash strikes, and however the encoder cuts the record into writes,
      the file holds the old records, or the old records and all of the new one. */
  lemma SaveSurvives(versions: seq<Bytes>, data: Bytes, chunks: seq<Bytes>)
    requires Steady(SkykeyLog(), versions, data)
    ensures var ms := SaveMoments(versions, HEADER_LEN + |data|, chunks);
      && (forall vs :: vs in ms ==> Survives(SkykeyLog(), vs, data, Concat(chunks)))
      && Steady(SkykeyLog(), ms[|ms| - 1], data + Concat(chunks))
  {
    hide FillMoments, LastOf, HeaderMoments, SaveMoments, Survives, Steady, Concat, Layout.Holds, Layout.Stores;
    SteadyLast(SkykeyLog(), versions, data);
    var fill := FillMoments(versions, HEADER_LEN + |data|, chunks);
    var w := LastOf(versions, fill);
    FillSurvives(versions, data, chunks);
    HeaderSurvives(w, data, Concat(chunks));
    SaveMomentsAre(versions, data, chunks);
  }

  lemma SaveMomentsAre(versions: seq<Bytes>, data: Bytes, chunks: seq<Bytes>)
    requires |versions| > 0
    ensures var ms := SaveMoments(versions, HEADER_LEN + |data|, chunks);
      var fill := FillMoments(versions, HEADER_LEN + |data|, chunks);
      var w := LastOf(versions, fill);
      var header := HeaderMoments([w], VERSION, HEADER_LEN + |data + Concat(chunks)|);
      && (forall vs :: vs in ms <==> vs in fill || vs == [w] || vs in header)
      && |header| == 4 && |ms| > 0 && ms[|ms| - 1] == header[3]
  {
    hide FillMoments, LastOf, Overwrite, PutU64, Concat;
    assert |data + Concat(chunks)| == |data| + |Concat(chunks)|;
  }

  lemma SteadyOne(l: Layout, file: Bytes, data: Bytes)
    requires l.Holds(file, data)
    ensures Steady(l, [file], data)
  {
  }

  lemma SteadyLast(l: Layout, versions: seq<Bytes>, data: Bytes)
    requires Steady(l, versions, data)
    ensures |versions| > 0 && l.Holds(versions[|versions| - 1], data)
  {
  }

  /** The manager's notion of a file and the log's are the same. */
  lemma LogIsFile(file: Bytes, rs: seq<Record>)
    requires AllWellFormed(rs) && HEADER_LEN + |Flatten(rs)| < TWO_64
    ensures SkykeyLog().Holds(file, Flatten(rs)) <==> FileHolds(file, HEADER_LEN + |Flatten(rs)|, rs)
  {
    hide PutU64, Flatten;
  }

  // ----- runs with crashes -----

  /** The files since the last sync, and the records that load would find. */
  datatype State = State(versions: seq<Bytes>, rs: seq<Record>)

  ghost predicate Sound(s: State) {
    && AllWellFormed(s.rs) && HEADER_LEN + |Flatten(s.rs)| < TWO_64
    && Steady(SkykeyLog(), s.versions, Flatten(s.rs))
  }

  /** A key saved in these writes; a live record buried; or a crash that struck saveKey k moments
      in (zero: before it began), left img on the disk, and was followed by load. */
  datatype Event =
    | Saved(r: Record, chunks: seq<Bytes>)
    | Buried(i: nat)
    | Crashed(r: Record, chunks: seq<Bytes>, k: nat, img: Bytes)

  function Moments(s: State, chunks: seq<Bytes>): seq<seq<Bytes>>
    requires |s.versions| > 0
  {
    [s.versions] + SaveMoments(s.versions, HEADER_LEN + |Flatten(s.rs)|, chunks)
  }

  ghost predicate Possible(s: State, e: Event) {
    && |s.versions| > 0
    && match e {
      case Buried(i) => i < |s.rs| && s.rs[i].Live?
      case Saved(r, chunks) => Savable(s, r, chunks)
      case Crashed(r, chunks, k, img) =>
        Savable(s, r, chunks) && k < |Moments(s, chunks)| && CrashImage(Moments(s, chunks)[k], img)
    }
  }

  ghost predicate Savable(s: State, r: Record, chunks: seq<Bytes>) {
    && WellFormed(r) && r.Live? && Concat(chunks) == RecordBytes(r)
    && HEADER_LEN + |Flatten(s.rs)| + |RecordBytes(r)| < TWO_64
  }

  function After(s: State, e: Event): State
    requires |s.versions| > 0 && (e.Buried? ==> e.i < |s.rs|)
  {
    match e
    case Saved(r, chunks) => var ms := Moments(s, chunks); State(ms[|ms| - 1], s.rs + [r])
    case Buried(i) =>
      var off := HEADER_LEN + |Flatten(s.rs[..i])|;
      State([Overwrite(s.versions[|s.versions| - 1], off, RecordBytes(Grave(s.rs[i])))], s.rs[i := Grave(s.rs[i])])
    case Crashed(_, _, _, img) =>
      State([img], if |img| >= HEADER_LEN && ReadFile(img).Ok? then ReadFile(img).value else [])
  }

  /** After a crash anywhere in saveKey, load finds the old keys and all or nothing of the new one. */
  lemma SaveKeyCrash(s: State, e: Event)
    requires Sound(s) && Possible(s, e) && e.Crashed?
    ensures |e.img| >= HEADER_LEN
    ensures ReadFile(e.img) == Ok(s.rs, []) || ReadFile(e.img) == Ok(s.rs + [e.r], [])
    ensures Sound(After(s, e))
  {
    hide PutU64, Flatten, RecordBytes, WellFormed, SaveMoments, ReadFile, CrashImage, FileHolds, Steady, Layout.Holds;
    var data := Flatten(s.rs);
    SaveSurvives(s.versions, data, e.chunks);
    SteadySurvives(SkykeyLog(), s.versions, data, Concat(e.chunks));
    assert Survives(SkykeyLog(), Moments(s, e.chunks)[e.k], data, Concat(e.chunks));
    ImageLength(Moments(s, e.chunks)[e.k], e.img);
    FlattenOne(s.rs, e.r);
    if SkykeyLog().Holds(e.img, data) {
      ImageLoads(e.img, s.rs);
    } else {
      ImageLoads(e.img, s.rs + [e.r]);
    }
  }

  /** A file whose log is a list of records loads as that list, and is fit for the next save. */
  lemma ImageLoads(img: Bytes, rs: seq<Record>)
    requires AllWellFormed(rs) && HEADER_LEN + |Flatten(rs)| < TWO_64 && |img| >= HEADER_LEN
    requires SkykeyLog().Holds(img, Flatten(rs))
    ensures ReadFile(img) == Ok(rs, []) && Sound(State([img], rs))
  {
    hide PutU64, Flatten, ReadFile, FileHolds, AllWellFormed, Layout.Holds;
    LogIsFile(img, rs);
    FileReadBack(img, HEADER_LEN + |Flatten(rs)|, rs);
    SteadyOne(SkykeyLog(), img, Flatten(rs));
  }

  lemma ImageLength(versions: seq<Bytes>, img: Bytes)
    requires CrashImage(versions, img)
    ensures |img| >= HEADER_LEN
  {
  }

  lemma SavedSound(s: State, e: Event)
    requires Sound(s) && Possible(s, e) && e.Saved?
    ensures Sound(After(s, e)) && After(s, e).rs == s.rs + [e.r]
  {
    hide PutU64, Flatten, RecordBytes, WellFormed, SaveMoments, Steady;
    SaveSurvives(s.versions, Flatten(s.rs), e.chunks);
    SaveMomentsAre(s.versions, Flatten(s.rs), e.chunks);
    FlattenOne(s.rs, e.r);
  }

  lemma BuriedSound(s: State, e: Event)
    requires Sound(s) && Possible(s, e) && e.Buried?
    ensures Sound(After(s, e)) && After(s, e).rs == s.rs[e.i := Grave(s.rs[e.i])]
  {
    hide PutU64, Flatten, RecordBytes, Overwrite, FileHolds, Layout.Holds;
    var file := s.versions[|s.versions| - 1];
    var r := s.rs[e.i];
    GraveFits(r);
    LogIsFile(file, s.rs);
    ReplaceHolds(file, HEADER_LEN + |Flatten(s.rs)|, s.rs, e.i, Grave(r));
    SameLength(s.rs, e.i, Grave(r));
    LogIsFile(After(s, e).versions[0], s.rs[e.i := Grave(r)]);
  }

  lemma SameLength(rs: seq<Record>, i: nat, r: Record)
    requires i < |rs| && |RecordBytes(r)| == |RecordBytes(rs[i])|
    ensures |Flatten(rs[i := r])| == |Flatten(rs)|
  {
    hide Flatten, RecordBytes;
    FlattenAt(rs, i);
    FlattenAt(rs[i := r], i);
    assert rs[i := r][..i] == rs[..i] && rs[i := r][i + 1..] == rs[i + 1..];
  }

  ghost predicate PossibleRun(s: State, events: seq<Event>)
    decreases events
  {
    events == [] || (Possible(s, events[0]) && PossibleRun(After(s, events[0]), events[1..]))
  }

  ghost function AfterRun(s: State, events: seq<Event>): State
    requires PossibleRun(s, events)
    decreases events
  {
    if events == [] then s else AfterRun(After(s, events[0]), events[1..])
  }

  /** Starting from rs, got is rs after every completed save and burial, in order, and after all
      or nothing of each save that a crash struck. */
  predicate Explains(rs: seq<Record>, events: seq<Event>, got: seq<Record>)
    decreases events
  {
    if events == [] then got == rs
    else
      match events[0]
      case Saved(r, _) => Explains(rs + [r], events[1..], got)
      case Buried(i) => i < |rs| && Explains(rs[i := Grave(rs[i])], events[1..], got)
      case Crashed(r, _, _, _) => Explains(rs + [r], events[1..], got) || Explains(rs, events[1..], got)
  }

  /** Over every run of saves, deletions and crashes during saves, no saved key is lost but by its
      deletion, and none is ever loaded in part. */
  lemma {:induction false} RunDurable(s: State, events: seq<Event>)
    requires Sound(s) && PossibleRun(s, events)
    ensures Sound(AfterRun(s, events)) && Explains(s.rs, events, AfterRun(s, events).rs)
    decreases events
  {
    hide Sound, After, Possible, Grave;
    if events != [] {
      var e := events[0];
      PossibleAfter(s, e);
      StepDurable(s, e);
      RunDurable(After(s, e), events[1..]);
    }
  }

  lemma PossibleAfter(s: State, e: Event)
    requires Possible(s, e)
    ensures |s.versions| > 0 && (e.Buried? ==> e.i < |s.rs|)
  {
  }

  /** One save, burial or crash keeps the file sound, and changes the records as Explains says. */
  lemma StepDurable(s: State, e: Event)
    requires Sound(s) && Possible(s, e)
    ensures Sound(After(s, e))
    ensures match e
      case Saved(r, _) => After(s, e).rs == s.rs + [r]
      case Buried(i) => i < |s.rs| && After(s, e).rs == s.rs[i := Grave(s.rs[i])]
      case Crashed(r, _, _, _) => After(s, e).rs == s.rs || After(s, e).rs == s.rs + [r]
  {
    hide Sound, Moments, Savable, Flatten, RecordBytes, ReadFile, Overwrite;
    match e {
      case Saved(_, _) => SavedSound(s, e);
      case Buried(_) => BuriedSound(s, e);
      case Crashed(_, _, _, _) => SaveKeyCrash(s, e);
    }
  }

  /** The manager's state between two calls is such a state, and its SaveKey is such an event. */
  lemma ManagerIsSound(sm: SkykeyManager)
    requires sm.Agrees()
    ensures Sound(State(sm.disk.versions, sm.records))
    ensures sm.fileLen == HEADER_LEN + |Flatten(sm.records)|
  {
    hide PutU64, Flatten, Rebuild, Layout.Holds;
    LogIsFile(sm.disk.content, sm.records);
    SteadyOne(SkykeyLog(), sm.disk.content, Flatten(sm.records));
  }

  /** What DeleteKeyByID does to records and file is the burial of one record. */
  lemma DeletionIsBurial(h: Hash, id: ID, rs: seq<Record>, file: Bytes, rs': seq<Record>, file': Bytes)
    returns (i: nat)
    requires Buries(h, id, rs, file, rs', file')
    ensures i < |rs| && rs[i].Live? && KeyID(h, rs[i].sk) == id
    ensures Possible(State([file], rs), Buried(i)) && After(State([file], rs), Buried(i)) == State([file'], rs')
  {
    hide KeyID, Grave, Flatten, RecordBytes, Overwrite;
    i :| 0 <= i < |rs| && BuriesAt(h, id, rs, file, i, rs', file');
  }

  ghost predicate LoadsEither(vs: seq<Bytes>, rs: seq<Record>, r: Record) {
    forall img :: CrashImage(vs, img) ==>
      |img| >= HEADER_LEN && (ReadFile(img) == Ok(rs, []) || ReadFile(img) == Ok(rs + [r], []))
  }

  /** At every moment that a call of SaveKey really passes through, a crash leaves the old keys,
      or the old keys and the new one. */
  method SaveKeyAtomic(sm: SkykeyManager, sk: Skykey)
    requires sm.Agrees() && IsValid(sk) && sm.fileLen + |RecordBytes(Live(sk))| < TWO_64
    modifies sm, sm.disk
    ensures sm.Agrees() && sm.records == old(sm.records) + [Live(sk)]
    ensures old(sm.disk.moments) <= sm.disk.moments
    ensures forall vs :: vs in sm.disk.moments[|old(sm.disk.moments)|..] ==> LoadsEither(vs, old(sm.records), Live(sk))
  {
    hide Flatten, RecordBytes, Rebuild, SaveMoments, LoadsEither, Sound, FileHolds;
    ghost var s := State(sm.disk.versions, sm.records);
    ManagerIsSound(sm);
    ghost var was := sm.disk.moments;
    ghost var chunks := sm.SaveKey(sk);
    ghost var ms := SaveMoments(s.versions, HEADER_LEN + |Flatten(s.rs)|, chunks);
    assert sm.disk.moments[|was|..] == ms;
    forall vs | vs in ms
      ensures LoadsEither(vs, s.rs, Live(sk))
    {
      MomentLoads(s, Live(sk), chunks, vs);
    }
  }

  lemma MomentLoads(s: State, r: Record, chunks: seq<Bytes>, vs: seq<Bytes>)
    requires Sound(s) && |s.versions| > 0 && Savable(s, r, chunks)
    requires vs in SaveMoments(s.versions, HEADER_LEN + |Flatten(s.rs)|, chunks)
    ensures LoadsEither(vs, s.rs, r)
  {
    hide Flatten, RecordBytes, SaveMoments, Sound, Savable, CrashImage, ReadFile;
    var ms := SaveMoments(s.versions, HEADER_LEN + |Flatten(s.rs)|, chunks);
    var k: nat :| k < |ms| && ms[k] == vs;
    assert Moments(s, chunks)[k + 1] == vs;
    forall img | CrashImage(vs, img)
      ensures |img| >= HEADER_LEN && (ReadFile(img) == Ok(s.rs, []) || ReadFile(img) == Ok(s.rs + [r], []))
    {
      SaveKeyCrash(s, Crashed(r, chunks, k + 1, img));
    }
  }
}
