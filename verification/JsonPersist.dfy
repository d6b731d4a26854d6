/** persist/json.go: a value kept in two files, of which a save never risks both. */
module JsonPersist {
  /** What a file holds, as far as readJSON and verifyChecksum can tell: a complete value under its
      checksum, or something that the checksum rejects, such as an empty file. */
  datatype Content<V> = Absent | Whole(value: V) | Torn

  /** A file, and everything that a crash may leave of it. */
  datatype File<V(==)> = File(content: Content<V>, crash: set<Content<V>>)

  datatype Pair<V(==)> = Pair(primary: File<V>, temp: File<V>)

  datatype Loaded<V> = NotExist | Value(value: V) | Unreadable

  /** Opening a file for writing empties it. */
  function Truncated<V(==)>(f: File<V>): File<V> { File(Torn, f.crash + {Torn}) }

  function Written<V(==)>(f: File<V>, v: V): File<V> { File(Whole(v), f.crash + {Whole(v)}) }

  function Synced<V(==)>(f: File<V>): File<V> { File(f.content, {f.content}) }

  /** A file that has been opened or written may be left by a crash as it was before or as it is now, until a sync. */
  lemma CrashLeaves<V>(f: File<V>, v: V)
    ensures Torn in Truncated(f).crash && Whole(v) in Written(f, v).crash
    ensures f.crash <= Truncated(f).crash && f.crash <= Written(f, v).crash
    ensures Synced(f).crash == {f.content} && Truncated(f).content == Torn && Written(f, v).content == Whole(v)
  {
  }

  /** verifyChecksum: a missing file counts as good. */
  predicate Verifies<V>(c: Content<V>) { !c.Torn? }

  /** LoadJSON: the temp file is tried only when the primary one is there and bad. */
  function Load<V>(primary: Content<V>, temp: Content<V>): Loaded<V> {
    match primary
    case Absent => NotExist
    case Whole(v) => Value(v)
    case Torn => if temp.Whole? then Value(temp.value) else Unreadable
  }

  /** Nothing is being written: a crash leaves the files as they are. */
  predicate Idle<V(==)>(p: Pair<V>) {
    p.primary.crash == {p.primary.content} && p.temp.crash == {p.temp.content}
  }

  /** The states of the two files after every file operation of a save. */
  function SaveMoments<V(==)>(p: Pair<V>, v: V): seq<Pair<V>> {
    var t1 := Truncated(p.temp);
    var t2 := Written(t1, v);
    if Verifies(p.primary.content) then
      [Pair(p.primary, t1), Pair(p.primary, t2), Pair(p.primary, Synced(t2))] +
      PrimaryMoments(Pair(p.primary, Synced(t2)), v)
    else
      PrimaryMoments(p, v)
  }

  function PrimaryMoments<V(==)>(p: Pair<V>, v: V): seq<Pair<V>> {
    var r1 := Truncated(p.primary);
    var r2 := Written(r1, v);
    [Pair(r1, p.temp), Pair(r2, p.temp), Pair(Synced(r2), p.temp)]
  }

  ghost predicate Survives<V(!new)>(p: Pair<V>, before: Loaded<V>, v: V) {
    forall r, t :: r in p.primary.crash && t in p.temp.crash ==> Load(r, t) == before || Load(r, t) == Value(v)
  }

  /** Wherever in a save a crash strikes, the value before it or the value being saved is loaded. */
  lemma SaveSurvives<V(!new)>(p: Pair<V>, v: V)
    requires Idle(p)
    ensures forall m :: m in SaveMoments(p, v) ==> Survives(m, Load(p.primary.content, p.temp.content), v)
    ensures var last := SaveMoments(p, v)[|SaveMoments(p, v)| - 1];
      Idle(last) && Load(last.primary.content, last.temp.content) == Value(v)
  {
  }

  /** Opening the temp file for writing is safe exactly when the primary file verifies. */
  lemma GuardExact<V(!new)>(p: Pair<V>)
    requires Idle(p) && !Load(p.primary.content, p.temp.content).Unreadable?
    ensures Verifies(p.primary.content) <==>
      forall r, t :: r in p.primary.crash && t in Truncated(p.temp).crash ==>
        Load(r, t) == Load(p.primary.content, p.temp.content)
  {
    if !Verifies(p.primary.content) {
      assert Torn in Truncated(p.temp).crash && p.primary.content in p.primary.crash;
    }
  }

  class Store<V(==)> {
    var files: Pair<V>
    ghost var moments: seq<Pair<V>>

    constructor (p: Pair<V>)
      ensures files == p && moments == []
    {
      files, moments := p, [];
    }

    method SetTemp(f: File<V>)
      modifies this
      ensures files == Pair(old(files).primary, f) && moments == old(moments) + [files]
    {
      files := Pair(files.primary, f);
      moments := moments + [files];
    }

    method SetPrimary(f: File<V>)
      modifies this
      ensures files == Pair(f, old(files).temp) && moments == old(moments) + [files]
    {
      files := Pair(f, files.temp);
      moments := moments + [files];
    }

    /** SaveJSON: the temp file first, unless it may hold the only good value; then the primary one. */
    method SaveJSON(v: V)
      requires Idle(files)
      modifies this
      ensures Idle(files) && Load(files.primary.content, files.temp.content) == Value(v)
      ensures moments == old(moments) + SaveMoments(old(files), v)
    {
      if Verifies(files.primary.content) {
        SetTemp(Truncated(files.temp));
        SetTemp(Written(files.temp, v));
        SetTemp(Synced(files.temp));
      }
      SetPrimary(Truncated(files.primary));
      SetPrimary(Written(files.primary, v));
      SetPrimary(Synced(files.primary));
    }

    method LoadJSON() returns (r: Loaded<V>)
      ensures r == Load(files.primary.content, files.temp.content)
      ensures files.primary.content.Whole? ==> r == Value(files.primary.content.value)
      ensures files.primary.content.Absent? ==> r == NotExist
      ensures files.primary.content.Torn? ==>
        if files.temp.content.Whole? then r == Value(files.temp.content.value) else r == Unreadable
    {
      if files.primary.content.Absent? {
        return NotExist;
      }
      if files.primary.content.Whole? {
        return Value(files.primary.content.value);
      }
      if files.temp.content.Whole? {
        return Value(files.temp.content.value);
      }
      return Unreadable;
    }
  }

  // ----- runs with crashes -----

  /** A save that returned, or one that a crash struck k operations in (zero: before the first),
      leaving primary and temp on the disk. */
  datatype Event<V> = Saved(v: V) | Crashed(v: V, k: nat, primary: Content<V>, temp: Content<V>)

  ghost predicate Possible<V>(p: Pair<V>, e: Event<V>) {
    match e
    case Saved(_) => true
    case Crashed(v, k, r, t) =>
      var ms := [p] + SaveMoments(p, v);
      k < |ms| && r in ms[k].primary.crash && t in ms[k].temp.crash
  }

  function After<V(==)>(p: Pair<V>, e: Event<V>): Pair<V> {
    match e
    case Saved(v) => SaveMoments(p, v)[|SaveMoments(p, v)| - 1]
    case Crashed(_, _, r, t) => Pair(File(r, {r}), File(t, {t}))
  }

  ghost predicate PossibleRun<V>(p: Pair<V>, events: seq<Event<V>>)
    decreases events
  {
    events == [] || (Possible(p, events[0]) && PossibleRun(After(p, events[0]), events[1..]))
  }

  function AfterRun<V(==)>(p: Pair<V>, events: seq<Event<V>>): Pair<V>
    decreases events
  {
    if events == [] then p else AfterRun(After(p, events[0]), events[1..])
  }

  /** got is the value of the last completed save, or that of a later one that a crash struck. */
  predicate Explains<V(==)>(loaded: Loaded<V>, events: seq<Event<V>>, got: Loaded<V>)
    decreases events
  {
    if events == [] then got == loaded
    else
      || Explains(Value(events[0].v), events[1..], got)
      || (events[0].Crashed? && Explains(loaded, events[1..], got))
  }

  lemma StepDurable<V(!new)>(p: Pair<V>, e: Event<V>)
    requires Idle(p) && Possible(p, e)
    ensures Idle(After(p, e))
    ensures var before, after := Load(p.primary.content, p.temp.content), Load(After(p, e).primary.content, After(p,
      e).temp.content);
      after == Value(e.v) || (e.Crashed? && after == before)
  {
    hide SaveMoments;
    SaveSurvives(p, e.v);
    if e.Crashed? {
      var ms := [p] + SaveMoments(p, e.v);
      if e.k > 0 {
        assert ms[e.k] in SaveMoments(p, e.v);
      }
    }
  }

  lemma {:induction false} RunDurable<V(!new)>(p: Pair<V>, events: seq<Event<V>>)
    requires Idle(p) && PossibleRun(p, events)
    ensures var q := AfterRun(p, events);
      && Idle(q)
      && Explains(Load(p.primary.content, p.temp.content), events, Load(q.primary.content, q.temp.content))
    decreases events
  {
    hide After, Possible, Load, Idle;
    if events != [] {
      StepDurable(p, events[0]);
      RunDurable(After(p, events[0]), events[1..]);
    }
  }

  /** Once a save has finished, one of the two files holds a complete value at every moment of
      every later save, whatever a crash leaves. */
  lemma OneWhole<V(!new)>(p: Pair<V>, v: V, m: Pair<V>, r: Content<V>, t: Content<V>)
    requires Idle(p) && Load(p.primary.content, p.temp.content).Value? && m in SaveMoments(p, v) &&
      r in m.primary.crash && t in m.temp.crash
    ensures r.Whole? || t.Whole?
  {
    hide SaveMoments;
    SaveSurvives(p, v);
    assert Survives(m, Load(p.primary.content, p.temp.content), v);
  }
}
