/** The stages of an update, whoever asks for it: the refused paths restored, the conditions evaluated, the guarded
    fields restored. */
module SaveStages {
  import opened Values
  import opened Paths
  import opened FieldAcl
  import opened WriteFields
  import opened Drafts
  import opened DraftLaws
  import opened EvaluationLaws

  /** The posted data, the stored record, the refused paths, the masks the evaluation blanks, what it leaves, and the
      fields restored last. */
  datatype Stages = Stages(
    data: Record,
    stored: Record,
    refused: seq<string>,
    masks: seq<string>,
    evaluated: Draft,
    guarded: seq<string>)
  {
    function Start(): Draft { Draft(Dict(data), stored, {}) }

    function Enforced(): Draft { RestoreAllShared(Start(), refused) }

    function Final(): Draft { RestoreAllShared(evaluated, guarded) }

    /** The stored record after the evaluation, up to null entries. */
    function Spoilt(): Value { WithBlanks(Dict(stored), masks) }

    /** Up to null entries, the evaluation blanks the masks, nested ones in ascending order, in the record and in what
        the payload shares; it adds and removes no field of the payload. */
    ghost predicate Valid() {
      && Ascending(masks) && (forall f :: f in masks ==> Canonical(f) && |Segments(f)| > 1)
      && Linked(evaluated) && evaluated.shared == BlanksStored(Enforced(), masks).shared
      && Same(evaluated.payload, BlanksStored(Enforced(), masks).payload)
      && Same(Dict(evaluated.stored), Dict(BlanksStored(Enforced(), masks).stored))
      && Fields(evaluated.payload) == Fields(Enforced().payload)
    }
  }

  lemma EnforcedIs(s: Stages)
    ensures var d := s.Enforced();
      && Linked(d) && Same(Dict(d.stored), Dict(s.stored))
      && Same(d.payload, RestoreAll(Dict(s.data), s.refused, Dict(s.stored)))
  {
    RestoresSame(s.Start(), Dict(s.data), Dict(s.stored), s.refused);
    RestoresKeepLinks(s.Start(), s.refused);
  }

  lemma EvaluatedIsSpoilt(s: Stages)
    requires s.Valid()
    ensures Same(Dict(s.evaluated.stored), s.Spoilt())
  {
    EnforcedIs(s);
    BlanksOfStored(s.Enforced(), s.masks);
    SameBlanks(Dict(s.Enforced().stored), Dict(s.stored), s.masks);
  }

  lemma EvaluatedReads(s: Stages, p: Path)
    requires s.Valid() && p != []
    ensures Same(ReadAt(Dict(s.evaluated.stored), p), ReadAt(s.Spoilt(), p))
  {
    EvaluatedIsSpoilt(s);
    SameRead(Dict(s.evaluated.stored), s.Spoilt(), p);
  }

  // ---- The payload stays an object ---------------------------------------------------

  lemma {:induction false} RestoresKeepObject(d: Draft, fields: seq<string>)
    requires d.payload.Dict?
    ensures RestoreAllShared(d, fields).payload.Dict?
    decreases fields
  {
    if fields != [] { RestoresKeepObject(RestoreShared(d, Segments(fields[0])), fields[1..]); }
  }

  lemma {:induction false} BlanksKeepObject(d: Draft, fields: seq<string>)
    requires d.payload.Dict?
    ensures BlanksStored(d, fields).payload.Dict?
    decreases fields
  {
    if fields != [] { BlanksKeepObject(BlankStored(d, Segments(fields[0])), fields[1..]); }
  }

  lemma PayloadIsObject(s: Stages)
    requires s.Valid()
    ensures s.Enforced().payload.Dict? && s.evaluated.payload.Dict? && s.Final().payload.Dict?
  {
    RestoresKeepObject(s.Start(), s.refused);
    BlanksKeepObject(s.Enforced(), s.masks);
    RestoresKeepObject(s.evaluated, s.guarded);
  }

  // ---- Settled paths --------------------------------------------------------------------

  lemma SettledSame(v: Value, u: Value, w: Value, p: Path)
    requires p != [] && Same(u, v) && Settled(v, w, p)
    ensures Settled(u, w, p)
  {
    SameRead(u, v, p);
  }

  lemma SharedSettles(d: Draft, ns: seq<string>, a: Draft, p: Path)
    requires p != [] && Clear(ns, p) && (Under(d.shared, p) || !ParentIsDict(d.payload, p))
    requires Linked(a) && a.shared == BlanksStored(d, ns).shared && Same(a.payload, BlanksStored(d, ns).payload)
    ensures Settled(a.payload, Dict(a.stored), p)
  {
    if Under(d.shared, p) {
      BlanksKeepUnder(d, ns, p);
      UnderReads(a, p);
    } else {
      BlanksMakeNoPlace(d, ns, p);
      SameRead(a.payload, BlanksStored(d, ns).payload, p);
    }
  }

  /** At and below a shared object the payload reads as the record. */
  lemma UnderReads(a: Draft, p: Path)
    requires Linked(a) && Under(a.shared, p)
    ensures ReadAt(a.payload, p) == ReadAt(Dict(a.stored), p)
  {
    var q :| q in a.shared && q <= p;
    if q < p {
      var t := p[|q|..];
      assert p == q + t;
      ReadBelow(a.payload, q, t);
      ReadBelow(Dict(a.stored), q, t);
    } else {
      assert q == p;
    }
  }

  /** What the blanks leave of a value that is no object, the payload keeps too. */
  lemma {:induction false} BlanksMissPayload(d: Draft, ns: seq<string>, p: Path)
    requires p != [] && Clear(ns, p) && !ReadAt(Dict(d.stored), p).Dict?
    ensures ReadAt(BlanksStored(d, ns).payload, p) == ReadAt(d.payload, p)
    ensures ParentIsDict(BlanksStored(d, ns).payload, p) == ParentIsDict(d.payload, p)
    decreases ns
  {
    if ns != [] {
      var u, w := Segments(ns[0]), Dict(d.stored);
      assert ns[0] in ns && !(u <= p);
      if HasPath(w, u) {
        ReadOfSet(w, u, Null);
        if p < u { DictAbove(w, p, u); }
        SetElsewhere(d.payload, u, Null, p);
        SetElsewhere(w, u, Null, p);
      }
      BlanksMissPayload(BlankStored(d, u), ns[1..], p);
    }
  }

  /** A refused path no blanked mask lies at or above is settled when the evaluation is over. */
  lemma RefusedSettles(s: Stages, p: Path)
    requires s.Valid() && p != [] && Clear(s.masks, p) && p in SegmentSet(s.refused)
    ensures Settled(s.evaluated.payload, Dict(s.evaluated.stored), p)
  {
    if ReadAt(Dict(s.stored), p).Dict? {
      RestoredIsShared(s.Start(), s.refused, p);
      SharedSettles(s.Enforced(), s.masks, s.evaluated, p);
    } else {
      PlainSettles(s, p);
    }
  }

  lemma PlainSettles(s: Stages, p: Path)
    requires s.Valid() && p != [] && Clear(s.masks, p) && p in SegmentSet(s.refused) && !ReadAt(Dict(s.stored), p).Dict?
    ensures Settled(s.evaluated.payload, Dict(s.evaluated.stored), p)
  {
    var d, w := s.Enforced(), Dict(s.stored);
    EnforcedIs(s);
    RestoresSettle(Dict(s.data), w, s.refused, p);
    SettledSame(RestoreAll(Dict(s.data), s.refused, w), d.payload, w, p);
    SameRead(Dict(d.stored), w, p);
    BlanksMissPayload(d, s.masks, p);
    SameRead(s.evaluated.payload, BlanksStored(d, s.masks).payload, p);
    BlanksAway(w, s.masks, p);
    EvaluatedReads(s, p);
  }

  /** What is settled before the last restores, or restored by them, is settled in the payload that is stored. */
  lemma FinalSettles(s: Stages, p: Path)
    requires p != []
    requires Settled(s.evaluated.payload, Dict(s.evaluated.stored), p) || p in SegmentSet(s.guarded)
    ensures Settled(s.Final().payload, Dict(s.evaluated.stored), p)
  {
    var a := s.evaluated;
    RestoresSettle(a.payload, Dict(a.stored), s.guarded, p);
    RestoresSame(a, a.payload, Dict(a.stored), s.guarded);
    SettledSame(RestoreAll(a.payload, s.guarded, Dict(a.stored)), s.Final().payload, Dict(a.stored), p);
  }

  /** A path the save takes from the stored record: guarded, or refused with no blanked mask at or above it. */
  predicate Taken(s: Stages, p: Path) {
    p in SegmentSet(s.guarded) || (p in SegmentSet(s.refused) && Clear(s.masks, p))
  }

  lemma TakenSettles(s: Stages, p: Path)
    requires s.Valid() && p != [] && Taken(s, p)
    ensures Settled(s.Final().payload, Dict(s.evaluated.stored), p)
  {
    if p !in SegmentSet(s.guarded) { RefusedSettles(s, p); }
    FinalSettles(s, p);
  }

  /** What a taken path reads in the end: what the evaluation left, or null where the payload has no place. */
  lemma TakenReads(s: Stages, p: Path)
    requires s.Valid() && p != [] && Taken(s, p)
    ensures var final := s.Final().payload;
      Same(ReadAt(final, p), if ParentIsDict(final, p) then ReadAt(s.Spoilt(), p) else Null)
  {
    TakenSettles(s, p);
    EvaluatedReads(s, p);
    ReadOfSet(s.Final().payload, p, Null);
  }

  /** A taken path the evaluation blanks is null in the end. */
  lemma TakenAndBlanked(s: Stages, p: Path)
    requires s.Valid() && Taken(s, p) && p in SegmentSet(s.masks)
    ensures p != [] && ReadAt(s.Final().payload, p) == Null
  {
    var f :| f in s.masks && Segments(f) == p;
    BlanksKeepNull(Dict(s.stored), s.masks, p);
    TakenReads(s, p);
  }

  // ---- Places ------------------------------------------------------------------------------

  /** Every path a restore may write. */
  function Restored(s: Stages): set<Path> {
    PathsNamed(s.refused) + PathsNamed(s.guarded)
  }

  /** The posted data has an object to hold the path, or to hold a restored value at or above it. */
  predicate PlaceFor(s: Stages, p: Path)
    requires p != []
  {
    || ParentIsDict(Dict(s.data), p)
    || exists u :: u in Restored(s) && u <= p && ParentIsDict(Dict(s.data), u)
  }

  /** A place in the payload stays one, or reads as in the record it is restored from. */
  lemma {:induction false} RestoresKeepPlace(v: Value, w: Value, fields: seq<string>, p: Path)
    requires p != [] && (ParentIsDict(v, p) || ReadsAs(v, w, p))
    ensures ParentIsDict(RestoreAll(v, fields, w), p) || ReadsAs(RestoreAll(v, fields, w), w, p)
    decreases fields
  {
    if fields != [] {
      var q := Segments(fields[0]);
      if q != [] { RestoreStep(v, w, q, p); }
      RestoresKeepPlace(SetAt(v, q, ReadAt(w, q)), w, fields[1..], p);
    }
  }

  /** Restoring a draft keeps the payload's place for what is not null in the record. */
  lemma DraftKeepsPlace(d: Draft, fields: seq<string>, w: Value, p: Path)
    requires p != [] && ParentIsDict(d.payload, p) && Same(Dict(d.stored), w) && ReadAt(w, p) != Null
    ensures ParentIsDict(RestoreAllShared(d, fields).payload, p)
  {
    RestoresSame(d, d.payload, w, fields);
    RestoresKeepPlace(d.payload, w, fields, p);
    var r := RestoreAll(d.payload, fields, w);
    SameRead(RestoreAllShared(d, fields).payload, r, p);
    ReadOfSet(r, p, Null);
  }

  /** The payload keeps its place for whatever the blanks leave in the record. */
  lemma {:induction false} BlanksKeepPlace(d: Draft, ns: seq<string>, p: Path)
    requires p != [] && ParentIsDict(d.payload, p) && ReadAt(WithBlanks(Dict(d.stored), ns), p) != Null
    ensures ParentIsDict(BlanksStored(d, ns).payload, p)
    decreases ns
  {
    if ns != [] {
      var u, w := Segments(ns[0]), Dict(d.stored);
      if u != [] && HasPath(w, u) {
        if u <= p {
          BlankedAbove(w, u, p);
          BlanksKeepNull(BlankAt(w, u), ns[1..], p);
        } else if p <= u {
          SetKeepsAncestors(d.payload, u, Null, p);
        } else {
          SetElsewhere(d.payload, u, Null, p);
        }
      }
      BlanksKeepPlace(BlankStored(d, u), ns[1..], p);
    }
  }

  lemma BlankedAbove(w: Value, u: Path, p: Path)
    requires u != [] && u <= p && HasPath(w, u)
    ensures ReadAt(BlankAt(w, u), p) == Null
  {
    ReadOfSet(w, u, Null);
    if u < p {
      var t := p[|u|..];
      assert p == u + t;
      ReadBelow(SetAt(w, u, Null), u, t);
    } else {
      assert u == p;
    }
  }

  /** What the blanks leave was there. */
  lemma SpoiltWasStored(s: Stages, p: Path)
    requires s.Valid() && p != [] && ReadAt(s.Spoilt(), p) != Null
    ensures ReadAt(Dict(s.stored), p) != Null && Clear(s.masks, p)
  {
    if ReadAt(Dict(s.stored), p) == Null { BlanksKeepNull(Dict(s.stored), s.masks, p); }
    forall f | f in s.masks ensures !(Segments(f) <= p) {
      if Segments(f) <= p {
        BlanksKeepNull(Dict(s.stored), s.masks, Segments(f));
        NullBelowNull(s.Spoilt(), Segments(f), p);
      }
    }
  }

  lemma PlaceKept(s: Stages, p: Path)
    requires s.Valid() && p != [] && ParentIsDict(Dict(s.data), p) && ReadAt(s.Spoilt(), p) != Null
    ensures ParentIsDict(s.Final().payload, p)
  {
    EvaluatedKeepsPlace(s, p);
    EvaluatedReads(s, p);
    DraftKeepsPlace(s.evaluated, s.guarded, Dict(s.evaluated.stored), p);
  }

  lemma EvaluatedKeepsPlace(s: Stages, p: Path)
    requires s.Valid() && p != [] && ParentIsDict(Dict(s.data), p) && ReadAt(s.Spoilt(), p) != Null
    ensures ParentIsDict(s.evaluated.payload, p)
  {
    var d := s.Enforced();
    SpoiltWasStored(s, p);
    DraftKeepsPlace(s.Start(), s.refused, Dict(s.stored), p);
    EnforcedIs(s);
    SameBlanks(Dict(d.stored), Dict(s.stored), s.masks);
    SameRead(WithBlanks(Dict(d.stored), s.masks), s.Spoilt(), p);
    BlanksKeepPlace(d, s.masks, p);
    SameRead(s.evaluated.payload, BlanksStored(d, s.masks).payload, p);
  }

  /** A place above, restored, is a place. */
  lemma PlaceBelow(s: Stages, u: Path, p: Path)
    requires s.Valid() && u < p && u in Restored(s) && ParentIsDict(Dict(s.data), u)
    requires ReadAt(s.Spoilt(), p) != Null
    ensures ParentIsDict(s.Final().payload, p)
  {
    SpoiltWasStored(s, p);
    assert Clear(s.masks, u) by {
      forall f | f in s.masks ensures !(Segments(f) <= u) { assert Segments(f) <= u ==> Segments(f) <= p; }
    }
    if ReadAt(s.Spoilt(), u) == Null { NullBelowNull(s.Spoilt(), u, p); }
    PlaceKept(s, u);
    TakenReads(s, u);
    PlaceAbove(s.Final().payload, s.Spoilt(), u, p);
  }

  lemma PlaceAbove(v: Value, w: Value, u: Path, p: Path)
    requires u != [] && u < p && ReadsAs(v, w, u) && ReadAt(w, p) != Null
    ensures ParentIsDict(v, p)
  {
    var t := p[|u|..];
    assert p == u + t;
    ReadOfSet(w, p, Null);
    ParentBelow(v, u, t);
    ParentBelow(w, u, t);
    SameRead(ReadAt(v, u), ReadAt(w, u), t);
  }

  lemma PlaceGiven(s: Stages, p: Path)
    requires s.Valid() && p != [] && PlaceFor(s, p) && ReadAt(s.Spoilt(), p) != Null
    ensures ParentIsDict(s.Final().payload, p)
  {
    if ParentIsDict(Dict(s.data), p) {
      PlaceKept(s, p);
    } else {
      var u :| u in Restored(s) && u <= p && ParentIsDict(Dict(s.data), u);
      assert u != p;
      PlaceBelow(s, u, p);
    }
  }

  // ---- No place, nothing restored ---------------------------------------------------------------

  /** The shortest start of the path the value has no place for. */
  lemma {:induction false} Gap(v: Value, p: Path) returns (q: Path)
    requires v.Dict? && p != [] && !ParentIsDict(v, p)
    ensures q != [] && q <= p && !ParentIsDict(v, q)
    ensures forall u: Path :: u != [] && u < q ==> ParentIsDict(v, u)
  {
    var shorter := p[..|p| - 1];
    if shorter == [] || ParentIsDict(v, shorter) {
      q := p;
      forall u: Path | u != [] && u < q ensures ParentIsDict(v, u) {
        if u < shorter { DictAbove(v, u, shorter); } else { assert u == shorter; }
      }
    } else {
      q := Gap(v, shorter);
      assert shorter <= p;
    }
  }

  lemma {:induction false} RestoresMakeNoPlace(d: Draft, fields: seq<string>, q: Path)
    requires q != [] && !ParentIsDict(d.payload, q)
    requires forall u :: u in PathsNamed(fields) ==> !(u < q)
    ensures !ParentIsDict(RestoreAllShared(d, fields).payload, q)
    decreases fields
  {
    if fields != [] {
      var u := Segments(fields[0]);
      FirstNamed(fields);
      assert u != [] ==> u in PathsNamed(fields);
      if u != [] { OneMakesNoPlace(d.payload, u, ReadAt(Dict(d.stored), u), q); }
      RestoresMakeNoPlace(RestoreShared(d, u), fields[1..], q);
    }
  }

  lemma OneMakesNoPlace(v: Value, u: Path, x: Value, q: Path)
    requires u != [] && q != [] && !(u < q) && !ParentIsDict(v, q)
    ensures !ParentIsDict(SetAt(v, u, x), q)
  {
    if q <= u { SetKeepsAncestors(v, u, x, q); } else { SetElsewhere(v, u, x, q); }
  }

  lemma NoPlaceMade(s: Stages, p: Path)
    requires s.Valid() && p != [] && !PlaceFor(s, p)
    ensures !ParentIsDict(s.Final().payload, p)
  {
    var q := Gap(Dict(s.data), p);
    forall u | u in Restored(s) ensures !(u < q) { assert u < q ==> u <= p; }
    NoPlaceAt(s, q);
    if q != p {
      var final := s.Final().payload;
      if ParentIsDict(final, p) { DictAbove(final, q, p); }
    }
  }

  lemma NoPlaceAt(s: Stages, q: Path)
    requires s.Valid() && q != [] && !ParentIsDict(Dict(s.data), q)
    requires forall u :: u in Restored(s) ==> !(u < q)
    ensures !ParentIsDict(s.Final().payload, q)
  {
    assert forall u :: u in PathsNamed(s.refused) || u in PathsNamed(s.guarded) ==> u in Restored(s);
    RestoresMakeNoPlace(s.Start(), s.refused, q);
    BlanksMakeNoPlace(s.Enforced(), s.masks, q);
    SameRead(s.evaluated.payload, BlanksStored(s.Enforced(), s.masks).payload, q);
    RestoresMakeNoPlace(s.evaluated, s.guarded, q);
  }

  /** A taken path is stored as the evaluation leaves it in the record where the data has a place for it, and is null
      elsewhere. */
  lemma TakenValue(s: Stages, p: Path)
    requires s.Valid() && p != [] && Taken(s, p)
    ensures Same(ReadAt(s.Final().payload, p), if PlaceFor(s, p) then ReadAt(s.Spoilt(), p) else Null)
  {
    TakenReads(s, p);
    if !PlaceFor(s, p) {
      NoPlaceMade(s, p);
    } else if ReadAt(s.Spoilt(), p) != Null {
      PlaceGiven(s, p);
    }
  }

  /** So it keeps its stored value exactly when there is none, or the evaluation spares it and there is a place. */
  lemma TakenSurvives(s: Stages, p: Path)
    requires s.Valid() && p != [] && Taken(s, p)
    ensures ReadsAs(s.Final().payload, Dict(s.stored), p) <==>
      ReadAt(Dict(s.stored), p) == Null || (ReadsAs(s.Spoilt(), Dict(s.stored), p) && PlaceFor(s, p))
  {
    TakenValue(s, p);
    if ReadAt(Dict(s.stored), p) == Null { BlanksKeepNull(Dict(s.stored), s.masks, p); }
  }

  // ---- Saving back what was shown -------------------------------------------------------------

  /** The paths of single keys. */
  function Tops(keys: set<string>): set<Path> {
    set k | k in keys :: [k]
  }

  /** Two values that may differ under some keys only. */
  lemma DifferInKeys(v: Value, w: Value, keys: set<string>)
    requires v.Dict? && w.Dict? && SameOutside(v, w, Tops(keys))
    ensures SameBut(v, w, keys)
  {
    SameOutsideByKey(v.entries, w.entries, Tops(keys));
    forall k | k !in keys ensures Same(Get(v.entries, k), Get(w.entries, k)) {
      assert Below(Tops(keys), k) == {};
      SameOutsideNothing(Get(v.entries, k), Get(w.entries, k));
    }
  }

  lemma SameIsSameBut(v: Value, w: Value, u: Value, free: set<string>)
    requires SameBut(v, w, free) && Same(u, v)
    ensures SameBut(u, w, free)
  {
    SameGet(u, v, "");
    forall k | k !in free ensures Same(Get(u.entries, k), Get(w.entries, k)) { SameGet(u, v, k); }
  }

  lemma SameButBoth(v: Value, w: Value, u: Value, free: set<string>)
    requires SameBut(v, w, free) && SameBut(w, u, free)
    ensures SameBut(v, u, free)
  {}

  lemma {:induction false} SharedFrom(d: Draft, fields: seq<string>, q: Path)
    requires q in RestoreAllShared(d, fields).shared
    ensures q in d.shared || q in SegmentSet(fields)
    decreases fields
  {
    if fields != [] {
      assert fields == [fields[0]] + fields[1..];
      SegmentSetCons(fields[0], fields[1..]);
      SharedFrom(RestoreShared(d, Segments(fields[0])), fields[1..], q);
    }
  }

  /** Two payloads restored from two records: the same but for the free keys if what is restored reads the same. */
  lemma {:induction false} RestoresAgree(v: Value, v': Value, fields: seq<string>, w: Value, w': Value,
    free: set<string>)
    requires SameBut(v, v', free)
    requires forall p :: p in PathsNamed(fields) ==> p[0] in free || ReadsAs(w, w', p)
    ensures SameBut(RestoreAll(v, fields, w), RestoreAll(v', fields, w'), free)
    decreases fields
  {
    if fields != [] {
      FirstNamed(fields);
      var p := Segments(fields[0]);
      if p != [] { RestoreAgrees(v, v', p, ReadAt(w, p), ReadAt(w', p), free); }
      RestoresAgree(SetAt(v, p, ReadAt(w, p)), SetAt(v', p, ReadAt(w', p)), fields[1..], w, w', free);
    }
  }

  lemma RestoreAgrees(v: Value, v': Value, p: Path, x: Value, y: Value, free: set<string>)
    requires SameBut(v, v', free) && p != [] && (p[0] in free || Same(x, y))
    ensures SameBut(SetAt(v, p, x), SetAt(v', p, y), free)
  {
    forall k | k !in free ensures Same(Get(SetAt(v, p, x).entries, k), Get(SetAt(v', p, y).entries, k)) {
      SetKey(v, p, x, k);
      SetKey(v', p, y, k);
      if k == p[0] && |p| > 1 { SameSet(Get(v.entries, k), Get(v'.entries, k), p[1..], x, y); }
    }
  }

  /** The evaluation spoils nothing the save takes, the free keys apart. */
  ghost predicate Survives(s: Stages, free: set<string>) {
    forall p :: p != [] && Taken(s, p) && p[0] !in free ==> ReadsAs(s.Spoilt(), Dict(s.stored), p)
  }

  /** If nothing taken is spoilt, the payload as evaluated is the enforced one but for the free keys. */
  lemma EvaluationHarmless(s: Stages, free: set<string>)
    requires s.Valid() && Survives(s, free)
    ensures SameBut(s.evaluated.payload, s.Enforced().payload, free)
  {
    var d := s.Enforced();
    PayloadIsObject(s);
    EnforcedIs(s);
    SharedUnharmed(s, free);
    assert [] + s.masks == s.masks;
    BlanksHarmless(d, s.masks, Dict(d.stored), [], d.shared, free);
    SameIsSameBut(BlanksStored(d, s.masks).payload, d.payload, s.evaluated.payload, free);
  }

  lemma SharedUnharmed(s: Stages, free: set<string>)
    requires s.Valid() && Survives(s, free)
    ensures var d := s.Enforced();
      Unharmed(Dict(d.stored), WithBlanks(Dict(d.stored), s.masks), d.shared, s.masks, free)
  {
    var d := s.Enforced();
    EnforcedIs(s);
    SameBlanks(Dict(d.stored), Dict(s.stored), s.masks);
    forall q | q in d.shared && q != [] && q[0] !in free && Clear(s.masks, q)
      ensures ReadsAs(WithBlanks(Dict(d.stored), s.masks), Dict(d.stored), q)
    {
      SharedFrom(s.Start(), s.refused, q);
      assert Taken(s, q);
      SameRead(WithBlanks(Dict(d.stored), s.masks), s.Spoilt(), q);
      SameRead(Dict(d.stored), Dict(s.stored), q);
    }
  }

  /** Restoring from the stored record itself, in two passes, everything in which the data differs from it. */
  lemma TwoPasses(s: Stages, free: set<string>)
    requires SameOutside(Dict(s.data), Dict(s.stored), Restored(s) + Tops(free))
    ensures var enforced := RestoreAll(Dict(s.data), s.refused, Dict(s.stored));
      SameBut(RestoreAll(enforced, s.guarded, Dict(s.stored)), Dict(s.stored), free)
  {
    var w := Dict(s.stored);
    var enforced := RestoreAll(Dict(s.data), s.refused, w);
    var rest := Tops(free) + PathsNamed(s.guarded);
    assert Restored(s) + Tops(free) == rest + PathsNamed(s.refused);
    RestoreAnyOrder(Dict(s.data), w, s.refused, rest);
    RestoreAnyOrder(enforced, w, s.guarded, Tops(free));
    RestoreStaysObject(Dict(s.data), s.refused, w);
    RestoreStaysObject(enforced, s.guarded, w);
    DifferInKeys(RestoreAll(enforced, s.guarded, w), w, free);
  }

  lemma {:induction false} RestoreStaysObject(v: Value, fields: seq<string>, w: Value)
    requires v.Dict?
    ensures RestoreAll(v, fields, w).Dict?
    decreases fields
  {
    if fields != [] {
      RestoreStaysObject(SetAt(v, Segments(fields[0]), ReadAt(w, Segments(fields[0]))), fields[1..], w);
    }
  }

  /** Data that differs from the stored record only in what the save takes from it saves back as the record, the free
      keys apart, if nothing taken is spoilt. */
  lemma SavesBack(s: Stages, free: set<string>)
    requires s.Valid() && Survives(s, free)
    requires SameOutside(Dict(s.data), Dict(s.stored), Restored(s) + Tops(free))
    ensures SameBut(s.Final().payload, Dict(s.stored), free)
  {
    var a, w := s.evaluated, Dict(s.stored);
    var enforced := RestoreAll(Dict(s.data), s.refused, w);
    EnforcedIs(s);
    EvaluationHarmless(s, free);
    PayloadIsObject(s);
    RestoreStaysObject(Dict(s.data), s.refused, w);
    SameIsOneSided(s.Enforced().payload, enforced, free);
    SameButBoth(a.payload, s.Enforced().payload, enforced, free);
    GuardedAgree(s, free);
    RestoresAgree(a.payload, enforced, s.guarded, Dict(a.stored), w, free);
    TwoPasses(s, free);
    SameButBoth(RestoreAll(a.payload, s.guarded, Dict(a.stored)), RestoreAll(enforced, s.guarded, w), w, free);
    RestoresSame(a, a.payload, Dict(a.stored), s.guarded);
    SameIsSameBut(RestoreAll(a.payload, s.guarded, Dict(a.stored)), w, s.Final().payload, free);
  }

  lemma SameIsOneSided(v: Value, w: Value, free: set<string>)
    requires Same(v, w) && v.Dict? && w.Dict?
    ensures SameBut(v, w, free)
  {
    forall k ensures Same(Get(v.entries, k), Get(w.entries, k)) { SameGet(v, w, k); }
  }

  lemma GuardedAgree(s: Stages, free: set<string>)
    requires s.Valid() && Survives(s, free)
    ensures forall p :: p in PathsNamed(s.guarded) ==>
      p[0] in free || ReadsAs(Dict(s.evaluated.stored), Dict(s.stored), p)
  {
    forall p | p in PathsNamed(s.guarded) ensures p[0] in free || ReadsAs(Dict(s.evaluated.stored), Dict(s.stored), p) {
      EvaluatedReads(s, p);
    }
  }

  /** A taken path that reads as stored in the end was not spoilt. */
  lemma NotSpoilt(s: Stages, p: Path)
    requires s.Valid() && p != [] && Taken(s, p) && ReadsAs(s.Final().payload, Dict(s.stored), p)
    ensures ReadsAs(s.Spoilt(), Dict(s.stored), p)
  {
    TakenReads(s, p);
    if ReadAt(Dict(s.stored), p) == Null { BlanksKeepNull(Dict(s.stored), s.masks, p); }
  }

  // ---- What no restore brings back ----------------------------------------------------------------

  lemma {:induction false} RestoresLeaveNull(d: Draft, fields: seq<string>, p: Path)
    requires p != [] && ReadAt(d.payload, p) == Null
    requires forall u :: u in PathsNamed(fields) ==> !(u <= p)
    ensures ReadAt(RestoreAllShared(d, fields).payload, p) == Null
    decreases fields
  {
    if fields != [] {
      var u := Segments(fields[0]);
      FirstNamed(fields);
      assert u != [] ==> u in PathsNamed(fields);
      if u != [] { NullStays(d.payload, u, ReadAt(Dict(d.stored), u), p); }
      RestoresLeaveNull(RestoreShared(d, u), fields[1..], p);
    }
  }

  lemma {:induction false} BlanksLeaveNull(d: Draft, fields: seq<string>, p: Path)
    requires p != [] && ReadAt(d.payload, p) == Null
    ensures ReadAt(BlanksStored(d, fields).payload, p) == Null
    decreases fields
  {
    if fields != [] {
      var u := Segments(fields[0]);
      if u != [] { NullStays(d.payload, u, Null, p); }
      BlanksLeaveNull(BlankStored(d, u), fields[1..], p);
    }
  }

  /** A path the data has nothing at, and nothing is restored at or above, is stored as null. */
  lemma NotBroughtBack(s: Stages, p: Path)
    requires s.Valid() && p != [] && ReadAt(Dict(s.data), p) == Null
    requires forall u :: u in Restored(s) ==> !(u <= p)
    ensures ReadAt(s.Final().payload, p) == Null
  {
    assert forall u :: u in PathsNamed(s.refused) || u in PathsNamed(s.guarded) ==> u in Restored(s);
    RestoresLeaveNull(s.Start(), s.refused, p);
    BlanksLeaveNull(s.Enforced(), s.masks, p);
    SameRead(s.evaluated.payload, BlanksStored(s.Enforced(), s.masks).payload, p);
    RestoresLeaveNull(s.evaluated, s.guarded, p);
  }

  /** Under a field that is no object, the evaluation spoils nothing. */
  lemma PlainFieldSafe(s: Stages, p: Path)
    requires s.Valid() && p != [] && !Get(s.stored, p[0]).Dict?
    ensures ReadsAs(s.Spoilt(), Dict(s.stored), p)
  {
    if |p| > 1 {
      BlanksKeepNull(Dict(s.stored), s.masks, p);
    } else {
      assert p == [p[0]] && Clear(s.masks, p);
      BlanksAway(Dict(s.stored), s.masks, p);
    }
  }

  // ---- A field no restore names -----------------------------------------------------------------------

  /** A key holding no object is kept as it is, present or not. */
  predicate KeyKept(v: Value, w: Value, k: string) {
    && v.Dict? && w.Dict?
    && (k in v.entries <==> k in w.entries) && Get(v.entries, k) == Get(w.entries, k)
  }

  lemma {:induction false} RestoresKeepKey(d: Draft, fields: seq<string>, k: string)
    requires d.payload.Dict? && !Get(d.payload.entries, k).Dict? && [k] !in PathsNamed(fields)
    ensures KeyKept(RestoreAllShared(d, fields).payload, d.payload, k)
    decreases fields
  {
    if fields != [] {
      FirstNamed(fields);
      var u := Segments(fields[0]);
      assert u != [] ==> u in PathsNamed(fields);
      if u != [] { SetKeepsKey(d.payload, u, ReadAt(Dict(d.stored), u), k); }
      RestoresKeepKey(RestoreShared(d, u), fields[1..], k);
    }
  }

  lemma SetKeepsKey(v: Value, u: Path, x: Value, k: string)
    requires v.Dict? && !Get(v.entries, k).Dict? && u != [] && u != [k]
    ensures KeyKept(SetAt(v, u, x), v, k)
  {
    assert u == [u[0]] + u[1..];
  }

  lemma {:induction false} BlanksKeepKey(d: Draft, fields: seq<string>, k: string)
    requires d.payload.Dict? && !Get(d.payload.entries, k).Dict? && forall f :: f in fields ==> |Segments(f)| > 1
    ensures KeyKept(BlanksStored(d, fields).payload, d.payload, k)
    decreases fields
  {
    if fields != [] {
      assert fields[0] in fields && forall f :: f in fields[1..] ==> f in fields;
      SetKeepsKey(d.payload, Segments(fields[0]), Null, k);
      BlanksKeepKey(BlankStored(d, Segments(fields[0])), fields[1..], k);
    }
  }

  /** A key the data holds no object under, and no restore names, is stored as posted, and only if it was. */
  lemma KeyStays(s: Stages, k: string)
    requires s.Valid() && !Get(s.data, k).Dict? && [k] !in Restored(s)
    ensures KeyKept(s.Final().payload, Dict(s.data), k)
  {
    var d, a := s.Enforced(), s.evaluated;
    PayloadIsObject(s);
    RestoresKeepKey(s.Start(), s.refused, k);
    BlanksKeepKey(d, s.masks, k);
    SameGet(a.payload, BlanksStored(d, s.masks).payload, k);
    assert k in Fields(a.payload) <==> k in Fields(d.payload);
    assert Get(a.payload.entries, k) == Get(d.payload.entries, k);
    RestoresKeepKey(a, s.guarded, k);
  }
}
