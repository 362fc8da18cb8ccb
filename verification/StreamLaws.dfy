/** Streams and loads under masks of any depth: exactly when they show the same row. */
module StreamLaws {
  import opened Values
  import opened Text
  import opened Paths
  import opened FieldAcl
  import opened Session
  import opened Views
  import opened WriteFields
  import opened Drafts
  import opened DraftLaws
  import opened EvaluationLaws
  import opened ViewLaws
  import opened Secrecy

  /** No condition reads a field below which a mask lies. */
  predicate ConditionsSpareMasks(w: Setting) {
    forall f, g :: f in w.conditions && g in w.Masks() && |Segments(g)| > 1 ==> !ConditionReads(w, f, Segments(g)[0])
  }

  predicate CanonicalAll(w: Setting) {
    forall f :: f in w.Masks() ==> Canonical(f)
  }

  /** The masks whose blanks a stream writes into the row itself. */
  function StreamReaching(w: Setting): seq<string> {
    Reaching(StreamBaseline(w), StreamBaseline(w))
  }

  function Streamed(w: Setting, record: Record): Value {
    WithBlanks(Dict(record), StreamReaching(w))
  }

  lemma {:induction false} CopyBlanked(t: Twin, fields: seq<string>)
    ensures Dict(TwinBlanks(t, fields).copy) == WithBlanks(Dict(t.copy), fields)
    decreases fields
  {
    if fields != [] { CopyBlanked(TwinBlank(t, Segments(fields[0])), fields[1..]); }
  }

  // ---- One key of a streamed row -------------------------------------------------------

  /** A key no mask names whole stays one object, and reveals write it with what is there. */
  lemma {:induction false} SharedKeyKept(w: Setting, t: Twin, fields: seq<string>, k: string)
    requires SharedAt(t, k) && forall f :: f in fields ==> Segments(f) != [k]
    ensures Same(Get(TwinReveals(w, t, fields).copy, k), Get(t.copy, k))
    decreases fields
  {
    if fields != [] {
      var p := Segments(fields[0]);
      assert fields[0] in fields && forall f :: f in fields[1..] ==> f in fields;
      if Revealed(w, t.original, fields[0]) {
        SharedKeyStep(t, p, k);
        SharedKeyKept(w, TwinRestore(t, p), fields[1..], k);
      } else {
        SharedKeyKept(w, t, fields[1..], k);
      }
    }
  }

  lemma SharedKeyStep(t: Twin, p: Path, k: string)
    requires SharedAt(t, k) && p != [k]
    ensures SharedAt(TwinRestore(t, p), k) && Same(Get(TwinRestore(t, p).copy, k), Get(t.copy, k))
  {
    if p != [] && p[0] == k && k in t.copy {
      assert |p| > 1 by { assert p == [k] + p[1..]; }
      SetSelf(t.copy[k], p[1..]);
    }
  }

  /** A key some mask names whole: hidden, or set back to the row's own value. */
  predicate BlankOrBack(t: Twin, record: Record, k: string, back: bool) {
    && Same(Get(t.original, k), Get(record, k))
    && Same(Get(t.copy, k), if back then Get(record, k) else Null)
    && (k in t.linked ==> back && k in t.original && k in t.copy && t.copy[k] == t.original[k])
  }

  lemma WholeKeyStep(t: Twin, record: Record, p: Path, k: string, back: bool)
    requires BlankOrBack(t, record, k, back) && PlainKey(k)
    ensures BlankOrBack(TwinRestore(t, p), record, k, back || p == [k])
  {
    if |p| > 1 && p[0] == k && k in t.copy {
      if k in t.linked {
        SetSelf(t.copy[k], p[1..]);
      } else {
        NotLinked(t, record, p, k, back);
      }
    }
  }

  lemma NotLinked(t: Twin, record: Record, p: Path, k: string, back: bool)
    requires BlankOrBack(t, record, k, back) && |p| > 1 && p[0] == k && k in t.copy && k !in t.linked
    ensures BlankOrBack(TwinRestore(t, p), record, k, back)
  {
    var x := ReadAt(Dict(t.original), p);
    assert x == ReadAt(Get(t.original, k), p[1..]);
    SameRead(Get(t.original, k), Get(record, k), p[1..]);
    SetThenSame(Get(record, k), Get(record, k), p[1..]);
    SameSet(t.copy[k], if back then Get(record, k) else Null, p[1..], x, ReadAt(Get(record, k), p[1..]));
  }

  lemma AgreeAfterReveal(w: Setting, t: Twin, record: Record, f: string)
    requires AgreeOnRead(w, t.original, record) && ConditionsSpareMasks(w) && f in w.Masks()
    ensures AgreeOnRead(w, TwinRestore(t, Segments(f)).original, record)
  {
    var p := Segments(f);
    forall g, k | ConditionReads(w, g, k) ensures Get(TwinRestore(t, p).original, k) == Get(record, k) {
      if p != [] { TwinSetElsewhere(t, p, ReadAt(Dict(t.original), p), k); }
    }
  }

  lemma {:induction false} WholeKeyRevealed(w: Setting, t: Twin, record: Record, fields: seq<string>, k: string,
    back: bool)
    requires BlankOrBack(t, record, k, back) && PlainKey(k)
    requires AgreeOnRead(w, t.original, record) && ConditionsSpareMasks(w)
    requires forall f :: f in fields ==> f in w.Masks() && Canonical(f)
    ensures Same(Get(TwinReveals(w, t, fields).copy, k),
                 if back || (k in fields && Revealed(w, record, k)) then Get(record, k) else Null)
    decreases fields
  {
    if fields != [] {
      var f := fields[0];
      assert fields == [f] + fields[1..] && f in fields && forall g :: g in fields[1..] ==> g in fields;
      var p := Segments(f);
      assert p == [k] <==> f == k by { PlainSegments(k); assert Dotted([k]) == k; }
      AgreeOnRevealed(w, t.original, record, f);
      if Revealed(w, record, f) {
        WholeKeyStep(t, record, p, k, back);
        AgreeAfterReveal(w, t, record, f);
        WholeKeyRevealed(w, TwinRestore(t, p), record, fields[1..], k, back || f == k);
      } else {
        WholeKeyRevealed(w, t, record, fields[1..], k, back);
      }
    }
  }

  lemma {:induction false} WholeUnlinked(t: Twin, fields: seq<string>, k: string)
    requires (k in t.linked ==> k in t.copy) && (k !in t.linked || Whole(fields, k))
    ensures k !in TwinBlanks(t, fields).linked
    decreases fields
  {
    if fields != [] {
      var p := Segments(fields[0]);
      assert fields == [fields[0]] + fields[1..];
      assert Whole(fields, k) ==> p == [k] || Whole(fields[1..], k);
      WholeUnlinked(TwinBlank(t, p), fields[1..], k);
    }
  }

  lemma StreamBlanked(record: Record, fields: seq<string>)
    requires Ascending(fields) && forall f :: f in fields ==> Canonical(f)
    ensures var t := TwinBlanks(ShallowCopy(record), fields);
      && Dict(t.original) == WithBlanks(Dict(record), Reaching(fields, fields))
      && forall k :: !Whole(fields, k) ==> SharedAt(t, k)
  {
    var e := Evaluation(ShallowCopy(record), Dict(record), {});
    BlanksReach(e, fields, fields);
    BlanksSharedTwin(e, fields);
    BlanksOfStored(Behind(e), Reaching(fields, fields));
  }

  /** The keys that hold a whole mask are the plain ones among the masks. */
  lemma WholeIsMask(fields: seq<string>, k: string)
    requires forall f :: f in fields ==> Canonical(f)
    ensures Whole(fields, k) <==> PlainKey(k) && k in fields
  {
    if PlainKey(k) { PlainSegments(k); }
    forall f | f in fields && Segments(f) == [k] ensures PlainKey(k) && f == k {
      assert Canonical(f) && Dotted([k]) == k && k in Segments(f);
    }
  }

  /** A top-level key of a streamed row: under a whole mask the true value or nothing, else what the blanks leave. */
  lemma StreamKey(w: Setting, record: Record, k: string)
    requires CanonicalAll(w) && ConditionsSpareMasks(w)
    ensures Same(Get(StreamView(w, record).entries, k),
      if PlainKey(k) && k in w.Masks() then (if Revealed(w, record, k) then Get(record, k) else Null)
      else ReadAt(Streamed(w, record), [k]))
  {
    var fields := StreamBaseline(w);
    WholeIsMask(fields, k);
    if PlainKey(k) && k in w.Masks() {
      MaskedStreamKey(w, record, k);
    } else {
      StreamBlanked(record, fields);
      SharedKeyKept(w, TwinBlanks(ShallowCopy(record), fields), fields, k);
    }
  }

  lemma MaskedStreamKey(w: Setting, record: Record, k: string)
    requires CanonicalAll(w) && ConditionsSpareMasks(w) && PlainKey(k) && k in w.Masks()
    ensures Same(Get(StreamView(w, record).entries, k), if Revealed(w, record, k) then Get(record, k) else Null)
  {
    var fields := StreamBaseline(w);
    var t := TwinBlanks(ShallowCopy(record), fields);
    PlainSegments(k);
    StreamBlanked(record, fields);
    MaskedKeyBlanked(record, fields, t, k);
    AgreeAfterStreamBlanks(w, record, t);
    WholeKeyRevealed(w, t, record, fields, k, false);
  }

  lemma AgreeAfterStreamBlanks(w: Setting, record: Record, t: Twin)
    requires ConditionsSpareMasks(w) && t == TwinBlanks(ShallowCopy(record), StreamBaseline(w))
    ensures AgreeOnRead(w, t.original, record)
  {
    forall f, k | ConditionReads(w, f, k) ensures Get(t.original, k) == Get(record, k) {
      TwinBlanksElsewhere(ShallowCopy(record), StreamBaseline(w), k);
    }
  }

  lemma MaskedKeyBlanked(record: Record, fields: seq<string>, t: Twin, k: string)
    requires t == TwinBlanks(ShallowCopy(record), fields) && k in fields && Segments(k) == [k]
    requires Dict(t.original) == WithBlanks(Dict(record), Reaching(fields, fields))
    ensures BlankOrBack(t, record, k, false)
  {
    var ns := Reaching(fields, fields);
    CopyBlanked(ShallowCopy(record), fields);
    BlanksKeepNull(Dict(record), fields, [k]);
    assert ReadAt(Dict(t.copy), [k]) == Get(t.copy, k);
    WholeUnlinked(ShallowCopy(record), fields, k);
    assert Whole(fields, k);
    BlanksElsewhere(Dict(record), ns, k);
  }

  lemma {:induction false} BlanksElsewhere(v: Value, fields: seq<string>, k: string)
    requires v.Dict? && forall f :: f in fields ==> Segments(f) != [] && Segments(f)[0] != k
    ensures WithBlanks(v, fields).Dict? && Get(WithBlanks(v, fields).entries, k) == Get(v.entries, k)
    decreases fields
  {
    if fields != [] {
      assert fields[0] in fields;
      var p := Segments(fields[0]);
      SetKey(v, p, Null, k);
      BlanksElsewhere(BlankAt(v, p), fields[1..], k);
    }
  }

  // ---- One key of a loaded row ------------------------------------------------------------

  /** Under a key the masks emptied, reveals give the true value or nothing. */
  lemma {:induction false} EmptiedKeyRevealed(w: Setting, v: Value, record: Record, fields: seq<string>, k: string,
    back: bool)
    requires v.Dict? && Same(Get(v.entries, k), if back then Get(record, k) else Null)
    requires forall f :: f in fields ==> Canonical(f)
    ensures WithReveals(w, v, record, fields).Dict?
    ensures Same(Get(WithReveals(w, v, record, fields).entries, k),
                 if back || (PlainKey(k) && k in fields && Revealed(w, record, k)) then Get(record, k) else Null)
    decreases fields
  {
    if fields != [] {
      var f := fields[0];
      assert fields == [f] + fields[1..] && f in fields && forall g :: g in fields[1..] ==> g in fields;
      var p := Segments(f);
      var x := ReadAt(Dict(record), p);
      assert p == [k] <==> f == k && PlainKey(k) by {
        assert Dotted([k]) == k && (p == [k] ==> k in p);
        if PlainKey(k) { PlainSegments(k); }
      }
      SetKey(v, p, x, k);
      if p[0] == k && |p| > 1 {
        var was := if back then Get(record, k) else Null;
        SameSet(Get(v.entries, k), was, p[1..], x, x);
        SetSelf(Get(record, k), p[1..]);
      }
      var more := back || (p == [k] && Revealed(w, record, f));
      EmptiedKeyRevealed(w, RevealOne(w, v, record, f), record, fields[1..], k, more);
    }
  }

  lemma LoadedKey(w: Setting, record: Record, k: string)
    requires CanonicalAll(w) && ((PlainKey(k) && k in w.Masks()) || WILDCARD in w.Denied())
    ensures View(w, record).Dict?
    ensures Same(Get(View(w, record).entries, k),
                 if PlainKey(k) && k in w.Obfuscated() && Revealed(w, record, k) then Get(record, k) else Null)
  {
    MaskedIsNulled(w, record, k);
    EmptiedKeyRevealed(w, MaskedView(w.policies, w.Where(), Dict(record)), record, SortedSeq(w.Obfuscated()), k, false);
  }

  // ---- The two rows -------------------------------------------------------------------------

  /** Blanking paths that read null changes nothing. */
  lemma {:induction false} BlankedNulls(v: Value, paths: set<Path>)
    requires [] !in paths && forall p :: p in paths ==> ReadAt(v, p) == Null
    ensures Same(Blanked(v, paths), v)
  {
    if v.Dict? {
      var r := Blanked(v, paths);
      forall k ensures Same(Get(r.entries, k), Get(v.entries, k)) {
        if k in v.entries {
          var below := Below(paths, k);
          assert r.entries[k] == Blanked(v.entries[k], below);
          forall t | t in below && t != [] ensures ReadAt(v.entries[k], t) == Null {
            BelowMember(paths, k, t);
            assert ([k] + t)[1..] == t && ReadAt(v, [k] + t) == Null;
          }
          if [] in below {
            BelowMember(paths, k, []);
            assert [k] + [] == [k] && ReadAt(v, [k]) == Null == v.entries[k];
          } else {
            BlankedNulls(v.entries[k], below);
          }
        }
      }
      SameRecords(r.entries, v.entries);
    }
  }

  /** Two values with nothing at the paths in which they may differ are the same. */
  lemma NullsAgree(v: Value, w: Value, paths: set<Path>)
    requires [] !in paths && SameOutside(v, w, paths)
    requires forall p :: p in paths ==> ReadAt(v, p) == Null && ReadAt(w, p) == Null
    ensures Same(v, w)
  {
    BlankedNulls(v, paths);
    BlankedNulls(w, paths);
  }

  /** A field whose true value only the stream shows: a denied one its condition brings back, or, `*` being denied, any
      that no mask names whole. */
  predicate OnlyStreamShows(w: Setting, record: Record, k: string) {
    if PlainKey(k) && k in w.Masks() then Revealed(w, record, k) && k !in w.Obfuscated() else WILDCARD in w.Denied()
  }

  /** The key reads the same in both rows. */
  predicate KeyAgrees(w: Setting, record: Record, k: string)
    requires View(w, record).Dict?
  {
    Same(Get(StreamView(w, record).entries, k), Get(View(w, record).entries, k))
  }

  lemma {:induction false} ObjectsStay(v: Value, fields: seq<string>, k: string)
    requires v.Dict? && Get(v.entries, k).Dict? && forall f :: f in fields ==> |Segments(f)| > 1
    ensures WithBlanks(v, fields).Dict? && Get(WithBlanks(v, fields).entries, k).Dict?
    decreases fields
  {
    if fields != [] {
      assert fields[0] in fields && forall f :: f in fields[1..] ==> f in fields;
      SetKey(v, Segments(fields[0]), Null, k);
      ObjectsStay(BlankAt(v, Segments(fields[0])), fields[1..], k);
    }
  }

  lemma StreamedNull(w: Setting, record: Record, k: string)
    ensures ReadAt(Streamed(w, record), [k]) == Null <==> Get(record, k) == Null
  {
    var ns := StreamReaching(w);
    assert ReadAt(Dict(record), [k]) == Get(record, k);
    if Get(record, k).Dict? {
      ObjectsStay(Dict(record), ns, k);
    } else {
      forall f | f in ns ensures !(Segments(f) <= [k]) { assert |Segments(f)| > 1; }
      BlanksAway(Dict(record), ns, [k]);
    }
  }

  lemma WholeKeyAgrees(w: Setting, record: Record, k: string)
    requires CanonicalAll(w) && ConditionsSpareMasks(w) && ((PlainKey(k) && k in w.Masks()) || WILDCARD in w.Denied())
    ensures View(w, record).Dict?
    ensures KeyAgrees(w, record, k) <==> (OnlyStreamShows(w, record, k) ==> Get(record, k) == Null)
  {
    LoadedKey(w, record, k);
    StreamKey(w, record, k);
    StreamedNull(w, record, k);
  }

  /** Two rows, both the record but for masked paths at which neither shows anything, agree on a key. */
  lemma NullsUnderKey(view: Record, left: Record, record: Record, hidden: set<Path>, paths: set<Path>, k: string)
    requires [] !in hidden && [] !in paths && [k] !in paths
    requires SameOutside(Dict(view), Dict(record), hidden) && SameOutside(Dict(left), Dict(record), paths)
    requires Below(hidden, k) <= Below(paths, k)
    requires forall p :: p in paths ==> ReadAt(Dict(view), p) == Null && ReadAt(Dict(left), p) == Null
    ensures Same(Get(view, k), Get(left, k))
  {
    var below := Below(paths, k);
    SameOutsideByKey(view, record, hidden);
    SameOutsideByKey(left, record, paths);
    MoreOutside(Get(view, k), Get(record, k), Below(hidden, k), below);
    forall t | t in below ensures t != [] && ReadAt(Get(view, k), t) == Null && ReadAt(Get(left, k), t) == Null {
      BelowMember(paths, k, t);
      assert [k] + [] == [k] && ([k] + t)[1..] == t;
    }
    NullsAgree(Get(view, k), Get(left, k), below);
  }

  /** Without a denied `*`, a key no mask names whole reads the same when the load shows nothing at the masks below. */
  lemma OpenKeyAgrees(w: Setting, record: Record, k: string)
    requires CanonicalReadMasks(w) && ConditionsSpareMasks(w) && !(PlainKey(k) && k in w.Masks())
    requires forall f :: f in StreamReaching(w) ==> ReadAt(View(w, record), Segments(f)) == Null
    ensures View(w, record).Dict? && KeyAgrees(w, record, k)
  {
    var ns, hidden := StreamReaching(w), SegmentsOf(HiddenMasks(w, record));
    var paths, left := SegmentSet(ns), Streamed(w, record);
    ViewIsDict(w, record);
    StreamKey(w, record, k);
    ViewCovers(w, record);
    StreamedNulls(record, ns);
    HiddenReach(w, record, k);
    ReachingCanonical(w);
    NullsUnderKey(View(w, record).entries, left.entries, record, hidden, paths, k);
  }

  lemma ReachingCanonical(w: Setting)
    requires CanonicalAll(w)
    ensures forall f :: f in StreamReaching(w) ==> Canonical(f) && |Segments(f)| > 1
  {
    forall f | f in StreamReaching(w) ensures Canonical(f) && |Segments(f)| > 1 { assert f in w.Masks(); }
  }

  lemma StreamedNulls(record: Record, ns: seq<string>)
    requires forall f :: f in ns ==> Canonical(f)
    ensures var left := WithBlanks(Dict(record), ns);
      && left.Dict? && SameOutside(left, Dict(record), SegmentSet(ns))
      && forall p :: p in SegmentSet(ns) ==> ReadAt(left, p) == Null
  {
    BlanksKeepKeys(Dict(record), ns);
    BlanksCovered(Dict(record), ns, SegmentSet(ns));
    forall p | p in SegmentSet(ns) ensures ReadAt(WithBlanks(Dict(record), ns), p) == Null {
      var f :| f in ns && Segments(f) == p;
      BlanksKeepNull(Dict(record), ns, p);
    }
  }

  /** Every hidden mask under such a key is one whose blank reaches the row. */
  lemma HiddenReach(w: Setting, record: Record, k: string)
    requires CanonicalReadMasks(w) && !(PlainKey(k) && k in w.Masks())
    ensures var hidden, paths := SegmentsOf(HiddenMasks(w, record)), SegmentSet(StreamReaching(w));
      [] !in hidden && [] !in paths && [k] !in paths && Below(hidden, k) <= Below(paths, k)
  {
    var hidden, fields := HiddenMasks(w, record), StreamBaseline(w);
    WholeIsMask(fields, k);
    assert forall f :: f in hidden ==> f in fields;
    ReachingCanonical(w);
    UnderOpenKey(hidden, fields, k);
  }

  lemma UnderOpenKey(hidden: set<string>, fields: seq<string>, k: string)
    requires !Whole(fields, k) && forall f :: f in hidden ==> f in fields && Canonical(f)
    ensures [] !in SegmentsOf(hidden) && Below(SegmentsOf(hidden), k) <= Below(SegmentSet(Reaching(fields, fields)), k)
  {
    var ns := Reaching(fields, fields);
    forall t | t in Below(SegmentsOf(hidden), k) ensures t in Below(SegmentSet(ns), k) {
      BelowMember(SegmentsOf(hidden), k, t);
      var f :| f in hidden && Segments(f) == [k] + t;
      assert t == [] ==> Segments(f) == [k];
      assert Reaches(f, fields) && f in ns;
      BelowMember(SegmentSet(ns), k, t);
    }
  }

  /** Of the masks whose blanks reach the row itself, the topmost of which a condition lifts, none hides anything; with
      `*` denied the load shows nothing but whole fields. */
  predicate NothingLifted(w: Setting, record: Record) {
    WILDCARD !in w.Denied() ==>
      forall f :: f in StreamReaching(w) && Lifted(w, record, Segments(f)) ==> ReadAt(Dict(record), Segments(f)) == Null
  }

  lemma LiftedIsShown(w: Setting, record: Record, f: string)
    requires CanonicalAll(w) && f in StreamReaching(w)
    ensures ReadAt(View(w, record), Segments(f)) == Null <==>
      (Lifted(w, record, Segments(f)) ==> ReadAt(Dict(record), Segments(f)) == Null)
  {
    MaskedPath(w, record, f);
    ViewAt(w, record, Segments(f));
    NullExactlyWhen(View(w, record), Dict(record), Segments(f), Lifted(w, record, Segments(f)));
  }

  lemma NullExactlyWhen(v: Value, w: Value, p: Path, lifted: bool)
    requires if lifted then ReadsAs(v, w, p) else ReadAt(v, p) == Null
    ensures ReadAt(v, p) == Null <==> (lifted ==> ReadAt(w, p) == Null)
  {}

  lemma MaskedPath(w: Setting, record: Record, f: string)
    requires CanonicalAll(w) && f in StreamReaching(w)
    ensures Segments(f) != [] && Segments(f) in MaskPaths(w, record)
  {
    assert f in w.Masks() && Canonical(f);
  }

  /** Whatever the depth of the masks, as long as no condition reads a field a mask reaches into: a stream and a load
      show the same row exactly when the record has nothing in the fields only the stream shows and, unless `*` is
      denied, nothing at the masks whose blanks reach the row itself and the topmost of which is lifted. */
  lemma StreamAgreesAtAnyDepth(w: Setting, record: Record)
    requires CanonicalAll(w) && ConditionsSpareMasks(w)
    ensures View(w, record).Dict?
    ensures Same(StreamView(w, record), View(w, record)) <==>
      && (forall k :: OnlyStreamShows(w, record, k) ==> Get(record, k) == Null)
      && NothingLifted(w, record)
  {
    ViewIsDict(w, record);
    if Same(StreamView(w, record), View(w, record)) {
      AgreeingRows(w, record);
    } else if NothingLifted(w, record) && forall k :: OnlyStreamShows(w, record, k) ==> Get(record, k) == Null {
      AgreeingKeys(w, record);
    }
  }

  lemma AgreeingKeys(w: Setting, record: Record)
    requires CanonicalAll(w) && ConditionsSpareMasks(w) && View(w, record).Dict? && NothingLifted(w, record)
    requires forall k :: OnlyStreamShows(w, record, k) ==> Get(record, k) == Null
    ensures Same(StreamView(w, record), View(w, record))
  {
    var a, b := StreamView(w, record).entries, View(w, record).entries;
    forall k ensures Same(Get(a, k), Get(b, k)) { OneKeyAgrees(w, record, k); }
    RowsFromKeys(a, b);
  }

  lemma OneKeyAgrees(w: Setting, record: Record, k: string)
    requires CanonicalAll(w) && ConditionsSpareMasks(w) && View(w, record).Dict? && NothingLifted(w, record)
    requires OnlyStreamShows(w, record, k) ==> Get(record, k) == Null
    ensures KeyAgrees(w, record, k)
  {
    if (PlainKey(k) && k in w.Masks()) || WILDCARD in w.Denied() {
      WholeKeyAgrees(w, record, k);
    } else {
      forall f | f in StreamReaching(w) ensures ReadAt(View(w, record), Segments(f)) == Null {
        LiftedIsShown(w, record, f);
      }
      OpenKeyAgrees(w, record, k);
    }
  }

  lemma RowsFromKeys(a: Record, b: Record)
    requires forall k :: Same(Get(a, k), Get(b, k))
    ensures Same(Dict(a), Dict(b))
  {
    SameRecords(a, b);
  }

  lemma AgreeingRows(w: Setting, record: Record)
    requires CanonicalAll(w) && ConditionsSpareMasks(w) && View(w, record).Dict?
    requires Same(StreamView(w, record), View(w, record))
    ensures NothingLifted(w, record) && forall k :: OnlyStreamShows(w, record, k) ==> Get(record, k) == Null
  {
    SameRecords(StreamView(w, record).entries, View(w, record).entries);
    forall k | OnlyStreamShows(w, record, k) ensures Get(record, k) == Null {
      assert KeyAgrees(w, record, k);
      WholeKeyAgrees(w, record, k);
    }
    forall f | f in StreamReaching(w) && Lifted(w, record, Segments(f))
      ensures ReadAt(Dict(record), Segments(f)) == Null
    {
      LiftedReadsNull(w, record, f);
    }
  }

  lemma LiftedReadsNull(w: Setting, record: Record, f: string)
    requires CanonicalAll(w) && ConditionsSpareMasks(w) && Same(StreamView(w, record), View(w, record))
    requires f in StreamReaching(w) && Lifted(w, record, Segments(f))
    ensures ReadAt(Dict(record), Segments(f)) == Null
  {
    ReachingReadsNull(w, record, f);
    SameRead(StreamView(w, record), View(w, record), Segments(f));
    LiftedIsShown(w, record, f);
  }

  lemma ReachingReadsNull(w: Setting, record: Record, f: string)
    requires CanonicalAll(w) && ConditionsSpareMasks(w) && f in StreamReaching(w)
    ensures |Segments(f)| > 1 && ReadAt(StreamView(w, record), Segments(f)) == Null
  {
    ReachingOpen(w, record, f);
    BlanksKeepNull(Dict(record), StreamReaching(w), Segments(f));
    ReadsBelow(StreamView(w, record), Streamed(w, record), Segments(f)[..1], Segments(f));
  }

  lemma ReachingOpen(w: Setting, record: Record, f: string)
    requires CanonicalAll(w) && ConditionsSpareMasks(w) && f in StreamReaching(w)
    ensures |Segments(f)| > 1 && ReadsAs(StreamView(w, record), Streamed(w, record), Segments(f)[..1])
  {
    var p := Segments(f);
    WholeIsMask(StreamBaseline(w), p[0]);
    StreamKey(w, record, p[0]);
    assert p[..1] == [p[0]];
    assert ReadAt(StreamView(w, record), [p[0]]) == Get(StreamView(w, record).entries, p[0]);
  }
}
