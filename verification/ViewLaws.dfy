/** What a view keeps of a record: everything the masks that stay hidden do not cover. */
module ViewLaws {
  import opened Values
  import opened Text
  import opened Paths
  import opened FieldAcl
  import opened Session
  import opened Views
  import opened WriteFields
  import opened DraftLaws
  import opened EvaluationLaws

  /** The masks that hide something of this record: denied fields, and obfuscated ones no condition reveals. */
  function HiddenMasks(w: Setting, record: Record): set<string> {
    w.Denied() + set f | f in w.Obfuscated() && !Revealed(w, record, f)
  }

  function SegmentsOf(fields: set<string>): set<Path> {
    set f | f in fields :: Segments(f)
  }

  lemma {:induction false} DeniedCovered(v: Value, fields: seq<string>, paths: set<Path>)
    requires forall f :: f in fields ==> f != WILDCARD && Canonical(f) && Segments(f) in paths
    ensures SameOutside(WithoutDenied(v, fields), v, paths)
    decreases fields
  {
    if fields != [] {
      assert fields[0] in fields && forall f :: f in fields[1..] ==> f in fields;
      CoveredChange(v, Segments(fields[0]), Null, paths);
      DeniedCovered(DeleteAt(v, Segments(fields[0])), fields[1..], paths);
    }
  }

  lemma {:induction false} BlanksCovered(v: Value, fields: seq<string>, paths: set<Path>)
    requires forall f :: f in fields ==> Canonical(f) && Segments(f) in paths
    ensures SameOutside(WithBlanks(v, fields), v, paths)
    decreases fields
  {
    if fields != [] {
      assert fields[0] in fields;
      CoveredChange(v, Segments(fields[0]), Null, paths);
      BlanksCovered(BlankAt(v, Segments(fields[0])), fields[1..], paths);
    }
  }

  /** Reveals shrink what is covered to the base and the paths that stay hidden. */
  lemma {:induction false} RevealsUncover(w: Setting, v: Value, record: Record, fields: seq<string>, base: set<Path>)
    requires SameOutside(v, Dict(record), base + SegmentSet(fields)) && forall f :: f in fields ==> Segments(f) != []
    ensures SameOutside(WithReveals(w, v, record, fields), Dict(record),
                        base + SegmentSet(Unrevealed(w, record, fields)))
    decreases fields
  {
    if fields == [] { return; }
    var f, rest := fields[0], fields[1..];
    var p := Segments(f);
    assert fields == [f] + rest && f in fields && forall g :: g in rest ==> g in fields;
    SegmentSetCons(f, rest);
    if Revealed(w, record, f) {
      assert base + SegmentSet(fields) == base + SegmentSet(rest) + {p};
      OneUncovers(v, Dict(record), p, base + SegmentSet(rest));
      RevealsUncover(w, RevealOne(w, v, record, f), record, rest, base);
      assert Unrevealed(w, record, fields) == Unrevealed(w, record, rest);
    } else {
      assert base + ({p} + SegmentSet(rest)) == base + {p} + SegmentSet(rest);
      RevealsUncover(w, v, record, rest, base + {p});
      var still := Unrevealed(w, record, rest);
      SegmentSetCons(f, still);
      assert base + ({p} + SegmentSet(still)) == base + {p} + SegmentSet(still);
    }
  }

  predicate CanonicalReadMasks(w: Setting) {
    WILDCARD !in w.Denied() && forall f :: f in w.Masks() ==> Canonical(f)
  }

  lemma {:induction false} UnrevealedIs(w: Setting, record: Record, fields: seq<string>)
    ensures forall f :: f in Unrevealed(w, record, fields) <==> f in fields && !Revealed(w, record, f)
  {
    if fields != [] {
      assert fields == [fields[0]] + fields[1..];
      UnrevealedIs(w, record, fields[1..]);
    }
  }

  lemma MaskedCovers(policies: seq<Policy>, c: Context, r: Value, paths: set<Path>)
    requires forall f :: f in ReadDenied(policies, c) ==> f != WILDCARD
    requires forall f :: f in ReadMasks(policies, c) ==> Canonical(f) && Segments(f) in paths
    ensures SameOutside(MaskedView(policies, c, r), r, paths)
  {
    var denied := SortedSeq(ReadDenied(policies, c));
    DeniedCovered(r, denied, paths);
    BlanksCovered(WithoutDenied(r, denied), SortedSeq(ReadObfuscated(policies, c)), paths);
  }

  /** The masks that leave null in what the actor is shown: a denied field that is also obfuscated may be revealed. */
  function NulledMasks(w: Setting, record: Record): set<string> {
    (set f | f in w.Denied() && !(f in w.Obfuscated() && Revealed(w, record, f))) +
    (set f | f in w.Obfuscated() && !Revealed(w, record, f))
  }

  /** What the actor is shown is the record, apart from what the hidden masks cover. */
  lemma ViewCovers(w: Setting, record: Record)
    requires CanonicalReadMasks(w)
    ensures SameOutside(View(w, record), Dict(record), SegmentsOf(HiddenMasks(w, record)))
    ensures SameOutside(View(w, record), Dict(record), SegmentsOf(NulledMasks(w, record)))
  {
    ViewCoversFrom(w, record, w.Denied());
    ViewCoversFrom(w, record, set f | f in w.Denied() && !(f in w.Obfuscated() && Revealed(w, record, f)));
    UnrevealedIs(w, record, SortedSeq(w.Obfuscated()));
    var still := set f | f in w.Obfuscated() && !Revealed(w, record, f);
    assert HiddenMasks(w, record) == w.Denied() + still;
  }

  lemma ViewCoversFrom(w: Setting, record: Record, denied: set<string>)
    requires CanonicalReadMasks(w) && denied <= w.Denied() && w.Denied() - w.Obfuscated() <= denied
    ensures SameOutside(View(w, record), Dict(record),
                        SegmentsOf(denied + set f | f in w.Obfuscated() && !Revealed(w, record, f)))
  {
    var obfuscated := SortedSeq(w.Obfuscated());
    var base := SegmentsOf(denied);
    var v := MaskedView(w.policies, w.Where(), Dict(record));
    MaskedCovers(w.policies, w.Where(), Dict(record), base + SegmentSet(obfuscated));
    RevealsUncover(w, v, record, obfuscated, base);
    UnrevealedIs(w, record, obfuscated);
    UnionSegments(denied, Unrevealed(w, record, obfuscated),
                  denied + set f | f in w.Obfuscated() && !Revealed(w, record, f));
  }

  lemma UnionSegments(a: set<string>, b: seq<string>, union: set<string>)
    requires forall f :: f in union <==> f in a || f in b
    ensures SegmentsOf(union) == SegmentsOf(a) + SegmentSet(b)
  {}

  lemma {:induction false} ViewIsDict(w: Setting, record: Record)
    ensures View(w, record).Dict?
  {
    var denied, obfuscated := SortedSeq(w.Denied()), SortedSeq(w.Obfuscated());
    StaysDict(w, Dict(record), record, denied);
    StaysDict(w, WithoutDenied(Dict(record), denied), record, obfuscated);
    StaysDict(w, MaskedView(w.policies, w.Where(), Dict(record)), record, obfuscated);
  }

  lemma {:induction false} StaysDict(w: Setting, v: Value, record: Record, fields: seq<string>)
    requires v.Dict?
    ensures WithoutDenied(v, fields).Dict? && WithBlanks(v, fields).Dict? && WithReveals(w, v, record, fields).Dict?
    decreases fields
  {
    if fields != [] {
      var less := if fields[0] == WILDCARD then Dict(map[]) else DeleteAt(v, Segments(fields[0]));
      StaysDict(w, less, record, fields[1..]);
      StaysDict(w, BlankAt(v, Segments(fields[0])), record, fields[1..]);
      StaysDict(w, RevealOne(w, v, record, fields[0]), record, fields[1..]);
    }
  }

  // ---- A view adds no paths ---------------------------------------------------------

  /** Below a key no obfuscated mask reaches into, a view has no path the record has not. */
  lemma {:induction false} RevealsAddNone(w: Setting, v: Value, record: Record, fields: seq<string>, p: Path)
    requires |p| > 1 && (HasPath(v, p) ==> HasPath(Dict(record), p))
    requires forall f :: f in fields && |Segments(f)| > 1 ==> Segments(f)[0] != p[0]
    ensures HasPath(WithReveals(w, v, record, fields), p) ==> HasPath(Dict(record), p)
    decreases fields
  {
    if fields != [] {
      var u := Segments(fields[0]);
      assert fields[0] in fields;
      var x := ReadAt(Dict(record), u);
      if u != [] { KeyPath(v, u, x, p, record); }
      RevealsAddNone(w, RevealOne(w, v, record, fields[0]), record, fields[1..], p);
    }
  }

  lemma KeyPath(v: Value, u: Path, x: Value, p: Path, record: Record)
    requires u != [] && |p| > 1 && (HasPath(v, p) ==> HasPath(Dict(record), p))
    requires |u| > 1 ==> u[0] != p[0]
    requires |u| == 1 ==> x == Get(record, u[0])
    ensures HasPath(SetAt(v, u, x), p) ==> HasPath(Dict(record), p)
  {
    var r, k := SetAt(v, u, x), p[0];
    if HasPath(r, p) && v.Dict? {
      SetKey(v, u, x, k);
      assert HasPath(Get(r.entries, k), p[1..]);
      if u[0] != k {
        assert Get(v.entries, k) == Get(r.entries, k) && k in v.entries;
      } else {
        assert k in record;
      }
    }
  }

  lemma {:induction false} BlanksAddNone(v: Value, fields: seq<string>, p: Path)
    requires p != [] && !HasPath(v, p)
    ensures !HasPath(WithBlanks(v, fields), p)
    decreases fields
  {
    if fields != [] {
      BlankAddsNone(v, Segments(fields[0]), p);
      BlanksAddNone(BlankAt(v, Segments(fields[0])), fields[1..], p);
    }
  }

  lemma {:induction false} DeniedAddNone(v: Value, fields: seq<string>, p: Path)
    requires p != [] && !HasPath(v, p)
    ensures !HasPath(WithoutDenied(v, fields), p)
    decreases fields
  {
    if fields != [] {
      var u := Segments(fields[0]);
      if u != [] { PathsAfterDelete(v, u, p); }
      var emptied := if v.Dict? then Dict(map[]) else v;
      DeniedAddNone(if fields[0] == WILDCARD then emptied else DeleteAt(v, u), fields[1..], p);
    }
  }

  lemma ViewAddsNone(w: Setting, record: Record, p: Path)
    requires |p| > 1 && HasPath(View(w, record), p)
    requires forall f :: f in w.Obfuscated() && |Segments(f)| > 1 ==> Segments(f)[0] != p[0]
    ensures HasPath(Dict(record), p)
  {
    var denied, obfuscated := SortedSeq(w.Denied()), SortedSeq(w.Obfuscated());
    if !HasPath(Dict(record), p) {
      DeniedAddNone(Dict(record), denied, p);
      BlanksAddNone(WithoutDenied(Dict(record), denied), obfuscated, p);
    }
    RevealsAddNone(w, MaskedView(w.policies, w.Where(), Dict(record)), record, obfuscated, p);
  }

  // ---- What a view shows at a mask --------------------------------------------------------

  /** The paths the masks name; a denied `*` names every field the record has. */
  function MaskPaths(w: Setting, record: Record): set<Path> {
    SegmentsOf(w.Masks()) + if WILDCARD in w.Denied() then set k | k in record :: [k] else {}
  }

  /** The topmost mask at or above the path is obfuscated, and its condition matches the record. */
  predicate Lifted(w: Setting, record: Record, p: Path) {
    exists h :: h in w.Obfuscated() && LiftedBy(w, record, p, h)
  }

  predicate LiftedBy(w: Setting, record: Record, p: Path, h: string) {
    Revealed(w, record, h) && Segments(h) <= p && Topmost(Segments(h), MaskPaths(w, record))
  }

  lemma DeleteKeepsNull(v: Value, q: Path, p: Path)
    requires q != [] && p != [] && (ReadAt(v, p) == Null || p == q)
    ensures ReadAt(DeleteAt(v, q), p) == Null
  {
    PathsAfterDelete(v, q, p);
    if q <= p {
      MissingReadsNull(DeleteAt(v, q), p);
    } else if p <= q {
      NothingBelowNull(v, p, q);
      DeleteNothing(v, q);
    }
  }

  lemma {:induction false} DeniedReadNull(v: Value, fields: seq<string>, p: Path)
    requires v.Dict? && p != [] && forall f :: f in fields ==> Segments(f) != []
    requires ReadAt(v, p) == Null || WILDCARD in fields || p in SegmentSet(fields)
    ensures WithoutDenied(v, fields).Dict? && ReadAt(WithoutDenied(v, fields), p) == Null
    decreases fields
  {
    if fields != [] {
      var q := Segments(fields[0]);
      assert fields == [fields[0]] + fields[1..] && fields[0] in fields && forall f :: f in fields[1..] ==> f in fields;
      SegmentSetCons(fields[0], fields[1..]);
      if fields[0] == WILDCARD {
        DeniedReadNull(Dict(map[]), fields[1..], p);
      } else {
        if ReadAt(v, p) == Null || p == q { DeleteKeepsNull(v, q, p); }
        DeniedReadNull(DeleteAt(v, q), fields[1..], p);
      }
    }
  }

  /** Before any reveal, nothing is left at a masked path. */
  lemma MaskedReadsNull(w: Setting, record: Record, p: Path)
    requires (forall f :: f in w.Masks() ==> Canonical(f)) && p != [] && p in MaskPaths(w, record)
    ensures ReadAt(MaskedView(w.policies, w.Where(), Dict(record)), p) == Null
  {
    var denied, obfuscated := SortedSeq(w.Denied()), SortedSeq(w.Obfuscated());
    assert SegmentsOf(w.Masks()) == SegmentSet(denied) + SegmentSet(obfuscated);
    if p in SegmentSet(denied) || WILDCARD in denied { DeniedReadNull(Dict(record), denied, p); }
    BlanksKeepNull(WithoutDenied(Dict(record), denied), obfuscated, p);
  }

  lemma {:induction false} RevealsKeepNull(w: Setting, v: Value, record: Record, fields: seq<string>, p: Path)
    requires p != [] && ReadAt(v, p) == Null
    requires forall f :: f in fields && Revealed(w, record, f) ==> !(Segments(f) <= p)
    ensures ReadAt(WithReveals(w, v, record, fields), p) == Null
    decreases fields
  {
    if fields != [] {
      var f := fields[0];
      assert f in fields && forall g :: g in fields[1..] ==> g in fields;
      if Revealed(w, record, f) { NullStays(v, Segments(f), ReadAt(Dict(record), Segments(f)), p); }
      RevealsKeepNull(w, RevealOne(w, v, record, f), record, fields[1..], p);
    }
  }

  lemma {:induction false} RevealsSettle(w: Setting, v: Value, record: Record, fields: seq<string>, p: Path)
    requires p != [] && forall f :: f in fields ==> Segments(f) != []
    requires Settled(v, Dict(record), p) || exists f :: f in fields && Revealed(w, record, f) && Segments(f) == p
    ensures Settled(WithReveals(w, v, record, fields), Dict(record), p)
    decreases fields
  {
    if fields != [] {
      var f := fields[0];
      assert fields == [f] + fields[1..] && f in fields && forall g :: g in fields[1..] ==> g in fields;
      if Revealed(w, record, f) && (Segments(f) == p || Settled(v, Dict(record), p)) {
        SettledStep(v, Dict(record), Segments(f), p);
      }
      RevealsSettle(w, RevealOne(w, v, record, f), record, fields[1..], p);
    }
  }

  lemma {:induction false} RevealsKeepPlace(w: Setting, v: Value, record: Record, fields: seq<string>, p: Path)
    requires p != [] && (ParentIsDict(v, p) || ReadsAs(v, Dict(record), p))
    ensures var r := WithReveals(w, v, record, fields); ParentIsDict(r, p) || ReadsAs(r, Dict(record), p)
    decreases fields
  {
    if fields != [] {
      var q := Segments(fields[0]);
      if q != [] { RestoreStep(v, Dict(record), q, p); }
      RevealsKeepPlace(w, RevealOne(w, v, record, fields[0]), record, fields[1..], p);
    }
  }

  // ---- Places masks leave alone ------------------------------------------------------------------

  lemma {:induction false} DeleteKeepsPlace(v: Value, u: Path, p: Path)
    requires u != [] && p != [] && !(u < p) && ParentIsDict(v, p)
    ensures ParentIsDict(DeleteAt(v, u), p)
  {
    assert u == [u[0]] + u[1..] && p == [p[0]] + p[1..];
    if |p| > 1 && |u| > 1 && u[0] == p[0] {
      DeleteKeepsPlace(Get(v.entries, p[0]), u[1..], p[1..]);
    }
  }

  lemma {:induction false} BlanksLeavePlace(v: Value, fields: seq<string>, p: Path)
    requires p != [] && ParentIsDict(v, p) && forall f :: f in fields ==> Segments(f) != [] && !(Segments(f) < p)
    ensures ParentIsDict(WithBlanks(v, fields), p)
    decreases fields
  {
    if fields != [] {
      var u := Segments(fields[0]);
      assert fields[0] in fields && forall g :: g in fields[1..] ==> g in fields;
      if p <= u { SetKeepsAncestors(v, u, Null, p); } else { SetElsewhere(v, u, Null, p); }
      BlanksLeavePlace(BlankAt(v, u), fields[1..], p);
    }
  }

  lemma {:induction false} DeniedLeavePlace(v: Value, fields: seq<string>, p: Path)
    requires p != [] && ParentIsDict(v, p) && forall f :: f in fields ==> Segments(f) != [] && !(Segments(f) < p)
    requires WILDCARD in fields ==> |p| == 1
    ensures ParentIsDict(WithoutDenied(v, fields), p)
    decreases fields
  {
    if fields != [] {
      var u := Segments(fields[0]);
      assert fields[0] in fields && forall g :: g in fields[1..] ==> g in fields;
      if fields[0] == WILDCARD {
        DeniedLeavePlace(Dict(map[]), fields[1..], p);
      } else {
        DeleteKeepsPlace(v, u, p);
        DeniedLeavePlace(DeleteAt(v, u), fields[1..], p);
      }
    }
  }

  lemma EmptiedTopmost(w: Setting, record: Record, p: Path)
    requires WILDCARD in w.Denied() && p != [] && Topmost(p, MaskPaths(w, record)) && ParentIsDict(Dict(record), p)
    ensures |p| == 1
  {
    var k := p[0];
    var top := [k];
    assert k in record ==> top in MaskPaths(w, record);
    assert |p| > 1 ==> top < p;
  }

  /** Masking leaves the place of a topmost path. */
  lemma MaskedKeepsPlace(w: Setting, record: Record, p: Path)
    requires (forall f :: f in w.Masks() ==> Canonical(f)) && p != [] && Topmost(p, MaskPaths(w, record))
    requires ParentIsDict(Dict(record), p)
    ensures ParentIsDict(MaskedView(w.policies, w.Where(), Dict(record)), p)
  {
    var denied, obfuscated := SortedSeq(w.Denied()), SortedSeq(w.Obfuscated());
    forall f | f in denied || f in obfuscated ensures Segments(f) != [] && !(Segments(f) < p) {
      assert Segments(f) in MaskPaths(w, record);
    }
    if WILDCARD in w.Denied() { EmptiedTopmost(w, record, p); }
    DeniedLeavePlace(Dict(record), denied, p);
    BlanksLeavePlace(WithoutDenied(Dict(record), denied), obfuscated, p);
  }

  /** At a masked path a view reads as the record when the topmost mask there is lifted, and null when it is not. */
  lemma ViewAt(w: Setting, record: Record, p: Path)
    requires (forall f :: f in w.Masks() ==> Canonical(f)) && p != [] && p in MaskPaths(w, record)
    ensures var v := View(w, record);
      if Lifted(w, record, p) then ReadsAs(v, Dict(record), p) else ReadAt(v, p) == Null
  {
    var q := TopmostAbove(MaskPaths(w, record), p);
    assert q != [] by { MaskPathsNamed(w, record, q); }
    if h :| h in w.Obfuscated() && Revealed(w, record, h) && Segments(h) == q {
      LiftedAt(w, record, h);
      assert LiftedBy(w, record, p, h);
      ReadsBelow(View(w, record), Dict(record), q, p);
    } else {
      HiddenAt(w, record, q);
      NotShown(w, record, p, q);
      NullBelowNull(View(w, record), q, p);
    }
  }

  lemma MaskPathsNamed(w: Setting, record: Record, q: Path)
    requires (forall f :: f in w.Masks() ==> Canonical(f)) && q in MaskPaths(w, record)
    ensures q != []
  {}

  /** Two topmost paths at or above one path are one. */
  lemma NotShown(w: Setting, record: Record, p: Path, q: Path)
    requires q in MaskPaths(w, record) && q <= p && Topmost(q, MaskPaths(w, record))
    requires forall h :: h in w.Obfuscated() && Revealed(w, record, h) ==> Segments(h) != q
    ensures !Lifted(w, record, p)
  {
    if h :| h in w.Obfuscated() && LiftedBy(w, record, p, h) {
      assert Segments(h) in MaskPaths(w, record);
      OneTopmost(Segments(h), q, p, MaskPaths(w, record));
    }
  }

  lemma LiftedAt(w: Setting, record: Record, h: string)
    requires (forall f :: f in w.Masks() ==> Canonical(f)) && h in w.Obfuscated() && Revealed(w, record, h)
    requires Topmost(Segments(h), MaskPaths(w, record))
    ensures ReadsAs(View(w, record), Dict(record), Segments(h))
  {
    var q, obfuscated := Segments(h), SortedSeq(w.Obfuscated());
    var v := MaskedView(w.policies, w.Where(), Dict(record));
    RevealsSettle(w, v, record, obfuscated, q);
    if ParentIsDict(Dict(record), q) {
      MaskedKeepsPlace(w, record, q);
      RevealsKeepPlace(w, v, record, obfuscated, q);
    } else {
      ReadOfSet(Dict(record), q, Null);
      ReadOfSet(View(w, record), q, Null);
    }
  }

  lemma HiddenAt(w: Setting, record: Record, q: Path)
    requires (forall f :: f in w.Masks() ==> Canonical(f)) && q != [] && q in MaskPaths(w, record)
    requires Topmost(q, MaskPaths(w, record))
    requires forall h :: h in w.Obfuscated() && Revealed(w, record, h) ==> Segments(h) != q
    ensures ReadAt(View(w, record), q) == Null
  {
    var obfuscated := SortedSeq(w.Obfuscated());
    MaskedReadsNull(w, record, q);
    forall f | f in obfuscated && Revealed(w, record, f) ensures !(Segments(f) <= q) {
      assert Segments(f) in MaskPaths(w, record);
    }
    RevealsKeepNull(w, MaskedView(w.policies, w.Where(), Dict(record)), record, obfuscated, q);
  }

  lemma {:induction false} RevealsKeepReads(w: Setting, v: Value, record: Record, fields: seq<string>, p: Path)
    requires p != [] && ReadsAs(v, Dict(record), p)
    ensures ReadsAs(WithReveals(w, v, record, fields), Dict(record), p)
    decreases fields
  {
    if fields != [] {
      var q := Segments(fields[0]);
      if q != [] { RestoreStep(v, Dict(record), q, p); }
      RevealsKeepReads(w, RevealOne(w, v, record, fields[0]), record, fields[1..], p);
    }
  }

  /** A view differs from the record at and below the masked paths only, a denied `*` included. */
  lemma ViewOutside(w: Setting, record: Record)
    requires forall f :: f in w.Masks() ==> Canonical(f)
    ensures View(w, record).Dict? && SameOutside(View(w, record), Dict(record), MaskPaths(w, record))
  {
    var paths := MaskPaths(w, record);
    ViewIsDict(w, record);
    if WILDCARD in w.Denied() {
      assert [] !in paths;
      forall k ensures SameOutside(Get(View(w, record).entries, k), Get(record, k), Below(paths, k)) {
        if k in record {
          BelowMember(paths, k, []);
          assert [k] + [] == [k];
        } else {
          EmptiedKeyNull(w, record, k);
        }
      }
      SameOutsideByKey(View(w, record).entries, record, paths);
    } else {
      ViewCovers(w, record);
      MoreOutside(View(w, record), Dict(record), SegmentsOf(NulledMasks(w, record)), paths);
    }
  }

  lemma EmptiedKeyNull(w: Setting, record: Record, k: string)
    requires (forall f :: f in w.Masks() ==> Canonical(f)) && WILDCARD in w.Denied() && k !in record
    ensures View(w, record).Dict? && Get(View(w, record).entries, k) == Null
  {
    var denied, obfuscated := SortedSeq(w.Denied()), SortedSeq(w.Obfuscated());
    ViewIsDict(w, record);
    forall f | f in denied ensures Segments(f) != [] { assert f in w.Masks() && Canonical(f); }
    DeniedReadNull(Dict(record), denied, [k]);
    BlanksKeepNull(WithoutDenied(Dict(record), denied), obfuscated, [k]);
    RevealsKeepReads(w, MaskedView(w.policies, w.Where(), Dict(record)), record, obfuscated, [k]);
    assert ReadAt(View(w, record), [k]) == Get(View(w, record).entries, k);
  }

  // ---- A field that holds no object ---------------------------------------------------------------

  lemma {:induction false} RevealsAddNoKey(w: Setting, v: Value, record: Record, fields: seq<string>, k: string)
    requires v.Dict? && forall f :: f in fields && Revealed(w, record, f) ==> Segments(f) != [k]
    ensures WithReveals(w, v, record, fields).Dict?
    ensures k in WithReveals(w, v, record, fields).entries <==> k in v.entries
    decreases fields
  {
    if fields != [] {
      assert fields[0] in fields && forall f :: f in fields[1..] ==> f in fields;
      var p := Segments(fields[0]);
      if p != [] && p != [k] { assert p == [p[0]] + p[1..]; }
      RevealsAddNoKey(w, RevealOne(w, v, record, fields[0]), record, fields[1..], k);
    }
  }

  lemma {:induction false} BlanksKeepKeys(v: Value, fields: seq<string>)
    requires v.Dict?
    ensures WithBlanks(v, fields).Dict? && WithBlanks(v, fields).entries.Keys == v.entries.Keys
    decreases fields
  {
    if fields != [] { BlanksKeepKeys(BlankAt(v, Segments(fields[0])), fields[1..]); }
  }

  lemma {:induction false} DeniedKey(v: Value, fields: seq<string>, k: string)
    requires v.Dict? && forall f :: f in fields ==> Segments(f) != []
    ensures WithoutDenied(v, fields).Dict?
    ensures k in WithoutDenied(v, fields).entries
       <==> k in v.entries && WILDCARD !in fields && [k] !in SegmentSet(fields)
    decreases fields
  {
    if fields != [] {
      var p := Segments(fields[0]);
      assert fields == [fields[0]] + fields[1..] && fields[0] in fields && forall f :: f in fields[1..] ==> f in fields;
      SegmentSetCons(fields[0], fields[1..]);
      assert p == [p[0]] + p[1..];
      if fields[0] == WILDCARD {
        DeniedKey(Dict(map[]), fields[1..], k);
      } else {
        assert p == [k] <==> |p| == 1 && p[0] == k;
        assert k in DeleteAt(v, p).entries <==> k in v.entries && p != [k];
        DeniedKey(DeleteAt(v, p), fields[1..], k);
      }
    }
  }

  /** A field whose mask stays is missing from the view if a denial names it or everything, and else null in it. */
  lemma MaskedKey(w: Setting, record: Record, k: string)
    requires (forall f :: f in w.Masks() ==> Canonical(f)) && k in record
    requires [k] in MaskPaths(w, record) && !Lifted(w, record, [k])
    ensures View(w, record).Dict? && Get(View(w, record).entries, k) == Null
    ensures k in View(w, record).entries <==> WILDCARD !in w.Denied() && [k] !in SegmentsOf(w.Denied())
  {
    var denied, obfuscated := SortedSeq(w.Denied()), SortedSeq(w.Obfuscated());
    ViewIsDict(w, record);
    ViewAt(w, record, [k]);
    assert ReadAt(View(w, record), [k]) == Get(View(w, record).entries, k);
    forall f | f in denied ensures Segments(f) != [] { assert f in w.Masks() && Canonical(f); }
    DeniedKey(Dict(record), denied, k);
    BlanksKeepKeys(WithoutDenied(Dict(record), denied), obfuscated);
    NoneReveals(w, record, k);
    RevealsAddNoKey(w, MaskedView(w.policies, w.Where(), Dict(record)), record, obfuscated, k);
    assert SegmentSet(denied) == SegmentsOf(w.Denied());
  }

  lemma NoneReveals(w: Setting, record: Record, k: string)
    requires (forall f :: f in w.Masks() ==> Canonical(f)) && !Lifted(w, record, [k])
    ensures forall f :: f in w.Obfuscated() && Revealed(w, record, f) ==> Segments(f) != [k]
  {
    forall f | f in w.Obfuscated() && Segments(f) == [k] ensures !Revealed(w, record, f) {
      forall u | u in MaskPaths(w, record) ensures !(u < [k]) { MaskPathsNamed(w, record, u); }
      assert Revealed(w, record, f) ==> LiftedBy(w, record, [k], f);
    }
  }

  /** A field that holds no object, with no mask on the field itself or with its mask lifted, is shown as it is. */
  lemma UnmaskedKey(w: Setting, record: Record, k: string)
    requires (forall f :: f in w.Masks() ==> Canonical(f)) && !Get(record, k).Dict?
    requires [k] !in MaskPaths(w, record) || Lifted(w, record, [k])
    ensures View(w, record).Dict? && Get(View(w, record).entries, k) == Get(record, k)
  {
    var view, paths := View(w, record), MaskPaths(w, record);
    ViewOutside(w, record);
    if [k] in paths {
      ViewAt(w, record, [k]);
      assert ReadAt(view, [k]) == Get(view.entries, k) && ReadAt(Dict(record), [k]) == Get(record, k);
    } else {
      forall u | u in paths ensures u != [] { MaskPathsNamed(w, record, u); }
      SameOutsideByKey(view.entries, record, paths);
      BelowMember(paths, k, []);
      assert [k] + [] == [k];
      SameOutsideShape(Get(view.entries, k), Get(record, k), Below(paths, k));
    }
  }
}
