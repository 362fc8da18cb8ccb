/** Saves that lose a value: what the laws of `SaveLaws` and `RoundTrip` leave open does happen. */
module LostValues {
  import opened Values
  import opened Text
  import opened Paths
  import opened FieldAcl
  import opened RecordRules
  import opened Session
  import opened Views
  import opened Filters
  import opened WriteFields
  import opened Drafts
  import opened DraftLaws
  import opened EvaluationLaws
  import opened SaveStages
  import opened ViewLaws
  import opened Saving
  import opened SaveLaws
  import opened Requests

  // ---- The request --------------------------------------------------------------------------------

  /** Without write policies nothing is refused and nothing freed. */
  lemma NothingRefused(policies: seq<Policy>, conditions: Record, stored: Record, data: Record)
    requires forall p :: p in policies ==> p.operation == OpRead
    ensures var w := Asking(policies, conditions);
      && DeniedWrites(w, OpUpdate, Dict(data), OwnerOverride(w, stored)) == []
      && OwnerOverride(w, stored) == {}
  {
    var w := Asking(policies, conditions);
    assert PathsWith(w.policies, OpUpdate, Deny, w.Where()) == {} == PathsWith(w.policies, OpUpdate, Allow, w.Where());
    var refused := DeniedWrites(w, OpUpdate, Dict(data), OwnerOverride(w, stored));
    assert forall f :: !IsDenied(w.policies, OpUpdate, w.Where(), f);
    Emptied(refused);
  }

  lemma Emptied(s: seq<string>)
    requires forall f :: f !in s
    ensures s == []
  {
    if s != [] { HasElement(s); }
  }

  lemma HasElement(s: seq<string>)
    requires s != []
    ensures exists f :: f in s
  {
    assert s[0] in s;
  }

  /** An actor with every right on the record, nothing refused and nothing freed. */
  ghost predicate Unhindered(w: Setting, record: Record) {
    && Update in w.ModelAccess() && Update in w.RecordAccess(record)
    && OwnerOverride(w, record) == {} && PathsWith(w.policies, OpUpdate, Allow, w.Where()) == {}
    && forall data: Record :: DeniedWrites(w, OpUpdate, Dict(data), {}) == []
  }

  /** One nested mask no condition lifts, and some condition elsewhere: a save of what a load showed erases it. */
  lemma NestedValueLost(w: Setting, record: Record, name: string, f: string)
    requires Unhindered(w, record) && w.Denied() == {} && w.Obfuscated() == {f}
    requires Canonical(f) && |Segments(f)| > 1
    requires f !in w.conditions && w.conditions != map[] && ConditionsSpareNested(w)
    requires Segments(f)[0] !in OWNED + {DASHBOARD_FLAG, "rec_name"}
    ensures View(w, record).Dict?
    ensures var r := UpdateOutcome(w, record, View(w, record).entries, name);
      r.Saved? && ReadAt(Dict(r.row), Segments(f)) == Null
  {
    ViewIsDict(w, record);
    var data := View(w, record).entries;
    assert DeniedWrites(w, OpUpdate, Dict(data), {}) == [];
    assert f in HiddenMasks(w, record) && f != WILDCARD by { if f == WILDCARD { PlainSegments(WILDCARD); } }
    assert f in ReachingMasks(w);
    SaveErasesNestedMask(w, record, data, name, f);
  }

  const RECORD: Record := map["rec_name" := Str("r"), "a" := Dict(map["b" := Int(1)]), "c" := Int(5), "x" := Int(1)]

  /** Only `a.b` is masked, and a condition is configured on another field. */
  const ONE_MASK: Setting := Asking([Masking("a.b")], map["c" := Dict(map["x" := Int(2)])])

  lemma AskingUnhindered(policies: seq<Policy>, conditions: Record, record: Record)
    requires forall p :: p in policies ==> p == Masking(p.fieldPath)
    requires Get(record, "owner_uid") == Null
    ensures Unhindered(Asking(policies, conditions), record)
  {
    var w := Asking(policies, conditions);
    AskingMasks(policies, conditions);
    forall data: Record ensures DeniedWrites(w, OpUpdate, Dict(data), {}) == [] {
      NothingRefused(policies, conditions, record, data);
    }
  }

  lemma SparesNested(w: Setting, c: string, x: string, n: Value)
    requires w.conditions == map[c := Dict(map[x := n])] && !IsOperator(x)
    requires w.resolve(w.conditions[c]) == w.conditions[c]
    requires forall g :: g in w.Obfuscated() && |Segments(g)| > 1 ==> Segments(g)[0] != x
    ensures ConditionsSpareNested(w)
  {
    assert KeysRead(w.conditions[c]) == {x};
  }

  lemma OneMaskLoses(w: Setting, record: Record, name: string, f: string, c: string, x: string, n: Value)
    requires w == Asking([Masking(f)], map[c := Dict(map[x := n])]) && Get(record, "owner_uid") == Null
    requires Canonical(f) && |Segments(f)| > 1 && Segments(f)[0] !in OWNED + {DASHBOARD_FLAG, "rec_name", x}
    requires f != c && !IsOperator(x)
    ensures View(w, record).Dict?
    ensures var r := UpdateOutcome(w, record, View(w, record).entries, name);
      r.Saved? && ReadAt(Dict(r.row), Segments(f)) == Null
  {
    OneMask(w, f, w.conditions);
    AskingUnhindered([Masking(f)], w.conditions, record);
    SparesNested(w, c, x, n);
    NestedValueLost(w, record, name, f);
  }

  /** Posting back exactly what a load returned does not always leave the record unchanged: here it erases `a.b`. */
  lemma ReadThenSaveCanFail()
    ensures View(ONE_MASK, RECORD).Dict?
    ensures var r := UpdateOutcome(ONE_MASK, RECORD, View(ONE_MASK, RECORD).entries, "r");
      r.Saved? && ReadAt(Dict(r.row), ["a", "b"]) == Null
    ensures ReadAt(Dict(RECORD), ["a", "b"]) == Int(1)
  {
    NestedSegments();
    OrdinaryKeys();
    RecordReads();
    OneMaskLoses(ONE_MASK, RECORD, "r", "a.b", "c", "x", Int(2));
  }

  /** The keys of the inputs are ordinary ones. */
  lemma OrdinaryKeys()
    ensures PlainKey("a") && PlainKey("c") && !IsOperator("a") && !IsOperator("x")
    ensures "a" !in OWNED + {DASHBOARD_FLAG, "rec_name", "x"} && "c" !in OWNED + {DASHBOARD_FLAG, "rec_name"}
  {}

  lemma RecordReads()
    ensures ReadAt(Dict(RECORD), ["a", "b"]) == Int(1) && Get(RECORD, "c") == Int(5)
    ensures Get(RECORD, "owner_uid") == Null && Get(RECORD, "a") == Dict(map["b" := Int(1)])
  {
    assert RECORD["a"] == Dict(map["b" := Int(1)]);
    assert ["a", "b"][1..] == ["b"];
  }

  // ---- A condition that reads what a nested mask blanks ------------------------------------

  lemma {:induction false} OneBlank(v: Value, fields: seq<string>, f: string)
    requires Segments(f) != [] && fields != [] && forall g :: g in fields ==> g == f
    ensures WithBlanks(v, fields) == BlankAt(v, Segments(f))
    decreases fields
  {
    assert fields[0] in fields;
    if |fields| > 1 {
      assert forall g :: g in fields[1..] ==> g in fields;
      OneBlank(BlankAt(v, Segments(f)), fields[1..], f);
      BlankTwice(v, Segments(f));
    }
  }

  lemma BlankTwice(v: Value, p: Path)
    requires p != []
    ensures BlankAt(BlankAt(v, p), p) == BlankAt(v, p)
  {
    if HasPath(v, p) {
      ReadOfSet(v, p, Null);
      var r := SetAt(v, p, Null);
      if HasPath(r, p) { SelfSet(r, p); }
    }
  }

  /** While only top-level fields are revealed, every condition reads the same record. */
  lemma {:induction false} TopLevelReveals(w: Setting, t: Twin, fields: seq<string>)
    requires forall f :: f in fields && Revealed(w, t.original, f) ==> |Segments(f)| == 1
    ensures forall f :: f in TwinUnrevealed(w, t, fields) <==> f in fields && !Revealed(w, t.original, f)
    decreases fields
  {
    if fields != [] {
      var f := fields[0];
      assert fields == [f] + fields[1..] && f in fields && forall g :: g in fields[1..] ==> g in fields;
      if Revealed(w, t.original, f) {
        TopLevelReveals(w, TwinRestore(t, Segments(f)), fields[1..]);
      } else {
        TopLevelReveals(w, t, fields[1..]);
      }
    }
  }

  lemma {:induction false} NothingRevealed(w: Setting, v: Value, record: Record, fields: seq<string>)
    requires forall f :: f in fields ==> !Revealed(w, record, f)
    ensures WithReveals(w, v, record, fields) == v
    decreases fields
  {
    if fields != [] {
      assert fields[0] in fields;
      NothingRevealed(w, v, record, fields[1..]);
    }
  }

  /** Two masks, one nested at `f` and one whole at `c`; only `c` carries a condition. */
  ghost predicate TwoMasks(w: Setting, f: string, c: string) {
    && w.Denied() == {} && w.Obfuscated() == {f, c} && w.conditions.Keys == {c}
    && Canonical(f) && |Segments(f)| > 1 && PlainKey(c) && Segments(f)[0] != c
  }

  lemma TwoMasksAreCanonical(w: Setting, f: string, c: string)
    requires TwoMasks(w, f, c)
    ensures c != f && forall g :: g in w.Obfuscated() ==> Canonical(g)
  {
    PlainSegments(c);
    DottedIsCanonical([c]);
  }

  lemma OnlyFReaches(w: Setting, f: string, c: string)
    requires TwoMasks(w, f, c)
    ensures ReachingMasks(w) != [] && forall g :: g in ReachingMasks(w) ==> g == f
  {
    PlainSegments(c);
    assert f in ReachingMasks(w);
  }

  lemma OriginalBlanked(w: Setting, record: Record, f: string, c: string)
    requires TwoMasks(w, f, c)
    ensures Dict(TwinBlanks(ShallowCopy(record), SortedSeq(w.Obfuscated())).original)
      == BlankAt(Dict(record), Segments(f))
  {
    var order, ns := SortedSeq(w.Obfuscated()), ReachingMasks(w);
    TwoMasksAreCanonical(w, f, c);
    OnlyFReaches(w, f, c);
    assert ns == Reaching(order, order);
    ReachedInCopy(record, order);
    OneBlank(Dict(record), ns, f);
  }

  lemma ReachedInCopy(record: Record, order: seq<string>)
    requires Ascending(order) && forall f :: f in order ==> Canonical(f)
    ensures Dict(TwinBlanks(ShallowCopy(record), order).original) == WithBlanks(Dict(record), Reaching(order, order))
  {
    var e := Evaluation(ShallowCopy(record), Dict(record), {});
    BlanksReach(e, order, order);
    BlanksSharedTwin(e, order);
    BlanksOfStored(Behind(e), Reaching(order, order));
  }

  /** If the condition on `c` holds once `f` is blanked, `c` is not protected, hidden as it may be. */
  lemma BlankLiftsProtection(w: Setting, record: Record, f: string, c: string)
    requires TwoMasks(w, f, c) && Revealed(w, BlankAt(Dict(record), Segments(f)).entries, c)
    ensures GuardedFields(w, record, {}) <= {f}
  {
    OriginalBlanked(w, record, f, c);
    PlainSegments(c);
    var order := SortedSeq(w.Obfuscated());
    TopLevelReveals(w, TwinBlanks(ShallowCopy(record), order), order);
    assert c !in StillObfuscated(w, record);
  }

  lemma HiddenReadsNull(w: Setting, record: Record, f: string, c: string)
    requires TwoMasks(w, f, c) && !Revealed(w, record, c)
    ensures View(w, record).Dict? && ReadAt(View(w, record), [c]) == Null
  {
    var order := SortedSeq(w.Obfuscated());
    ViewIsDict(w, record);
    PlainSegments(c);
    assert c in order && SortedSeq(w.Denied()) == [];
    BlanksKeepNull(Dict(record), order, [c]);
    NothingRevealed(w, MaskedView(w.policies, w.Where(), Dict(record)), record, order);
  }

  /** A hidden top-level field is overwritten with the null the actor was shown: the evaluation's own blank of `f` made
      the condition on `c` true. */
  lemma EvaluationUnprotects(w: Setting, record: Record, name: string, f: string, c: string)
    requires Unhindered(w, record) && TwoMasks(w, f, c) && c !in OWNED + {DASHBOARD_FLAG, "rec_name"}
    requires !Revealed(w, record, c) && Revealed(w, BlankAt(Dict(record), Segments(f)).entries, c)
    ensures c in HiddenMasks(w, record) && c !in GuardedFields(w, record, {}) && View(w, record).Dict?
    ensures var r := UpdateOutcome(w, record, View(w, record).entries, name);
      r.Saved? && Get(r.row, c) == Null
  {
    HiddenReadsNull(w, record, f, c);
    BlankLiftsProtection(w, record, f, c);
    assert ReadAt(View(w, record), [c]) == Get(View(w, record).entries, c);
    TwoMasksAreCanonical(w, f, c);
    UnguardedLands(w, record, View(w, record).entries, name, f, c);
  }

  /** With nothing refused, a field no guarded path touches is stored as posted. */
  lemma UnguardedLands(w: Setting, record: Record, data: Record, name: string, f: string, c: string)
    requires Unhindered(w, record) && forall g :: g in w.Obfuscated() ==> Canonical(g)
    requires GuardedFields(w, record, {}) <= {f} && Segments(f) != [] && Segments(f)[0] != c
    requires c !in OWNED + {DASHBOARD_FLAG, "rec_name"}
    ensures var r := UpdateOutcome(w, record, data, name); r.Saved? && Get(r.row, c) == Get(data, c)
  {
    assert DeniedWrites(w, OpUpdate, Dict(data), {}) == [];
    PostedFieldsLand(w, record, data, name, [c]);
    var row := UpdateOutcome(w, record, data, name).row;
    assert ReadAt(Dict(row), [c]) == Get(row, c) && ReadAt(Dict(data), [c]) == Get(data, c);
  }

  // ---- A hidden value the payload has no place for ------------------------------------------------

  /** A hidden or refused path the payload has no object for, nor a restored field above it, is null after the save. */
  lemma UnplacedIsLost(w: Setting, stored: Record, data: Record, name: string, path: string)
    requires (forall f :: f in w.Obfuscated() ==> Canonical(f)) && Unseen(w, stored, data, path)
    requires Segments(path) != [] && Segments(path)[0] !in OWNED + {DASHBOARD_FLAG, "rec_name"}
    requires UpdateOutcome(w, stored, data, name).Saved? && !PlaceFor(StagesOf(w, stored, data), Segments(path))
    ensures ReadAt(Dict(UpdateOutcome(w, stored, data, name).row), Segments(path)) == Null
  {
    UnseenFieldsSurvive(w, stored, data, name, path);
  }

  /** One nested mask, no conditions: a payload without the field above it erases what the mask hides. */
  lemma OmittedParentLoses(w: Setting, record: Record, data: Record, name: string, f: string)
    requires Unhindered(w, record) && w.Denied() == {} && w.Obfuscated() == {f} && w.conditions == map[]
    requires Canonical(f) && |Segments(f)| > 1 && !Get(data, Segments(f)[0]).Dict?
    requires Segments(f)[0] !in OWNED + {DASHBOARD_FLAG, "rec_name"}
    ensures f in HiddenMasks(w, record) && f in GuardedFields(w, Enforced(w, record, data).stored, {})
    ensures UpdateOutcome(w, record, data, name).Saved?
    ensures ReadAt(Dict(UpdateOutcome(w, record, data, name).row), Segments(f)) == Null
  {
    assert DeniedWrites(w, OpUpdate, Dict(data), {}) == [];
    assert f in GuardedFields(w, Enforced(w, record, data).stored, {});
    OnlyPlace(StagesOf(w, record, data), f);
    UnplacedIsLost(w, record, data, name, f);
  }

  lemma OnlyPlace(s: Stages, f: string)
    requires |Segments(f)| > 1 && !Get(s.data, Segments(f)[0]).Dict?
    requires s.refused == [] && forall g :: g in s.guarded ==> g == f
    ensures !PlaceFor(s, Segments(f))
  {
    var p := Segments(f);
    assert forall u :: u in Restored(s) ==> u == p;
    NoPlaceInPlain(s.data, p);
  }

  lemma NoPlaceInPlain(r: Record, p: Path)
    requires |p| > 1 && !Get(r, p[0]).Dict?
    ensures !ParentIsDict(Dict(r), p)
  {}

  // ---- A load that shows nothing ------------------------------------------------------------------

  /** With `*` denied and nothing else masked a load shows nothing, and saving that back erases every field but the
      owner and the name. */
  lemma EmptyViewErases(w: Setting, record: Record, name: string, k: string)
    requires Unhindered(w, record) && w.Denied() == {WILDCARD} && w.Obfuscated() == {}
    requires k !in OWNED + {"rec_name"}
    ensures View(w, record) == Dict(map[])
    ensures var r := UpdateOutcome(w, record, map[], name); r.Saved? && Get(r.row, k) == Null
  {
    WildcardEmpties(Dict(record), SortedSeq(w.Denied()));
    assert SortedSeq({}) == [];
    if k != DASHBOARD_FLAG { NothingLands(w, record, name, k); }
  }

  lemma NothingLands(w: Setting, record: Record, name: string, k: string)
    requires Unhindered(w, record) && w.Denied() == {WILDCARD} && w.Obfuscated() == {}
    requires k !in OWNED + {DASHBOARD_FLAG, "rec_name"}
    ensures var r := UpdateOutcome(w, record, map[], name); r.Saved? && Get(r.row, k) == Null
  {
    assert DeniedWrites(w, OpUpdate, Dict(map[]), {}) == [];
    PostedFieldsLand(w, record, map[], name, [k]);
    var row := UpdateOutcome(w, record, map[], name).row;
    assert ReadAt(Dict(row), [k]) == Get(row, k);
  }

  // ---- A refused field the save takes back from the record as the evaluation left it ---------

  lemma ViewIsRecord(w: Setting, record: Record)
    requires CanonicalReadMasks(w) && HiddenMasks(w, record) == {}
    ensures View(w, record).Dict? && Same(View(w, record), Dict(record))
  {
    ViewIsDict(w, record);
    ViewCovers(w, record);
    assert SegmentsOf({}) == {};
    SameOutsideNothing(View(w, record), Dict(record));
  }

  lemma LostBelow(row: Value, other: Value, q: Path, p: Path)
    requires q != [] && q <= p && ReadAt(other, p) == Null && (ReadAt(row, q) == Null || ReadsAs(row, other, q))
    ensures ReadAt(row, p) == Null
  {
    if ReadAt(row, q) == Null { NullBelowNull(row, q, p); } else { ReadsBelow(row, other, q, p); }
  }

  lemma RefusedField(w: Setting, stored: Record, data: Record, a: string)
    requires IsDenied(w.policies, OpUpdate, w.Where(), a) && a !in OwnerOverride(w, stored) && a in data && PlainKey(a)
    ensures Unseen(w, stored, data, a) && Segments(a) == [a]
  {
    PlainSegments(a);
    assert Join("", a) == a && a in PayloadPaths(Dict(data), "");
    assert Clear(ReachingMasks(w), [a]);
  }

  /** Nothing is hidden, a field may not be written, and below it lies a mask the actor's condition lifts: the save
      still erases what that mask names. */
  lemma RefusedParentLoses(w: Setting, record: Record, name: string, f: string, a: string)
    requires Update in w.ModelAccess() && Update in w.RecordAccess(record)
    requires CanonicalReadMasks(w) && HiddenMasks(w, record) == {} && f in ReachingMasks(w)
    requires Segments(f)[0] == a && PlainKey(a) && a !in OWNED + {DASHBOARD_FLAG, "rec_name"}
    requires IsDenied(w.policies, OpUpdate, w.Where(), a) && a !in OwnerOverride(w, record) && Get(record, a) != Null
    ensures View(w, record).Dict? && ReadsAs(View(w, record), Dict(record), Segments(f))
    ensures var r := UpdateOutcome(w, record, View(w, record).entries, name);
      r.Saved? && ReadAt(Dict(r.row), Segments(f)) == Null
  {
    ViewIsRecord(w, record);
    SameRead(View(w, record), Dict(record), Segments(f));
    SameGet(View(w, record), Dict(record), a);
    RefusedField(w, record, View(w, record).entries, a);
    ErasedBelow(w, record, View(w, record).entries, name, f, a);
  }

  lemma ErasedBelow(w: Setting, record: Record, data: Record, name: string, f: string, a: string)
    requires (forall g :: g in w.Obfuscated() ==> Canonical(g)) && UpdateOutcome(w, record, data, name).Saved?
    requires f in ReachingMasks(w) && Unseen(w, record, data, a) && Segments(a) == [Segments(f)[0]]
    requires Segments(f)[0] !in OWNED + {DASHBOARD_FLAG, "rec_name"}
    ensures ReadAt(Dict(UpdateOutcome(w, record, data, name).row), Segments(f)) == Null
  {
    UnseenFieldsSurvive(w, record, data, name, a);
    BlanksKeepNull(Dict(record), ReachingMasks(w), Segments(f));
    LostBelow(Dict(UpdateOutcome(w, record, data, name).row), Damaged(w, record), Segments(a), Segments(f));
  }

  // ---- The inputs -----------------------------------------------------------------------------

  /** `c` is shown while `a` is not `{b: 1}`, and `a.b` is masked. */
  const TWO_MASKS: Setting :=
    Asking([Masking("a.b"), Masking("c")], map["c" := Dict(map["a" := Dict(map["$ne" := Dict(map["b" := Int(1)])])])])

  lemma UnlessEqual(w: Setting, r: Record, c: string, a: string, x: Value)
    requires c in w.conditions && w.conditions[c] == Dict(map[a := Dict(map["$ne" := x])]) && !IsOperator(a)
    requires w.resolve(w.conditions[c]) == w.conditions[c]
    ensures Revealed(w, r, c) <==> !PyEq(Get(r, a), x)
  {
    var cond := w.conditions[c];
    assert cond.entries[a] == Dict(map["$ne" := x]);
    assert FilterValueMatches(Get(r, a), cond.entries[a]) <==> !PyEq(Get(r, a), x);
  }

  lemma TwoMasksAre(w: Setting, f: string, c: string, cond: Value)
    requires w == Asking([Masking(f), Masking(c)], map[c := cond])
    requires Canonical(f) && |Segments(f)| > 1 && PlainKey(c) && Segments(f)[0] != c
    ensures TwoMasks(w, f, c)
  {
    var policies := [Masking(f), Masking(c)];
    AskingMasks(policies, w.conditions);
    assert policies[0] == Masking(f) && policies[1] == Masking(c);
  }

  lemma BlankedRecord(record: Record, k: string, b: string, x: Value)
    requires k in record && record[k] == Dict(map[b := x])
    ensures Get(BlankAt(Dict(record), [k, b]).entries, k) == Dict(map[b := Null])
  {
    var p := [k, b];
    assert p[1..] == [b] && HasPath(record[k], [b]) && HasPath(Dict(record), p);
    assert map[b := x][b := Null] == map[b := Null];
    assert SetAt(record[k], [b], Null) == Dict(map[b := Null]);
    assert BlankAt(Dict(record), p) == Dict(record[k := SetAt(record[k], [b], Null)]);
  }

  lemma TwoMasksLose(w: Setting, record: Record, name: string, f: string, a: string, b: string, c: string)
    requires w == Asking([Masking(f), Masking(c)], map[c := Dict(map[a := Dict(map["$ne" := Dict(map[b := Int(1)])])])])
    requires Canonical(f) && Segments(f) == [a, b] && PlainKey(c) && a != c && !IsOperator(a)
    requires a in record && record[a] == Dict(map[b := Int(1)]) && Get(record, "owner_uid") == Null
    requires c !in OWNED + {DASHBOARD_FLAG, "rec_name"}
    ensures c in HiddenMasks(w, record) && c !in GuardedFields(w, record, {}) && View(w, record).Dict?
    ensures var r := UpdateOutcome(w, record, View(w, record).entries, name); r.Saved? && Get(r.row, c) == Null
  {
    TwoMasksAre(w, f, c, w.conditions[c]);
    AskingUnhindered([Masking(f), Masking(c)], w.conditions, record);
    var one := Dict(map[b := Int(1)]);
    BlankedRecord(record, a, b, Int(1));
    UnlessEqual(w, record, c, a, one);
    UnlessEqual(w, BlankAt(Dict(record), [a, b]).entries, c, a, one);
    NullIsNotOne(b);
    EvaluationUnprotects(w, record, name, f, c);
  }

  /** A hidden top-level field can be lost: posting back what a load returned writes null over `c`. */
  lemma HiddenFieldCanBeLost()
    ensures "c" in HiddenMasks(TWO_MASKS, RECORD) && View(TWO_MASKS, RECORD).Dict?
    ensures "c" !in GuardedFields(TWO_MASKS, RECORD, {})
    ensures var r := UpdateOutcome(TWO_MASKS, RECORD, View(TWO_MASKS, RECORD).entries, "r");
      r.Saved? && Get(r.row, "c") == Null
    ensures Get(RECORD, "c") == Int(5)
  {
    NestedSegments();
    OrdinaryKeys();
    RecordReads();
    TwoMasksLose(TWO_MASKS, RECORD, "r", "a.b", "a", "b", "c");
  }

  /** `a` may not be written; `a.b` is masked, and shown where `x` is 1, as it is in the record. */
  const REFUSING: Setting := Asking(
    [Masking("a.b"), Policy("m", "a", OpUpdate, Deny, "", "", "", "")], map["a.b" := Dict(map["x" := Int(1)])])

  lemma RefusingLoses(w: Setting, record: Record, name: string, f: string, a: string, x: string)
    requires w == Asking([Masking(f), Policy("m", a, OpUpdate, Deny, "", "", "", "")], map[f := Dict(map[x := Int(1)])])
    requires Canonical(f) && |Segments(f)| > 1 && Segments(f)[0] == a && PlainKey(a) && a != WILDCARD
    requires !IsOperator(x) && Get(record, x) == Int(1) && Get(record, a) != Null
    requires |a| < 2 && a !in OWNED + {DASHBOARD_FLAG, "rec_name"} && Get(record, "owner_uid") == Null
    ensures View(w, record).Dict? && ReadsAs(View(w, record), Dict(record), Segments(f))
    ensures var r := UpdateOutcome(w, record, View(w, record).entries, name);
      r.Saved? && ReadAt(Dict(r.row), Segments(f)) == Null
  {
    RefusingIs(w, f, a, w.conditions);
    ShownWhereEqual(w, record, f, x);
    assert f in ReachingMasks(w);
    RefusedParentLoses(w, record, name, f, a);
  }

  lemma RefusingIs(w: Setting, f: string, a: string, conditions: Record)
    requires w == Asking([Masking(f), Policy("m", a, OpUpdate, Deny, "", "", "", "")], conditions)
    requires PlainKey(a) && a != WILDCARD && |a| < 2
    ensures w.Obfuscated() == {f} && w.Denied() == {} && IsDenied(w.policies, OpUpdate, w.Where(), a)
  {
    var policies := [Masking(f), Policy("m", a, OpUpdate, Deny, "", "", "", "")];
    AskingMasks(policies, w.conditions);
    assert policies[0] == Masking(f);
    assert Applies(policies[1], OpUpdate, w.Where()) && policies[1] in w.policies;
    assert a in PathsWith(w.policies, OpUpdate, Deny, w.Where()) && PathMatches(a, a);
  }

  lemma ShownWhereEqual(w: Setting, record: Record, f: string, x: string)
    requires f in w.conditions && w.conditions[f] == Dict(map[x := Int(1)])
    requires w.resolve(w.conditions[f]) == w.conditions[f]
    requires !IsOperator(x) && Get(record, x) == Int(1)
    ensures Revealed(w, record, f)
  {
    var cond := w.conditions[f];
    assert cond.entries[x] == Int(1) && RecordMatches(record, cond);
  }

  /** A field that is shown can be lost as well: `a`, which may not be written, is taken from the evaluated record. */
  lemma ShownFieldCanBeLost()
    ensures View(REFUSING, RECORD).Dict? && ReadsAs(View(REFUSING, RECORD), Dict(RECORD), ["a", "b"])
    ensures var r := UpdateOutcome(REFUSING, RECORD, View(REFUSING, RECORD).entries, "r");
      r.Saved? && ReadAt(Dict(r.row), ["a", "b"]) == Null
    ensures ReadAt(Dict(RECORD), ["a", "b"]) == Int(1)
  {
    RecordReads();
    RefusedAboveLoses(RECORD, "a.b", "a", "b", "x");
  }

  lemma RefusedAboveLoses(record: Record, f: string, a: string, b: string, x: string)
    requires f == "a.b" && a == "a" && b == "b" && x == "x"
    requires Get(record, x) == Int(1) && Get(record, a) != Null && Get(record, "owner_uid") == Null
    ensures View(REFUSING, record).Dict? && ReadsAs(View(REFUSING, record), Dict(record), [a, b])
    ensures var r := UpdateOutcome(REFUSING, record, View(REFUSING, record).entries, "r");
      r.Saved? && ReadAt(Dict(r.row), [a, b]) == Null
  {
    NestedSegments();
    OrdinaryKeys();
    RefusingLoses(REFUSING, record, "r", f, a, x);
  }

  lemma NullIsNotOne(b: string)
    ensures !PyEq(Dict(map[b := Null]), Dict(map[b := Int(1)])) && PyEq(Dict(map[b := Int(1)]), Dict(map[b := Int(1)]))
  {
    assert map[b := Null][b] == Null && map[b := Int(1)][b] == Int(1);
  }

  /** Only `a.b` is masked, and there are no conditions. */
  const NO_CONDITIONS: Setting := Asking([Masking("a.b")], map[])

  lemma OmittedLoses(w: Setting, record: Record, data: Record, name: string, f: string)
    requires w == Asking([Masking(f)], map[]) && Get(record, "owner_uid") == Null
    requires Canonical(f) && |Segments(f)| > 1 && !Get(data, Segments(f)[0]).Dict?
    requires Segments(f)[0] !in OWNED + {DASHBOARD_FLAG, "rec_name"}
    ensures f in HiddenMasks(w, record) && f in GuardedFields(w, Enforced(w, record, data).stored, {})
    ensures UpdateOutcome(w, record, data, name).Saved?
    ensures ReadAt(Dict(UpdateOutcome(w, record, data, name).row), Segments(f)) == Null
  {
    OneMask(w, f, map[]);
    AskingUnhindered([Masking(f)], map[], record);
    OmittedParentLoses(w, record, data, name, f);
  }

  /** It says nothing about `a`. */
  const BLIND: Record := map["rec_name" := Str("r"), "c" := Int(6)]

  /** A blind write can erase a hidden and protected value: `a.b` is null afterwards. */
  lemma BlindWriteCanLose()
    ensures "a.b" in HiddenMasks(NO_CONDITIONS, RECORD)
    ensures "a.b" in GuardedFields(NO_CONDITIONS, Enforced(NO_CONDITIONS, RECORD, BLIND).stored, {})
    ensures var r := UpdateOutcome(NO_CONDITIONS, RECORD, BLIND, "r");
      r.Saved? && ReadAt(Dict(r.row), ["a", "b"]) == Null
    ensures ReadAt(Dict(RECORD), ["a", "b"]) == Int(1)
  {
    NestedSegments();
    OrdinaryKeys();
    RecordReads();
    OmittedLoses(NO_CONDITIONS, RECORD, BLIND, "r", "a.b");
  }

  lemma DeniedLoses(w: Setting, record: Record, name: string, k: string)
    requires w == Asking([Policy("m", WILDCARD, OpRead, Deny, "", "", "", "")], map[])
    requires Get(record, "owner_uid") == Null && k !in OWNED + {"rec_name"}
    ensures View(w, record) == Dict(map[])
    ensures var r := UpdateOutcome(w, record, map[], name); r.Saved? && Get(r.row, k) == Null
  {
    var p := w.policies[0];
    assert w.policies == [p] && Applies(p, OpRead, w.Where()) && forall q :: q in w.policies ==> q == p;
    assert w.Denied() == {WILDCARD} && w.Obfuscated() == {};
    forall data: Record ensures DeniedWrites(w, OpUpdate, Dict(data), {}) == [] {
      NothingRefused(w.policies, map[], record, data);
    }
    EmptyViewErases(w, record, name, k);
  }

  /** No field may be read. */
  const ALL_DENIED: Setting := Asking([Policy("m", WILDCARD, OpRead, Deny, "", "", "", "")], map[])

  /** Saving back an empty view erases `c`. */
  lemma EmptyViewCanErase()
    ensures View(ALL_DENIED, RECORD) == Dict(map[])
    ensures var r := UpdateOutcome(ALL_DENIED, RECORD, map[], "r"); r.Saved? && Get(r.row, "c") == Null
    ensures Get(RECORD, "c") == Int(5)
  {
    RecordReads();
    DeniedLoses(ALL_DENIED, RECORD, "r", "c");
  }
}
