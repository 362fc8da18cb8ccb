/** What updates promise: what no actor may write or see survives every save, and what may be written lands. */
module SaveLaws {
  import opened Values
  import opened Text
  import opened Paths
  import opened FieldAcl
  import opened RecordRules
  import opened Session
  import opened Views
  import opened WriteFields
  import opened Drafts
  import opened DraftLaws
  import opened EvaluationLaws
  import opened SaveStages
  import opened ViewLaws
  import opened Saving

  // ---- Blind-write protection -----------------------------------------------------

  /** No permission frees the field from the protection. */
  predicate Unfreed(w: Setting, freed: set<string>, f: string) {
    f !in freed && !Covered(PathsWith(w.policies, OpUpdate, Allow, w.Where()), f)
  }

  /** The protection covers exactly the masks hidden on the record that nothing frees, as long as the conditions see
      the record and the draft's stored record alike, and no field a nested mask reaches into. */
  lemma ProtectionIsHiddenMasks(w: Setting, stored: Record, record: Record, freed: set<string>, f: string)
    requires ConditionsSpareNested(w) && AgreeOnRead(w, stored, record)
    requires f != WILDCARD || WILDCARD !in w.Denied()
    ensures f in GuardedFields(w, stored, freed) <==> f in HiddenMasks(w, record) && Unfreed(w, freed, f)
  {
    StillObfuscatedIs(w, stored, record, f);
  }

  lemma StillObfuscatedIs(w: Setting, stored: Record, record: Record, f: string)
    requires ConditionsSpareNested(w) && AgreeOnRead(w, stored, record)
    ensures f in StillObfuscated(w, stored) <==> f in w.Obfuscated() && !Revealed(w, record, f)
  {
    var order := SortedSeq(w.Obfuscated());
    if w.Obfuscated() != {} && w.conditions != map[] {
      AgreeAfterBlanks(w, stored, record, order);
      UnrevealedAgrees(w, TwinBlanks(ShallowCopy(stored), order), record, order);
    }
  }

  /** A restore writes nothing under a key when the stored record has every path to be restored there. */
  lemma {:induction false} RestoresElsewhere(d: Draft, fields: seq<string>, k: string, record: Record)
    requires Linked(d) && Get(d.stored, k) == Get(record, k)
    requires forall f :: f in fields && |Segments(f)| > 1 && Segments(f)[0] == k ==> HasPath(Dict(record), Segments(f))
    ensures Get(RestoreAllShared(d, fields).stored, k) == Get(record, k)
    decreases fields
  {
    if fields != [] {
      var p := Segments(fields[0]);
      assert fields[0] in fields;
      RestoreKeepsLinks(d, p);
      if p != [] && Inside(d.shared, p) {
        var x := ReadAt(Dict(d.stored), p);
        SetKey(Dict(d.stored), p, x, k);
        if p[0] == k {
          var q :| q in d.shared && q < p;
          assert |p| > 1 && HasPath(Dict(record), p) && HasPath(Get(d.stored, k), p[1..]);
          SelfSet(Dict(d.stored), p);
        }
      }
      RestoresElsewhere(RestoreShared(d, p), fields[1..], k, record);
    }
  }

  /** Posting a view back restores nothing the stored record does not have, wherever a condition looks. */
  lemma ViewAgrees(w: Setting, record: Record)
    requires ConditionsSpareNested(w) && View(w, record).Dict?
    requires w.conditions == map[] || PlainKeys(View(w, record))
    ensures AgreeOnRead(w, Enforced(w, record, View(w, record).entries).stored, record)
  {
    var view := View(w, record);
    var refused := DeniedWrites(w, OpUpdate, view, OwnerOverride(w, record));
    forall g, k | ConditionReads(w, g, k) ensures Get(Enforced(w, record, view.entries).stored, k) == Get(record, k) {
      PayloadPathsAre(view);
      forall f | f in refused && |Segments(f)| > 1 && Segments(f)[0] == k ensures HasPath(Dict(record), Segments(f)) {
        ViewAddsNone(w, record, Segments(f));
      }
      RestoresElsewhere(Draft(view, record, {}), refused, k, record);
    }
  }

  // ---- The row an update stores ------------------------------------------------------

  lemma UpdatedRow(stored: Record, payload: Value, name: string, p: Path)
    requires payload.Dict? && p != [] && p[0] !in OWNED + {DASHBOARD_FLAG, "rec_name"}
    ensures ReadAt(Dict(KeepOwner(stored, Named(DeleteAt(payload, [DASHBOARD_FLAG]), name))), p) == ReadAt(payload, p)
  {
    var named := Named(DeleteAt(payload, [DASHBOARD_FLAG]), name);
    ReadThroughNaming(payload, name, p);
    assert Get(KeepOwner(stored, named), p[0]) == Get(named, p[0]);
  }

  /** An update never changes the owner, whatever the payload. */
  lemma UpdateKeepsOwner(w: Setting, stored: Record, data: Record, name: string, k: string)
    requires UpdateOutcome(w, stored, data, name).Saved?
    requires k == "owner_uid" || OwnerDetail(k)
    ensures Get(UpdateOutcome(w, stored, data, name).row, k) == Get(stored, k)
  {
    OwnerKeys(k);
  }

  lemma OwnerKeys(k: string)
    ensures k in OWNED <==> k == "owner_uid" || OwnerDetail(k)
  {}

  /** What else a record says of its owner. */
  predicate OwnerDetail(k: string) {
    || k == "owner_name" || k == "owner_mail" || k == "owner_sector" || k == "owner_sector_id"
    || k == "owner_function" || k == "owner_personal_type" || k == "owner_job_title"
  }

  /** An update is accepted exactly with both grants, on the model and on the stored record. */
  lemma UpdateAccepted(w: Setting, stored: Record, data: Record, name: string)
    ensures UpdateOutcome(w, stored, data, name).Saved? <==>
      Update in w.ModelAccess() && Update in w.RecordAccess(stored)
  {}

  /** What an update refuses of the payload: the paths a policy denies, but those an owner may write, to the actor who
      is the stored owner. */
  lemma RefusedAre(w: Setting, stored: Record, data: Record, f: string)
    ensures f in DeniedWrites(w, OpUpdate, Dict(data), OwnerOverride(w, stored)) <==>
      && f in PayloadPaths(Dict(data), "") && IsDenied(w.policies, OpUpdate, w.Where(), f)
      && !(f in w.ownerWritable && w.uid != "" && w.TextOf(Get(stored, "owner_uid")) == w.uid)
  {}

  /** Without conditions, or with every obfuscated mask at the top level, nothing is ever spoilt. */
  lemma NothingReaches(w: Setting, record: Record)
    requires w.conditions == map[] || forall f :: f in w.Obfuscated() ==> PlainKey(f)
    ensures ConditionsSpareNested(w) && ReachingMasks(w) == [] && Damaged(w, record) == Dict(record)
  {
    forall f | f in w.Obfuscated() && w.conditions != map[] ensures Segments(f) == [f] { PlainSegments(f); }
    var order := SortedSeq(w.Obfuscated());
    if w.conditions != map[] { NoneReaches(order, order); }
  }

  lemma {:induction false} NoneReaches(fields: seq<string>, all: seq<string>)
    requires forall f :: f in fields ==> |Segments(f)| <= 1
    ensures Reaching(fields, all) == []
  {
    if fields != [] {
      assert fields[0] in fields;
      NoneReaches(fields[1..], all);
    }
  }

  // ---- An update in stages -------------------------------------------------------------

  function StagesOf(w: Setting, stored: Record, data: Record): Stages {
    var d, freed := Enforced(w, stored, data), OwnerOverride(w, stored);
    Stages(data, stored, DeniedWrites(w, OpUpdate, Dict(data), freed), ReachingMasks(w), Evaluated(w, d),
           SortedSeq(GuardedFields(w, d.stored, freed)))
  }

  /** The stages of a request's update are those of `Saving`, and evaluate as the laws of evaluation say. */
  lemma StagesAre(w: Setting, stored: Record, data: Record)
    requires forall f :: f in w.Obfuscated() ==> Canonical(f)
    ensures var s := StagesOf(w, stored, data);
      && s.Valid() && s.Enforced() == Enforced(w, stored, data) && s.Spoilt() == Damaged(w, stored)
      && s.Final() == Protected(w, stored, data) && s.Final().payload.Dict?
  {
    var s, d := StagesOf(w, stored, data), Enforced(w, stored, data);
    assert s.Enforced() == d;
    EnforcedIs(s);
    EvaluatedIs(w, d);
    EvaluatedFields(w, d);
    MasksAscend(w);
    PayloadIsObject(s);
  }

  lemma MasksAscend(w: Setting)
    requires forall f :: f in w.Obfuscated() ==> Canonical(f)
    ensures Ascending(ReachingMasks(w))
    ensures forall f :: f in ReachingMasks(w) ==> Canonical(f) && |Segments(f)| > 1
  {
    ReachingAscends(SortedSeq(w.Obfuscated()), SortedSeq(w.Obfuscated()));
  }

  /** Evaluating the conditions, whatever was posted, blanks the nested masks it reaches in the stored record. */
  lemma StoredIsDamaged(w: Setting, stored: Record, data: Record)
    requires forall f :: f in w.Obfuscated() ==> Canonical(f)
    ensures Same(Dict(Evaluated(w, Enforced(w, stored, data)).stored), Damaged(w, stored))
  {
    StagesAre(w, stored, data);
    EvaluatedIsSpoilt(StagesOf(w, stored, data));
  }

  /** Outside the owner, the flag and the name, the row holds the payload of the last stage. */
  lemma RowReads(w: Setting, stored: Record, data: Record, name: string, p: Path)
    requires (forall f :: f in w.Obfuscated() ==> Canonical(f)) && UpdateOutcome(w, stored, data, name).Saved?
    requires p != [] && p[0] !in OWNED + {DASHBOARD_FLAG, "rec_name"}
    ensures ReadAt(Dict(UpdateOutcome(w, stored, data, name).row), p)
         == ReadAt(StagesOf(w, stored, data).Final().payload, p)
  {
    StagesAre(w, stored, data);
    UpdatedRow(stored, Protected(w, stored, data).payload, name, p);
  }

  // ---- Any payload ------------------------------------------------------------------------

  /** No condition reads a field below which a path of the payload is refused. */
  predicate ConditionsSpareRefused(w: Setting, stored: Record, data: Record) {
    forall g, f :: g in w.conditions && f in DeniedWrites(w, OpUpdate, Dict(data), OwnerOverride(w, stored)) ==>
      |Segments(f)| > 1 ==> !ConditionReads(w, g, Segments(f)[0])
  }

  /** A field the actor does not see on the stored record and no permission frees, or may not write: one the save takes
      from the record. A refused path counts unless a nested mask cuts it off. */
  predicate Unseen(w: Setting, stored: Record, data: Record, path: string) {
    var freed := OwnerOverride(w, stored);
    || (path in DeniedWrites(w, OpUpdate, Dict(data), freed) && Clear(ReachingMasks(w), Segments(path)))
    || path in GuardedFields(w, Enforced(w, stored, data).stored, freed)
    || (&& path in HiddenMasks(w, stored) && path != WILDCARD && Unfreed(w, freed, path)
        && ConditionsSpareNested(w) && ConditionsSpareRefused(w, stored, data))
  }

  lemma RefusedAgree(w: Setting, stored: Record, data: Record)
    requires ConditionsSpareRefused(w, stored, data)
    ensures AgreeOnRead(w, Enforced(w, stored, data).stored, stored)
  {
    var refused := DeniedWrites(w, OpUpdate, Dict(data), OwnerOverride(w, stored));
    forall g, k | ConditionReads(w, g, k) ensures Get(Enforced(w, stored, data).stored, k) == Get(stored, k) {
      RestoresElsewhere(Draft(Dict(data), stored, {}), refused, k, stored);
    }
  }

  lemma UnseenIsTaken(w: Setting, stored: Record, data: Record, path: string)
    requires Unseen(w, stored, data, path)
    ensures Taken(StagesOf(w, stored, data), Segments(path))
  {
    var d, freed := Enforced(w, stored, data), OwnerOverride(w, stored);
    if ConditionsSpareNested(w) && ConditionsSpareRefused(w, stored, data) && (path != WILDCARD) {
      RefusedAgree(w, stored, data);
      ProtectionIsHiddenMasks(w, d.stored, stored, freed, path);
    }
  }

  /** For any payload whatever: an unseen path is stored as the evaluation of the conditions leaves it in the stored
      record, if the payload has an object to hold it or a restored field above it, and as null if not. So it keeps its
      stored value exactly when that is null, or the evaluation spares it and there is such a place. */
  lemma UnseenFieldsSurvive(w: Setting, stored: Record, data: Record, name: string, path: string)
    requires (forall f :: f in w.Obfuscated() ==> Canonical(f)) && Unseen(w, stored, data, path)
    requires Segments(path) != [] && Segments(path)[0] !in OWNED + {DASHBOARD_FLAG, "rec_name"}
    requires UpdateOutcome(w, stored, data, name).Saved?
    ensures var row, p := Dict(UpdateOutcome(w, stored, data, name).row), Segments(path);
      var placed := PlaceFor(StagesOf(w, stored, data), p);
      && Same(ReadAt(row, p), if placed then ReadAt(Damaged(w, stored), p) else Null)
      && (ReadsAs(row, Dict(stored), p) <==>
            ReadAt(Dict(stored), p) == Null || (ReadsAs(Damaged(w, stored), Dict(stored), p) && placed))
  {
    var s, p := StagesOf(w, stored, data), Segments(path);
    StagesAre(w, stored, data);
    UnseenIsTaken(w, stored, data, path);
    RowReads(w, stored, data, name, p);
    TakenValue(s, p);
    TakenSurvives(s, p);
  }

  /** A nested mask hidden on the record that the evaluation reaches is null after any save, whatever was stored or
      posted: so it survives a save exactly when nothing was there. */
  lemma SaveErasesNestedMask(w: Setting, stored: Record, data: Record, name: string, path: string)
    requires (forall f :: f in w.Obfuscated() ==> Canonical(f)) && path in ReachingMasks(w)
    requires Unseen(w, stored, data, path) && Segments(path)[0] !in OWNED + {DASHBOARD_FLAG, "rec_name"}
    requires UpdateOutcome(w, stored, data, name).Saved?
    ensures ReadAt(Dict(UpdateOutcome(w, stored, data, name).row), Segments(path)) == Null
  {
    ErasedInPayload(w, stored, data, path);
    RowReads(w, stored, data, name, Segments(path));
  }

  lemma ErasedInPayload(w: Setting, stored: Record, data: Record, path: string)
    requires (forall f :: f in w.Obfuscated() ==> Canonical(f)) && path in ReachingMasks(w)
    requires Unseen(w, stored, data, path)
    ensures ReadAt(StagesOf(w, stored, data).Final().payload, Segments(path)) == Null
  {
    StagesAre(w, stored, data);
    UnseenIsTaken(w, stored, data, path);
    TakenAndBlanked(StagesOf(w, stored, data), Segments(path));
  }

  // ---- What the actor may write -------------------------------------------------------------

  predicate Apart(shared: set<Path>, u: Path) {
    forall q :: q in shared ==> Unrelated(q, u)
  }

  lemma {:induction false} RestoredApart(d: Draft, fields: seq<string>, u: Path)
    requires u != [] && Apart(d.shared, u) && forall f :: f in fields ==> Segments(f) == [] || Unrelated(Segments(f), u)
    ensures var r := RestoreAllShared(d, fields); Apart(r.shared, u) && ReadAt(r.payload, u) == ReadAt(d.payload, u)
    decreases fields
  {
    if fields != [] {
      assert fields[0] in fields;
      var p := Segments(fields[0]);
      if p != [] { SetElsewhere(d.payload, p, ReadAt(Dict(d.stored), p), u); }
      RestoredApart(RestoreShared(d, p), fields[1..], u);
    }
  }

  lemma ApartBelow(shared: set<Path>, p: Path, u: Path)
    requires Apart(shared, u) && Inside(shared, p)
    ensures Unrelated(p, u)
  {
    var q :| q in shared && q < p;
    assert p <= u ==> q <= u;
    assert u <= p ==> q <= u || u <= q;
  }

  lemma {:induction false} BlanksApart(e: Evaluation, fields: seq<string>, u: Path)
    requires u != [] && Apart(e.shared, u)
    ensures var r := BlanksShared(e, fields); Apart(r.shared, u) && ReadAt(r.payload, u) == ReadAt(e.payload, u)
    decreases fields
  {
    if fields != [] {
      var p := Segments(fields[0]);
      if Inside(e.shared, p) && p != [] {
        ApartBelow(e.shared, p, u);
        SetElsewhere(e.payload, p, Null, u);
      }
      BlanksApart(BlankShared(e, p), fields[1..], u);
    }
  }

  lemma {:induction false} RevealsApart(w: Setting, e: Evaluation, fields: seq<string>, u: Path)
    requires u != [] && Apart(e.shared, u)
    ensures var r := RevealsShared(w, e, fields); Apart(r.shared, u) && ReadAt(r.payload, u) == ReadAt(e.payload, u)
    decreases fields
  {
    if fields != [] {
      var p := Segments(fields[0]);
      if Inside(e.shared, p) && p != [] {
        ApartBelow(e.shared, p, u);
        SetElsewhere(e.payload, p, ReadAt(Dict(e.t.original), p), u);
      }
      RevealsApart(w, if Revealed(w, e.t.original, fields[0]) then RevealShared(e, p) else e, fields[1..], u);
    }
  }

  /** What the actor may write is written: a path apart from every refused and every protected one reads as posted, an
      omitted one as absent. Only the owner is never written. */
  lemma PostedFieldsLand(w: Setting, stored: Record, data: Record, name: string, p: Path)
    requires (forall f :: f in w.Obfuscated() ==> Canonical(f)) && p != []
    requires p[0] !in OWNED + {DASHBOARD_FLAG, "rec_name"}
    requires forall f :: f in DeniedWrites(w, OpUpdate, Dict(data), OwnerOverride(w, stored)) ==>
      Segments(f) == [] || Unrelated(Segments(f), p)
    requires forall f :: f in GuardedFields(w, Enforced(w, stored, data).stored, OwnerOverride(w, stored)) ==>
      Segments(f) == [] || Unrelated(Segments(f), p)
    requires UpdateOutcome(w, stored, data, name).Saved?
    ensures ReadAt(Dict(UpdateOutcome(w, stored, data, name).row), p) == ReadAt(Dict(data), p)
  {
    var freed := OwnerOverride(w, stored);
    var d, order := Enforced(w, stored, data), SortedSeq(w.Obfuscated());
    RestoredApart(Draft(Dict(data), stored, {}), DeniedWrites(w, OpUpdate, Dict(data), freed), p);
    var e := Evaluation(ShallowCopy(d.stored), d.payload, d.shared);
    BlanksApart(e, order, p);
    RevealsApart(w, BlanksShared(e, order), order, p);
    RestoredApart(Evaluated(w, d), SortedSeq(GuardedFields(w, d.stored, freed)), p);
    StagesAre(w, stored, data);
    UpdatedRow(stored, Protected(w, stored, data).payload, name, p);
  }
}
