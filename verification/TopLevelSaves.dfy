/** Reading and saving with top-level masks: exactly which fields a save may erase, whatever the permissions. */
module TopLevelSaves {
  import opened Values
  import opened Paths
  import opened FieldAcl
  import opened RecordRules
  import opened Session
  import opened Views
  import opened WriteFields
  import opened SaveStages
  import opened ViewLaws
  import opened Saving
  import opened SaveLaws
  import opened RoundTrip

  /** What of the top level the save restores: what a write policy refuses or the protection covers. */
  predicate Kept(w: Setting, record: Record, k: string) {
    || k in DeniedWrites(w, OpUpdate, View(w, record), OwnerOverride(w, record))
    || Unfreed(w, OwnerOverride(w, record), k)
  }

  /** A hidden field some permission frees from the protection and no write policy refuses: the save takes what was
      posted. The owner's fields are never taken, and a denied name is added again. */
  predicate FreelyOverwritten(w: Setting, record: Record, k: string) {
    && k in NulledMasks(w, record) && k !in OWNED && !NamedAgain(w, [k])
    && !Kept(w, record, k)
  }

  lemma PlainMasksCanonical(w: Setting)
    requires PlainMasks(w)
    ensures forall f :: f in w.Masks() ==> Canonical(f) && Segments(f) == [f]
  {
    forall f | f in w.Masks() ensures Canonical(f) && Segments(f) == [f] { DottedIsCanonical([f]); }
  }

  lemma PlainGuarded(w: Setting, record: Record, k: string)
    requires PlainMasks(w) && View(w, record).Dict? && PlainKeys(View(w, record))
    ensures var stored := Enforced(w, record, View(w, record).entries).stored;
      k in GuardedFields(w, stored, OwnerOverride(w, record)) <==>
        k in HiddenMasks(w, record) && Unfreed(w, OwnerOverride(w, record), k)
  {
    PlainMasksCanonical(w);
    NothingReaches(w, record);
    ViewAgrees(w, record);
    var stored := Enforced(w, record, View(w, record).entries).stored;
    ProtectionIsHiddenMasks(w, stored, record, OwnerOverride(w, record), k);
  }

  lemma NamedPath(fields: seq<string>, k: string)
    requires PlainKey(k) && forall f :: f in fields ==> Canonical(f)
    ensures [k] in PathsNamed(fields) <==> k in fields
  {
    PlainSegments(k);
    forall f | f in fields && Segments(f) == [k] ensures f == k { assert f == Dotted([k]); }
  }

  lemma RestoredNamed(s: Stages, k: string)
    requires PlainKey(k) && (forall f :: f in s.refused ==> Canonical(f)) && forall f :: f in s.guarded ==> Canonical(f)
    ensures [k] in Restored(s) <==> k in s.refused || k in s.guarded
  {
    NamedPath(s.refused, k);
    NamedPath(s.guarded, k);
  }

  lemma PlainLists(w: Setting, record: Record)
    requires PlainMasks(w) && View(w, record).Dict? && PlainKeys(View(w, record))
    ensures var s := Posted(w, record);
      (forall f :: f in s.refused ==> Canonical(f)) && forall f :: f in s.guarded ==> Canonical(f)
  {
    PlainMasksCanonical(w);
    PayloadPathsAre(View(w, record));
    NothingReaches(w, record);
    forall f | f in Posted(w, record).guarded ensures Canonical(f) {
      PlainGuarded(w, record, f);
      assert f in w.Masks();
    }
  }

  lemma PlainRestored(w: Setting, record: Record, k: string)
    requires PlainMasks(w) && View(w, record).Dict? && PlainKeys(View(w, record)) && k in NulledMasks(w, record)
    ensures [k] in Restored(Posted(w, record)) <==> Kept(w, record, k)
  {
    PlainLists(w, record);
    PlainGuarded(w, record, k);
    RestoredNamed(Posted(w, record), k);
  }

  lemma PlainShown(w: Setting, record: Record, k: string)
    requires PlainMasks(w)
    ensures [k] in MaskPaths(w, record) <==> k in w.Masks()
    ensures k in w.Masks() ==> (Lifted(w, record, [k]) <==> k !in NulledMasks(w, record))
  {
    PlainMasksCanonical(w);
    if k in w.Masks() {
      assert Segments(k) in MaskPaths(w, record);
      if k !in NulledMasks(w, record) {
        assert forall u :: u in MaskPaths(w, record) ==> !(u < [k]);
        assert LiftedBy(w, record, [k], k);
      } else {
        NotLifted(w, record, k);
      }
    }
  }

  lemma NotLifted(w: Setting, record: Record, k: string)
    requires PlainMasks(w) && k in NulledMasks(w, record)
    ensures !Lifted(w, record, [k])
  {
    PlainMasksCanonical(w);
    forall h | h in w.Obfuscated() && Segments(h) <= [k] ensures !Revealed(w, record, h) {
      assert [h] <= [k] && [h][0] == [k][0];
    }
  }

  /** A masked field is brought back unless the save freely overwrites it, or there was nothing. */
  lemma PlainBroughtBack(w: Setting, record: Record, restored: set<Path>, k: string)
    requires PlainMasks(w) && k in w.Masks() && [] !in restored
    requires k in NulledMasks(w, record) ==> ([k] in restored <==> Kept(w, record, k))
    ensures BroughtBack(w, record, restored, [k]) <==> (FreelyOverwritten(w, record, k) ==> Get(record, k) == Null)
  {
    PlainShown(w, record, k);
    OnlyKey(restored, k);
    assert ReadAt(Dict(record), [k]) == Get(record, k);
  }

  lemma OnlyKey(paths: set<Path>, k: string)
    requires [] !in paths
    ensures (exists u :: u in paths && u <= [k]) <==> [k] in paths
  {
    assert [k] <= [k];
    forall u | u in paths && u <= [k] ensures u == [k] {}
  }

  lemma NothingOverwritten(w: Setting, record: Record, restored: set<Path>)
    requires PlainMasks(w) && [] !in restored
    requires forall k :: k in NulledMasks(w, record) ==> ([k] in restored <==> Kept(w, record, k))
    ensures NothingMissing(w, record, restored)
       <==> forall k :: FreelyOverwritten(w, record, k) ==> Get(record, k) == Null
  {
    forall k | k in w.Masks()
      ensures [k] in MaskPaths(w, record)
      ensures BroughtBack(w, record, restored, [k]) <==> (FreelyOverwritten(w, record, k) ==> Get(record, k) == Null)
    {
      PlainShown(w, record, k);
      PlainBroughtBack(w, record, restored, k);
    }
    forall p | p in MaskPaths(w, record) ensures exists k :: k in w.Masks() && p == [k] { MaskIsKey(w, record, p); }
    forall k | FreelyOverwritten(w, record, k) ensures k in w.Masks() {}
  }

  lemma MaskIsKey(w: Setting, record: Record, p: Path)
    requires PlainMasks(w) && p in MaskPaths(w, record)
    ensures exists k :: k in w.Masks() && p == [k]
  {
    PlainMasksCanonical(w);
    var f :| f in w.Masks() && Segments(f) == p;
  }

  /** With top-level masks and any permissions at all: what a load returned saves back unchanged exactly when the
      record has nothing in the fields the save is free to overwrite, nor a dashboard flag. */
  lemma ReadThenSaveExactly(w: Setting, record: Record, name: string)
    requires Update in w.ModelAccess() && Update in w.RecordAccess(record)
    requires PlainMasks(w) && PlainKeys(View(w, record)) && Get(record, "rec_name") == Str(name)
    ensures View(w, record).Dict?
    ensures var r := UpdateOutcome(w, record, View(w, record).entries, name);
      r.Saved? &&
      (Same(Dict(r.row), Dict(record)) <==>
        Get(record, DASHBOARD_FLAG) == Null &&
        forall k :: FreelyOverwritten(w, record, k) ==> Get(record, k) == Null)
  {
    PlainMasksCanonical(w);
    ReadThenSave(w, record, name);
    NothingReaches(w, record);
    assert Survives(Posted(w, record), OWNED);
    forall k | k in NulledMasks(w, record) ensures [k] in Restored(Posted(w, record)) <==> Kept(w, record, k) {
      PlainRestored(w, record, k);
    }
    NothingOverwritten(w, record, Restored(Posted(w, record)));
  }
}
