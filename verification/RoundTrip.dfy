/** Reading a record and saving back exactly what was shown: when that leaves the record as it was. */
module RoundTrip {
  import opened Values
  import opened Paths
  import opened FieldAcl
  import opened RecordRules
  import opened Session
  import opened Views
  import opened WriteFields
  import opened DraftLaws
  import opened EvaluationLaws
  import opened SaveStages
  import opened ViewLaws
  import opened Saving
  import opened SaveLaws

  /** The save of what a load returned. */
  function Posted(w: Setting, record: Record): Stages
    requires View(w, record).Dict?
  {
    StagesOf(w, record, View(w, record).entries)
  }

  /** A denied name is missing from the view, and the save adds it again. */
  predicate NamedAgain(w: Setting, p: Path)
    requires p != []
  {
    p[0] == "rec_name" && (WILDCARD in w.Denied() || [p[0]] in SegmentsOf(w.Denied()))
  }

  /** The load shows what the path names, or there is nothing, or the save restores it or something above it. */
  predicate BroughtBack(w: Setting, record: Record, restored: set<Path>, p: Path)
    requires p != []
  {
    || Lifted(w, record, p) || ReadAt(Dict(record), p) == Null
    || (exists u :: u in restored && u <= p)
    || p[0] in OWNED || NamedAgain(w, p)
  }

  /** Every masked path is brought back. */
  predicate NothingMissing(w: Setting, record: Record, restored: set<Path>) {
    forall p :: p in MaskPaths(w, record) && p != [] ==> BroughtBack(w, record, restored, p)
  }

  // ---- The row and its payload ------------------------------------------------------------------

  /** The row an update stores, read off the payload of its last stage. */
  ghost predicate RowOf(row: Record, payload: Value) {
    && payload.Dict? && Get(row, DASHBOARD_FLAG) == Null
    && (forall p: Path :: p != [] && p[0] !in OWNED + {DASHBOARD_FLAG, "rec_name"} ==>
          ReadAt(Dict(row), p) == ReadAt(payload, p))
    && ("rec_name" in payload.entries ==> Get(row, "rec_name") == Get(payload.entries, "rec_name"))
  }

  lemma StoredRow(stored: Record, payload: Value, name: string)
    requires payload.Dict?
    ensures RowOf(KeepOwner(stored, Named(DeleteAt(payload, [DASHBOARD_FLAG]), name)), payload)
  {
    forall p: Path | p != [] && p[0] !in OWNED + {DASHBOARD_FLAG, "rec_name"}
      ensures ReadAt(Dict(KeepOwner(stored, Named(DeleteAt(payload, [DASHBOARD_FLAG]), name))), p) == ReadAt(payload, p)
    {
      UpdatedRow(stored, payload, name, p);
    }
  }

  lemma OutcomeRow(w: Setting, stored: Record, data: Record, name: string)
    requires (forall f :: f in w.Obfuscated() ==> Canonical(f)) && UpdateOutcome(w, stored, data, name).Saved?
    ensures StagesOf(w, stored, data).Valid()
    ensures RowOf(UpdateOutcome(w, stored, data, name).row, StagesOf(w, stored, data).Final().payload)
  {
    StagesAre(w, stored, data);
    StoredRow(stored, Protected(w, stored, data).payload, name);
  }

  /** A payload that is the record but for the owner and, maybe, a missing name makes the record's row. */
  lemma RowIsRecord(record: Record, payload: Value, name: string, key: string)
    requires SameBut(payload, Dict(record), OWNED + {key}) && Get(record, DASHBOARD_FLAG) == Null
    requires Get(record, key) == Str(name) && key == "rec_name"
    requires key in payload.entries ==> Get(payload.entries, key) == Str(name)
    ensures Same(Dict(KeepOwner(record, Named(DeleteAt(payload, [DASHBOARD_FLAG]), name))), Dict(record))
  {
    var row := KeepOwner(record, Named(DeleteAt(payload, [DASHBOARD_FLAG]), name));
    assert Get(row, key) == Str(name);
    forall k ensures Same(Get(row, k), Get(record, k)) { RowKey(record, payload, name, k); }
    SameRecords(row, record);
  }

  lemma RowKey(record: Record, payload: Value, name: string, k: string)
    requires payload.Dict?
    ensures var row := KeepOwner(record, Named(DeleteAt(payload, [DASHBOARD_FLAG]), name));
      && (k in OWNED ==> Get(row, k) == Get(record, k))
      && (k == DASHBOARD_FLAG ==> Get(row, k) == Null)
      && (k !in OWNED + {DASHBOARD_FLAG, "rec_name"} ==> Get(row, k) == Get(payload.entries, k))
  {}

  // ---- What was shown and restored is the record ----------------------------------------------

  /** The two read the same, or the path is restored or free. */
  predicate Accounted(v: Value, w: Value, restored: set<Path>, free: set<string>, p: Path)
    requires p != []
  {
    ReadsAs(v, w, p) || p[0] in free || exists u :: u in restored && u <= p
  }

  lemma DiffersInRest(v: Value, w: Value, paths: set<Path>, restored: set<Path>, free: set<string>)
    requires SameOutside(v, w, paths) && forall p :: p in paths ==> p != [] && Accounted(v, w, restored, free, p)
    ensures SameOutside(v, w, restored + Tops(free))
  {
    var kept := restored + Tops(free);
    MoreOutside(v, w, paths, paths + kept);
    forall p | p in paths ensures ReadsAs(v, w, p) || exists u :: u in kept && u <= p {
      assert Accounted(v, w, restored, free, p);
      if p[0] in free {
        assert [p[0]] in kept && [p[0]] <= p;
      } else if u :| u in restored && u <= p {
        assert u in kept;
      }
    }
    OnlyBelow(v, w, paths, kept);
  }

  lemma ShownOrRestored(w: Setting, record: Record, restored: set<Path>, p: Path, key: string)
    requires (forall f :: f in w.Masks() ==> Canonical(f)) && p in MaskPaths(w, record) && p != []
    requires BroughtBack(w, record, restored, p) && key == "rec_name"
    ensures Accounted(View(w, record), Dict(record), restored, OWNED + {key}, p)
  {
    ViewAt(w, record, p);
  }

  /** The view differs from the record only in what the save restores, the owner and the name. */
  lemma PostedOutside(w: Setting, record: Record, restored: set<Path>, key: string)
    requires (forall f :: f in w.Masks() ==> Canonical(f)) && NothingMissing(w, record, restored) && key == "rec_name"
    ensures SameOutside(View(w, record), Dict(record), restored + Tops(OWNED + {key}))
  {
    var view, paths, free := View(w, record), MaskPaths(w, record), OWNED + {key};
    ViewOutside(w, record);
    forall p | p in paths ensures p != [] && Accounted(view, Dict(record), restored, free, p) {
      MaskPathsNamed(w, record, p);
      ShownOrRestored(w, record, restored, p, key);
    }
    DiffersInRest(view, Dict(record), paths, restored, free);
  }

  /** A restored field that holds no object is stored as it was. */
  lemma RestoredKey(s: Stages, k: string)
    requires s.Valid() && [k] in Restored(s) && !Get(s.stored, k).Dict?
    ensures s.Final().payload.Dict? && Same(Get(s.Final().payload.entries, k), Get(s.stored, k))
  {
    PayloadIsObject(s);
    assert Clear(s.masks, [k]);
    BlanksAway(Dict(s.stored), s.masks, [k]);
    TakenReads(s, [k]);
    assert ReadAt(s.Final().payload, [k]) == Get(s.Final().payload.entries, k);
  }

  /** The name is stored, or missing from the payload. */
  lemma NameKept(s: Stages, k: string, x: Value)
    requires s.Valid() && Get(s.stored, k) == x && x.Str?
    requires [k] in Restored(s) || k !in s.data || s.data[k] == x
    ensures s.Final().payload.Dict?
    ensures k in s.Final().payload.entries ==> Get(s.Final().payload.entries, k) == x
  {
    PayloadIsObject(s);
    if [k] in Restored(s) {
      RestoredKey(s, k);
      assert forall v :: Same(v, x) ==> v == x;
    } else {
      KeyStays(s, k);
    }
  }

  lemma NameShown(w: Setting, record: Record, restored: set<Path>, k: string)
    requires (forall f :: f in w.Masks() ==> Canonical(f)) && Get(record, k).Str? && k !in OWNED && [] !in restored
    requires [k] in MaskPaths(w, record) ==> BroughtBack(w, record, restored, [k])
    ensures View(w, record).Dict?
    ensures var data := View(w, record).entries; [k] in restored || k !in data || data[k] == Get(record, k)
  {
    ViewIsDict(w, record);
    if [k] !in MaskPaths(w, record) || Lifted(w, record, [k]) {
      UnmaskedKey(w, record, k);
    } else if NamedAgain(w, [k]) {
      MaskedKey(w, record, k);
    } else {
      var u :| u in restored && u <= [k];
      assert u == [k];
    }
  }

  lemma NameThere(w: Setting, record: Record, restored: set<Path>, key: string)
    requires (forall f :: f in w.Masks() ==> Canonical(f)) && NothingMissing(w, record, restored) && [] !in restored
    requires key == "rec_name" && Get(record, key).Str?
    ensures View(w, record).Dict?
    ensures var data := View(w, record).entries; [key] in restored || key !in data || data[key] == Get(record, key)
  {
    assert key !in OWNED;
    var p := [key];
    assert p in MaskPaths(w, record) ==> BroughtBack(w, record, restored, p);
    NameShown(w, record, restored, key);
  }

  lemma StoredAsWas(s: Stages, name: string, key: string)
    requires s.Valid() && Survives(s, OWNED) && key == "rec_name"
    requires SameOutside(Dict(s.data), Dict(s.stored), Restored(s) + Tops(OWNED + {key}))
    requires Get(s.stored, key) == Str(name) && Get(s.stored, DASHBOARD_FLAG) == Null
    requires [key] in Restored(s) || key !in s.data || s.data[key] == Get(s.stored, key)
    ensures Same(Dict(KeepOwner(s.stored, Named(DeleteAt(s.Final().payload, [DASHBOARD_FLAG]), name))), Dict(s.stored))
  {
    SavesBack(s, OWNED + {key});
    NameKept(s, key, Str(name));
    RowIsRecord(s.stored, s.Final().payload, name, key);
  }

  lemma SavedAsWas(w: Setting, record: Record, s: Stages, name: string, key: string)
    requires (forall f :: f in w.Masks() ==> Canonical(f)) && s.Valid() && s.stored == record
    requires View(w, record) == Dict(s.data) && NothingMissing(w, record, Restored(s)) && Survives(s, OWNED)
    requires key == "rec_name" && Get(record, key) == Str(name) && Get(record, DASHBOARD_FLAG) == Null
    ensures Same(Dict(KeepOwner(record, Named(DeleteAt(s.Final().payload, [DASHBOARD_FLAG]), name))), Dict(record))
  {
    var restored := Restored(s);
    PostedOutside(w, record, restored, key);
    NameThere(w, record, restored, key);
    StoredAsWas(s, name, key);
  }

  // ---- What was neither is lost ------------------------------------------------------------------

  /** What the save takes from a record it leaves as it was is not spoilt. */
  lemma TakenUnspoilt(s: Stages, row: Record, p: Path)
    requires s.Valid() && RowOf(row, s.Final().payload) && Same(Dict(row), Dict(s.stored))
    requires Get(s.stored, "rec_name").Str? && Taken(s, p) && p != [] && p[0] !in OWNED
    ensures ReadsAs(s.Spoilt(), Dict(s.stored), p)
  {
    if !Get(s.stored, p[0]).Dict? {
      PlainFieldSafe(s, p);
    } else {
      SameGet(Dict(row), Dict(s.stored), DASHBOARD_FLAG);
      assert p[0] != DASHBOARD_FLAG && p[0] != "rec_name";
      assert ReadAt(Dict(row), p) == ReadAt(s.Final().payload, p);
      SameRead(Dict(row), Dict(s.stored), p);
      NotSpoilt(s, p);
    }
  }

  lemma RowNull(row: Record, payload: Value, p: Path, key: string)
    requires RowOf(row, payload) && p != [] && p[0] !in OWNED && key == "rec_name" && ReadAt(payload, p) == Null
    requires p[0] == key ==> |p| == 1 && key in payload.entries
    ensures ReadAt(Dict(row), p) == Null
  {
    if p[0] == DASHBOARD_FLAG {
      assert ReadAt(Dict(row), [p[0]]) == Null;
      NullBelowNull(Dict(row), [p[0]], p);
    }
  }

  lemma NullKey(s: Stages, key: string)
    requires s.Valid() && key in s.data && s.data[key] == Null && [key] !in Restored(s)
    ensures s.Final().payload.Dict? && key in s.Final().payload.entries
  {
    KeyStays(s, key);
  }

  /** What was posted as null, and nothing restored at or above it, is null in the row; an absent name is not. */
  lemma PostedNull(s: Stages, row: Record, p: Path, key: string)
    requires s.Valid() && RowOf(row, s.Final().payload) && p != [] && p[0] !in OWNED && key == "rec_name"
    requires ReadAt(Dict(s.data), p) == Null && forall u :: u in Restored(s) ==> !(u <= p)
    requires p[0] == key ==> p == [key] && key in s.data
    ensures ReadAt(Dict(row), p) == Null
  {
    NotBroughtBack(s, p);
    if p[0] == key { NullKey(s, key); }
    RowNull(row, s.Final().payload, p, key);
  }

  lemma NothingBelow(r: Record, p: Path)
    requires |p| > 1 && !Get(r, p[0]).Dict?
    ensures ReadAt(Dict(r), p) == Null
  {}

  lemma MissingName(w: Setting, record: Record, restored: set<Path>, p: Path, key: string)
    requires (forall f :: f in w.Masks() ==> Canonical(f)) && View(w, record).Dict?
    requires p in MaskPaths(w, record) && p != [] && !BroughtBack(w, record, restored, p)
    requires p[0] == key && key == "rec_name" && Get(record, key).Str?
    ensures p == [key] && key in View(w, record).entries
  {
    if |p| > 1 { NothingBelow(record, p); }
    assert p == [key];
    MaskedKey(w, record, key);
  }

  lemma MissingIsLost(w: Setting, record: Record, s: Stages, row: Record, p: Path, key: string)
    requires (forall f :: f in w.Masks() ==> Canonical(f)) && View(w, record) == Dict(s.data)
    requires key == "rec_name" && Get(record, key).Str? && s.Valid() && RowOf(row, s.Final().payload)
    requires p in MaskPaths(w, record) && p != [] && !BroughtBack(w, record, Restored(s), p)
    ensures ReadAt(Dict(row), p) == Null
  {
    ViewAt(w, record, p);
    if p[0] == key { MissingName(w, record, Restored(s), p, key); }
    PostedNull(s, row, p, key);
  }

  /** Whatever the masks, the conditions and the permissions: a masked path that is not brought back is null after a
      save of the view. */
  lemma MissingIsErased(w: Setting, record: Record, name: string, p: Path)
    requires Update in w.ModelAccess() && Update in w.RecordAccess(record)
    requires (forall f :: f in w.Masks() ==> Canonical(f)) && Get(record, "rec_name").Str?
    requires View(w, record).Dict? && p in MaskPaths(w, record) && p != []
    requires !BroughtBack(w, record, Restored(Posted(w, record)), p)
    ensures var r := UpdateOutcome(w, record, View(w, record).entries, name);
      r.Saved? && ReadAt(Dict(r.row), p) == Null
  {
    var row := UpdateOutcome(w, record, View(w, record).entries, name).row;
    OutcomeRow(w, record, View(w, record).entries, name);
    MissingIsLost(w, record, Posted(w, record), row, p, "rec_name");
  }

  lemma NothingWasLost(w: Setting, record: Record, s: Stages, row: Record)
    requires (forall f :: f in w.Masks() ==> Canonical(f)) && Get(record, "rec_name").Str?
    requires View(w, record) == Dict(s.data) && s.stored == record && s.Valid() && RowOf(row, s.Final().payload)
    requires Same(Dict(row), Dict(record))
    ensures Get(record, DASHBOARD_FLAG) == Null && Survives(s, OWNED) && NothingMissing(w, record, Restored(s))
  {
    SameGet(Dict(row), Dict(record), DASHBOARD_FLAG);
    forall p | p != [] && Taken(s, p) && p[0] !in OWNED ensures ReadsAs(s.Spoilt(), Dict(s.stored), p) {
      TakenUnspoilt(s, row, p);
    }
    forall p | p in MaskPaths(w, record) && p != [] ensures BroughtBack(w, record, Restored(s), p) {
      if !BroughtBack(w, record, Restored(s), p) {
        MissingIsLost(w, record, s, row, p, "rec_name");
        SameRead(Dict(row), Dict(record), p);
      }
    }
  }

  /** Posting back exactly what a load returned saves, and leaves the record as it was, null and absent being one, if
      and only if the record carries no dashboard flag, which every save strips; evaluating the conditions blanks
      nothing in the paths the save takes from the stored record; and every masked path is brought back. */
  lemma ReadThenSave(w: Setting, record: Record, name: string)
    requires Update in w.ModelAccess() && Update in w.RecordAccess(record)
    requires (forall f :: f in w.Masks() ==> Canonical(f)) && Get(record, "rec_name") == Str(name)
    ensures View(w, record).Dict?
    ensures var r, s := UpdateOutcome(w, record, View(w, record).entries, name), Posted(w, record);
      r.Saved? &&
      (Same(Dict(r.row), Dict(record)) <==>
        Get(record, "create_menu_dashboard") == Null && Survives(s, OWNED) && NothingMissing(w, record, Restored(s)))
  {
    ViewIsDict(w, record);
    var s := Posted(w, record);
    var row := UpdateOutcome(w, record, View(w, record).entries, name).row;
    OutcomeRow(w, record, View(w, record).entries, name);
    StagesAre(w, record, View(w, record).entries);
    if Get(record, DASHBOARD_FLAG) == Null && Survives(s, OWNED) && NothingMissing(w, record, Restored(s)) {
      SavedAsWas(w, record, s, name, "rec_name");
    }
    if Same(Dict(row), Dict(record)) { NothingWasLost(w, record, s, row); }
  }
}
