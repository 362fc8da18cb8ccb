/** What an actor is shown of one record by a list, a stream and a single load. */
module Views {
  import opened Values
  import opened Text
  import opened Paths
  import opened Filters
  import opened FieldAcl
  import opened RecordRules
  import opened Session

  /** The field carries a condition and it matches the record. */
  predicate Revealed(w: Setting, record: Record, field: string) {
    field in w.conditions && Truthy(w.conditions[field]) &&
    var cond := w.resolve(w.conditions[field]);
    cond.Dict? && cond.entries != map[] && RecordMatches(record, cond)
  }

  /** Setting a field back to the original's value if its condition matches. */
  function RevealOne(w: Setting, v: Value, original: Record, field: string): Value {
    if Revealed(w, original, field) then SetAt(v, Segments(field), ReadAt(Dict(original), Segments(field))) else v
  }

  /** The masked value with every revealed field of the list set back. */
  function WithReveals(w: Setting, masked: Value, original: Record, fields: seq<string>): Value
    decreases fields
  {
    if fields == [] then masked
    else WithReveals(w, RevealOne(w, masked, original, fields[0]), original, fields[1..])
  }

  /** The fields of the list that stay hidden. */
  function Unrevealed(w: Setting, original: Record, fields: seq<string>): seq<string> {
    if fields == [] then []
    else (if Revealed(w, original, fields[0]) then [] else [fields[0]]) + Unrevealed(w, original, fields[1..])
  }

  /** `apply_field_rule_conditions` on an unshared copy: sets revealed fields back in place, reports the others. */
  method ApplyFieldRuleConditions(w: Setting, original: Record, obfuscated: Value, baseline: seq<string>)
    returns (shown: Value, still: seq<string>)
    ensures shown == WithReveals(w, obfuscated, original, baseline)
    ensures still == Unrevealed(w, original, baseline)
  {
    if w.conditions == map[] {
      NoConditions(w, obfuscated, original, baseline);
      return obfuscated, baseline;
    }
    shown, still := RevealFields(w, original, obfuscated, baseline);
  }

  /** The first `i` fields are dealt with. */
  ghost predicate Progress(w: Setting, original: Record, obfuscated: Value, baseline: seq<string>, i: nat,
      shown: Value, still: seq<string>)
    requires i <= |baseline|
  {
    && WithReveals(w, shown, original, baseline[i..]) == WithReveals(w, obfuscated, original, baseline)
    && Unrevealed(w, original, baseline) == still + Unrevealed(w, original, baseline[i..])
  }

  method RevealFields(w: Setting, original: Record, obfuscated: Value, baseline: seq<string>)
    returns (shown: Value, still: seq<string>)
    ensures shown == WithReveals(w, obfuscated, original, baseline)
    ensures still == Unrevealed(w, original, baseline)
  {
    shown, still := obfuscated, [];
    assert baseline[0..] == baseline;
    for i := 0 to |baseline|
      invariant Progress(w, original, obfuscated, baseline, i, shown, still)
    {
      var hidden: seq<string>;
      ghost var before, had := shown, still;
      shown, hidden := RevealField(w, original, shown, baseline[i]);
      still := still + hidden;
      RevealProgress(w, original, obfuscated, baseline, i, before, had);
    }
    assert baseline[|baseline|..] == [];
  }

  lemma RevealProgress(w: Setting, original: Record, obfuscated: Value, baseline: seq<string>, i: nat,
      shown: Value, still: seq<string>)
    requires i < |baseline| && Progress(w, original, obfuscated, baseline, i, shown, still)
    ensures Progress(w, original, obfuscated, baseline, i + 1, RevealOne(w, shown, original, baseline[i]),
      still + (if Revealed(w, original, baseline[i]) then [] else [baseline[i]]))
  {
    RevealStep(w, shown, original, baseline, i);
    Regroup(still, if Revealed(w, original, baseline[i]) then [] else [baseline[i]],
            Unrevealed(w, original, baseline[i + 1..]));
  }

  lemma Regroup(a: seq<string>, b: seq<string>, c: seq<string>)
    ensures a + (b + c) == (a + b) + c
  {}

  lemma RevealStep(w: Setting, shown: Value, original: Record, fields: seq<string>, i: nat)
    requires i < |fields|
    ensures WithReveals(w, shown, original, fields[i..])
      == WithReveals(w, RevealOne(w, shown, original, fields[i]), original, fields[i + 1..])
    ensures Unrevealed(w, original, fields[i..])
      == (if Revealed(w, original, fields[i]) then [] else [fields[i]]) + Unrevealed(w, original, fields[i + 1..])
  {
    assert fields[i..][0] == fields[i] && fields[i..][1..] == fields[i + 1..];
  }

  /** One turn of that loop. */
  method RevealField(w: Setting, original: Record, obfuscated: Value, field: string)
    returns (shown: Value, hidden: seq<string>)
    ensures shown == RevealOne(w, obfuscated, original, field)
    ensures hidden == if Revealed(w, original, field) then [] else [field]
  {
    if field in w.conditions && Truthy(w.conditions[field]) {
      var cond := w.resolve(w.conditions[field]);
      if cond.Dict? && cond.entries != map[] && RecordMatches(original, cond) {
        var value := ReadPath(Dict(original), field);
        return SetAt(obfuscated, Segments(field), value), [];
      }
    }
    return obfuscated, [field];
  }

  lemma {:induction false} NoConditions(w: Setting, masked: Value, original: Record, fields: seq<string>)
    requires w.conditions == map[]
    ensures WithReveals(w, masked, original, fields) == masked
    ensures Unrevealed(w, original, fields) == fields
    decreases fields
  {
    if fields != [] { NoConditions(w, masked, original, fields[1..]); }
  }

  /** The row a list shows and the record a load shows: masks on a deep copy, then the reveals. */
  function View(w: Setting, record: Record): Value {
    WithReveals(w, MaskedView(w.policies, w.Where(), Dict(record)), record, SortedSeq(w.Obfuscated()))
  }

  datatype LoadResult =
    | NotFound
    | Loaded(view: Value, editable: bool, obfuscated: seq<string>)

  /** `load_record` of the record the store holds under the name (an empty one when it holds none). */
  method LoadRecord(w: Setting, record: Record) returns (result: LoadResult)
    ensures result.NotFound? <==> !w.CanOpen(record)
    ensures result.Loaded? ==>
      && result.view == View(w, record)
      && (result.editable <==> Update in w.ModelAccess() && Update in w.RecordAccess(record))
      && result.obfuscated == Unrevealed(w, record, SortedSeq(w.Obfuscated()))
  {
    var modelAccess := ModelGroupAccess(w.groupRows, w.groups, w.isAdmin);
    var recordAccess := RecordRuleAccess(w.Rules(), record, w.resolve, w.isSysModel);
    if Read !in modelAccess || Read !in recordAccess { return NotFound; }
    var item, obfuscated := ShowRecord(w, record);
    result := Loaded(item, Update in modelAccess && Update in recordAccess, obfuscated);
  }

  /** The steps lists and loads share: the masks on a deep copy, then the conditions on the original. */
  method ShowRecord(w: Setting, record: Record) returns (item: Value, obfuscated: seq<string>)
    ensures item == View(w, record)
    ensures obfuscated == Unrevealed(w, record, SortedSeq(w.Obfuscated()))
  {
    item, obfuscated := ApplyRead(w.policies, w.Where(), Dict(record));
    NoConditionsAnywhere(w, item, record, obfuscated);
    if w.conditions != map[] {
      item, obfuscated := ApplyFieldRuleConditions(w, record, item, obfuscated);
    }
  }

  lemma NoConditionsAnywhere(w: Setting, masked: Value, original: Record, fields: seq<string>)
    ensures w.conditions == map[] ==>
      WithReveals(w, masked, original, fields) == masked && Unrevealed(w, original, fields) == fields
  {
    if w.conditions == map[] { NoConditions(w, masked, original, fields); }
  }

  // ---- The stream: two shallow copies of one row ------------------------------

  /** A row and a shallow copy of it. A linked key holds the same object in both: a write below it shows in both. */
  datatype Twin = Twin(original: Record, copy: Record, linked: set<string>)

  function ShallowCopy(record: Record): Twin {
    Twin(record, record, record.Keys)
  }

  /** Writing the copy at a path. */
  function TwinSet(t: Twin, p: Path, x: Value): Twin
    requires p != []
  {
    if |p| == 1 then Twin(t.original, t.copy[p[0] := x], t.linked - {p[0]})
    else if p[0] !in t.copy then t
    else Twin(
      if p[0] in t.linked && p[0] in t.original
      then t.original[p[0] := SetAt(t.original[p[0]], p[1..], x)] else t.original,
      t.copy[p[0] := SetAt(t.copy[p[0]], p[1..], x)],
      t.linked)
  }

  /** `_obfuscate_path` on the copy. */
  function TwinBlank(t: Twin, p: Path): Twin {
    if p != [] && HasPath(Dict(t.copy), p) then TwinSet(t, p, Null) else t
  }

  /** `restore_path` on the copy, from the original; a whole top-level value becomes shared again. */
  function TwinRestore(t: Twin, p: Path): Twin {
    if p == [] then t
    else
      var s := TwinSet(t, p, ReadAt(Dict(t.original), p));
      if |p| == 1 && p[0] in t.original then s.(linked := s.linked + {p[0]}) else s
  }

  function TwinBlanks(t: Twin, fields: seq<string>): Twin
    decreases fields
  {
    if fields == [] then t else TwinBlanks(TwinBlank(t, Segments(fields[0])), fields[1..])
  }

  function TwinReveals(w: Setting, t: Twin, fields: seq<string>): Twin
    decreases fields
  {
    if fields == [] then t
    else
      var next := if Revealed(w, t.original, fields[0]) then TwinRestore(t, Segments(fields[0])) else t;
      TwinReveals(w, next, fields[1..])
  }

  /** `_apply_field_rule_conditions_to_stream` on one row, `baseline` being what the envelope says to blank. */
  method StreamRow(w: Setting, record: Record, baseline: seq<string>) returns (row: Record)
    ensures row == StreamedCopy(w, record, baseline)
  {
    var t := ShallowCopy(record);
    for i := 0 to |baseline|
      invariant TwinBlanks(t, baseline[i..]) == TwinBlanks(ShallowCopy(record), baseline)
    {
      assert baseline[i..][1..] == baseline[i + 1..];
      t := TwinBlank(t, Segments(baseline[i]));
    }
    assert baseline[|baseline|..] == [];
    for i := 0 to |baseline|
      invariant TwinReveals(w, t, baseline[i..])
             == TwinReveals(w, TwinBlanks(ShallowCopy(record), baseline), baseline)
    {
      assert baseline[i..][1..] == baseline[i + 1..];
      if Revealed(w, t.original, baseline[i]) { t := TwinRestore(t, Segments(baseline[i])); }
    }
    row := t.copy;
  }

  function StreamedCopy(w: Setting, record: Record, baseline: seq<string>): Record {
    TwinReveals(w, TwinBlanks(ShallowCopy(record), baseline), baseline).copy
  }

  /** The envelope of a streamed list carries every read mask, denied and obfuscated alike. */
  function StreamBaseline(w: Setting): seq<string> {
    SortedSeq(w.Masks())
  }

  function StreamView(w: Setting, record: Record): Value {
    Dict(StreamedCopy(w, record, StreamBaseline(w)))
  }

  // ---- Top-level masks: one formula for every reader ---------------------------

  /** Every mask names a top-level field; a denied `*` is one of them as far as the path operations go. */
  predicate TopLevelMasks(w: Setting) {
    forall f :: f in w.Masks() ==> PlainKey(f)
  }

  predicate PlainMasks(w: Setting) {
    WILDCARD !in w.Denied() && TopLevelMasks(w)
  }

  /** A load or a list shows the field's true value; a denied `*` leaves only what a condition brings back. */
  predicate ShownByLoad(w: Setting, record: Record, k: string) {
    || (WILDCARD !in w.Denied() && k !in w.Masks())
    || (k in w.Obfuscated() && Revealed(w, record, k))
  }

  /** A stream shows the field's true value: its blanks take a denied `*` for a field of that name. */
  predicate ShownByStream(w: Setting, record: Record, k: string) {
    k !in w.Masks() || Revealed(w, record, k)
  }

  lemma PlainSegments(k: string)
    requires PlainKey(k)
    ensures Segments(k) == [k]
  {
    DottedIsCanonical([k]);
  }

  lemma {:induction false} PlainDenied(v: Value, fields: seq<string>)
    requires v.Dict? && forall f :: f in fields ==> PlainKey(f) && f != WILDCARD
    ensures WithoutDenied(v, fields) == Dict(v.entries - set f | f in fields)
    decreases fields
  {
    if fields != [] {
      PlainSegments(fields[0]);
      PlainDenied(DeleteAt(v, [fields[0]]), fields[1..]);
      assert (set f | f in fields) == {fields[0]} + set f | f in fields[1..];
      assert v.entries - (set f | f in fields) == v.entries - {fields[0]} - set f | f in fields[1..];
    } else {
      assert v.entries - (set f | f in fields) == v.entries;
    }
  }

  /** A denied `*` empties the record, wherever it stands in the list. */
  lemma {:induction false} WildcardEmpties(v: Value, fields: seq<string>)
    requires v.Dict? && (WILDCARD in fields || v == Dict(map[]))
    ensures WithoutDenied(v, fields) == Dict(map[])
    decreases fields
  {
    if fields != [] {
      assert fields == [fields[0]] + fields[1..];
      WildcardEmpties(if fields[0] == WILDCARD then Dict(map[]) else DeleteAt(v, Segments(fields[0])), fields[1..]);
    }
  }

  lemma {:induction false} PlainBlanks(v: Value, fields: seq<string>)
    requires v.Dict? && forall f :: f in fields ==> PlainKey(f)
    ensures WithBlanks(v, fields) == Dict(map k | k in v.entries :: if k in fields then Null else v.entries[k])
    decreases fields
  {
    if fields != [] {
      PlainSegments(fields[0]);
      PlainBlanks(BlankAt(v, [fields[0]]), fields[1..]);
    }
  }

  lemma {:induction false} PlainReveals(w: Setting, v: Value, original: Record, fields: seq<string>)
    requires v.Dict? && forall f :: f in fields ==> PlainKey(f)
    ensures WithReveals(w, v, original, fields).Dict?
    ensures var r := WithReveals(w, v, original, fields).entries;
      forall k :: Get(r, k) == if k in fields && Revealed(w, original, k) then Get(original, k) else Get(v.entries, k)
    decreases fields
  {
    if fields != [] {
      PlainSegments(fields[0]);
      var f := fields[0];
      PlainReveals(w, RevealOne(w, v, original, f), original, fields[1..]);
    }
  }

  /** A load or a list shows a masked field exactly when it is obfuscated and its condition matches. */
  lemma ViewByKey(w: Setting, record: Record, k: string)
    requires TopLevelMasks(w)
    ensures View(w, record).Dict?
    ensures Get(View(w, record).entries, k) == if ShownByLoad(w, record, k) then Get(record, k) else Null
  {
    var denied, obfuscated := SortedSeq(w.Denied()), SortedSeq(w.Obfuscated());
    if WILDCARD in w.Denied() { WildcardEmpties(Dict(record), denied); } else { PlainDenied(Dict(record), denied); }
    PlainBlanks(WithoutDenied(Dict(record), denied), obfuscated);
    PlainReveals(w, MaskedView(w.policies, w.Where(), Dict(record)), record, obfuscated);
  }

  lemma {:induction false} PlainTwinBlanks(t: Twin, fields: seq<string>)
    requires forall f :: f in fields ==> PlainKey(f)
    ensures TwinBlanks(t, fields).original == t.original
    ensures TwinBlanks(t, fields).copy == map k | k in t.copy :: if k in fields then Null else t.copy[k]
    decreases fields
  {
    if fields != [] {
      PlainSegments(fields[0]);
      PlainTwinBlanks(TwinBlank(t, [fields[0]]), fields[1..]);
    }
  }

  lemma {:induction false} PlainTwinReveals(w: Setting, t: Twin, fields: seq<string>)
    requires forall f :: f in fields ==> PlainKey(f)
    ensures TwinReveals(w, t, fields).original == t.original
    ensures var r := TwinReveals(w, t, fields).copy;
      forall k :: Get(r, k) == if k in fields && Revealed(w, t.original, k) then Get(t.original, k) else Get(t.copy, k)
    decreases fields
  {
    if fields != [] {
      PlainSegments(fields[0]);
      PlainTwinReveals(w, if Revealed(w, t.original, fields[0]) then TwinRestore(t, [fields[0]]) else t, fields[1..]);
    }
  }

  /** A stream shows a masked field exactly when its condition matches, denied fields included. */
  lemma StreamByKey(w: Setting, record: Record, k: string)
    requires TopLevelMasks(w)
    ensures Get(StreamView(w, record).entries, k) == if ShownByStream(w, record, k) then Get(record, k) else Null
  {
    var fields := StreamBaseline(w);
    PlainTwinBlanks(ShallowCopy(record), fields);
    PlainTwinReveals(w, TwinBlanks(ShallowCopy(record), fields), fields);
  }

  /** With top-level masks, stream and load show the same row exactly when the record has nothing in the fields that
      only the stream shows. */
  lemma StreamAgreesWithLoad(w: Setting, record: Record)
    requires TopLevelMasks(w)
    ensures Same(StreamView(w, record), View(w, record)) <==>
      forall k :: ShownByStream(w, record, k) && !ShownByLoad(w, record, k) ==> Get(record, k) == Null
  {
    var s, v := StreamView(w, record), View(w, record);
    ViewByKey(w, record, "");
    SameRecords(s.entries, v.entries);
    forall k
      ensures Same(Get(s.entries, k), Get(v.entries, k)) <==>
        (ShownByStream(w, record, k) && !ShownByLoad(w, record, k) ==> Get(record, k) == Null)
    {
      StreamByKey(w, record, k);
      ViewByKey(w, record, k);
    }
  }

  /** Which fields those are: without a denied `*`, the denied fields a condition matches on; with it, also every
      field no mask names. */
  lemma OnlyStreamed(w: Setting, record: Record, k: string)
    ensures ShownByStream(w, record, k) && !ShownByLoad(w, record, k) <==>
      || (WILDCARD in w.Denied() && k !in w.Masks())
      || (k in w.Denied() - w.Obfuscated() && Revealed(w, record, k))
  {}

  /** With `*` denied, on a model with conditions, a load shows nothing of the record and a stream all of it. */
  lemma StreamShowsDeniedRecord(w: Setting, record: Record)
    requires w.conditions != map[] && WILDCARD !in w.conditions
    requires w.Denied() == {WILDCARD} && w.Obfuscated() == {} && WILDCARD !in record
    ensures StreamView(w, record) == Dict(record) && View(w, record) == Dict(map[])
  {
    WildcardEmpties(Dict(record), SortedSeq(w.Denied()));
    assert SortedSeq({}) == [];
    PlainSegments(WILDCARD);
    NothingStreamedAway(w, ShallowCopy(record), StreamBaseline(w));
  }

  lemma {:induction false} NothingStreamedAway(w: Setting, t: Twin, fields: seq<string>)
    requires forall f :: f in fields ==> f !in w.conditions && Segments(f) == [f] && f !in t.copy
    ensures TwinBlanks(t, fields) == t == TwinReveals(w, t, fields)
    decreases fields
  {
    if fields != [] {
      assert fields[0] in fields;
      NothingStreamedAway(w, t, fields[1..]);
    }
  }
}
