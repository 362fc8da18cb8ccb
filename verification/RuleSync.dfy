/** Flattening a component's nested access properties into rule rows. */
module RuleSync {
  import opened Values
  import opened Text
  import opened Filters
  import opened RecordRules

  // ---- Reading the nested properties --------------------------------------------

  datatype Property = Absent | Parsed(fields: Record) | Malformed

  /** `_parse_dict_property`; `parse` is the JSON parser, None where it raises. */
  function ParseProperty(raw: Value, parse: string -> Option<Value>): Property {
    match raw
    case Null => Absent
    case Dict(m) => Parsed(m)
    case Str(s) =>
      if Strip(s) == "" then Absent
      else if parse(Strip(s)).Some? && parse(Strip(s)).value.Dict? then Parsed(parse(Strip(s)).value.entries)
      else Malformed
    case _ => Malformed
  }

  const ACTION_KEY: map<Action, string> :=
    map[Read := "read", Create := "create", Update := "update", Delete := "delete", Export := "export"]

  /** `entry.get("actions") or {}` as the actions switched on; None for a value that has no `get`. */
  function ActionsOf(entry: Record): Option<set<Action>> {
    var v := Get(entry, "actions");
    if !Truthy(v) then Some({})
    else if v.Dict? then Some(set a | a in MODEL_ACTIONS && Truthy(Get(v.entries, ACTION_KEY[a])))
    else None
  }

  /** `_normalize_group`. */
  function NameOf(v: Value, show: Value -> string): string {
    Normalized(if !Truthy(v) then "" else if v.Str? then v.s else show(v))
  }

  /** The normalized, non-empty group names of an entry. */
  function GroupNames(entry: Record, show: Value -> string): set<string> {
    var v := Get(entry, "groups");
    var items := if !Truthy(v) then [] else if v.List? then v.items else [v];
    set g | g in items && NameOf(g, show) != "" :: NameOf(g, show)
  }

  /** `entry.get("filters") or {}`. */
  function FilterOf(entry: Record): Value {
    var v := Get(entry, "filters");
    if Truthy(v) then v else Dict(map[])
  }

  /** One entry of the nested configuration. */
  datatype Entry = Entry(names: set<string>, filters: Value, grants: set<Action>)

  function EntryOf(entry: Record, show: Value -> string): Option<Entry> {
    var actions := ActionsOf(entry);
    if actions.None? then None else Some(Entry(GroupNames(entry, show), FilterOf(entry), actions.value))
  }

  /** The entries of a list, items that are no objects left out; None when one of them cannot be read. The group
      loop never looks at the actions of an entry that names nobody. */
  function EntriesOf(items: seq<Value>, show: Value -> string, namedOnly: bool): Option<seq<Entry>> {
    if items == [] then Some([])
    else
      var rest := EntriesOf(items[1..], show, namedOnly);
      if !items[0].Dict? || (namedOnly && GroupNames(items[0].entries, show) == {}) then rest
      else
        var e := EntryOf(items[0].entries, show);
        if e.None? || rest.None? then None else Some([e.value] + rest.value)
  }

  /** What building a table's rows can come to: the rows, the refusal of a malformed property, or another exception. */
  datatype Build<Row> = Built(rows: seq<Row>) | Refused | Raised

  /** `raw.get("rules") or []`, as far as a loop meets objects in it; None for a value that cannot be iterated. */
  function Iterated(v: Value): Option<seq<Value>> {
    match v
    case List(items) => Some(items)
    case Bool(b) => if b then None else Some([])
    case Int(n) => if n == 0 then Some([]) else None
    case _ => Some([])
  }

  /** From the `models_groups` property to its rows. */
  function BuildGroupRows(property: Property, show: Value -> string): Build<GroupRow> {
    match property
    case Absent => Built([])
    case Malformed => Refused
    case Parsed(raw) =>
      var items := Iterated(Get(raw, "rules"));
      if items.None? || EntriesOf(items.value, show, true).None? then Raised
      else Built(GroupRows(EntriesOf(items.value, show, true).value))
  }

  /** From the `models_restricted_fields` property to its rows. */
  function BuildRuleRows(property: Property, show: Value -> string): Build<RuleRow> {
    match property
    case Absent => Built([])
    case Malformed => Refused
    case Parsed(raw) =>
      var v := Get(raw, "record_rules");
      if !v.List? then Built([])
      else if EntriesOf(v.items, show, false).None? then Raised
      else Built(RuleRows(EntriesOf(v.items, show, false).value))
  }

  /** The rows a property builds mean what the property says, for every actor, record and action: duplicate groups
      merged, one row per group, universal entries, and no applicable entry at all, alike. */
  lemma SyncKeepsMeaning(property: Property, groups: set<string>, isAdmin: bool, record: Record,
    resolve: Value -> Value, bypass: bool, show: Value -> string)
    requires property.Parsed?
    ensures var items := Iterated(Get(property.fields, "rules"));
      BuildGroupRows(property, show).Built? ==>
        ModelGrants(BuildGroupRows(property, show).rows, groups, isAdmin)
        == NestedModelGrants(EntriesOf(items.value, show, true).value, groups, isAdmin)
    ensures var v := Get(property.fields, "record_rules");
      BuildRuleRows(property, show).Built? && v.List? ==>
        RecordGrants(ScopedRules(BuildRuleRows(property, show).rows, groups), record, resolve, bypass)
        == NestedRecordGrants(EntriesOf(v.items, show, false).value, groups, record, resolve, bypass)
           + Widened(EntriesOf(v.items, show, false).value, groups)
  {
    var items := Iterated(Get(property.fields, "rules"));
    if BuildGroupRows(property, show).Built? {
      EntriesWellNamed(items.value, show, true);
      GroupRowsKeepMeaning(EntriesOf(items.value, show, true).value, groups, isAdmin);
    }
    var v := Get(property.fields, "record_rules");
    if BuildRuleRows(property, show).Built? && v.List? {
      EntriesWellNamed(v.items, show, false);
      RuleRowsKeepMeaning(EntriesOf(v.items, show, false).value, groups, record, resolve, bypass);
    }
  }

  /** Group names are normalized and never empty. */
  predicate WellNamed(entries: seq<Entry>) {
    forall e :: e in entries ==> WellNamedEntry(e)
  }

  predicate WellNamedEntry(e: Entry) {
    forall g :: g in e.names ==> g != "" && Normalized(g) == g
  }

  lemma {:induction false} EntriesWellNamed(items: seq<Value>, show: Value -> string, namedOnly: bool)
    ensures EntriesOf(items, show, namedOnly).Some? ==> WellNamed(EntriesOf(items, show, namedOnly).value)
  {
    if items != [] {
      EntriesWellNamed(items[1..], show, namedOnly);
      if items[0].Dict? && !(namedOnly && GroupNames(items[0].entries, show) == {})
         && EntriesOf(items, show, namedOnly).Some? {
        NamesNormalized(items[0].entries, show);
        var first := EntryOf(items[0].entries, show).value;
        assert EntriesOf(items, show, namedOnly).value == [first] + EntriesOf(items[1..], show, namedOnly).value;
        assert first.names == GroupNames(items[0].entries, show);
      }
    }
  }

  lemma NamesNormalized(entry: Record, show: Value -> string)
    ensures forall g :: g in GroupNames(entry, show) ==> g != "" && Normalized(g) == g
  {
    forall g | g in GroupNames(entry, show) ensures g != "" && Normalized(g) == g {
      var v := Get(entry, "groups");
      var items := if !Truthy(v) then [] else if v.List? then v.items else [v];
      var x :| x in items && g == NameOf(x, show);
      NormalizedTwice(if !Truthy(x) then "" else if x.Str? then x.s else show(x));
    }
  }

  // ---- models_groups -> model_groups_rule ---------------------------------------

  /** What the entries give one group. */
  function GivenTo(entries: seq<Entry>, group: string): set<Action> {
    set e, a | e in entries && group in e.names && a in e.grants :: a
  }

  function NamedGroups(entries: seq<Entry>): set<string> {
    set e, g | e in entries && g in e.names :: g
  }

  lemma GivenAppend(entries: seq<Entry>, e: Entry)
    ensures NamedGroups(entries + [e]) == NamedGroups(entries) + e.names
    ensures forall g :: GivenTo(entries + [e], g) == GivenTo(entries, g) + if g in e.names then e.grants else {}
  {}

  /** The merge loop: one bucket per group, the union of what its entries switch on. */
  method MergeGroups(entries: seq<Entry>) returns (merged: map<string, set<Action>>)
    ensures merged == map g | g in NamedGroups(entries) :: GivenTo(entries, g)
  {
    merged := map[];
    for i := 0 to |entries|
      invariant merged.Keys == NamedGroups(entries[..i])
      invariant forall g :: g in merged ==> merged[g] == GivenTo(entries[..i], g)
    {
      assert entries[..i + 1] == entries[..i] + [entries[i]];
      GivenAppend(entries[..i], entries[i]);
      forall g | g !in merged ensures GivenTo(entries[..i], g) == {} {}
      merged := AddToBuckets(merged, entries[i].names, entries[i].grants);
    }
    assert entries[..|entries|] == entries;
  }

  /** The inner loop over one entry's groups. */
  method AddToBuckets(start: map<string, set<Action>>, names: set<string>, actions: set<Action>)
    returns (buckets: map<string, set<Action>>)
    ensures buckets.Keys == start.Keys + names
    ensures forall g :: g in buckets ==>
      buckets[g] == (if g in start then start[g] else {}) + if g in names then actions else {}
  {
    buckets := start;
    var left := names;
    while left != {}
      invariant left <= names && buckets.Keys == start.Keys + (names - left)
      invariant forall g :: g in buckets ==>
        buckets[g] == (if g in start then start[g] else {}) + if g in names - left then actions else {}
    {
      var g :| g in left;
      buckets := buckets[g := (if g in buckets then buckets[g] else {}) + actions];
      left := left - {g};
    }
  }

  /** `model_groups_rows`: sorted, one row per group. */
  function GroupRows(entries: seq<Entry>): seq<GroupRow> {
    var names := SortedSeq(NamedGroups(entries));
    seq(|names|, i requires 0 <= i < |names| => GroupRow(names[i], GivenTo(entries, names[i])))
  }

  method ModelGroupsRows(entries: seq<Entry>) returns (rows: seq<GroupRow>)
    ensures rows == GroupRows(entries)
  {
    var merged := MergeGroups(entries);
    var names := SortedSeq(merged.Keys);
    assert merged.Keys == NamedGroups(entries);
    rows := [];
    for i := 0 to |names|
      invariant rows == GroupRows(entries)[..i]
    {
      rows := rows + [GroupRow(names[i], merged[names[i]])];
    }
  }

  /** Layer 1 read off the nested entries: what every entry naming one of the actor's groups switches on. */
  function NestedModelGrants(entries: seq<Entry>, groups: set<string>, isAdmin: bool): set<Action> {
    if isAdmin then MODEL_ACTIONS
    else set e, a | e in entries && e.names * groups != {} && a in e.grants && a in MODEL_ACTIONS :: a
  }

  /** Merging duplicate groups and flattening change no actor's model grants. */
  lemma GroupRowsKeepMeaning(entries: seq<Entry>, groups: set<string>, isAdmin: bool)
    requires WellNamed(entries)
    ensures ModelGrants(GroupRows(entries), groups, isAdmin) == NestedModelGrants(entries, groups, isAdmin)
  {
    var names := SortedSeq(NamedGroups(entries));
    var rows := GroupRows(entries);
    if !isAdmin {
      forall a | a in ModelGrants(rows, groups, isAdmin) ensures a in NestedModelGrants(entries, groups, isAdmin) {
        var row :| row in rows && RowSpeaksTo(row, groups) && a in row.grants && a in MODEL_ACTIONS;
        var i :| 0 <= i < |rows| && rows[i] == row;
        var e :| e in entries && names[i] in e.names && a in e.grants;
        assert names[i] in e.names * groups;
      }
      forall a | a in NestedModelGrants(entries, groups, isAdmin) ensures a in ModelGrants(rows, groups, isAdmin) {
        var e :| e in entries && e.names * groups != {} && a in e.grants && a in MODEL_ACTIONS;
        var g :| g in e.names * groups;
        assert g in names;
        var i :| 0 <= i < |names| && names[i] == g;
        assert rows[i] in rows && RowSpeaksTo(rows[i], groups) && a in rows[i].grants;
      }
    }
  }

  // ---- record_rules -> model_fields_rule ------------------------------------------

  /** One entry's rows: a universal one, or one per group. */
  function EntryRows(e: Entry): seq<RuleRow> {
    var names := if e.names == {} then [""] else SortedSeq(e.names);
    seq(|names|, i requires 0 <= i < |names| => RuleRow(names[i], e.filters, e.grants))
  }

  function RuleRows(entries: seq<Entry>): seq<RuleRow> {
    if entries == [] then [] else EntryRows(entries[0]) + RuleRows(entries[1..])
  }

  lemma {:induction false} RowsAppend(a: seq<Entry>, e: Entry)
    ensures RuleRows(a + [e]) == RuleRows(a) + EntryRows(e)
  {
    if a != [] {
      assert (a + [e])[1..] == a[1..] + [e];
      RowsAppend(a[1..], e);
    } else {
      assert (a + [e])[1..] == [];
    }
  }

  /** `model_fields_rows`: the loop over the entries, a universal row or a row per group each. */
  method ModelFieldsRows(entries: seq<Entry>) returns (rows: seq<RuleRow>)
    ensures rows == RuleRows(entries)
  {
    rows := [];
    for i := 0 to |entries|
      invariant rows == RuleRows(entries[..i])
    {
      assert entries[..i + 1] == entries[..i] + [entries[i]];
      RowsAppend(entries[..i], entries[i]);
      rows := rows + EntryRows(entries[i]);
    }
    assert entries[..|entries|] == entries;
  }

  /** The entry speaks to the actor: it names no group, or one of the actor's. */
  predicate Applicable(e: Entry, groups: set<string>) {
    e.names == {} || e.names * groups != {}
  }

  /** The entry covers the record; a filter that is no object covers nothing. */
  predicate EntryCovers(e: Entry, record: Record, resolve: Value -> Value) {
    RuleCovers(RuleRow("", e.filters, e.grants), record, resolve)
  }

  /** Layer 2 read off the nested entries. */
  function NestedRecordGrants(entries: seq<Entry>, groups: set<string>, record: Record, resolve: Value -> Value,
    bypass: bool): set<Action>
  {
    if bypass || forall e :: e in entries ==> !Applicable(e, groups) then RECORD_ACTIONS
    else set e, a | e in entries && Applicable(e, groups) && EntryCovers(e, record, resolve)
                    && a in e.grants && a in RECORD_ACTIONS :: a
  }

  lemma {:induction false} RowOrigin(entries: seq<Entry>, row: RuleRow)
    ensures row in RuleRows(entries) <==> exists e :: e in entries && row in EntryRows(e)
  {
    if entries != [] {
      assert entries == [entries[0]] + entries[1..];
      RowOrigin(entries[1..], row);
    }
  }

  predicate InScope(row: RuleRow, groups: set<string>) {
    Normalized(row.group) == "" || Normalized(row.group) in groups
  }

  /** An entry has a row in scope exactly when it speaks to the actor; its rows carry its filter and grants. */
  lemma EntryScoped(e: Entry, groups: set<string>)
    requires WellNamed([e])
    ensures (exists row :: row in EntryRows(e) && InScope(row, groups)) <==> Applicable(e, groups)
    ensures forall row :: row in EntryRows(e) ==> row.filters == e.filters && row.grants == e.grants
  {
    var rows := EntryRows(e);
    assert e in [e] && Normalized("") == "";
    if e.names == {} {
      assert rows[0] in rows && rows[0].group == "";
    } else {
      var names := SortedSeq(e.names);
      if Applicable(e, groups) {
        var g :| g in e.names * groups;
        assert g in names;
        var i :| 0 <= i < |names| && names[i] == g;
        assert rows[i] in rows && rows[i].group == g;
      }
      forall row | row in rows && InScope(row, groups) ensures row.group in e.names * groups {
        var i :| 0 <= i < |rows| && rows[i] == row;
        assert row.group == names[i] && names[i] in names;
      }
    }
  }

  /** A scoped rule made from an entry. */
  predicate MadeFrom(rule: RuleRow, e: Entry) {
    rule.filters == SafeFilter(e.filters) && rule.grants == e.grants
  }

  /** Every scoped rule comes from an applicable entry. */
  lemma RuleEntry(entries: seq<Entry>, groups: set<string>, rule: RuleRow) returns (e: Entry)
    requires WellNamed(entries) && rule in ScopedRules(RuleRows(entries), groups)
    ensures e in entries && Applicable(e, groups) && MadeFrom(rule, e)
  {
    var row :| row in RuleRows(entries) && (Normalized(row.group) == "" || Normalized(row.group) in groups)
      && rule == RuleRow(Normalized(row.group), SafeFilter(row.filters), row.grants);
    RowOrigin(entries, row);
    e :| e in entries && row in EntryRows(e);
    EntryScoped(e, groups);
    assert InScope(row, groups);
  }

  /** Every applicable entry gives a scoped rule. */
  lemma EntryRule(entries: seq<Entry>, groups: set<string>, e: Entry) returns (rule: RuleRow)
    requires WellNamed(entries) && e in entries && Applicable(e, groups)
    ensures rule in ScopedRules(RuleRows(entries), groups) && MadeFrom(rule, e)
  {
    EntryScoped(e, groups);
    var row :| row in EntryRows(e) && InScope(row, groups);
    RowOrigin(entries, row);
    rule := RuleRow(Normalized(row.group), SafeFilter(row.filters), row.grants);
  }

  /** An object filter survives the flattening; any other is read back as the empty one, which covers every record. */
  lemma MadeFromCovers(rule: RuleRow, e: Entry, record: Record, resolve: Value -> Value)
    requires MadeFrom(rule, e)
    ensures RuleCovers(rule, record, resolve) <==> !e.filters.Dict? || EntryCovers(e, record, resolve)
  {}

  /** What the applicable entries whose filter is no object switch on: the flat rows grant it on every record. */
  function Widened(entries: seq<Entry>, groups: set<string>): set<Action> {
    set e, a | e in entries && Applicable(e, groups) && !e.filters.Dict? && a in e.grants && a in RECORD_ACTIONS :: a
  }

  /** What the scoped rows grant an actor some entry speaks to. */
  lemma FlattenedGrants(entries: seq<Entry>, groups: set<string>, record: Record, resolve: Value -> Value, some: Entry)
    requires WellNamed(entries) && some in entries && Applicable(some, groups)
    ensures CoveringGrants(ScopedRules(RuleRows(entries), groups), record, resolve)
         == NestedRecordGrants(entries, groups, record, resolve, false) + Widened(entries, groups)
  {
    var rules := ScopedRules(RuleRows(entries), groups);
    var nested := NestedRecordGrants(entries, groups, record, resolve, false);
    forall a | a in CoveringGrants(rules, record, resolve) ensures a in nested + Widened(entries, groups) {
      var rule :| rule in rules && RuleCovers(rule, record, resolve) && a in rule.grants && a in RECORD_ACTIONS;
      var e := RuleEntry(entries, groups, rule);
      MadeFromCovers(rule, e, record, resolve);
    }
    forall a | a in nested + Widened(entries, groups) ensures a in CoveringGrants(rules, record, resolve) {
      var e :| e in entries && Applicable(e, groups) && a in e.grants && a in RECORD_ACTIONS
        && (!e.filters.Dict? || EntryCovers(e, record, resolve));
      var rule := EntryRule(entries, groups, e);
      MadeFromCovers(rule, e, record, resolve);
    }
  }

  /** Flattening to rows, then scoping them to the actor's groups, changes no actor's grants on a record, except that
      applicable entries whose filter is no object grant on every record. It keeps the meaning exactly when that is
      nothing more than what the entries grant anyway. */
  lemma RuleRowsKeepMeaning(entries: seq<Entry>, groups: set<string>, record: Record, resolve: Value -> Value,
    bypass: bool)
    requires WellNamed(entries)
    ensures RecordGrants(ScopedRules(RuleRows(entries), groups), record, resolve, bypass)
         == NestedRecordGrants(entries, groups, record, resolve, bypass) + Widened(entries, groups)
    ensures RecordGrants(ScopedRules(RuleRows(entries), groups), record, resolve, bypass)
         == NestedRecordGrants(entries, groups, record, resolve, bypass)
       <==> bypass || (forall e :: e in entries ==> !Applicable(e, groups))
            || Widened(entries, groups) <= NestedRecordGrants(entries, groups, record, resolve, false)
    ensures ObjectFilters(entries) ==> Widened(entries, groups) == {}
  {
    NoneScoped(entries, groups);
    NothingWidened(entries, groups);
    if e :| e in entries && Applicable(e, groups) {
      FlattenedGrants(entries, groups, record, resolve, e);
    }
  }

  /** No row is scoped to the actor exactly when no entry applies. */
  lemma NoneScoped(entries: seq<Entry>, groups: set<string>)
    requires WellNamed(entries)
    ensures ScopedRules(RuleRows(entries), groups) == [] <==> forall e :: e in entries ==> !Applicable(e, groups)
  {
    var rules := ScopedRules(RuleRows(entries), groups);
    if e :| e in entries && Applicable(e, groups) {
      var rule := EntryRule(entries, groups, e);
    } else if rules != [] {
      var e := RuleEntry(entries, groups, rules[0]);
    }
  }

  lemma NothingWidened(entries: seq<Entry>, groups: set<string>)
    ensures (forall e :: e in entries ==> !Applicable(e, groups)) || ObjectFilters(entries) ==>
      Widened(entries, groups) == {}
  {}

  predicate ObjectFilters(entries: seq<Entry>) {
    forall e :: e in entries ==> e.filters.Dict?
  }

  /** One entry whose filter is a text: read from the configuration it covers nothing, from its row everything. */
  lemma TextFilterWidens()
    ensures var entries := [Entry({}, Str("mine"), {Update})];
      && NestedRecordGrants(entries, {}, map[], v => v, false) == {}
      && RecordGrants(ScopedRules(RuleRows(entries), {}), map[], v => v, false) == {Update}
  {
    OneTextWidens(Entry({}, Str("mine"), {Update}));
  }

  lemma OneTextWidens(e: Entry)
    requires e.names == {} && e.filters.Str? && e.filters.s != "" && e.grants <= RECORD_ACTIONS
    ensures NestedRecordGrants([e], {}, map[], v => v, false) == {}
    ensures RecordGrants(ScopedRules(RuleRows([e]), {}), map[], v => v, false) == e.grants
  {
    assert e in [e] && Applicable(e, {}) && WellNamed([e]);
    RuleRowsKeepMeaning([e], {}, map[], v => v, false);
    OneWidened(e);
    assert !EntryCovers(e, map[], v => v);
  }

  lemma OneWidened(e: Entry)
    requires e.names == {} && !e.filters.Dict? && e.grants <= RECORD_ACTIONS
    ensures Widened([e], {}) == e.grants
  {
    assert e in [e] && Applicable(e, {});
  }

  // ---- What a configuration says, key by key -------------------------------------------

  /** A group name of the entry: one of its `groups`, or its only one, stripped and in lower case. */
  predicate NamesGroup(entry: Record, show: Value -> string, group: string) {
    var v := Get(entry, "groups");
    group != "" && Truthy(v) &&
    if v.List? then exists x :: x in v.items && Lower(Strip(Written(x, show))) == group
    else Lower(Strip(Written(v, show))) == group
  }

  /** `str(value or "")`. */
  function Written(v: Value, show: Value -> string): string {
    if !Truthy(v) then "" else if v.Str? then v.s else show(v)
  }

  /** The entry's `actions` switch the key on. */
  predicate SwitchesOn(entry: Record, key: string) {
    var v := Get(entry, "actions");
    v.Dict? && Truthy(Get(v.entries, key))
  }

  lemma NamesAre(entry: Record, show: Value -> string)
    ensures forall g :: g in GroupNames(entry, show) <==> NamesGroup(entry, show, g)
  {
    var v := Get(entry, "groups");
    var items := if !Truthy(v) then [] else if v.List? then v.items else [v];
    forall g ensures g in GroupNames(entry, show) <==> NamesGroup(entry, show, g) {
      if NamesGroup(entry, show, g) {
        if v.List? {
          var x :| x in v.items && Lower(Strip(Written(x, show))) == g;
          assert x in items && NameOf(x, show) == g;
        } else {
          assert v in items && NameOf(v, show) == g;
        }
      }
    }
  }

  /** The five actions and their keys. */
  predicate KeyOf(a: Action, key: string) {
    || (a == Read && key == "read") || (a == Create && key == "create") || (a == Update && key == "update")
    || (a == Delete && key == "delete") || (a == Export && key == "export")
  }

  lemma GrantsAre(entry: Record, show: Value -> string, a: Action, key: string)
    requires EntryOf(entry, show).Some? && KeyOf(a, key)
    ensures a in EntryOf(entry, show).value.grants <==> SwitchesOn(entry, key)
  {}

  /** The entries read off a list are those of its objects, in the group loop only of those that name somebody. */
  lemma {:induction false} EntriesAre(items: seq<Value>, show: Value -> string, namedOnly: bool)
    requires EntriesOf(items, show, namedOnly).Some?
    ensures forall e :: e in EntriesOf(items, show, namedOnly).value <==>
      exists x :: x in items && x.Dict? && (namedOnly ==> GroupNames(x.entries, show) != {})
        && EntryOf(x.entries, show) == Some(e)
    ensures forall x :: x in items && x.Dict? && (namedOnly ==> GroupNames(x.entries, show) != {}) ==>
      EntryOf(x.entries, show).Some?
  {
    if items != [] {
      var x, entries := items[0], EntriesOf(items, show, namedOnly).value;
      assert items == [x] + items[1..];
      EntriesAre(items[1..], show, namedOnly);
      if x.Dict? && (namedOnly ==> GroupNames(x.entries, show) != {}) {
        assert entries == [EntryOf(x.entries, show).value] + EntriesOf(items[1..], show, namedOnly).value;
      }
    }
  }

  predicate NamesOneOf(entry: Record, show: Value -> string, groups: set<string>) {
    exists g :: g in groups && NamesGroup(entry, show, g)
  }

  lemma EntrySays(entry: Record, show: Value -> string, groups: set<string>, a: Action, key: string)
    requires EntryOf(entry, show).Some? && KeyOf(a, key)
    ensures var e := EntryOf(entry, show).value;
      && (a in e.grants <==> SwitchesOn(entry, key))
      && (e.names * groups != {} <==> NamesOneOf(entry, show, groups))
      && (e.names == {} <==> forall g :: !NamesGroup(entry, show, g))
  {
    NamesAre(entry, show);
    GrantsAre(entry, show, a, key);
    var names := GroupNames(entry, show);
    if names * groups != {} {
      var g :| g in names * groups;
      assert NamesGroup(entry, show, g);
    }
    if NamesOneOf(entry, show, groups) {
      var g :| g in groups && NamesGroup(entry, show, g);
      assert g in names * groups;
    }
  }

  /** An object of the list that names one of the groups and switches the key on. */
  predicate Permits(x: Value, show: Value -> string, groups: set<string>, key: string) {
    x.Dict? && SwitchesOn(x.entries, key) && NamesOneOf(x.entries, show, groups)
  }

  lemma NestedSays(items: seq<Value>, show: Value -> string, groups: set<string>, a: Action, key: string)
    requires EntriesOf(items, show, true).Some? && KeyOf(a, key)
    ensures a in NestedModelGrants(EntriesOf(items, show, true).value, groups, false)
       <==> exists x :: x in items && Permits(x, show, groups, key)
  {
    var entries := EntriesOf(items, show, true).value;
    EntriesAre(items, show, true);
    if a in NestedModelGrants(entries, groups, false) {
      var e :| e in entries && e.names * groups != {} && a in e.grants;
      var x :| x in items && x.Dict? && EntryOf(x.entries, show) == Some(e);
      EntrySays(x.entries, show, groups, a, key);
      assert Permits(x, show, groups, key);
    }
    if x :| x in items && Permits(x, show, groups, key) { PermitGrants(items, show, groups, a, key, x); }
  }

  lemma PermitGrants(items: seq<Value>, show: Value -> string, groups: set<string>, a: Action, key: string, x: Value)
    requires EntriesOf(items, show, true).Some? && KeyOf(a, key) && x in items && Permits(x, show, groups, key)
    ensures a in NestedModelGrants(EntriesOf(items, show, true).value, groups, false)
  {
    NamesAre(x.entries, show);
    EntriesAre(items, show, true);
    EntrySays(x.entries, show, groups, a, key);
    var e := EntryOf(x.entries, show).value;
    assert e in EntriesOf(items, show, true).value && e.names * groups != {} && a in e.grants && a in MODEL_ACTIONS;
  }

  /** The rows built from `models_groups` let an actor do exactly what the literal key of some entry under `rules` that
      names one of the actor's groups says. */
  lemma GroupRowsSay(raw: Record, show: Value -> string, groups: set<string>, a: Action, key: string)
    requires BuildGroupRows(Parsed(raw), show).Built? && KeyOf(a, key)
    ensures a in ModelGrants(BuildGroupRows(Parsed(raw), show).rows, groups, false) <==>
      Get(raw, "rules").List? && exists x :: x in Get(raw, "rules").items && Permits(x, show, groups, key)
  {
    var items := Iterated(Get(raw, "rules")).value;
    EntriesWellNamed(items, show, true);
    GroupRowsKeepMeaning(EntriesOf(items, show, true).value, groups, false);
    NestedSays(items, show, groups, a, key);
  }

  // ---- Record rules --------------------------------------------------------------------

  /** The entry under `record_rules` speaks to the actor: it names no group, or one of the actor's. */
  ghost predicate SpeaksTo(x: Value, show: Value -> string, groups: set<string>) {
    x.Dict? && ((forall g :: !NamesGroup(x.entries, show, g)) || NamesOneOf(x.entries, show, groups))
  }

  /** Its row selects the record: no `filters`, filters that are no object, or filters whose resolution is an object
      that selects it. */
  predicate Selects(x: Value, record: Record, resolve: Value -> Value) {
    x.Dict? &&
    var f := Get(x.entries, "filters");
    !Truthy(f) || !f.Dict? || (resolve(f).Dict? && DomainSelects(record, resolve(f).entries))
  }

  lemma EntrySelects(entry: Record, show: Value -> string, record: Record, resolve: Value -> Value)
    requires EntryOf(entry, show).Some?
    ensures var e := EntryOf(entry, show).value;
      Selects(Dict(entry), record, resolve) <==> !e.filters.Dict? || EntryCovers(e, record, resolve)
  {}

  /** An object of the list that speaks to the actor, selects the record and switches the key on. */
  ghost predicate PermitsOn(x: Value, show: Value -> string, groups: set<string>, record: Record,
    resolve: Value -> Value, key: string)
  {
    SpeaksTo(x, show, groups) && Selects(x, record, resolve) && SwitchesOn(x.entries, key)
  }

  lemma EntryPermits(entry: Record, show: Value -> string, groups: set<string>, record: Record,
    resolve: Value -> Value, a: Action, key: string)
    requires EntryOf(entry, show).Some? && KeyOf(a, key)
    ensures var e := EntryOf(entry, show).value;
      && (Applicable(e, groups) <==> SpeaksTo(Dict(entry), show, groups))
      && (PermitsOn(Dict(entry), show, groups, record, resolve, key) <==>
            Applicable(e, groups) && (!e.filters.Dict? || EntryCovers(e, record, resolve)) && a in e.grants)
  {
    EntrySays(entry, show, groups, a, key);
    EntrySelects(entry, show, record, resolve);
  }

  lemma SpokenTo(items: seq<Value>, show: Value -> string, groups: set<string>)
    requires EntriesOf(items, show, false).Some?
    ensures (forall e :: e in EntriesOf(items, show, false).value ==> !Applicable(e, groups))
       <==> forall x :: x in items ==> !SpeaksTo(x, show, groups)
  {
    var entries := EntriesOf(items, show, false).value;
    EntriesAre(items, show, false);
    forall x | x in items && x.Dict?
      ensures Applicable(EntryOf(x.entries, show).value, groups) <==> SpeaksTo(x, show, groups)
    {
      EntryPermits(x.entries, show, groups, map[], v => v, Read, "read");
    }
    if x :| x in items && SpeaksTo(x, show, groups) { assert EntryOf(x.entries, show).value in entries; }
  }

  lemma FlatSays(items: seq<Value>, show: Value -> string, groups: set<string>, record: Record,
    resolve: Value -> Value, a: Action, key: string)
    requires EntriesOf(items, show, false).Some? && KeyOf(a, key) && a != Export
    requires exists e :: e in EntriesOf(items, show, false).value && Applicable(e, groups)
    ensures var entries := EntriesOf(items, show, false).value;
      a in NestedRecordGrants(entries, groups, record, resolve, false) + Widened(entries, groups) <==>
        exists x :: x in items && PermitsOn(x, show, groups, record, resolve, key)
  {
    var entries := EntriesOf(items, show, false).value;
    EntriesAre(items, show, false);
    forall x | x in items && x.Dict?
      ensures var e := EntryOf(x.entries, show).value;
        PermitsOn(x, show, groups, record, resolve, key) <==>
          Applicable(e, groups) && (!e.filters.Dict? || EntryCovers(e, record, resolve)) && a in e.grants
    {
      EntryPermits(x.entries, show, groups, record, resolve, a, key);
    }
    if x :| x in items && PermitsOn(x, show, groups, record, resolve, key) {
      assert EntryOf(x.entries, show).value in entries;
    }
  }

  /** The rows built from `record_rules`, scoped to the actor: with no entry that speaks to the actor every action is
      open, else what the literal key of some entry that does and that selects the record says; export is no action on
      records. */
  lemma RuleRowsSay(raw: Record, show: Value -> string, groups: set<string>, record: Record, resolve: Value -> Value,
    a: Action, key: string)
    requires BuildRuleRows(Parsed(raw), show).Built? && Get(raw, "record_rules").List? && KeyOf(a, key)
    ensures var items := Get(raw, "record_rules").items;
      a in RecordGrants(ScopedRules(BuildRuleRows(Parsed(raw), show).rows, groups), record, resolve, false) <==>
        && key != "export"
        && ((forall x :: x in items ==> !SpeaksTo(x, show, groups))
            || exists x :: x in items && PermitsOn(x, show, groups, record, resolve, key))
  {
    var items := Get(raw, "record_rules").items;
    EntriesWellNamed(items, show, false);
    RuleRowsKeepMeaning(EntriesOf(items, show, false).value, groups, record, resolve, false);
    EntriesSay(items, show, groups, record, resolve, a, key);
  }

  lemma EntriesSay(items: seq<Value>, show: Value -> string, groups: set<string>, record: Record,
    resolve: Value -> Value, a: Action, key: string)
    requires EntriesOf(items, show, false).Some? && KeyOf(a, key)
    ensures var entries := EntriesOf(items, show, false).value;
      a in NestedRecordGrants(entries, groups, record, resolve, false) + Widened(entries, groups) <==>
        && key != "export"
        && ((forall x :: x in items ==> !SpeaksTo(x, show, groups))
            || exists x :: x in items && PermitsOn(x, show, groups, record, resolve, key))
  {
    var entries := EntriesOf(items, show, false).value;
    SpokenTo(items, show, groups);
    if key == "export" {
      NoExport(entries, groups, record, resolve);
    } else if forall x :: x in items ==> !SpeaksTo(x, show, groups) {
      assert NestedRecordGrants(entries, groups, record, resolve, false) == RECORD_ACTIONS;
    } else {
      FlatSays(items, show, groups, record, resolve, a, key);
    }
  }

  lemma NoExport(entries: seq<Entry>, groups: set<string>, record: Record, resolve: Value -> Value)
    ensures Export !in NestedRecordGrants(entries, groups, record, resolve, false) + Widened(entries, groups)
  {}

  /** The objects of a list a loop takes for entries: all, or those that name a group. */
  ghost predicate Counted(x: Value, show: Value -> string, namedOnly: bool) {
    x.Dict? && (namedOnly ==> exists g :: NamesGroup(x.entries, show, g))
  }

  /** A list can be read when every object in it, or every one that names a group, has an object for `actions`, or
      nothing. */
  lemma {:induction false} Readable(items: seq<Value>, show: Value -> string, namedOnly: bool)
    ensures EntriesOf(items, show, namedOnly).Some? <==>
      forall x :: x in items && Counted(x, show, namedOnly) ==>
        Get(x.entries, "actions").Dict? || !Truthy(Get(x.entries, "actions"))
    ensures EntriesOf(items, show, namedOnly).Some? ==>
      (EntriesOf(items, show, namedOnly).value != [] <==> exists x :: x in items && Counted(x, show, namedOnly))
  {
    if items != [] {
      var x := items[0];
      assert items == [x] + items[1..];
      Readable(items[1..], show, namedOnly);
      if x.Dict? { NamesSome(x.entries, show); }
    }
  }

  lemma NamesSome(entry: Record, show: Value -> string)
    ensures GroupNames(entry, show) != {} <==> exists g :: NamesGroup(entry, show, g)
  {
    NamesAre(entry, show);
    if GroupNames(entry, show) != {} {
      var g :| g in GroupNames(entry, show);
      assert NamesGroup(entry, show, g);
    }
  }
}
