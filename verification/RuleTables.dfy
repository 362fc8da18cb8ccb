/** The rule tables over any sequence of syncs. */
module RuleTables {
  import opened Values
  import opened Text
  import opened RecordRules
  import opened RuleSync

  datatype Scope = Scope(appCode: string, model: string)

  datatype Stored<Row> = Stored(scope: Scope, row: Row)

  /** The rows a table holds for one application and model, in order. */
  function RowsOf<Row>(table: seq<Stored<Row>>, scope: Scope): seq<Row> {
    if table == [] then []
    else (if table[0].scope == scope then [table[0].row] else []) + RowsOf(table[1..], scope)
  }

  /** `delete_many`. */
  function WithoutScope<Row>(table: seq<Stored<Row>>, scope: Scope): seq<Stored<Row>> {
    if table == [] then []
    else (if table[0].scope == scope then [] else [table[0]]) + WithoutScope(table[1..], scope)
  }

  function Tagged<Row>(scope: Scope, rows: seq<Row>): seq<Stored<Row>> {
    if rows == [] then [] else [Stored(scope, rows[0])] + Tagged(scope, rows[1..])
  }

  datatype Sync<Row> = Sync(scope: Scope, build: Build<Row>)

  /** Rows were built, and there are some. */
  predicate Good<Row>(build: Build<Row>) {
    build.Built? && build.rows != []
  }

  /** The table after one sync. */
  function AfterSync<Row>(table: seq<Stored<Row>>, s: Sync<Row>): seq<Stored<Row>> {
    if !Good(s.build) then table
    else WithoutScope(table, s.scope) + Tagged(s.scope, s.build.rows)
  }

  class RuleTable<Row(==)> {
    var rows: seq<Stored<Row>>

    constructor ()
      ensures rows == []
    {
      rows := [];
    }

    /** `_replace_rules`: a malformed property touches nothing, and no rows never replace some. Any exception but the
        refusal of a malformed property goes through to the caller. */
    method ReplaceRules(s: Sync<Row>) returns (raised: bool)
      modifies this
      ensures rows == AfterSync(old(rows), s) && raised == s.build.Raised?
    {
      raised := s.build.Raised?;
      if !s.build.Built? { return; }
      if s.build.rows == [] {
        var existing := |RowsOf(rows, s.scope)|;
        if existing > 0 { return; }
      }
      EmptyScopeIsAbsent(rows, s.scope);
      rows := WithoutScope(rows, s.scope);
      if s.build.rows != [] { rows := rows + Tagged(s.scope, s.build.rows); }
    }
  }

  lemma {:induction false} EmptyScopeIsAbsent<Row>(table: seq<Stored<Row>>, scope: Scope)
    ensures RowsOf(table, scope) == [] ==> WithoutScope(table, scope) == table
  {
    if table != [] { EmptyScopeIsAbsent(table[1..], scope); }
  }

  lemma {:induction false} RowsOfConcat<Row>(a: seq<Stored<Row>>, b: seq<Stored<Row>>, scope: Scope)
    ensures RowsOf(a + b, scope) == RowsOf(a, scope) + RowsOf(b, scope)
  {
    if a == [] {
      assert a + b == b;
    } else {
      assert (a + b)[1..] == a[1..] + b;
      RowsOfConcat(a[1..], b, scope);
    }
  }

  lemma {:induction false} RowsAfterDelete<Row>(table: seq<Stored<Row>>, gone: Scope, scope: Scope)
    ensures RowsOf(WithoutScope(table, gone), scope) == if scope == gone then [] else RowsOf(table, scope)
  {
    if table != [] {
      RowsAfterDelete(table[1..], gone, scope);
      var head := if table[0].scope == gone then [] else [table[0]];
      RowsOfConcat(head, WithoutScope(table[1..], gone), scope);
      if head != [] { assert head[1..] == []; }
    }
  }

  lemma {:induction false} RowsOfTagged<Row>(rows: seq<Row>, tag: Scope, scope: Scope)
    ensures RowsOf(Tagged(tag, rows), scope) == if scope == tag then rows else []
  {
    if rows != [] {
      RowsOfTagged(rows[1..], tag, scope);
      assert rows == [rows[0]] + rows[1..];
    }
  }

  /** One sync changes its own scope only, and only when it brings rows. */
  lemma SyncByScope<Row>(table: seq<Stored<Row>>, s: Sync<Row>, scope: Scope)
    ensures RowsOf(AfterSync(table, s), scope)
         == if s.scope == scope && Good(s.build) then s.build.rows else RowsOf(table, scope)
  {
    if Good(s.build) {
      RowsOfConcat(WithoutScope(table, s.scope), Tagged(s.scope, s.build.rows), scope);
      RowsAfterDelete(table, s.scope, scope);
      RowsOfTagged(s.build.rows, s.scope, scope);
    }
  }

  function Run<Row>(table: seq<Stored<Row>>, syncs: seq<Sync<Row>>): seq<Stored<Row>> {
    if syncs == [] then table else AfterSync(Run(table, syncs[..|syncs| - 1]), syncs[|syncs| - 1])
  }

  /** The rows of the last sync of the scope that was well formed and not empty; what was there before if none was. */
  function LastGood<Row>(before: seq<Row>, scope: Scope, syncs: seq<Sync<Row>>): seq<Row> {
    if syncs == [] then before
    else
      var s := syncs[|syncs| - 1];
      if s.scope == scope && Good(s.build) then s.build.rows
      else LastGood(before, scope, syncs[..|syncs| - 1])
  }

  /** After any sequence of syncs of any scopes, every scope holds the rows of its last good sync. */
  lemma {:induction false} ScopeHoldsLastGood<Row>(table: seq<Stored<Row>>, syncs: seq<Sync<Row>>, scope: Scope)
    ensures RowsOf(Run(table, syncs), scope) == LastGood(RowsOf(table, scope), scope, syncs)
  {
    if syncs != [] {
      ScopeHoldsLastGood(table, syncs[..|syncs| - 1], scope);
      SyncByScope(Run(table, syncs[..|syncs| - 1]), syncs[|syncs| - 1], scope);
    }
  }

  /** A populated scope never becomes empty, and syncing twice is syncing once. */
  lemma {:induction false} ScopesStayPopulated<Row>(table: seq<Stored<Row>>, syncs: seq<Sync<Row>>, scope: Scope,
    s: Sync<Row>)
    ensures RowsOf(table, scope) != [] ==> RowsOf(Run(table, syncs), scope) != []
    ensures RowsOf(AfterSync(AfterSync(table, s), s), scope) == RowsOf(AfterSync(table, s), scope)
  {
    SyncByScope(table, s, scope);
    SyncByScope(AfterSync(table, s), s, scope);
    if syncs != [] {
      ScopesStayPopulated(table, syncs[..|syncs| - 1], scope, s);
      SyncByScope(Run(table, syncs[..|syncs| - 1]), syncs[|syncs| - 1], scope);
    }
  }

  // ---- From saved components to grants -----------------------------------------------

  /** A component saved: its application and model, and its properties as they were typed. */
  datatype Save = Save(scope: Scope, properties: Record)

  /** The JSON parser and the text form of values, fixed for a whole run. */
  datatype Reader = Reader(parse: string -> Option<Value>, show: Value -> string)

  function Groups(s: Save, r: Reader): Property {
    ParseProperty(Get(s.properties, "models_groups"), r.parse)
  }

  function Restrictions(s: Save, r: Reader): Property {
    ParseProperty(Get(s.properties, "models_restricted_fields"), r.parse)
  }

  function GroupSync(s: Save, r: Reader): Sync<GroupRow> {
    Sync(s.scope, BuildGroupRows(Groups(s, r), r.show))
  }

  /** The second table is not reached when building the first raised. */
  function RuleSyncOf(s: Save, r: Reader): Sync<RuleRow> {
    Sync(s.scope, if GroupSync(s, r).build.Raised? then Raised else BuildRuleRows(Restrictions(s, r), r.show))
  }

  /** The two tables a component's save rewrites. */
  class RuleStore {
    const groupTable: RuleTable<GroupRow>
    const ruleTable: RuleTable<RuleRow>

    constructor ()
      ensures fresh(groupTable) && fresh(ruleTable) && groupTable.rows == [] && ruleTable.rows == []
    {
      groupTable := new RuleTable();
      ruleTable := new RuleTable();
    }

    /** `sync_model_rules`: whatever goes wrong ends here. */
    method SyncModelRules(s: Save, r: Reader)
      modifies groupTable, ruleTable
      ensures groupTable.rows == AfterSync(old(groupTable.rows), GroupSync(s, r))
      ensures ruleTable.rows == AfterSync(old(ruleTable.rows), RuleSyncOf(s, r))
    {
      var raised := groupTable.ReplaceRules(GroupSync(s, r));
      if raised { return; }
      raised := ruleTable.ReplaceRules(RuleSyncOf(s, r));
    }
  }

  function GroupSyncs(saves: seq<Save>, r: Reader): seq<Sync<GroupRow>> {
    seq(|saves|, i requires 0 <= i < |saves| => GroupSync(saves[i], r))
  }

  function RuleSyncs(saves: seq<Save>, r: Reader): seq<Sync<RuleRow>> {
    seq(|saves|, i requires 0 <= i < |saves| => RuleSyncOf(saves[i], r))
  }

  /** The `i`th sync is the scope's last good one. */
  predicate LastGoodAt<Row>(syncs: seq<Sync<Row>>, scope: Scope, i: nat) {
    && i < |syncs| && syncs[i].scope == scope && Good(syncs[i].build)
    && forall j :: i < j < |syncs| ==> syncs[j].scope != scope || !Good(syncs[j].build)
  }

  lemma {:induction false} LastGoodIs<Row>(before: seq<Row>, scope: Scope, syncs: seq<Sync<Row>>, i: nat)
    requires LastGoodAt(syncs, scope, i)
    ensures LastGood(before, scope, syncs) == syncs[i].build.rows
  {
    if i < |syncs| - 1 { LastGoodIs(before, scope, syncs[..|syncs| - 1], i); }
  }

  function GroupEntries(s: Save, r: Reader): seq<Entry>
    requires GroupSync(s, r).build.Built? && Groups(s, r).Parsed?
  {
    EntriesOf(Iterated(Get(Groups(s, r).fields, "rules")).value, r.show, true).value
  }

  function RecordEntries(s: Save, r: Reader): seq<Entry>
    requires Good(RuleSyncOf(s, r).build)
  {
    EntriesOf(Get(Restrictions(s, r).fields, "record_rules").items, r.show, false).value
  }

  lemma {:induction false} NamedEntries(items: seq<Value>, show: Value -> string)
    requires EntriesOf(items, show, true).Some?
    ensures forall e :: e in EntriesOf(items, show, true).value ==> e.names != {}
  {
    if items != [] {
      var rest := EntriesOf(items[1..], show, true);
      if !items[0].Dict? || GroupNames(items[0].entries, show) == {} {
        NamedEntries(items[1..], show);
      } else {
        NamedEntries(items[1..], show);
        assert EntriesOf(items, show, true).value == [EntryOf(items[0].entries, show).value] + rest.value;
      }
    }
  }

  /** Which properties are good: an object whose entries can all be read, one of them naming a group. */
  lemma GroupsBuildRows(s: Save, r: Reader)
    ensures Good(GroupSync(s, r).build) <==>
      && Groups(s, r).Parsed?
      && var items := Iterated(Get(Groups(s, r).fields, "rules"));
      items.Some? && EntriesOf(items.value, r.show, true).Some? && EntriesOf(items.value, r.show, true).value != []
  {
    if GroupSync(s, r).build.Built? && Groups(s, r).Parsed? {
      var items := Iterated(Get(Groups(s, r).fields, "rules")).value;
      var entries := EntriesOf(items, r.show, true).value;
      NamedEntries(items, r.show);
      if entries != [] {
        var e := entries[0];
        assert e in entries && e.names != {};
        var g :| g in e.names;
        assert g in NamedGroups(entries) && g in SortedSeq(NamedGroups(entries));
      }
    }
  }

  /** For the record rules: a list of them, not empty of objects, all of which can be read. */
  lemma RestrictionsBuildRows(s: Save, r: Reader)
    ensures Good(RuleSyncOf(s, r).build) <==>
      && !GroupSync(s, r).build.Raised? && Restrictions(s, r).Parsed?
      && var v := Get(Restrictions(s, r).fields, "record_rules");
      v.List? && EntriesOf(v.items, r.show, false).Some? && EntriesOf(v.items, r.show, false).value != []
  {
    var build := BuildRuleRows(Restrictions(s, r), r.show);
    if Restrictions(s, r).Parsed? && build.Built? {
      var v := Get(Restrictions(s, r).fields, "record_rules");
      if v.List? && EntriesOf(v.items, r.show, false).value != [] {
        var entries := EntriesOf(v.items, r.show, false).value;
        var e := entries[0];
        if e.names != {} {
          var g :| g in e.names;
          assert g in SortedSeq(e.names);
        }
        assert EntryRows(e) != [];
      }
    }
  }

  /** After any saves of any components, whatever was typed into them, a scope grants what the nested entries of its
      last well-formed property that builds a row grant. */
  lemma SavedGroupsDecide(table: seq<Stored<GroupRow>>, saves: seq<Save>, r: Reader, scope: Scope, i: nat,
    groups: set<string>, isAdmin: bool)
    requires LastGoodAt(GroupSyncs(saves, r), scope, i)
    ensures ModelGrants(RowsOf(Run(table, GroupSyncs(saves, r)), scope), groups, isAdmin)
         == NestedModelGrants(GroupEntries(saves[i], r), groups, isAdmin)
  {
    var syncs := GroupSyncs(saves, r);
    ScopeHoldsLastGood(table, syncs, scope);
    LastGoodIs(RowsOf(table, scope), scope, syncs, i);
    SyncKeepsMeaning(Groups(saves[i], r), groups, isAdmin, map[], v => v, false, r.show);
  }

  lemma SavedRulesDecide(table: seq<Stored<RuleRow>>, saves: seq<Save>, r: Reader, scope: Scope, i: nat,
    groups: set<string>, record: Record, resolve: Value -> Value, bypass: bool)
    requires LastGoodAt(RuleSyncs(saves, r), scope, i)
    ensures RecordGrants(ScopedRules(RowsOf(Run(table, RuleSyncs(saves, r)), scope), groups), record, resolve, bypass)
         == NestedRecordGrants(RecordEntries(saves[i], r), groups, record, resolve, bypass)
            + Widened(RecordEntries(saves[i], r), groups)
  {
    var syncs := RuleSyncs(saves, r);
    ScopeHoldsLastGood(table, syncs, scope);
    LastGoodIs(RowsOf(table, scope), scope, syncs, i);
    SyncKeepsMeaning(Restrictions(saves[i], r), groups, false, record, resolve, bypass, r.show);
  }

  // ---- What was typed ---------------------------------------------------------------------

  /** The property was typed as this object, or as a text that is its JSON. */
  predicate TypedAs(typed: Value, raw: Record, r: Reader) {
    typed == Dict(raw) || (typed.Str? && Strip(typed.s) != "" && r.parse(Strip(typed.s)) == Some(Dict(raw)))
  }

  /** A list of entries, each counted one readable, and some counted. */
  ghost predicate Usable(list: Value, show: Value -> string, namedOnly: bool) {
    && list.List?
    && (forall x :: x in list.items && Counted(x, show, namedOnly) ==>
          Get(x.entries, "actions").Dict? || !Truthy(Get(x.entries, "actions")))
    && exists x :: x in list.items && Counted(x, show, namedOnly)
  }

  /** What a typed `models_groups` must be to replace rows. */
  lemma TypedGroupsBuild(s: Save, r: Reader, raw: Record)
    requires TypedAs(Get(s.properties, "models_groups"), raw, r)
    ensures Good(GroupSync(s, r).build) <==> Usable(Get(raw, "rules"), r.show, true)
  {
    GroupsBuildRows(s, r);
    var list := Get(raw, "rules");
    if list.List? { Readable(list.items, r.show, true); }
  }

  /** When reading it raises, and so keeps the other table from being written: `rules` is a truth value or a number that
      is not zero, neither of which can be iterated, or an object of the list that names a group has `actions` that are
      no object. */
  lemma TypedGroupsRaise(s: Save, r: Reader, raw: Record)
    requires TypedAs(Get(s.properties, "models_groups"), raw, r)
    ensures GroupSync(s, r).build.Raised? <==>
      var list := Get(raw, "rules");
      if list.List? then
        exists x :: x in list.items && Counted(x, r.show, true)
          && Truthy(Get(x.entries, "actions")) && !Get(x.entries, "actions").Dict?
      else list == Bool(true) || (list.Int? && list.n != 0)
  {
    var list := Get(raw, "rules");
    if list.List? { Readable(list.items, r.show, true); }
  }

  /** And a typed `models_restricted_fields`, the groups having raised nothing. */
  lemma TypedRulesBuild(s: Save, r: Reader, raw: Record)
    requires TypedAs(Get(s.properties, "models_restricted_fields"), raw, r) && !GroupSync(s, r).build.Raised?
    ensures Good(RuleSyncOf(s, r).build) <==> Usable(Get(raw, "record_rules"), r.show, false)
  {
    RestrictionsBuildRows(s, r);
    var list := Get(raw, "record_rules");
    if list.List? { Readable(list.items, r.show, false); }
  }

  /** Whatever was saved before and after: a scope lets an actor do exactly what the literal key of some entry says that
      names one of the actor's groups, in the `models_groups` of its last save that had a usable one. */
  lemma SavedGroupsSay(table: seq<Stored<GroupRow>>, saves: seq<Save>, r: Reader, scope: Scope, i: nat, raw: Record,
    groups: set<string>, a: Action, key: string)
    requires LastGoodAt(GroupSyncs(saves, r), scope, i) && KeyOf(a, key)
    requires TypedAs(Get(saves[i].properties, "models_groups"), raw, r)
    ensures a in ModelGrants(RowsOf(Run(table, GroupSyncs(saves, r)), scope), groups, false) <==>
      Get(raw, "rules").List? && exists x :: x in Get(raw, "rules").items && Permits(x, r.show, groups, key)
  {
    var syncs := GroupSyncs(saves, r);
    ScopeHoldsLastGood(table, syncs, scope);
    LastGoodIs(RowsOf(table, scope), scope, syncs, i);
    GroupRowsSay(raw, r.show, groups, a, key);
  }

  /** The same for record rules: with no entry that speaks to the actor every action but export is open, else what the
      entries say that do and that select the record. */
  lemma SavedRulesSay(table: seq<Stored<RuleRow>>, saves: seq<Save>, r: Reader, scope: Scope, i: nat, raw: Record,
    groups: set<string>, record: Record, resolve: Value -> Value, a: Action, key: string)
    requires LastGoodAt(RuleSyncs(saves, r), scope, i) && KeyOf(a, key)
    requires TypedAs(Get(saves[i].properties, "models_restricted_fields"), raw, r)
    ensures Get(raw, "record_rules").List?
    ensures var items, rows := Get(raw, "record_rules").items, RowsOf(Run(table, RuleSyncs(saves, r)), scope);
      a in RecordGrants(ScopedRules(rows, groups), record, resolve, false) <==>
        && key != "export"
        && ((forall x :: x in items ==> !SpeaksTo(x, r.show, groups))
            || exists x :: x in items && PermitsOn(x, r.show, groups, record, resolve, key))
  {
    var syncs := RuleSyncs(saves, r);
    ScopeHoldsLastGood(table, syncs, scope);
    LastGoodIs(RowsOf(table, scope), scope, syncs, i);
    RuleRowsSay(raw, r.show, groups, record, resolve, a, key);
  }

  /** A scope no save had good rows for keeps what it had. */
  lemma {:induction false} UnsavedScopeKeeps<Row>(table: seq<Stored<Row>>, syncs: seq<Sync<Row>>, scope: Scope)
    requires forall i :: 0 <= i < |syncs| ==> syncs[i].scope != scope || !Good(syncs[i].build)
    ensures RowsOf(Run(table, syncs), scope) == RowsOf(table, scope)
  {
    if syncs != [] {
      UnsavedScopeKeeps(table, syncs[..|syncs| - 1], scope);
      SyncByScope(Run(table, syncs[..|syncs| - 1]), syncs[|syncs| - 1], scope);
    }
  }
}
