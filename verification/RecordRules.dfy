/** Layer 1 (what a group may do with a model) and Layer 2 (what an actor may do with one record). */
module RecordRules {
  import opened Values
  import opened Text
  import opened Filters

  datatype Action = Read | Create | Update | Delete | Export

  const MODEL_ACTIONS: set<Action> := {Read, Create, Update, Delete, Export}
  const RECORD_ACTIONS: set<Action> := {Read, Create, Update, Delete}

  /** A `model_groups_rule` row of one application and model. */
  datatype GroupRow = GroupRow(group: string, grants: set<Action>)

  /** A `model_fields_rule` row; an empty group speaks to everyone. */
  datatype RuleRow = RuleRow(group: string, filters: Value, grants: set<Action>)

  function Normalized(group: string): string {
    Lower(Strip(group))
  }

  // ---- Layer 1 -------------------------------------------------------------

  predicate RowSpeaksTo(row: GroupRow, groups: set<string>) {
    Normalized(row.group) != "" && Normalized(row.group) in groups
  }

  /** What the model grants: everything to an admin, else the union of the actor's rows. */
  function ModelGrants(rows: seq<GroupRow>, groups: set<string>, isAdmin: bool): set<Action> {
    if isAdmin then MODEL_ACTIONS
    else set row, a | row in rows && RowSpeaksTo(row, groups) && a in row.grants && a in MODEL_ACTIONS :: a
  }

  /** `model_group_access`. */
  method ModelGroupAccess(rows: seq<GroupRow>, groups: set<string>, isAdmin: bool) returns (granted: set<Action>)
    ensures granted == ModelGrants(rows, groups, isAdmin)
  {
    if isAdmin { return MODEL_ACTIONS; }
    granted := {};
    var matched := false;
    for i := 0 to |rows|
      invariant granted == ModelGrants(rows[..i], groups, false)
      invariant !matched ==> granted == {}
    {
      assert rows[..i + 1] == rows[..i] + [rows[i]];
      if Normalized(rows[i].group) == "" || Normalized(rows[i].group) !in groups { continue; }
      matched := true;
      granted := granted + rows[i].grants * MODEL_ACTIONS;
    }
    assert rows[..|rows|] == rows;
    if !matched { granted := {}; }
  }

  // ---- Layer 2 -------------------------------------------------------------

  /** `_safe_json_dict`: anything but an object reads as the empty filter. */
  function SafeFilter(v: Value): Value {
    if v.Dict? then v else Dict(map[])
  }

  /** `_get_record_rules`: the universal rows and those of the actor's groups, filters made safe. */
  function ScopedRules(rows: seq<RuleRow>, groups: set<string>): (rules: seq<RuleRow>)
    ensures forall x :: x in rules <==>
      exists row :: row in rows && (Normalized(row.group) == "" || Normalized(row.group) in groups)
        && x == RuleRow(Normalized(row.group), SafeFilter(row.filters), row.grants)
  {
    if rows == [] then []
    else
      var row, rest := rows[0], ScopedRules(rows[1..], groups);
      if Normalized(row.group) != "" && Normalized(row.group) !in groups then rest
      else [RuleRow(Normalized(row.group), SafeFilter(row.filters), row.grants)] + rest
  }

  /** The rule's filter with its variables resolved; a falsy filter is not resolved at all. */
  function Resolved(rule: RuleRow, resolve: Value -> Value): Value {
    if Truthy(rule.filters) then resolve(rule.filters) else Dict(map[])
  }

  /** The rule covers the record: its filter is empty or matches; a filter that is no object covers nothing. */
  predicate RuleCovers(rule: RuleRow, record: Record, resolve: Value -> Value) {
    var f := Resolved(rule, resolve);
    f.Dict? && (f.entries == map[] || RecordMatches(record, f))
  }

  /** Union of the grants of every rule that covers the record. */
  function CoveringGrants(rules: seq<RuleRow>, record: Record, resolve: Value -> Value): set<Action> {
    set rule, a | rule in rules && RuleCovers(rule, record, resolve) && a in rule.grants && a in RECORD_ACTIONS :: a
  }

  /** `record_rule_access`: no rule at all restricts nothing, otherwise only what covering rules grant. */
  function RecordGrants(rules: seq<RuleRow>, record: Record, resolve: Value -> Value, bypass: bool): set<Action> {
    if bypass || rules == [] then RECORD_ACTIONS else CoveringGrants(rules, record, resolve)
  }

  predicate AnyCovers(rules: seq<RuleRow>, record: Record, resolve: Value -> Value) {
    exists rule :: rule in rules && RuleCovers(rule, record, resolve)
  }

  lemma OneMoreRule(rules: seq<RuleRow>, rule: RuleRow, record: Record, resolve: Value -> Value)
    ensures AnyCovers(rules + [rule], record, resolve)
      <==> AnyCovers(rules, record, resolve) || RuleCovers(rule, record, resolve)
    ensures CoveringGrants(rules + [rule], record, resolve)
      == CoveringGrants(rules, record, resolve)
         + (if RuleCovers(rule, record, resolve) then rule.grants * RECORD_ACTIONS else {})
  {
  }

  /** `evaluate_record_rule_access`: the union loop; None when no rule covers the record. */
  method EvaluateRecordRules(rules: seq<RuleRow>, record: Record, resolve: Value -> Value)
    returns (granted: Option<set<Action>>)
    ensures granted.None? <==> forall rule :: rule in rules ==> !RuleCovers(rule, record, resolve)
    ensures granted.Some? ==> granted.value == CoveringGrants(rules, record, resolve)
  {
    var matchedAny := false;
    var union: set<Action> := {};
    for i := 0 to |rules|
      invariant matchedAny == AnyCovers(rules[..i], record, resolve)
      invariant union == CoveringGrants(rules[..i], record, resolve)
    {
      assert rules[..i + 1] == rules[..i] + [rules[i]];
      OneMoreRule(rules[..i], rules[i], record, resolve);
      var resolved := if Truthy(rules[i].filters) then resolve(rules[i].filters) else Dict(map[]);
      if !resolved.Dict? { continue; }
      if resolved.entries == map[] || RecordMatches(record, resolved) {
        matchedAny := true;
        union := union + rules[i].grants * RECORD_ACTIONS;
      }
    }
    assert rules[..|rules|] == rules;
    granted := if matchedAny then Some(union) else None;
  }

  method RecordRuleAccess(rules: seq<RuleRow>, record: Record, resolve: Value -> Value, bypass: bool)
    returns (granted: set<Action>)
    ensures granted == RecordGrants(rules, record, resolve, bypass)
  {
    if bypass || rules == [] { return RECORD_ACTIONS; }
    var g := EvaluateRecordRules(rules, record, resolve);
    granted := if g.None? then {} else g.value;
  }

  // ---- Layer 2 as a list domain --------------------------------------------

  /** The resolved filters of the rules that grant read, in order. */
  function ReadClauses(rules: seq<RuleRow>, resolve: Value -> Value): seq<Value> {
    if rules == [] then []
    else if Read in rules[0].grants && Resolved(rules[0], resolve).Dict? then
      [Resolved(rules[0], resolve)] + ReadClauses(rules[1..], resolve)
    else ReadClauses(rules[1..], resolve)
  }

  /** The domain that keeps the readable rows. */
  function ReadDomain(rules: seq<RuleRow>, resolve: Value -> Value): Record {
    var clauses := ReadClauses(rules, resolve);
    if Dict(map[]) in clauses then map[]
    else if clauses == [] then NOTHING
    else map["$or" := List(clauses)]
  }

  lemma {:induction false} ClausesAppend(a: seq<RuleRow>, b: seq<RuleRow>, resolve: Value -> Value)
    ensures ReadClauses(a + b, resolve) == ReadClauses(a, resolve) + ReadClauses(b, resolve)
  {
    if a == [] {
      assert a + b == b;
    } else {
      assert (a + b)[1..] == a[1..] + b;
      ClausesAppend(a[1..], b, resolve);
    }
  }

  /** `record_rule_read_domain`: the loop that returns at the first rule without conditions. */
  method RecordRuleReadDomain(rules: seq<RuleRow>, resolve: Value -> Value) returns (domain: Record)
    ensures domain == ReadDomain(rules, resolve)
  {
    var clauses: seq<Value> := [];
    for i := 0 to |rules|
      invariant clauses == ReadClauses(rules[..i], resolve)
      invariant Dict(map[]) !in clauses
    {
      ghost var here, rest := rules[i..i + 1], rules[i + 1..];
      assert here == [rules[i]] && rules == rules[..i] + here + rest && rules[..i + 1] == rules[..i] + here;
      ClausesAppend(rules[..i], here, resolve);
      ClausesAppend(rules[..i + 1], rest, resolve);
      assert ReadClauses(here[1..], resolve) == [];
      if Read !in rules[i].grants { continue; }
      if !Truthy(rules[i].filters) { return map[]; }
      var resolved := resolve(rules[i].filters);
      if resolved.Dict? && resolved.entries == map[] { return map[]; }
      if resolved.Dict? { clauses := clauses + [resolved]; }
    }
    assert rules[..|rules|] == rules;
    if clauses == [] { return NOTHING; }
    domain := map["$or" := List(clauses)];
  }

  lemma {:induction false} ClausesAreReadRules(rules: seq<RuleRow>, resolve: Value -> Value)
    ensures forall c :: c in ReadClauses(rules, resolve) <==>
      exists rule ::
        rule in rules && Read in rule.grants && Resolved(rule, resolve).Dict? && c == Resolved(rule, resolve)
  {
    if rules != [] {
      ClausesAreReadRules(rules[1..], resolve);
      assert rules == [rules[0]] + rules[1..];
    }
  }

  /** The read domain selects what one of its clauses selects. */
  lemma AnyClause(rules: seq<RuleRow>, record: Record, resolve: Value -> Value)
    requires forall c :: c in ReadClauses(rules, resolve) ==> c.Dict?
    ensures DomainSelects(record, ReadDomain(rules, resolve))
       <==> exists c :: c in ReadClauses(rules, resolve) && c.Dict? && DomainSelects(record, c.entries)
  {
    var clauses, d := ReadClauses(rules, resolve), ReadDomain(rules, resolve);
    NothingSelectsNothing(record);
    if Dict(map[]) in clauses {
      assert DomainSelects(record, map[]);
    } else if clauses != [] {
      assert d["$or"] == List(clauses);
      assert RecordMatches(record, Dict(d)) == exists i :: 0 <= i < |clauses| && RecordMatches(record, clauses[i]);
    }
  }

  /** The query form and the per-record form of Layer 2 read agree on every record. */
  lemma ReadDomainAgrees(rules: seq<RuleRow>, record: Record, resolve: Value -> Value)
    ensures DomainSelects(record, ReadDomain(rules, resolve)) <==> Read in CoveringGrants(rules, record, resolve)
  {
    var clauses := ReadClauses(rules, resolve);
    ClausesAreReadRules(rules, resolve);
    AnyClause(rules, record, resolve);
    if Read in CoveringGrants(rules, record, resolve) {
      var rule :| rule in rules && RuleCovers(rule, record, resolve) && Read in rule.grants;
      assert Resolved(rule, resolve) in clauses;
    }
    if DomainSelects(record, ReadDomain(rules, resolve)) {
      var c :| c in clauses && c.Dict? && DomainSelects(record, c.entries);
      var rule :| rule in rules && Read in rule.grants && Resolved(rule, resolve).Dict? && c == Resolved(rule, resolve);
      assert RuleCovers(rule, record, resolve);
    }
  }
}
