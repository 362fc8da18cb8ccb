/** Implied groups, and why a larger membership never hurts. */
module Membership {
  import opened Values
  import opened Text
  import opened Filters
  import opened FieldAcl
  import opened RecordRules
  import opened Session
  import opened Listing

  // ---- Implied groups ---------------------------------------------------------

  type Implications = map<string, set<string>>

  function Implied(implications: Implications, group: string): set<string> {
    if group in implications then implications[group] else {}
  }

  ghost predicate Closed(s: set<string>, implications: Implications) {
    forall g :: g in s ==> Implied(implications, g) <= s
  }

  /** The least set that holds the start groups and everything they imply. */
  ghost predicate IsClosure(start: set<string>, implications: Implications, r: set<string>) {
    && start <= r
    && Closed(r, implications)
    && forall s: set<string> :: start <= s && Closed(s, implications) ==> r <= s
  }

  /** `_expand_implied_groups`: the worklist ends, cycles or not, with exactly the least closed set. */
  method ExpandImpliedGroups(groups: set<string>, implications: Implications) returns (expanded: set<string>)
    ensures IsClosure(groups, implications, expanded)
  {
    ghost var universe := groups + set g, x | g in implications && x in implications[g] :: x;
    expanded := groups;
    var pending := SortedSeq(groups);
    while pending != []
      invariant groups <= expanded <= universe
      invariant forall g :: g in pending ==> g in expanded
      invariant forall g :: g in expanded && g !in pending ==> Implied(implications, g) <= expanded
      invariant forall s: set<string> :: groups <= s && Closed(s, implications) ==> expanded <= s
      decreases universe - expanded, |pending|
    {
      var group := pending[|pending| - 1];
      var rest := pending[..|pending| - 1];
      assert pending == rest + [group];
      expanded, pending := PushImplied(expanded, rest, Implied(implications, group));
    }
  }

  /** The inner loop: every implied group not yet seen is added and pushed. */
  method PushImplied(seen: set<string>, stack: seq<string>, implied: set<string>)
    returns (expanded: set<string>, pending: seq<string>)
    ensures expanded == seen + implied
    ensures forall g :: g in pending <==> g in stack || g in implied - seen
    ensures expanded == seen ==> pending == stack
  {
    expanded, pending := seen, stack;
    var left := implied;
    while left != {}
      invariant left <= implied && expanded == seen + (implied - left)
      invariant forall g :: g in pending <==> g in stack || g in implied - left - seen
      invariant expanded == seen ==> pending == stack
    {
      var g :| g in left;
      left := left - {g};
      if g !in expanded {
        expanded, pending := expanded + {g}, pending + [g];
      }
    }
  }

  /** Closing is monotone, and closing twice is closing once. */
  lemma ClosureMonotoneIdempotent(g: set<string>, h: set<string>, implications: Implications,
    cg: set<string>, ch: set<string>)
    requires IsClosure(g, implications, cg) && IsClosure(h, implications, ch)
    ensures g <= h ==> cg <= ch
    ensures IsClosure(cg, implications, cg)
    ensures g == h ==> cg == ch
  {}

  // ---- Field rules ----------------------------------------------------------------

  /** `f_rule` of one field: the groups that read it and the groups that write it, `$owner` left out. */
  datatype FieldRule = FieldRule(field: string, readers: set<string>, writers: set<string>)

  /** `_load_field_rule_policies`, compiled for an actor: a policy speaks to those outside every listed group. */
  function FieldRulePolicies(modelKey: string, rules: seq<FieldRule>, groups: set<string>): seq<Policy> {
    if rules == [] then []
    else
      var r := rules[0];
      (if r.readers != {} && groups !! r.readers
       then [Policy(modelKey, r.field, OpRead, Obfuscate, "", "", "", "")] else []) +
      (if r.writers != {} && groups !! r.writers
       then [Policy(modelKey, r.field, OpUpdate, Deny, "", "", "", "")] else []) +
      FieldRulePolicies(modelKey, rules[1..], groups)
  }

  lemma {:induction false} PolicyOrigin(modelKey: string, rules: seq<FieldRule>, groups: set<string>)
    ensures forall p :: p in FieldRulePolicies(modelKey, rules, groups) <==>
      (exists r :: r in rules &&
        ((p == Policy(modelKey, r.field, OpRead, Obfuscate, "", "", "", "")
          && r.readers != {} && groups !! r.readers) ||
         (p == Policy(modelKey, r.field, OpUpdate, Deny, "", "", "", "") && r.writers != {} && groups !! r.writers)))
  {
    if rules != [] {
      assert rules == [rules[0]] + rules[1..];
      PolicyOrigin(modelKey, rules[1..], groups);
    }
  }

  /** Fewer policies speak to a larger membership. */
  lemma PoliciesShrink(modelKey: string, rules: seq<FieldRule>, g: set<string>, h: set<string>)
    requires g <= h
    ensures forall p :: p in FieldRulePolicies(modelKey, rules, h) ==> p in FieldRulePolicies(modelKey, rules, g)
  {
    PolicyOrigin(modelKey, rules, g);
    PolicyOrigin(modelKey, rules, h);
  }

  lemma FieldRulesOnlyMask(modelKey: string, rules: seq<FieldRule>, groups: set<string>, c: Context)
    ensures PathsWith(FieldRulePolicies(modelKey, rules, groups), OpUpdate, Allow, c) == {}
  {
    PolicyOrigin(modelKey, rules, groups);
  }

  // ---- End to end -------------------------------------------------------------------

  function Lowered(groups: set<string>): set<string> {
    set g | g in groups :: Normalized(g)
  }

  /** The request of an actor with these (already closed) groups, under the model's field rules. */
  function As(w: Setting, groups: set<string>, rules: seq<FieldRule>): Setting {
    w.(groups := Lowered(groups), policies := FieldRulePolicies(w.modelKey, rules, Lowered(groups)))
  }

  lemma GrantsGrow(rows: seq<GroupRow>, g: set<string>, h: set<string>, isAdmin: bool)
    requires g <= h
    ensures ModelGrants(rows, g, isAdmin) <= ModelGrants(rows, h, isAdmin)
  {
    if !isAdmin {
      forall a | a in ModelGrants(rows, g, isAdmin) ensures a in ModelGrants(rows, h, isAdmin) {
        var row :| row in rows && RowSpeaksTo(row, g) && a in row.grants && a in MODEL_ACTIONS;
        assert RowSpeaksTo(row, h);
      }
    }
  }

  lemma {:induction false} RulesGrow(rows: seq<RuleRow>, g: set<string>, h: set<string>)
    requires g <= h
    ensures forall rule :: rule in ScopedRules(rows, g) ==> rule in ScopedRules(rows, h)
  {
    if rows != [] { RulesGrow(rows[1..], g, h); }
  }

  lemma CoveringGrow(a: seq<RuleRow>, b: seq<RuleRow>, record: Record, resolve: Value -> Value)
    requires forall rule :: rule in a ==> rule in b
    ensures CoveringGrants(a, record, resolve) <= CoveringGrants(b, record, resolve)
  {}

  /** Layer 2 for two memberships, one inside the other: the larger keeps every action of the smaller exactly when
      the smaller was restricted, the larger is not, or what the larger is granted is everything anyway. */
  lemma RecordGrantsGrow(rows: seq<RuleRow>, g: set<string>, h: set<string>, record: Record,
    resolve: Value -> Value, bypass: bool)
    requires g <= h
    ensures RecordGrants(ScopedRules(rows, g), record, resolve, bypass)
         <= RecordGrants(ScopedRules(rows, h), record, resolve, bypass)
       <==> bypass || ScopedRules(rows, g) != [] || ScopedRules(rows, h) == []
            || RECORD_ACTIONS <= CoveringGrants(ScopedRules(rows, h), record, resolve)
  {
    RulesGrow(rows, g, h);
    CoveringGrow(ScopedRules(rows, g), ScopedRules(rows, h), record, resolve);
    if ScopedRules(rows, g) != [] { assert ScopedRules(rows, g)[0] in ScopedRules(rows, h); }
  }

  /** More groups can hurt: nothing restricts an actor without rules, and the first rule restricts what it does not
      cover. */
  lemma FirstRuleRestricts()
    ensures var rows := [RuleRow("sales", Dict(map["active" := Int(1)]), {Read})];
      && RecordGrants(ScopedRules(rows, {}), map[], v => v, false) == RECORD_ACTIONS
      && RecordGrants(ScopedRules(rows, {"sales"}), map[], v => v, false) == {}
  {
    var filter := Dict(map["active" := Int(1)]);
    assert Normalized("sales") == "sales" by { StripIsStripped("sales"); }
    assert "active" in filter.entries && !RecordMatches(map[], filter);
    OneRuleRestricts(RuleRow("sales", filter, {Read}), "sales");
  }

  lemma OneRuleRestricts(rule: RuleRow, group: string)
    requires Normalized(group) == group == rule.group && group != ""
    requires rule.filters.Dict? && rule.filters.entries != map[] && !RecordMatches(map[], rule.filters)
    ensures RecordGrants(ScopedRules([rule], {}), map[], v => v, false) == RECORD_ACTIONS
    ensures RecordGrants(ScopedRules([rule], {group}), map[], v => v, false) == {}
  {
    var rows := [rule];
    assert rows[0] in rows && rule in ScopedRules(rows, {group});
  }

  /** More memberships never hurt: through closure, model grants, record grants (when the smaller membership is not
      left without any rule), field masks, write denials and the rows a list shows. */
  lemma MoreGroupsNeverHurt(w: Setting, rules: seq<FieldRule>, implications: Implications,
    g: set<string>, h: set<string>, cg: set<string>, ch: set<string>, record: Record, query: Record, field: string)
    requires g <= h && IsClosure(g, implications, cg) && IsClosure(h, implications, ch)
    ensures var small, large := As(w, cg, rules), As(w, ch, rules);
      && small.ModelAccess() <= large.ModelAccess()
      && large.Masks() <= small.Masks()
      && (IsDenied(large.policies, OpUpdate, w.Where(), field) ==> IsDenied(small.policies, OpUpdate, w.Where(), field))
      && (small.Rules() != [] || large.Rules() == [] ==>
            && small.RecordAccess(record) <= large.RecordAccess(record)
            && (DomainSelects(record, ListDomain(small, query)) ==> DomainSelects(record, ListDomain(large, query))))
  {
    ClosureMonotoneIdempotent(g, h, implications, cg, ch);
    var small, large := As(w, cg, rules), As(w, ch, rules);
    var a, b := Lowered(cg), Lowered(ch);
    assert a <= b;
    GrantsGrow(w.groupRows, a, b, w.isAdmin);
    PoliciesShrink(w.modelKey, rules, a, b);
    FieldRulesOnlyMask(w.modelKey, rules, a, w.Where());
    FieldRulesOnlyMask(w.modelKey, rules, b, w.Where());
    DenialsShrink(small.policies, large.policies, w.Where(), field);
    RecordGrantsGrow(w.ruleRows, a, b, record, w.resolve, w.isSysModel);
    ListedRows(small, query, record);
    ListedRows(large, query, record);
  }

  lemma DenialsShrink(some: seq<Policy>, fewer: seq<Policy>, c: Context, field: string)
    requires forall p :: p in fewer ==> p in some
    requires PathsWith(fewer, OpUpdate, Allow, c) == {}
    ensures IsDenied(fewer, OpUpdate, c, field) ==> IsDenied(some, OpUpdate, c, field)
    ensures ReadMasks(fewer, c) <= ReadMasks(some, c)
  {
    assert PathsWith(fewer, OpUpdate, Deny, c) <= PathsWith(some, OpUpdate, Deny, c);
  }
}
