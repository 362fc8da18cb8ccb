/** The in-repository filter evaluator and the gate on client filters. */
module Filters {
  import opened Values
  import opened Paths

  predicate IsOperator(key: string) {
    key != "" && key[0] == '$'
  }

  predicate InList(v: Value, items: seq<Value>) {
    exists x :: x in items && PyEq(v, x)
  }

  predicate Overlap(a: seq<Value>, b: seq<Value>) {
    exists x :: x in a && InList(x, b)
  }

  predicate FilterValueMatches(actual: Value, expected: Value) {
    if expected.Dict? then
      var e := expected.entries;
      if "$eq" in e then PyEq(actual, e["$eq"])
      else if "$ne" in e then !PyEq(actual, e["$ne"])
      else if "$in" in e then
        e["$in"].List? &&
        if actual.List? then Overlap(actual.items, e["$in"].items) else InList(actual, e["$in"].items)
      else if "$nin" in e then
        !e["$nin"].List? ||
        if actual.List? then !Overlap(actual.items, e["$nin"].items) else !InList(actual, e["$nin"].items)
      else false
    else PyEq(actual, expected)
  }

  /** `_record_matches_filters`: closed against every shape it does not know, the empty filter included. */
  predicate RecordMatches(record: Record, filters: Value) {
    filters.Dict? && filters.entries != map[] &&
    forall key :: key in filters.entries ==>
      var expected := filters.entries[key];
      if key == "$and" then
        expected.List? && expected.items != [] &&
        forall i :: 0 <= i < |expected.items| ==> RecordMatches(record, expected.items[i])
      else if key == "$or" then
        expected.List? &&
        exists i :: 0 <= i < |expected.items| && RecordMatches(record, expected.items[i])
      else
        !IsOperator(key) && FilterValueMatches(Get(record, key), expected)
  }

  /** A whole list domain: `{}` selects every row. */
  predicate DomainSelects(record: Record, domain: Record) {
    domain == map[] || RecordMatches(record, Dict(domain))
  }

  // ---- What a filter selects -----------------------------------------------------

  /** The record is selected by the domain that asks one thing under one key. */
  predicate Asks(record: Record, key: string, expected: Value) {
    DomainSelects(record, map[key := expected])
  }

  predicate FieldName(key: string) {
    key == "" || key[0] != '$'
  }

  lemma OneKey(record: Record, key: string, expected: Value)
    ensures Asks(record, key, expected) <==>
      if key == "$and" then
        expected.List? && expected.items != [] &&
        forall i :: 0 <= i < |expected.items| ==> RecordMatches(record, expected.items[i])
      else if key == "$or" then
        expected.List? && exists i :: 0 <= i < |expected.items| && RecordMatches(record, expected.items[i])
      else !IsOperator(key) && FilterValueMatches(Get(record, key), expected)
  {
    var d: Record := map[key := expected];
    assert key in d && d[key] == expected;
  }

  /** A domain of several keys selects what each of them selects. */
  lemma SelectsEach(record: Record, domain: Record)
    ensures DomainSelects(record, domain) <==> forall key :: key in domain ==> Asks(record, key, domain[key])
  {
    forall key | key in domain { OneKey(record, key, domain[key]); }
    if domain != map[] {
      var key :| key in domain;
      assert Dict(domain).entries == domain;
    }
  }

  /** A clause of a combination selects what it selects as a domain, the empty one nothing. */
  predicate ClauseSelects(record: Record, clause: Value) {
    clause.Dict? && clause.entries != map[] && DomainSelects(record, clause.entries)
  }

  lemma AndSelects(record: Record, clauses: seq<Value>)
    ensures Asks(record, "$and", List(clauses))
       <==> clauses != [] && forall c :: c in clauses ==> ClauseSelects(record, c)
  {
    OneKey(record, "$and", List(clauses));
    assert forall i :: 0 <= i < |clauses| ==> clauses[i] in clauses;
  }

  lemma OrSelects(record: Record, clauses: seq<Value>)
    ensures Asks(record, "$or", List(clauses)) <==> exists c :: c in clauses && ClauseSelects(record, c)
  {
    OneKey(record, "$or", List(clauses));
    assert forall i :: 0 <= i < |clauses| ==> clauses[i] in clauses;
  }

  /** `$and` and `$or` of anything but a list, and every other operator in place of a field, select nothing. */
  lemma OtherOperatorsSelectNothing(record: Record, key: string, expected: Value)
    requires !FieldName(key) && (key in {"$and", "$or"} ==> !expected.List?)
    ensures !Asks(record, key, expected)
  {
    OneKey(record, key, expected);
  }

  /** What is no object is compared as it is. */
  lemma PlainSelects(record: Record, field: string, expected: Value)
    requires FieldName(field) && !expected.Dict?
    ensures Asks(record, field, expected) <==> PyEq(Get(record, field), expected)
  {
    OneKey(record, field, expected);
  }

  /** Of an object of operators the first known one decides: `$eq`, `$ne`, `$in`, `$nin`, and without any nothing is
      selected. */
  lemma EqSelects(record: Record, field: string, e: Record)
    requires FieldName(field)
    ensures "$eq" in e ==> (Asks(record, field, Dict(e)) <==> PyEq(Get(record, field), e["$eq"]))
    ensures "$eq" !in e && "$ne" in e ==> (Asks(record, field, Dict(e)) <==> !PyEq(Get(record, field), e["$ne"]))
    ensures {"$eq", "$ne", "$in", "$nin"} !! e.Keys ==> !Asks(record, field, Dict(e))
  {
    OneKey(record, field, Dict(e));
  }

  /** The two lists have an element in common, up to equality. */
  predicate Shares(a: seq<Value>, b: seq<Value>) {
    exists x, y :: x in a && y in b && PyEq(x, y)
  }

  /** The value is among the given ones, a list when it shares an element with them. */
  predicate Among(v: Value, xs: seq<Value>) {
    if v.List? then Shares(v.items, xs) else exists x :: x in xs && PyEq(v, x)
  }

  /** `$in` selects what is among the given values, and nothing when given no list. */
  lemma InSelects(record: Record, field: string, e: Record)
    requires FieldName(field) && "$eq" !in e && "$ne" !in e && "$in" in e
    ensures Asks(record, field, Dict(e)) <==> e["$in"].List? && Among(Get(record, field), e["$in"].items)
  {
    OneKey(record, field, Dict(e));
    var v := Get(record, field);
    if v.List? && e["$in"].List? { SharesIsOverlap(v.items, e["$in"].items); }
  }

  /** `$nin` selects what is not, and everything when given no list. */
  lemma NinSelects(record: Record, field: string, e: Record)
    requires FieldName(field) && "$eq" !in e && "$ne" !in e && "$in" !in e && "$nin" in e
    ensures Asks(record, field, Dict(e)) <==> !e["$nin"].List? || !Among(Get(record, field), e["$nin"].items)
  {
    OneKey(record, field, Dict(e));
    var v := Get(record, field);
    if v.List? && e["$nin"].List? { SharesIsOverlap(v.items, e["$nin"].items); }
  }

  lemma SharesIsOverlap(a: seq<Value>, b: seq<Value>)
    ensures Overlap(a, b) <==> Shares(a, b)
  {
    if Overlap(a, b) {
      var x :| x in a && InList(x, b);
      var y :| y in b && PyEq(x, y);
    }
  }

  /** `_merge_query`. */
  function MergeQuery(base: Record, extra: Record): Record {
    if base == map[] then extra
    else if extra == map[] then base
    else map["$and" := List([Dict(base), Dict(extra)])]
  }

  /** Merging two queries selects what both select. */
  lemma MergeIsConjunction(record: Record, base: Record, extra: Record)
    ensures DomainSelects(record, MergeQuery(base, extra))
       <==> DomainSelects(record, base) && DomainSelects(record, extra)
  {
    if base != map[] && extra != map[] {
      var both := [Dict(base), Dict(extra)];
      var merged := MergeQuery(base, extra);
      assert merged["$and"] == List(both);
      assert RecordMatches(record, Dict(merged))
          == forall i :: 0 <= i < |both| ==> RecordMatches(record, both[i]);
      assert both[0] == Dict(base) && both[1] == Dict(extra);
    }
  }

  /** `{"rec_name": {"$in": []}}`, the domain that hides everything. */
  const NOTHING: Record := map["rec_name" := Dict(map["$in" := List([])])]

  lemma NothingSelectsNothing(record: Record)
    ensures !DomainSelects(record, NOTHING)
  {
    assert NOTHING["rec_name"] == Dict(map["$in" := List([])]);
    var actual := Get(record, "rec_name");
    assert !FilterValueMatches(actual, NOTHING["rec_name"]);
  }

  /** The top-level record keys the evaluator may look at. */
  function KeysRead(filters: Value): set<string> {
    if !filters.Dict? then {}
    else
      (set key | key in filters.entries && !IsOperator(key)) +
      (set key, i, k |
        key in filters.entries && key in {"$and", "$or"} && filters.entries[key].List? &&
        0 <= i < |filters.entries[key].items| && k in KeysRead(filters.entries[key].items[i])
        :: k)
  }

  /** Records that agree on the keys a filter reads get the same verdict. */
  lemma {:induction false} VerdictDependsOnKeysRead(a: Record, b: Record, filters: Value)
    requires forall k :: k in KeysRead(filters) ==> Get(a, k) == Get(b, k)
    ensures RecordMatches(a, filters) == RecordMatches(b, filters)
  {
    if filters.Dict? {
      forall key, i | key in filters.entries && key in {"$and", "$or"} && filters.entries[key].List?
          && 0 <= i < |filters.entries[key].items|
        ensures RecordMatches(a, filters.entries[key].items[i]) == RecordMatches(b, filters.entries[key].items[i])
      {
        VerdictDependsOnKeysRead(a, b, filters.entries[key].items[i]);
      }
    }
  }

  // ---- What a client query mentions ---------------------------------------

  const ALLOWED_OPERATORS: set<string> := {
    "$eq", "$ne", "$in", "$nin", "$gt", "$gte", "$lt", "$lte", "$and", "$or", "$nor", "$not",
    "$exists", "$all", "$size", "$elemMatch", "$regex", "$options"
  }

  /** Operators whose value is walked again at the same path. */
  const WALKED_OPERATORS: set<string> := {"$elemMatch", "$not", "$all", "$and", "$or", "$nor"}

  /** No operator outside the allow list anywhere the walk goes. */
  predicate OperatorsAllowed(query: Value) {
    match query
    case Dict(m) =>
      forall key :: key in m ==>
        if IsOperator(key) then
          key in ALLOWED_OPERATORS && (key in WALKED_OPERATORS ==> OperatorsAllowed(m[key]))
        else OperatorsAllowed(m[key])
    case List(items) => forall i :: 0 <= i < |items| ==> OperatorsAllowed(items[i])
    case _ => true
  }

  /** `extract_query_field_paths` of a query whose operators are allowed. */
  function QueryPaths(query: Value, prefix: string): set<string> {
    match query
    case Dict(m) =>
      (set key | key in m && !IsOperator(key) :: Join(prefix, key)) +
      (set key, p | key in m && !IsOperator(key) && p in QueryPaths(m[key], Join(prefix, key)) :: p) +
      (set key, p | key in m && key in WALKED_OPERATORS && p in QueryPaths(m[key], prefix) :: p)
    case List(items) => set i, p | 0 <= i < |items| && p in QueryPaths(items[i], prefix) :: p
    case _ => {}
  }

  /** The operators whose values ask about fields: combinations, and what applies to elements of a list. */
  predicate AsksInside(key: string) {
    key in {"$and", "$or", "$nor", "$not", "$all", "$elemMatch"}
  }

  /** An entry of a query may stand: an operator by its name, and by what it asks inside. */
  predicate MayStand(key: string, v: Value) {
    if FieldName(key) then OperatorsAllowed(v)
    else
      && key in {"$eq", "$ne", "$in", "$nin", "$gt", "$gte", "$lt", "$lte", "$and", "$or", "$nor", "$not", "$exists",
                 "$all", "$size", "$elemMatch", "$regex", "$options"}
      && (AsksInside(key) ==> OperatorsAllowed(v))
  }

  /** An entry mentions a path: a field its own dotted one and all that is asked below it, an operator what is asked
      inside it. */
  predicate Mentions(key: string, v: Value, prefix: string, p: string) {
    if FieldName(key) then
      var path := if prefix == "" then key else prefix + "." + key;
      p == path || p in QueryPaths(v, path)
    else AsksInside(key) && p in QueryPaths(v, prefix)
  }

  lemma WalkedOperators(key: string)
    ensures key in WALKED_OPERATORS <==> AsksInside(key)
    ensures key in WALKED_OPERATORS ==> IsOperator(key)
    ensures FieldName(key) <==> !IsOperator(key)
  {}

  predicate Walked(key: string, v: Value, prefix: string, p: string) {
    || (!IsOperator(key) && (p == Join(prefix, key) || p in QueryPaths(v, Join(prefix, key))))
    || (key in WALKED_OPERATORS && p in QueryPaths(v, prefix))
  }

  lemma WalkedIs(key: string, v: Value, prefix: string, p: string)
    ensures Walked(key, v, prefix, p) <==> Mentions(key, v, prefix, p)
  {
    WalkedOperators(key);
  }

  lemma EntryWalked(m: Record, prefix: string, p: string)
    ensures p in QueryPaths(Dict(m), prefix) <==> exists k :: k in m && Walked(k, m[k], prefix, p)
  {}

  /** Objects are walked entry by entry. */
  lemma EntriesMention(m: Record, prefix: string, p: string)
    ensures p in QueryPaths(Dict(m), prefix) <==> exists k :: k in m && Mentions(k, m[k], prefix, p)
  {
    EntryWalked(m, prefix, p);
    forall k | k in m { WalkedIs(k, m[k], prefix, p); }
  }

  lemma EntriesMayStand(m: Record)
    ensures OperatorsAllowed(Dict(m)) <==> forall k :: k in m ==> MayStand(k, m[k])
  {
    forall k | k in m ensures k in WALKED_OPERATORS <==> AsksInside(k) ensures FieldName(k) <==> !IsOperator(k) {
      WalkedOperators(k);
    }
  }

  /** Lists are walked item by item, and a plain value says nothing. */
  lemma ListsWalked(items: seq<Value>, v: Value, prefix: string)
    requires !v.List? && !v.Dict?
    ensures OperatorsAllowed(List(items)) <==> forall x :: x in items ==> OperatorsAllowed(x)
    ensures forall p :: p in QueryPaths(List(items), prefix) <==> exists x :: x in items && p in QueryPaths(x, prefix)
    ensures OperatorsAllowed(v) && QueryPaths(v, prefix) == {}
  {
    assert forall i :: 0 <= i < |items| ==> items[i] in items;
    forall p ensures p in QueryPaths(List(items), prefix) <==> exists x :: x in items && p in QueryPaths(x, prefix) {
      if x :| x in items && p in QueryPaths(x, prefix) {
        var i :| 0 <= i < |items| && items[i] == x;
      }
    }
  }

  lemma WalkedInside(m: Record, key: string, i: nat, p: string)
    requires key in m && key in WALKED_OPERATORS && m[key].List? && i < |m[key].items|
    requires p in QueryPaths(m[key].items[i], "")
    ensures p in QueryPaths(Dict(m), "")
  {
    assert p in QueryPaths(m[key], "");
  }

  /** Every record key the evaluator reads is among the paths the gate inspects. */
  lemma {:induction false} GateSeesEveryKeyRead(query: Value)
    ensures KeysRead(query) <= QueryPaths(query, "")
  {
    if query.Dict? {
      var m := query.entries;
      forall k | k in KeysRead(query) ensures k in QueryPaths(query, "") {
        if k in m && !IsOperator(k) {
          assert Join("", k) == k;
        } else {
          var key, i :| key in m && key in {"$and", "$or"} && m[key].List? &&
            0 <= i < |m[key].items| && k in KeysRead(m[key].items[i]);
          GateSeesEveryKeyRead(m[key].items[i]);
          WalkedInside(m, key, i, k);
        }
      }
    }
  }
}
