/** `Service.list_records`: gates, narrowing, order, paging and masking of a list. */
module Listing {
  import opened Values
  import opened Text
  import opened Filters
  import opened FieldAcl
  import opened RecordRules
  import opened Session
  import opened Views

  // ---- Gates ----------------------------------------------------------------

  datatype Refusal = OperatorNotAllowed | FieldsDenied(fields: seq<string>)

  function BlockedFields(w: Setting, fields: set<string>): set<string> {
    set f | f in fields && Covered(w.Masks(), f)
  }

  /** `assert_query_field_acl`. */
  function QueryGate(w: Setting, query: Record): Option<Refusal> {
    if query == map[] then None
    else if !OperatorsAllowed(Dict(query)) then Some(OperatorNotAllowed)
    else
      var hit := BlockedFields(w, QueryPaths(Dict(query), ""));
      if hit == {} then None else Some(FieldsDenied(SortedSeq(hit)))
  }

  /** One `field:direction` of a normalized order. */
  datatype OrderKey = OrderKey(field: string, descending: bool)

  function OrderToken(token: string): seq<OrderKey> {
    var parts := SplitOn(Strip(token), ':');
    if Strip(parts[0]) == "" then []
    else [OrderKey(Strip(parts[0]), |parts| > 1 && Strip(parts[1]) == "desc")]
  }

  function OrderTokens(tokens: seq<string>): seq<OrderKey> {
    if tokens == [] then [] else OrderToken(tokens[0]) + OrderTokens(tokens[1..])
  }

  function OrderKeys(order: string): seq<OrderKey> {
    OrderTokens(SplitOn(order, ','))
  }

  /** `assert_order_field_acl`. */
  function OrderGate(w: Setting, order: string): Option<Refusal> {
    var hit := BlockedFields(w, set k | k in OrderKeys(order) :: k.field);
    if hit == {} then None else Some(FieldsDenied(SortedSeq(hit)))
  }

  /** The field is masked: a mask is its path, or one of the other forms of a policy's path that match it. */
  predicate MaskMatches(w: Setting, field: string) {
    exists m :: m in w.Masks() && PathMatches(m, field)
  }

  lemma BlockedAre(w: Setting, fields: set<string>)
    ensures forall f :: f in BlockedFields(w, fields) <==> f in fields && MaskMatches(w, f)
    ensures BlockedFields(w, fields) == {} <==> forall f :: f in fields ==> !MaskMatches(w, f)
  {
    forall f ensures Covered(w.Masks(), f) <==> MaskMatches(w, f) {}
    if BlockedFields(w, fields) != {} {
      var f :| f in BlockedFields(w, fields);
      assert MaskMatches(w, f);
    }
  }

  /** A query passes the gate exactly when it is empty, or uses allowed operators only and mentions no masked field; a
      refusal for its fields names the masked ones mentioned. */
  lemma QueryGateIs(w: Setting, query: Record)
    ensures QueryGate(w, query).None? <==>
      query == map[] ||
      (OperatorsAllowed(Dict(query)) && forall f :: f in QueryPaths(Dict(query), "") ==> !MaskMatches(w, f))
    ensures query != map[] && QueryGate(w, query).Some? && OperatorsAllowed(Dict(query)) ==>
      QueryGate(w, query).value.FieldsDenied? &&
      forall f :: f in QueryGate(w, query).value.fields <==> f in QueryPaths(Dict(query), "") && MaskMatches(w, f)
  {
    BlockedAre(w, QueryPaths(Dict(query), ""));
  }

  /** An order passes when it sorts by no masked field. */
  lemma OrderGateIs(w: Setting, order: string)
    ensures OrderGate(w, order).None? <==> forall k :: k in OrderKeys(order) ==> !MaskMatches(w, k.field)
    ensures OrderGate(w, order).Some? ==>
      OrderGate(w, order).value.FieldsDenied? &&
      forall f :: f in OrderGate(w, order).value.fields <==>
        MaskMatches(w, f) && exists k :: k in OrderKeys(order) && k.field == f
  {
    BlockedAre(w, set k | k in OrderKeys(order) :: k.field);
  }

  // ---- Domain ---------------------------------------------------------------

  /** The domain `list_records` counts and reads. */
  function ListDomain(w: Setting, query: Record): Record {
    var gated := if Read in w.ModelAccess() then query else MergeQuery(query, NOTHING);
    if w.Rules() != [] && !w.isAdmin && !w.isSysModel
    then MergeQuery(gated, ReadDomain(w.Rules(), w.resolve))
    else gated
  }

  /** `_narrow_read_domain`: the domain of a dashboard counter. */
  function CounterDomain(w: Setting, query: Record): Record {
    if Read !in w.ModelAccess() then MergeQuery(query, NOTHING)
    else if w.Rules() == [] || w.isAdmin || w.isSysModel then query
    else MergeQuery(query, ReadDomain(w.Rules(), w.resolve))
  }

  /** For any actor: a listed row matches the query, and Layer 2 narrows everybody but admins. */
  lemma ListedRows(w: Setting, query: Record, record: Record)
    ensures DomainSelects(record, ListDomain(w, query))
       <==> DomainSelects(record, query) && Read in w.ModelAccess() && (w.isAdmin || Read in w.RecordAccess(record))
  {
    var gated := if Read in w.ModelAccess() then query else MergeQuery(query, NOTHING);
    var readable := ReadDomain(w.Rules(), w.resolve);
    NothingSelectsNothing(record);
    MergeIsConjunction(record, query, NOTHING);
    MergeIsConjunction(record, gated, readable);
    ReadDomainAgrees(w.Rules(), record, w.resolve);
  }

  /** A non-admin is listed exactly the rows that match the query and could be opened one by one. */
  lemma ListedIffOpenable(w: Setting, query: Record, record: Record)
    requires !w.isAdmin
    ensures DomainSelects(record, ListDomain(w, query)) <==> DomainSelects(record, query) && w.CanOpen(record)
  {
    ListedRows(w, query, record);
  }

  /** Whoever may open a matching record is listed it; the converse fails for an admin, exactly on closed records. */
  lemma AdminListsMore(w: Setting, query: Record, record: Record)
    requires w.isAdmin
    ensures DomainSelects(record, query) && w.CanOpen(record) ==> DomainSelects(record, ListDomain(w, query))
    ensures DomainSelects(record, ListDomain(w, query)) && !w.CanOpen(record)
       <==> DomainSelects(record, query) && w.Rules() != [] && !w.isSysModel
            && Read !in CoveringGrants(w.Rules(), record, w.resolve)
  {
    ListedRows(w, query, record);
  }

  /** A dashboard counter counts the rows the list shows. */
  lemma CounterCountsTheList(w: Setting, query: Record, record: Record)
    ensures DomainSelects(record, CounterDomain(w, query)) <==> DomainSelects(record, ListDomain(w, query))
  {
    ListedRows(w, query, record);
    var readable := ReadDomain(w.Rules(), w.resolve);
    NothingSelectsNothing(record);
    MergeIsConjunction(record, query, NOTHING);
    MergeIsConjunction(record, query, readable);
    ReadDomainAgrees(w.Rules(), record, w.resolve);
  }

  // ---- The store's part: select, sort, page ---------------------------------

  function Selected(table: seq<Record>, domain: Record): seq<Record> {
    if table == [] then []
    else (if DomainSelects(table[0], domain) then [table[0]] else []) + Selected(table[1..], domain)
  }

  /** `a` sorts strictly before `b`, `le` being the store's order on values. */
  predicate Before(a: Record, b: Record, keys: seq<OrderKey>, le: (Value, Value) -> bool) {
    keys != [] &&
    var f := keys[0].field;
    var x := if keys[0].descending then Get(b, f) else Get(a, f);
    var y := if keys[0].descending then Get(a, f) else Get(b, f);
    if le(x, y) && !le(y, x) then true
    else if le(y, x) && !le(x, y) then false
    else Before(a, b, keys[1..], le)
  }

  function InsertRow(r: Record, rows: seq<Record>, keys: seq<OrderKey>, le: (Value, Value) -> bool): seq<Record> {
    if rows != [] && Before(rows[0], r, keys, le) then [rows[0]] + InsertRow(r, rows[1..], keys, le)
    else [r] + rows
  }

  /** A stable sort. */
  function SortRows(rows: seq<Record>, keys: seq<OrderKey>, le: (Value, Value) -> bool): seq<Record> {
    if rows == [] then [] else InsertRow(rows[0], SortRows(rows[1..], keys, le), keys, le)
  }

  /** Skip, then at most `limit` rows; a limit of 0 is no limit. */
  function Page(rows: seq<Record>, skip: nat, limit: nat): seq<Record> {
    var rest := if skip <= |rows| then rows[skip..] else [];
    if limit == 0 || |rest| <= limit then rest else rest[..limit]
  }

  // ---- The list -------------------------------------------------------------

  datatype ListResult =
    | Refused(why: Refusal)
    | Listed(total: nat, rows: seq<Value>, obfuscated: seq<string>)

  function Shown(w: Setting, rows: seq<Record>): seq<Value> {
    seq(|rows|, i requires 0 <= i < |rows| => View(w, rows[i]))
  }

  function StillHidden(w: Setting, record: Record): set<string> {
    set f | f in Unrevealed(w, record, SortedSeq(w.Obfuscated()))
  }

  function HiddenIn(w: Setting, rows: seq<Record>): set<string> {
    if rows == [] then {} else StillHidden(w, rows[0]) + HiddenIn(w, rows[1..])
  }

  /** The fields the answer reports as obfuscated: on some row at least, if there are conditions. */
  function Reported(w: Setting, rows: seq<Record>): set<string> {
    if w.conditions == map[] then w.Obfuscated() else HiddenIn(w, rows)
  }

  function ListOf(w: Setting, table: seq<Record>, query: Record, order: string, skip: nat, limit: nat,
    le: (Value, Value) -> bool): ListResult
  {
    if QueryGate(w, query).Some? then Refused(QueryGate(w, query).value)
    else if OrderGate(w, order).Some? then Refused(OrderGate(w, order).value)
    else
      var found := Selected(table, ListDomain(w, query));
      var page := Page(SortRows(found, OrderKeys(order), le), skip, limit);
      Listed(|found|, Shown(w, page), SortedSeq(Reported(w, page)))
  }

  /** The query narrowed by both layers. */
  method NarrowQuery(w: Setting, query: Record) returns (domain: Record)
    ensures domain == ListDomain(w, query)
  {
    domain := query;
    var modelAccess := ModelGroupAccess(w.groupRows, w.groups, w.isAdmin);
    if Read !in modelAccess { domain := MergeQuery(domain, NOTHING); }
    if w.Rules() != [] && !w.isAdmin && !w.isSysModel {
      var readable := RecordRuleReadDomain(w.Rules(), w.resolve);
      domain := MergeQuery(domain, readable);
    }
  }

  /** `list_records`: the gates come before the store is read, the masks after. */
  method ListRecords(w: Setting, table: seq<Record>, query: Record, order: string, skip: nat, limit: nat,
    le: (Value, Value) -> bool) returns (result: ListResult)
    ensures result == ListOf(w, table, query, order, skip, limit, le)
  {
    var refusal := QueryGate(w, query);
    if refusal.None? { refusal := OrderGate(w, order); }
    if refusal.Some? { return Refused(refusal.value); }
    var domain := NarrowQuery(w, query);
    var found := Selected(table, domain);
    var page := Page(SortRows(found, OrderKeys(order), le), skip, limit);
    var rows, hidden := ShowRows(w, page);
    result := Listed(|found|, rows, SortedSeq(if w.conditions == map[] then w.Obfuscated() else hidden));
  }

  /** The loops over the page: masks first, then the conditions on each original row. */
  method ShowRows(w: Setting, page: seq<Record>) returns (rows: seq<Value>, hidden: set<string>)
    ensures rows == Shown(w, page) && hidden == HiddenIn(w, page)
  {
    rows, hidden := [], {};
    for i := 0 to |page|
      invariant |rows| == i
      invariant forall j :: 0 <= j < i ==> rows[j] == View(w, page[j])
      invariant hidden + HiddenIn(w, page[i..]) == HiddenIn(w, page)
    {
      var item, still := ShowItem(w, page[i]);
      rows := rows + [item];
      HiddenStep(w, page, i);
      hidden := hidden + still;
    }
  }

  method ShowItem(w: Setting, record: Record) returns (item: Value, hidden: set<string>)
    ensures item == View(w, record) && hidden == StillHidden(w, record)
  {
    var still;
    item, still := ShowRecord(w, record);
    hidden := set f | f in still;
  }

  lemma HiddenStep(w: Setting, page: seq<Record>, i: nat)
    requires i < |page|
    ensures HiddenIn(w, page[i..]) == StillHidden(w, page[i]) + HiddenIn(w, page[i + 1..])
  {
    assert page[i..][0] == page[i] && page[i..][1..] == page[i + 1..];
  }
}
