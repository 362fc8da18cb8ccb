/** The rows of a list: every readable match, once, in order, page by page. */
module ListPages {
  import opened Values
  import opened Text
  import opened Filters
  import opened RecordRules
  import opened Session
  import opened Views
  import opened ViewLaws
  import opened Listing

  /** A row's copies in a selection are its copies in the table, or none. */
  lemma {:induction false} SelectedCopies(table: seq<Record>, domain: Record, r: Record)
    ensures multiset(Selected(table, domain))[r] == if DomainSelects(r, domain) then multiset(table)[r] else 0
  {
    if table != [] {
      SelectedCopies(table[1..], domain, r);
      assert table == [table[0]] + table[1..];
    }
  }

  lemma {:induction false} InsertCopies(r: Record, rows: seq<Record>, keys: seq<OrderKey>, le: (Value, Value) -> bool)
    ensures multiset(InsertRow(r, rows, keys, le)) == multiset{r} + multiset(rows)
  {
    if rows != [] {
      InsertCopies(r, rows[1..], keys, le);
      assert rows == [rows[0]] + rows[1..];
    }
  }

  /** Sorting loses and adds no row. */
  lemma {:induction false} SortCopies(rows: seq<Record>, keys: seq<OrderKey>, le: (Value, Value) -> bool)
    ensures multiset(SortRows(rows, keys, le)) == multiset(rows)
  {
    if rows != [] {
      SortCopies(rows[1..], keys, le);
      InsertCopies(rows[0], SortRows(rows[1..], keys, le), keys, le);
      assert rows == [rows[0]] + rows[1..];
    }
  }

  // ---- Order ------------------------------------------------------------------

  /** The store's order on values compares any two, ties allowed. */
  ghost predicate Ranks(le: (Value, Value) -> bool) {
    && (forall x, y :: le(x, y) || le(y, x))
    && (forall x, y, z :: le(x, y) && le(y, z) ==> le(x, z))
  }

  lemma {:induction false} NotBeforeTransitive(a: Record, b: Record, c: Record, keys: seq<OrderKey>,
    le: (Value, Value) -> bool)
    requires Ranks(le) && !Before(b, a, keys, le) && !Before(c, b, keys, le)
    ensures !Before(c, a, keys, le)
  {
    if keys != [] {
      var f := keys[0].field;
      var x, y, z := Get(a, f), Get(b, f), Get(c, f);
      assert (le(x, y) || le(y, x)) && (le(y, z) || le(z, y)) && (le(x, z) || le(z, x));
      if le(x, y) && le(y, x) && le(y, z) && le(z, y) { NotBeforeTransitive(a, b, c, keys[1..], le); }
    }
  }

  /** No row sorts strictly before an earlier one. */
  predicate Ascends(rows: seq<Record>, keys: seq<OrderKey>, le: (Value, Value) -> bool) {
    forall i, j :: 0 <= i < j < |rows| ==> !Before(rows[j], rows[i], keys, le)
  }

  lemma {:induction false} NeverBoth(a: Record, b: Record, keys: seq<OrderKey>, le: (Value, Value) -> bool)
    requires Before(a, b, keys, le)
    ensures !Before(b, a, keys, le)
  {
    var f := keys[0].field;
    if le(Get(a, f), Get(b, f)) == le(Get(b, f), Get(a, f)) { NeverBoth(a, b, keys[1..], le); }
  }

  lemma {:induction false} InsertAscends(r: Record, rows: seq<Record>, keys: seq<OrderKey>, le: (Value, Value) -> bool)
    requires Ranks(le) && Ascends(rows, keys, le)
    ensures Ascends(InsertRow(r, rows, keys, le), keys, le)
  {
    var done := InsertRow(r, rows, keys, le);
    if rows != [] && Before(rows[0], r, keys, le) {
      var rest := InsertRow(r, rows[1..], keys, le);
      InsertAscends(r, rows[1..], keys, le);
      InsertCopies(r, rows[1..], keys, le);
      NeverBoth(rows[0], r, keys, le);
      forall q | q in rest ensures !Before(q, rows[0], keys, le) {
        assert q in multiset(rest);
        assert q in rows[1..] || q == r;
      }
    } else if rows != [] {
      forall j | 0 <= j < |rows| ensures !Before(rows[j], r, keys, le) {
        if j > 0 { NotBeforeTransitive(r, rows[0], rows[j], keys, le); }
      }
    }
  }

  lemma {:induction false} SortAscends(rows: seq<Record>, keys: seq<OrderKey>, le: (Value, Value) -> bool)
    requires Ranks(le)
    ensures Ascends(SortRows(rows, keys, le), keys, le)
  {
    if rows != [] {
      SortAscends(rows[1..], keys, le);
      InsertAscends(rows[0], SortRows(rows[1..], keys, le), keys, le);
    }
  }

  // ---- What an order asks for ------------------------------------------------------

  /** One field to sort by, downwards or not, as a normalized order writes it. */
  datatype SortBy = SortBy(field: string, down: bool)

  function Token(s: SortBy): string {
    s.field + (if s.down then ":desc" else ":asc")
  }

  function Tokens(sorts: seq<SortBy>): seq<string> {
    if sorts == [] then [] else [Token(sorts[0])] + Tokens(sorts[1..])
  }

  /** A name that can stand in an order. */
  predicate Sortable(field: string) {
    field != "" && Stripped(field) && ',' !in field && ':' !in field
  }

  function KeysFor(sorts: seq<SortBy>): seq<OrderKey> {
    if sorts == [] then [] else [OrderKey(sorts[0].field, sorts[0].down)] + KeysFor(sorts[1..])
  }

  lemma TokenParts(field: string, way: string)
    requires Sortable(field) && Sortable(way)
    ensures var token := field + [':'] + way;
      Strip(token) == token && SplitOn(token, ':') == [field, way] && Strip(field) == field && Strip(way) == way
  {
    var token := field + [':'] + way;
    assert token[0] == field[0] && token[|token| - 1] == way[|way| - 1];
    StripIsStripped(token);
    StripIsStripped(field);
    StripIsStripped(way);
    SplitPrefix(field, way, ':');
    SplitPrefix(way, "", ':');
  }

  lemma TokenRead(s: SortBy)
    requires Sortable(s.field)
    ensures OrderToken(Token(s)) == [OrderKey(s.field, s.down)] && ',' !in Token(s)
  {
    var way := if s.down then "desc" else "asc";
    assert Token(s) == s.field + [':'] + way;
    TokenParts(s.field, way);
  }

  lemma {:induction false} TokensRead(sorts: seq<SortBy>)
    requires forall s :: s in sorts ==> Sortable(s.field)
    ensures OrderTokens(Tokens(sorts)) == KeysFor(sorts) && forall t :: t in Tokens(sorts) ==> ',' !in t
  {
    if sorts != [] {
      TokenRead(sorts[0]);
      TokensRead(sorts[1..]);
    }
  }

  /** `f:asc,g:desc` is read as that list of keys. */
  lemma OrderRead(sorts: seq<SortBy>)
    requires sorts != [] && forall s :: s in sorts ==> Sortable(s.field)
    ensures OrderKeys(JoinWith(Tokens(sorts), ',')) == KeysFor(sorts)
  {
    TokensRead(sorts);
    SplitJoin(Tokens(sorts), ',');
  }

  /** The first row may stand before the second: no greater in the first field, or no smaller when it sorts downwards,
      and where they tie in order by the rest. */
  predicate InOrder(a: Record, b: Record, sorts: seq<SortBy>, le: (Value, Value) -> bool) {
    sorts == [] ||
    var x, y := Get(a, sorts[0].field), Get(b, sorts[0].field);
    && (if sorts[0].down then le(y, x) else le(x, y))
    && (le(x, y) && le(y, x) ==> InOrder(a, b, sorts[1..], le))
  }

  lemma {:induction false} NotBeforeIsInOrder(a: Record, b: Record, sorts: seq<SortBy>, le: (Value, Value) -> bool)
    requires Ranks(le)
    ensures !Before(b, a, KeysFor(sorts), le) <==> InOrder(a, b, sorts, le)
  {
    if sorts != [] {
      var x, y := Get(a, sorts[0].field), Get(b, sorts[0].field);
      assert le(x, y) || le(y, x);
      assert KeysFor(sorts)[1..] == KeysFor(sorts[1..]);
      NotBeforeIsInOrder(a, b, sorts[1..], le);
    }
  }

  // ---- The whole list and its pages --------------------------------------------

  /** The row matches, and both layers let the actor read it. */
  predicate MayList(w: Setting, query: Record, r: Record) {
    DomainSelects(r, query) && Read in w.ModelAccess() && (w.isAdmin || Read in w.RecordAccess(r))
  }

  /** The rows from `skip` on, `limit` of them if there are so many, all without a limit. */
  function Slice(rows: seq<Record>, skip: nat, limit: nat): seq<Record> {
    if skip > |rows| then []
    else if limit == 0 || skip + limit > |rows| then rows[skip..]
    else rows[skip..skip + limit]
  }

  /** The answer is a page of these rows: their number in all, the view of each row of the page, and as obfuscated every
      mask without conditions, else those some row of the page still hides. */
  ghost predicate IsPageOf(w: Setting, rows: seq<Record>, page: seq<Record>, answer: ListResult) {
    && answer.Listed? && answer.total == |rows| && |answer.rows| == |page|
    && (forall i :: 0 <= i < |page| ==> answer.rows[i] == View(w, page[i]))
    && forall f :: f in answer.obfuscated <==>
         f in w.Obfuscated() && (w.conditions == map[] || exists r :: r in page && !Revealed(w, r, f))
  }

  /** A list answers with the page of all matching rows the actor may read, each as often as the table holds it, in
      order. */
  lemma ListIsComplete(w: Setting, table: seq<Record>, query: Record, order: string, le: (Value, Value) -> bool)
    returns (rows: seq<Record>)
    requires QueryGate(w, query).None? && OrderGate(w, order).None? && Ranks(le)
    ensures forall skip: nat, limit: nat ::
      IsPageOf(w, rows, Slice(rows, skip, limit), ListOf(w, table, query, order, skip, limit, le))
    ensures Ascends(rows, OrderKeys(order), le)
    ensures forall r :: multiset(rows)[r] == if MayList(w, query, r) then multiset(table)[r] else 0
  {
    var found := Selected(table, ListDomain(w, query));
    rows := SortRows(found, OrderKeys(order), le);
    SortCopies(found, OrderKeys(order), le);
    SortAscends(found, OrderKeys(order), le);
    assert |rows| == |multiset(rows)| == |multiset(found)| == |found|;
    forall skip: nat, limit: nat
      ensures IsPageOf(w, rows, Slice(rows, skip, limit), ListOf(w, table, query, order, skip, limit, le))
    {
      PageAnswers(w, rows, skip, limit);
    }
    forall r ensures multiset(rows)[r] == if MayList(w, query, r) then multiset(table)[r] else 0 {
      SelectedCopies(table, ListDomain(w, query), r);
      ListedRows(w, query, r);
    }
  }

  lemma PageAnswers(w: Setting, rows: seq<Record>, skip: nat, limit: nat)
    ensures var page := Page(rows, skip, limit);
      IsPageOf(w, rows, Slice(rows, skip, limit), Listed(|rows|, Shown(w, page), SortedSeq(Reported(w, page))))
  {
    var page := Page(rows, skip, limit);
    PageIs(rows, skip, limit);
    forall f
      ensures f in Reported(w, page) <==>
        f in w.Obfuscated() && (w.conditions == map[] || exists r :: r in page && !Revealed(w, r, f))
    {
      ReportedAre(w, page, f);
    }
  }

  /** Every row of an ordered list stands in order with all that follow it. */
  lemma ListIsOrdered(w: Setting, table: seq<Record>, query: Record, sorts: seq<SortBy>, le: (Value, Value) -> bool)
    returns (rows: seq<Record>)
    requires sorts != [] && (forall s :: s in sorts ==> Sortable(s.field)) && Ranks(le)
    requires QueryGate(w, query).None? && OrderGate(w, JoinWith(Tokens(sorts), ',')).None?
    ensures forall skip: nat, limit: nat ::
      IsPageOf(w, rows, Slice(rows, skip, limit),
               ListOf(w, table, query, JoinWith(Tokens(sorts), ','), skip, limit, le))
    ensures forall i, j :: 0 <= i < j < |rows| ==> InOrder(rows[i], rows[j], sorts, le)
  {
    rows := ListIsComplete(w, table, query, JoinWith(Tokens(sorts), ','), le);
    OrderRead(sorts);
    forall i, j | 0 <= i < j < |rows| ensures InOrder(rows[i], rows[j], sorts, le) {
      NotBeforeIsInOrder(rows[i], rows[j], sorts, le);
    }
  }

  lemma PageIs(rows: seq<Record>, skip: nat, limit: nat)
    ensures Page(rows, skip, limit) == Slice(rows, skip, limit)
    ensures var left := if skip <= |rows| then |rows| - skip else 0;
      |Slice(rows, skip, limit)| == if limit == 0 || left < limit then left else limit
  {}

  /** Without conditions the answer reports every obfuscated mask, else those some row of the page still hides. */
  lemma ReportedAre(w: Setting, rows: seq<Record>, f: string)
    ensures f in Reported(w, rows) <==>
      f in w.Obfuscated() && (w.conditions == map[] || exists r :: r in rows && !Revealed(w, r, f))
  {
    if w.conditions != map[] { HiddenInSome(w, rows, f); }
  }

  lemma {:induction false} HiddenInSome(w: Setting, rows: seq<Record>, f: string)
    ensures f in HiddenIn(w, rows) <==> f in w.Obfuscated() && exists r :: r in rows && !Revealed(w, r, f)
  {
    if rows != [] {
      assert rows == [rows[0]] + rows[1..];
      HiddenInSome(w, rows[1..], f);
      UnrevealedIs(w, rows[0], SortedSeq(w.Obfuscated()));
    }
  }

  /** Two pages in a row show what one page of both lengths shows; the last, without a limit, shows the rest. */
  lemma PagesJoin(rows: seq<Record>, skip: nat, first: nat, next: nat)
    requires first > 0
    ensures Page(rows, skip, first) + Page(rows, skip + first, next)
      == Page(rows, skip, if next == 0 then 0 else first + next)
  {
  }
}
