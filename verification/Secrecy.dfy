/** What an actor may not see cannot be learnt from a list: tables that differ in hidden fields give one answer. */
module Secrecy {
  import opened Values
  import opened Text
  import opened Paths
  import opened Filters
  import opened FieldAcl
  import opened RecordRules
  import opened Session
  import opened Views
  import opened Listing

  // ---- Lists of indistinguishable rows ----------------------------------------

  /** A relation between records, row by row between tables. */
  ghost predicate Paired(alike: (Record, Record) -> bool, s: seq<Record>, t: seq<Record>) {
    |s| == |t| && forall i :: 0 <= i < |s| ==> alike(s[i], t[i])
  }

  /** Related records hold the same under every sort key. */
  ghost predicate SameSortKeys(alike: (Record, Record) -> bool, keys: seq<OrderKey>) {
    forall a, b :: alike(a, b) ==> forall k :: k in keys ==> Get(a, k.field) == Get(b, k.field)
  }

  ghost predicate SameVerdict(alike: (Record, Record) -> bool, domain: Record) {
    forall a, b :: alike(a, b) ==> DomainSelects(a, domain) == DomainSelects(b, domain)
  }

  /** Related records are shown alike. */
  ghost predicate SameShown(w: Setting, alike: (Record, Record) -> bool) {
    forall a, b :: alike(a, b) ==> View(w, a) == View(w, b) && StillHidden(w, a) == StillHidden(w, b)
  }

  lemma {:induction false} SelectedPaired(alike: (Record, Record) -> bool, s: seq<Record>, t: seq<Record>,
    domain: Record)
    requires Paired(alike, s, t) && SameVerdict(alike, domain)
    ensures Paired(alike, Selected(s, domain), Selected(t, domain))
  {
    if s != [] {
      assert alike(s[0], t[0]);
      SelectedPaired(alike, s[1..], t[1..], domain);
    }
  }

  lemma {:induction false} BeforePaired(alike: (Record, Record) -> bool, a: Record, a': Record, b: Record, b': Record,
    keys: seq<OrderKey>, le: (Value, Value) -> bool)
    requires alike(a, a') && alike(b, b') && SameSortKeys(alike, keys)
    ensures Before(a, b, keys, le) == Before(a', b', keys, le)
  {
    if keys != [] {
      assert keys[0] in keys && forall k :: k in keys[1..] ==> k in keys;
      BeforePaired(alike, a, a', b, b', keys[1..], le);
    }
  }

  lemma {:induction false} InsertPaired(alike: (Record, Record) -> bool, r: Record, r': Record, s: seq<Record>,
    t: seq<Record>, keys: seq<OrderKey>, le: (Value, Value) -> bool)
    requires alike(r, r') && Paired(alike, s, t) && SameSortKeys(alike, keys)
    ensures Paired(alike, InsertRow(r, s, keys, le), InsertRow(r', t, keys, le))
  {
    if s != [] {
      BeforePaired(alike, s[0], t[0], r, r', keys, le);
      InsertPaired(alike, r, r', s[1..], t[1..], keys, le);
    }
  }

  /** Sorting on keys under which related records hold the same keeps them side by side. */
  lemma {:induction false} SortPaired(alike: (Record, Record) -> bool, s: seq<Record>, t: seq<Record>,
    keys: seq<OrderKey>, le: (Value, Value) -> bool)
    requires Paired(alike, s, t) && SameSortKeys(alike, keys)
    ensures Paired(alike, SortRows(s, keys, le), SortRows(t, keys, le))
  {
    if s != [] {
      SortPaired(alike, s[1..], t[1..], keys, le);
      InsertPaired(alike, s[0], t[0], SortRows(s[1..], keys, le), SortRows(t[1..], keys, le), keys, le);
    }
  }

  lemma {:induction false} HiddenPaired(w: Setting, alike: (Record, Record) -> bool, s: seq<Record>, t: seq<Record>)
    requires Paired(alike, s, t) && SameShown(w, alike)
    ensures HiddenIn(w, s) == HiddenIn(w, t)
  {
    if s != [] {
      assert alike(s[0], t[0]);
      HiddenPaired(w, alike, s[1..], t[1..]);
    }
  }

  /** Tables of records no domain, sort key or view can tell apart give one answer. */
  lemma ListPaired(w: Setting, alike: (Record, Record) -> bool, s: seq<Record>, t: seq<Record>, query: Record,
    order: string, skip: nat, limit: nat, le: (Value, Value) -> bool)
    requires Paired(alike, s, t) && SameVerdict(alike, ListDomain(w, query))
    requires SameSortKeys(alike, OrderKeys(order)) && SameShown(w, alike)
    ensures ListOf(w, s, query, order, skip, limit, le) == ListOf(w, t, query, order, skip, limit, le)
  {
    var domain, keys := ListDomain(w, query), OrderKeys(order);
    SelectedPaired(alike, s, t, domain);
    SortPaired(alike, Selected(s, domain), Selected(t, domain), keys, le);
    var p, q := SortRows(Selected(s, domain), keys, le), SortRows(Selected(t, domain), keys, le);
    PagePaired(alike, p, q, skip, limit);
    ShownPaired(w, alike, Page(p, skip, limit), Page(q, skip, limit));
    HiddenPaired(w, alike, Page(p, skip, limit), Page(q, skip, limit));
  }

  lemma PagePaired(alike: (Record, Record) -> bool, s: seq<Record>, t: seq<Record>, skip: nat, limit: nat)
    requires Paired(alike, s, t)
    ensures Paired(alike, Page(s, skip, limit), Page(t, skip, limit))
  {}

  lemma ShownPaired(w: Setting, alike: (Record, Record) -> bool, s: seq<Record>, t: seq<Record>)
    requires Paired(alike, s, t) && SameShown(w, alike)
    ensures Shown(w, s) == Shown(w, t)
  {
    forall i | 0 <= i < |s| ensures Shown(w, s)[i] == Shown(w, t)[i] { assert alike(s[i], t[i]); }
  }

  // ---- Top-level masks --------------------------------------------------------

  /** A top-level field some mask names; a denied `*` masks them all. */
  predicate Masked(w: Setting, key: string) {
    WILDCARD in w.Denied() || (PlainKey(key) && key in w.Masks())
  }

  /** Masked, and not brought back on this record by a condition. */
  predicate Hidden(w: Setting, record: Record, key: string) {
    Masked(w, key) && !(key in w.Obfuscated() && Revealed(w, record, key))
  }

  /** The same keys, and the same values where the actor may look. */
  predicate Alike(w: Setting, a: Record, b: Record) {
    a.Keys == b.Keys && forall k :: k in a && !(Hidden(w, a, k) && Hidden(w, b, k)) ==> a[k] == b[k]
  }

  /** Neither a rule that could decide a row nor a field's condition looks at a masked field. */
  predicate RulesAvoidMasked(w: Setting) {
    && (forall rule, k :: rule in w.Rules() && k in KeysRead(Resolved(rule, w.resolve)) ==> !Masked(w, k))
    && (forall f, k :: f in w.conditions && k in KeysRead(w.resolve(w.conditions[f])) ==> !Masked(w, k))
  }

  /** A masked field is covered by the masks the gates compare with. */
  lemma MaskedIsBlocked(w: Setting, k: string)
    requires Masked(w, k)
    ensures Covered(w.Masks(), k)
  {
    var mask := if WILDCARD in w.Denied() then WILDCARD else k;
    assert mask in w.Masks() && PathMatches(mask, k);
  }

  lemma GatedVerdict(w: Setting, a: Record, b: Record, query: Record)
    requires QueryGate(w, query).None? && Alike(w, a, b)
    ensures DomainSelects(a, query) == DomainSelects(b, query)
  {
    if query != map[] {
      GateSeesEveryKeyRead(Dict(query));
      forall k | k in KeysRead(Dict(query)) ensures Get(a, k) == Get(b, k) {
        if Masked(w, k) { MaskedIsBlocked(w, k); }
        assert k !in BlockedFields(w, QueryPaths(Dict(query), ""));
      }
      VerdictDependsOnKeysRead(a, b, Dict(query));
    }
  }

  lemma RuleVerdict(w: Setting, a: Record, b: Record)
    requires RulesAvoidMasked(w) && Alike(w, a, b)
    ensures w.RecordAccess(a) == w.RecordAccess(b)
  {
    forall rule | rule in w.Rules() ensures RuleCovers(rule, a, w.resolve) == RuleCovers(rule, b, w.resolve) {
      VerdictDependsOnKeysRead(a, b, Resolved(rule, w.resolve));
    }
  }

  lemma ConditionVerdict(w: Setting, a: Record, b: Record, f: string)
    requires RulesAvoidMasked(w) && Alike(w, a, b)
    ensures Revealed(w, a, f) == Revealed(w, b, f)
  {
    if f in w.conditions { VerdictDependsOnKeysRead(a, b, w.resolve(w.conditions[f])); }
  }

  // Masking removes every difference the actor could not see.

  /** Dictionaries with the same keys, equal outside the given ones. */
  predicate Differ(a: Value, b: Value, within: set<string>) {
    a.Dict? && b.Dict? && a.entries.Keys == b.entries.Keys &&
    forall k :: k in a.entries && k !in within ==> a.entries[k] == b.entries[k]
  }

  function PlainOnly(fields: seq<string>): set<string> {
    set f | f in fields && PlainKey(f)
  }

  lemma MaskStep(a: Value, b: Value, within: set<string>, f: string)
    requires Differ(a, b, within)
    ensures Differ(DeleteAt(a, Segments(f)), DeleteAt(b, Segments(f)), within - PlainOnly([f]))
    ensures Differ(BlankAt(a, Segments(f)), BlankAt(b, Segments(f)), within - PlainOnly([f]))
  {
    if PlainKey(f) { PlainSegments(f); }
  }

  lemma PlainOnlyStep(within: set<string>, fields: seq<string>)
    requires fields != []
    ensures within - PlainOnly([fields[0]]) - PlainOnly(fields[1..]) == within - PlainOnly(fields)
  {
    assert fields == [fields[0]] + fields[1..];
  }

  lemma {:induction false} DeniedRemoved(a: Value, b: Value, within: set<string>, fields: seq<string>)
    requires Differ(a, b, within)
    ensures Differ(WithoutDenied(a, fields), WithoutDenied(b, fields),
                   if WILDCARD in fields then {} else within - PlainOnly(fields))
    decreases fields
  {
    if fields != [] {
      PlainOnlyStep(within, fields);
      if fields[0] == WILDCARD {
        DeniedRemoved(Dict(map[]), Dict(map[]), {}, fields[1..]);
      } else {
        MaskStep(a, b, within, fields[0]);
        DeniedRemoved(DeleteAt(a, Segments(fields[0])), DeleteAt(b, Segments(fields[0])),
                      within - PlainOnly([fields[0]]), fields[1..]);
      }
    }
  }

  lemma {:induction false} BlanksRemoved(a: Value, b: Value, within: set<string>, fields: seq<string>)
    requires Differ(a, b, within)
    ensures Differ(WithBlanks(a, fields), WithBlanks(b, fields), within - PlainOnly(fields))
    decreases fields
  {
    if fields != [] {
      PlainOnlyStep(within, fields);
      MaskStep(a, b, within, fields[0]);
      BlanksRemoved(BlankAt(a, Segments(fields[0])), BlankAt(b, Segments(fields[0])),
                    within - PlainOnly([fields[0]]), fields[1..]);
    }
  }

  lemma MaskedAlike(w: Setting, a: Record, b: Record)
    requires Alike(w, a, b)
    ensures MaskedView(w.policies, w.Where(), Dict(a)) == MaskedView(w.policies, w.Where(), Dict(b))
  {
    var denied, obfuscated := SortedSeq(w.Denied()), SortedSeq(w.Obfuscated());
    var within := set k | k in a && Masked(w, k);
    DeniedRemoved(Dict(a), Dict(b), within, denied);
    var left := if WILDCARD in denied then {} else within - PlainOnly(denied);
    BlanksRemoved(WithoutDenied(Dict(a), denied), WithoutDenied(Dict(b), denied), left, obfuscated);
    assert left - PlainOnly(obfuscated) == {};
    NoDifference(MaskedView(w.policies, w.Where(), Dict(a)), MaskedView(w.policies, w.Where(), Dict(b)));
  }

  lemma NoDifference(v: Value, u: Value)
    requires Differ(v, u, {})
    ensures v == u
  {
    assert v.entries == u.entries;
  }

  /** The key holds nothing a reveal could reach into. */
  predicate Nulled(v: Value, k: string) {
    v.Dict? && Get(v.entries, k) == Null
  }

  lemma NulledStep(v: Value, f: string, k: string)
    requires Nulled(v, k) || (v.Dict? && f == k && PlainKey(k))
    ensures Nulled(DeleteAt(v, Segments(f)), k) && Nulled(BlankAt(v, Segments(f)), k)
  {
    var p := Segments(f);
    if f == k && PlainKey(k) { PlainSegments(k); }
    if p != [] && p[0] == k && |p| > 1 && k in v.entries { assert !HasPath(v.entries[k], p[1..]); }
    if p != [] && p[0] != k { assert Get(SetAt(v, p, Null).entries, k) == Get(v.entries, k); }
  }

  lemma {:induction false} DeniedNulled(v: Value, fields: seq<string>, k: string)
    requires Nulled(v, k) || (v.Dict? && (WILDCARD in fields || (k in fields && PlainKey(k))))
    ensures Nulled(WithoutDenied(v, fields), k)
    decreases fields
  {
    if fields != [] {
      var f := fields[0];
      if f == WILDCARD {
        DeniedNulled(Dict(map[]), fields[1..], k);
      } else {
        if Nulled(v, k) || (f == k && PlainKey(k)) { NulledStep(v, f, k); }
        DeniedNulled(DeleteAt(v, Segments(f)), fields[1..], k);
      }
    }
  }

  lemma {:induction false} BlankNulled(v: Value, fields: seq<string>, k: string)
    requires Nulled(v, k) || (v.Dict? && k in fields && PlainKey(k))
    ensures Nulled(WithBlanks(v, fields), k)
    decreases fields
  {
    if fields != [] {
      var f := fields[0];
      if Nulled(v, k) || (f == k && PlainKey(k)) { NulledStep(v, f, k); }
      BlankNulled(BlankAt(v, Segments(f)), fields[1..], k);
    }
  }

  lemma MaskedIsNulled(w: Setting, record: Record, k: string)
    requires Masked(w, k)
    ensures Nulled(MaskedView(w.policies, w.Where(), Dict(record)), k)
  {
    var denied, obfuscated := SortedSeq(w.Denied()), SortedSeq(w.Obfuscated());
    var v := WithoutDenied(Dict(record), denied);
    DeniedDict(Dict(record), denied);
    if WILDCARD in w.Denied() || k in w.Denied() { DeniedNulled(Dict(record), denied, k); }
    BlankNulled(v, obfuscated, k);
  }

  lemma {:induction false} DeniedDict(v: Value, fields: seq<string>)
    requires v.Dict?
    ensures WithoutDenied(v, fields).Dict?
    decreases fields
  {
    if fields != [] {
      DeniedDict(if fields[0] == WILDCARD then Dict(map[]) else DeleteAt(v, Segments(fields[0])), fields[1..]);
    }
  }

  lemma RevealStep(w: Setting, v: Value, a: Record, b: Record, f: string)
    requires Alike(w, a, b) && RulesAvoidMasked(w) && f in w.Obfuscated() && Canonical(f)
    requires forall k :: Hidden(w, a, k) ==> Nulled(v, k)
    ensures RevealOne(w, v, a, f) == RevealOne(w, v, b, f)
    ensures forall k :: Hidden(w, a, k) ==> Nulled(RevealOne(w, v, a, f), k)
  {
    var p := Segments(f);
    var k := p[0];
    ConditionVerdict(w, a, b, f);
    ConditionVerdict(w, a, b, k);
    if Hidden(w, a, k) {
      if Revealed(w, a, f) {
        assert |p| > 1 && Nulled(v, k);
        NothingSet(v, p, ReadAt(Dict(a), p));
        NothingSet(v, p, ReadAt(Dict(b), p));
      }
    } else {
      assert Get(a, k) == Get(b, k);
      assert ReadAt(Dict(a), p) == ReadAt(Dict(b), p);
      if Revealed(w, a, f) { NulledElsewhere(v, p, ReadAt(Dict(a), p)); }
    }
  }

  lemma NothingSet(v: Value, p: Path, x: Value)
    requires |p| > 1 && Nulled(v, p[0])
    ensures SetAt(v, p, x) == v
  {
    if v.Dict? && p[0] in v.entries { assert v.entries[p[0] := v.entries[p[0]]] == v.entries; }
  }

  lemma NulledElsewhere(v: Value, p: Path, x: Value)
    requires p != []
    ensures forall j :: j != p[0] && Nulled(v, j) ==> Nulled(SetAt(v, p, x), j)
  {}

  /** Reveals read the same from both records: only fields that are not hidden come back. */
  lemma {:induction false} RevealsAlike(w: Setting, v: Value, a: Record, b: Record, fields: seq<string>)
    requires Alike(w, a, b) && RulesAvoidMasked(w)
    requires forall f :: f in fields ==> f in w.Obfuscated() && Canonical(f)
    requires forall k :: Hidden(w, a, k) ==> Nulled(v, k)
    ensures WithReveals(w, v, a, fields) == WithReveals(w, v, b, fields)
    decreases fields
  {
    if fields != [] {
      RevealStep(w, v, a, b, fields[0]);
      RevealsAlike(w, RevealOne(w, v, a, fields[0]), a, b, fields[1..]);
    }
  }

  /** Obfuscated paths are written canonically: no empty piece between dots. */
  predicate CanonicalMasks(w: Setting) {
    forall f :: f in w.Obfuscated() ==> Canonical(f)
  }

  lemma ViewAlike(w: Setting, a: Record, b: Record)
    requires Alike(w, a, b) && RulesAvoidMasked(w) && CanonicalMasks(w)
    ensures View(w, a) == View(w, b)
  {
    MaskedAlike(w, a, b);
    forall k | Hidden(w, a, k) ensures Nulled(MaskedView(w.policies, w.Where(), Dict(a)), k) {
      MaskedIsNulled(w, a, k);
    }
    RevealsAlike(w, MaskedView(w.policies, w.Where(), Dict(a)), a, b, SortedSeq(w.Obfuscated()));
  }

  lemma {:induction false} UnrevealedAlike(w: Setting, a: Record, b: Record, fields: seq<string>)
    requires RulesAvoidMasked(w) && Alike(w, a, b)
    ensures Unrevealed(w, a, fields) == Unrevealed(w, b, fields)
  {
    if fields != [] {
      ConditionVerdict(w, a, b, fields[0]);
      UnrevealedAlike(w, a, b, fields[1..]);
    }
  }

  /** What a list answers, refusals, rows, order, count and values alike, never depends on a hidden field. */
  lemma ListNoninterference(w: Setting, s: seq<Record>, t: seq<Record>, query: Record, order: string,
    skip: nat, limit: nat, le: (Value, Value) -> bool)
    requires Paired((a, b) => Alike(w, a, b), s, t) && RulesAvoidMasked(w) && CanonicalMasks(w)
    ensures ListOf(w, s, query, order, skip, limit, le) == ListOf(w, t, query, order, skip, limit, le)
  {
    if QueryGate(w, query).None? && OrderGate(w, order).None? {
      var alike := (a, b) => Alike(w, a, b);
      forall a, b | alike(a, b)
        ensures DomainSelects(a, ListDomain(w, query)) == DomainSelects(b, ListDomain(w, query))
        ensures forall k :: k in OrderKeys(order) ==> Get(a, k.field) == Get(b, k.field)
        ensures View(w, a) == View(w, b) && StillHidden(w, a) == StillHidden(w, b)
      {
        RowsAlike(w, a, b, query, order);
      }
      ListPaired(w, alike, s, t, query, order, skip, limit, le);
    }
  }

  lemma RowsAlike(w: Setting, a: Record, b: Record, query: Record, order: string)
    requires Alike(w, a, b) && RulesAvoidMasked(w) && CanonicalMasks(w)
    requires QueryGate(w, query).None? && OrderGate(w, order).None?
    ensures DomainSelects(a, ListDomain(w, query)) == DomainSelects(b, ListDomain(w, query))
    ensures forall k :: k in OrderKeys(order) ==> Get(a, k.field) == Get(b, k.field)
    ensures View(w, a) == View(w, b) && StillHidden(w, a) == StillHidden(w, b)
  {
    GatedVerdict(w, a, b, query);
    RuleVerdict(w, a, b);
    ListedRows(w, query, a);
    ListedRows(w, query, b);
    ViewAlike(w, a, b);
    UnrevealedAlike(w, a, b, SortedSeq(w.Obfuscated()));
    SortsAlike(w, a, b, order);
  }

  lemma SortsAlike(w: Setting, a: Record, b: Record, order: string)
    requires Alike(w, a, b) && CanonicalMasks(w) && OrderGate(w, order).None?
    ensures forall k :: k in OrderKeys(order) ==> Get(a, k.field) == Get(b, k.field)
  {
    var keys := OrderKeys(order);
    forall k | k in keys ensures Get(a, k.field) == Get(b, k.field) {
      if Masked(w, k.field) { MaskedIsBlocked(w, k.field); }
      assert k.field !in BlockedFields(w, set j | j in keys :: j.field);
    }
  }
}
