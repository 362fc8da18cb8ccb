/** The same for masks at any depth, as long as no filter or order looks at a field a mask reaches into. */
module NestedSecrecy {
  import opened Values
  import opened Text
  import opened Paths
  import opened Filters
  import opened FieldAcl
  import opened RecordRules
  import opened Session
  import opened Views
  import opened WriteFields
  import opened DraftLaws
  import opened ViewLaws
  import opened Listing
  import opened Secrecy
  import opened Requests

  /** The same shape and the same values, except at and below the listed paths, which both have or both lack. */
  predicate EqualOutside(v: Value, w: Value, paths: set<Path>) {
    if [] in paths then true
    else if v.Dict? && w.Dict? then
      && v.entries.Keys == w.entries.Keys
      && forall k :: k in v.entries ==> EqualOutside(v.entries[k], w.entries[k], Below(paths, k))
    else v == w
  }

  lemma BelowWithout(paths: set<Path>, p: Path, j: string)
    requires p != []
    ensures Below(paths - {p}, j) == if p[0] == j then Below(paths, j) - {p[1..]} else Below(paths, j)
  {
    assert p == [p[0]] + p[1..];
    forall u ensures u in Below(paths - {p}, j) <==> u in Below(paths, j) && !(p[0] == j && u == p[1..]) {
      BelowMember(paths - {p}, j, u);
      BelowMember(paths, j, u);
      assert ([j] + u)[1..] == u;
    }
  }

  lemma {:induction false} EqualOutsideNothing(v: Value, w: Value)
    requires EqualOutside(v, w, {})
    ensures v == w
  {
    if v.Dict? && w.Dict? {
      forall k | k in v.entries ensures v.entries[k] == w.entries[k] {
        assert Below({}, k) == {};
        EqualOutsideNothing(v.entries[k], w.entries[k]);
      }
      assert v.entries == w.entries;
    }
  }

  /** Deleting a listed path takes it off the list. */
  lemma {:induction false} DeletedOutside(v: Value, w: Value, p: Path, paths: set<Path>)
    requires p != [] && EqualOutside(v, w, paths)
    ensures EqualOutside(DeleteAt(v, p), DeleteAt(w, p), paths - {p})
    decreases |p|
  {
    if [] !in paths && v.Dict? && w.Dict? {
      var r, s, k := DeleteAt(v, p), DeleteAt(w, p), p[0];
      forall j | j in r.entries ensures EqualOutside(r.entries[j], s.entries[j], Below(paths - {p}, j)) {
        BelowWithout(paths, p, j);
        if j == k { DeletedOutside(v.entries[k], w.entries[k], p[1..], Below(paths, k)); }
      }
    }
  }

  lemma BlankKey(v: Value, p: Path)
    requires v.Dict? && p != []
    ensures BlankAt(v, p) == if p[0] !in v.entries then v
      else Dict(v.entries[p[0] := if |p| == 1 then Null else BlankAt(v.entries[p[0]], p[1..])])
  {
    if p[0] in v.entries && |p| > 1 && !HasPath(v.entries[p[0]], p[1..]) {
      assert v.entries[p[0] := v.entries[p[0]]] == v.entries;
    }
  }

  lemma {:induction false} BlankedOutside(v: Value, w: Value, p: Path, paths: set<Path>)
    requires p != [] && EqualOutside(v, w, paths)
    ensures EqualOutside(BlankAt(v, p), BlankAt(w, p), paths - {p})
    decreases |p|
  {
    if [] !in paths && v.Dict? && w.Dict? {
      var r, s, k := BlankAt(v, p), BlankAt(w, p), p[0];
      BlankKey(v, p);
      BlankKey(w, p);
      forall j | j in r.entries ensures EqualOutside(r.entries[j], s.entries[j], Below(paths - {p}, j)) {
        BelowWithout(paths, p, j);
        if j == k && |p| > 1 { BlankedOutside(v.entries[k], w.entries[k], p[1..], Below(paths, k)); }
      }
    }
  }

  lemma {:induction false} DeniedOutside(v: Value, w: Value, fields: seq<string>, paths: set<Path>)
    requires EqualOutside(v, w, paths) && forall f :: f in fields ==> f != WILDCARD && Segments(f) != []
    ensures EqualOutside(WithoutDenied(v, fields), WithoutDenied(w, fields), paths - SegmentSet(fields))
    decreases fields
  {
    if fields == [] {
      assert paths - SegmentSet(fields) == paths;
    } else {
      var p := Segments(fields[0]);
      assert fields == [fields[0]] + fields[1..] && fields[0] in fields && forall f :: f in fields[1..] ==> f in fields;
      SegmentSetCons(fields[0], fields[1..]);
      DeletedOutside(v, w, p, paths);
      DeniedOutside(DeleteAt(v, p), DeleteAt(w, p), fields[1..], paths - {p});
      assert paths - {p} - SegmentSet(fields[1..]) == paths - SegmentSet(fields);
    }
  }

  lemma {:induction false} BlanksOutside(v: Value, w: Value, fields: seq<string>, paths: set<Path>)
    requires EqualOutside(v, w, paths) && forall f :: f in fields ==> Segments(f) != []
    ensures EqualOutside(WithBlanks(v, fields), WithBlanks(w, fields), paths - SegmentSet(fields))
    decreases fields
  {
    if fields == [] {
      assert paths - SegmentSet(fields) == paths;
    } else {
      var p := Segments(fields[0]);
      assert fields == [fields[0]] + fields[1..] && fields[0] in fields && forall f :: f in fields[1..] ==> f in fields;
      SegmentSetCons(fields[0], fields[1..]);
      BlankedOutside(v, w, p, paths);
      BlanksOutside(BlankAt(v, p), BlankAt(w, p), fields[1..], paths - {p});
      assert paths - {p} - SegmentSet(fields[1..]) == paths - SegmentSet(fields);
    }
  }

  lemma {:induction false} ReadOutside(v: Value, w: Value, p: Path, paths: set<Path>)
    requires p != [] && EqualOutside(v, w, paths) && forall q :: q in paths ==> Unrelated(q, p)
    ensures ReadAt(v, p) == ReadAt(w, p)
    decreases |p|
  {
    assert [] !in paths by { assert [] <= p; }
    if v.Dict? && w.Dict? {
      var k, t := p[0], p[1..];
      assert p == [k] + t;
      var below := Below(paths, k);
      forall q | q in below ensures t != [] && Unrelated(q, t) {
        BelowMember(paths, k, q);
        assert Unrelated([k] + q, [k] + t);
        assert t == [] ==> [k] + t <= [k] + q;
        assert q <= t ==> [k] + q <= [k] + t;
        assert t <= q ==> [k] + t <= [k] + q;
      }
      if k in v.entries {
        if t == [] {
          assert below == {};
          EqualOutsideNothing(v.entries[k], w.entries[k]);
        } else {
          ReadOutside(v.entries[k], w.entries[k], t, below);
        }
      }
    }
  }

  // ---- Hidden paths ------------------------------------------------------------------------

  /** A condition brings back the field or something above it, and all below with it. */
  predicate BroughtBack(w: Setting, record: Record, f: string) {
    exists g :: g in w.Obfuscated() && Revealed(w, record, g) && Segments(g) <= Segments(f)
  }

  /** What the actor is not shown of the record. */
  function HiddenPaths(w: Setting, record: Record): set<Path> {
    set f | f in NulledMasks(w, record) && !BroughtBack(w, record, f) :: Segments(f)
  }

  /** The same but for what is hidden of both. */
  predicate AlikeDeep(w: Setting, a: Record, b: Record) {
    EqualOutside(Dict(a), Dict(b), HiddenPaths(w, a) * HiddenPaths(w, b))
  }

  /** No mask names the key or reaches below it. */
  predicate Untouched(w: Setting, k: string) {
    forall f :: f in w.Masks() ==> Segments(f) != [] && Segments(f)[0] != k
  }

  /** Neither the query nor the order, no rule that could decide a row and no condition looks at a masked field or at
      one a mask reaches into. */
  predicate LooksElsewhere(w: Setting, query: Record, order: string) {
    && (forall k :: k in KeysRead(Dict(query)) ==> Untouched(w, k))
    && (forall k :: k in OrderKeys(order) ==> Untouched(w, k.field))
    && (forall rule, k :: rule in w.Rules() && k in KeysRead(Resolved(rule, w.resolve)) ==> Untouched(w, k))
    && (forall f, k :: f in w.conditions && k in KeysRead(w.resolve(w.conditions[f])) ==> Untouched(w, k))
  }

  lemma UntouchedKey(w: Setting, a: Record, b: Record, k: string)
    requires AlikeDeep(w, a, b) && Untouched(w, k)
    ensures Get(a, k) == Get(b, k)
  {
    var paths := HiddenPaths(w, a) * HiddenPaths(w, b);
    forall q | q in paths ensures q != [] && q[0] != k {
      var f :| f in NulledMasks(w, a) && Segments(f) == q;
    }
    assert Below(paths, k) == {};
    if k in a { EqualOutsideNothing(a[k], b[k]); }
  }

  lemma SameReveals(w: Setting, a: Record, b: Record, query: Record, order: string, f: string)
    requires AlikeDeep(w, a, b) && LooksElsewhere(w, query, order)
    ensures Revealed(w, a, f) == Revealed(w, b, f)
  {
    if f in w.conditions {
      forall k | k in KeysRead(w.resolve(w.conditions[f])) ensures Get(a, k) == Get(b, k) { UntouchedKey(w, a, b, k); }
      VerdictDependsOnKeysRead(a, b, w.resolve(w.conditions[f]));
    }
  }

  lemma DeepVerdict(w: Setting, a: Record, b: Record, query: Record, order: string)
    requires AlikeDeep(w, a, b) && LooksElsewhere(w, query, order)
    ensures DomainSelects(a, ListDomain(w, query)) == DomainSelects(b, ListDomain(w, query))
    ensures forall k :: k in OrderKeys(order) ==> Get(a, k.field) == Get(b, k.field)
  {
    forall k | k in KeysRead(Dict(query)) ensures Get(a, k) == Get(b, k) { UntouchedKey(w, a, b, k); }
    VerdictDependsOnKeysRead(a, b, Dict(query));
    forall rule | rule in w.Rules() ensures RuleCovers(rule, a, w.resolve) == RuleCovers(rule, b, w.resolve) {
      forall k | k in KeysRead(Resolved(rule, w.resolve)) ensures Get(a, k) == Get(b, k) { UntouchedKey(w, a, b, k); }
      VerdictDependsOnKeysRead(a, b, Resolved(rule, w.resolve));
    }
    ListedRows(w, query, a);
    ListedRows(w, query, b);
    forall k | k in OrderKeys(order) ensures Get(a, k.field) == Get(b, k.field) { UntouchedKey(w, a, b, k.field); }
  }

  // ---- What is hidden is not in the view ------------------------------------------------------

  ghost predicate NullAt(v: Value, paths: set<Path>) {
    forall h :: h in paths ==> h != [] && ReadAt(v, h) == Null
  }

  /** Both masked records are one, with nothing at the hidden paths. */
  lemma MaskedDeep(w: Setting, a: Record, b: Record, paths: set<Path>)
    requires CanonicalReadMasks(w) && EqualOutside(Dict(a), Dict(b), paths) && paths <= SegmentsOf(w.Masks())
    ensures MaskedView(w.policies, w.Where(), Dict(a)) == MaskedView(w.policies, w.Where(), Dict(b))
    ensures NullAt(MaskedView(w.policies, w.Where(), Dict(a)), paths)
  {
    var denied, obfuscated := SortedSeq(w.Denied()), SortedSeq(w.Obfuscated());
    DeniedOutside(Dict(a), Dict(b), denied, paths);
    BlanksOutside(WithoutDenied(Dict(a), denied), WithoutDenied(Dict(b), denied), obfuscated,
                  paths - SegmentSet(denied));
    assert paths - SegmentSet(denied) - SegmentSet(obfuscated) == {} by {
      assert SegmentsOf(w.Masks()) == SegmentSet(denied) + SegmentSet(obfuscated);
    }
    EqualOutsideNothing(MaskedView(w.policies, w.Where(), Dict(a)), MaskedView(w.policies, w.Where(), Dict(b)));
    forall h | h in paths ensures h != [] && ReadAt(MaskedView(w.policies, w.Where(), Dict(a)), h) == Null {
      assert h in MaskPaths(w, a);
      MaskPathsNamed(w, a, h);
      MaskedReadsNull(w, a, h);
    }
  }

  /** A reveal that no hidden path lies below gives one value, and still nothing at the hidden paths. */
  lemma RevealDeep(v: Value, a: Record, b: Record, p: Path, paths: set<Path>)
    requires p != [] && EqualOutside(Dict(a), Dict(b), paths) && NullAt(v, paths)
    requires forall h :: h in paths ==> !(p <= h)
    ensures SetAt(v, p, ReadAt(Dict(a), p)) == SetAt(v, p, ReadAt(Dict(b), p))
    ensures NullAt(SetAt(v, p, ReadAt(Dict(a), p)), paths)
  {
    var x := ReadAt(Dict(a), p);
    if h :| h in paths && h <= p {
      assert h < p;
      assert !ParentIsDict(v, p) by { if ParentIsDict(v, p) { NoDictAtNull(v, h, p); } }
      ReadOfSet(v, p, x);
      ReadOfSet(v, p, ReadAt(Dict(b), p));
    } else {
      ReadOutside(Dict(a), Dict(b), p, paths);
      forall h | h in paths ensures ReadAt(SetAt(v, p, x), h) == Null { SetElsewhere(v, p, x, h); }
    }
  }

  lemma NoDictAtNull(v: Value, h: Path, p: Path)
    requires h != [] && h < p && ParentIsDict(v, p)
    ensures ReadAt(v, h) != Null
  {
    DictAbove(v, h, p);
  }

  lemma {:induction false} RevealsDeep(w: Setting, v: Value, a: Record, b: Record, fields: seq<string>,
    paths: set<Path>)
    requires EqualOutside(Dict(a), Dict(b), paths) && NullAt(v, paths)
    requires forall f :: f in fields ==> Segments(f) != [] && Revealed(w, a, f) == Revealed(w, b, f)
    requires forall f, h :: f in fields && Revealed(w, a, f) && h in paths ==> !(Segments(f) <= h)
    ensures WithReveals(w, v, a, fields) == WithReveals(w, v, b, fields)
    decreases fields
  {
    if fields != [] {
      var f := fields[0];
      assert f in fields && forall g :: g in fields[1..] ==> g in fields;
      if Revealed(w, a, f) { RevealDeep(v, a, b, Segments(f), paths); }
      RevealsDeep(w, RevealOne(w, v, a, f), a, b, fields[1..], paths);
    }
  }

  lemma HiddenIsMasked(w: Setting, a: Record)
    ensures HiddenPaths(w, a) <= SegmentsOf(w.Masks())
    ensures forall f, h :: f in w.Obfuscated() && Revealed(w, a, f) && h in HiddenPaths(w, a) ==> !(Segments(f) <= h)
  {
    forall h | h in HiddenPaths(w, a)
      ensures h in SegmentsOf(w.Masks())
      ensures forall f :: f in w.Obfuscated() && Revealed(w, a, f) ==> !(Segments(f) <= h)
    {
      var g :| g in NulledMasks(w, a) && !BroughtBack(w, a, g) && Segments(g) == h;
      assert g in w.Masks();
    }
  }

  lemma ViewDeep(w: Setting, a: Record, b: Record, query: Record, order: string)
    requires AlikeDeep(w, a, b) && LooksElsewhere(w, query, order) && CanonicalReadMasks(w)
    ensures View(w, a) == View(w, b) && StillHidden(w, a) == StillHidden(w, b)
  {
    var paths, obfuscated := HiddenPaths(w, a) * HiddenPaths(w, b), SortedSeq(w.Obfuscated());
    HiddenIsMasked(w, a);
    MaskedDeep(w, a, b, paths);
    forall f ensures Revealed(w, a, f) == Revealed(w, b, f) { SameReveals(w, a, b, query, order, f); }
    assert forall f :: f in obfuscated ==> Canonical(f);
    RevealsDeep(w, MaskedView(w.policies, w.Where(), Dict(a)), a, b, obfuscated, paths);
    StillHiddenDeep(w, a, b);
  }

  lemma StillHiddenDeep(w: Setting, a: Record, b: Record)
    requires forall f :: Revealed(w, a, f) == Revealed(w, b, f)
    ensures StillHidden(w, a) == StillHidden(w, b)
  {
    UnrevealedIs(w, a, SortedSeq(w.Obfuscated()));
    UnrevealedIs(w, b, SortedSeq(w.Obfuscated()));
  }

  /** Whatever the depth of the masks: if query, order, rules and conditions look at no field a mask names or reaches
      into, a list never depends on what is hidden. */
  lemma NestedNoninterference(w: Setting, s: seq<Record>, t: seq<Record>, query: Record, order: string,
    skip: nat, limit: nat, le: (Value, Value) -> bool)
    requires Paired((a, b) => AlikeDeep(w, a, b), s, t) && LooksElsewhere(w, query, order) && CanonicalReadMasks(w)
    ensures ListOf(w, s, query, order, skip, limit, le) == ListOf(w, t, query, order, skip, limit, le)
  {
    var alike := (a, b) => AlikeDeep(w, a, b);
    forall a, b | alike(a, b)
      ensures DomainSelects(a, ListDomain(w, query)) == DomainSelects(b, ListDomain(w, query))
      ensures forall k :: k in OrderKeys(order) ==> Get(a, k.field) == Get(b, k.field)
      ensures View(w, a) == View(w, b) && StillHidden(w, a) == StillHidden(w, b)
    {
      DeepVerdict(w, a, b, query, order);
      ViewDeep(w, a, b, query, order);
    }
    ListPaired(w, alike, s, t, query, order, skip, limit, le);
  }

  // ---- The gate looks at names only ----------------------------------------------------------

  /** `{a: {"$eq": {b: n}}}`. */
  function Whole(a: string, b: string, n: int): Record {
    map[a := Dict(map["$eq" := Object(b, n)])]
  }

  function Object(b: string, n: int): Value {
    Dict(map[b := Int(n)])
  }

  /** A filter that compares the whole of `a` with an object passes the gate although `a.b` is masked, and tells two
      records apart that differ in `a.b` only. */
  lemma LiteralSeesNested(w: Setting, f: string, a: string, b: string)
    requires w.Denied() == {} && w.Obfuscated() == {f} && w.conditions == map[]
    requires Segments(f) == [a, b] && f != a && !IsOperator(a)
    requires f !in {"", WILDCARD} && (|f| < 2 || f[|f| - 2..] != ".*")
    ensures QueryGate(w, Whole(a, b, 1)).None?
    ensures AlikeDeep(w, map[a := Object(b, 1)], map[a := Object(b, 2)])
    ensures DomainSelects(map[a := Object(b, 1)], Whole(a, b, 1))
    ensures !DomainSelects(map[a := Object(b, 2)], Whole(a, b, 1))
  {
    GatePasses(w, f, a, b);
    WholeSelects(a, b, 1);
    WholeSelects(a, b, 2);
    ObjectsAlike(w, f, a, b);
  }

  lemma ObjectsAlike(w: Setting, f: string, a: string, b: string)
    requires w.Denied() == {} && w.Obfuscated() == {f} && w.conditions == map[] && Segments(f) == [a, b]
    ensures AlikeDeep(w, map[a := Object(b, 1)], map[a := Object(b, 2)])
  {
    HiddenIsMask(w, f, map[a := Object(b, 1)]);
    HiddenIsMask(w, f, map[a := Object(b, 2)]);
    DifferBelow(a, b);
    assert {[a, b]} * {[a, b]} == {[a, b]};
  }

  /** The setting in which `a.b` alone is masked is one. */
  lemma GateCanBePassed()
    ensures var w, query := Asking([Masking("a.b")], map[]), Whole("a", "b", 1);
      && QueryGate(w, query).None? && AlikeDeep(w, map["a" := Object("b", 1)], map["a" := Object("b", 2)])
      && DomainSelects(map["a" := Object("b", 1)], query) && !DomainSelects(map["a" := Object("b", 2)], query)
  {
    var w := Asking([Masking("a.b")], map[]);
    NestedSegments();
    OneMask(w, "a.b", map[]);
    LiteralSeesNested(w, "a.b", "a", "b");
  }

  lemma HiddenIsMask(w: Setting, f: string, record: Record)
    requires w.Denied() == {} && w.Obfuscated() == {f} && w.conditions == map[]
    ensures HiddenPaths(w, record) == {Segments(f)}
  {
    assert NulledMasks(w, record) == {f} && !BroughtBack(w, record, f);
  }

  lemma WholeSelects(a: string, b: string, n: int)
    requires !IsOperator(a)
    ensures DomainSelects(map[a := Object(b, n)], Whole(a, b, 1)) <==> n == 1
  {
    var r: Record, query := map[a := Object(b, n)], Whole(a, b, 1);
    assert query[a] == Dict(map["$eq" := Object(b, 1)]) && Get(r, a) == Object(b, n);
    assert RecordMatches(r, Dict(query)) == FilterValueMatches(Get(r, a), query[a]);
    ObjectsEqual(b, n, 1);
  }

  lemma ObjectsEqual(b: string, m: int, n: int)
    ensures PyEq(Object(b, m), Object(b, n)) <==> m == n
  {
    assert Object(b, m).entries[b] == Int(m) && Object(b, n).entries[b] == Int(n);
  }

  lemma DifferBelow(a: string, b: string)
    ensures EqualOutside(Dict(map[a := Object(b, 1)]), Dict(map[a := Object(b, 2)]), {[a, b]})
  {
    BelowMember({[a, b]}, a, [b]);
    assert [a] + [b] == [a, b];
    BelowMember(Below({[a, b]}, a), b, []);
    assert [b] + [] == [b];
  }

  lemma GatePasses(w: Setting, f: string, a: string, b: string)
    requires w.Masks() == {f} && f != a && !IsOperator(a)
    requires f !in {"", WILDCARD} && (|f| < 2 || f[|f| - 2..] != ".*")
    ensures QueryGate(w, Whole(a, b, 1)).None?
  {
    LiteralAllowed(a, b);
    LiteralPaths(a, b);
    assert !Covered(w.Masks(), a);
    assert BlockedFields(w, QueryPaths(Dict(Whole(a, b, 1)), "")) == {};
  }

  lemma LiteralAllowed(a: string, b: string)
    requires !IsOperator(a)
    ensures OperatorsAllowed(Dict(Whole(a, b, 1)))
  {
    var inner := Dict(map["$eq" := Object(b, 1)]);
    assert OperatorsAllowed(inner);
  }

  lemma LiteralPaths(a: string, b: string)
    requires !IsOperator(a)
    ensures QueryPaths(Dict(Whole(a, b, 1)), "") <= {a}
  {
    OperatorPaths("$eq", Object(b, 1), Join("", a));
    KeyPaths(a, Dict(map["$eq" := Object(b, 1)]));
  }

  lemma OperatorPaths(op: string, v: Value, prefix: string)
    requires IsOperator(op) && op !in WALKED_OPERATORS
    ensures QueryPaths(Dict(map[op := v]), prefix) == {}
  {}

  lemma KeyPaths(a: string, inner: Value)
    requires !IsOperator(a) && QueryPaths(inner, Join("", a)) == {}
    ensures QueryPaths(Dict(map[a := inner]), "") <= {a}
  {
    var m: Record := map[a := inner];
    assert m[a] == inner && Join("", a) == a;
    assert a !in WALKED_OPERATORS by { assert forall op :: op in WALKED_OPERATORS ==> IsOperator(op); }
  }
}
