/** What evaluating the reveal conditions on a shallow copy does to the stored record and to the payload. */
module EvaluationLaws {
  import opened Values
  import opened Text
  import opened Paths
  import opened Filters
  import opened FieldAcl
  import opened Session
  import opened Views
  import opened WriteFields
  import opened Drafts
  import opened DraftLaws

  /** Some field of the list names the whole value under `k`. */
  predicate Whole(fields: seq<string>, k: string) {
    exists f :: f in fields && Segments(f) == [k]
  }

  /** A path below a top-level field no mask of the list names whole. */
  predicate Reaches(f: string, all: seq<string>) {
    |Segments(f)| > 1 && !Whole(all, Segments(f)[0])
  }

  /** The masks whose blanks reach through the shallow copy. */
  function Reaching(fields: seq<string>, all: seq<string>): (r: seq<string>)
    ensures forall f :: f in r <==> f in fields && Reaches(f, all)
  {
    if fields == [] then []
    else (if Reaches(fields[0], all) then [fields[0]] else []) + Reaching(fields[1..], all)
  }

  /** The draft behind an evaluation. */
  function Behind(e: Evaluation): Draft {
    Draft(e.payload, e.t.original, e.shared)
  }

  /** Blanking the stored record itself, and the payload where it shares the object. */
  function BlankStored(d: Draft, p: Path): Draft {
    if p == [] || !HasPath(Dict(d.stored), p) then d
    else Draft(
      if Inside(d.shared, p) then SetAt(d.payload, p, Null) else d.payload,
      SetAt(Dict(d.stored), p, Null).entries,
      set q | q in d.shared && !(p <= q))
  }

  function BlanksStored(d: Draft, fields: seq<string>): Draft
    decreases fields
  {
    if fields == [] then d else BlanksStored(BlankStored(d, Segments(fields[0])), fields[1..])
  }

  /** The value under `k` is one object, in the copy as in the record. */
  predicate SharedAt(t: Twin, k: string) {
    && (k in t.copy <==> k in t.original)
    && (k in t.copy ==> k in t.linked && t.copy[k] == t.original[k])
  }

  /** Where the copy and the record stand while the masks `fields`, of all the masks `all`, are still to be blanked. */
  ghost predicate Blanking(t: Twin, fields: seq<string>, all: seq<string>) {
    && (forall k :: !Whole(all, k) ==> SharedAt(t, k))
    && (forall f :: f in fields && |Segments(f)| > 1 && Whole(all, Segments(f)[0]) ==>
          Get(t.copy, Segments(f)[0]) == Null || Whole(fields, Segments(f)[0]))
  }

  /** The first mask is blanked in the record when it reaches it, and nowhere but in the copy when it does not. */
  lemma BlankFirst(e: Evaluation, fields: seq<string>, all: seq<string>)
    requires fields != [] && Ascending(fields) && (forall f :: f in fields ==> f in all && Canonical(f))
    requires Blanking(e.t, fields, all)
    ensures var p := Segments(fields[0]);
      Behind(BlankShared(e, p)) == if Reaches(fields[0], all) then BlankStored(Behind(e), p) else Behind(e)
    ensures Blanking(BlankShared(e, Segments(fields[0])).t, fields[1..], all)
  {
    var f, rest := fields[0], fields[1..];
    assert fields == [f] + rest && f in fields;
    var p := Segments(f);
    if |p| > 1 {
      if Whole(all, p[0]) {
        if Whole(fields, p[0]) { WholeComesFirst(fields); }
        assert !HasPath(Dict(e.t.copy), p);
      } else {
        ReachingBlank(e, p);
      }
    } else {
      assert p == [p[0]] && Whole(all, p[0]);
    }
    BlankingStep(e.t, fields, all);
  }

  /** In ascending order a whole field comes before the fields below it. */
  lemma WholeComesFirst(fields: seq<string>)
    requires fields != [] && Ascending(fields) && (forall f :: f in fields ==> Canonical(f))
    requires |Segments(fields[0])| > 1
    ensures !Whole(fields, Segments(fields[0])[0])
  {
    var p := Segments(fields[0]);
    forall g | g in fields ensures Segments(g) != [p[0]] {
      assert fields == [fields[0]] + fields[1..];
      if g in fields[1..] {
        FirstIsNoDescendant(fields, g);
        assert [p[0]] < p;
      }
    }
  }

  lemma ReachingBlank(e: Evaluation, p: Path)
    requires |p| > 1 && SharedAt(e.t, p[0])
    ensures Behind(BlankShared(e, p)) == BlankStored(Behind(e), p)
  {
    var k := p[0];
    assert HasPath(Dict(e.t.copy), p) <==> HasPath(Dict(e.t.original), p);
    if HasPath(Dict(e.t.copy), p) {
      assert SetAt(Dict(e.t.original), p, Null) == Dict(e.t.original[k := SetAt(e.t.original[k], p[1..], Null)]);
    }
  }

  lemma BlankingStep(t: Twin, fields: seq<string>, all: seq<string>)
    requires fields != [] && (forall f :: f in fields ==> f in all && Canonical(f))
    requires Blanking(t, fields, all)
    requires |Segments(fields[0])| > 1 && Whole(all, Segments(fields[0])[0]) ==>
      !HasPath(Dict(t.copy), Segments(fields[0]))
    ensures Blanking(TwinBlank(t, Segments(fields[0])), fields[1..], all)
  {
    var p, rest := Segments(fields[0]), fields[1..];
    var r := TwinBlank(t, p);
    assert fields[0] in fields;
    assert fields == [fields[0]] + rest && p != [];
    forall k | !Whole(all, k) ensures SharedAt(r, k) {
      assert SharedAt(t, k);
      if p == [k] { assert fields[0] in all; }
    }
    forall f | f in rest && |Segments(f)| > 1 && Whole(all, Segments(f)[0])
      ensures Get(r.copy, Segments(f)[0]) == Null || Whole(rest, Segments(f)[0])
    {
      var k := Segments(f)[0];
      assert f in fields;
      if Whole(fields, k) && !Whole(rest, k) { assert p == [k]; }
    }
  }

  /** Blanking all masks through a fresh shallow copy blanks the reaching ones in the record. */
  lemma {:induction false} BlanksReach(e: Evaluation, fields: seq<string>, all: seq<string>)
    requires Ascending(fields) && (forall f :: f in fields ==> f in all && Canonical(f))
    requires Blanking(e.t, fields, all)
    ensures Behind(BlanksShared(e, fields)) == BlanksStored(Behind(e), Reaching(fields, all))
    ensures Blanking(BlanksShared(e, fields).t, [], all)
    decreases fields
  {
    if fields != [] {
      BlankFirst(e, fields, all);
      assert fields[0] in fields && forall f :: f in fields[1..] ==> f in fields;
      BlanksReach(BlankShared(e, Segments(fields[0])), fields[1..], all);
      var rest := Reaching(fields[1..], all);
      if Reaches(fields[0], all) {
        assert Reaching(fields, all) == [fields[0]] + rest;
        assert ([fields[0]] + rest)[1..] == rest;
      } else {
        assert Reaching(fields, all) == rest;
      }
    }
  }

  // ---- The blanked draft ----------------------------------------------------------------

  lemma {:induction false} BlanksOfStored(d: Draft, fields: seq<string>)
    ensures Dict(BlanksStored(d, fields).stored) == WithBlanks(Dict(d.stored), fields)
    decreases fields
  {
    if fields != [] { BlanksOfStored(BlankStored(d, Segments(fields[0])), fields[1..]); }
  }

  lemma BlankedLink(d: Draft, p: Path, q: Path)
    requires Linked(d) && p != [] && HasPath(Dict(d.stored), p) && q in BlankStored(d, p).shared
    ensures var r := BlankStored(d, p);
      q != [] && ReadAt(r.payload, q).Dict? && ReadAt(r.payload, q) == ReadAt(Dict(r.stored), q)
  {
    SeenFrom(Dict(d.stored), p, Null, q);
    SeenFrom(d.payload, p, Null, q);
    assert q < p ==> Inside(d.shared, p);
  }

  lemma {:induction false} BlanksKeepLinks(d: Draft, fields: seq<string>)
    requires Linked(d)
    ensures Linked(BlanksStored(d, fields))
    decreases fields
  {
    if fields != [] {
      var p := Segments(fields[0]);
      var r := BlankStored(d, p);
      if p != [] && HasPath(Dict(d.stored), p) {
        forall q | q in r.shared
          ensures q != [] && ReadAt(r.payload, q).Dict? && ReadAt(r.payload, q) == ReadAt(Dict(r.stored), q)
        {
          BlankedLink(d, p, q);
        }
      }
      BlanksKeepLinks(r, fields[1..]);
    }
  }

  /** A shared object stays shared while nothing at or above it is blanked. */
  lemma {:induction false} BlanksKeepUnder(d: Draft, fields: seq<string>, p: Path)
    requires Under(d.shared, p) && forall f :: f in fields ==> !(Segments(f) <= p)
    ensures Under(BlanksStored(d, fields).shared, p)
    decreases fields
  {
    if fields != [] {
      assert fields[0] in fields;
      var q :| q in d.shared && q <= p;
      assert !(Segments(fields[0]) <= q);
      assert q in BlankStored(d, Segments(fields[0])).shared;
      BlanksKeepUnder(BlankStored(d, Segments(fields[0])), fields[1..], p);
    }
  }

  /** Null makes no place for anything. */
  lemma NullMakesNoPlace(v: Value, u: Path, p: Path)
    requires u != [] && p != [] && !ParentIsDict(v, p)
    ensures !ParentIsDict(SetAt(v, u, Null), p)
  {
    if p <= u {
      SetKeepsAncestors(v, u, Null, p);
    } else if u < p {
      ReadOfSet(v, u, Null);
      var r := SetAt(v, u, Null);
      if ParentIsDict(r, p) { DictAbove(r, u, p); }
      assert ReadAt(r, u) == Null;
    } else {
      SetElsewhere(v, u, Null, p);
    }
  }

  lemma {:induction false} BlanksMakeNoPlace(d: Draft, fields: seq<string>, p: Path)
    requires p != [] && !ParentIsDict(d.payload, p)
    ensures !ParentIsDict(BlanksStored(d, fields).payload, p)
    decreases fields
  {
    if fields != [] {
      var u := Segments(fields[0]);
      if u != [] { NullMakesNoPlace(d.payload, u, p); }
      BlanksMakeNoPlace(BlankStored(d, u), fields[1..], p);
    }
  }

  lemma {:induction false} BlanksKeepNull(v: Value, fields: seq<string>, p: Path)
    requires p != [] && (ReadAt(v, p) == Null || exists f :: f in fields && Segments(f) == p)
    ensures ReadAt(WithBlanks(v, fields), p) == Null
    decreases fields
  {
    if fields != [] {
      var q := Segments(fields[0]);
      assert fields == [fields[0]] + fields[1..];
      if q != [] && (ReadAt(v, p) == Null || p == q) { BlankKeepsNull(v, q, p); }
      BlanksKeepNull(BlankAt(v, q), fields[1..], p);
    }
  }

  lemma {:induction false} PathAbove(v: Value, q: Path, p: Path)
    requires q != [] && q <= p && HasPath(v, p)
    ensures HasPath(v, q)
  {
    assert q == [q[0]] + q[1..];
    if |q| > 1 { PathAbove(v.entries[q[0]], q[1..], p[1..]); }
  }

  /** None of the masks is at or above the path. */
  predicate Clear(fields: seq<string>, q: Path) {
    forall f :: f in fields ==> !(Segments(f) <= q)
  }

  /** Everything null before is still null. */
  ghost predicate NullsKept(before: Value, v: Value) {
    forall p :: p != [] && ReadAt(before, p) == Null ==> ReadAt(v, p) == Null
  }

  /** A blanked mask at or above a shared object is gone from the record: nothing below it can be blanked again. */
  predicate Gone(done: seq<string>, d: Draft) {
    forall f, q :: f in done && q in d.shared && Segments(f) <= q ==>
      Segments(f) != [] && !HasPath(Dict(d.stored), Segments(f))
  }

  /** What is shared reads after all blanks as it did before, unless a mask is at or above it or its key is free. */
  ghost predicate Unharmed(before: Value, after: Value, shared: set<Path>, masks: seq<string>, free: set<string>) {
    forall q :: q in shared && q != [] && q[0] !in free && Clear(masks, q) ==> ReadsAs(after, before, q)
  }

  /** Where one blank writes the payload, it writes null over null. */
  lemma BlankOnNull(d: Draft, ns: seq<string>, before: Value, done: seq<string>, start: set<Path>, free: set<string>)
    requires ns != [] && Linked(d) && Ascending(ns) && forall f :: f in ns ==> Canonical(f)
    requires d.shared <= start && NullsKept(before, Dict(d.stored)) && Gone(done, d)
    requires Unharmed(before, WithBlanks(Dict(d.stored), ns), start, done + ns, free)
    requires var p := Segments(ns[0]); p != [] && HasPath(Dict(d.stored), p) && Inside(d.shared, p) && p[0] !in free
    ensures ReadAt(d.payload, Segments(ns[0])) == Null
  {
    var p, w := Segments(ns[0]), Dict(d.stored);
    var q :| q in d.shared && q < p;
    ClearAbove(d, ns, done, q);
    var after := WithBlanks(w, ns);
    assert ns[0] in ns && q[0] == p[0];
    BlanksKeepNull(w, ns, p);
    ReadsBelow(after, before, q, p);
    assert ReadAt(before, p) == Null;
    ReadsBelow(d.payload, w, q, p);
  }

  /** No mask, blanked or to be blanked, lies at or above a shared object above the next one. */
  lemma ClearAbove(d: Draft, ns: seq<string>, done: seq<string>, q: Path)
    requires ns != [] && Ascending(ns) && (forall f :: f in ns ==> Canonical(f)) && Gone(done, d)
    requires Segments(ns[0]) != [] && HasPath(Dict(d.stored), Segments(ns[0])) && q in d.shared && q < Segments(ns[0])
    ensures Clear(done + ns, q)
  {
    forall f | f in done + ns ensures !(Segments(f) <= q) {
      assert ns == [ns[0]] + ns[1..];
      if f in done {
        if Segments(f) <= q { PathAbove(Dict(d.stored), Segments(f), Segments(ns[0])); }
      } else if f in ns[1..] {
        FirstIsNoDescendant(ns, f);
      }
    }
  }

  /** The two payloads agree on every key but the free ones. */
  ghost predicate SameBut(v: Value, w: Value, free: set<string>) {
    v.Dict? && w.Dict? && forall k :: k !in free ==> Same(Get(v.entries, k), Get(w.entries, k))
  }

  lemma SameButStep(v: Value, p: Path, x: Value, free: set<string>)
    requires v.Dict? && p != [] && (p[0] in free || ReadAt(v, p) == x)
    ensures SameBut(SetAt(v, p, x), v, free)
  {
    if p[0] !in free { SetSelf(v, p); }
    forall k | k !in free ensures Same(Get(SetAt(v, p, x).entries, k), Get(v.entries, k)) {
      SetKey(v, p, x, k);
      if p[0] !in free { SameGet(SetAt(v, p, x), v, k); }
    }
  }

  lemma BlankPayload(d: Draft, ns: seq<string>, before: Value, done: seq<string>, start: set<Path>, free: set<string>)
    requires ns != [] && d.payload.Dict? && Linked(d) && Ascending(ns) && forall f :: f in ns ==> Canonical(f)
    requires d.shared <= start && NullsKept(before, Dict(d.stored)) && Gone(done, d)
    requires Unharmed(before, WithBlanks(Dict(d.stored), ns), start, done + ns, free)
    ensures SameBut(BlankStored(d, Segments(ns[0])).payload, d.payload, free)
  {
    var p := Segments(ns[0]);
    if p != [] && HasPath(Dict(d.stored), p) && Inside(d.shared, p) {
      if p[0] !in free { BlankOnNull(d, ns, before, done, start, free); }
      SameButStep(d.payload, p, Null, free);
    }
  }

  lemma GoneStep(d: Draft, p: Path, f: string, done: seq<string>)
    requires Gone(done, d) && p == Segments(f) && p != []
    ensures Gone(done + [f], BlankStored(d, p))
  {
    var r := BlankStored(d, p);
    forall g, q | g in done + [f] && q in r.shared && Segments(g) <= q
      ensures Segments(g) != [] && !HasPath(Dict(r.stored), Segments(g))
    {
      assert Dict(r.stored) == BlankAt(Dict(d.stored), p);
      if g in done { BlankAddsNone(Dict(d.stored), p, Segments(g)); }
    }
  }

  lemma NullsKeptStep(before: Value, v: Value, p: Path)
    requires NullsKept(before, v) && p != []
    ensures NullsKept(before, BlankAt(v, p))
  {
    forall u: Path | u != [] && ReadAt(before, u) == Null ensures ReadAt(BlankAt(v, p), u) == Null {
      BlankKeepsNull(v, p, u);
    }
  }

  /** If every shared object reads after the blanks as before, the payload is the same but for the free keys. */
  lemma {:induction false} BlanksHarmless(d: Draft, ns: seq<string>, before: Value, done: seq<string>, start: set<Path>,
    free: set<string>)
    requires d.payload.Dict? && Linked(d) && Ascending(ns) && forall f :: f in ns ==> Canonical(f)
    requires d.shared <= start && NullsKept(before, Dict(d.stored)) && Gone(done, d)
    requires Unharmed(before, WithBlanks(Dict(d.stored), ns), start, done + ns, free)
    ensures SameBut(BlanksStored(d, ns).payload, d.payload, free)
    decreases ns
  {
    if ns != [] {
      var f, rest := ns[0], ns[1..];
      assert ns == [f] + rest && f in ns;
      var p := Segments(f);
      var r := BlankStored(d, p);
      BlankPayload(d, ns, before, done, start, free);
      GoneStep(d, p, f, done);
      NullsKeptStep(before, Dict(d.stored), p);
      assert Dict(r.stored) == BlankAt(Dict(d.stored), p);
      BlanksKeepLinks(d, [f]);
      assert BlanksStored(d, [f]) == r by { assert [f][1..] == []; }
      assert done + [f] + rest == done + ns;
      BlanksHarmless(r, rest, before, done + [f], start, free);
    }
  }

  // ---- Reveals ----------------------------------------------------------------------------

  /** What is linked is one value. */
  predicate Mirrors(t: Twin) {
    forall k :: k in t.linked && k in t.copy ==> k in t.original && t.copy[k] == t.original[k]
  }

  lemma {:induction false} BlanksMirror(t: Twin, fields: seq<string>)
    requires Mirrors(t)
    ensures Mirrors(TwinBlanks(t, fields))
    decreases fields
  {
    if fields != [] { BlanksMirror(TwinBlank(t, Segments(fields[0])), fields[1..]); }
  }

  /** A reveal writes the record and the payload with what is there. */
  lemma RevealIsHarmless(e: Evaluation, p: Path)
    requires Mirrors(e.t) && Linked(Behind(e))
    ensures var r := RevealShared(e, p);
      && Mirrors(r.t) && Linked(Behind(r)) && r.shared == e.shared
      && Same(r.payload, e.payload) && Same(Dict(r.t.original), Dict(e.t.original))
  {
    if |p| > 1 && p[0] in e.t.copy && p[0] in e.t.linked {
      var w := Dict(e.t.original);
      var x := ReadAt(w, p);
      assert Dict(RevealShared(e, p).t.original) == SetAt(w, p, x);
      SetSelf(w, p);
      RevealedLinks(e, p);
      if Inside(e.shared, p) {
        var q :| q in e.shared && q < p;
        var t := p[|q|..];
        assert p == q + t;
        ReadBelow(w, q, t);
        ReadBelow(e.payload, q, t);
        SetSelf(e.payload, p);
      }
    }
  }

  lemma RevealedLinks(e: Evaluation, p: Path)
    requires Mirrors(e.t) && Linked(Behind(e)) && |p| > 1 && p[0] in e.t.copy && p[0] in e.t.linked
    ensures Linked(Behind(RevealShared(e, p)))
  {
    var r, w := RevealShared(e, p), Dict(e.t.original);
    var x := ReadAt(w, p);
    assert Dict(r.t.original) == SetAt(w, p, x);
    forall q | q in r.shared
      ensures q != [] && ReadAt(r.payload, q).Dict? && ReadAt(r.payload, q) == ReadAt(Dict(r.t.original), q)
    {
      RevealedLink(e, p, q);
    }
  }

  lemma RevealedLink(e: Evaluation, p: Path, q: Path)
    requires Linked(Behind(e)) && |p| > 1 && q in e.shared
    ensures var w := Dict(e.t.original);
      var payload := if Inside(e.shared, p) then SetAt(e.payload, p, ReadAt(w, p)) else e.payload;
      q != [] && ReadAt(payload, q).Dict? && ReadAt(payload, q) == ReadAt(SetAt(w, p, ReadAt(w, p)), q)
  {
    var w := Dict(e.t.original);
    var x := ReadAt(w, p);
    assert q in Behind(e).shared;
    if p <= q {
      ReadOfSet(w, p, x);
      ReadOfSet(e.payload, p, x);
      if ParentIsDict(w, p) { SeenBelow(w, w, p, q); }
      if ParentIsDict(e.payload, p) { SeenBelow(e.payload, w, p, q); }
    } else {
      SeenFrom(w, p, x, q);
      SeenFrom(e.payload, p, x, q);
      assert q < p ==> Inside(e.shared, p);
    }
  }

  lemma {:induction false} RevealsAreHarmless(w: Setting, e: Evaluation, fields: seq<string>)
    requires Mirrors(e.t) && Linked(Behind(e))
    ensures var r := RevealsShared(w, e, fields);
      && Linked(Behind(r)) && r.shared == e.shared
      && Same(r.payload, e.payload) && Same(Dict(r.t.original), Dict(e.t.original))
    decreases fields
  {
    if fields != [] {
      RevealIsHarmless(e, Segments(fields[0]));
      var next := if Revealed(w, e.t.original, fields[0]) then RevealShared(e, Segments(fields[0])) else e;
      RevealsAreHarmless(w, next, fields[1..]);
    }
  }

  // ---- The fields of the payload ------------------------------------------------------------

  /** The names a value has entries under. */
  function Fields(v: Value): set<string> {
    if v.Dict? then v.entries.Keys else {}
  }

  lemma SetKeepsFields(v: Value, p: Path, x: Value)
    requires |p| > 1
    ensures Fields(SetAt(v, p, x)) == Fields(v)
  {}

  lemma {:induction false} BlanksKeepFields(e: Evaluation, fields: seq<string>)
    ensures Fields(BlanksShared(e, fields).payload) == Fields(e.payload)
    decreases fields
  {
    if fields != [] {
      var p := Segments(fields[0]);
      if |p| > 1 { SetKeepsFields(e.payload, p, Null); }
      BlanksKeepFields(BlankShared(e, p), fields[1..]);
    }
  }

  lemma {:induction false} RevealsKeepFields(w: Setting, e: Evaluation, fields: seq<string>)
    ensures Fields(RevealsShared(w, e, fields).payload) == Fields(e.payload)
    decreases fields
  {
    if fields != [] {
      var p := Segments(fields[0]);
      if |p| > 1 { SetKeepsFields(e.payload, p, ReadAt(Dict(e.t.original), p)); }
      RevealsKeepFields(w, if Revealed(w, e.t.original, fields[0]) then RevealShared(e, p) else e, fields[1..]);
    }
  }

  /** The evaluation adds no field to the payload and takes none away. */
  lemma EvaluatedFields(w: Setting, d: Draft)
    ensures Fields(Evaluated(w, d).payload) == Fields(d.payload)
  {
    var order := SortedSeq(w.Obfuscated());
    if w.Obfuscated() != {} && w.conditions != map[] {
      var e := Evaluation(ShallowCopy(d.stored), d.payload, d.shared);
      BlanksKeepFields(e, order);
      RevealsKeepFields(w, BlanksShared(e, order), order);
    }
  }

  // ---- The whole evaluation ------------------------------------------------------------------

  /** The nested obfuscated masks that evaluating the conditions blanks in the stored record. */
  function ReachingMasks(w: Setting): seq<string> {
    if w.conditions == map[] then []
    else Reaching(SortedSeq(w.Obfuscated()), SortedSeq(w.Obfuscated()))
  }

  lemma {:induction false} ReachingAscends(fields: seq<string>, all: seq<string>)
    requires Ascending(fields)
    ensures Ascending(Reaching(fields, all))
  {
    if fields != [] {
      ReachingAscends(fields[1..], all);
      var rest := Reaching(fields[1..], all);
      forall f | f in rest ensures StrLt(fields[0], f) {
        var j :| 0 <= j < |fields[1..]| && fields[1..][j] == f;
        assert fields[j + 1] == f;
      }
    }
  }

  /** Up to null entries, the evaluation blanks the reaching masks in the record and in what the payload shares. */
  lemma EvaluatedIs(w: Setting, d: Draft)
    requires Linked(d) && forall f :: f in w.Obfuscated() ==> Canonical(f)
    ensures var a, b := Evaluated(w, d), BlanksStored(d, ReachingMasks(w));
      && Linked(a) && a.shared == b.shared
      && Same(a.payload, b.payload) && Same(Dict(a.stored), Dict(b.stored))
  {
    var order := SortedSeq(w.Obfuscated());
    if w.Obfuscated() == {} {
      assert order == [] && Reaching(order, order) == [];
    } else if w.conditions != map[] {
      var e := Evaluation(ShallowCopy(d.stored), d.payload, d.shared);
      BlanksReach(e, order, order);
      BlanksKeepLinks(d, Reaching(order, order));
      BlanksSharedTwin(e, order);
      BlanksMirror(e.t, order);
      RevealsAreHarmless(w, BlanksShared(e, order), order);
    }
  }

  /** The record after the evaluation, up to null entries. */
  function Damaged(w: Setting, record: Record): Value {
    WithBlanks(Dict(record), ReachingMasks(w))
  }

  lemma SameBlank(v: Value, w: Value, p: Path)
    requires Same(v, w)
    ensures Same(BlankAt(v, p), BlankAt(w, p))
  {
    if p != [] {
      SameRead(v, w, p);
      SameSet(v, w, p, Null, Null);
      if !HasPath(v, p) { MissingReadsNull(v, p); SetSelf(v, p); SetSelf(w, p); }
      if !HasPath(w, p) { MissingReadsNull(w, p); SetSelf(v, p); SetSelf(w, p); }
    }
  }

  lemma {:induction false} SameBlanks(v: Value, w: Value, fields: seq<string>)
    requires Same(v, w)
    ensures Same(WithBlanks(v, fields), WithBlanks(w, fields))
    decreases fields
  {
    if fields != [] {
      SameBlank(v, w, Segments(fields[0]));
      SameBlanks(BlankAt(v, Segments(fields[0])), BlankAt(w, Segments(fields[0])), fields[1..]);
    }
  }

  /** A value that is no object, and no mask at or above it, is not blanked. */
  lemma {:induction false} BlanksAway(v: Value, fields: seq<string>, p: Path)
    requires p != [] && !ReadAt(v, p).Dict? && Clear(fields, p)
    ensures ReadAt(WithBlanks(v, fields), p) == ReadAt(v, p)
    decreases fields
  {
    if fields != [] {
      var u := Segments(fields[0]);
      assert fields[0] in fields && !(u <= p);
      if HasPath(v, u) {
        ReadOfSet(v, u, Null);
        if p < u { DictAbove(v, p, u); }
        SetElsewhere(v, u, Null, p);
      }
      BlanksAway(BlankAt(v, u), fields[1..], p);
    }
  }

  // ---- Which masks stay hidden -----------------------------------------------------------------

  /** A key some reveal condition reads. */
  predicate ConditionReads(w: Setting, f: string, k: string) {
    f in w.conditions && k in KeysRead(w.resolve(w.conditions[f]))
  }

  /** No condition reads a field below which an obfuscated mask lies. */
  predicate ConditionsSpareNested(w: Setting) {
    forall f, g :: f in w.conditions && g in w.Obfuscated() && |Segments(g)| > 1 ==>
      !ConditionReads(w, f, Segments(g)[0])
  }

  /** The conditions cannot tell the two records apart. */
  ghost predicate AgreeOnRead(w: Setting, a: Record, b: Record) {
    forall f, k :: ConditionReads(w, f, k) ==> Get(a, k) == Get(b, k)
  }

  lemma AgreeOnRevealed(w: Setting, a: Record, b: Record, f: string)
    requires AgreeOnRead(w, a, b)
    ensures Revealed(w, a, f) == Revealed(w, b, f)
  {
    if f in w.conditions {
      forall k | k in KeysRead(w.resolve(w.conditions[f])) ensures Get(a, k) == Get(b, k) {
        assert ConditionReads(w, f, k);
      }
      VerdictDependsOnKeysRead(a, b, w.resolve(w.conditions[f]));
    }
  }

  lemma TwinSetElsewhere(t: Twin, p: Path, x: Value, k: string)
    requires p != [] && (|p| > 1 ==> p[0] != k)
    ensures Get(TwinSet(t, p, x).original, k) == Get(t.original, k)
  {}

  lemma {:induction false} TwinBlanksElsewhere(t: Twin, fields: seq<string>, k: string)
    requires forall f :: f in fields && |Segments(f)| > 1 ==> Segments(f)[0] != k
    ensures Get(TwinBlanks(t, fields).original, k) == Get(t.original, k)
    decreases fields
  {
    if fields != [] {
      assert fields[0] in fields;
      TwinBlanksElsewhere(TwinBlank(t, Segments(fields[0])), fields[1..], k);
    }
  }

  lemma AgreeAfterRestore(w: Setting, t: Twin, record: Record, f: string)
    requires AgreeOnRead(w, t.original, record) && ConditionsSpareNested(w) && f in w.Obfuscated()
    ensures AgreeOnRead(w, TwinRestore(t, Segments(f)).original, record)
  {
    var p := Segments(f);
    forall g, k | ConditionReads(w, g, k) ensures Get(TwinRestore(t, p).original, k) == Get(record, k) {
      if p != [] { TwinSetElsewhere(t, p, ReadAt(Dict(t.original), p), k); }
    }
  }

  lemma {:induction false} UnrevealedAgrees(w: Setting, t: Twin, record: Record, fields: seq<string>)
    requires AgreeOnRead(w, t.original, record) && ConditionsSpareNested(w)
    requires forall f :: f in fields ==> f in w.Obfuscated()
    ensures forall f :: f in TwinUnrevealed(w, t, fields) <==> f in fields && !Revealed(w, record, f)
    decreases fields
  {
    if fields != [] {
      var f := fields[0];
      assert fields == [f] + fields[1..] && f in fields;
      AgreeOnRevealed(w, t.original, record, f);
      if Revealed(w, record, f) {
        AgreeAfterRestore(w, t, record, f);
        UnrevealedAgrees(w, TwinRestore(t, Segments(f)), record, fields[1..]);
      } else {
        UnrevealedAgrees(w, t, record, fields[1..]);
      }
    }
  }

  lemma AgreeAfterBlanks(w: Setting, stored: Record, record: Record, fields: seq<string>)
    requires AgreeOnRead(w, stored, record) && ConditionsSpareNested(w)
    requires forall f :: f in fields ==> f in w.Obfuscated()
    ensures AgreeOnRead(w, TwinBlanks(ShallowCopy(stored), fields).original, record)
  {
    forall f, k | ConditionReads(w, f, k)
      ensures Get(TwinBlanks(ShallowCopy(stored), fields).original, k) == Get(record, k)
    {
      TwinBlanksElsewhere(ShallowCopy(stored), fields, k);
    }
  }
}
