/** Where shallow copies matter: a nested mask blanked through a shared copy is blanked in the original too. */
module NestedMasks {
  import opened Values
  import opened Text
  import opened Paths
  import opened Session
  import opened Views
  import opened WriteFields
  import opened EvaluationLaws
  import opened ViewLaws

  /** Setting a path to what it reads keeps a null path null. */
  lemma SelfSetKeepsNull(v: Value, q: Path, p: Path)
    requires p != [] && q != [] && ReadAt(v, p) == Null
    ensures ReadAt(SetAt(v, q, ReadAt(v, q)), p) == Null
  {
    RestoreStep(v, v, q, p);
  }

  predicate NullInBoth(t: Twin, p: Path) {
    ReadAt(Dict(t.original), p) == Null && ReadAt(Dict(t.copy), p) == Null
  }

  /** No field of the list names the whole value under `k`. */
  predicate SparesWhole(fields: seq<string>, k: string) {
    forall f :: f in fields ==> Segments(f) != [] && Segments(f) != [k]
  }

  lemma TwinBlankShared(t: Twin, q: Path, p: Path)
    requires |p| > 1 && q != [] && q != [p[0]] && SharedAt(t, p[0])
    requires NullInBoth(t, p) || p == q
    ensures SharedAt(TwinBlank(t, q), p[0]) && NullInBoth(TwinBlank(t, q), p)
  {
    var k, r := p[0], TwinBlank(t, q);
    BlankKeepsNull(Dict(t.copy), q, p);
    if HasPath(Dict(t.copy), q) && q[0] == k {
      assert |q| > 1 && q == [k] + q[1..];
      assert r.copy[k] == r.original[k] == SetAt(t.copy[k], q[1..], Null);
    }
    assert Get(r.copy, k) == Get(BlankAt(Dict(t.copy), q).entries, k);
    assert ReadAt(Dict(r.copy), p) == ReadAt(BlankAt(Dict(t.copy), q), p);
    assert Get(r.original, k) == Get(r.copy, k);
  }

  lemma TwinRestoreShared(t: Twin, q: Path, p: Path)
    requires |p| > 1 && q != [] && q != [p[0]] && SharedAt(t, p[0]) && NullInBoth(t, p)
    ensures SharedAt(TwinRestore(t, q), p[0]) && NullInBoth(TwinRestore(t, q), p)
  {
    var k, r := p[0], TwinRestore(t, q);
    if q[0] == k && k in t.copy {
      assert |q| > 1 && q == [k] + q[1..];
      SelfSetKeepsNull(Dict(t.original), q, p);
      assert r.copy[k] == r.original[k] == SetAt(t.original[k], q[1..], ReadAt(Dict(t.original), q));
      assert ReadAt(Dict(r.original), p) == ReadAt(SetAt(Dict(t.original), q, ReadAt(Dict(t.original), q)), p);
    } else {
      assert Get(r.copy, k) == Get(t.copy, k) && Get(r.original, k) == Get(t.original, k);
    }
  }

  lemma {:induction false} TwinBlanksShared(t: Twin, fields: seq<string>, p: Path)
    requires |p| > 1 && SharedAt(t, p[0]) && SparesWhole(fields, p[0])
    requires NullInBoth(t, p) || exists f :: f in fields && Segments(f) == p
    ensures SharedAt(TwinBlanks(t, fields), p[0]) && NullInBoth(TwinBlanks(t, fields), p)
    decreases fields
  {
    if fields != [] {
      var q := Segments(fields[0]);
      assert fields[0] in fields && fields == [fields[0]] + fields[1..];
      if NullInBoth(t, p) || p == q {
        TwinBlankShared(t, q, p);
      } else {
        TwinBlankStaysShared(t, q, p[0]);
      }
      TwinBlanksShared(TwinBlank(t, q), fields[1..], p);
    }
  }

  lemma TwinBlankStaysShared(t: Twin, q: Path, k: string)
    requires q != [] && q != [k] && SharedAt(t, k)
    ensures SharedAt(TwinBlank(t, q), k)
  {
    if q[0] == k { assert |q| > 1 by { assert q == [k] + q[1..]; } }
  }

  lemma {:induction false} TwinRevealsShared(w: Setting, t: Twin, fields: seq<string>, p: Path)
    requires |p| > 1 && SharedAt(t, p[0]) && SparesWhole(fields, p[0]) && NullInBoth(t, p)
    ensures NullInBoth(TwinReveals(w, t, fields), p)
    decreases fields
  {
    if fields != [] {
      var q := Segments(fields[0]);
      assert fields[0] in fields;
      if Revealed(w, t.original, fields[0]) {
        TwinRestoreShared(t, q, p);
        TwinRevealsShared(w, TwinRestore(t, q), fields[1..], p);
      } else {
        TwinRevealsShared(w, t, fields[1..], p);
      }
    }
  }

  /** A path below a mask's top-level field, the field itself not masked whole. */
  predicate NestedMask(w: Setting, fields: set<string>, f: string) {
    f in fields && |Segments(f)| > 1 && SparesWhole(SortedSeq(fields), Segments(f)[0])
  }

  // ---- Streams ---------------------------------------------------------------------

  lemma {:induction false} SameAtUncovered(v: Value, w: Value, paths: set<Path>, p: Path)
    requires p != [] && SameOutside(v, w, paths) && forall q :: q in paths ==> Unrelated(q, p)
    ensures ReadsAs(v, w, p)
    decreases |p|
  {
    assert [] !in paths by { assert [] <= p; }
    SameOutsideShape(v, w, paths);
    if v.Dict? {
      SameOutsideByKey(v.entries, w.entries, paths);
      var k, t := p[0], p[1..];
      assert p == [k] + t;
      var below := Below(paths, k);
      forall q | q in below ensures Unrelated(q, t) && t != [] {
        BelowMember(paths, k, q);
        assert Unrelated([k] + q, [k] + t);
        assert t == [] ==> [k] + t <= [k] + q;
        assert q <= t ==> [k] + q <= [k] + t;
        assert t <= q ==> [k] + t <= [k] + q;
      }
      if t == [] {
        assert below == {};
        SameOutsideNothing(Get(v.entries, k), Get(w.entries, k));
      } else {
        SameAtUncovered(Get(v.entries, k), Get(w.entries, k), below, t);
      }
    }
  }

  /** A load shows a nested field its condition reveals; a stream shows null there, whatever the record.
      So they agree on it exactly when the record has nothing there. */
  lemma StreamLosesNestedReveal(w: Setting, record: Record, f: string)
    requires CanonicalReadMasks(w) && NestedMask(w, w.Masks(), f)
    requires f in w.Obfuscated() && Revealed(w, record, f)
    requires forall g :: g in HiddenMasks(w, record) ==> Unrelated(Segments(g), Segments(f))
    ensures ReadsAs(View(w, record), Dict(record), Segments(f))
    ensures ReadAt(StreamView(w, record), Segments(f)) == Null
    ensures ReadsAs(StreamView(w, record), View(w, record), Segments(f)) <==> ReadAt(Dict(record), Segments(f)) == Null
  {
    var p, fields := Segments(f), StreamBaseline(w);
    ViewCovers(w, record);
    SameAtUncovered(View(w, record), Dict(record), SegmentsOf(HiddenMasks(w, record)), p);
    TwinBlanksShared(ShallowCopy(record), fields, p);
    TwinRevealsShared(w, TwinBlanks(ShallowCopy(record), fields), fields, p);
  }
}
