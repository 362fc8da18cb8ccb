/** Dropping or restoring the fields of a payload the actor may not write, at any depth. */
module WriteFields {
  import opened Values
  import opened Text
  import opened Paths
  import opened FieldAcl

  function RestoreAll(payload: Value, fields: seq<string>, stored: Value): Value
    decreases fields
  {
    if fields == [] then payload
    else
      var p := Segments(fields[0]);
      RestoreAll(SetAt(payload, p, ReadAt(stored, p)), fields[1..], stored)
  }

  function DropAll(payload: Value, fields: seq<string>): Value
    decreases fields
  {
    if fields == [] then payload else DropAll(DeleteAt(payload, Segments(fields[0])), fields[1..])
  }

  /** `restore_or_drop_denied_write_fields`. */
  method RestoreOrDrop(payload: Value, fields: seq<string>, stored: Option<Value>) returns (r: Value)
    ensures stored.Some? ==> r == RestoreAll(payload, fields, stored.value)
    ensures stored.None? ==> r == DropAll(payload, fields)
  {
    r := payload;
    for i := 0 to |fields|
      invariant stored.Some? ==> RestoreAll(r, fields[i..], stored.value) == RestoreAll(payload, fields, stored.value)
      invariant stored.None? ==> DropAll(r, fields[i..]) == DropAll(payload, fields)
    {
      assert fields[i..][0] == fields[i] && fields[i..][1..] == fields[i + 1..];
      if stored.Some? {
        var value := ReadPath(stored.value, fields[i]);
        r := SetAt(r, Segments(fields[i]), value);
      } else {
        r := DeleteAt(r, Segments(fields[i]));
      }
    }
    assert fields[|fields|..] == [];
  }

  // ---- INSERT ------------------------------------------------------------------

  lemma {:induction false} PathsAfterDelete(v: Value, q: Path, p: Path)
    requires q != [] && p != []
    ensures HasPath(DeleteAt(v, q), p) <==> HasPath(v, p) && !(q <= p)
    ensures Unrelated(q, p) ==> ReadAt(DeleteAt(v, q), p) == ReadAt(v, p)
  {
    assert q == [q[0]] + q[1..] && p == [p[0]] + p[1..];
    if v.Dict? && q[0] == p[0] && p[0] in v.entries && |q| > 1 {
      if |p| > 1 {
        PathsAfterDelete(v.entries[p[0]], q[1..], p[1..]);
      }
    }
  }

  /** Deleting what is not there changes nothing. */
  lemma {:induction false} DeleteNothing(v: Value, p: Path)
    requires p != [] && !HasPath(v, p)
    ensures DeleteAt(v, p) == v
  {
    if v.Dict? && p[0] in v.entries {
      DeleteNothing(v.entries[p[0]], p[1..]);
      assert v.entries[p[0] := v.entries[p[0]]] == v.entries;
    } else if v.Dict? {
      assert v.entries - {p[0]} == v.entries;
    }
  }

  predicate Spared(p: Path, fields: seq<string>) {
    forall f :: f in fields ==> !(Segments(f) <= p)
  }

  lemma {:induction false} PathsAfterDrop(v: Value, fields: seq<string>, p: Path)
    requires p != [] && forall f :: f in fields ==> Canonical(f)
    ensures HasPath(DropAll(v, fields), p) <==> HasPath(v, p) && Spared(p, fields)
    ensures (forall f :: f in fields ==> Unrelated(Segments(f), p)) ==> ReadAt(DropAll(v, fields), p) == ReadAt(v, p)
    decreases fields
  {
    if fields != [] {
      assert fields == [fields[0]] + fields[1..] && fields[0] in fields;
      PathsAfterDelete(v, Segments(fields[0]), p);
      PathsAfterDrop(DeleteAt(v, Segments(fields[0])), fields[1..], p);
    }
  }

  lemma {:induction false} PlainAfterDelete(v: Value, p: Path)
    requires PlainKeys(v)
    ensures PlainKeys(DeleteAt(v, p))
  {
    if v.Dict? && |p| > 1 && p[0] in v.entries { PlainAfterDelete(v.entries[p[0]], p[1..]); }
  }

  lemma {:induction false} PlainAfterDrop(v: Value, fields: seq<string>)
    requires PlainKeys(v)
    ensures PlainKeys(DropAll(v, fields))
    decreases fields
  {
    if fields != [] {
      PlainAfterDelete(v, Segments(fields[0]));
      PlainAfterDrop(DeleteAt(v, Segments(fields[0])), fields[1..]);
    }
  }

  /** On INSERT the payload keeps exactly the paths with no denied path at or above them, each with its value. */
  lemma InsertDropsExactlyDenied(policies: seq<Policy>, c: Context, payload: Value, path: string)
    requires PlainKeys(payload) && Canonical(path)
    ensures var paths := PayloadPaths(payload, "");
      var kept := DropAll(payload, DeniedPaths(policies, OpInsert, c, paths));
      && (path in PayloadPaths(kept, "") <==>
            path in paths &&
            forall f :: f in paths && Segments(f) <= Segments(path) ==> !IsDenied(policies, OpInsert, c, f))
      && ((forall f :: f in paths && IsDenied(policies, OpInsert, c, f) ==> Unrelated(Segments(f), Segments(path))) ==>
            ReadAt(kept, Segments(path)) == ReadAt(payload, Segments(path)))
  {
    var paths := PayloadPaths(payload, "");
    var denied := DeniedPaths(policies, OpInsert, c, paths);
    var kept := DropAll(payload, denied);
    PlainAfterDrop(payload, denied);
    PayloadPathsAre(payload);
    PayloadPathsAre(kept);
    PathsAfterDrop(payload, denied, Segments(path));
  }

  // ---- UPDATE ------------------------------------------------------------------

  /** The path reads in `v` as it reads in `w`, null and absent being one. */
  predicate ReadsAs(v: Value, w: Value, p: Path) {
    Same(ReadAt(v, p), ReadAt(w, p))
  }

  lemma SetThenSame(a: Value, b: Value, t: Path)
    requires t != [] && Same(a, b)
    ensures Same(SetAt(a, t, ReadAt(b, t)), b)
  {
    SameOutsideNothing(a, b);
    RestoreKeeps(a, b, t, {});
    SameOutsideNothing(SetAt(a, t, ReadAt(b, t)), b);
  }

  /** One restore never spoils a path that already reads right, and never makes a restorable path unrestorable. */
  lemma RestoreStep(v: Value, w: Value, q: Path, p: Path)
    requires q != [] && p != []
    ensures var r := SetAt(v, q, ReadAt(w, q));
      && (ReadsAs(v, w, p) ==> ReadsAs(r, w, p))
      && (ParentIsDict(v, p) ==> ParentIsDict(r, p) || ReadsAs(r, w, p))
      && (p == q && ParentIsDict(v, p) ==> ReadsAs(r, w, p))
  {
    var x := ReadAt(w, q);
    ReadOfSet(v, q, x);
    if q == p {
    } else if q <= p {
      var t := p[|q|..];
      assert p == q + t;
      ReadBelow(w, q, t);
      if ParentIsDict(v, q) { ReadBelowSet(v, q, t, x); }
    } else if p <= q {
      var t := q[|p|..];
      assert q == p + t;
      SetKeepsAncestors(v, q, x, p);
      ReadAboveSet(v, p, t, x);
      ReadBelow(w, p, t);
      if ReadsAs(v, w, p) { SetThenSame(ReadAt(v, p), ReadAt(w, p), t); }
    } else {
      SetElsewhere(v, q, x, p);
    }
  }

  lemma {:induction false} RestoredReads(v: Value, w: Value, fields: seq<string>, p: Path)
    requires p != [] && forall f :: f in fields ==> Segments(f) != []
    requires ParentIsDict(v, p) || ReadsAs(v, w, p)
    ensures ReadsAs(v, w, p) || (exists f :: f in fields && Segments(f) == p) ==>
      ReadsAs(RestoreAll(v, fields, w), w, p)
    decreases fields
  {
    if fields != [] {
      assert fields == [fields[0]] + fields[1..] && fields[0] in fields;
      var q := Segments(fields[0]);
      RestoreStep(v, w, q, p);
      RestoredReads(SetAt(v, q, ReadAt(w, q)), w, fields[1..], p);
    }
  }

  lemma {:induction false} RestoredElsewhere(v: Value, w: Value, fields: seq<string>, u: Path)
    requires u != [] && forall f :: f in fields ==> Segments(f) != [] && Unrelated(Segments(f), u)
    ensures ReadAt(RestoreAll(v, fields, w), u) == ReadAt(v, u)
    ensures HasPath(RestoreAll(v, fields, w), u) == HasPath(v, u)
    decreases fields
  {
    if fields != [] {
      assert fields[0] in fields;
      var q := Segments(fields[0]);
      SetElsewhere(v, q, ReadAt(w, q), u);
      RestoredElsewhere(SetAt(v, q, ReadAt(w, q)), w, fields[1..], u);
    }
  }

  /** On UPDATE every denied path the payload carries reads as stored, and nothing else moves. */
  lemma UpdateRestoresDenied(policies: seq<Policy>, c: Context, payload: Value, stored: Value, path: string)
    requires PlainKeys(payload) && Canonical(path)
    ensures var paths := PayloadPaths(payload, "");
      var r := RestoreAll(payload, DeniedPaths(policies, OpUpdate, c, paths), stored);
      && (path in paths && IsDenied(policies, OpUpdate, c, path) ==> ReadsAs(r, stored, Segments(path)))
      && ((forall f :: f in paths && IsDenied(policies, OpUpdate, c, f) ==> Unrelated(Segments(f), Segments(path))) ==>
            ReadAt(r, Segments(path)) == ReadAt(payload, Segments(path)) &&
            HasPath(r, Segments(path)) == HasPath(payload, Segments(path)))
  {
    var paths := PayloadPaths(payload, "");
    var denied := DeniedPaths(policies, OpUpdate, c, paths);
    PayloadPathsAre(payload);
    if path in paths {
      ReadOfSet(payload, Segments(path), Null);
      RestoredReads(payload, stored, denied, Segments(path));
    }
    if forall f :: f in denied ==> Unrelated(Segments(f), Segments(path)) {
      RestoredElsewhere(payload, stored, denied, Segments(path));
    }
  }

  lemma {:induction false} NothingBelowNull(v: Value, p: Path, q: Path)
    requires p != [] && p < q && ReadAt(v, p) == Null
    ensures !HasPath(v, q)
  {
    assert q == [q[0]] + q[1..] && p == [p[0]] + p[1..];
    if v.Dict? && q[0] in v.entries {
      if |p| > 1 { NothingBelowNull(v.entries[p[0]], p[1..], q[1..]); } else { assert v.entries[q[0]] == Null; }
    }
  }

  /** Blanking any path that is there keeps a null path null, and blanks itself. */
  lemma BlankKeepsNull(v: Value, q: Path, p: Path)
    requires p != [] && q != [] && (ReadAt(v, p) == Null || p == q)
    ensures ReadAt(BlankAt(v, q), p) == Null
  {
    if !HasPath(v, q) {
      if p == q { MissingReadsNull(v, p); }
    } else if q == p {
      ReadOfSet(v, q, Null);
    } else if q <= p {
      var t := p[|q|..];
      assert p == q + t;
      ReadOfSet(v, q, Null);
      ReadBelowSet(v, q, t, Null);
    } else if p <= q {
      NothingBelowNull(v, p, q);
    } else {
      SetElsewhere(v, q, Null, p);
    }
  }

  /** Blanks add no paths. */
  lemma BlankAddsNone(v: Value, q: Path, p: Path)
    requires p != [] && !HasPath(v, p)
    ensures !HasPath(BlankAt(v, q), p)
  {
    if q != [] && HasPath(v, q) { SetNullAddsNone(v, q, p); }
  }

  lemma {:induction false} SetNullAddsNone(v: Value, q: Path, p: Path)
    requires p != [] && q != [] && HasPath(v, q) && !HasPath(v, p)
    ensures !HasPath(SetAt(v, q, Null), p)
  {
    if |q| > 1 && p[0] == q[0] && |p| > 1 { SetNullAddsNone(v.entries[q[0]], q[1..], p[1..]); }
  }

  // ---- Undoing masks ----------------------------------------------------------

  function SegmentSet(fields: seq<string>): set<Path> {
    set f | f in fields :: Segments(f)
  }

  predicate Ascending(fields: seq<string>) {
    forall i, j :: 0 <= i < j < |fields| ==> StrLt(fields[i], fields[j])
  }

  /** The first of an ascending list of canonical paths lies below none of the others. */
  lemma FirstIsNoDescendant(fields: seq<string>, g: string)
    requires fields != [] && Ascending(fields) && g in fields[1..] && Canonical(fields[0]) && Canonical(g)
    ensures Segments(g) != Segments(fields[0]) && !(Segments(g) < Segments(fields[0]))
  {
    var j :| 0 <= j < |fields[1..]| && fields[1..][j] == g;
    assert StrLt(fields[0], fields[j + 1]);
    StrTotal(fields[0], g);
    assert fields[0] == Dotted(Segments(fields[0])) && g == Dotted(Segments(g)) && fields[0] != g;
    if Segments(g) < Segments(fields[0]) { AncestorSortsFirst(g, fields[0]); }
  }

  lemma SegmentSetCons(f: string, rest: seq<string>)
    ensures SegmentSet([f] + rest) == {Segments(f)} + SegmentSet(rest)
  {}

  /** Restoring a path takes it off what is covered, or something at or above it stays covered. */
  lemma OneUncovers(v: Value, w: Value, p: Path, less: set<Path>)
    requires p != [] && SameOutside(v, w, less + {p})
    ensures SameOutside(SetAt(v, p, ReadAt(w, p)), w, less)
  {
    if q :| q in less && q <= p {
      RestoreKeeps(v, w, p, less + {p});
      AncestorCovers(SetAt(v, p, ReadAt(w, p)), less, q, p);
      AncestorCovers(w, less, q, p);
    } else {
      RestoreUncovers(v, w, p, less + {p});
      assert less + {p} - {p} == less;
    }
  }

  /** The paths the fields of a list name. */
  function PathsNamed(fields: seq<string>): set<Path> {
    SegmentSet(fields) - {[]}
  }

  lemma FirstNamed(fields: seq<string>)
    requires fields != []
    ensures PathsNamed(fields) == {Segments(fields[0])} - {[]} + PathsNamed(fields[1..])
  {
    assert fields == [fields[0]] + fields[1..];
    SegmentSetCons(fields[0], fields[1..]);
  }

  /** Restoring a list of covered paths, in whatever order, leaves only the rest covered. */
  lemma {:induction false} RestoreAnyOrder(v: Value, w: Value, fields: seq<string>, base: set<Path>)
    requires SameOutside(v, w, base + PathsNamed(fields))
    ensures SameOutside(RestoreAll(v, fields, w), w, base)
    decreases fields
  {
    if fields == [] {
      assert base + PathsNamed(fields) == base;
    } else {
      var p, less := Segments(fields[0]), base + PathsNamed(fields[1..]);
      FirstNamed(fields);
      assert base + PathsNamed(fields) == if p == [] then less else less + {p};
      if p != [] { OneUncovers(v, w, p, less); }
      RestoreAnyOrder(SetAt(v, p, ReadAt(w, p)), w, fields[1..], base);
    }
  }
}
