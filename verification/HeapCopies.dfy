/** A row, its shallow copy and the blanks written through the copy, on dictionaries that are objects. */
module HeapCopies {
  import opened Values
  import opened Paths
  import opened HeapDicts
  import opened Session
  import opened Views

  /** What the copy points to: the row's own cells under linked keys, null elsewhere. */
  ghost function CopyKid(sh: Shape, t: Twin, k: string): Shape
    requires sh.Tree?
  {
    if k in t.linked && k in sh.kids then sh.kids[k] else Scalar(Null)
  }

  ghost function CopyKids(sh: Shape, t: Twin): map<string, Shape>
    requires sh.Tree?
  {
    map k | k in t.copy :: CopyKid(sh, t, k)
  }

  /** The copy's own tree. */
  ghost function CopyShape(copy: PyDict, sh: Shape, t: Twin): Shape
    requires sh.Tree?
  {
    Tree(copy, CopyKids(sh, t))
  }

  ghost predicate RowIn(row: PyDict, sh: Shape, original: Record, m: Memory) {
    sh.Tree? && sh.dict == row && Distinct(sh) && Holds(sh, m) && ValueOf(sh) == Dict(original)
  }

  ghost predicate CopyIn(copy: PyDict, sh: Shape, t: Twin, m: Memory)
    requires sh.Tree?
  {
    && copy in m && m[copy].Keys == t.copy.Keys
    && forall k :: k in t.copy ==>
      && (k in t.linked ==> k in sh.kids)
      && m[copy][k] == CellOf(CopyKid(sh, t, k)) && t.copy[k] == ValueOf(CopyKid(sh, t, k))
  }

  /** The two dictionaries stand for the twin. */
  ghost predicate TwinsIn(row: PyDict, copy: PyDict, sh: Shape, t: Twin, m: Memory) {
    RowIn(row, sh, t.original, m) && copy !in Footprint(sh) && CopyIn(copy, sh, t, m)
  }

  ghost predicate Twins(row: PyDict, copy: PyDict, sh: Shape, t: Twin)
    reads copy, Footprint(sh)
  {
    TwinsIn(row, copy, sh, t, Snapshot(Footprint(sh) + {copy}))
  }

  /** `record.copy()`. */
  method ShallowCopyOf(row: PyDict, ghost sh: Shape) returns (copy: PyDict)
    requires sh.Tree? && sh.dict == row && Stands(sh)
    ensures fresh(copy) && Twins(row, copy, sh, ShallowCopy(ValueOf(sh).entries))
  {
    ghost var m := Snapshot(Footprint(sh));
    copy := new PyDict(row.entries);
    assert Snapshot(Footprint(sh)) == m;
    ghost var t := ShallowCopy(ValueOf(sh).entries);
    assert CopyKids(sh, t) == sh.kids;
    HoldsElsewhere(sh, m, Snapshot(Footprint(sh) + {copy}));
  }

  lemma CopyKidsHold(sh: Shape, t: Twin, m: Memory)
    requires sh.Tree? && Distinct(sh) && Holds(sh, m)
    ensures forall k :: k in CopyKids(sh, t) ==>
      && Distinct(CopyKids(sh, t)[k]) && Holds(CopyKids(sh, t)[k], m)
      && Footprint(CopyKids(sh, t)[k]) <= Footprint(sh) - {sh.dict}
    ensures forall j, k :: j in t.copy && k in t.copy && j != k ==>
      Footprint(CopyKids(sh, t)[j]) !! Footprint(CopyKids(sh, t)[k])
  {
  }

  lemma CopyHolds(row: PyDict, copy: PyDict, sh: Shape, t: Twin, m: Memory)
    requires TwinsIn(row, copy, sh, t, m)
    ensures var c := CopyShape(copy, sh, t);
      Distinct(c) && Holds(c, m) && Footprint(c) <= Footprint(sh) - {row} + {copy} && ValueOf(c) == Dict(t.copy)
  {
    CopyKidsHold(sh, t, m);
    assert ValueOf(CopyShape(copy, sh, t)).entries == t.copy;
  }

  /** The row's tree after the copy was blanked. */
  ghost function BlankedRow(sh: Shape, t: Twin, p: Path): Shape
    requires sh.Tree?
  {
    if |p| > 1 && HasPath(Dict(t.copy), p) && p[0] in sh.kids
    then Tree(sh.dict, sh.kids[p[0] := SetShape(sh.kids[p[0]], p[1..], Scalar(Null))])
    else sh
  }

  /** One entry of the copy replaced, in the memory as in the twin. */
  lemma EntrySet(copy: PyDict, sh: Shape, t: Twin, r: Twin, k: string, m: Memory, n: Memory)
    requires sh.Tree? && CopyIn(copy, sh, t, m) && copy in n && (k in r.linked ==> k in sh.kids)
    requires forall j :: j != k ==> (j in r.linked <==> j in t.linked)
    requires r.copy == t.copy[k := ValueOf(CopyKid(sh, r, k))]
    requires n[copy] == m[copy][k := CellOf(CopyKid(sh, r, k))]
    ensures CopyIn(copy, sh, r, n)
  {
    forall j | j in r.copy
      ensures j in r.linked ==> j in sh.kids
      ensures n[copy][j] == CellOf(CopyKid(sh, r, j)) && r.copy[j] == ValueOf(CopyKid(sh, r, j))
    {
      if j != k { assert j in t.copy && CopyKid(sh, r, j) == CopyKid(sh, t, j); }
    }
  }

  lemma BlankedTop(copy: PyDict, sh: Shape, t: Twin, k: string, m: Memory, n: Memory)
    requires sh.Tree? && CopyIn(copy, sh, t, m) && k in t.copy && copy in n && n[copy] == m[copy][k := Leaf(Null)]
    ensures CopyIn(copy, sh, TwinSet(t, [k], Null), n)
  {
    EntrySet(copy, sh, t, TwinSet(t, [k], Null), k, m, n);
  }

  /** A blank of a whole key writes the copy alone. */
  lemma BlankTop(row: PyDict, copy: PyDict, sh: Shape, t: Twin, p: Path, m: Memory, n: Memory)
    requires TwinsIn(row, copy, sh, t, m) && |p| == 1 && HasPath(Dict(t.copy), p)
    requires var c := CopyShape(copy, sh, t); DifferIn(m, n, Parent(c, p)) && Holds(SetShape(c, p, Scalar(Null)), n)
    ensures TwinsIn(row, copy, sh, TwinSet(t, p, Null), n)
  {
    var k := p[0];
    assert p == [k];
    TopWritten(copy, sh, t, k, m, n);
    BlankedTop(copy, sh, t, k, m, n);
    FootprintHeld(sh, m);
    HoldsElsewhere(sh, m, n);
  }

  lemma TopWritten(copy: PyDict, sh: Shape, t: Twin, k: string, m: Memory, n: Memory)
    requires sh.Tree? && CopyIn(copy, sh, t, m) && Holds(SetShape(CopyShape(copy, sh, t), [k], Scalar(Null)), n)
    ensures copy in n && n[copy] == m[copy][k := Leaf(Null)]
  {
    TreeWritten(copy, CopyKids(sh, t), k, m[copy], n);
  }

  lemma TreeWritten(copy: PyDict, kids: map<string, Shape>, k: string, cells: map<string, Cell>, n: Memory)
    requires Holds(SetShape(Tree(copy, kids), [k], Scalar(Null)), n) && cells == map j | j in kids :: CellOf(kids[j])
    ensures copy in n && n[copy] == cells[k := Leaf(Null)]
  {
    assert SetShape(Tree(copy, kids), [k], Scalar(Null)) == Tree(copy, kids[k := Scalar(Null)]);
  }

  lemma RowWritten(sh: Shape, k: string, rest: Path, m: Memory, n: Memory, target: PyDict)
    requires sh.Tree? && Distinct(sh) && Holds(sh, m) && DifferIn(m, n, target)
    requires k in sh.kids && rest != [] && sh.kids[k].Tree? && target in Footprint(sh.kids[k])
    requires Holds(SetShape(sh.kids[k], rest, Scalar(Null)), n)
    ensures var now := Tree(sh.dict, sh.kids[k := SetShape(sh.kids[k], rest, Scalar(Null))]);
      && Distinct(now) && Holds(now, n) && Footprint(now) <= Footprint(sh)
      && ValueOf(now).entries == ValueOf(sh).entries[k := SetAt(ValueOf(sh.kids[k]), rest, Null)]
  {
    var kid := SetShape(sh.kids[k], rest, Scalar(Null));
    KidSet(sh.kids[k], rest);
    KidInside(sh, k, kid);
    DistinctUpdate(sh, k, kid, {});
    KidWritten(sh, k, kid, m, n, target);
    KidValue(sh, k, kid);
  }

  lemma KidSet(kid: Shape, rest: Path)
    requires kid.Tree? && Distinct(kid) && rest != []
    ensures var now := SetShape(kid, rest, Scalar(Null));
      && Distinct(now) && Footprint(now) <= Footprint(kid) && CellOf(now) == CellOf(kid)
      && ValueOf(now) == SetAt(ValueOf(kid), rest, Null)
  {
    SetShapeInside(kid, rest, Scalar(Null));
    SetShapeDistinct(kid, rest, Scalar(Null));
    SetShapeValue(kid, rest, Scalar(Null));
  }

  lemma KidInside(sh: Shape, k: string, kid: Shape)
    requires sh.Tree? && k in sh.kids && Footprint(kid) <= Footprint(sh.kids[k])
    ensures Footprint(Tree(sh.dict, sh.kids[k := kid])) <= Footprint(sh)
  {}

  /** A blank below a shared key writes an object of the row. */
  lemma BlankBelow(row: PyDict, copy: PyDict, sh: Shape, t: Twin, p: Path, m: Memory, n: Memory)
    requires TwinsIn(row, copy, sh, t, m) && |p| > 1 && HasPath(Dict(t.copy), p)
    requires var c := CopyShape(copy, sh, t); DifferIn(m, n, Parent(c, p)) && Holds(SetShape(c, p, Scalar(Null)), n)
    ensures TwinsIn(row, copy, BlankedRow(sh, t, p), TwinSet(t, p, Null), n)
    ensures Footprint(BlankedRow(sh, t, p)) <= Footprint(sh)
  {
    var k, rest := p[0], p[1..];
    BlankBelowParent(row, copy, sh, t, p, m);
    BlankedKid(copy, sh, t, k, rest, n);
    SharedWritten(row, copy, sh, t, k, rest, m, n, Parent(sh.kids[k], rest));
    BlankedRowIs(sh, t, p, k, rest);
  }

  lemma BlankedRowIs(sh: Shape, t: Twin, p: Path, k: string, rest: Path)
    requires sh.Tree? && |p| > 1 && HasPath(Dict(t.copy), p) && k == p[0] && rest == p[1..] && k in sh.kids
    ensures p == [k] + rest
    ensures BlankedRow(sh, t, p) == Tree(sh.dict, sh.kids[k := SetShape(sh.kids[k], rest, Scalar(Null))])
  {}

  lemma BlankedKid(copy: PyDict, sh: Shape, t: Twin, k: string, rest: Path, n: Memory)
    requires sh.Tree? && k in sh.kids
    requires Holds(Tree(copy, CopyKids(sh, t)[k := SetShape(sh.kids[k], rest, Scalar(Null))]), n)
    ensures Holds(SetShape(sh.kids[k], rest, Scalar(Null)), n)
  {
    KidHolds(Tree(copy, CopyKids(sh, t)[k := SetShape(sh.kids[k], rest, Scalar(Null))]), k, n);
  }

  lemma KidHolds(sh: Shape, k: string, m: Memory)
    requires sh.Tree? && Holds(sh, m) && k in sh.kids
    ensures Holds(sh.kids[k], m)
  {}

  lemma BlankBelowParent(row: PyDict, copy: PyDict, sh: Shape, t: Twin, p: Path, m: Memory)
    requires TwinsIn(row, copy, sh, t, m) && |p| > 1 && HasPath(Dict(t.copy), p)
    ensures p[0] in t.copy && p[0] in t.linked && p[0] in sh.kids && sh.kids[p[0]].Tree?
    ensures var c, kid := CopyShape(copy, sh, t), sh.kids[p[0]];
      && Parent(c, p) == Parent(kid, p[1..]) && Parent(c, p) != null && Parent(c, p) in Footprint(kid)
      && SetShape(c, p, Scalar(Null)) == Tree(copy, c.kids[p[0] := SetShape(kid, p[1..], Scalar(Null))])
  {
    var c := CopyShape(copy, sh, t);
    assert t.copy[p[0]].Dict? && c.kids[p[0]] == sh.kids[p[0]];
    CopyHolds(row, copy, sh, t, m);
    LastKeyTells(c, p, m);
    ParentInside(sh.kids[p[0]], p[1..]);
  }

  lemma SharedWritten(row: PyDict, copy: PyDict, sh: Shape, t: Twin, k: string, rest: Path, m: Memory, n: Memory,
      target: PyDict)
    requires TwinsIn(row, copy, sh, t, m) && DifferIn(m, n, target) && rest != []
    requires k in t.copy && k in t.linked && k in sh.kids && sh.kids[k].Tree? && target in Footprint(sh.kids[k])
    requires Holds(SetShape(sh.kids[k], rest, Scalar(Null)), n)
    ensures var now := Tree(sh.dict, sh.kids[k := SetShape(sh.kids[k], rest, Scalar(Null))]);
      TwinsIn(row, copy, now, TwinSet(t, [k] + rest, Null), n) && Footprint(now) <= Footprint(sh)
  {
    RowWritten(sh, k, rest, m, n, target);
    CopyWritten(copy, sh, t, k, rest, m, n);
    TwinSetBelow(t, k, rest);
  }

  /** The copy's own entries do not change, and stand for the twin's new copy. */
  lemma CopyWritten(copy: PyDict, sh: Shape, t: Twin, k: string, rest: Path, m: Memory, n: Memory)
    requires sh.Tree? && CopyIn(copy, sh, t, m) && copy in n && n[copy] == m[copy]
    requires Distinct(sh) && k in sh.kids && sh.kids[k].Tree? && rest != [] && k in t.copy && k in t.linked
    ensures CopyIn(copy, Tree(sh.dict, sh.kids[k := SetShape(sh.kids[k], rest, Scalar(Null))]),
                   TwinSet(t, [k] + rest, Null), n)
  {
    var kid := SetShape(sh.kids[k], rest, Scalar(Null));
    SetShapeValue(sh.kids[k], rest, Scalar(Null));
    TwinSetBelow(t, k, rest);
    CopyKidWritten(copy, sh, t, k, kid, TwinSet(t, [k] + rest, Null), m, n);
  }

  lemma CopyKidWritten(copy: PyDict, sh: Shape, t: Twin, k: string, kid: Shape, r: Twin, m: Memory, n: Memory)
    requires sh.Tree? && CopyIn(copy, sh, t, m) && copy in n && n[copy] == m[copy]
    requires k in sh.kids && k in t.copy && k in t.linked && CellOf(kid) == CellOf(sh.kids[k])
    requires r.copy == t.copy[k := ValueOf(kid)] && r.linked == t.linked
    ensures CopyIn(copy, Tree(sh.dict, sh.kids[k := kid]), r, n)
  {
    var now := Tree(sh.dict, sh.kids[k := kid]);
    forall j | j in r.copy
      ensures j in r.linked ==> j in now.kids
      ensures n[copy][j] == CellOf(CopyKid(now, r, j)) && r.copy[j] == ValueOf(CopyKid(now, r, j))
    {
      if j != k { assert j in t.copy && CopyKid(now, r, j) == CopyKid(sh, t, j); }
    }
  }

  /** A write below a shared key shows on both sides. */
  lemma TwinSetBelow(t: Twin, k: string, rest: Path)
    requires rest != [] && k in t.copy && k in t.linked
    ensures var r := TwinSet(t, [k] + rest, Null);
      && r.copy == t.copy[k := SetAt(t.copy[k], rest, Null)] && r.linked == t.linked
      && (k in t.original ==> r.original == t.original[k := SetAt(t.original[k], rest, Null)])
  {
    assert ([k] + rest)[1..] == rest;
  }

  lemma BlankHappened(row: PyDict, copy: PyDict, sh: Shape, t: Twin, p: Path, m: Memory, n: Memory)
    requires TwinsIn(row, copy, sh, t, m)
    requires var c := CopyShape(copy, sh, t); DifferIn(m, n, BlankTarget(c, p)) && Holds(BlankShape(c, p), n)
    ensures TwinsIn(row, copy, BlankedRow(sh, t, p), TwinBlank(t, p), n)
    ensures Footprint(BlankedRow(sh, t, p)) <= Footprint(sh)
  {
    CopyHolds(row, copy, sh, t, m);
    if p == [] || !HasPath(Dict(t.copy), p) {
      NothingBlanked(row, copy, sh, t, m, n);
    } else if |p| == 1 {
      BlankTop(row, copy, sh, t, p, m, n);
    } else {
      BlankBelow(row, copy, sh, t, p, m, n);
    }
  }

  lemma NothingBlanked(row: PyDict, copy: PyDict, sh: Shape, t: Twin, m: Memory, n: Memory)
    requires TwinsIn(row, copy, sh, t, m) && DifferIn(m, n, null)
    ensures TwinsIn(row, copy, sh, t, n)
  {
    FootprintHeld(sh, m);
    HoldsElsewhere(sh, m, n);
  }

  /** `_obfuscate_path` on the copy: it may reach into the row. */
  method BlankInCopy(row: PyDict, copy: PyDict, field: string, ghost sh: Shape, ghost t: Twin)
    returns (ghost now: Shape)
    requires Twins(row, copy, sh, t)
    modifies Footprint(sh), copy
    ensures Footprint(now) <= Footprint(sh) && Twins(row, copy, now, TwinBlank(t, Segments(field)))
  {
    ghost var c := CopyShape(copy, sh, t);
    ghost var p := Segments(field);
    ghost var m := Snapshot(Footprint(sh) + {copy});
    CopyHolds(row, copy, sh, t, m);
    HoldsElsewhere(c, m, Snapshot(Footprint(c)));
    ghost var cnow := ObfuscatePath(copy, field, c);
    now := BlankedRow(sh, t, p);
    ghost var n := Snapshot(Footprint(sh) + {copy});
    HoldsElsewhere(cnow, Snapshot(Footprint(cnow)), n);
    BlankHappened(row, copy, sh, t, p, m, n);
    HoldsElsewhere(now, n, Snapshot(Footprint(now) + {copy}));
  }

  /** `obfuscate_fields_in_place` on the copy. */
  method BlankAllInCopy(row: PyDict, copy: PyDict, fields: seq<string>, ghost sh: Shape, ghost t: Twin)
    returns (ghost now: Shape)
    requires Twins(row, copy, sh, t)
    modifies Footprint(sh), copy
    ensures Footprint(now) <= Footprint(sh) && Twins(row, copy, now, TwinBlanks(t, fields))
  {
    now := sh;
    ghost var u := t;
    for i := 0 to |fields|
      invariant Footprint(now) <= Footprint(sh) && Twins(row, copy, now, u)
      invariant TwinBlanks(u, fields[i..]) == TwinBlanks(t, fields)
    {
      assert fields[i..][1..] == fields[i + 1..];
      now := BlankInCopy(row, copy, fields[i], now, u);
      u := TwinBlank(u, Segments(fields[i]));
    }
    assert fields[|fields|..] == [];
  }

  // ---- `restore_path` on the copy, from the row ------------------------------------

  /** The cell a path names, if the walk finds it. */
  ghost function KidAt(sh: Shape, p: Path): Shape {
    if !sh.Tree? || p == [] || p[0] !in sh.kids then Scalar(Null)
    else if |p| == 1 then sh.kids[p[0]]
    else KidAt(sh.kids[p[0]], p[1..])
  }

  /** `_path_get_child` on a dictionary. */
  function EntryOr(entries: map<string, Cell>, key: string): Cell {
    if key in entries then entries[key] else Leaf(Null)
  }

  lemma {:induction false} KidAtReads(sh: Shape, p: Path, m: Memory)
    requires p != [] && Distinct(sh) && Holds(sh, m)
    ensures ValueOf(KidAt(sh, p)) == ReadAt(ValueOf(sh), p)
    ensures Parent(sh, p) == null ==> KidAt(sh, p) == Scalar(Null)
    ensures Parent(sh, p) != null ==> Parent(sh, p) in m
    ensures Parent(sh, p) != null ==> CellOf(KidAt(sh, p)) == EntryOr(m[Parent(sh, p)], p[|p| - 1])
  {
    if sh.Tree? && |p| > 1 && p[0] in sh.kids { KidAtReads(sh.kids[p[0]], p[1..], m); }
    if sh.Tree? && |p| > 1 && p[0] !in sh.kids { assert ReadAt(Null, p[1..]) == Null; }
  }

  /** `_read_path` on objects: the cell, not a copy of it. */
  method ReadCell(root: PyDict, fieldPath: string, ghost sh: Shape, ghost others: set<PyDict>) returns (cell: Cell)
    requires sh.Tree? && sh.dict == root && Stands(sh)
    ensures cell == CellOf(KidAt(sh, Segments(fieldPath)))
    ensures Snapshot(others) == old(Snapshot(others))
  {
    var parts := Segments(fieldPath);
    if parts == [] { return Leaf(Null); }
    ghost var m := Snapshot(Footprint(sh));
    KidAtReads(sh, parts, m);
    ParentInside(sh, parts);
    var current := Walk(root, parts, sh, others);
    if current == null || parts[|parts| - 1] !in current.entries { return Leaf(Null); }
    cell := current.entries[parts[|parts| - 1]];
  }

  /** A restored whole key points to the row's own value again. */
  lemma RestoreTop(row: PyDict, copy: PyDict, sh: Shape, t: Twin, k: string, m: Memory, n: Memory)
    requires TwinsIn(row, copy, sh, t, m) && DifferIn(m, n, copy)
    requires n[copy] == m[copy][k := CellOf(KidAt(sh, [k]))]
    ensures TwinsIn(row, copy, sh, TwinRestore(t, [k]), n)
  {
    FootprintHeld(sh, m);
    HoldsElsewhere(sh, m, n);
    RestoredTop(copy, sh, t, k, m, n);
  }

  lemma RestoredTop(copy: PyDict, sh: Shape, t: Twin, k: string, m: Memory, n: Memory)
    requires sh.Tree? && ValueOf(sh) == Dict(t.original) && CopyIn(copy, sh, t, m)
    requires copy in n && n[copy] == m[copy][k := CellOf(KidAt(sh, [k]))]
    ensures CopyIn(copy, sh, TwinRestore(t, [k]), n)
  {
    var r := TwinRestore(t, [k]);
    var x := CopyKid(sh, r, k);
    assert KidAt(sh, [k]) == x && Get(t.original, k) == ValueOf(x);
    EntrySet(copy, sh, t, r, k, m, n);
  }

  /** The row's tree after a restore below a shared key: at most one null entry more. */
  ghost function RestoredRow(sh: Shape, p: Path): Shape
    requires sh.Tree?
  {
    if |p| > 1 && p[0] in sh.kids && !HasPath(ValueOf(sh.kids[p[0]]), p[1..])
    then Tree(sh.dict, sh.kids[p[0] := SetShape(sh.kids[p[0]], p[1..], Scalar(Null))])
    else sh
  }

  /** Writing a key of a dictionary with what it reads there: nothing, or one null entry. */
  lemma RestoreInPlace(kid: Shape, rest: Path, m: Memory, n: Memory, target: PyDict)
    requires rest != [] && Distinct(kid) && Holds(kid, m) && Parent(kid, rest) == target
    requires DifferIn(m, n, target) && target in m
    requires n[target] == m[target][rest[|rest| - 1] := EntryOr(m[target], rest[|rest| - 1])]
    ensures if HasPath(ValueOf(kid), rest) then DifferIn(m, n, null) else Holds(SetShape(kid, rest, Scalar(Null)), n)
  {
    LastKeyTells(kid, rest, m);
    if !HasPath(ValueOf(kid), rest) { WriteSets(kid, rest, Scalar(Null), m, n); }
  }

  /** A restore below a shared key reads and writes the same dictionary. */
  lemma RestoreBelow(row: PyDict, copy: PyDict, sh: Shape, t: Twin, k: string, rest: Path, m: Memory, n: Memory,
      target: PyDict)
    requires TwinsIn(row, copy, sh, t, m) && rest != [] && k in t.copy && k in t.linked && k in sh.kids
    requires Parent(sh.kids[k], rest) == target && DifferIn(m, n, target) && target in m
    requires n[target] == m[target][rest[|rest| - 1] := EntryOr(m[target], rest[|rest| - 1])]
    ensures TwinsIn(row, copy, RestoredRow(sh, [k] + rest), TwinRestore(t, [k] + rest), n)
    ensures Footprint(RestoredRow(sh, [k] + rest)) <= Footprint(sh)
  {
    ParentInside(sh.kids[k], rest);
    RestoredTwin(sh, t, k, rest);
    RestoredRowIs(sh, k, rest);
    RestoreInPlace(sh.kids[k], rest, m, n, target);
    if HasPath(ValueOf(sh.kids[k]), rest) {
      NothingBlanked(row, copy, sh, t, m, n);
    } else {
      KidIsTree(sh.kids[k], rest, target);
      SharedWritten(row, copy, sh, t, k, rest, m, n, target);
    }
  }

  lemma RestoredRowIs(sh: Shape, k: string, rest: Path)
    requires sh.Tree? && k in sh.kids && rest != []
    ensures RestoredRow(sh, [k] + rest) == if HasPath(ValueOf(sh.kids[k]), rest) then sh
      else Tree(sh.dict, sh.kids[k := SetShape(sh.kids[k], rest, Scalar(Null))])
  {
    assert ([k] + rest)[1..] == rest;
  }

  lemma KidIsTree(kid: Shape, rest: Path, target: PyDict)
    requires Parent(kid, rest) == target
    ensures kid.Tree? && rest != []
  {}

  lemma RestoredTwin(sh: Shape, t: Twin, k: string, rest: Path)
    requires sh.Tree? && ValueOf(sh) == Dict(t.original) && k in sh.kids && rest != []
    requires k in t.copy && k in t.linked && t.copy[k] == ValueOf(sh.kids[k])
    ensures ([k] + rest)[1..] == rest
    ensures TwinRestore(t, [k] + rest)
      == if HasPath(ValueOf(sh.kids[k]), rest) then t else TwinSet(t, [k] + rest, Null)
  {
    var v := ValueOf(sh.kids[k]);
    assert t.original[k] == v && ([k] + rest)[1..] == rest;
    assert ReadAt(Dict(t.original), [k] + rest) == ReadAt(v, rest);
    if HasPath(v, rest) { SelfSet(v, rest); } else { MissingReadsNull(v, rest); }
  }

  lemma RestoreNowhere(row: PyDict, copy: PyDict, sh: Shape, t: Twin, p: Path, m: Memory)
    requires TwinsIn(row, copy, sh, t, m) && p != [] && Parent(CopyShape(copy, sh, t), p) == null
    ensures TwinRestore(t, p) == t
  {
    var k, rest := p[0], p[1..];
    assert |p| > 1;
    if k in t.copy {
      CopyHolds(row, copy, sh, t, m);
      var x := KidAt(sh, p);
      KidAtReads(sh, p, m);
      SetNowhere(CopyKid(sh, t, k), rest, x);
      SetSame(t, k, rest, ValueOf(x));
      assert p == [k] + rest && ValueOf(x) == ReadAt(Dict(t.original), p);
    }
  }

  lemma SetSame(t: Twin, k: string, rest: Path, x: Value)
    requires rest != [] && k in t.copy && SetAt(t.copy[k], rest, x) == t.copy[k]
    requires k in t.linked && k in t.original ==> t.original[k] == t.copy[k]
    ensures TwinSet(t, [k] + rest, x) == t
  {
    assert ([k] + rest)[1..] == rest;
    assert t.copy[k := t.copy[k]] == t.copy;
    assert k in t.original ==> t.original[k := t.original[k]] == t.original;
  }

  lemma RestoreWritten(row: PyDict, copy: PyDict, sh: Shape, t: Twin, p: Path, m: Memory, n: Memory, target: PyDict)
    requires TwinsIn(row, copy, sh, t, m) && p != [] && Parent(CopyShape(copy, sh, t), p) == target
    requires target in m && DifferIn(m, n, target) && n[target] == m[target][p[|p| - 1] := CellOf(KidAt(sh, p))]
    ensures TwinsIn(row, copy, RestoredRow(sh, p), TwinRestore(t, p), n)
    ensures Footprint(RestoredRow(sh, p)) <= Footprint(sh)
  {
    var k, rest := p[0], p[1..];
    assert p == [k] + rest;
    if |p| == 1 {
      RestoreTop(row, copy, sh, t, k, m, n);
    } else {
      assert CopyShape(copy, sh, t).kids[k] == CopyKid(sh, t, k) && CopyKid(sh, t, k).Tree?;
      KidAtReads(sh.kids[k], rest, m);
      RestoreBelow(row, copy, sh, t, k, rest, m, n, target);
    }
  }

  /** `restore_path(copy, field, _read_path(row, field))`. */
  method RestoreInCopy(row: PyDict, copy: PyDict, field: string, ghost sh: Shape, ghost t: Twin)
    returns (ghost now: Shape)
    requires Twins(row, copy, sh, t)
    modifies Footprint(sh), copy
    ensures Footprint(now) <= Footprint(sh) && Twins(row, copy, now, TwinRestore(t, Segments(field)))
  {
    var p := Segments(field);
    if p == [] { return sh; }
    HoldsElsewhere(sh, Snapshot(Footprint(sh) + {copy}), Snapshot(Footprint(sh)));
    var original := ReadCell(row, field, sh, Footprint(sh) + {copy});
    var current := WalkCopy(row, copy, p, sh, t);
    if current == null {
      RestoreNowhere(row, copy, sh, t, p, Snapshot(Footprint(sh) + {copy}));
      return sh;
    }
    now := PutBack(row, copy, current, p, original, sh, t);
  }

  method WalkCopy(row: PyDict, copy: PyDict, p: Path, ghost sh: Shape, ghost t: Twin) returns (node: PyDict?)
    requires Twins(row, copy, sh, t) && p != []
    ensures node == Parent(CopyShape(copy, sh, t), p) && (node != null ==> node in Footprint(sh) + {copy})
    ensures Twins(row, copy, sh, t)
  {
    ghost var c := CopyShape(copy, sh, t);
    ghost var m := Snapshot(Footprint(sh) + {copy});
    CopyHolds(row, copy, sh, t, m);
    HoldsElsewhere(c, m, Snapshot(Footprint(c)));
    node := Walk(copy, p, c, Footprint(sh) + {copy});
    ParentInside(c, p);
  }

  method PutBack(row: PyDict, copy: PyDict, node: PyDict, p: Path, cell: Cell, ghost sh: Shape, ghost t: Twin)
    returns (ghost now: Shape)
    requires Twins(row, copy, sh, t) && p != [] && Parent(CopyShape(copy, sh, t), p) == node
    requires node in Footprint(sh) + {copy} && cell == CellOf(KidAt(sh, p))
    modifies node
    ensures Footprint(now) <= Footprint(sh) && Twins(row, copy, now, TwinRestore(t, p))
  {
    ghost var m := Snapshot(Footprint(sh) + {copy});
    node.entries := node.entries[p[|p| - 1] := cell];
    now := RestoredRow(sh, p);
    ghost var n := Snapshot(Footprint(sh) + {copy});
    RestoreWritten(row, copy, sh, t, p, m, n, node);
    HoldsElsewhere(now, n, Snapshot(Footprint(now) + {copy}));
  }

  // ---- A whole streamed row ----------------------------------------------------------

  /** What has been read of a dictionary so far. */
  ghost predicate ReadOf(entries: Record, sh: Shape, keys: set<string>)
    requires sh.Tree?
  {
    entries.Keys == keys <= sh.kids.Keys && forall k :: k in keys ==> entries[k] == ValueOf(sh.kids[k])
  }

  lemma ReadMore(entries: Record, sh: Shape, keys: set<string>, k: string, v: Value)
    requires sh.Tree? && ReadOf(entries, sh, keys) && k in sh.kids && v == ValueOf(sh.kids[k])
    ensures ReadOf(entries[k := v], sh, keys + {k})
  {}

  lemma AllRead(entries: Record, sh: Shape)
    requires sh.Tree? && ReadOf(entries, sh, sh.kids.Keys)
    ensures Dict(entries) == ValueOf(sh)
  {
    assert entries == ValueOf(sh).entries;
  }

  /** The value the objects hold now. */
  method Current(root: PyDict, ghost sh: Shape, ghost others: set<PyDict>) returns (entries: Record)
    requires sh.Tree? && sh.dict == root && Stands(sh)
    ensures Dict(entries) == ValueOf(sh) && Snapshot(others) == old(Snapshot(others))
    decreases sh, 1
  {
    ghost var all := others + Footprint(sh);
    ghost var m := Snapshot(all);
    HoldsElsewhere(sh, Snapshot(Footprint(sh)), m);
    entries := CurrentEntries(root.entries, sh, all);
    AllRead(entries, sh);
    assert forall d :: d in others ==> d.entries == m[d];
  }

  method CurrentEntries(cells: map<string, Cell>, ghost sh: Shape, ghost all: set<PyDict>) returns (entries: Record)
    requires sh.Tree? && Distinct(sh) && Footprint(sh) <= all && Holds(sh, Snapshot(all))
    requires cells == Snapshot(all)[sh.dict]
    ensures ReadOf(entries, sh, sh.kids.Keys) && Snapshot(all) == old(Snapshot(all))
    decreases sh, 0
  {
    var todo := cells.Keys;
    entries := map[];
    while todo != {}
      invariant todo <= cells.Keys == sh.kids.Keys && ReadOf(entries, sh, cells.Keys - todo)
      invariant Snapshot(all) == old(Snapshot(all))
      decreases todo
    {
      var k :| k in todo;
      KidStands(sh, k, all);
      var v := CurrentCell(cells[k], sh.kids[k], all);
      ReadMore(entries, sh, cells.Keys - todo, k, v);
      assert cells.Keys - (todo - {k}) == cells.Keys - todo + {k};
      entries, todo := entries[k := v], todo - {k};
    }
    assert cells.Keys - todo == sh.kids.Keys;
  }

  lemma KidStands(sh: Shape, k: string, all: set<PyDict>)
    requires sh.Tree? && Distinct(sh) && Footprint(sh) <= all && Holds(sh, Snapshot(all)) && k in sh.kids
    ensures Stands(sh.kids[k]) && Snapshot(all)[sh.dict][k] == CellOf(sh.kids[k])
  {
    HoldsElsewhere(sh.kids[k], Snapshot(all), Snapshot(Footprint(sh.kids[k])));
  }

  method CurrentCell(cell: Cell, ghost kid: Shape, ghost others: set<PyDict>) returns (v: Value)
    requires cell == CellOf(kid) && Stands(kid)
    ensures v == ValueOf(kid) && Snapshot(others) == old(Snapshot(others))
    decreases kid, 2
  {
    if cell.Leaf? { return cell.value; }
    var inner := Current(cell.dict, kid, others);
    v := Dict(inner);
  }

  /** `apply_field_rule_conditions` between a row and its copy: each condition reads the row as it is by then. */
  method RevealAllInCopy(w: Setting, row: PyDict, copy: PyDict, fields: seq<string>, ghost sh: Shape, ghost t: Twin)
    returns (ghost now: Shape)
    requires Twins(row, copy, sh, t)
    modifies Footprint(sh), copy
    ensures Footprint(now) <= Footprint(sh) && Twins(row, copy, now, TwinReveals(w, t, fields))
  {
    now := sh;
    ghost var u := t;
    for i := 0 to |fields|
      invariant Footprint(now) <= Footprint(sh) && Twins(row, copy, now, u)
      invariant TwinReveals(w, u, fields[i..]) == TwinReveals(w, t, fields)
    {
      assert fields[i..][1..] == fields[i + 1..];
      now, u := RevealInCopy(w, row, copy, fields[i], now, u);
    }
    assert fields[|fields|..] == [];
  }

  method RevealInCopy(w: Setting, row: PyDict, copy: PyDict, field: string, ghost sh: Shape, ghost t: Twin)
    returns (ghost now: Shape, ghost r: Twin)
    requires Twins(row, copy, sh, t)
    modifies Footprint(sh), copy
    ensures r == if Revealed(w, t.original, field) then TwinRestore(t, Segments(field)) else t
    ensures Footprint(now) <= Footprint(sh) && Twins(row, copy, now, r)
  {
    HoldsElsewhere(sh, Snapshot(Footprint(sh) + {copy}), Snapshot(Footprint(sh)));
    var original := Current(row, sh, Footprint(sh) + {copy});
    if Revealed(w, original, field) {
      now := RestoreInCopy(row, copy, field, sh, t);
      r := TwinRestore(t, Segments(field));
    } else {
      now, r := sh, t;
    }
  }

  /** One row of a stream on objects: the copy handed out is the twin's, whatever the aliasing did to the row. */
  method StreamRowInPlace(w: Setting, row: PyDict, baseline: seq<string>, ghost sh: Shape)
    returns (copy: PyDict, ghost now: Shape, ghost t: Twin)
    requires sh.Tree? && sh.dict == row && Stands(sh)
    modifies Footprint(sh)
    ensures fresh(copy) && Twins(row, copy, now, t) && Footprint(now) <= Footprint(sh)
    ensures t.copy == StreamedCopy(w, ValueOf(sh).entries, baseline)
  {
    copy := ShallowCopyOf(row, sh);
    t := ShallowCopy(ValueOf(sh).entries);
    now := BlankAllInCopy(row, copy, baseline, sh, t);
    t := TwinBlanks(t, baseline);
    now := RevealAllInCopy(w, row, copy, baseline, now, t);
    t := TwinReveals(w, t, baseline);
  }
}
