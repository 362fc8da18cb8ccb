/** The path operations as the program runs them: in place, on dictionaries that are objects. */
module HeapDicts {
  import opened Values
  import opened Paths

  /** A dictionary entry: a plain value, or a reference to another dictionary. */
  datatype Cell = Leaf(value: Value) | Node(dict: PyDict)

  class PyDict {
    var entries: map<string, Cell>

    constructor (entries: map<string, Cell>)
      ensures this.entries == entries
    {
      this.entries := entries;
    }
  }

  /** What some dictionaries hold at one moment. */
  type Memory = map<PyDict, map<string, Cell>>

  ghost function Snapshot(dicts: set<PyDict>): Memory
    reads dicts
  {
    map d | d in dicts :: d.entries
  }

  /** What hangs below a cell: the dictionaries and, at the leaves, the values. */
  datatype Shape = Scalar(value: Value) | Tree(dict: PyDict, kids: map<string, Shape>)

  ghost function Footprint(sh: Shape): set<PyDict> {
    match sh
    case Scalar(_) => {}
    case Tree(d, kids) => {d} + set k, o | k in kids && o in Footprint(kids[k]) :: o
  }

  /** No dictionary hangs in two places. */
  ghost predicate Distinct(sh: Shape) {
    match sh
    case Scalar(v) => !v.Dict?
    case Tree(d, kids) =>
      && (forall k :: k in kids ==> Distinct(kids[k]) && d !in Footprint(kids[k]))
      && (forall j, k :: j in kids && k in kids && j != k ==> Footprint(kids[j]) !! Footprint(kids[k]))
  }

  function CellOf(sh: Shape): Cell {
    match sh
    case Scalar(v) => Leaf(v)
    case Tree(d, _) => Node(d)
  }

  /** The memory has this shape. */
  ghost predicate Holds(sh: Shape, m: Memory) {
    match sh
    case Scalar(_) => true
    case Tree(d, kids) =>
      && d in m && m[d] == (map k | k in kids :: CellOf(kids[k]))
      && forall k :: k in kids ==> Holds(kids[k], m)
  }

  /** The value a shape stands for. */
  ghost function ValueOf(sh: Shape): Value {
    match sh
    case Scalar(v) => v
    case Tree(_, kids) => Dict(map k | k in kids :: ValueOf(kids[k]))
  }

  /** What a shape stands for depends on nothing outside it. */
  lemma {:induction false} HoldsElsewhere(sh: Shape, m: Memory, n: Memory)
    requires Holds(sh, m) && forall d :: d in Footprint(sh) ==> d in n && (d in m ==> n[d] == m[d])
    ensures Holds(sh, n)
  {
    if sh.Tree? {
      forall k | k in sh.kids ensures Holds(sh.kids[k], n) {
        assert forall d :: d in Footprint(sh.kids[k]) ==> d in Footprint(sh);
        HoldsElsewhere(sh.kids[k], m, n);
      }
    }
  }

  // ---- Writing one place of a shape ------------------------------------------------

  ghost function SetShape(sh: Shape, p: Path, x: Shape): Shape {
    if !sh.Tree? || p == [] then sh
    else if |p| == 1 then Tree(sh.dict, sh.kids[p[0] := x])
    else if p[0] in sh.kids then Tree(sh.dict, sh.kids[p[0] := SetShape(sh.kids[p[0]], p[1..], x)])
    else sh
  }

  ghost function DeleteShape(sh: Shape, p: Path): Shape {
    if !sh.Tree? || p == [] then sh
    else if |p| == 1 then Tree(sh.dict, sh.kids - {p[0]})
    else if p[0] in sh.kids then Tree(sh.dict, sh.kids[p[0] := DeleteShape(sh.kids[p[0]], p[1..])])
    else sh
  }

  lemma {:induction false} SetShapeValue(sh: Shape, p: Path, x: Shape)
    requires Distinct(sh)
    ensures ValueOf(SetShape(sh, p, x)) == SetAt(ValueOf(sh), p, ValueOf(x))
  {
    if sh.Tree? && |p| == 1 {
      KidValue(sh, p[0], x);
    } else if sh.Tree? && |p| > 1 && p[0] in sh.kids {
      SetShapeValue(sh.kids[p[0]], p[1..], x);
      KidValue(sh, p[0], SetShape(sh.kids[p[0]], p[1..], x));
    }
  }

  lemma KidValue(sh: Shape, k: string, kid: Shape)
    requires sh.Tree?
    ensures ValueOf(Tree(sh.dict, sh.kids[k := kid])) == Dict(ValueOf(sh).entries[k := ValueOf(kid)])
  {
    assert ValueOf(Tree(sh.dict, sh.kids[k := kid])).entries == ValueOf(sh).entries[k := ValueOf(kid)];
  }

  lemma {:induction false} DeleteShapeValue(sh: Shape, p: Path)
    requires Distinct(sh)
    ensures ValueOf(DeleteShape(sh, p)) == DeleteAt(ValueOf(sh), p)
  {
    if sh.Tree? && |p| == 1 {
      NoKidValue(sh, p[0]);
    } else if sh.Tree? && |p| > 1 && p[0] in sh.kids {
      DeleteShapeValue(sh.kids[p[0]], p[1..]);
      KidValue(sh, p[0], DeleteShape(sh.kids[p[0]], p[1..]));
    }
  }

  lemma NoKidValue(sh: Shape, k: string)
    requires sh.Tree?
    ensures ValueOf(Tree(sh.dict, sh.kids - {k})) == Dict(ValueOf(sh).entries - {k})
  {
    assert ValueOf(Tree(sh.dict, sh.kids - {k})).entries == ValueOf(sh).entries - {k};
  }

  /** The dictionary the walk over all parts but the last reaches. */
  ghost function Parent(sh: Shape, p: Path): PyDict? {
    if !sh.Tree? || p == [] then null
    else if |p| == 1 then sh.dict
    else if p[0] in sh.kids then Parent(sh.kids[p[0]], p[1..])
    else null
  }

  lemma {:induction false} ParentInside(sh: Shape, p: Path)
    ensures Parent(sh, p) != null ==> Parent(sh, p) in Footprint(sh)
  {
    if sh.Tree? && |p| > 1 && p[0] in sh.kids { ParentInside(sh.kids[p[0]], p[1..]); }
  }

  /** Where the walk stops, no path operation writes anything. */
  lemma {:induction false} NoParentNoChange(sh: Shape, p: Path, x: Shape)
    requires Parent(sh, p) == null
    ensures SetShape(sh, p, x) == sh && DeleteShape(sh, p) == sh
  {
    if sh.Tree? && |p| > 1 && p[0] in sh.kids {
      NoParentNoChange(sh.kids[p[0]], p[1..], x);
      assert sh.kids[p[0] := sh.kids[p[0]]] == sh.kids;
    }
  }

  lemma {:induction false} SetShapeInside(sh: Shape, p: Path, x: Shape)
    ensures Footprint(SetShape(sh, p, x)) <= Footprint(sh) + Footprint(x)
  {
    if sh.Tree? && |p| > 1 && p[0] in sh.kids { SetShapeInside(sh.kids[p[0]], p[1..], x); }
  }

  lemma DistinctUpdate(sh: Shape, k: string, kid: Shape, extra: set<PyDict>)
    requires sh.Tree? && Distinct(sh) && Distinct(kid) && Footprint(sh) !! extra
    requires Footprint(kid) <= (if k in sh.kids then Footprint(sh.kids[k]) else {}) + extra
    ensures Distinct(Tree(sh.dict, sh.kids[k := kid]))
  {
    var kids := sh.kids[k := kid];
    forall j | j in kids ensures Distinct(kids[j]) && sh.dict !in Footprint(kids[j]) {}
    forall i, j | i in kids && j in kids && i != j ensures Footprint(kids[i]) !! Footprint(kids[j]) {
      assert i != k ==> Footprint(sh.kids[i]) <= Footprint(sh);
      assert j != k ==> Footprint(sh.kids[j]) <= Footprint(sh);
    }
  }

  lemma {:induction false} SetShapeDistinct(sh: Shape, p: Path, x: Shape)
    requires Distinct(sh) && Distinct(x) && Footprint(sh) !! Footprint(x)
    ensures Distinct(SetShape(sh, p, x))
  {
    if sh.Tree? && p != [] && (|p| == 1 || p[0] in sh.kids) {
      var k := p[0];
      if |p| > 1 {
        SetShapeDistinct(sh.kids[k], p[1..], x);
        SetShapeInside(sh.kids[k], p[1..], x);
        DistinctUpdate(sh, k, SetShape(sh.kids[k], p[1..], x), Footprint(x));
      } else {
        DistinctUpdate(sh, k, x, Footprint(x));
      }
    }
  }

  lemma {:induction false} DeleteShapeDistinct(sh: Shape, p: Path)
    requires Distinct(sh)
    ensures Distinct(DeleteShape(sh, p)) && Footprint(DeleteShape(sh, p)) <= Footprint(sh)
  {
    if sh.Tree? && |p| > 1 && p[0] in sh.kids {
      DeleteShapeDistinct(sh.kids[p[0]], p[1..]);
      DistinctUpdate(sh, p[0], DeleteShape(sh.kids[p[0]], p[1..]), {});
    }
  }

  /** Two memories that differ in one dictionary. */
  ghost predicate DifferIn(m: Memory, n: Memory, target: PyDict?) {
    m.Keys <= n.Keys && forall d :: d in m && d != target ==> n[d] == m[d]
  }

  /** The kids a change below one key does not touch. */
  lemma OthersHold(sh: Shape, k: string, m: Memory, n: Memory, target: PyDict)
    requires sh.Tree? && Distinct(sh) && Holds(sh, m) && DifferIn(m, n, target)
    requires target == sh.dict || (k in sh.kids && target in Footprint(sh.kids[k]))
    ensures forall j :: j in sh.kids && j != k ==> Holds(sh.kids[j], n)
  {
    forall j | j in sh.kids && j != k ensures Holds(sh.kids[j], n) {
      FootprintHeld(sh.kids[j], m);
      assert target !in Footprint(sh.kids[j]);
      HoldsElsewhere(sh.kids[j], m, n);
    }
  }

  lemma {:induction false} FootprintHeld(sh: Shape, m: Memory)
    requires Holds(sh, m)
    ensures Footprint(sh) <= m.Keys
  {
    if sh.Tree? {
      forall k | k in sh.kids ensures Footprint(sh.kids[k]) <= m.Keys { FootprintHeld(sh.kids[k], m); }
    }
  }

  /** Writing the parent dictionary of a path gives the memory the written shape. */
  lemma {:induction false} WriteSets(sh: Shape, p: Path, x: Shape, m: Memory, n: Memory)
    requires p != [] && Distinct(sh) && Holds(sh, m) && Parent(sh, p) != null && Holds(x, n)
    requires DifferIn(m, n, Parent(sh, p)) && Parent(sh, p) in m
    requires n[Parent(sh, p)] == m[Parent(sh, p)][p[|p| - 1] := CellOf(x)]
    ensures Holds(SetShape(sh, p, x), n)
  {
    var k, target := p[0], Parent(sh, p);
    if |p| == 1 {
      TopSet(sh, k, x, m, n);
    } else {
      var rest := p[1..];
      ParentInside(sh.kids[k], rest);
      WriteSets(sh.kids[k], rest, x, m, n);
      KidWritten(sh, k, SetShape(sh.kids[k], rest, x), m, n, target);
    }
  }

  lemma TopSet(sh: Shape, k: string, x: Shape, m: Memory, n: Memory)
    requires sh.Tree? && Distinct(sh) && Holds(sh, m) && Holds(x, n) && DifferIn(m, n, sh.dict)
    requires n[sh.dict] == m[sh.dict][k := CellOf(x)]
    ensures Holds(Tree(sh.dict, sh.kids[k := x]), n)
  {
    OthersHold(sh, k, m, n, sh.dict);
  }

  lemma KidWritten(sh: Shape, k: string, kid: Shape, m: Memory, n: Memory, target: PyDict)
    requires sh.Tree? && Distinct(sh) && Holds(sh, m) && DifferIn(m, n, target)
    requires k in sh.kids && target in Footprint(sh.kids[k]) && Holds(kid, n) && CellOf(kid) == CellOf(sh.kids[k])
    ensures Holds(Tree(sh.dict, sh.kids[k := kid]), n)
  {
    OthersHold(sh, k, m, n, target);
    var kids := sh.kids[k := kid];
    assert (map j | j in kids :: CellOf(kids[j])) == map j | j in sh.kids :: CellOf(sh.kids[j]);
  }

  /** Removing a key of the parent dictionary of a path. */
  lemma {:induction false} RemoveDeletes(sh: Shape, p: Path, m: Memory, n: Memory)
    requires p != [] && Distinct(sh) && Holds(sh, m) && Parent(sh, p) != null
    requires DifferIn(m, n, Parent(sh, p)) && Parent(sh, p) in m
    requires n[Parent(sh, p)] == m[Parent(sh, p)] - {p[|p| - 1]}
    ensures Holds(DeleteShape(sh, p), n)
  {
    var k, target := p[0], Parent(sh, p);
    if |p| == 1 {
      OthersHold(sh, k, m, n, target);
    } else {
      var rest := p[1..];
      ParentInside(sh.kids[k], rest);
      RemoveDeletes(sh.kids[k], rest, m, n);
      KidWritten(sh, k, DeleteShape(sh.kids[k], rest), m, n, target);
    }
  }

  // ---- The operations ---------------------------------------------------------------

  /** The objects now form this tree. */
  ghost predicate Stands(sh: Shape)
    reads Footprint(sh)
  {
    Distinct(sh) && Holds(sh, Snapshot(Footprint(sh)))
  }

  /** The walk every path operation begins with. */
  method Walk(root: PyDict, parts: Path, ghost sh: Shape, ghost others: set<PyDict>) returns (current: PyDict?)
    requires parts != [] && sh.Tree? && sh.dict == root && Stands(sh)
    ensures current == Parent(sh, parts)
    ensures Stands(sh) && Snapshot(others) == old(Snapshot(others))
  {
    ghost var m := Snapshot(Footprint(sh));
    var node := root;
    ghost var here := sh;
    var i := 0;
    while i < |parts| - 1
      invariant 0 <= i < |parts| && here.Tree? && here.dict == node && node in Footprint(sh)
      invariant Holds(here, m) && m == Snapshot(Footprint(sh)) && Snapshot(others) == old(Snapshot(others))
      invariant Parent(here, parts[i..]) == Parent(sh, parts)
    {
      assert parts[i..][0] == parts[i] && parts[i..][1..] == parts[i + 1..];
      assert node.entries == m[node];
      if parts[i] !in node.entries || !node.entries[parts[i]].Node? { return null; }
      node := node.entries[parts[i]].dict;
      here := here.kids[parts[i]];
      FootprintHeld(here, m);
      i := i + 1;
    }
    current := node;
  }

  /** `_path_set` at the end of a walk. */
  method PathSet(node: PyDict, key: string, cell: Cell, ghost sh: Shape, ghost p: Path, ghost x: Shape)
    requires p != [] && p[|p| - 1] == key && Stands(sh) && node == Parent(sh, p)
    requires Stands(x) && cell == CellOf(x) && Footprint(x) !! Footprint(sh)
    modifies node
    ensures Stands(SetShape(sh, p, x))
    ensures ValueOf(SetShape(sh, p, x)) == SetAt(ValueOf(sh), p, ValueOf(x))
  {
    ghost var m := Snapshot(Footprint(sh));
    ParentInside(sh, p);
    node.entries := node.entries[key := cell];
    ghost var n := Snapshot(Footprint(sh) + Footprint(x));
    HoldsElsewhere(x, Snapshot(Footprint(x)), n);
    WrittenShape(sh, p, x, m, n);
    HoldsElsewhere(SetShape(sh, p, x), n, Snapshot(Footprint(SetShape(sh, p, x))));
    SetShapeValue(sh, p, x);
  }

  lemma WrittenShape(sh: Shape, p: Path, x: Shape, m: Memory, n: Memory)
    requires p != [] && Distinct(sh) && Holds(sh, m) && Parent(sh, p) != null && Holds(x, n)
    requires Distinct(x) && Footprint(sh) !! Footprint(x)
    requires DifferIn(m, n, Parent(sh, p)) && Parent(sh, p) in m
    requires n[Parent(sh, p)] == m[Parent(sh, p)][p[|p| - 1] := CellOf(x)]
    ensures var now := SetShape(sh, p, x);
      Distinct(now) && Holds(now, n) && Footprint(now) <= Footprint(sh) + Footprint(x)
  {
    WriteSets(sh, p, x, m, n);
    SetShapeDistinct(sh, p, x);
    SetShapeInside(sh, p, x);
  }

  /** `_path_del` at the end of a walk. */
  method PathDel(node: PyDict, key: string, ghost sh: Shape, ghost p: Path)
    requires p != [] && p[|p| - 1] == key && Stands(sh) && node == Parent(sh, p)
    modifies node
    ensures Stands(DeleteShape(sh, p))
    ensures ValueOf(DeleteShape(sh, p)) == DeleteAt(ValueOf(sh), p)
  {
    ghost var m := Snapshot(Footprint(sh));
    ParentInside(sh, p);
    node.entries := node.entries - {key};
    ghost var n := Snapshot(Footprint(sh));
    RemoveDeletes(sh, p, m, n);
    DeleteShapeDistinct(sh, p);
    HoldsElsewhere(DeleteShape(sh, p), n, Snapshot(Footprint(DeleteShape(sh, p))));
    DeleteShapeValue(sh, p);
  }

  /** `_path_has_key` at the end of a walk tells whether the value has the path. */
  lemma {:induction false} LastKeyTells(sh: Shape, p: Path, m: Memory)
    requires p != [] && Distinct(sh) && Holds(sh, m)
    ensures HasPath(ValueOf(sh), p) <==>
      Parent(sh, p) != null && Parent(sh, p) in m && p[|p| - 1] in m[Parent(sh, p)]
  {
    if sh.Tree? && |p| > 1 && p[0] in sh.kids { LastKeyTells(sh.kids[p[0]], p[1..], m); }
  }

  ghost function BlankShape(sh: Shape, p: Path): Shape {
    if p != [] && HasPath(ValueOf(sh), p) then SetShape(sh, p, Scalar(Null)) else sh
  }

  /** The one dictionary `_obfuscate_path` writes, if any. */
  ghost function BlankTarget(sh: Shape, p: Path): PyDict? {
    if p != [] && HasPath(ValueOf(sh), p) then Parent(sh, p) else null
  }

  /** `_obfuscate_path`. */
  method ObfuscatePath(root: PyDict, fieldPath: string, ghost sh: Shape) returns (ghost now: Shape)
    requires sh.Tree? && sh.dict == root && Stands(sh)
    modifies Footprint(sh)
    ensures now.Tree? && now.dict == root && Stands(now) && Footprint(now) <= Footprint(sh)
    ensures ValueOf(now) == BlankAt(ValueOf(sh), Segments(fieldPath))
    ensures now == BlankShape(sh, Segments(fieldPath))
    ensures DifferIn(old(Snapshot(Footprint(sh))), Snapshot(Footprint(sh)), BlankTarget(sh, Segments(fieldPath)))
  {
    var parts := Segments(fieldPath);
    if parts == [] { return sh; }
    var current := Walk(root, parts, sh, Footprint(sh));
    ParentInside(sh, parts);
    LastKeyTells(sh, parts, Snapshot(Footprint(sh)));
    if current == null || parts[|parts| - 1] !in current.entries {
      now := sh;
    } else {
      now := SetFound(root, current, parts, Leaf(Null), sh, Scalar(Null));
    }
  }

  /** `restore_path` with a value of its own objects. */
  method RestorePath(root: PyDict, fieldPath: string, original: Cell, ghost sh: Shape, ghost x: Shape)
    returns (ghost now: Shape)
    requires sh.Tree? && sh.dict == root && Stands(sh)
    requires Stands(x) && original == CellOf(x) && Footprint(x) !! Footprint(sh)
    modifies Footprint(sh)
    ensures now.Tree? && now.dict == root && Stands(now) && Footprint(now) <= Footprint(sh) + Footprint(x)
    ensures ValueOf(now) == SetAt(ValueOf(sh), Segments(fieldPath), ValueOf(x))
  {
    var parts := Segments(fieldPath);
    if parts == [] { return sh; }
    var current := Walk(root, parts, sh, Footprint(x));
    if current == null {
      SetNowhere(sh, parts, x);
      return sh;
    }
    ParentInside(sh, parts);
    now := SetFound(root, current, parts, original, sh, x);
  }

  lemma SetNowhere(sh: Shape, p: Path, x: Shape)
    requires Distinct(sh) && Parent(sh, p) == null
    ensures SetAt(ValueOf(sh), p, ValueOf(x)) == ValueOf(sh)
  {
    NoParentNoChange(sh, p, x);
    SetShapeValue(sh, p, x);
  }

  method SetFound(root: PyDict, node: PyDict, parts: Path, cell: Cell, ghost sh: Shape, ghost x: Shape)
    returns (ghost now: Shape)
    requires parts != [] && sh.Tree? && sh.dict == root && Stands(sh) && node == Parent(sh, parts)
    requires Stands(x) && cell == CellOf(x) && Footprint(x) !! Footprint(sh)
    modifies node
    ensures now.Tree? && now.dict == root && Stands(now) && Footprint(now) <= Footprint(sh) + Footprint(x)
    ensures ValueOf(now) == SetAt(ValueOf(sh), parts, ValueOf(x)) && now == SetShape(sh, parts, x)
  {
    ParentInside(sh, parts);
    SetShapeInside(sh, parts, x);
    PathSet(node, parts[|parts| - 1], cell, sh, parts, x);
    now := SetShape(sh, parts, x);
  }

  /** `_delete_path`. */
  method DeletePath(root: PyDict, fieldPath: string, ghost sh: Shape) returns (ghost now: Shape)
    requires sh.Tree? && sh.dict == root && Stands(sh)
    modifies Footprint(sh)
    ensures now.Tree? && now.dict == root && Stands(now) && Footprint(now) <= Footprint(sh)
    ensures ValueOf(now) == DeleteAt(ValueOf(sh), Segments(fieldPath))
  {
    var parts := Segments(fieldPath);
    if parts == [] { return sh; }
    var current := Walk(root, parts, sh, {});
    if current == null {
      NoParentNoChange(sh, parts, Scalar(Null));
      DeleteShapeValue(sh, parts);
      return sh;
    }
    ParentInside(sh, parts);
    DeleteShapeDistinct(sh, parts);
    PathDel(current, parts[|parts| - 1], sh, parts);
    now := DeleteShape(sh, parts);
  }
}
