/** Dotted field paths and the operations that read, set, blank and delete what they name. */
module Paths {
  import opened Values
  import opened Text

  type Path = seq<string>

  function NonEmpty(parts: seq<string>): seq<string> {
    if parts == [] then []
    else if parts[0] == "" then NonEmpty(parts[1..])
    else [parts[0]] + NonEmpty(parts[1..])
  }

  /** The non-empty pieces of a dotted path. */
  function Segments(path: string): Path {
    NonEmpty(SplitOn(path, '.'))
  }

  function Dotted(p: Path): string {
    JoinWith(p, '.')
  }

  /** A key that can stand in a dotted path. */
  predicate PlainKey(k: string) {
    k != "" && '.' !in k
  }

  predicate PlainPath(p: Path) {
    p != [] && forall k :: k in p ==> PlainKey(k)
  }

  /** A path string written the one way its segments are joined. */
  predicate Canonical(path: string) {
    PlainPath(Segments(path)) && Dotted(Segments(path)) == path
  }

  lemma {:induction false} NonEmptyKeepsAll(parts: seq<string>)
    requires "" !in parts
    ensures NonEmpty(parts) == parts
  {
    if parts != [] { NonEmptyKeepsAll(parts[1..]); }
  }

  lemma DottedIsCanonical(p: Path)
    requires PlainPath(p)
    ensures Segments(Dotted(p)) == p && Canonical(Dotted(p))
  {
    SplitJoin(p, '.');
    NonEmptyKeepsAll(p);
  }

  lemma {:induction false} DottedConcat(p: Path, q: Path)
    requires p != [] && q != []
    ensures Dotted(p + q) == Dotted(p) + "." + Dotted(q)
  {
    assert (p + q)[1..] == p[1..] + q;
    if |p| > 1 { DottedConcat(p[1..], q); }
  }

  /** An ancestor's path string sorts before its descendants'. */
  lemma AncestorSortsFirst(p: string, q: string)
    requires Canonical(p) && Canonical(q) && Segments(p) < Segments(q)
    ensures StrLt(p, q)
  {
    var a, b := Segments(p), Segments(q);
    var rest := b[|a|..];
    assert b == a + rest;
    DottedConcat(a, rest);
    PrefixSortsFirst(p, "." + Dotted(rest));
    assert q == p + ("." + Dotted(rest));
  }

  lemma {:induction false} NonEmptyConcat(a: seq<string>, b: seq<string>)
    ensures NonEmpty(a + b) == NonEmpty(a) + NonEmpty(b)
  {
    if a == [] {
      assert a + b == b;
    } else {
      assert (a + b)[1..] == a[1..] + b;
      NonEmptyConcat(a[1..], b);
    }
  }

  /** A path string begins with another and a dot exactly when the path lies below the other. */
  lemma BelowByDot(a: string, f: string)
    requires Canonical(a) && Canonical(f)
    ensures a + "." <= f <==> Segments(a) < Segments(f)
  {
    if a + "." <= f {
      var rest := f[|a| + 1..];
      assert f == a + ['.'] + rest;
      SplitAround(a, rest, '.');
      NonEmptyConcat(SplitOn(a, '.'), SplitOn(rest, '.'));
      assert Segments(f) == Segments(a) + Segments(rest) && f != a;
      assert Segments(rest) == [] ==> Segments(f) == Segments(a);
    } else if Segments(a) < Segments(f) {
      var q := Segments(f)[|Segments(a)|..];
      assert Segments(f) == Segments(a) + q;
      DottedConcat(Segments(a), q);
    }
  }

  // ---- What a path names --------------------------------------------------

  /** `_read_path`: None when any step is missing or is not a dictionary. */
  function ReadAt(v: Value, p: Path): Value
    decreases |p|
  {
    if !v.Dict? || p == [] then Null
    else if |p| == 1 then Get(v.entries, p[0])
    else ReadAt(Get(v.entries, p[0]), p[1..])
  }

  /** The walk over `parts[:-1]` reaches a dictionary. */
  predicate ParentIsDict(v: Value, p: Path)
    requires p != []
    decreases |p|
  {
    v.Dict? && (|p| == 1 || ParentIsDict(Get(v.entries, p[0]), p[1..]))
  }

  /** The path names a key that is present. */
  predicate HasPath(v: Value, p: Path)
    requires p != []
  {
    v.Dict? && p[0] in v.entries && (|p| == 1 || HasPath(v.entries[p[0]], p[1..]))
  }

  /** `restore_path`: sets the last key wherever the walk reaches a dictionary. */
  function SetAt(v: Value, p: Path, x: Value): Value {
    if !v.Dict? || p == [] then v
    else if |p| == 1 then Dict(v.entries[p[0] := x])
    else if p[0] in v.entries then Dict(v.entries[p[0] := SetAt(v.entries[p[0]], p[1..], x)])
    else v
  }

  /** `_obfuscate_path`: blanks the key only when it is there. */
  function BlankAt(v: Value, p: Path): Value {
    if p != [] && HasPath(v, p) then SetAt(v, p, Null) else v
  }

  /** `_delete_path`. */
  function DeleteAt(v: Value, p: Path): Value {
    if !v.Dict? || p == [] then v
    else if |p| == 1 then Dict(v.entries - {p[0]})
    else if p[0] in v.entries then Dict(v.entries[p[0] := DeleteAt(v.entries[p[0]], p[1..])])
    else v
  }

  /** A path that is not there reads as null. */
  lemma {:induction false} MissingReadsNull(v: Value, p: Path)
    requires p != [] && !HasPath(v, p)
    ensures ReadAt(v, p) == Null
  {
    if v.Dict? && p[0] in v.entries && |p| > 1 { MissingReadsNull(v.entries[p[0]], p[1..]); }
  }

  /** Setting a path that is there to what it reads changes nothing at all. */
  lemma {:induction false} SelfSet(v: Value, p: Path)
    requires p != [] && HasPath(v, p)
    ensures SetAt(v, p, ReadAt(v, p)) == v
  {
    if |p| > 1 { SelfSet(v.entries[p[0]], p[1..]); }
  }

  /** The source's loop: walk all but the last part, then read the last key. */
  method ReadPath(payload: Value, fieldPath: string) returns (r: Value)
    ensures r == ReadAt(payload, Segments(fieldPath))
  {
    if !payload.Dict? { return Null; }
    var parts := Segments(fieldPath);
    if parts == [] { return Null; }
    var current := payload;
    var i := 0;
    while i < |parts| - 1
      invariant 0 <= i < |parts| && current.Dict?
      invariant ReadAt(payload, parts) == ReadAt(current, parts[i..])
    {
      current := Get(current.entries, parts[i]);
      assert parts[i..][1..] == parts[i + 1..];
      i := i + 1;
      if !current.Dict? { return Null; }
    }
    r := Get(current.entries, parts[i]);
  }

  lemma {:induction false} ReadOfSet(v: Value, p: Path, x: Value)
    requires p != []
    ensures ParentIsDict(v, p) ==> ReadAt(SetAt(v, p, x), p) == x
    ensures !ParentIsDict(v, p) ==> SetAt(v, p, x) == v && ReadAt(v, p) == Null
    ensures HasPath(v, p) ==> ParentIsDict(v, p)
    decreases |p|
  {
    if v.Dict? && |p| > 1 {
      ReadOfSet(Get(v.entries, p[0]), p[1..], x);
      if p[0] in v.entries { assert v.entries[p[0] := v.entries[p[0]]] == v.entries; }
    }
  }

  /** Reading below a path that has just been set reads below the value it was set to. */
  lemma {:induction false} ReadBelowSet(v: Value, q: Path, t: Path, x: Value)
    requires q != [] && t != [] && ParentIsDict(v, q)
    ensures ReadAt(SetAt(v, q, x), q + t) == ReadAt(x, t)
  {
    assert (q + t)[1..] == q[1..] + t;
    if |q| == 1 {
      assert q + t == [q[0]] + t;
    } else {
      ReadBelowSet(v.entries[q[0]], q[1..], t, x);
    }
  }

  lemma {:induction false} ReadBelow(v: Value, q: Path, t: Path)
    requires q != [] && t != []
    ensures ReadAt(v, q + t) == ReadAt(ReadAt(v, q), t)
    decreases |q|
  {
    assert (q + t)[1..] == q[1..] + t;
    if v.Dict? && |q| > 1 { ReadBelow(Get(v.entries, q[0]), q[1..], t); }
  }

  predicate Unrelated(p: Path, q: Path) {
    !(p <= q) && !(q <= p)
  }

  /** Setting a path leaves every path not above or below it as it was. */
  lemma {:induction false} SetElsewhere(v: Value, q: Path, x: Value, u: Path)
    requires q != [] && u != [] && Unrelated(q, u)
    ensures ReadAt(SetAt(v, q, x), u) == ReadAt(v, u)
    ensures HasPath(SetAt(v, q, x), u) == HasPath(v, u)
    ensures ParentIsDict(SetAt(v, q, x), u) == ParentIsDict(v, u)
  {
    assert q == [q[0]] + q[1..] && u == [u[0]] + u[1..];
    if v.Dict? && q[0] == u[0] && q[0] in v.entries {
      SetElsewhere(v.entries[q[0]], q[1..], x, u[1..]);
    }
  }

  /** Setting a path never turns a dictionary above it into something else. */
  lemma {:induction false} SetKeepsAncestors(v: Value, q: Path, x: Value, p: Path)
    requires p != [] && p <= q
    ensures ParentIsDict(SetAt(v, q, x), p) == ParentIsDict(v, p)
  {
    assert q == [q[0]] + q[1..] && p == [p[0]] + p[1..];
    if v.Dict? && |p| > 1 && p[0] in v.entries {
      SetKeepsAncestors(v.entries[p[0]], q[1..], x, p[1..]);
    }
  }

  /** Setting below `p` sets inside the value at `p`. */
  lemma {:induction false} ReadAboveSet(v: Value, p: Path, t: Path, x: Value)
    requires p != [] && t != []
    ensures ReadAt(SetAt(v, p + t, x), p) == SetAt(ReadAt(v, p), t, x)
  {
    assert (p + t)[1..] == p[1..] + t;
    if v.Dict? && |p| > 1 && p[0] in v.entries { ReadAboveSet(v.entries[p[0]], p[1..], t, x); }
  }

  // ---- The part of a value no listed path covers --------------------------

  function Below(paths: set<Path>, k: string): set<Path> {
    set p | p in paths && p != [] && p[0] == k :: p[1..]
  }

  lemma BelowMember(paths: set<Path>, k: string, t: Path)
    ensures t in Below(paths, k) <==> [k] + t in paths
  {
    if [k] + t in paths {
      assert ([k] + t)[1..] == t;
      assert t in Below(paths, k);
    }
    if t in Below(paths, k) {
      var p :| p in paths && p != [] && p[0] == k && p[1..] == t;
      assert p == [k] + t;
    }
  }

  /** The value with everything at or below the listed paths blanked. */
  function Blanked(v: Value, paths: set<Path>): Value {
    if [] in paths then Null
    else match v
      case Dict(m) => Dict(map k | k in m :: Blanked(m[k], Below(paths, k)))
      case _ => v
  }

  /** `v` and `w` are the same apart from what the listed paths cover. */
  predicate SameOutside(v: Value, w: Value, paths: set<Path>) {
    Same(Blanked(v, paths), Blanked(w, paths))
  }

  lemma {:induction false} BlankedNothing(v: Value)
    ensures Blanked(v, {}) == v
  {
    if v.Dict? {
      forall k | k in v.entries ensures Blanked(v.entries[k], Below({}, k)) == v.entries[k] {
        assert Below({}, k) == {};
        BlankedNothing(v.entries[k]);
      }
      assert Blanked(v, {}).entries == v.entries;
    }
  }

  lemma SameOutsideNothing(v: Value, w: Value)
    ensures SameOutside(v, w, {}) <==> Same(v, w)
  {
    BlankedNothing(v);
    BlankedNothing(w);
  }

  /** For dictionaries, "same outside" can be checked key by key. */
  lemma SameOutsideByKey(a: Record, b: Record, paths: set<Path>)
    requires [] !in paths
    ensures SameOutside(Dict(a), Dict(b), paths)
       <==> forall k :: SameOutside(Get(a, k), Get(b, k), Below(paths, k))
  {
    var x, y := Blanked(Dict(a), paths).entries, Blanked(Dict(b), paths).entries;
    SameRecords(x, y);
    forall k
      ensures Clean(Get(x, k)) == Clean(Blanked(Get(a, k), Below(paths, k)))
      ensures Clean(Get(y, k)) == Clean(Blanked(Get(b, k), Below(paths, k)))
    {}
    assert forall k :: Same(Get(x, k), Get(y, k)) <==> SameOutside(Get(a, k), Get(b, k), Below(paths, k));
  }

  lemma SameOutsideShape(v: Value, w: Value, paths: set<Path>)
    requires [] !in paths && SameOutside(v, w, paths)
    ensures v.Dict? == w.Dict? && (!v.Dict? ==> v == w)
  {}

  /** Setting, blanking or deleting a covered path changes nothing outside. */
  lemma {:induction false} CoveredChange(v: Value, p: Path, x: Value, paths: set<Path>)
    requires p in paths && p != []
    ensures SameOutside(SetAt(v, p, x), v, paths)
    ensures SameOutside(DeleteAt(v, p), v, paths)
    ensures SameOutside(BlankAt(v, p), v, paths)
  {
    CoveredSet(v, p, x, paths);
    CoveredSet(v, p, Null, paths);
    CoveredDelete(v, p, paths);
  }

  lemma {:induction false} CoveredSet(v: Value, p: Path, x: Value, paths: set<Path>)
    requires p in paths && p != []
    ensures SameOutside(SetAt(v, p, x), v, paths)
    decreases |p|
  {
    if v.Dict? && [] !in paths {
      var k, t := p[0], p[1..];
      assert p == [k] + t;
      BelowMember(paths, k, t);
      var r := SetAt(v, p, x);
      if |p| > 1 { CoveredSet(Get(v.entries, k), t, x, Below(paths, k)); }
      SameOutsideByKey(r.entries, v.entries, paths);
    }
  }

  lemma {:induction false} CoveredDelete(v: Value, p: Path, paths: set<Path>)
    requires p in paths && p != []
    ensures SameOutside(DeleteAt(v, p), v, paths)
    decreases |p|
  {
    if v.Dict? && [] !in paths {
      var k, t := p[0], p[1..];
      assert p == [k] + t;
      BelowMember(paths, k, t);
      var r := DeleteAt(v, p);
      if |p| > 1 { CoveredDelete(Get(v.entries, k), t, Below(paths, k)); }
      SameOutsideByKey(r.entries, v.entries, paths);
    }
  }

  /** Restoring any path from `w` keeps `v` the same as `w` outside the listed paths. */
  lemma {:induction false} RestoreKeeps(v: Value, w: Value, p: Path, paths: set<Path>)
    requires p != [] && SameOutside(v, w, paths)
    ensures SameOutside(SetAt(v, p, ReadAt(w, p)), w, paths)
    decreases |p|
  {
    if [] !in paths {
      SameOutsideShape(v, w, paths);
      if v.Dict? {
        var k, t := p[0], p[1..];
        SameOutsideByKey(v.entries, w.entries, paths);
        var r := SetAt(v, p, ReadAt(w, p));
        if |p| > 1 { RestoreKeeps(Get(v.entries, k), Get(w.entries, k), t, Below(paths, k)); }
        SameOutsideByKey(r.entries, w.entries, paths);
      }
    }
  }

  /** Restoring a listed path from `w`, its ancestors being done, takes that path off the list. */
  lemma {:induction false} RestoreUncovers(v: Value, w: Value, p: Path, paths: set<Path>)
    requires p != [] && SameOutside(v, w, paths)
    requires forall q :: q in paths ==> !(q < p)
    ensures SameOutside(SetAt(v, p, ReadAt(w, p)), w, paths - {p})
    decreases |p|
  {
    assert [] !in paths by { assert [] < p; }
    SameOutsideShape(v, w, paths);
    if v.Dict? {
      var k, t := p[0], p[1..];
      assert p == [k] + t;
      SameOutsideByKey(v.entries, w.entries, paths);
      var r := SetAt(v, p, ReadAt(w, p));
      var less := paths - {p};
      forall j ensures SameOutside(Get(r.entries, j), Get(w.entries, j), Below(less, j)) {
        if j != k {
          forall u ensures u in Below(less, j) <==> u in Below(paths, j) {
            BelowMember(less, j, u);
            BelowMember(paths, j, u);
            assert [j] + u != p;
          }
          assert Below(less, j) == Below(paths, j);
        } else if |p| > 1 {
          forall u ensures u in Below(less, k) <==> u in Below(paths, k) && u != t {
            BelowMember(less, k, u);
            BelowMember(paths, k, u);
            assert ([k] + u)[1..] == u;
          }
          assert Below(less, k) == Below(paths, k) - {t};
          forall q | q in Below(paths, k) ensures !(q < t) {
            BelowMember(paths, k, q);
            assert q < t ==> [k] + q < p;
          }
          RestoreUncovers(Get(v.entries, k), Get(w.entries, k), t, Below(paths, k));
        }
      }
      SameOutsideByKey(r.entries, w.entries, less);
    } else {
      assert SetAt(v, p, ReadAt(w, p)) == v == w;
    }
  }

  lemma BelowWith(paths: set<Path>, p: Path, j: string)
    requires p != []
    ensures Below(paths + {p}, j) == if p[0] == j then Below(paths, j) + {p[1..]} else Below(paths, j)
  {
    assert p == [p[0]] + p[1..];
    forall u ensures u in Below(paths + {p}, j) <==> u in Below(paths, j) || (p[0] == j && u == p[1..]) {
      BelowMember(paths + {p}, j, u);
      BelowMember(paths, j, u);
      assert ([j] + u)[1..] == u;
    }
  }

  /** Listing a path besides one of its ancestors covers nothing more. */
  lemma {:induction false} AncestorCovers(v: Value, paths: set<Path>, q: Path, p: Path)
    requires q in paths && q <= p
    ensures Blanked(v, paths + {p}) == Blanked(v, paths)
  {
    if [] !in paths && v.Dict? {
      assert p == [p[0]] + p[1..] && q == [q[0]] + q[1..];
      forall j | j in v.entries
        ensures Blanked(v.entries[j], Below(paths + {p}, j)) == Blanked(v.entries[j], Below(paths, j))
      {
        BelowWith(paths, p, j);
        BelowMember(paths, j, q[1..]);
        if j == p[0] { AncestorCovers(v.entries[j], Below(paths, j), q[1..], p[1..]); }
      }
      assert Blanked(v, paths + {p}).entries == Blanked(v, paths).entries;
    }
  }

  // ---- Topmost paths --------------------------------------------------

  predicate Topmost(q: Path, paths: set<Path>) {
    forall u :: u in paths ==> !(u < q)
  }

  /** Some topmost path of a set lies at or above each of its paths. */
  lemma {:induction false} TopmostAbove(paths: set<Path>, p: Path) returns (q: Path)
    requires p in paths
    ensures q in paths && q <= p && Topmost(q, paths)
    decreases |p|
  {
    if u :| u in paths && u < p {
      q := TopmostAbove(paths, u);
    } else {
      q := p;
    }
  }

  lemma OneTopmost(a: Path, b: Path, p: Path, paths: set<Path>)
    requires a in paths && b in paths && a <= p && b <= p && Topmost(a, paths) && Topmost(b, paths)
    ensures a == b
  {
    assert a == p[..|a|] && b == p[..|b|];
    assert |a| < |b| ==> a < b;
    assert |b| < |a| ==> b < a;
  }

  // ---- The paths a payload carries ------------------------------------------

  function Join(prefix: string, key: string): string {
    if prefix != "" then prefix + "." + key else key
  }

  /** `iter_payload_paths`. */
  function PayloadPaths(v: Value, prefix: string): set<string> {
    if !v.Dict? then {}
    else
      (set k | k in v.entries :: Join(prefix, k)) +
      (set k, p | k in v.entries && p in PayloadPaths(v.entries[k], Join(prefix, k)) :: p)
  }

  /** Every key, at every depth of dictionaries, can stand in a dotted path. */
  predicate PlainKeys(v: Value) {
    v.Dict? ==> forall k :: k in v.entries ==> PlainKey(k) && PlainKeys(v.entries[k])
  }

  predicate PlainOrEmpty(p: Path) {
    p == [] || PlainPath(p)
  }

  lemma JoinExtends(pre: Path, k: string)
    requires PlainOrEmpty(pre) && PlainKey(k)
    ensures Join(Dotted(pre), k) == Dotted(pre + [k]) && PlainPath(pre + [k])
  {
    if pre != [] {
      DottedConcat(pre, [k]);
      assert pre[0] in pre && Dotted(pre) != "";
    }
  }

  lemma {:induction false} PathIsListed(v: Value, pre: Path, p: Path)
    requires PlainOrEmpty(pre) && PlainPath(p) && HasPath(v, p)
    ensures Dotted(pre + p) in PayloadPaths(v, Dotted(pre))
  {
    var k, t := p[0], p[1..];
    assert p == [k] + t && pre + p == pre + [k] + t;
    JoinExtends(pre, k);
    if t != [] {
      PathIsListed(v.entries[k], pre + [k], t);
      assert Dotted(pre + p) in PayloadPaths(v.entries[k], Join(Dotted(pre), k));
    } else {
      assert pre + p == pre + [k];
    }
  }

  lemma {:induction false} ListedIsPath(v: Value, pre: Path, path: string) returns (p: Path)
    requires PlainOrEmpty(pre) && PlainKeys(v) && path in PayloadPaths(v, Dotted(pre))
    ensures PlainPath(p) && HasPath(v, p) && path == Dotted(pre + p)
  {
    if k :| k in v.entries && path == Join(Dotted(pre), k) {
      JoinExtends(pre, k);
      p := [k];
    } else {
      var k :| k in v.entries && path in PayloadPaths(v.entries[k], Join(Dotted(pre), k));
      JoinExtends(pre, k);
      var t := ListedIsPath(v.entries[k], pre + [k], path);
      p := PrependStep(v, pre, k, t);
    }
  }

  lemma PrependStep(v: Value, pre: Path, k: string, t: Path) returns (p: Path)
    requires v.Dict? && k in v.entries && PlainKey(k) && PlainPath(t) && HasPath(v.entries[k], t)
    ensures PlainPath(p) && HasPath(v, p) && Dotted(pre + p) == Dotted(pre + [k] + t)
  {
    p := [k] + t;
    assert p[1..] == t && pre + p == pre + [k] + t;
  }

  /** The path strings of a payload are exactly the dotted forms of the paths it has. */
  lemma PayloadPathsAre(v: Value)
    requires PlainKeys(v)
    ensures forall p :: PlainPath(p) ==> (Dotted(p) in PayloadPaths(v, "") <==> HasPath(v, p))
    ensures forall path :: path in PayloadPaths(v, "") ==> Canonical(path) && HasPath(v, Segments(path))
  {
    forall path | path in PayloadPaths(v, "") ensures Canonical(path) && HasPath(v, Segments(path)) {
      var p := ListedIsPath(v, [], path);
      assert [] + p == p;
      DottedIsCanonical(p);
    }
    forall p | PlainPath(p) ensures Dotted(p) in PayloadPaths(v, "") <==> HasPath(v, p) {
      DottedIsCanonical(p);
      if HasPath(v, p) {
        PathIsListed(v, [], p);
        assert [] + p == p;
      }
    }
  }
}
