/** What restoring and evaluating a draft come to, whatever the payload and the stored record share. */
module DraftLaws {
  import opened Values
  import opened Paths
  import opened WriteFields
  import opened Drafts

  // ---- Null equals absent, under every operation ---------------------------------------

  lemma SameGet(v: Value, w: Value, k: string)
    requires Same(v, w)
    ensures v.Dict? == w.Dict? && (!v.Dict? ==> v == w)
    ensures v.Dict? ==> Same(Get(v.entries, k), Get(w.entries, k))
  {
    if v.Dict? { SameRecords(v.entries, w.entries); }
  }

  lemma {:induction false} SameRead(v: Value, w: Value, p: Path)
    requires p != [] && Same(v, w)
    ensures Same(ReadAt(v, p), ReadAt(w, p)) && ParentIsDict(v, p) == ParentIsDict(w, p)
    decreases |p|
  {
    SameGet(v, w, p[0]);
    if v.Dict? && |p| > 1 { SameRead(Get(v.entries, p[0]), Get(w.entries, p[0]), p[1..]); }
  }

  /** A write changes one top-level key. */
  lemma SetKey(v: Value, p: Path, x: Value, k: string)
    requires v.Dict? && p != []
    ensures SetAt(v, p, x).Dict?
    ensures Get(SetAt(v, p, x).entries, k)
      == if k != p[0] then Get(v.entries, k) else if |p| == 1 then x else SetAt(Get(v.entries, k), p[1..], x)
  {}

  lemma {:induction false} SameSet(v: Value, w: Value, p: Path, x: Value, y: Value)
    requires Same(v, w) && Same(x, y)
    ensures Same(SetAt(v, p, x), SetAt(w, p, y))
    decreases |p|
  {
    SameGet(v, w, "");
    if v.Dict? && p != [] {
      var r, s := SetAt(v, p, x), SetAt(w, p, y);
      forall k ensures Same(Get(r.entries, k), Get(s.entries, k)) {
        SameGet(v, w, k);
        SetKey(v, p, x, k);
        SetKey(w, p, y, k);
        if k == p[0] && |p| > 1 { SameSet(Get(v.entries, k), Get(w.entries, k), p[1..], x, y); }
      }
      SameRecords(r.entries, s.entries);
    }
  }

  /** Writing what is there changes nothing. */
  lemma SetSelf(v: Value, p: Path)
    requires p != []
    ensures Same(SetAt(v, p, ReadAt(v, p)), v)
  {
    SetThenSame(v, v, p);
  }

  /** Being the same outside some paths, two values are the same outside more. */
  lemma {:induction false} MoreOutside(v: Value, w: Value, paths: set<Path>, more: set<Path>)
    requires SameOutside(v, w, paths) && paths <= more
    ensures SameOutside(v, w, more)
    decreases v
  {
    if [] !in more {
      SameOutsideShape(v, w, paths);
      if v.Dict? {
        SameOutsideByKey(v.entries, w.entries, paths);
        forall k ensures SameOutside(Get(v.entries, k), Get(w.entries, k), Below(more, k)) {
          if k in v.entries {
            MoreOutside(v.entries[k], Get(w.entries, k), Below(paths, k), Below(more, k));
          } else {
            NullOutside(Get(w.entries, k), Below(paths, k), Below(more, k));
          }
        }
        SameOutsideByKey(v.entries, w.entries, more);
      }
    }
  }

  lemma NullOutside(w: Value, paths: set<Path>, more: set<Path>)
    requires SameOutside(Null, w, paths) && paths <= more
    ensures SameOutside(Null, w, more)
  {
    if [] !in more { SameOutsideShape(Null, w, paths); }
  }

  /** Replacing a value by one that is the same keeps what is the same outside. */
  lemma SameStaysOutside(v: Value, u: Value, w: Value, paths: set<Path>)
    requires Same(u, v) && SameOutside(v, w, paths)
    ensures SameOutside(u, w, paths)
  {
    SameOutsideNothing(u, v);
    MoreOutside(u, v, {}, paths);
  }

  /** Two values that differ below some paths at most, and read the same at all but those under the kept ones, differ
      below the kept ones at most. */
  lemma {:induction false} OnlyBelow(v: Value, w: Value, paths: set<Path>, kept: set<Path>)
    requires SameOutside(v, w, paths + kept)
    requires forall p :: p in paths ==> p != [] && (ReadsAs(v, w, p) || exists u :: u in kept && u <= p)
    ensures SameOutside(v, w, kept)
    decreases |paths|
  {
    if paths == {} {
      assert paths + kept == kept;
    } else {
      var p :| p in paths;
      var less := paths - {p} + kept;
      assert less + {p} == paths + kept;
      if ReadsAs(v, w, p) {
        ReadsAlready(v, w, p, less);
      } else {
        var u :| u in kept && u <= p;
        AncestorCovers(v, less, u, p);
        AncestorCovers(w, less, u, p);
      }
      OnlyBelow(v, w, paths - {p}, kept);
    }
  }

  /** A covered path that reads the same need not be covered. */
  lemma ReadsAlready(v: Value, w: Value, p: Path, less: set<Path>)
    requires p != [] && SameOutside(v, w, less + {p}) && ReadsAs(v, w, p)
    ensures SameOutside(v, w, less)
  {
    OneUncovers(v, w, p, less);
    SameSet(v, v, p, ReadAt(w, p), ReadAt(v, p));
    SetSelf(v, p);
    SameStaysOutside(SetAt(v, p, ReadAt(w, p)), v, w, less);
  }

  // ---- Restoring ------------------------------------------------------------------------

  /** Up to null entries, sharing makes no difference to a restore, and a restore none to the stored record. */
  lemma {:induction false} RestoresSame(d: Draft, v: Value, w: Value, fields: seq<string>)
    requires Same(d.payload, v) && Same(Dict(d.stored), w)
    ensures var r := RestoreAllShared(d, fields);
      Same(r.payload, RestoreAll(v, fields, w)) && Same(Dict(r.stored), w)
    decreases fields
  {
    if fields != [] {
      var p := Segments(fields[0]);
      RestoreSame(d, v, w, p);
      RestoresSame(RestoreShared(d, p), SetAt(v, p, ReadAt(w, p)), w, fields[1..]);
    }
  }

  lemma RestoreSame(d: Draft, v: Value, w: Value, p: Path)
    requires Same(d.payload, v) && Same(Dict(d.stored), w)
    ensures var r := RestoreShared(d, p); Same(r.payload, SetAt(v, p, ReadAt(w, p))) && Same(Dict(r.stored), w)
  {
    if p != [] {
      SameRead(d.payload, v, p);
      SameRead(Dict(d.stored), w, p);
      SameSet(d.payload, v, p, ReadAt(Dict(d.stored), p), ReadAt(w, p));
      SetSelf(Dict(d.stored), p);
      ReadOfSet(v, p, ReadAt(w, p));
    }
  }

  /** Where an object is shared, both sides read the same. */
  ghost predicate Linked(d: Draft) {
    forall q :: q in d.shared ==>
      q != [] && ReadAt(d.payload, q).Dict? && ReadAt(d.payload, q) == ReadAt(Dict(d.stored), q)
  }

  /** A write below a path, or beside it, seen from the path. */
  lemma SeenFrom(v: Value, p: Path, x: Value, q: Path)
    requires p != [] && q != [] && !(p <= q)
    ensures ReadAt(SetAt(v, p, x), q) == if q < p then SetAt(ReadAt(v, q), p[|q|..], x) else ReadAt(v, q)
  {
    if q < p {
      var t := p[|q|..];
      assert p == q + t;
      ReadAboveSet(v, q, t, x);
    } else {
      SetElsewhere(v, p, x, q);
    }
  }

  /** A restored path, and what is below it, reads as stored. */
  lemma SeenBelow(v: Value, w: Value, p: Path, q: Path)
    requires p != [] && p <= q && ParentIsDict(v, p)
    ensures ReadAt(SetAt(v, p, ReadAt(w, p)), q) == ReadAt(w, q)
  {
    ReadOfSet(v, p, ReadAt(w, p));
    if p < q {
      var t := q[|p|..];
      assert q == p + t;
      ReadBelowSet(v, p, t, ReadAt(w, p));
      ReadBelow(w, p, t);
    } else {
      assert p == q;
    }
  }

  lemma {:induction false} DictAbove(v: Value, q: Path, p: Path)
    requires q != [] && q < p && ParentIsDict(v, p)
    ensures ReadAt(v, q).Dict? && ParentIsDict(v, q)
  {
    if |q| > 1 { DictAbove(Get(v.entries, q[0]), q[1..], p[1..]); }
  }

  lemma {:induction false} ParentBelow(v: Value, q: Path, t: Path)
    requires q != [] && t != []
    ensures ParentIsDict(v, q + t) == ParentIsDict(ReadAt(v, q), t)
    decreases |q|
  {
    assert (q + t)[1..] == q[1..] + t;
    if v.Dict? && |q| > 1 { ParentBelow(Get(v.entries, q[0]), q[1..], t); }
  }

  /** The path reads as in the record restored from, or the payload has no place for it. */
  predicate Settled(v: Value, w: Value, p: Path)
    requires p != []
  {
    ReadsAs(v, w, p) || !ParentIsDict(v, p)
  }

  lemma SettledStep(v: Value, w: Value, q: Path, p: Path)
    requires q != [] && p != [] && (p == q || Settled(v, w, p))
    ensures Settled(SetAt(v, q, ReadAt(w, q)), w, p)
  {
    var x := ReadAt(w, q);
    RestoreStep(v, w, q, p);
    ReadOfSet(v, q, x);
    if !ParentIsDict(v, p) && !ReadsAs(v, w, p) {
      if p <= q {
        SetKeepsAncestors(v, q, x, p);
      } else if q < p {
        if ParentIsDict(v, q) { SeenBelow(v, w, q, p); }
      } else {
        SetElsewhere(v, q, x, p);
      }
    }
  }

  lemma ReadsBelow(v: Value, w: Value, q: Path, p: Path)
    requires q != [] && q <= p && ReadsAs(v, w, q)
    ensures ReadsAs(v, w, p)
  {
    if q < p {
      var t := p[|q|..];
      assert p == q + t;
      ReadBelow(v, q, t);
      ReadBelow(w, q, t);
      SameRead(ReadAt(v, q), ReadAt(w, q), t);
    } else {
      assert q == p;
    }
  }

  lemma {:induction false} RestoresSettle(v: Value, w: Value, fields: seq<string>, p: Path)
    requires p != [] && (Settled(v, w, p) || p in SegmentSet(fields))
    ensures Settled(RestoreAll(v, fields, w), w, p)
    decreases fields
  {
    if fields != [] {
      var q := Segments(fields[0]);
      assert fields == [fields[0]] + fields[1..];
      SegmentSetCons(fields[0], fields[1..]);
      if q != [] && (p == q || Settled(v, w, p)) { SettledStep(v, w, q, p); }
      RestoresSettle(SetAt(v, q, ReadAt(w, q)), w, fields[1..], p);
    }
  }

  lemma NullBelowNull(v: Value, q: Path, p: Path)
    requires q != [] && q <= p && ReadAt(v, q) == Null
    ensures ReadAt(v, p) == Null
  {
    if q < p {
      var t := p[|q|..];
      assert p == q + t;
      ReadBelow(v, q, t);
    } else {
      assert q == p;
    }
  }

  lemma NullStays(v: Value, u: Path, x: Value, p: Path)
    requires u != [] && p != [] && ReadAt(v, p) == Null && (!(u <= p) || x == Null)
    ensures ReadAt(SetAt(v, u, x), p) == Null
  {
    if u <= p {
      ReadOfSet(v, u, Null);
      NullBelowNull(SetAt(v, u, Null), u, p);
    } else {
      SeenFrom(v, u, x, p);
    }
  }

  lemma RestoreKeepsLinks(d: Draft, p: Path)
    requires Linked(d)
    ensures Linked(RestoreShared(d, p))
  {
    if p != [] && ParentIsDict(d.payload, p) {
      var r, w := RestoreShared(d, p), Dict(d.stored);
      var x := ReadAt(w, p);
      forall q | q in r.shared
        ensures q != [] && ReadAt(r.payload, q).Dict? && ReadAt(r.payload, q) == ReadAt(Dict(r.stored), q)
      {
        RestoredLink(d, p, q);
      }
    }
  }

  lemma RestoredLink(d: Draft, p: Path, q: Path)
    requires Linked(d) && p != [] && ParentIsDict(d.payload, p) && q in RestoreShared(d, p).shared
    ensures var r := RestoreShared(d, p);
      q != [] && ReadAt(r.payload, q).Dict? && ReadAt(r.payload, q) == ReadAt(Dict(r.stored), q)
  {
    var w := Dict(d.stored);
    var x := ReadAt(w, p);
    if Inside(d.shared, p) {
      var s :| s in d.shared && s < p;
      var t := p[|s|..];
      assert p == s + t;
      ParentBelow(d.payload, s, t);
      ParentBelow(w, s, t);
      if p <= q {
        SeenBelow(d.payload, w, p, q);
        SeenBelow(w, w, p, q);
      } else {
        SeenFrom(d.payload, p, x, q);
        SeenFrom(w, p, x, q);
      }
    } else if q == p {
      SeenBelow(d.payload, w, p, p);
    } else {
      SeenFrom(d.payload, p, x, q);
    }
  }

  lemma {:induction false} RestoresKeepLinks(d: Draft, fields: seq<string>)
    requires Linked(d)
    ensures Linked(RestoreAllShared(d, fields))
    decreases fields
  {
    if fields != [] {
      RestoreKeepsLinks(d, Segments(fields[0]));
      RestoresKeepLinks(RestoreShared(d, Segments(fields[0])), fields[1..]);
    }
  }

  /** The path lies at or below a shared object. */
  predicate Under(shared: set<Path>, p: Path) {
    exists q :: q in shared && q <= p
  }

  lemma StaysObject(d: Draft, u: Path, p: Path)
    requires p != [] && ReadAt(Dict(d.stored), p).Dict?
    ensures ReadAt(Dict(RestoreShared(d, u).stored), p).Dict?
  {
    if u != [] {
      SetSelf(Dict(d.stored), u);
      SameRead(SetAt(Dict(d.stored), u, ReadAt(Dict(d.stored), u)), Dict(d.stored), p);
    }
  }

  lemma UnderStep(d: Draft, u: Path, p: Path)
    requires p != [] && ReadAt(Dict(d.stored), p).Dict?
    requires u == p || Under(d.shared, p) || !ParentIsDict(d.payload, p)
    ensures var r := RestoreShared(d, u);
      Under(r.shared, p) || !ParentIsDict(r.payload, p)
  {
    var w, r := Dict(d.stored), RestoreShared(d, u);
    if u != [] && ParentIsDict(d.payload, u) {
      var x := ReadAt(w, u);
      if u <= p {
        if u < p { DictAbove(w, u, p) by { ReadOfSet(w, p, Null); } }
        if Inside(d.shared, u) {
          var q :| q in d.shared && q < u;
          assert q <= p;
        } else {
          assert u in r.shared;
        }
      } else {
        if Under(d.shared, p) {
          var q :| q in d.shared && q <= p;
          assert !(u <= q) && q in r.shared;
        } else if p <= u {
          SetKeepsAncestors(d.payload, u, x, p);
        } else {
          SetElsewhere(d.payload, u, x, p);
        }
      }
    }
  }

  /** A restored path that names an object is shared from then on, unless the payload has no place for it. */
  lemma {:induction false} RestoredIsShared(d: Draft, fields: seq<string>, p: Path)
    requires p != [] && ReadAt(Dict(d.stored), p).Dict?
    requires Under(d.shared, p) || !ParentIsDict(d.payload, p) || exists f :: f in fields && Segments(f) == p
    ensures var r := RestoreAllShared(d, fields); Under(r.shared, p) || !ParentIsDict(r.payload, p)
    decreases fields
  {
    if fields != [] {
      var u := Segments(fields[0]);
      assert fields == [fields[0]] + fields[1..];
      StaysObject(d, u, p);
      if u == p || Under(d.shared, p) || !ParentIsDict(d.payload, p) { UnderStep(d, u, p); }
      RestoredIsShared(RestoreShared(d, u), fields[1..], p);
    }
  }
}
