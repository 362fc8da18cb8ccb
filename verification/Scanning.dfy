/** Pattern matches found one after the other in a text, and whether they cover it. */
module Scanning {
  import opened Values

  /** A pattern finds, at the start of a text, a good piece: a non-empty start of that text. */
  ghost predicate Finds<T(!new)>(find: string -> Option<T>, text: T -> string, good: T -> bool) {
    forall s :: find(s).Some? ==> good(find(s).value) && text(find(s).value) != "" && text(find(s).value) <= s
  }

  /** The texts of the matches, one after the other. */
  function Concat<T>(found: seq<T>, text: T -> string): string {
    if found == [] then "" else text(found[0]) + Concat(found[1..], text)
  }

  /** The matches that cover a text from its start without a gap, if they do. */
  ghost function Tile<T(!new)>(s: string, find: string -> Option<T>, text: T -> string, good: T -> bool): Option<seq<T>>
    requires Finds(find, text, good)
    decreases |s|
  {
    if s == "" then Some([])
    else if find(s).None? then None
    else
      var rest := Tile(s[|text(find(s).value)|..], find, text, good);
      if rest.None? then None else Some([find(s).value] + rest.value)
  }

  /** A piece is found again when it starts a text that nothing, or another piece, follows. */
  ghost predicate FindsAgain<T(!new)>(find: string -> Option<T>, text: T -> string, good: T -> bool) {
    forall t, pieces: seq<T> :: good(t) && (forall p :: p in pieces ==> good(p)) ==>
      find(text(t) + Concat(pieces, text)) == Some(t)
  }

  lemma {:induction false} TileSound<T(!new)>(s: string, find: string -> Option<T>, text: T -> string, good: T -> bool)
    requires Finds(find, text, good) && Tile(s, find, text, good).Some?
    ensures Concat(Tile(s, find, text, good).value, text) == s
    decreases |s|
  {
    if s != "" {
      var t := find(s).value;
      TileSound(s[|text(t)|..], find, text, good);
      assert s == text(t) + s[|text(t)|..];
    }
  }

  lemma {:induction false} TileComplete<T(!new)>(pieces: seq<T>, find: string -> Option<T>, text: T -> string,
    good: T -> bool)
    requires Finds(find, text, good) && FindsAgain(find, text, good) && forall p :: p in pieces ==> good(p)
    ensures Tile(Concat(pieces, text), find, text, good) == Some(pieces)
  {
    if pieces != [] {
      var t, rest := pieces[0], pieces[1..];
      var s := text(t) + Concat(rest, text);
      TileComplete(rest, find, text, good);
      assert find(s) == Some(t);
      assert s[|text(t)|..] == Concat(rest, text);
      assert pieces == [t] + rest;
    }
  }

  /** `finditer`: search on from the end of each match, skipping characters where nothing matches. */
  method FindAll<T(!new)>(s: string, find: string -> Option<T>, text: T -> string, good: T -> bool)
    returns (found: seq<T>, consumed: nat)
    requires Finds(find, text, good)
    ensures consumed <= |s| && forall t :: t in found ==> good(t)
    ensures consumed == |s| <==> Tile(s, find, text, good).Some?
    ensures consumed == |s| ==> found == Tile(s, find, text, good).value
  {
    found, consumed := [], 0;
    var pos := 0;
    assert s[0..] == s;
    assert Tile(s, find, text, good).Some? ==> [] + Tile(s, find, text, good).value == Tile(s, find, text, good).value;
    while pos < |s|
      invariant consumed <= pos <= |s| && forall t :: t in found ==> good(t)
      invariant consumed == pos ==> Continues(s, find, text, good, found, pos)
      invariant consumed < pos ==> Tile(s, find, text, good).None?
    {
      var m := find(s[pos..]);
      if m.None? {
        pos := pos + 1;
      } else {
        var n := |text(m.value)|;
        ghost var rest := Tile(s[pos + n..], find, text, good);
        assert s[pos..][n..] == s[pos + n..];
        assert rest.Some? ==> found + ([m.value] + rest.value) == (found + [m.value]) + rest.value;
        found, consumed, pos := found + [m.value], consumed + n, pos + n;
      }
    }
  }

  /** What the rest tiles to completes what was found so far. */
  ghost predicate Continues<T(!new)>(s: string, find: string -> Option<T>, text: T -> string, good: T -> bool,
    found: seq<T>, pos: nat)
    requires Finds(find, text, good) && pos <= |s|
  {
    var rest := Tile(s[pos..], find, text, good);
    Tile(s, find, text, good) == if rest.None? then None else Some(found + rest.value)
  }
}
