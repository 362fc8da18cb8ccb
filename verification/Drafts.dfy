/** An update's payload while it is restored: a value taken from the stored record is the record's own object, so what
    is later written inside the one shows in the other. */
module Drafts {
  import opened Values
  import opened Text
  import opened Paths
  import opened Session
  import opened Views

  /** The payload, the stored record, and the paths at which both hold one object. */
  datatype Draft = Draft(payload: Value, stored: Record, shared: set<Path>)

  /** A write at the path is a write inside a shared object. */
  predicate Inside(shared: set<Path>, p: Path) {
    exists q :: q in shared && q < p
  }

  /** `restore_path(payload, path, _read_path(stored, path))`. */
  function RestoreShared(d: Draft, p: Path): Draft {
    if p == [] || !ParentIsDict(d.payload, p) then d
    else
      var x := ReadAt(Dict(d.stored), p);
      var payload := SetAt(d.payload, p, x);
      if Inside(d.shared, p) then Draft(payload, SetAt(Dict(d.stored), p, x).entries, d.shared)
      else Draft(payload, d.stored, (set q | q in d.shared && !(p <= q)) + if x.Dict? then {p} else {})
  }

  function RestoreAllShared(d: Draft, fields: seq<string>): Draft
    decreases fields
  {
    if fields == [] then d else RestoreAllShared(RestoreShared(d, Segments(fields[0])), fields[1..])
  }

  /** `restore_or_drop_denied_write_fields` with a stored record. */
  method RestoreFields(d: Draft, fields: seq<string>) returns (r: Draft)
    ensures r == RestoreAllShared(d, fields)
  {
    r := d;
    for i := 0 to |fields|
      invariant RestoreAllShared(r, fields[i..]) == RestoreAllShared(d, fields)
    {
      assert fields[i..][1..] == fields[i + 1..];
      r := RestoreShared(r, Segments(fields[i]));
    }
    assert fields[|fields|..] == [];
  }

  // ---- Evaluating the conditions on a shallow copy -----------------------------------

  /** The stored record and its shallow copy, with the payload that shares objects with the former. */
  datatype Evaluation = Evaluation(t: Twin, payload: Value, shared: set<Path>)

  /** `_obfuscate_path` on the copy: below a shared key it writes the record, and the payload with it. */
  function BlankShared(e: Evaluation, p: Path): Evaluation {
    if p == [] || !HasPath(Dict(e.t.copy), p) || |p| == 1 || p[0] !in e.t.linked then e.(t := TwinBlank(e.t, p))
    else Evaluation(
      TwinBlank(e.t, p),
      if Inside(e.shared, p) then SetAt(e.payload, p, Null) else e.payload,
      set q | q in e.shared && !(p <= q))
  }

  /** `restore_path` on the copy, from the record: below a shared key it writes what is there. */
  function RevealShared(e: Evaluation, p: Path): Evaluation {
    if |p| <= 1 || p[0] !in e.t.copy || p[0] !in e.t.linked || !Inside(e.shared, p) then e.(t := TwinRestore(e.t, p))
    else Evaluation(TwinRestore(e.t, p), SetAt(e.payload, p, ReadAt(Dict(e.t.original), p)), e.shared)
  }

  function BlanksShared(e: Evaluation, fields: seq<string>): Evaluation
    decreases fields
  {
    if fields == [] then e else BlanksShared(BlankShared(e, Segments(fields[0])), fields[1..])
  }

  lemma {:induction false} BlanksSharedTwin(e: Evaluation, fields: seq<string>)
    ensures BlanksShared(e, fields).t == TwinBlanks(e.t, fields)
    decreases fields
  {
    if fields != [] { BlanksSharedTwin(BlankShared(e, Segments(fields[0])), fields[1..]); }
  }

  function RevealsShared(w: Setting, e: Evaluation, fields: seq<string>): Evaluation
    decreases fields
  {
    if fields == [] then e
    else
      var next := if Revealed(w, e.t.original, fields[0]) then RevealShared(e, Segments(fields[0])) else e;
      RevealsShared(w, next, fields[1..])
  }

  /** The masks that stay hidden, reading conditions off the record as the reveals go by. */
  function TwinUnrevealed(w: Setting, t: Twin, fields: seq<string>): seq<string>
    decreases fields
  {
    if fields == [] then []
    else if Revealed(w, t.original, fields[0])
    then TwinUnrevealed(w, TwinRestore(t, Segments(fields[0])), fields[1..])
    else [fields[0]] + TwinUnrevealed(w, t, fields[1..])
  }

  method BlankCopy(d: Draft, order: seq<string>) returns (e: Evaluation)
    ensures e == BlanksShared(Evaluation(ShallowCopy(d.stored), d.payload, d.shared), order)
  {
    e := Evaluation(ShallowCopy(d.stored), d.payload, d.shared);
    for i := 0 to |order|
      invariant BlanksShared(e, order[i..])
             == BlanksShared(Evaluation(ShallowCopy(d.stored), d.payload, d.shared), order)
    {
      assert order[i..][1..] == order[i + 1..];
      e := BlankShared(e, Segments(order[i]));
    }
    assert order[|order|..] == [];
  }

  method RevealCopy(w: Setting, start: Evaluation, order: seq<string>) returns (still: seq<string>, e: Evaluation)
    ensures still == TwinUnrevealed(w, start.t, order)
    ensures e == RevealsShared(w, start, order)
  {
    e, still := start, [];
    for i := 0 to |order|
      invariant RevealsShared(w, e, order[i..]) == RevealsShared(w, start, order)
      invariant TwinUnrevealed(w, start.t, order) == still + TwinUnrevealed(w, e.t, order[i..])
    {
      RevealCopyStep(w, e, order, i, still);
      if Revealed(w, e.t.original, order[i]) {
        e := RevealShared(e, Segments(order[i]));
      } else {
        still := still + [order[i]];
      }
    }
    assert order[|order|..] == [];
  }

  lemma RevealCopyStep(w: Setting, e: Evaluation, order: seq<string>, i: nat, still: seq<string>)
    requires i < |order|
    ensures var shown := Revealed(w, e.t.original, order[i]);
      var next := if shown then RevealShared(e, Segments(order[i])) else e;
      && RevealsShared(w, e, order[i..]) == RevealsShared(w, next, order[i + 1..])
      && still + TwinUnrevealed(w, e.t, order[i..])
         == (if shown then still else still + [order[i]]) + TwinUnrevealed(w, next.t, order[i + 1..])
  {
    assert order[i..][0] == order[i] && order[i..][1..] == order[i + 1..];
    var rest := TwinUnrevealed(w, e.t, order[i + 1..]);
    assert still + ([order[i]] + rest) == still + [order[i]] + rest;
  }

  /** The draft as the evaluation of the reveal conditions leaves it. */
  function Evaluated(w: Setting, d: Draft): Draft {
    if w.Obfuscated() == {} || w.conditions == map[] then d
    else
      var order := SortedSeq(w.Obfuscated());
      var e := RevealsShared(w, BlanksShared(Evaluation(ShallowCopy(d.stored), d.payload, d.shared), order), order);
      Draft(e.payload, e.t.original, e.shared)
  }
}
