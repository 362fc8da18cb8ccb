/** Layer 3: field policies already compiled for one actor, and the masks they make. */
module FieldAcl {
  import opened Values
  import opened Text
  import opened Paths

  const WILDCARD := "*"

  datatype Operation = OpRead | OpInsert | OpUpdate | OpDelete | OpExport

  datatype Effect = Allow | Deny | Obfuscate

  datatype Policy = Policy(
    modelKey: string,
    fieldPath: string,
    operation: Operation,
    effect: Effect,
    appKey: string,
    formKey: string,
    workflowStage: string,
    taskKey: string)

  /** What a request says about where it happens; list, load and save leave the last three empty. */
  datatype Context = Context(modelKey: string, appKey: string, formKey: string, workflowStage: string, taskKey: string)

  predicate PathMatches(policyPath: string, fieldPath: string) {
    if policyPath == "" || policyPath == WILDCARD then true
    else if |policyPath| >= 2 && policyPath[|policyPath| - 2..] == ".*" then
      var prefix := policyPath[..|policyPath| - 2];
      fieldPath == prefix || prefix + "." <= fieldPath
    else policyPath == fieldPath
  }

  predicate ContextMatches(p: Policy, c: Context) {
    && p.modelKey in {"", WILDCARD, c.modelKey}
    && p.appKey in {"", WILDCARD, c.appKey}
    && p.formKey in {"", WILDCARD, c.formKey}
    && p.workflowStage in {"", WILDCARD, c.workflowStage}
    && p.taskKey in {"", WILDCARD, c.taskKey}
  }

  /** `for_operation`: the policies that speak about this operation here. */
  predicate Applies(p: Policy, op: Operation, c: Context) {
    p.operation == op && ContextMatches(p, c)
  }

  /** The paths the actor's policies give an effect to. */
  function PathsWith(policies: seq<Policy>, op: Operation, effect: Effect, c: Context): set<string> {
    set p | p in policies && Applies(p, op, c) && p.effect == effect :: p.fieldPath
  }

  predicate Covered(paths: set<string>, field: string) {
    exists p :: p in paths && PathMatches(p, field)
  }

  /** A field is refused by any deny, or by an allow list that leaves it out. */
  predicate IsDenied(policies: seq<Policy>, op: Operation, c: Context, field: string) {
    || Covered(PathsWith(policies, op, Deny, c), field)
    || (PathsWith(policies, op, Allow, c) != {} && !Covered(PathsWith(policies, op, Allow, c), field))
  }

  /** `denied_fields`: the source's loop over the sorted payload paths. */
  method DeniedFields(policies: seq<Policy>, op: Operation, c: Context, fields: set<string>)
    returns (denied: seq<string>)
    ensures denied == DeniedPaths(policies, op, c, fields)
  {
    var deny := PathsWith(policies, op, Deny, c);
    var allow := PathsWith(policies, op, Allow, c);
    var order := SortedSeq(fields);
    denied := [];
    for i := 0 to |order|
      invariant denied == Kept(policies, op, c, order[..i])
    {
      assert order[..i + 1] == order[..i] + [order[i]];
      KeptAppend(policies, op, c, order[..i], order[i]);
      if exists p :: p in deny && PathMatches(p, order[i]) {
        denied := denied + [order[i]];
      } else if allow != {} && !(exists p :: p in allow && PathMatches(p, order[i])) {
        denied := denied + [order[i]];
      }
    }
    assert order[..|order|] == order;
  }

  function Kept(policies: seq<Policy>, op: Operation, c: Context, fields: seq<string>): (r: seq<string>)
    ensures forall f :: f in r <==> f in fields && IsDenied(policies, op, c, f)
  {
    if fields == [] then []
    else if IsDenied(policies, op, c, fields[0]) then [fields[0]] + Kept(policies, op, c, fields[1..])
    else Kept(policies, op, c, fields[1..])
  }

  lemma {:induction false} KeptAppend(policies: seq<Policy>, op: Operation, c: Context, fields: seq<string>, f: string)
    ensures Kept(policies, op, c, fields + [f])
         == Kept(policies, op, c, fields) + if IsDenied(policies, op, c, f) then [f] else []
  {
    if fields != [] {
      assert (fields + [f])[1..] == fields[1..] + [f];
      KeptAppend(policies, op, c, fields[1..], f);
    }
  }

  function DeniedPaths(policies: seq<Policy>, op: Operation, c: Context, fields: set<string>): (r: seq<string>)
    ensures forall f :: f in r <==> f in fields && IsDenied(policies, op, c, f)
  {
    Kept(policies, op, c, SortedSeq(fields))
  }

  /** `explicit_allow_fields`. */
  function ExplicitlyAllowed(policies: seq<Policy>, op: Operation, c: Context, fields: set<string>): set<string> {
    var allow := PathsWith(policies, op, Allow, c);
    set f | f in fields && Covered(allow, f)
  }

  // ---- Read masks -------------------------------------------------------

  function ReadDenied(policies: seq<Policy>, c: Context): set<string> {
    PathsWith(policies, OpRead, Deny, c)
  }

  function ReadObfuscated(policies: seq<Policy>, c: Context): set<string> {
    PathsWith(policies, OpRead, Obfuscate, c)
  }

  function ReadMasks(policies: seq<Policy>, c: Context): set<string> {
    ReadDenied(policies, c) + ReadObfuscated(policies, c)
  }

  /** Removing every denied path; `*` empties the record. */
  function WithoutDenied(v: Value, fields: seq<string>): Value
    decreases fields
  {
    if fields == [] then v
    else if fields[0] == WILDCARD then WithoutDenied(if v.Dict? then Dict(map[]) else v, fields[1..])
    else WithoutDenied(DeleteAt(v, Segments(fields[0])), fields[1..])
  }

  /** `obfuscate_fields_in_place`. */
  function WithBlanks(v: Value, fields: seq<string>): Value
    decreases fields
  {
    if fields == [] then v else WithBlanks(BlankAt(v, Segments(fields[0])), fields[1..])
  }

  /** `apply_read` on one record. */
  function MaskedView(policies: seq<Policy>, c: Context, record: Value): Value {
    WithBlanks(WithoutDenied(record, SortedSeq(ReadDenied(policies, c))), SortedSeq(ReadObfuscated(policies, c)))
  }

  /** The two mask loops of `apply_read`, on a copy of one record. */
  method ApplyRead(policies: seq<Policy>, c: Context, record: Value) returns (item: Value, obfuscated: seq<string>)
    ensures item == MaskedView(policies, c, record)
    ensures obfuscated == SortedSeq(ReadObfuscated(policies, c))
  {
    var denied := SortedSeq(ReadDenied(policies, c));
    obfuscated := SortedSeq(ReadObfuscated(policies, c));
    item := record;
    for i := 0 to |denied|
      invariant WithoutDenied(item, denied[i..]) == WithoutDenied(record, denied)
    {
      assert denied[i..][1..] == denied[i + 1..];
      if denied[i] == WILDCARD {
        item := if item.Dict? then Dict(map[]) else item;
      } else {
        item := DeleteAt(item, Segments(denied[i]));
      }
    }
    assert denied[|denied|..] == [];
    for i := 0 to |obfuscated|
      invariant WithBlanks(item, obfuscated[i..]) == MaskedView(policies, c, record)
    {
      assert obfuscated[i..][1..] == obfuscated[i + 1..];
      item := BlankAt(item, Segments(obfuscated[i]));
    }
    assert obfuscated[|obfuscated|..] == [];
  }

  // ---- Whom and what a policy speaks of ----------------------------------------------------

  /** One policy that denies a path to everybody everywhere. */
  function Denying(path: string, op: Operation): Policy {
    Policy("", path, op, Deny, "", "", "", "")
  }

  lemma DenyingOne(path: string, op: Operation, c: Context, f: string)
    ensures IsDenied([Denying(path, op)], op, c, f) <==> PathMatches(path, f)
  {
    var p := Denying(path, op);
    assert p in [p] && Applies(p, op, c) && forall q :: q in [p] ==> q == p;
  }

  /** A policy on `a` refuses `a` and nothing else, one on `a.*` also all that lies below, one on `*` or nothing
      everything. */
  lemma DenyRefuses(a: string, op: Operation, c: Context, f: string)
    requires Canonical(a) && Canonical(f) && a != "*" && (|a| < 2 || a[|a| - 2..] != ".*")
    ensures IsDenied([Denying(a, op)], op, c, f) <==> Segments(f) == Segments(a)
    ensures IsDenied([Denying(a + ".*", op)], op, c, f) <==> Segments(a) <= Segments(f)
    ensures IsDenied([Denying("*", op)], op, c, f) && IsDenied([Denying("", op)], op, c, f)
    ensures forall g :: IsDenied([Denying(".*", op)], op, c, g) <==> g == "" || g[0] == '.'
  {
    forall g ensures IsDenied([Denying(".*", op)], op, c, g) <==> g == "" || g[0] == '.' {
      DenyingOne(".*", op, c, g);
      DotStarMatches(g);
    }
    DenyingOne(a, op, c, f);
    DenyingOne(a + ".*", op, c, f);
    DenyingOne("*", op, c, f);
    DenyingOne("", op, c, f);
    PlainMatches(a, f);
    BelowMatches(a, f);
  }

  lemma DotStarMatches(g: string)
    ensures PathMatches(".*", g) <==> g == "" || g[0] == '.'
  {}

  lemma PlainMatches(a: string, f: string)
    requires Canonical(a) && Canonical(f) && a != "*" && (|a| < 2 || a[|a| - 2..] != ".*")
    ensures PathMatches(a, f) <==> Segments(f) == Segments(a)
  {
    assert f == Dotted(Segments(f)) && a == Dotted(Segments(a));
  }

  lemma BelowMatches(a: string, f: string)
    requires Canonical(a) && Canonical(f)
    ensures PathMatches(a + ".*", f) <==> Segments(a) <= Segments(f)
  {
    BelowByDot(a, f);
    var w := a + ".*";
    assert w[..|w| - 2] == a && w[|w| - 2..] == ".*" && w != "" && w != ".*";
    assert f == a <==> Segments(f) == Segments(a) by {
      assert f == Dotted(Segments(f)) && a == Dotted(Segments(a));
    }
  }

  /** The policy was written for this model, application, form, stage and task, an empty or starred part for any. */
  predicate WrittenFor(p: Policy, c: Context) {
    && (p.modelKey == "" || p.modelKey == "*" || p.modelKey == c.modelKey)
    && (p.appKey == "" || p.appKey == "*" || p.appKey == c.appKey)
    && (p.formKey == "" || p.formKey == "*" || p.formKey == c.formKey)
    && (p.workflowStage == "" || p.workflowStage == "*" || p.workflowStage == c.workflowStage)
    && (p.taskKey == "" || p.taskKey == "*" || p.taskKey == c.taskKey)
  }

  predicate Here(p: Policy, op: Operation, effect: Effect, c: Context) {
    p.operation == op && p.effect == effect && WrittenFor(p, c)
  }

  /** Some policy with this effect, for this operation and place, has a path that matches the field. */
  predicate Speaks(policies: seq<Policy>, op: Operation, effect: Effect, c: Context, f: string) {
    exists p :: p in policies && Here(p, op, effect, c) && PathMatches(p.fieldPath, f)
  }

  lemma SpeaksIsCovered(policies: seq<Policy>, op: Operation, effect: Effect, c: Context, f: string)
    ensures Covered(PathsWith(policies, op, effect, c), f) <==> Speaks(policies, op, effect, c, f)
  {
    forall p | p in policies ensures ContextMatches(p, c) <==> WrittenFor(p, c) {}
    if Speaks(policies, op, effect, c, f) {
      var p :| p in policies && Here(p, op, effect, c) && PathMatches(p.fieldPath, f);
      assert p.fieldPath in PathsWith(policies, op, effect, c);
    }
  }

  /** What is refused is decided by the policies for the operation that were written for the place: a denial, or an
      allow list that leaves the field out. */
  lemma OnlyThoseHere(policies: seq<Policy>, op: Operation, c: Context, f: string)
    ensures IsDenied(policies, op, c, f) <==>
      || Speaks(policies, op, Deny, c, f)
      || (!Speaks(policies, op, Allow, c, f)
          && exists p :: p in policies && Here(p, op, Allow, c))
  {
    SpeaksIsCovered(policies, op, Deny, c, f);
    SpeaksIsCovered(policies, op, Allow, c, f);
    forall p | p in policies ensures ContextMatches(p, c) <==> WrittenFor(p, c) {}
    if p :| p in policies && Here(p, op, Allow, c) {
      assert p.fieldPath in PathsWith(policies, op, Allow, c);
    }
  }

  /** And so are the masks. */
  lemma MasksHere(policies: seq<Policy>, c: Context, f: string)
    ensures f in ReadDenied(policies, c) <==>
      exists p :: p in policies && Here(p, OpRead, Deny, c) && p.fieldPath == f
    ensures f in ReadObfuscated(policies, c) <==>
      exists p :: p in policies && Here(p, OpRead, Obfuscate, c) && p.fieldPath == f
  {
    forall p | p in policies ensures ContextMatches(p, c) <==> WrittenFor(p, c) {}
  }
}
