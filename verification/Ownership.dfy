/** What inserts promise: whose the record is, and what is stored of it. */
module Ownership {
  import opened Values
  import opened Text
  import opened Paths
  import opened FieldAcl
  import opened RecordRules
  import opened Session
  import opened Views
  import opened WriteFields
  import opened Saving

  /** One deletion, seen from the value under a key. */
  function DropOne(x: Value, k: string, p: Path): Value {
    if p == [k] then Null else if p != [] && p[0] == k then DeleteAt(x, p[1..]) else x
  }

  /** What a drop leaves of the value under one key: nothing when a path spells that key, else what the paths below it
      spare. */
  function DropInside(x: Value, k: string, fields: seq<string>): Value
    decreases fields
  {
    if fields == [] then x else DropInside(DropOne(x, k, Segments(fields[0])), k, fields[1..])
  }

  lemma {:induction false} DropAtKey(v: Value, k: string, fields: seq<string>)
    requires v.Dict?
    ensures DropAll(v, fields).Dict?
    ensures Get(DropAll(v, fields).entries, k) == DropInside(Get(v.entries, k), k, fields)
    decreases fields
  {
    if fields != [] { DropAtKey(DeleteAt(v, Segments(fields[0])), k, fields[1..]); }
  }

  /** Some path of the list spells the key, in one way or another. */
  predicate Spelled(k: string, fields: seq<string>) {
    exists f :: f in fields && Segments(f) == [k]
  }

  /** Of a value that is no object, a drop leaves all or nothing. */
  lemma {:induction false} DropInsidePlain(x: Value, k: string, fields: seq<string>)
    requires !x.Dict?
    ensures DropInside(x, k, fields) == if Spelled(k, fields) then Null else x
    decreases fields
  {
    if fields != [] {
      var f, rest := fields[0], fields[1..];
      assert fields == [f] + rest;
      DropInsidePlain(if Segments(f) == [k] then Null else x, k, rest);
      assert Spelled(k, fields) <==> Segments(f) == [k] || Spelled(k, rest);
    }
  }

  /** A path takes the value under the key away, or something inside it. */
  predicate Hits(x: Value, k: string, f: string) {
    var p := Segments(f);
    (p == [k] && x != Null) || (|p| > 1 && p[0] == k && HasPath(x, p[1..]))
  }

  lemma {:induction false} DropInsidePaths(x: Value, k: string, fields: seq<string>, f: string)
    requires f in fields && |Segments(f)| > 1 && Segments(f)[0] == k
    ensures !HasPath(DropInside(x, k, fields), Segments(f)[1..])
    decreases fields
  {
    var p := Segments(fields[0]);
    var next := DropOne(x, k, p);
    if f in fields[1..] {
      DropInsidePaths(next, k, fields[1..], f);
    } else {
      assert fields == [fields[0]] + fields[1..];
      PathsAfterDelete(x, p[1..], p[1..]);
      DropNeverAdds(next, k, fields[1..], p[1..]);
    }
  }

  lemma {:induction false} DropNeverAdds(x: Value, k: string, fields: seq<string>, q: Path)
    requires q != [] && !HasPath(x, q)
    ensures !HasPath(DropInside(x, k, fields), q)
    decreases fields
  {
    if fields != [] {
      var p := Segments(fields[0]);
      if |p| > 1 { PathsAfterDelete(x, p[1..], q); }
      DropNeverAdds(DropOne(x, k, p), k, fields[1..], q);
    }
  }

  /** A drop leaves the value under a key as it was exactly when no path of the list hits it. */
  lemma {:induction false} DropSpares(x: Value, k: string, fields: seq<string>)
    ensures DropInside(x, k, fields) == x <==> forall f :: f in fields ==> !Hits(x, k, f)
    decreases fields
  {
    if f :| f in fields && Hits(x, k, f) {
      if Segments(f) == [k] { SpelledEmpties(x, k, fields); } else { DropInsidePaths(x, k, fields, f); }
    } else if fields != [] {
      var p := Segments(fields[0]);
      assert fields[0] in fields && !Hits(x, k, fields[0]);
      assert forall f :: f in fields[1..] ==> f in fields;
      if |p| > 1 && p[0] == k { DeleteNothing(x, p[1..]); }
      DropSpares(x, k, fields[1..]);
    }
  }

  lemma {:induction false} SpelledEmpties(x: Value, k: string, fields: seq<string>)
    requires x == Null || Spelled(k, fields)
    ensures DropInside(x, k, fields) == Null
    decreases fields
  {
    if fields != [] {
      var p := Segments(fields[0]);
      assert fields == [fields[0]] + fields[1..];
      SpelledEmpties(DropOne(x, k, p), k, fields[1..]);
    }
  }

  /** The payload paths an insert policy refuses, the owner named in any spelling or not. */
  function InsertDenied(w: Setting, data: Record): seq<string> {
    DeniedWrites(w, OpInsert, Dict(data), {})
  }

  /** The owner the drop leaves in the payload. */
  function KeptOwner(w: Setting, data: Record): string {
    Strip(w.TextOf(DropInside(Get(data, "owner_uid"), "owner_uid", InsertDenied(w, data))))
  }

  lemma OwnerAfterDrop(w: Setting, data: Record, name: string)
    ensures OwnerOf(w, Named(InsertPayload(w, data), name)) == KeptOwner(w, data)
    ensures !Get(data, "owner_uid").Dict? ==>
      KeptOwner(w, data) == if Spelled("owner_uid", InsertDenied(w, data)) then "" else OwnerOf(w, data)
    ensures "owner_uid" in InsertDenied(w, data) ==> Spelled("owner_uid", InsertDenied(w, data))
  {
    var denied, owner := InsertDenied(w, data), Get(data, "owner_uid");
    DropAtKey(Dict(data), "owner_uid", denied);
    OwnerOfNamed(w, DropAll(Dict(data), denied), name);
    if !owner.Dict? { KeptPlain(w, data); }
    PlainSegments("owner_uid");
  }

  lemma KeptPlain(w: Setting, data: Record)
    requires !Get(data, "owner_uid").Dict?
    ensures KeptOwner(w, data) == if Spelled("owner_uid", InsertDenied(w, data)) then "" else OwnerOf(w, data)
  {
    var fields := InsertDenied(w, data);
    DropInsidePlain(Get(data, "owner_uid"), "owner_uid", fields);
    assert Strip("") == "";
  }

  lemma OwnerOfNamed(w: Setting, payload: Value, name: string)
    requires payload.Dict?
    ensures OwnerOf(w, Named(DeleteAt(payload, [DASHBOARD_FLAG]), name)) == OwnerOf(w, payload.entries)
  {
    assert Get(Named(DeleteAt(payload, [DASHBOARD_FLAG]), name), "owner_uid") == Get(payload.entries, "owner_uid");
  }

  lemma {:induction false} DropKeepsDict(v: Value, fields: seq<string>)
    requires v.Dict?
    ensures DropAll(v, fields).Dict?
    decreases fields
  {
    if fields != [] { DropKeepsDict(DeleteAt(v, Segments(fields[0])), fields[1..]); }
  }

  /** The stamped row has the preserved owner, or else the writer. */
  lemma StampedOwner(w: Setting, row: Record, preserve: bool, details: Record)
    requires Stripped(w.uid)
    ensures OwnerOf(w, StampOwner(w, row, preserve, details))
         == if preserve && OwnerOf(w, row) != "" then OwnerOf(w, row) else w.uid
  {
    StripIsStripped(w.uid);
    var stamped := StampOwner(w, row, preserve, details);
    if preserve && OwnerOf(w, row) != "" {
      assert Get(stamped, "owner_uid") == Get(row, "owner_uid");
    } else {
      assert Get(stamped, "owner_uid") == Str(w.uid);
      assert Strip("") == "";
    }
  }

  /** What the gates let through, whatever the row. */
  lemma GateOwner(w: Setting, incoming: string, ownerRefused: bool, row: Record, takeOwnership: bool,
    identity: string -> Record)
    requires Stripped(w.uid)
    ensures var r := OwnerGate(w, incoming, ownerRefused, row, takeOwnership, identity);
      && (r.Saved? ==> OwnerOf(w, r.row) == if !takeOwnership && OwnerOf(w, row) != "" then OwnerOf(w, row) else w.uid)
      && (r.Saved? <==>
            !(!takeOwnership && incoming != "" && ownerRefused) &&
            (takeOwnership || OwnerOf(w, row) in {"", w.uid} || w.isAdmin))
  {
    var owner := OwnerOf(w, row);
    StampedOwner(w, row, !takeOwnership && owner != "", identity(owner));
  }

  /** Whatever the payload, the policies and the flags, a non-admin's insert belongs to the writer, and so does
      every insert that does not ask to keep an owner. */
  lemma InsertNeverForeign(w: Setting, data: Record, name: string, takeOwnership: bool, identity: string -> Record)
    requires Stripped(w.uid) && (!w.isAdmin || takeOwnership)
    ensures var r := InsertOutcome(w, data, name, takeOwnership, identity);
      r.Saved? ==> OwnerOf(w, r.row) == w.uid
  {
    GateOwner(w, OwnerOf(w, data), "owner_uid" in DeniedWrites(w, OpInsert, Dict(data), {}),
              Named(InsertPayload(w, data), name), takeOwnership, identity);
  }

  /** Who owns an insert, and when it is accepted, for every payload whatever. */
  lemma InsertOwnership(w: Setting, data: Record, name: string, takeOwnership: bool, identity: string -> Record)
    requires Stripped(w.uid)
    ensures var r := InsertOutcome(w, data, name, takeOwnership, identity);
      var asked := if takeOwnership then "" else OwnerOf(w, data);
      var kept := if takeOwnership then "" else KeptOwner(w, data);
      && (r.Saved? ==> OwnerOf(w, r.row) == if kept != "" then kept else w.uid)
      && (r.Saved? <==>
            && Create in w.ModelAccess()
            && (asked == "" || !IsDenied(w.policies, OpInsert, w.Where(), "owner_uid"))
            && (kept in {"", w.uid} || w.isAdmin))
  {
    var refused := "owner_uid" in InsertDenied(w, data);
    GateOwner(w, OwnerOf(w, data), refused, Named(InsertPayload(w, data), name), takeOwnership, identity);
    OwnerAfterDrop(w, data, name);
    OwnerIsAPath(w, data);
  }

  /** An insert that asks to keep an owner keeps it or fails, exactly when no refused path of the payload spells
      `owner_uid` otherwise; if one does, the owner is dropped unseen and the record goes to the writer. */
  lemma AskedOwnerIsKept(w: Setting, data: Record, name: string, identity: string -> Record)
    requires Stripped(w.uid) && OwnerOf(w, data) != "" && !Get(data, "owner_uid").Dict?
    requires InsertOutcome(w, data, name, false, identity).Saved?
    ensures OwnerOf(w, InsertOutcome(w, data, name, false, identity).row) == OwnerOf(w, data)
       <==> !Spelled("owner_uid", InsertDenied(w, data)) || OwnerOf(w, data) == w.uid
  {
    InsertOwnership(w, data, name, false, identity);
    OwnerAfterDrop(w, data, name);
  }

  /** Printing tells objects apart, and prints nothing for none but the empty one. */
  ghost predicate PrintsObjects(show: Value -> string) {
    && (forall v: Value :: v.Dict? && Truthy(v) ==> Strip(show(v)) != "")
    && (forall v: Value, u: Value ::
          v.Dict? && u.Dict? && Truthy(v) && Truthy(u) && Strip(show(v)) == Strip(show(u)) ==> v == u)
  }

  /** A drop takes all there is under the key: some path spells it, or paths name every field of the object there. */
  predicate TakenAway(x: Value, k: string, fields: seq<string>) {
    || Spelled(k, fields)
    || (x.Dict? && forall j :: j in x.entries ==> NamedBelow(k, j, fields))
  }

  predicate NamedBelow(k: string, j: string, fields: seq<string>) {
    exists f :: f in fields && Segments(f) == [k, j]
  }

  lemma DropOneField(x: Value, k: string, p: Path, j: string)
    requires x.Dict? && p != [k]
    ensures DropOne(x, k, p).Dict?
    ensures j in DropOne(x, k, p).entries <==> j in x.entries && p != [k, j]
  {
    if |p| > 1 && p[0] == k {
      var t := p[1..];
      assert p == [k] + t && t == [t[0]] + t[1..];
      assert [k, j] == [k] + [j] && [k, j][1..] == [j];
      assert p == [k, j] <==> |t| == 1 && t[0] == j;
    }
  }

  /** A field of an object outlives a drop exactly when no path spells the key or the field. */
  lemma {:induction false} DropKeepsField(x: Value, k: string, fields: seq<string>, j: string)
    requires x.Dict?
    ensures var y := DropInside(x, k, fields);
      if Spelled(k, fields) then y == Null
      else y.Dict? && (j in y.entries <==> j in x.entries && !NamedBelow(k, j, fields))
    decreases fields
  {
    if fields != [] {
      var p, rest := Segments(fields[0]), fields[1..];
      assert fields == [fields[0]] + rest;
      assert Spelled(k, fields) <==> p == [k] || Spelled(k, rest);
      assert NamedBelow(k, j, fields) <==> p == [k, j] || NamedBelow(k, j, rest);
      if p == [k] {
        SpelledEmpties(x, k, fields);
      } else {
        DropOneField(x, k, p, j);
        DropKeepsField(DropOne(x, k, p), k, rest, j);
      }
    }
  }

  /** What is left under the key is nothing exactly when the drop takes all away. */
  lemma DropTakesAway(x: Value, k: string, fields: seq<string>)
    requires Truthy(x)
    ensures var y := DropInside(x, k, fields);
      && (y == Null || y == Dict(map[]) <==> TakenAway(x, k, fields))
      && (y == x || y == Null || (x.Dict? && y.Dict?))
  {
    if x.Dict? {
      DropKeepsField(x, k, fields, "");
      var y := DropInside(x, k, fields);
      if !Spelled(k, fields) {
        forall j ensures j in y.entries <==> j in x.entries && !NamedBelow(k, j, fields) {
          DropKeepsField(x, k, fields, j);
        }
        if TakenAway(x, k, fields) {
          assert y.entries == map[];
        } else {
          var j :| j in x.entries && !NamedBelow(k, j, fields);
          assert j in y.entries;
        }
      }
    } else {
      DropInsidePlain(x, k, fields);
    }
  }

  /** The text of what is left is the text of what was asked exactly when nothing was taken. */
  lemma LeftPrintsAsAsked(w: Setting, x: Value, k: string, fields: seq<string>)
    requires PrintsObjects(w.show) && Strip(w.TextOf(x)) != ""
    ensures var left := Strip(w.TextOf(DropInside(x, k, fields)));
      && (left == Strip(w.TextOf(x)) <==> forall f :: f in fields ==> !Hits(x, k, f))
      && (left == "" <==> TakenAway(x, k, fields))
  {
    assert Strip("") == "" && Truthy(x);
    DropSpares(x, k, fields);
    DropTakesAway(x, k, fields);
  }

  /** Whatever the asked owner is, an object included: an accepted insert keeps it exactly when no refused path of the
      payload takes it or something inside it, or all of it is taken and it printed as the writer. */
  lemma AskedObjectIsKept(w: Setting, data: Record, name: string, identity: string -> Record)
    requires Stripped(w.uid) && OwnerOf(w, data) != "" && PrintsObjects(w.show)
    requires InsertOutcome(w, data, name, false, identity).Saved?
    ensures var x, denied := Get(data, "owner_uid"), InsertDenied(w, data);
      OwnerOf(w, InsertOutcome(w, data, name, false, identity).row) == OwnerOf(w, data) <==>
        || (forall f :: f in denied ==> !Hits(x, "owner_uid", f))
        || (OwnerOf(w, data) == w.uid && TakenAway(x, "owner_uid", denied))
  {
    InsertOwnership(w, data, name, false, identity);
    LeftPrintsAsAsked(w, Get(data, "owner_uid"), "owner_uid", InsertDenied(w, data));
  }

  /** An owner kept on insert brings the details the service reads locally, whatever the payload says of them. */
  lemma DetailsAreLocal(w: Setting, data: Record, name: string, identity: string -> Record, k: string)
    requires k in {"owner_name", "owner_mail", "owner_sector", "owner_sector_id", "owner_function",
                   "owner_personal_type", "owner_job_title"}
    requires InsertOutcome(w, data, name, false, identity).Saved? && KeptOwner(w, data) != ""
    ensures Get(InsertOutcome(w, data, name, false, identity).row, k) == Get(identity(KeptOwner(w, data)), k)
  {
    OwnerAfterDrop(w, data, name);
  }

  lemma ImporterTakes(field: string, show: Value -> string, data: Record, identity: string -> Record)
    requires field !in {"", WILDCARD, "owner_uid"} && (|field| < 2 || field[|field| - 2..] != ".*")
    requires KeptOwner(Importer(field, show), data) == ""
    ensures var r := InsertOutcome(Importer(field, show), data, "r", false, identity);
      r.Saved? && OwnerOf(Importer(field, show), r.row) == "u1"
  {
    StripIsStripped("u1");
    ImporterDenies(field, show, data);
    InsertOwnership(Importer(field, show), data, "r", false, identity);
  }

  /** An admin who may not set another spelling of `owner_uid` on create imports a record of alice's: the drop of the
      one field takes the other, and the record is the importer's. */
  lemma AskedOwnerCanVanish(field: string, show: Value -> string, alice: string, identity: string -> Record)
    requires field !in {"", WILDCARD, "owner_uid"} && (|field| < 2 || field[|field| - 2..] != ".*")
    requires Segments(field) == ["owner_uid"] && alice != "" && Stripped(alice)
    ensures var data: Record := map["owner_uid" := Str(alice), field := Int(1)];
      var r := InsertOutcome(Importer(field, show), data, "r", false, identity);
      OwnerOf(Importer(field, show), data) == alice && r.Saved? && OwnerOf(Importer(field, show), r.row) == "u1"
  {
    var data: Record := map["owner_uid" := Str(alice), field := Int(1)];
    OwnerText(Importer(field, show), data, alice);
    ImporterDenies(field, show, data);
    assert Join("", field) == field && field in PayloadPaths(Dict(data), "");
    AliasVanishes(Importer(field, show), data, field);
    ImporterTakes(field, show, data, identity);
  }

  lemma OwnerText(w: Setting, data: Record, owner: string)
    requires Get(data, "owner_uid") == Str(owner) && Stripped(owner)
    ensures OwnerOf(w, data) == owner
  {
    StripIsStripped(owner);
    assert Strip("") == "";
  }

  lemma AliasVanishes(w: Setting, data: Record, field: string)
    requires field in InsertDenied(w, data) && Segments(field) == ["owner_uid"]
    requires !Get(data, "owner_uid").Dict?
    ensures KeptOwner(w, data) == ""
  {
    SpelledBy("owner_uid", InsertDenied(w, data), field);
    KeptPlain(w, data);
  }

  lemma SpelledBy(k: string, fields: seq<string>, f: string)
    requires f in fields && Segments(f) == [k]
    ensures Spelled(k, fields)
  {}

  /** Such a spelling: an empty piece before the first dot is no piece. */
  lemma LeadingDotSpells(k: string)
    requires PlainKey(k)
    ensures Segments("." + k) == [k]
  {
    PlainSegments(k);
    SplitPrefix("", k, '.');
    assert "" + ['.'] + k == "." + k;
  }

  /** With a dot in front, say. */
  lemma DottedOwnerVanishes(show: Value -> string, identity: string -> Record)
    ensures var data: Record := map["owner_uid" := Str("alice"), ".owner_uid" := Int(1)];
      var w := Importer(".owner_uid", show);
      var r := InsertOutcome(w, data, "r", false, identity);
      OwnerOf(w, data) == "alice" && r.Saved? && OwnerOf(w, r.row) == "u1"
  {
    var field := DottedField();
    AskedOwnerCanVanish(field, show, "alice", identity);
  }

  lemma DottedField() returns (field: string)
    ensures field == ".owner_uid" && Segments(field) == ["owner_uid"]
    ensures field !in {"", WILDCARD, "owner_uid"} && field[|field| - 2..] != ".*"
  {
    var k := "owner_uid";
    LeadingDotSpells(k);
    field := "." + k;
  }

  /** The same for an owner that is an object, however it prints, when its one field may not be set. */
  lemma AskedObjectCanVanish(field: string, show: Value -> string, inner: string, x: Value, identity: string -> Record)
    requires PlainKey(inner) && inner != WILDCARD && field == Dotted(["owner_uid", inner])
    requires Strip(show(Dict(map[inner := x]))) != ""
    ensures var data: Record := map["owner_uid" := Dict(map[inner := x])];
      var r := InsertOutcome(Importer(field, show), data, "r", false, identity);
      && OwnerOf(Importer(field, show), data) == Strip(show(data["owner_uid"])) != ""
      && r.Saved? && OwnerOf(Importer(field, show), r.row) == "u1"
  {
    ObjectVanishes(field, show, "owner_uid", inner, x, identity);
  }

  lemma ObjectVanishes(field: string, show: Value -> string, k: string, inner: string, x: Value,
    identity: string -> Record)
    requires k == "owner_uid" && PlainKey(inner) && inner != WILDCARD && field == Dotted([k, inner])
    requires Strip(show(Dict(map[inner := x]))) != ""
    ensures var w, data := Importer(field, show), map[k := Dict(map[inner := x])];
      var r := InsertOutcome(w, data, "r", false, identity);
      OwnerOf(w, data) == Strip(show(data[k])) != "" && r.Saved? && OwnerOf(w, r.row) == "u1"
  {
    var data: Record := map[k := Dict(map[inner := x])];
    assert inner in data[k].entries;
    ObjectText(Importer(field, show), data, k);
    ObjectField(field, k, inner);
    NothingKept(field, show, data, k, inner, x);
    ImporterTakes(field, show, data, identity);
  }

  lemma ObjectText(w: Setting, data: Record, k: string)
    requires k == "owner_uid" && k in data && data[k].Dict? && data[k] != Dict(map[])
    ensures OwnerOf(w, data) == Strip(w.show(data[k]))
  {}

  lemma NothingKept(field: string, show: Value -> string, data: Record, k: string, inner: string, x: Value)
    requires field !in {"", WILDCARD} && (|field| < 2 || field[|field| - 2..] != ".*")
    requires k == "owner_uid" && PlainKey(inner) && field == Dotted([k, inner])
    requires data == map[k := Dict(map[inner := x])]
    ensures KeptOwner(Importer(field, show), data) == ""
  {
    ImporterDenies(field, show, data);
    ObjectEmptied(Importer(field, show), data, field, k, inner, x);
  }

  lemma ObjectField(field: string, k: string, inner: string)
    requires |k| > 1 && PlainKey(inner) && inner != WILDCARD && field == Dotted([k, inner])
    ensures |field| > |k| + 1 && field != WILDCARD && field[|field| - 2..] != ".*"
  {
    assert [k, inner][1..] == [inner] && JoinWith([inner], '.') == inner;
    assert field == k + ['.'] + inner;
    assert field[|field| - 1] == inner[|inner| - 1];
    assert |inner| == 1 ==> inner == [inner[0]];
    assert |inner| > 1 ==> field[|field| - 2] == inner[|inner| - 2] && inner[|inner| - 2] in inner;
  }

  lemma ObjectEmptied(w: Setting, data: Record, field: string, k: string, inner: string, x: Value)
    requires k == "owner_uid" && PlainKey(inner) && field == Dotted([k, inner])
    requires data == map[k := Dict(map[inner := x])]
    requires forall f :: f in InsertDenied(w, data) <==> f == field && field in PayloadPaths(Dict(data), "")
    ensures KeptOwner(w, data) == ""
  {
    assert PlainKey(k) && Strip("") == "";
    ObjectDropped(InsertDenied(w, data), data, field, k, inner, x);
  }

  lemma ObjectDropped(denied: seq<string>, data: Record, field: string, k: string, inner: string, x: Value)
    requires PlainKey(k) && PlainKey(inner) && field == Dotted([k, inner]) && data == map[k := Dict(map[inner := x])]
    requires forall f :: f in denied <==> f == field && field in PayloadPaths(Dict(data), "")
    ensures DropInside(Get(data, k), k, denied) in {Null, Dict(map[])}
  {
    ListedBelow(k, inner, x);
    assert field in denied && NamedBelow(k, inner, denied);
    assert inner in Get(data, k).entries;
    DropTakesAway(Get(data, k), k, denied);
  }

  lemma ListedBelow(k: string, inner: string, x: Value)
    requires PlainKey(k) && PlainKey(inner)
    ensures var field := Dotted([k, inner]);
      Segments(field) == [k, inner] && field in PayloadPaths(Dict(map[k := Dict(map[inner := x])]), "")
  {
    var data: Record := map[k := Dict(map[inner := x])];
    DottedIsCanonical([k, inner]);
    assert [k, inner][1..] == [inner] && data[k] == Dict(map[inner := x]);
    PathIsListed(Dict(data), [], [k, inner]);
    assert [] + [k, inner] == [k, inner];
  }

  /** An admin who may create anything but one field. */
  function Importer(field: string, show: Value -> string): Setting {
    Setting("m", "app", "u1", {}, true, false, [], [], [Policy("m", field, OpInsert, Deny, "", "", "", "")],
            map[], {}, v => v, show)
  }

  lemma ImporterDenies(field: string, show: Value -> string, data: Record)
    requires field != "" && field != WILDCARD && (|field| < 2 || field[|field| - 2..] != ".*")
    ensures var w := Importer(field, show);
      forall f :: IsDenied(w.policies, OpInsert, w.Where(), f) <==> f == field
    ensures forall f :: f in InsertDenied(Importer(field, show), data) <==>
      f == field && field in PayloadPaths(Dict(data), "")
    ensures Create in Importer(field, show).ModelAccess()
  {
    var w := Importer(field, show);
    var p := Policy("m", field, OpInsert, Deny, "", "", "", "");
    assert w.policies == [p] && p in w.policies && Applies(p, OpInsert, w.Where());
    assert PathsWith(w.policies, OpInsert, Deny, w.Where()) == {field};
    assert PathsWith(w.policies, OpInsert, Allow, w.Where()) == {};
  }

  /** Stamping the owner and naming the row touch no other field. */
  lemma StampedElsewhere(w: Setting, row: Record, preserve: bool, details: Record, p: Path)
    requires p != [] && p[0] != "owner_uid" && p[0] !in OWNER_DETAILS
    ensures ReadAt(Dict(StampOwner(w, row, preserve, details)), p) == ReadAt(Dict(row), p)
  {
    assert Get(StampOwner(w, row, preserve, details), p[0]) == Get(row, p[0]);
  }

  /** A stored insert holds, outside the owner's fields, exactly what the drop leaves of the payload. */
  lemma InsertedFieldsLand(w: Setting, data: Record, name: string, takeOwnership: bool, identity: string -> Record,
    p: Path)
    requires p != [] && p[0] !in OWNER_DETAILS + {"owner_uid", "rec_name", DASHBOARD_FLAG}
    requires InsertOutcome(w, data, name, takeOwnership, identity).Saved?
    ensures ReadAt(Dict(InsertOutcome(w, data, name, takeOwnership, identity).row), p)
      == ReadAt(DropAll(Dict(data), DeniedWrites(w, OpInsert, Dict(data), {})), p)
  {
    var dropped := DropAll(Dict(data), DeniedWrites(w, OpInsert, Dict(data), {}));
    var row := Named(InsertPayload(w, data), name);
    DropKeepsDict(Dict(data), DeniedWrites(w, OpInsert, Dict(data), {}));
    ReadThroughNaming(dropped, name, p);
    StampedElsewhere(w, row, !takeOwnership && OwnerOf(w, row) != "", identity(OwnerOf(w, row)), p);
  }

  /** A payload that names an owner carries the path `owner_uid`. */
  lemma OwnerIsAPath(w: Setting, data: Record)
    ensures OwnerOf(w, data) != "" ==>
      ("owner_uid" in DeniedWrites(w, OpInsert, Dict(data), {}) <==>
        IsDenied(w.policies, OpInsert, w.Where(), "owner_uid"))
  {
    assert Strip("") == "";
    assert OwnerOf(w, data) != "" ==> "owner_uid" in data;
    assert Join("", "owner_uid") == "owner_uid";
    assert "owner_uid" in data ==> "owner_uid" in PayloadPaths(Dict(data), "");
  }
}
