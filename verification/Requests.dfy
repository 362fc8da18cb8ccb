/** Small requests: an actor with every right on records, some policies and some conditions. */
module Requests {
  import opened Values
  import opened Text
  import opened Paths
  import opened FieldAcl
  import opened Session

  function Masking(field: string): Policy {
    Policy("m", field, OpRead, Obfuscate, "", "", "", "")
  }

  /** A request whose actor has the given policies on a model with the given conditions, and every right on records. */
  function Asking(policies: seq<Policy>, conditions: Record): Setting {
    Setting("m", "app", "u1", {}, true, true, [], [], policies, conditions, {}, v => v, _ => "")
  }

  lemma AskingMasks(policies: seq<Policy>, conditions: Record)
    requires forall p :: p in policies ==> p == Policy("m", p.fieldPath, p.operation, p.effect, "", "", "", "")
    requires forall p :: p in policies ==> (p.operation == OpRead && p.effect == Obfuscate) || p.operation == OpUpdate
    requires forall p :: p in policies ==> p.effect != Allow
    ensures var w := Asking(policies, conditions);
      && w.Denied() == {}
      && (forall f :: f in w.Obfuscated() <==> Masking(f) in policies)
      && PathsWith(w.policies, OpUpdate, Allow, w.Where()) == {}
  {
    var w := Asking(policies, conditions);
    forall p | p in policies ensures ContextMatches(p, w.Where()) {}
    forall f ensures f in w.Obfuscated() <==> Masking(f) in policies {
      assert Masking(f) in policies ==> Applies(Masking(f), OpRead, w.Where());
    }
  }

  lemma NestedSegments()
    ensures Segments("a.b") == ["a", "b"] && Canonical("a.b") && Segments("c") == ["c"] && Canonical("c")
  {
    assert Dotted(["a", "b"]) == "a.b" by { assert ["a", "b"][1..] == ["b"] && JoinWith(["b"], '.') == "b"; }
    DottedIsCanonical(["a", "b"]);
    assert Dotted(["c"]) == "c";
    DottedIsCanonical(["c"]);
  }

  lemma OneMask(w: Setting, f: string, conditions: Record)
    requires w == Asking([Masking(f)], conditions)
    ensures w.Obfuscated() == {f} && w.Denied() == {}
  {
    AskingMasks([Masking(f)], conditions);
    assert Masking(f) in [Masking(f)];
  }
}
