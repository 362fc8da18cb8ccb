/** Everything one request fixes: the actor, the model's rules and the policies compiled for the actor. */
module Session {
  import opened Values
  import opened FieldAcl
  import opened RecordRules

  datatype Setting = Setting(
    modelKey: string,
    appKey: string,
    uid: string,
    groups: set<string>,
    isAdmin: bool,
    isSysModel: bool,
    groupRows: seq<GroupRow>,
    ruleRows: seq<RuleRow>,
    policies: seq<Policy>,
    conditions: Record,
    ownerWritable: set<string>,
    resolve: Value -> Value,
    show: Value -> string)
  {
    /** `str(value or "")`; how a value that is no string prints is the request's `show`. */
    function TextOf(v: Value): string {
      if !Truthy(v) then "" else if v.Str? then v.s else show(v)
    }

    function Where(): Context { Context(modelKey, appKey, "", "", "") }

    function Rules(): seq<RuleRow> { ScopedRules(ruleRows, groups) }

    /** Layer 1. */
    function ModelAccess(): set<Action> { ModelGrants(groupRows, groups, isAdmin) }

    /** Layer 2: only sys models step over the record rules; an admin does not. */
    function RecordAccess(record: Record): set<Action> {
      RecordGrants(Rules(), record, resolve, isSysModel)
    }

    /** What `load_record` answers for a record: 404 unless both layers grant read. */
    predicate CanOpen(record: Record) {
      Read in ModelAccess() && Read in RecordAccess(record)
    }

    function Denied(): set<string> { ReadDenied(policies, Where()) }

    function Obfuscated(): set<string> { ReadObfuscated(policies, Where()) }

    function Masks(): set<string> { ReadMasks(policies, Where()) }
  }
  /** Written for the setting's model and application, and for every form, stage and task. */
  predicate WrittenForAll(p: Policy, s: Setting) {
    && p.modelKey in {"", "*", s.modelKey}
    && p.appKey in {"", "*", s.appKey}
    && p.formKey in {"", "*"}
    && p.workflowStage in {"", "*"}
    && p.taskKey in {"", "*"}
  }

  /** The masks of a setting: the paths that read policies for its model and application deny or obfuscate, those for
      one form, stage or task left aside. */
  lemma MasksAre(s: Setting, f: string)
    ensures f in s.Masks() <==>
      exists p :: p in s.policies && WrittenForAll(p, s) && p.operation == OpRead && p.effect != Allow
        && p.fieldPath == f
  {
    MasksHere(s.policies, s.Where(), f);
    forall p | p in s.policies ensures WrittenFor(p, s.Where()) <==> WrittenForAll(p, s) {}
  }
}
