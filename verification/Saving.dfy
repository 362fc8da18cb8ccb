/** `Service.upsert`: gates, write enforcement, blind-write protection, ownership and the full-replace store. */
module Saving {
  import opened Values
  import opened Text
  import opened Paths
  import opened FieldAcl
  import opened RecordRules
  import opened Session
  import opened Views
  import opened WriteFields
  import opened Drafts

  /** The fields `$owner` frees, when the actor owns the stored record. */
  function OwnerOverride(w: Setting, stored: Record): set<string> {
    var owner := w.TextOf(Get(stored, "owner_uid"));
    if owner != "" && owner == w.uid then w.ownerWritable else {}
  }

  function Without(fields: seq<string>, freed: set<string>): (r: seq<string>)
    ensures forall f :: f in r <==> f in fields && f !in freed
  {
    if fields == [] then []
    else (if fields[0] in freed then [] else [fields[0]]) + Without(fields[1..], freed)
  }

  /** `enforce_write_acl`: the payload paths refused to the actor. */
  function DeniedWrites(w: Setting, op: Operation, payload: Value, freed: set<string>): seq<string> {
    Without(DeniedPaths(w.policies, op, w.Where(), PayloadPaths(payload, "")), freed)
  }

  // ---- Blind writes -----------------------------------------------------------

  /** The obfuscated masks that stay hidden on the stored record, as the protection evaluates them. */
  function StillObfuscated(w: Setting, stored: Record): set<string> {
    var order := SortedSeq(w.Obfuscated());
    if w.Obfuscated() == {} || w.conditions == map[] then w.Obfuscated()
    else set f | f in TwinUnrevealed(w, TwinBlanks(ShallowCopy(stored), order), order)
  }

  /** The fields an update restores from the stored record because the actor does not see them. */
  function GuardedFields(w: Setting, stored: Record, freed: set<string>): set<string> {
    var fields := (w.Denied() - {WILDCARD}) + StillObfuscated(w, stored) - freed;
    fields - ExplicitlyAllowed(w.policies, OpUpdate, w.Where(), fields)
  }

  /** `_blind_write_protected_fields`: the fields, and what evaluating the conditions does to the draft. */
  method BlindWriteProtectedFields(w: Setting, d: Draft, freed: set<string>)
    returns (fields: seq<string>, after: Draft)
    ensures fields == SortedSeq(GuardedFields(w, d.stored, freed))
    ensures after == Evaluated(w, d)
  {
    var hidden;
    hidden, after := EvaluateConditions(w, d);
    var guarded := (w.Denied() - {WILDCARD}) + hidden - freed;
    fields := SortedSeq(guarded - ExplicitlyAllowed(w.policies, OpUpdate, w.Where(), guarded));
  }

  method EvaluateConditions(w: Setting, d: Draft) returns (hidden: set<string>, after: Draft)
    ensures hidden == StillObfuscated(w, d.stored) && after == Evaluated(w, d)
  {
    if w.Obfuscated() == {} || w.conditions == map[] { return w.Obfuscated(), d; }
    var order := SortedSeq(w.Obfuscated());
    var e := BlankCopy(d, order);
    BlanksSharedTwin(Evaluation(ShallowCopy(d.stored), d.payload, d.shared), order);
    var still;
    still, e := RevealCopy(w, e, order);
    hidden := set f | f in still;
    after := Draft(e.payload, e.t.original, e.shared);
  }

  // ---- The payload that reaches the store ----------------------------------------

  const DASHBOARD_FLAG := "create_menu_dashboard"

  /** The payload after the refused paths are restored. */
  function Enforced(w: Setting, stored: Record, data: Record): Draft {
    RestoreAllShared(Draft(Dict(data), stored, {}), DeniedWrites(w, OpUpdate, Dict(data), OwnerOverride(w, stored)))
  }

  /** And after the fields the actor does not see are. */
  function Protected(w: Setting, stored: Record, data: Record): Draft {
    var d := Enforced(w, stored, data);
    RestoreAllShared(Evaluated(w, d), SortedSeq(GuardedFields(w, d.stored, OwnerOverride(w, stored))))
  }

  function UpdatePayload(w: Setting, stored: Record, data: Record): Value {
    DeleteAt(Protected(w, stored, data).payload, [DASHBOARD_FLAG])
  }

  function InsertPayload(w: Setting, data: Record): Value {
    DeleteAt(DropAll(Dict(data), DeniedWrites(w, OpInsert, Dict(data), {})), [DASHBOARD_FLAG])
  }

  // ---- Ownership ------------------------------------------------------------------

  const OWNER_DETAILS: set<string> := {
    "owner_name", "owner_mail", "owner_sector", "owner_sector_id", "owner_function", "owner_personal_type",
    "owner_job_title"
  }

  const OWNED: set<string> := OWNER_DETAILS + {"owner_uid"}

  /** The store's update leaves the owner as it is, whatever the payload says. */
  function KeepOwner(stored: Record, row: Record): Record {
    (row - OWNED) + map k | k in stored && k in OWNED :: stored[k]
  }

  function OwnerOf(w: Setting, row: Record): string {
    Strip(w.TextOf(Get(row, "owner_uid")))
  }

  /** `set_user_data`: a preserved owner keeps the payload's uid with details read locally, any other row is the
      writer's. */
  function StampOwner(w: Setting, row: Record, preserve: bool, details: Record): Record {
    if preserve && OwnerOf(w, row) != "" then row + map k | k in OWNER_DETAILS :: Get(details, k)
    else row["owner_uid" := Str(w.uid)]
  }

  datatype Reason = ModelDenied | RecordDenied | OwnerDeniedByPolicy | ForeignOwner

  datatype SaveResult = Forbidden(reason: Reason) | Saved(row: Record)

  /** An update of the record the store holds. */
  function UpdateOutcome(w: Setting, stored: Record, data: Record, name: string): SaveResult {
    if Update !in w.ModelAccess() then Forbidden(ModelDenied)
    else if Update !in w.RecordAccess(stored) then Forbidden(RecordDenied)
    else Saved(KeepOwner(stored, Named(UpdatePayload(w, stored, data), name)))
  }

  /** A saved update had both grants and keeps the owner's fields. */
  lemma SavedUpdate(w: Setting, stored: Record, data: Record, name: string)
    requires UpdateOutcome(w, stored, data, name).Saved?
    ensures Update in w.ModelAccess() && Update in w.RecordAccess(stored)
    ensures forall k :: k in OWNED ==> Get(UpdateOutcome(w, stored, data, name).row, k) == Get(stored, k)
  {}

  /** A record always carries its name. */
  function Named(payload: Value, name: string): Record {
    var row := if payload.Dict? then payload.entries else map[];
    if "rec_name" in row then row else row["rec_name" := Str(name)]
  }

  lemma ReadThroughNaming(payload: Value, name: string, p: Path)
    requires payload.Dict? && p != [] && p[0] !in {DASHBOARD_FLAG, "rec_name"}
    ensures ReadAt(Dict(Named(DeleteAt(payload, [DASHBOARD_FLAG]), name)), p) == ReadAt(payload, p)
  {
    var row := Named(DeleteAt(payload, [DASHBOARD_FLAG]), name);
    assert Get(row, p[0]) == Get(payload.entries, p[0]);
  }

  /** The insert's ownership gates, given the row to store. */
  function OwnerGate(w: Setting, incoming: string, ownerRefused: bool, row: Record, takeOwnership: bool,
    identity: string -> Record): SaveResult
  {
    var owner := OwnerOf(w, row);
    var preserve := !takeOwnership && owner != "";
    if !takeOwnership && incoming != "" && ownerRefused then Forbidden(OwnerDeniedByPolicy)
    else if preserve && owner != w.uid && !w.isAdmin then Forbidden(ForeignOwner)
    else Saved(StampOwner(w, row, preserve, identity(owner)))
  }

  function InsertOutcome(w: Setting, data: Record, name: string, takeOwnership: bool, identity: string -> Record)
    : SaveResult
  {
    if Create !in w.ModelAccess() then Forbidden(ModelDenied)
    else
      OwnerGate(w, OwnerOf(w, data), "owner_uid" in DeniedWrites(w, OpInsert, Dict(data), {}),
                Named(InsertPayload(w, data), name), takeOwnership, identity)
  }

  /** The record model of the ORM: rows by name, and the switch `upsert` throws for one insert. */
  class RecordModel {
    var rows: map<string, Record>
    var preserveOwner: bool
    var preserveOwnerData: Record

    constructor ()
      ensures rows == map[] && !preserveOwner && preserveOwnerData == map[]
    {
      rows, preserveOwner, preserveOwnerData := map[], false, map[];
    }

    /** The store's insert, which asks `set_user_data` for the owner. */
    method Insert(w: Setting, data: Value, name: string) returns (row: Record)
      modifies this`rows
      ensures row == StampOwner(w, Named(data, name), preserveOwner, preserveOwnerData)
      ensures rows == old(rows)[name := row]
    {
      row := StampOwner(w, Named(data, name), preserveOwner, preserveOwnerData);
      rows := rows[name := row];
    }

    /** The store's update: a full replace of all but the owner, a missing key erases the field. */
    method Replace(data: Value, name: string) returns (row: Record)
      requires name in rows
      modifies this`rows
      ensures row == KeepOwner(old(rows)[name], Named(data, name))
      ensures rows == old(rows)[name := row]
    {
      row := KeepOwner(rows[name], Named(data, name));
      rows := rows[name := row];
    }
  }

  /** `Service.upsert`: an update of the record stored under the target, unless it is empty, and an insert otherwise; an
      insert without a name is stored under `freshName`. */
  method Upsert(w: Setting, model: RecordModel, data: Record, recName: string, takeOwnership: bool,
    freshName: string, identity: string -> Record) returns (result: SaveResult)
    requires !model.preserveOwner
    modifies model
    ensures var target, rows := if recName != "" then recName else w.TextOf(Get(data, "rec_name")), old(model.rows);
      result ==
        if target != "" && target in rows && rows[target] != map[] then UpdateOutcome(w, rows[target], data, target)
        else InsertOutcome(w, data, if target != "" then target else freshName, takeOwnership, identity)
    ensures var target, rows := if recName != "" then recName else w.TextOf(Get(data, "rec_name")), old(model.rows);
      model.rows == if result.Saved? then rows[(if target != "" then target else freshName) := result.row] else rows
    ensures var target, rows := if recName != "" then recName else w.TextOf(Get(data, "rec_name")), old(model.rows);
      target != "" && target in rows && rows[target] != map[] && result.Saved? ==>
        && Update in w.ModelAccess() && Update in w.RecordAccess(rows[target])
        && forall k :: k in OWNED ==> Get(model.rows[target], k) == Get(rows[target], k)
    ensures !model.preserveOwner
  {
    var target := if recName != "" then recName else w.TextOf(Get(data, "rec_name"));
    var stored := target != "" && target in model.rows && model.rows[target] != map[];
    var access := ModelGroupAccess(w.groupRows, w.groups, w.isAdmin);
    if (if stored then Update else Create) !in access { return Forbidden(ModelDenied); }
    if stored {
      ghost var was := model.rows[target];
      result := UpdateRecord(w, model, model.rows[target], data, target);
      if result.Saved? { SavedUpdate(w, was, data, target); }
    } else {
      result := InsertRecord(w, model, data, if target != "" then target else freshName, takeOwnership, identity);
    }
  }

  method UpdateRecord(w: Setting, model: RecordModel, stored: Record, data: Record, name: string)
    returns (result: SaveResult)
    requires Update in w.ModelAccess() && name in model.rows && model.rows[name] == stored
    modifies model`rows
    ensures result == UpdateOutcome(w, stored, data, name)
    ensures model.rows == if result.Saved? then old(model.rows)[name := result.row] else old(model.rows)
  {
    var recordAccess := RecordRuleAccess(w.Rules(), stored, w.resolve, w.isSysModel);
    if Update !in recordAccess { return Forbidden(RecordDenied); }
    var freed := OwnerOverride(w, stored);
    var refused := DeniedFields(w.policies, OpUpdate, w.Where(), PayloadPaths(Dict(data), ""));
    var d := RestoreFields(Draft(Dict(data), stored, {}), Without(refused, freed));
    var guarded;
    guarded, d := BlindWriteProtectedFields(w, d, freed);
    d := RestoreFields(d, guarded);
    var row := model.Replace(DeleteAt(d.payload, [DASHBOARD_FLAG]), name);
    result := Saved(row);
  }

  method InsertRecord(w: Setting, model: RecordModel, data: Record, name: string, takeOwnership: bool,
    identity: string -> Record) returns (result: SaveResult)
    requires !model.preserveOwner && Create in w.ModelAccess()
    modifies model
    ensures result == InsertOutcome(w, data, name, takeOwnership, identity)
    ensures model.rows == if result.Saved? then old(model.rows)[name := result.row] else old(model.rows)
    ensures !model.preserveOwner
  {
    var incoming := OwnerOf(w, data);
    var refused := DeniedFields(w.policies, OpInsert, w.Where(), PayloadPaths(Dict(data), ""));
    refused := Without(refused, {});
    var payload := RestoreOrDrop(Dict(data), refused, None);
    if !takeOwnership && incoming != "" && "owner_uid" in refused { return Forbidden(OwnerDeniedByPolicy); }
    payload := DeleteAt(payload, [DASHBOARD_FLAG]);
    var owner := OwnerOf(w, Named(payload, name));
    var preserve := !takeOwnership && owner != "";
    if preserve && owner != w.uid && !w.isAdmin { return Forbidden(ForeignOwner); }
    var row := InsertOwned(w, model, payload, name, preserve, identity(owner));
    result := Saved(row);
  }

  /** The insert, with the switch on while it lasts if the owner is kept. */
  method InsertOwned(w: Setting, model: RecordModel, payload: Value, name: string, preserve: bool, details: Record)
    returns (row: Record)
    requires !model.preserveOwner
    modifies model
    ensures row == StampOwner(w, Named(payload, name), preserve, details)
    ensures model.rows == old(model.rows)[name := row]
    ensures model.preserveOwner == old(model.preserveOwner) && model.preserveOwnerData == old(model.preserveOwnerData)
  {
    var previous, previousData := model.preserveOwner, model.preserveOwnerData;
    if preserve { model.preserveOwner, model.preserveOwnerData := true, details; }
    row := model.Insert(w, payload, name);
    model.preserveOwner, model.preserveOwnerData := previous, previousData;
  }
}
