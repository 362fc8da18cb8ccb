# Access control, saving and schedules: a verified model

This project models the decisions the service takes for every request — what an actor may list, open, see and save — and the small protocols around them, and proves that the several independent ways in which the program computes the same decision agree.

What it covers, in the system's own terms:

- **Three layers of access control.** Model grants (Layer 1), record rules (Layer 2) and field masks with conditional reveal (Layer 3), as `list_records`, `stream_record`, `load_record` and `upsert` compose them. Values are JSON-like (`Values`), records are maps, a filter is a value, and the one evaluator is the in-repository matcher (`Filters`). A request is one `Setting`: the actor, the rows of the rule tables, the compiled field policies, the model's reveal conditions, and the request's variable resolution as one fixed function.
- **Compiling rules.** Nested component properties to the flat rows the engine reads (`RuleSync`), and the tables those rows live in (`RuleTables`).
- **Dictionaries as objects.** The path operations change dictionaries in place, and rows are copied shallowly before they are masked. `HeapDicts` proves the in-place operations equal to functions on values, and `HeapCopies` proves that a row and its shallow copy, masked and revealed in place, behave as the `Twin` of `Views`, in which a blank below a shared key shows on both sides. An update's payload takes values from the stored record as the record's own objects; `Drafts` keeps track of what is shared, so that a blank of the record shows in the payload too.
- **Protocols over time.** The gateway's single-flight cache, the calendar run lock, session revocation with purging, and the process settle loop, each with a clock and over all runs.
- **Algorithms.** Plugin order, group closure, calendar expressions and relative times.

Methods carry the code's own loops and updates and are proved equal to specification functions; the laws are lemmas about those functions.

## Results that differ from what one would expect

- *Read-then-save does not hold for every mask.* Blind-write protection blanks a shallow copy of the stored record to evaluate the reveal conditions (`app/services/service.py:2431-2492`), so a nested obfuscated mask blanks the stored record itself, and whatever the payload already took from it. `RoundTrip.ReadThenSave` is the exact condition, for any masks, conditions and permissions: the record must carry no dashboard flag; every path the save takes from the stored record — the protected masks, and the write-refused paths with no nested mask at or above them — must read the same before and after those blanks; and every masked path must be shown, be empty in the record, or be restored at or above. Inputs for each way it fails: a hidden nested value is erased (`LostValues.ReadThenSaveCanFail`); so is a nested value that is shown, when the field above it may not be written (`LostValues.ShownFieldCanBeLost`); a hidden top-level field loses its protection, because the evaluation's own blank makes its condition true, and the posted null overwrites it (`LostValues.EvaluationUnprotects`, `LostValues.HiddenFieldCanBeLost`); and with `*` denied the load is empty, `*` is no field the save protects, and saving it back erases what nothing else guards (`LostValues.EmptyViewCanErase`).
- *A blind write can erase a hidden value.* The protection restores a path only where the payload has an object to hold it (`app/ozon_env_acl/__init__.py:474-487`): a payload that leaves out the field above a hidden nested one, or has null or a number there, is accepted, and the full replace erases what `app/services/service.py:1565-1588` says must come from the stored record. `SaveLaws.UnseenFieldsSurvive` says exactly when a hidden value survives, for any payload; `LostValues.BlindWriteCanLose` is an input.
- *A save strips `create_menu_dashboard`* (`app/services/service.py:1624-1629`), so a record that carries it cannot be saved back unchanged.
- *An asked-for owner can vanish unseen.* An import keeps the payload's owner or fails, unless a policy refuses another spelling of `owner_uid` that the payload also carries, such as `.owner_uid`: the drop then takes both, and the record goes to the importer, where `docs/IMPORT_RECORD_OWNERSHIP.md:13` promises a refusal. `Ownership.AskedOwnerIsKept` says exactly when the promise holds, `Ownership.DottedOwnerVanishes` is the input; for an owner that is an object, from which a refused path may take a part, see `Ownership.AskedObjectIsKept` and `Ownership.AskedObjectCanVanish`.
- *A stream may show what a load denies.* The stream envelope puts denied and obfuscated fields in one list and reveals both, and it takes a denied `*` for a field of that name: with `*` denied it shows every field no other mask names (`Views.StreamShowsDeniedRecord`). `Views.StreamAgreesWithLoad` is the exact condition for top-level masks, `StreamLaws.StreamAgreesAtAnyDepth` for masks of any depth when no condition reads a field a mask reaches into; with nested masks a stream shows null even where a load reveals (`NestedMasks.StreamLosesNestedReveal`).
- *The query gate looks at names only.* A filter that compares a whole object passes although a mask reaches into it (`NestedSecrecy.GateCanBePassed`).
- *More groups can hurt.* With no scoped record rule there is no restriction at all, so joining the first group with a rule may remove access: `Membership.RecordGrantsGrow` is the exact condition, `Membership.FirstRuleRestricts` an input.
- *A record filter that is not an object* covers nothing in the configuration and every record once flattened: `RuleSync.RuleRowsKeepMeaning` says exactly what that adds and when it changes the grants, `RuleSync.TextFilterWidens` is an input.
- *Admins* are listed rows they cannot open: `Listing.AdminListsMore` says which.
- *Policy priority never decides.* Every decision asks whether some policy applies, so the order of the policies is irrelevant and is not modelled.

## Model

| member | source | states |
|---|---|---|
| Filters.MergeIsConjunction | app/services/service.py:122-129 | merging two queries selects what both select, `{}` meaning all |
| Filters.NothingSelectsNothing | app/services/service.py:1137-1145 | the domain that stands for "no model grant" selects no record whatever |
| Filters.VerdictDependsOnKeysRead | app/ozon_env_acl/__init__.py:910-941 | the matcher's verdict depends on nothing but the top-level keys the filter names |
| Filters.SelectsEach | app/ozon_env_acl/__init__.py:910-941 | a filter of several keys selects what each of them selects |
| Filters.AndSelects | app/ozon_env_acl/__init__.py:921-927 | `$and` selects what every clause of a list that is not empty selects, an empty clause nothing |
| Filters.OrSelects | app/ozon_env_acl/__init__.py:928-934 | `$or` selects what some clause selects |
| Filters.OtherOperatorsSelectNothing | app/ozon_env_acl/__init__.py:921-938 | any other operator in place of a field, or one of those two without a list, selects nothing |
| Filters.PlainSelects | app/ozon_env_acl/__init__.py:907-907 | what is no object is compared as it is |
| Filters.EqSelects | app/ozon_env_acl/__init__.py:882-906 | `$eq` and `$ne` are equality and its complement, and an object without a known operator selects nothing |
| Filters.InSelects | app/ozon_env_acl/__init__.py:888-897 | `$in` selects a list that shares an element with the given one, and any other value that equals one of it; nothing when given no list |
| Filters.NinSelects | app/ozon_env_acl/__init__.py:898-904 | `$nin` is the complement of that |
| Values.EqualAsNumbers | app/ozon_env_acl/__init__.py:880-907 | Python equality is plain equality once booleans are the numbers they equal, at every depth |
| Filters.GateSeesEveryKeyRead | app/ozon_env_acl/__init__.py:782-807 | every record key the matcher may read is among the paths the query gate inspects |
| Filters.EntriesMention | app/ozon_env_acl/__init__.py:782-807 | the paths a query mentions, entry by entry: a field its own dotted path and all asked below it, `$and`, `$or`, `$nor`, `$not`, `$all` and `$elemMatch` what is asked inside, any other operator none |
| Filters.EntriesMayStand | app/ozon_env_acl/__init__.py:782-807 | a query is allowed iff each entry is: the eighteen operators by name, and what is asked inside |
| Filters.ListsWalked | app/ozon_env_acl/__init__.py:782-807 | lists are walked item by item, and plain values say nothing |
| FieldAcl.DeniedFields | app/ozon_env_acl/__init__.py:561-593 | the loop over sorted paths yields exactly the denied ones, in ascending order |
| FieldAcl.DenyRefuses | app/ozon_env_acl/__init__.py:365-372 | a denial of `a` refuses that path alone, one of `a.*` also all paths below it and no others, one of `*` everything |
| FieldAcl.OnlyThoseHere | app/ozon_env_acl/__init__.py:536-593 | only policies for the operation, written for this model, application, form, stage and task, speak: a denial, or an allow list that leaves the field out |
| FieldAcl.MasksHere | app/ozon_env_acl/__init__.py:632-663 | the same for the read masks |
| Session.MasksAre | app/services/service.py:1160-1166 | the masks of a list, load or save: the paths that read policies for the model and application deny or obfuscate, those for one form, stage or task left aside |
| FieldAcl.ApplyRead | app/ozon_env_acl/__init__.py:665-693 | the two mask loops give the record without denied and with blanked fields, and report the obfuscated fields sorted |
| RecordRules.ModelGroupAccess | app/ozon_env_acl/__init__.py:995-1026 | Layer 1 loop equals the union of the grants of the rows that speak to the actor, everything for an admin |
| RecordRules.EvaluateRecordRules | app/ozon_env_acl/__init__.py:1034-1085 | None exactly when no rule covers the record, otherwise the union of the covering rules' grants |
| RecordRules.RecordRuleAccess | app/ozon_env_acl/__init__.py:1088-1118 | bypass or an empty rule list means full access, no covering rule means none |
| RecordRules.RecordRuleReadDomain | app/ozon_env_acl/__init__.py:1121-1151 | the early-return loop builds the read domain |
| RecordRules.ReadDomainAgrees | app/ozon_env_acl/__init__.py:1121-1151 | for every record, the read domain selects it if and only if a covering rule grants read |
| Listing.ListedRows | app/services/service.py:1137-1158 | for every actor, a row matches the narrowed domain iff it matches the query and both layers let it through, admins skipping Layer 2 |
| Listing.ListedIffOpenable | app/services/service.py:1882-1911 | a non-admin is listed a row iff it matches the query and loading it would be allowed |
| Listing.AdminListsMore | app/services/service.py:1137-1158 | an admin is also listed exactly the matching rows whose record rules close them |
| Listing.CounterCountsTheList | app/services/service.py:3186-3212 | the dashboard counter's domain selects the records the list's domain selects |
| Listing.QueryGateIs | app/ozon_env_acl/__init__.py:810-837 | a query passes the gate iff it uses allowed operators only and mentions no masked field; a refusal names just the masked fields mentioned |
| Listing.OrderGateIs | app/ozon_env_acl/__init__.py:840-879 | an order passes iff it sorts by no masked field |
| Listing.ListRecords | app/services/service.py:1074-1300 | gates first, then domain, order, page, masks and reveals: the method equals the list function the theorem is about |
| ListPages.ReportedAre | app/services/service.py:1236-1269 | the answer reports every obfuscated mask, or with conditions those some row of the page still hides |
| Listing.ShowRows | app/services/service.py:1236-1269 | the two loops over the page show each row as its view |
| ListPages.ListIsComplete | app/services/service.py:1137-1243 | every list answers with a page of all matching readable rows, each exactly as often as the table holds it and sorted: their number, the views of the rows of the page, and the masks some of them hides |
| ListPages.ListIsOrdered | app/services/service.py:1227-1235 | an order `f:asc,g:desc` puts each row no later than every following one in `f`, and on ties no earlier in `g` |
| ListPages.PageIs | app/services/service.py:1227-1235 | a page holds the rows from `skip` on, `limit` of them if there are so many, all without a limit |
| ListPages.PagesJoin | app/services/service.py:1227-1235 | consecutive pages join to one page of both lengths: paging loses and repeats nothing |
| Secrecy.ListNoninterference | app/services/service.py:1097-1243 | two tables that differ only in top-level fields hidden from the actor give the same answer to every query, order and page: refusal, rows, order, count, values and reported obfuscated fields |
| NestedSecrecy.NestedNoninterference | app/services/service.py:1097-1243 | the same for masks of any depth, when query, order, rules and conditions look at no field a mask names or reaches into |
| NestedSecrecy.ViewDeep | app/ozon_env_acl/__init__.py:665-693 | what a list shows of two records is the same when they differ only at paths hidden in both |
| NestedSecrecy.GateCanBePassed | app/ozon_env_acl/__init__.py:782-837 | a filter that passes the gate and tells apart two records that differ in a masked nested field only |
| Secrecy.GatedVerdict | app/ozon_env_acl/__init__.py:810-837 | a query that passes the gate cannot tell apart records that differ only in hidden top-level fields |
| Secrecy.SortPaired | app/services/service.py:1227-1235 | sorting on keys under which paired records hold the same keeps two tables row by row paired |
| Views.ApplyFieldRuleConditions | app/ozon_env_acl/__init__.py:944-987 | the loop sets back exactly the fields whose resolved condition matches the original, and reports the others |
| Views.LoadRecord | app/services/service.py:1871-1958 | found iff the record may be opened; shows the view, whether it is editable and which fields stay hidden |
| Views.StreamRow | app/services/service.py:1044-1072 | the stream's two loops over a shallow copy, with what they write through it |
| Views.ViewByKey | app/services/service.py:1912-1934 | a load or list shows a masked top-level field iff it is obfuscated and its condition matches, null otherwise; other fields are untouched, unless `*` is denied |
| Views.StreamByKey | app/services/service.py:1016-1072 | a stream shows a masked top-level field iff its condition matches, null otherwise |
| Views.StreamAgreesWithLoad | app/services/service.py:1016-1072 | for top-level masks, `*` included, stream and load show the same row iff the record has nothing in the fields only the stream shows |
| Views.OnlyStreamed | app/services/service.py:1016-1072 | which fields those are: denied ones whose condition matches and, with `*` denied, all that no mask names |
| Views.StreamShowsDeniedRecord | app/services/service.py:1052-1072 | on a model with conditions, with `*` denied a load shows nothing and a stream the whole record |
| StreamLaws.StreamKey | app/services/service.py:1052-1072 | one key of a streamed row, at any depth: under a whole mask the true value or nothing, else what the blanks leave |
| StreamLaws.StreamAgreesAtAnyDepth | app/services/service.py:1016-1072 | the exact condition for masks of any depth: the record has nothing in the fields only the stream shows and, unless `*` is denied, nothing at a nested mask whose blank reaches the row and which a condition lifts for the load |
| NestedMasks.StreamLosesNestedReveal | app/services/service.py:1052-1060 | with nested obfuscated masks and conditions, a stream shows null even where a load reveals |
| LostValues.EvaluationUnprotects | app/services/service.py:2431-2492 | a family of inputs, two masks and one condition: a hidden top-level field whose condition the evaluation's own blank makes true is not protected and is overwritten with the null the actor was shown |
| LostValues.HiddenFieldCanBeLost | app/services/service.py:2431-2492 | a concrete setting and record for that |
| LostValues.ShownFieldCanBeLost | app/services/service.py:1535-1588 | a concrete setting and record whose shown nested value is erased because the field above it may not be written |
| LostValues.ReadThenSaveCanFail | app/services/service.py:2431-2492 | a concrete setting and record for which posting back what a load returned erases a value |
| LostValues.BlindWriteCanLose | app/services/service.py:1565-1588 | a concrete setting, record and payload: a hidden and protected nested value is erased because the payload says nothing about the field above it |
| LostValues.EmptyViewCanErase | app/services/service.py:1535-1588 | a concrete setting and record: with `*` denied a load shows nothing, and saving that back erases a field |
| Paths.ReadPath | app/ozon_env_acl/__init__.py:1154-1165 | the walk reads what the path names, null when any step is missing |
| Paths.PayloadPathsAre | app/ozon_env_acl/__init__.py:375-384 | the listed path strings are exactly the dotted forms of the paths the payload has |
| Paths.AncestorSortsFirst | app/ozon_env_acl/__init__.py:575-580 | in the sorted list of denied paths every ancestor comes before its descendants |
| Paths.RestoreUncovers | app/ozon_env_acl/__init__.py:474-487 | restoring a path, its ancestors being done, takes it off the paths in which two values may differ |
| WriteFields.RestoreOrDrop | app/ozon_env_acl/__init__.py:1234-1258 | the loop restores each field from the stored record, or drops it when there is none |
| WriteFields.InsertDropsExactlyDenied | app/ozon_env_acl/__init__.py:1234-1258 | after an insert drop the payload's paths are the old ones minus denied paths and their descendants, with unrelated values unchanged |
| WriteFields.UpdateRestoresDenied | app/ozon_env_acl/__init__.py:1234-1307 | after an update restore every denied path of the payload reads as stored, and every path unrelated to a denied one is unchanged |
| WriteFields.RestoreAnyOrder | app/ozon_env_acl/__init__.py:1234-1258 | restoring any list of paths, in whatever order, leaves the value different from the stored one only where it may be |
| Drafts.RestoreFields | app/ozon_env_acl/__init__.py:1234-1258 | the restore loop of an update, with the objects it makes the payload share with the stored record |
| DraftLaws.RestoresSame | app/ozon_env_acl/__init__.py:1234-1258 | up to null entries, sharing makes no difference to a restore, and a restore none to the stored record |
| Saving.BlindWriteProtectedFields | app/services/service.py:2431-2492 | the protected fields, sorted, and what blanking the shallow copy did to the stored record and to the payload |
| EvaluationLaws.EvaluatedIs | app/services/service.py:2465-2480 | up to null entries, evaluating the conditions blanks exactly the nested masks that no whole mask covers, in the record and in what the payload shares |
| Saving.Upsert | app/services/service.py:1373-1740 | a target that names a stored, non-empty record is an update of that record, anything else an insert; the store changes only by a successful save; a saved update had update on model and record and keeps the owner; the owner switch is off again afterwards |
| SaveLaws.ProtectionIsHiddenMasks | app/services/service.py:2431-2492 | the protection covers exactly the masks hidden on the record that neither ownership nor an explicit permission frees, while no condition reads a field a nested mask reaches into |
| SaveLaws.StoredIsDamaged | app/services/service.py:2465-2480 | for any payload, the stored record after the evaluation is the record with those masks blanked |
| ViewLaws.ViewCovers | app/services/service.py:1912-1934 | what the actor is shown differs from the record only at or below the masks that stay hidden |
| ViewLaws.ViewAt | app/services/service.py:1912-1934 | at any masked path, `*` included, a load shows the record's value if the topmost mask at or above it is obfuscated and its condition matches, and nothing if not |
| RoundTrip.ReadThenSave | app/services/service.py:1535-1588 | whatever the masks, `*` included, the conditions and the permissions: posting back what a load returned saves, and leaves the record as it was iff it carries no dashboard flag, the evaluation spoils no path the save takes from it, and every masked path is shown, empty, or restored at or above |
| RoundTrip.MissingIsErased | app/services/service.py:1535-1588 | a masked path that is neither shown nor restored at or above is null after a save of the view |
| SaveLaws.NothingReaches | app/services/service.py:2465-2480 | without conditions, or with every obfuscated mask at the top level, nothing is spoilt |
| TopLevelSaves.ReadThenSaveExactly | app/services/service.py:1535-1588 | with top-level masks and any permissions: unchanged iff every field the save may freely overwrite was null, and no dashboard flag |
| SaveLaws.UnseenFieldsSurvive | app/services/service.py:1535-1588 | for any payload, every write-refused path and every hidden field nothing frees is stored as the evaluation leaves it in the stored record where the payload has an object to hold it, or a restored field above it, and as null elsewhere: the exact condition for its stored value to survive |
| SaveLaws.SaveErasesNestedMask | app/services/service.py:2431-2492 | a hidden nested mask the evaluation reaches is null after every successful update, whatever was stored or posted |
| SaveLaws.UpdateKeepsOwner | app/services/service.py:1400-1402 | no payload changes the owner of an existing record |
| SaveLaws.UpdateAccepted | app/services/service.py:1441-1500 | an update is accepted exactly with update granted on the model and on the stored record |
| SaveLaws.RefusedAre | app/services/service.py:1535-1552 | an update refuses the payload paths a policy denies, but those an owner may write to the actor who owns the stored record |
| SaveLaws.PostedFieldsLand | app/services/service.py:1535-1588 | a path apart from every refused and protected one, and not the owner's, is stored as posted, an omitted one as absent |
| Ownership.InsertedFieldsLand | app/services/service.py:1535-1700 | outside the owner's fields a stored insert holds exactly what the drop leaves of the payload |
| Ownership.InsertNeverForeign | app/services/service.py:1589-1623 | for every payload, a non-admin's insert, or one that takes ownership, is owned by the writer |
| Ownership.InsertOwnership | app/services/service.py:1589-1700 | for every payload: the owner of a successful insert, and exactly when an insert succeeds |
| Ownership.DropSpares | app/ozon_env_acl/__init__.py:1234-1258 | a drop leaves the value under a key as it was iff no path of the list hits it |
| Ownership.AskedOwnerIsKept | app/services/service.py:1589-1623 | an accepted insert that asks to keep an owner keeps it iff no refused path of the payload spells `owner_uid`, or the owner is the writer |
| Ownership.DetailsAreLocal | app/core/OzonModelApp.py:118-149 | an owner kept on insert brings the details read locally, whatever the payload says of them |
| Ownership.AskedObjectIsKept | app/services/service.py:1532-1534 | the same for any owner, an object included, printing telling objects apart: kept iff no refused path takes it or something inside it, or all of it is taken and it printed as the writer |
| Ownership.DottedOwnerVanishes | app/services/service.py:1589-1623 | an input whose owner is replaced by the importer without a refusal |
| Ownership.AskedObjectCanVanish | app/services/service.py:1532-1534 | an input for an owner that is an object, however objects print |
| RuleSync.SyncKeepsMeaning | app/ozon_env_acl/model_rules_sync.py:90-231 | evaluating the rows built from a property grants what evaluating its nested entries grants, for every actor, record and action, plus what applicable entries with a filter that is no object switch on |
| RuleSync.GroupRowsSay | app/ozon_env_acl/model_rules_sync.py:90-141 | the rows built from `models_groups` grant read, create, update, delete or export exactly when some entry under `rules` that names one of the actor's groups has that very key switched on |
| RuleSync.RuleRowsSay | app/ozon_env_acl/model_rules_sync.py:144-231 | the rows built from `record_rules` grant everything on records where no entry speaks to the actor, else what the key of some entry says that does and that selects the record |
| RuleSync.Readable | app/ozon_env_acl/model_rules_sync.py:100-128 | a list can be read when every object in it that counts has an object for `actions`, or nothing |
| RuleSync.MergeGroups | app/ozon_env_acl/model_rules_sync.py:100-128 | one bucket per named group, the union of what its entries switch on |
| RuleSync.ModelGroupsRows | app/ozon_env_acl/model_rules_sync.py:90-141 | the rows built are one per bucket |
| RuleSync.ModelFieldsRows | app/ozon_env_acl/model_rules_sync.py:144-231 | one universal row or one row per group for every entry |
| RuleSync.GroupRowsKeepMeaning | app/ozon_env_acl/model_rules_sync.py:90-141 | merging duplicate groups and flattening change no actor's model grants |
| RuleSync.RuleRowsKeepMeaning | app/services/service.py:2599-2663 | what the flat rows grant in terms of the nested entries, and exactly when the two are equal |
| RuleSync.FlattenedGrants | app/services/service.py:144-157 | for an actor some entry speaks to, the scoped rows grant what the entries grant and what the entries with a filter that is no object switch on |
| RuleSync.TextFilterWidens | app/services/service.py:144-157 | an entry with a text for a filter: nothing by the configuration, its actions by its row |
| RuleTables.RuleTable.ReplaceRules | app/ozon_env_acl/model_rules_sync.py:234-293 | delete and insert as one step, nothing at all for a malformed property or no rows |
| RuleTables.ScopeHoldsLastGood | app/ozon_env_acl/model_rules_sync.py:234-293 | after any sequence of syncs each scope holds the rows of its last well-formed, non-empty sync |
| RuleTables.ScopesStayPopulated | app/ozon_env_acl/model_rules_sync.py:234-293 | a populated scope never becomes empty and repeating a sync changes nothing |
| RuleTables.RuleStore.SyncModelRules | app/ozon_env_acl/model_rules_sync.py:344-396 | one saved component rewrites both tables, the second only if building the first did not raise |
| RuleTables.GroupsBuildRows | app/ozon_env_acl/model_rules_sync.py:59-141 | a typed `models_groups` replaces rows iff it parses to an object whose entries can all be read and one names a group |
| RuleTables.RestrictionsBuildRows | app/ozon_env_acl/model_rules_sync.py:144-231 | the same for `record_rules`: a list with an object in it, all of them readable, the other table not having raised |
| RuleTables.TypedGroupsBuild | app/ozon_env_acl/model_rules_sync.py:59-141 | in terms of the typed JSON: `models_groups` replaces rows iff its `rules` is a readable list with an object that names a group |
| RuleTables.TypedGroupsRaise | app/ozon_env_acl/model_rules_sync.py:344-396 | when reading the groups raises, so that the record rules are not written either |
| RuleTables.TypedRulesBuild | app/ozon_env_acl/model_rules_sync.py:59-231 | the same for `record_rules` under `models_restricted_fields` |
| RuleTables.SavedGroupsDecide | app/ozon_env_acl/model_rules_sync.py:344-396 | after any saves of any components, whatever was typed, a scope grants what the nested entries of its last such property grant |
| RuleTables.SavedRulesDecide | app/ozon_env_acl/model_rules_sync.py:344-396 | the same for record rules |
| RuleTables.SavedGroupsSay | app/ozon_env_acl/model_rules_sync.py:344-396 | after any saves a scope grants exactly what the keys of the entries typed into its last usable `models_groups` say |
| RuleTables.SavedRulesSay | app/ozon_env_acl/model_rules_sync.py:344-396 | the same for record rules |
| RuleTables.UnsavedScopeKeeps | app/ozon_env_acl/model_rules_sync.py:234-293 | over any sequence of syncs a scope without a well-formed, non-empty one keeps its rows |
| Membership.ExpandImpliedGroups | app/ozon_env_acl/__init__.py:127-162 | the worklist ends, cycles or not, with exactly the least set that holds the start groups and is closed |
| Membership.ClosureMonotoneIdempotent | app/ozon_env_acl/__init__.py:146-162 | closing is monotone, idempotent and unique |
| Membership.RecordGrantsGrow | app/ozon_env_acl/__init__.py:1088-1118 | more groups keep every record grant iff bypassed, rules already applied, still none apply, or the new rules grant everything |
| Membership.FirstRuleRestricts | app/ozon_env_acl/__init__.py:1111-1112 | an input for which one more group takes every record grant away |
| Membership.PoliciesShrink | app/services/service.py:2898-2995 | the policies built from field rules shrink as memberships grow |
| Membership.MoreGroupsNeverHurt | app/services/service.py:2944-2993 | through closure and all three layers, more direct groups give more actions and listed rows and fewer masks and write denials |
| HeapDicts.Walk | app/ozon_env_acl/__init__.py:461-471 | the walk over all parts but the last ends in the parent dictionary, or stops |
| HeapDicts.ObfuscatePath | app/ozon_env_acl/__init__.py:461-471 | in place, the tree of objects stands for the value blanked at the path; one dictionary at most is written |
| HeapDicts.RestorePath | app/ozon_env_acl/__init__.py:474-487 | in place, the tree stands for the value set at the path |
| HeapDicts.DeletePath | app/ozon_env_acl/__init__.py:448-458 | in place, the tree stands for the value without the path |
| HeapCopies.BlankInCopy | app/ozon_env_acl/__init__.py:490-496 | blanking through a shallow copy changes row and copy as the twin says |
| HeapCopies.RestoreInCopy | app/ozon_env_acl/__init__.py:474-487 | restoring a field of the copy from its row, the objects being shared |
| HeapCopies.StreamRowInPlace | app/services/service.py:1052-1072 | copying, blanking and revealing a row in place hands out exactly what the value model says a stream shows |
| TtlCache.TTLCache.UnderLock | services/api_gateway/api_gateway/cache.py:42-47 | the check under the lock: a served value, or the duty to fetch |
| TtlCache.StepKeepsInv | services/api_gateway/api_gateway/cache.py:20-49 | every step of every caller keeps the invariant |
| TtlCache.SingleFlight | services/api_gateway/api_gateway/cache.py:20-49 | over every interleaving: one factory per key at a time, no start before the ttl has passed since the last store, and every served value fresh or fetched |
| TtlCache.FailureStoresNothing | services/api_gateway/api_gateway/cache.py:36-49 | a failed factory stores nothing and frees the key |
| TtlCache.WaiterIsServed | services/api_gateway/api_gateway/cache.py:42-46 | a caller that waited out a successful fetch is served that value without a fetch of its own |
| Plugins.PluginSorter.Sort | app/plugins/__init__.py:23-44 | every plugin exactly once, and every dependency that cannot reach back comes first, cycles or not |
| Plugins.PluginSorter.Visit | app/plugins/__init__.py:27-39 | the recursive visit keeps the order of what is finished |
| Plugins.DiscoverPlugins | app/plugins/__init__.py:47-75 | the built-in plugin, then the installed ones in that order |
| Plugins.AcyclicIsTopological | app/plugins/__init__.py:23-44 | without cycles the order is topological |
| Revocation.RevokedSessions.IsSessionRevoked | app/services/session_revocation.py:148-180 | a row for the session, or a later row for the subject alone |
| Revocation.RevokedSessions.Purge | app/services/session_revocation.py:183-198 | removes exactly the expired rows and counts them |
| Revocation.SameNameSameTarget | app/services/session_revocation.py:113-145 | two revocations share a row name only for the same session, or the same subject alone |
| Revocation.RevokedStaysDead | app/services/session_revocation.py:113-198 | over any run of revoking and purging, a revoked token that lives 3600 seconds at most is rejected or has expired |
| Revocation.KeptForAnHour | app/services/session_revocation.py:113-198 | a revocation outlives every purge of the 3600 seconds after it and no later one |
| Revocation.RejectedWasRevoked | app/services/session_revocation.py:148-180 | a rejected token was named by some revocation |
| Revocation.LaterLoginAccepted | app/services/session_revocation.py:148-180 | a token whose session was not revoked and that was issued after every revocation of its subject is accepted |
| CalendarLock.CalendarGateway.AcquireLock | services/calendar_scheduler/calendar_scheduler/gateway.py:107-143 | acquired iff no other run's lock is in force; the store changes by the lock alone |
| CalendarLock.CalendarGateway.ReleaseLock | services/calendar_scheduler/calendar_scheduler/gateway.py:145-162 | refused, and nothing changed, while another run's lock is in force; otherwise the record carries no lock and keeps all else |
| CalendarLock.ActiveLockBars | services/calendar_scheduler/calendar_scheduler/gateway.py:107-162 | while a lock is in force nobody else acquires and no foreign release clears it |
| CalendarLock.FinishFrees | services/calendar_scheduler/calendar_scheduler/scheduler.py:178-214 | a run that finishes while its lock is on the record takes the lock off and nothing else, and the next run of the task acquires and executes |
| CalendarLock.FinishedRunYields | services/calendar_scheduler/calendar_scheduler/scheduler.py:178-214 | over any interleaving a run that finishes within its ttl does so |
| CalendarLock.OverlapOnlyPastTtl | services/calendar_scheduler/calendar_scheduler/scheduler.py:178-214 | over any interleaving two runs of one schedule overlap only if the first exceeded the ttl |
| CalendarLock.LiveLockIsSafe | services/calendar_scheduler/calendar_scheduler/scheduler.py:178-214 | a run within its ttl keeps its lock against every acquire and every late release |
| CalendarLock.ExpiredLockYields | services/calendar_scheduler/calendar_scheduler/gateway.py:92-143 | over any interleaving, releases lost or not: once the ttl has passed since the last acquire of a task, every new run of it acquires and executes |
| CalendarLock.OtherKeysUntouched | services/calendar_scheduler/calendar_scheduler/gateway.py:96-105 | over any run no other key of the free-form field changes |
| Settle.WaitUntilSettled | app/services/camunda.py:292-358 | the number of turns is bounded by the deadline and the pause; the first turn that ends the wait decides; user tasks exclude the known one; a timeout comes only past the deadline; the variables are the last non-empty snapshot |
| Settle.OthersInOrder | app/services/camunda.py:292-358 | the tasks handed back are the turn's, in its order, at just the places that hold another key than the excluded one |
| Settle.WaitLonger | app/services/camunda.py:292-358 | a longer timeout reads at least as many turns and gives the same answer whenever the shorter one gave one |
| CronFields.ValidateCronField | services/calendar_scheduler/calendar_scheduler/parser.py:93-106 | the loop that rejects early decides the field predicate |
| CronFields.FieldGrammar | services/calendar_scheduler/calendar_scheduler/parser.py:71-106 | the validator accepts exactly the comma-separated `*`, numbers and ranges in bounds, each with an optional positive step |
| CalendarParser.AcceptedFieldsAreValid | services/calendar_scheduler/calendar_scheduler/parser.py:109-246 | every accepted cron, alias or systemd-daily text yields five fields in range |
| CalendarParser.FiveWords | services/calendar_scheduler/calendar_scheduler/parser.py:109-123 | five words that are no date are accepted iff each is a valid field, and kept as they are |
| CalendarParser.AliasMeans | services/calendar_scheduler/calendar_scheduler/parser.py:23-28 | the five fields each alias stands for |
| CalendarParser.DailyMeans | services/calendar_scheduler/calendar_scheduler/parser.py:126-166 | `h:m:00`, with the daily prefix or without, fires every day at that hour and minute |
| CalendarParser.DailyAccepted | services/calendar_scheduler/calendar_scheduler/parser.py:126-166 | a text with the daily prefix is accepted iff such a time follows |
| CalendarParser.DatesMean | services/calendar_scheduler/calendar_scheduler/parser.py:169-221 | which texts are single moments: `now`, a date with a time, a final `Z` as offset nothing, and a day as its midnight |
| Text.Trimmed | services/calendar_scheduler/calendar_scheduler/parser.py:169-177 | stripping leaves just what stands between white space and neither begins nor ends with some |
| CalendarParser.WordsPart | services/calendar_scheduler/calendar_scheduler/parser.py:109-112 | any run of white space parts two words |
| CalendarParser.JoinReparses | services/calendar_scheduler/calendar_scheduler/parser.py:169-246 | joining an accepted schedule's fields with blanks reads back as the same fields |
| Scanning.FindAll | app/core/OzonModelApp.py:72-81 | searching match after match consumes the whole text iff the matches tile it |
| RelativeTime.MatchComplete | app/core/OzonModelApp.py:13-13 | an offset is matched whole when nothing, or another offset, follows it |
| RelativeTime.ResolveRelativeExpr | app/core/OzonModelApp.py:57-83 | accepted iff the text is `now` and offsets with known units, and then it is now plus their signed sum |
| RelativeTime.UnitsMean | app/core/OzonModelApp.py:14-36 | the seconds of every unit name, in any case, and no other name is a unit |
| RelativeTime.AmountMeans | app/core/OzonModelApp.py:57-83 | an amount with a fraction is the number all its digits spell, divided by ten for each digit of the fraction |
| RelativeTime.WritesOne | app/core/OzonModelApp.py:57-83 | a text writes one list of offsets at most |
| RelativeTime.PrintedIntegers | app/core/OzonModelApp.py:57-83 | printed integer offsets are read back as written and mean their signed sum |
| Numerals.DigitsRead | services/calendar_scheduler/calendar_scheduler/parser.py:155-166 | `int(str(n)) == n`, and the text is digits |

## Left out

Values and text:

- Floats are not values, and `str()` of a value that is not a string is the request's parameter `show`.
- Stripping, lower-casing, `isdigit` and `split` are on ASCII; no Unicode normalisation or digits.
- Unhashable list elements inside `$in` and `$nin`, for which Python raises, are compared as values.
- The slash stripping of `_as_set` and pydantic objects (`CoreModel`, `model_fields`) are not modelled: records are dictionaries.

Layers and listing:

- The store is the in-repository matcher: dotted filter keys are read literally, and nothing is claimed about MongoDB.
- The sort order on values is a parameter, so is the ISO date reader; a limit of 0 means no limit.
- Server-side projection, `fields` and the caller's own `obfuscate_fields` are not modelled: rows are taken unmasked from the store and masked afterwards.
- A streamed list of a model without conditions: the masks go to the store's own stream (`app/services/service.py:1016-1026`), so the lemmas about streams are about models with conditions.
- StreamLaws.StreamAgreesAtAnyDepth: asks that no condition reads a field a mask reaches into.
- The notations of an order that `_normalize_order` unifies are not modelled: `order` is any text after it, and the store is taken to read it as the gate does.
- Which disallowed operator a refusal names is not modelled.
- A failed rule lookup (empty list, full access) and the rule caches are not modelled.
- `_merge_query_flat` is not modelled; it drops the sibling keys of an `$and`.

Saving:

- Mask paths are canonical: no policy names a path with an empty piece, such as `a..b`; refused paths of a payload may be spelled in any way.
- TopLevelSaves.ReadThenSaveExactly: asks that the posted keys have no dots, because a dotted key makes two fields share one path; `RoundTrip.ReadThenSave` does not.
- SaveLaws.UnseenFieldsSurvive: leaves out refused paths at or below a nested mask the evaluation blanks, and the owner's fields, the name and the flag, which an update treats apart.
- SaveLaws.PostedFieldsLand: leaves out the owner's fields: an update keeps them, as the source says of the store's diff (`app/services/service.py:1400-1402`); which other metadata that diff discards is not shown and not modelled.
- Webhooks, hooks, mail, audit and the special handling of the `component` model are taken as absent; row validation is the identity; the name given to a new record is a parameter; the base `set_user_data` is assumed to stamp the session's user.
- HeapCopies.StreamRowInPlace: the conditions read a value taken from the row's objects at that moment, not the objects themselves.
- Sharing between an update's payload and the stored record is kept as a set of paths on values (`Drafts`), not on objects.

Rules:

- The JSON text parser is a parameter, and writing a filter out and reading it back is the identity.
- The warnings about mixed record rule scopes are not modelled, nor the guards of `sync_model_rules` on the model's name and the application code: a scope is given.

Protocols:

- `TTLCache.invalidate` during a fetch is not modelled: the code gives no guarantee there.
- Each gateway call of the calendar lock is one atomic step, and nothing but the gateway writes the lock; reading and writing inside `acquire_lock` are not atomic in the code.
- Clocks are real numbers: no time zones or daylight saving, and no float rounding in durations.
- Purge failures of single rows are not modelled; writing a revocation is a replace.
- Verification of logout tokens is not modelled: a `Claims` has been verified.
- Settle.WaitUntilSettled: errors raised by the process engine end the call in the code and are not modelled.
- Job table updates and the run itself in `execute_task` are not modelled, only acquire and release.

Not modelled at all: routers, WebSocket transport, cookies, Keycloak, process start and completion, menus and dashboards beyond the counter's domain, select options, attachments, antivirus, identity sync, settings.
