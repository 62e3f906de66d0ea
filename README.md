# GLPI massive actions, modelled in Dafny

This project models the engine behind GLPI's *massive actions*: the
`MassiveAction` class of `inc/massiveaction.class.php`, which applies one
chosen action (update, put in dustbin, purge, restore, add to the transfer
list, or an action of another processor) to many selected items, possibly of
several item types. It follows the three request stages and the suspension
and resumption of a run when the time budget is exhausted:

- `initial`: raw checkboxes become the selection. The catalogs of the posted
  types are united into the proposed actions, and `action_filter` records
  which types contributed each action.
- `specialize`: the chosen action is named and the selection narrowed by
  `action_filter`, `dont_filter_for`, the forbidden actions and
  `specialize_itemtype`. Then `"processor:action"` is split.
- `process`: the counters are reset and the remaining ids set up. Each id is
  handed to the processor. `itemDone` moves it from `remainings` to `done`
  and counts its outcome. When the clock passes the delay, the run is
  persisted under its identifier and a later request resumes it.

Modules, one per part of the class:

- `MassiveTypes` (types.dfy): selections, outcomes, counters, messages, the
  POST form, the timeout delay.
- `PhpStrings` (strings.dfy): `explode`/`implode`, the processor split and the
  legacy handler choice.
- `Catalog` (catalog.dfy): `getAllMassiveActions` and `getAddTransferList`.
- `Initial` and `Specialize` (initial.dfy, specialize.dfy): the first two
  stages of the constructor. Their loops are methods proved against functions.
- `Ledger` (ledger.dfy): what one `itemDone` does to the bookkeeping fields,
  and the invariant it keeps.
- `Dispatch` (dispatch.dfy): `processMassiveActionsForOneItemtype` as one
  decision per id, and runs of ids as a fold.
- `Engine` (engine.dfy): the `MassiveAction` class itself (fields updated in
  place, with `modifies` frames), the session store, the constructor,
  `process`, `processForSeveralItemtypes`, and the properties of whole runs.

Inputs the engine only reads are parameters or fields of `Env`:

- the rights, capabilities and contributions behind each item type's catalog;
- `getItemForItemtype`, the database operations and their results, and the
  update plan the search options give under `getItemtype(false)`;
- the processors of other classes and the legacy handlers;
- the referer, the root document and `max_execution_time`.

The session (`$_SESSION`) is the `Session` class. `mt_rand()` is a fresh
identifier passed in. The `Timer` is a clock function from the number of
`itemDone` calls made in this request to the elapsed time.

## Model

| member | source | states |
|---|---|---|
| MassiveTypes.Code | inc/massiveaction.class.php:50-53 | NO_ACTION, ACTION_OK, ACTION_KO and ACTION_NORIGHT are 0, 1, 2 and 3, and no other outcome has any of these codes |
| MassiveTypes.OutcomeOf | inc/massiveaction.class.php:1163-1175 | an integer passed to itemDone names an outcome exactly when it is one of the four constants 0..3 |
| MassiveTypes.CodeRoundTrip | inc/massiveaction.class.php:50-53 | decoding the code of an outcome gives the outcome back, and encoding a decoded integer gives the integer back |
| MassiveTypes.TimeoutDelay | inc/massiveaction.class.php:290-293 | the delay is 57 when max_execution_time is 0, and otherwise max_execution_time minus 3 |
| PhpStrings.Explode | inc/massiveaction.class.php:198 | explode always yields at least one piece |
| PhpStrings.ExplodeCount | inc/massiveaction.class.php:198-199 | explode yields one piece more than there are separators, so "exactly two parts" means exactly one ':' |
| PhpStrings.ImplodeExplode | inc/massiveaction.class.php:198 | joining the pieces of explode with the separator gives back the string |
| PhpStrings.ExplodePiecesFree | inc/massiveaction.class.php:198 | no piece of explode contains the separator |
| PhpStrings.ExplodeFree | inc/massiveaction.class.php:198 | a string without the separator explodes to itself alone |
| PhpStrings.ExplodeHead | inc/massiveaction.class.php:198 | a separator-free head followed by the separator is the first piece |
| PhpStrings.SplitProcessor | inc/massiveaction.class.php:196-206 | with exactly one ':' the action is processor + ':' + action, neither containing ':'; otherwise processor '' and the action unchanged |
| PhpStrings.SplitOfJoined | inc/massiveaction.class.php:196-206 | splitting "processor:action" built from ':'-free parts gives the parts back |
| PhpStrings.LegacyHandlerPluginPrefix | inc/massiveaction.class.php:832-837 | the plugin hook is called exactly for actions starting with "plugin_", and the plugin is the first '_' piece after that prefix |
| Catalog.StandardIdsDistinct | inc/massiveaction.class.php:476-561 | all ten pairs of the standard ids update, delete, purge, purge_item_but_devices and restore differ, and the transfer-list id is none of them |
| Catalog.AddMissing | inc/massiveaction.class.php:568-577 | PHP `+=` on arrays: the keys of both, with the left-hand label kept where both have the key |
| Catalog.AllMassiveActions | inc/massiveaction.class.php:496-595 | a catalog exists exactly for a resolvable type, and it never offers a forbidden action |
| Catalog.AddTransferList | inc/massiveaction.class.php:476-484 | the transfer-list action is added exactly with the transfer READ right in multi-entity mode, and nothing else changes |
| Catalog.AddPluginsKeys | inc/massiveaction.class.php:571-579 | the plugin loop adds exactly the plugins' action ids and never changes a label already present |
| Catalog.PluginsFirstWins | inc/massiveaction.class.php:571-579 | an action id absent before the loop gets the label of the first plugin offering it |
| Catalog.ActiveStandardHas | inc/massiveaction.class.php:541-562 | in active scope, update comes with the update right (or Infocom's for an infocom type), dustbin with the delete right for a type that uses the dustbin, purge with the purge right otherwise |
| Catalog.AssignedActiveKeys | inc/massiveaction.class.php:541-565 | the actions built by assignment in active scope are the standard ones plus the Infocom, connexity, Document and Contract contributions |
| Catalog.CatalogKeys | inc/massiveaction.class.php:582-594 | the catalog is the scope's actions plus Lock's, without the forbidden ones |
| Catalog.ActiveScopeOffers | inc/massiveaction.class.php:540-594 | in active scope the offered ids are the standard ones the rights allow plus every contributed one, without the forbidden ones |
| Catalog.DeletedScopeOffers | inc/massiveaction.class.php:525-538 | in deleted scope exactly purge, restore and, for device-bearing types, purge-but-keep-devices are offered, each only with the purge right, plus Lock's actions, minus forbidden ones; purge's label says whether devices go too |
| Catalog.UpdateOffered | inc/massiveaction.class.php:541-547 | update is offered iff it is not forbidden and the update right, Infocom's right on an infocom type, or a contributor offers it |
| Catalog.DeleteOffered | inc/massiveaction.class.php:555-559 | "Put in dustbin" is offered iff it is not forbidden and either maybeDeleted, not useDeletedToLockIfDynamic and the delete right hold, or a contributor offers it |
| Catalog.PurgeOfferedWithoutDustbin | inc/massiveaction.class.php:555-561 | in active scope purge is offered iff it is not forbidden and either the type does not use the dustbin and the purge right holds, or a contributor offers it |
| Catalog.DustbinLabel | inc/massiveaction.class.php:557-568 | the dustbin label survives the later `+=` contributions unless Document, Contract or Lock overwrite it |
| Catalog.FirstContributionWins | inc/massiveaction.class.php:564-577 | an action only the specific actions and the plugins offer gets the type's own label if the type offers it, else the first offering plugin's label |
| Initial.Checked | inc/massiveaction.class.php:115-121 | an id is selected iff its checkbox value is 1, and it is stored as id => id |
| Initial.SelectChecked | inc/massiveaction.class.php:115-121 | the inner checkbox loop keeps exactly the checked ids and counts them |
| Initial.GatherRows | inc/massiveaction.class.php:113-131 | the loop over the posted types computes the union of catalogs, the filter and the count defined by Gather, which skips a type that cannot be resolved (the corrected union, see Findings) |
| Initial.MergeCatalog | inc/massiveaction.class.php:124-130 | array_merge followed by the label loop leaves the union with the type's labels winning, and adds the type to the filter entry of each of its actions |
| Initial.GatherSelection | inc/massiveaction.class.php:113-122 | for distinct posted types, the selection holds each type's checked ids and nb_items is their total |
| Initial.GatherFilter | inc/massiveaction.class.php:123-130 | a type is listed under an action in action_filter iff it was posted, resolves, and its catalog offers the action |
| Initial.GatherActions | inc/massiveaction.class.php:123-129 | with specific actions the proposed actions are the base ones; otherwise an action is proposed iff it is a base action or some posted resolvable type offers it (the corrected union, see Findings) |
| Initial.RunInitialStage | inc/massiveaction.class.php:86-137 | the initial stage as the constructor runs it, with its loops, gives the result InitialStage defines, over the corrected union (see Findings) |
| Initial.InitialStageSpec | inc/massiveaction.class.php:86-137 | "No action available" iff the base actions are empty and either specific actions were given or no posted type offers anything; otherwise the selection is the checked ids, nb_items their total, initial_items the selection, dont_filter_for the base actions when they were given; the union is the corrected one (see Findings) |
| Initial.UnresolvableTypeWipesActions | inc/massiveaction.class.php:123-126 | with a Computer row offering update followed by an unresolvable type, the union as written ends empty and the intended union keeps update |
| Specialize.KeepTypes | inc/massiveaction.class.php:160-169 | the action_filter loop keeps exactly the selected types listed for the action |
| Specialize.DropForbidden | inc/massiveaction.class.php:171-182 | the loop keeps exactly the resolvable types that do not forbid the action |
| Specialize.CountItems | inc/massiveaction.class.php:208-210 | the counting loop yields the total number of selected ids |
| Specialize.RunSpecializeStage | inc/massiveaction.class.php:141-211 | the specialize stage with its loops succeeds exactly when SpecializePost does, with the same error, the same form, and nb_items the total of its selection |
| Specialize.SpecializeFailures | inc/massiveaction.class.php:142-155 | the request ends iff the action is "-1"; an implementation error is raised iff there is no action or the posted actions do not contain it |
| Specialize.SpecializeSelection | inc/massiveaction.class.php:150-195 | a type survives iff it passes the action filter (unless the action is exempt), resolves, does not forbid the action and matches specialize_itemtype; its ids are unchanged, the action is named, and the consumed fields are removed |
| Specialize.SpecializeWellFormed | inc/massiveaction.class.php:150-195 | narrowing keeps every selection entry of the form id => id |
| Specialize.SpecializeProcessor | inc/massiveaction.class.php:196-206 | a posted processor is kept; otherwise an action with exactly one ':' is split into processor and action, and any other action gets processor '' |
| Ledger.FreshAccounted | inc/massiveaction.class.php:223-282 | a run starting with the whole selection remaining, nothing done and zero counters satisfies the bookkeeping invariant and the counter balance |
| Ledger.MarkDonePreserves | inc/massiveaction.class.php:1140-1176 | itemDone on distinct remaining ids keeps the invariant, removes exactly those ids, appends them to done, and leaves other types alone |
| Ledger.MarkDoneShape | inc/massiveaction.class.php:1140-1163 | itemDone on any ids removes them from remainings[itemtype], drops an emptied entry, appends them to done[itemtype] and changes no other type |
| Ledger.MarkDoneBalance | inc/massiveaction.class.php:1165-1177 | nb_done grows by the number of ids, exactly the matching counter grows by it, none for NO_ACTION, so ok+ko+noright == nb_done is kept unless the outcome is NO_ACTION |
| Ledger.NoDupAppend | inc/massiveaction.class.php:1150-1153 | appending ids to a done list adds their elements, and keeps it duplicate-free when they are new |
| Ledger.Conservation | inc/massiveaction.class.php:1140-1176 | under the invariant, nb_done plus the number of remaining ids is nb_items |
| Ledger.Completion | inc/massiveaction.class.php:1159-1161 | once no type has ids left, each type's done list holds its selected ids once each and nb_done equals nb_items |
| Ledger.SingleItemtype | inc/massiveaction.class.php:438-444 | getItemtype(false) gives a type exactly when the selection has exactly one, and then that type |
| Dispatch.CoreOutcomes | inc/massiveaction.class.php:912-1099 | every id MassiveAction's processor handles gets OK, KO or NORIGHT, never NO_ACTION; NORIGHT comes with the right error, OK with no message, KO with an action, compatibility or not-found error |
| Dispatch.RemovalNeedsRight | inc/massiveaction.class.php:912-970 | delete, restore and purge call the mutation iff the right holds (DELETE for delete, PURGE for restore and purge); NORIGHT otherwise; OK iff the mutation succeeds |
| Dispatch.PurgeMode | inc/massiveaction.class.php:912-970 | purge forces unless maybeDeleted, useDeletedToLockIfDynamic and isDynamic all hold; delete never forces; keep_devices iff purge_item_but_devices |
| Dispatch.UpdateGuards | inc/massiveaction.class.php:972-1082 | no search option: nothing is done. Field update: attempted iff canEdit, canMassiveAction and a suitable entity hold; NORIGHT iff the right is missing; a compatibility error iff the right holds and the entity is outside a non-empty link list; OK iff all guards and the update succeed. Infocom update: not-found iff unreadable, compatibility error iff readable but unsuitable, NORIGHT iff it cannot be created, attempted iff all three pass, OK iff the update also succeeds |
| Dispatch.UnknownActionIgnored | inc/massiveaction.class.php:909-1099 | an action the processor does not know marks nothing |
| Dispatch.StepsLedger | inc/massiveaction.class.php:905-1099 | a run over distinct remaining ids of one type keeps the invariant, removes at most those ids, touches no other type, and when the request did not end removes exactly the decided ones |
| Dispatch.StepsCount | inc/massiveaction.class.php:1140-1177 | when no decision is NO_ACTION, each itemDone adds one to nb_done and one to ok+ko+noright, so their balance is kept |
| Dispatch.StepsTiming | inc/massiveaction.class.php:1178-1181 | a run ends at the first itemDone whose clock exceeds the delay: every earlier check was within it, a run that did not end saw every check within it, and a run already ended does nothing |
| Dispatch.StepsMessages | inc/massiveaction.class.php:912-1084 | messages are only appended, and each new one is the error of a decision taken for an id of the run |
| Dispatch.TransferListed | inc/massiveaction.class.php:1084-1097 | add_transfer_list creates the type's transfer list, leaves other types' lists alone, and when the request did not end lists every id as id => id and redirects to the transfer page |
| Dispatch.StepsStopped | inc/massiveaction.class.php:1178-1181 | once the request has ended, the remaining ids are not processed |
| Engine.MassiveAction.FromStage | inc/massiveaction.class.php:213-254 | the object a POST builds: the stage's items, action, processor and count; at stage process also the identifier, empty messages and done, zero counters, the redirect, remainings = items and the delay, with the process fields removed from the POST |
| Engine.MassiveAction.Resumed | inc/massiveaction.class.php:266-269 | the object restored from a persisted run holds exactly that run's fields |
| Engine.MassiveAction.GetInput | inc/massiveaction.class.php:310-316 | the POST kept by the constructor |
| Engine.MassiveAction.GetAction | inc/massiveaction.class.php:324-330 | the action, if set |
| Engine.MassiveAction.GetItems | inc/massiveaction.class.php:338-344 | the selection, or an empty one when unset |
| Engine.MassiveAction.GetRemainings | inc/massiveaction.class.php:352-358 | the remaining ids, or none when unset |
| Engine.MassiveAction.GetItemtype | inc/massiveaction.class.php:438-468 | getItemtype(false): a type exactly when the selection has exactly one, and then that one |
| Engine.MassiveAction.Destruct | inc/massiveaction.class.php:365-374 | with an identifier the run is persisted under it; without one the store is unchanged |
| Engine.MassiveAction.AddMessage | inc/massiveaction.class.php:1123-1125 | the message is appended |
| Engine.MassiveAction.AddMessages | inc/massiveaction.class.php:859-863 | the handler's messages are appended in order |
| Engine.MassiveAction.SetRedirect | inc/massiveaction.class.php:1111-1113 | the redirect is replaced |
| Engine.MassiveAction.ItemDone | inc/massiveaction.class.php:1140-1184 | the bookkeeping fields become MarkDone of the old ones; the request ends iff the clock exceeds the delay, and then the run is persisted under its identifier |
| Engine.MassiveAction.ApplyDecision | inc/massiveaction.class.php:912-1099 | one decided id updates the transfer list, the messages and the bookkeeping as Apply defines |
| Engine.MassiveAction.StepId | inc/massiveaction.class.php:912-1099 | one id of the processor's loop updates the progress as StepOne defines |
| Engine.MassiveAction.RunIds | inc/massiveaction.class.php:912-1099 | the loop over ids updates the progress as Steps defines, and persists the run if the request ends |
| Engine.MassiveAction.ProcessMassiveActionsForOneItemtype | inc/massiveaction.class.php:905-1100 | MassiveAction's processor on one type updates the progress as ProcessType defines, with the update plan looked up under getItemtype(false) |
| Engine.MassiveAction.ProcessOneItemtype | inc/massiveaction.class.php:896 | the run's processor, MassiveAction's or another class's, updates the progress as ProcessWith defines |
| Engine.MassiveAction.ProcessForSeveralItemtypes | inc/massiveaction.class.php:891-899 | the bookkeeping invariant is kept, and when the request did not end each type keeps exactly the ids its processor did not decide (all of them for an unresolvable type) |
| Engine.MassiveAction.VisitType | inc/massiveaction.class.php:894-897 | one type of the loop keeps the loop invariant |
| Engine.MassiveAction.MergeLegacy | inc/massiveaction.class.php:852-867 | the handler's counters are added, its messages appended, and its redirect taken when it gives one |
| Engine.MassiveAction.ProcessLegacy | inc/massiveaction.class.php:825-870 | without an array answer nothing changes; with one, counters, messages and redirect are merged and every checked id is marked done with NO_ACTION, the corrected marking (see Findings) |
| Engine.MassiveAction.Process | inc/massiveaction.class.php:801-883 | nothing to do gives the old results; suspension iff the request ended; Fatal iff the legacy path has no single resolvable type; on finishing the results with the redirect, identifier cleared; the new path keeps the invariant and leaves only undecided ids |
| Engine.MassiveAction.Create | inc/massiveaction.class.php:71-301 | a non-empty POST builds the object as its stage defines, raising the stage's error or "No selected items"; an empty POST resumes as ResumeSpec defines; the initial stage uses the corrected union (see Findings) |
| Engine.MassiveAction.CreateFromPost | inc/massiveaction.class.php:74-258 | the object or error Construct defines, with the session's selection replaced at stage process; the initial stage uses the corrected union (see Findings) |
| Engine.MassiveAction.Resume | inc/massiveaction.class.php:260-299 | an implementation error unless the stage is process and a run is stored under the identifier; an identifier mismatch sets "Invalid process" and keeps the entry; otherwise the entry is removed, remainings defaults to items and the delay is set |
| Engine.MassiveAction.ProcessSetUp | inc/massiveaction.class.php:277-294 | remainings is set from items only when unset, and the delay follows max_execution_time |
| Engine.BuiltConsistent | inc/massiveaction.class.php:223-282 | an object built for the process stage from a selection stored as id => id satisfies the bookkeeping invariant and the counter balance, with every id remaining and nb_done 0 |
| Engine.UpdatePlanLookup | inc/massiveaction.class.php:973-976 | with one selected type the update uses that type's own plan; with several, getItemtype(false) is `false` and every type gets the plan looked up under `false` |
| Engine.KeysInOrder | inc/massiveaction.class.php:829 | array_keys yields every id of the selection once |
| Engine.ProcessWithLedger | inc/massiveaction.class.php:896 | either processor keeps the invariant on one type, touches no other type, and removes exactly the decided ids when the request did not end |
| Engine.SeveralStep | inc/massiveaction.class.php:894-897 | one resolvable type of the loop keeps the invariant and extends the loop's description of the remaining ids |
| Engine.SeveralSkip | inc/massiveaction.class.php:895 | an unresolvable type is skipped with its ids left remaining |
| Engine.SeveralDone | inc/massiveaction.class.php:891-899 | after the loop each type keeps exactly its undecided ids |
| Engine.NothingPosted | inc/massiveaction.class.php:80-258 | with neither checkboxes nor a selection the constructor raises "No selected items" |
| Engine.UnknownStageRefused | inc/massiveaction.class.php:256-258 | a stage other than initial, specialize and process counts nothing and raises "No selected items" |
| Engine.InitialStageErrors | inc/massiveaction.class.php:86-137 | the initial stage raises "No action available" iff no action can be offered, otherwise "No selected items" iff no box is checked; on success nb_items counts the checked boxes; the actions are the corrected union (see Findings) |
| Engine.NothingChecked | inc/massiveaction.class.php:113-121 | nb_items of the initial stage is zero iff no posted box is checked |
| Engine.ProcessStageCount | inc/massiveaction.class.php:213-258 | the process stage accepts a POST iff its selection holds an id, and counts them all |
| Engine.CoreRunCompletes | inc/massiveaction.class.php:891-899 | when every type resolves and MassiveAction's processor decides every id, a finished run leaves no id, each type's done list holds its ids once, and nb_done equals nb_items |
| Engine.NothingUnprocessed | inc/massiveaction.class.php:912-1097 | the five core actions, and update with a search option, leave no id undecided |
| Engine.CoreKeepsBalance | inc/massiveaction.class.php:905-1099 | MassiveAction's processor keeps ok+ko+noright equal to nb_done |
| Engine.LegacyMarkingAsWritten | inc/massiveaction.class.php:829-869 | with ids 5 and 7, itemDone on array_fill_keys(ids, 1) leaves both remaining, records id 1 twice, counts 2, and breaks the invariant |
| Engine.LegacyMarkingCompletes | inc/massiveaction.class.php:869 | marking the checked ids themselves on a fresh single-type run leaves nothing remaining, keeps the invariant and the handler's counters, and makes nb_done equal nb_items |

## Left out

- HTML output, progress bars, `MESSAGE_AFTER_REDIRECT` and the display flags: display only.
- `Html::redirect` and `exit`: modelled as the `exited` flag. The `__destruct` that follows persists the run.
- The `processMassiveActionsForSeveralItemtype` hook of a processor (lines 815-817): marked deleted in the source. Another processor is modelled by its per-id decisions through `itemDone`.
- Superglobals (`$_SESSION`, `$_SERVER`, `$_GET`, `get_cfg_var`) and `mt_rand()`: parameters and the `Session` object.
- Database access, rights checks and foreign code: oracles in `Env`. This covers `getItemForItemtype`, `can`/`canEdit`/`canMassiveAction`, `delete`/`restore`/`update`, the catalog contributors, plugin hooks and `doSpecificMassiveActions`.
- The Infocom update branch (lines 977-1031): modelled as a plan of four oracle answers (found, compatible entity, creatable, updated).
- `getCheckItem`: database-backed. Its rights are the optional probe item in the catalog inputs.
- `getItemtype(true)`: the dropdown branch renders HTML and exits.
- The order of PHP arrays: selections and catalogs are maps. The posted checkbox rows are a sequence, so the order of the union is kept.
- PHP loose comparisons (`$checked == 1`, `$POST['action'] == -1`): modelled as exact equality on the parsed values.
- `$item->getType()` is assumed to return the selection's key for the type.
- Engine.MassiveAction.ProcessLegacy: at line 873 the source calls `itemDone` on an undefined `$ma` when the legacy path has no single resolvable type. That is a fatal error in PHP, modelled as the `Fatal` outcome of `Process`.
- Engine.MassiveAction.Process: requires that the request has not already ended (`exited`). The source cannot run after `exit`.
- Engine.MassiveAction.ProcessForSeveralItemtypes: its result is stated under the bookkeeping invariant, which every object built for the process stage from a selection of the form id => id satisfies (Engine.BuiltConsistent); a process-stage POST whose selection is not of that form is accepted by the constructor but gets no progress guarantee. Without the invariant only the frame is stated.
- Engine.MassiveAction.Process: the legacy path's effect is stated by ProcessLegacy. Process itself only states its outcome and the store.
- Engine.MassiveAction.ProcessLegacy: marks the checked ids themselves, where line 869 passes the values of `array_fill_keys(ids, 1)`; the code as written is Engine.LegacyMarkingAsWritten (first Findings row).
- Initial.GatherRows: skips a posted type that cannot be resolved, where lines 123-126 lose the actions gathered so far; the code as written is Initial.GatherAsWritten, exhibited by Initial.UnresolvableTypeWipesActions (second Findings row).
- Initial.GatherActions: states the corrected union of Initial.GatherRows, not the union as written at lines 123-126.
- Initial.RunInitialStage: computes the corrected union of Initial.GatherRows, not the union as written at lines 123-126.
- Initial.InitialStageSpec: states the initial stage over the corrected union of Initial.GatherRows, not the union as written at lines 123-126.
- Engine.MassiveAction.Create: runs the initial stage over the corrected union of Initial.GatherRows.
- Engine.MassiveAction.CreateFromPost: runs the initial stage over the corrected union of Initial.GatherRows.
- Engine.InitialStageErrors: states the errors of the initial stage over the corrected union of Initial.GatherRows.
- Engine.KeysInOrder: the processor is handed the keys of each remaining entry, where the source's loops (lines 913, 929, 946, 990, 1058, 1092) and itemDone iterate the values. Keys and values agree on a selection stored as id => id (WellFormed). The initial and specialize stages establish that form (Initial.Checked, Specialize.SpecializeWellFormed). A process-stage POST whose selection is not of that form is not modelled.
- Engine.MassiveAction.ProcessForSeveralItemtypes: iterates keys, not values, as the line above says.
- Engine.MassiveAction.ProcessLegacy: iterates keys, not values, as the line above says.
- Engine.UpdatePlanLookup: the update plan of a type whose search options are looked up under another type or under `false` is an oracle (`otherPlan`), because `Search::getCleanedOptions` is not part of this model.

## Findings

| source | as written | input that shows it | evidently intended | confidence | as-written member | corrected member |
|---|---|---|---|---|---|---|
| inc/massiveaction.class.php:829-869 | the legacy path passes `array_fill_keys(ids, 1)` to `itemDone`, which iterates the array's values, so id 1 is marked once per selected id | one type with ids 5 and 7: both stay in `remainings`, `done` records 1 twice, nb_done is 2 | mark each checked id done once with NO_ACTION, leaving nothing remaining | medium, not executed | Engine.LegacyMarkingAsWritten | Engine.LegacyMarkingCompletes |
| inc/massiveaction.class.php:123-126 | for a posted type that cannot be resolved, `getAllMassiveActions` returns false and `array_merge(false, $POST['actions'])` yields no array, so the actions gathered from earlier types are lost | a Computer row offering update, then a row of an unresolvable type: the union ends empty and "No action available" is raised | skip the unresolvable type and keep the union | medium, not executed | Initial.UnresolvableTypeWipesActions | Initial.InitialStageSpec |
