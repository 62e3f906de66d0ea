/**
 * The per-item work of the process stage: what MassiveAction's own processor
 * decides for each id of one item type (processMassiveActionsForOneItemtype),
 * and the run of those decisions through itemDone, which ends the request
 * once the timeout delay is exceeded.
 */
module Dispatch {
  import opened Wrappers
  import opened MassiveTypes
  import opened Ledger

  /** The rights the processor checks with can(). */
  datatype Right = DeleteRight | PurgeRight

  /**
   * How an update applies to the type, fixed before the loop over the ids by
   * the search option of the posted id_field.
   */
  datatype UpdatePlan =
    | NoSearchOption                    // the field has no search option: nothing is done
    | InfocomPlan(                      // a financial-information field
        found: Id -> bool,              //   the item can be read
        compatible: Id -> bool,         //   the linked supplier's entity suits the item
        canCreate: Id -> bool,          //   the infocom may be created
        updated: Id -> bool)            //   the infocom update succeeds
    | FieldPlan(                        // a field of the item itself
        linkEntities: set<int>,         //   the entities the new value allows (empty: any)
        canEdit: Id -> bool,
        canMassive: Id -> bool,         //   canMassiveAction for the field and value
        entityOf: Id -> int,
        updated: Id -> bool)

  /** The database and rights behind one resolved item type, as the processor sees them. */
  datatype Handle = Handle(
    can: (Id, Right) -> bool,
    deleted: (Id, bool, bool) -> bool,  // delete(id, force, keep_devices) succeeds
    restored: Id -> bool,
    maybeDeleted: bool,
    useDeletedToLockIfDynamic: bool,
    isDynamic: Id -> bool,
    update: UpdatePlan)

  /** The change the processor asks of the item or of the session. */
  datatype Mutation =
    | Delete(id: Id, force: bool, keepDevices: bool)
    | Restore(id: Id)
    | Update(id: Id)
    | InfocomUpdate(id: Id)
    | AddToTransferList(id: Id)

  /** What the processor does for one id: the call it makes, the outcome it reports and the error it adds. */
  datatype Decision = Decision(call: Option<Mutation>, outcome: Outcome, message: Option<ErrorKind>)

  /** The processor that MassiveAction itself implements. */
  const SelfProcessor: string := "MassiveAction"

  /** A mutation that succeeded or failed. */
  function Attempt(call: Mutation, ok: bool): Decision {
    if ok then Decision(Some(call), ActionOk, None) else Decision(Some(call), ActionKo, Some(ErrorOnAction))
  }

  /** The answer to an id the user may not act on. */
  const Refused: Decision := Decision(None, ActionNoRight, Some(ErrorRight))

  /** purge deletes for good unless the type locks dynamic items by marking them deleted. */
  function PurgeForce(h: Handle, id: Id): bool {
    !(h.maybeDeleted && h.useDeletedToLockIfDynamic && h.isDynamic(id))
  }

  /** The update branch for one id. */
  function UpdateDecision(plan: UpdatePlan, id: Id): Option<Decision> {
    match plan
    case NoSearchOption => None
    case InfocomPlan(found, compatible, canCreate, updated) =>
      if !found(id) then Some(Decision(None, ActionKo, Some(ErrorNotFound)))
      else if !compatible(id) then Some(Decision(None, ActionKo, Some(ErrorCompat)))
      else if !canCreate(id) then Some(Refused)
      else Some(Attempt(InfocomUpdate(id), updated(id)))
    case FieldPlan(linkEntities, canEdit, canMassive, entityOf, updated) =>
      if !(canEdit(id) && canMassive(id)) then Some(Refused)
      else if !(linkEntities == {} || entityOf(id) in linkEntities) then Some(Decision(None, ActionKo, Some(ErrorCompat)))
      else Some(Attempt(Update(id), updated(id)))
  }

  /**
   * MassiveAction's processor for one id of a resolved type, by bare action
   * name; None for an action it does not know.
   */
  function CoreDecide(action: ActionId, h: Handle, id: Id): Option<Decision> {
    if action == "delete" then
      Some(if h.can(id, DeleteRight) then Attempt(Delete(id, false, false), h.deleted(id, false, false)) else Refused)
    else if action == "restore" then
      Some(if h.can(id, PurgeRight) then Attempt(Restore(id), h.restored(id)) else Refused)
    else if action == "purge" || action == "purge_item_but_devices" then
      var force := PurgeForce(h, id);
      var keep := action == "purge_item_but_devices";
      Some(if h.can(id, PurgeRight) then Attempt(Delete(id, force, keep), h.deleted(id, force, keep)) else Refused)
    else if action == "update" then
      UpdateDecision(h.update, id)
    else if action == "add_transfer_list" then
      Some(Decision(Some(AddToTransferList(id)), ActionOk, None))
    else None
  }

  /**
   * The decision for one id: MassiveAction's own processor, or the
   * processor class named in the action, seen through `foreign`.
   */
  function Decide(processor: string, action: ActionId, h: Handle, t: ItemType, id: Id,
                  foreign: (string, ActionId, ItemType, Id) -> Option<Decision>): Option<Decision> {
    if processor == SelfProcessor then CoreDecide(action, h, id) else foreign(processor, action, t, id)
  }

  /** MassiveAction's own processor as a decision per id. */
  function CoreDecider(action: ActionId, h: Handle): Id -> Option<Decision> {
    id => CoreDecide(action, h, id)
  }

  /** Another processor as a decision per id. */
  function ForeignDecider(processor: string, action: ActionId, t: ItemType,
                          foreign: (string, ActionId, ItemType, Id) -> Option<Decision>): Id -> Option<Decision> {
    id => foreign(processor, action, t, id)
  }

  // ----- running the decisions -----

  /** What the process stage changes as it goes. */
  datatype Progress = Progress(
    ledger: Ledger,
    messages: seq<Message>,
    transfer: map<ItemType, map<Id, Id>>,   // the session's transfer list
    redirect: string,
    ticks: nat,                             // itemDone calls made in this request
    exited: bool)                           // the request ended to be resumed

  /**
   * One decided id: the transfer-list entry, then itemDone, which ends the
   * request when the elapsed time `clock(ticks)` exceeds the delay, then the
   * error message, which is lost when the request has ended.
   */
  function Apply(p: Progress, t: ItemType, id: Id, d: Decision, clock: nat -> int, delay: int): Progress {
    var transfer := if d.call == Some(AddToTransferList(id)) then
                      p.transfer[t := (if t in p.transfer then p.transfer[t] else map[])[id := id]]
                    else p.transfer;
    var exited := clock(p.ticks) > delay;
    var messages := if !exited && d.message.Some? then p.messages + [ItemError(t, id, d.message.value)] else p.messages;
    Progress(MarkDone(p.ledger, t, [id], d.outcome), messages, transfer, p.redirect, p.ticks + 1, exited)
  }

  /** The loop over the ids of one type, stopping once the request has ended. */
  function Steps(p: Progress, t: ItemType, ids: seq<Id>, decide: Id -> Option<Decision>, clock: nat -> int, delay: int): Progress
    decreases |ids|
  {
    if ids == [] then p
    else StepOne(Steps(p, t, ids[..|ids| - 1], decide, clock, delay), t, ids[|ids| - 1], decide, clock, delay)
  }

  /** One iteration of the loop: nothing once the request has ended or when the processor leaves the id alone. */
  function StepOne(q: Progress, t: ItemType, id: Id, decide: Id -> Option<Decision>, clock: nat -> int, delay: int): Progress {
    if q.exited then q
    else match decide(id)
      case None => q
      case Some(d) => Apply(q, t, id, d, clock, delay)
  }

  /** The page the transfer action redirects to. */
  function TransferPage(rootDoc: string): string {
    rootDoc + "/front/transfer.action.php"
  }

  /**
   * processMassiveActionsForOneItemtype of MassiveAction's processor: the
   * transfer action first makes sure the type has a transfer list and, once
   * every id is done, redirects to the transfer page.
   */
  function ProcessType(p: Progress, action: ActionId, h: Handle, t: ItemType, ids: seq<Id>,
                       clock: nat -> int, delay: int, rootDoc: string): Progress {
    var transferring := action == "add_transfer_list";
    var p1 := if transferring && t !in p.transfer then p.(transfer := p.transfer[t := map[]]) else p;
    var q := Steps(p1, t, ids, CoreDecider(action, h), clock, delay);
    if transferring && !q.exited then q.(redirect := TransferPage(rootDoc)) else q
  }

  // ----- properties of the decisions -----

  /**
   * The outcomes of MassiveAction's processor: never NO_ACTION; a refusal
   * always comes with the rights error, a success with no error, and a
   * failure with one of the other errors.
   */
  lemma CoreOutcomes(action: ActionId, h: Handle, id: Id)
    ensures var r := CoreDecide(action, h, id);
            r.Some? ==>
              && r.value.outcome != NoAction
              && (r.value.outcome == ActionNoRight <==> r.value.message == Some(ErrorRight))
              && (r.value.outcome == ActionOk <==> r.value.message.None?)
              && (r.value.outcome == ActionKo ==> r.value.message.value in {ErrorOnAction, ErrorCompat, ErrorNotFound})
  {
  }

  /**
   * Deleting, restoring and purging act on an item only with the right the
   * source checks (DELETE to delete, PURGE to restore or purge), and succeed
   * exactly when the call does.
   */
  lemma RemovalNeedsRight(action: ActionId, h: Handle, id: Id)
    requires action in {"delete", "restore", "purge", "purge_item_but_devices"}
    ensures var r := CoreDecide(action, h, id);
            var right := if action == "delete" then DeleteRight else PurgeRight;
            && r.Some?
            && (r.value.call.Some? <==> h.can(id, right))
            && (!h.can(id, right) ==> r.value.outcome == ActionNoRight)
            && (h.can(id, right) ==> (r.value.outcome == ActionOk <==>
                  match r.value.call.value
                  case Delete(i, force, keep) => h.deleted(i, force, keep)
                  case Restore(i) => h.restored(i)
                  case _ => false))
  {
  }

  /**
   * Purging deletes for good except for a dynamic item of a type that locks
   * dynamic items in the dustbin; purge_item_but_devices keeps the devices,
   * and "delete" only ever puts in the dustbin.
   */
  lemma PurgeMode(action: ActionId, h: Handle, id: Id)
    requires action in {"delete", "purge", "purge_item_but_devices"} && h.can(id, if action == "delete" then DeleteRight else PurgeRight)
    ensures var call := CoreDecide(action, h, id).value.call;
            && call.Some? && call.value.Delete? && call.value.id == id
            && (call.value.force <==> action != "delete" && !(h.maybeDeleted && h.useDeletedToLockIfDynamic && h.isDynamic(id)))
            && (call.value.keepDevices <==> action == "purge_item_but_devices")
  {
  }

  /**
   * An update is attempted exactly for an item the user may edit (or whose
   * infocom may be created) and whose entity suits the new value, and
   * succeeds exactly when that update does; a missing right is NORIGHT, an
   * unsuitable entity a compatibility error, an unreadable item a not-found
   * error; with no search option for the field, nothing is done.
   */
  lemma UpdateGuards(h: Handle, id: Id)
    ensures var r := CoreDecide("update", h, id);
            && (h.update.NoSearchOption? <==> r.None?)
            && (h.update.FieldPlan? ==>
                  var plan := h.update;
                  var right := plan.canEdit(id) && plan.canMassive(id);
                  var suits := plan.linkEntities == {} || plan.entityOf(id) in plan.linkEntities;
                  && r.Some?
                  && (r.value.call.Some? <==> right && suits)
                  && (r.value.outcome == ActionNoRight <==> !right)
                  && (r.value.message == Some(ErrorCompat) <==> right && !suits)
                  && (r.value.outcome == ActionOk <==> right && suits && plan.updated(id)))
            && (h.update.InfocomPlan? ==>
                  var plan := h.update;
                  var reachable := plan.found(id) && plan.compatible(id);
                  && r.Some?
                  && (r.value.call.Some? <==> reachable && plan.canCreate(id))
                  && (r.value.outcome == ActionNoRight <==> reachable && !plan.canCreate(id))
                  && (r.value.message == Some(ErrorNotFound) <==> !plan.found(id))
                  && (r.value.message == Some(ErrorCompat) <==> plan.found(id) && !plan.compatible(id))
                  && (r.value.outcome == ActionOk <==> reachable && plan.canCreate(id) && plan.updated(id)))
            && (r.Some? && r.value.outcome == ActionOk ==>
                  match h.update
                  case InfocomPlan(found, compatible, canCreate, updated) =>
                    found(id) && compatible(id) && canCreate(id) && updated(id) && r.value.call == Some(InfocomUpdate(id))
                  case FieldPlan(link, canEdit, canMassive, entityOf, updated) =>
                    canEdit(id) && canMassive(id) && (link == {} || entityOf(id) in link) && updated(id)
                    && r.value.call == Some(Update(id))
                  case NoSearchOption => false)
  {
  }

  /** An action MassiveAction's processor does not know leaves every id alone. */
  lemma UnknownActionIgnored(action: ActionId, h: Handle, id: Id)
    requires action !in {"delete", "restore", "purge", "purge_item_but_devices", "update", "add_transfer_list"}
    ensures CoreDecide(action, h, id).None?
  {
  }

  // ----- properties of the run -----

  /** The ids among `ids` that the processor acts on. */
  function Decided(ids: seq<Id>, decide: Id -> Option<Decision>): set<Id> {
    set id | id in ids && decide(id).Some?
  }

  /**
   * Running distinct remaining ids of one type keeps the bookkeeping
   * invariant; only ids of `ids` leave the remaining ones, no other type is
   * touched, and when the request did not end every decided id is done.
   */
  lemma StepsLedger(items: Selection, p: Progress, t: ItemType, ids: seq<Id>,
                    decide: Id -> Option<Decision>, clock: nat -> int, delay: int)
    requires Accounted(items, p.ledger) && t in items
    requires NoDup(ids) && Elements(ids) <= IdsOf(p.ledger.remainings, t)
    ensures var q := Steps(p, t, ids, decide, clock, delay);
            && Accounted(items, q.ledger)
            && IdsOf(p.ledger.remainings, t) - Elements(ids) <= IdsOf(q.ledger.remainings, t) <= IdsOf(p.ledger.remainings, t)
            && (forall u :: u != t ==>
                  IdsOf(q.ledger.remainings, u) == IdsOf(p.ledger.remainings, u) && DoneOf(q.ledger, u) == DoneOf(p.ledger, u))
            && (!q.exited ==> IdsOf(q.ledger.remainings, t) == IdsOf(p.ledger.remainings, t) - Decided(ids, decide))
  {
    StepsAccounted(items, p, t, ids, decide, clock, delay);
    StepsOthers(p, t, ids, decide, clock, delay);
    StepsDecided(p, t, ids, decide, clock, delay);
  }

  lemma {:induction false} StepsAccounted(items: Selection, p: Progress, t: ItemType, ids: seq<Id>,
                                          decide: Id -> Option<Decision>, clock: nat -> int, delay: int)
    requires Accounted(items, p.ledger) && t in items
    requires NoDup(ids) && Elements(ids) <= IdsOf(p.ledger.remainings, t)
    ensures var q := Steps(p, t, ids, decide, clock, delay);
            && Accounted(items, q.ledger)
            && IdsOf(p.ledger.remainings, t) - Elements(ids) <= IdsOf(q.ledger.remainings, t) <= IdsOf(p.ledger.remainings, t)
    decreases |ids|
  {
    if ids != [] {
      var n := |ids| - 1;
      NoDupPrefix(ids);
      ElementsSnoc(ids);
      StepsAccounted(items, p, t, ids[..n], decide, clock, delay);
      StepOneLedger(items, Steps(p, t, ids[..n], decide, clock, delay), t, ids[n], decide, clock, delay);
    }
  }

  lemma {:induction false} StepsOthers(p: Progress, t: ItemType, ids: seq<Id>,
                                       decide: Id -> Option<Decision>, clock: nat -> int, delay: int)
    ensures var q := Steps(p, t, ids, decide, clock, delay);
            forall u :: u != t ==>
              IdsOf(q.ledger.remainings, u) == IdsOf(p.ledger.remainings, u) && DoneOf(q.ledger, u) == DoneOf(p.ledger, u)
    decreases |ids|
  {
    if ids != [] {
      var n := |ids| - 1;
      StepsOthers(p, t, ids[..n], decide, clock, delay);
      var q0 := Steps(p, t, ids[..n], decide, clock, delay);
      if !q0.exited && decide(ids[n]).Some? {
        MarkDoneShape(q0.ledger, t, [ids[n]], decide(ids[n]).value.outcome);
      }
    }
  }

  lemma {:induction false} StepsDecided(p: Progress, t: ItemType, ids: seq<Id>,
                                        decide: Id -> Option<Decision>, clock: nat -> int, delay: int)
    ensures var q := Steps(p, t, ids, decide, clock, delay);
            !q.exited ==> IdsOf(q.ledger.remainings, t) == IdsOf(p.ledger.remainings, t) - Decided(ids, decide)
    decreases |ids|
  {
    if ids != [] {
      var n := |ids| - 1;
      DecidedSnoc(ids, decide);
      StepsDecided(p, t, ids[..n], decide, clock, delay);
      var q0 := Steps(p, t, ids[..n], decide, clock, delay);
      if !q0.exited && decide(ids[n]).Some? {
        MarkDoneShape(q0.ledger, t, [ids[n]], decide(ids[n]).value.outcome);
        assert Elements([ids[n]]) == {ids[n]};
      }
    }
  }

  /** One iteration keeps the bookkeeping invariant and moves at most its id. */
  lemma StepOneLedger(items: Selection, q: Progress, t: ItemType, id: Id,
                      decide: Id -> Option<Decision>, clock: nat -> int, delay: int)
    requires Accounted(items, q.ledger) && t in items
    requires id in IdsOf(q.ledger.remainings, t)
    ensures var q' := StepOne(q, t, id, decide, clock, delay);
            && Accounted(items, q'.ledger)
            && IdsOf(q.ledger.remainings, t) - {id} <= IdsOf(q'.ledger.remainings, t) <= IdsOf(q.ledger.remainings, t)
            && (forall u :: u != t ==>
                  IdsOf(q'.ledger.remainings, u) == IdsOf(q.ledger.remainings, u) && DoneOf(q'.ledger, u) == DoneOf(q.ledger, u))
            && (!q'.exited ==>
                  !q.exited && IdsOf(q'.ledger.remainings, t) == IdsOf(q.ledger.remainings, t) - (if decide(id).Some? then {id} else {}))
  {
    if !q.exited && decide(id).Some? {
      var l' := MarkDone(q.ledger, t, [id], decide(id).value.outcome);
      assert StepOne(q, t, id, decide, clock, delay).ledger == l';
      assert Elements([id]) == {id};
      MarkDonePreserves(items, q.ledger, t, [id], decide(id).value.outcome);
    }
  }

  lemma ElementsSnoc(ids: seq<Id>)
    requires ids != []
    ensures Elements(ids) == Elements(ids[..|ids| - 1]) + {ids[|ids| - 1]}
  {
    assert ids == ids[..|ids| - 1] + [ids[|ids| - 1]];
  }

  lemma DecidedSnoc(ids: seq<Id>, decide: Id -> Option<Decision>)
    requires ids != []
    ensures var id := ids[|ids| - 1];
            Decided(ids, decide) == Decided(ids[..|ids| - 1], decide) + (if decide(id).Some? then {id} else {})
  {
    assert ids == ids[..|ids| - 1] + [ids[|ids| - 1]];
  }

  lemma NoDupPrefix(ids: seq<Id>)
    requires NoDup(ids) && ids != []
    ensures NoDup(ids[..|ids| - 1]) && ids[|ids| - 1] !in Elements(ids[..|ids| - 1])
  {
  }

  /**
   * Every itemDone of the run counts one id: nb_done grows by the number of
   * calls, and so do the counters when the processor never answers NO_ACTION.
   */
  lemma {:induction false} StepsCount(p: Progress, t: ItemType, ids: seq<Id>,
                                      decide: Id -> Option<Decision>, clock: nat -> int, delay: int)
    requires forall id :: id in ids && decide(id).Some? ==> decide(id).value.outcome != NoAction
    ensures var q := Steps(p, t, ids, decide, clock, delay);
            && p.ticks <= q.ticks <= p.ticks + |ids|
            && q.ledger.nbDone == p.ledger.nbDone + (q.ticks - p.ticks)
            && Total(q.ledger.results) == Total(p.ledger.results) + (q.ticks - p.ticks)
            && (Balanced(p.ledger) ==> Balanced(q.ledger))
    decreases |ids|
  {
    if ids != [] {
      var n := |ids| - 1;
      assert forall id :: id in ids[..n] ==> id in ids;
      StepsCount(p, t, ids[..n], decide, clock, delay);
      var q0 := Steps(p, t, ids[..n], decide, clock, delay);
      StepOneCount(q0, t, ids[n], decide, clock, delay);
    }
  }

  lemma StepOneCount(q: Progress, t: ItemType, id: Id, decide: Id -> Option<Decision>, clock: nat -> int, delay: int)
    requires decide(id).Some? ==> decide(id).value.outcome != NoAction
    ensures var q' := StepOne(q, t, id, decide, clock, delay);
            && q.ticks <= q'.ticks <= q.ticks + 1
            && q'.ledger.nbDone == q.ledger.nbDone + (q'.ticks - q.ticks)
            && Total(q'.ledger.results) == Total(q.ledger.results) + (q'.ticks - q.ticks)
            && (Balanced(q.ledger) ==> Balanced(q'.ledger))
  {
    if !q.exited && decide(id).Some? {
      MarkDoneBalance(q.ledger, t, [id], decide(id).value.outcome);
    }
  }

  /**
   * The request ends at the first itemDone whose elapsed time exceeds the
   * delay, and only there: a run that did not end saw every check within the
   * delay, and nothing happens once it has ended.
   */
  lemma {:induction false} StepsTiming(p: Progress, t: ItemType, ids: seq<Id>,
                                       decide: Id -> Option<Decision>, clock: nat -> int, delay: int)
    ensures var q := Steps(p, t, ids, decide, clock, delay);
            && (p.exited ==> q == p)
            && (q.exited && !p.exited ==> q.ticks > p.ticks && clock(q.ticks - 1) > delay
                                           && forall k :: p.ticks <= k < q.ticks - 1 ==> clock(k) <= delay)
            && (!q.exited ==> forall k :: p.ticks <= k < q.ticks ==> clock(k) <= delay)
            && q.ticks >= p.ticks
    decreases |ids|
  {
    if ids != [] {
      StepsTiming(p, t, ids[..|ids| - 1], decide, clock, delay);
    }
  }

  /**
   * The messages of the run: earlier ones are kept, and each new one is the
   * error the processor gives for an id of `ids`.
   */
  lemma {:induction false} StepsMessages(p: Progress, t: ItemType, ids: seq<Id>,
                                         decide: Id -> Option<Decision>, clock: nat -> int, delay: int)
    ensures var q := Steps(p, t, ids, decide, clock, delay);
            && p.messages <= q.messages
            && forall i :: |p.messages| <= i < |q.messages| ==>
                 var m := q.messages[i];
                 m.ItemError? && m.itemtype == t && m.id in ids
                 && decide(m.id).Some? && decide(m.id).value.message == Some(m.kind)
    decreases |ids|
  {
    if ids != [] {
      var n := |ids| - 1;
      StepsMessages(p, t, ids[..n], decide, clock, delay);
      assert forall id :: id in ids[..n] ==> id in ids;
    }
  }

  /**
   * The transfer action puts every id of the type in the session's transfer
   * list, touches no other type's list, and once all are done redirects to
   * the transfer page.
   */
  lemma TransferListed(p: Progress, h: Handle, t: ItemType, ids: seq<Id>, clock: nat -> int, delay: int, rootDoc: string)
    ensures var q := ProcessType(p, "add_transfer_list", h, t, ids, clock, delay, rootDoc);
            && t in q.transfer
            && (forall u :: u != t ==> (u in q.transfer <==> u in p.transfer) && (u in p.transfer ==> q.transfer[u] == p.transfer[u]))
            && (!q.exited ==> q.redirect == TransferPage(rootDoc) && forall id :: id in ids ==> id in q.transfer[t] && q.transfer[t][id] == id)
  {
    var p1 := if t !in p.transfer then p.(transfer := p.transfer[t := map[]]) else p;
    StepsTransfer(p1, h, t, ids, clock, delay);
  }

  lemma {:induction false} StepsTransfer(p: Progress, h: Handle, t: ItemType, ids: seq<Id>, clock: nat -> int, delay: int)
    requires t in p.transfer
    ensures var q := Steps(p, t, ids, CoreDecider("add_transfer_list", h), clock, delay);
            && t in q.transfer
            && (forall u :: u != t ==> (u in q.transfer <==> u in p.transfer) && (u in p.transfer ==> q.transfer[u] == p.transfer[u]))
            && p.transfer[t].Keys <= q.transfer[t].Keys
            && (!q.exited ==> forall id :: id in ids ==> id in q.transfer[t] && q.transfer[t][id] == id)
    decreases |ids|
  {
    if ids != [] {
      var n := |ids| - 1;
      StepsTransfer(p, h, t, ids[..n], clock, delay);
      var q0 := Steps(p, t, ids[..n], CoreDecider("add_transfer_list", h), clock, delay);
      StepOneTransfer(q0, h, t, ids[n], clock, delay);
      assert forall id :: id in ids ==> id in ids[..n] || id == ids[n];
    }
  }

  lemma StepOneTransfer(q: Progress, h: Handle, t: ItemType, id: Id, clock: nat -> int, delay: int)
    requires t in q.transfer
    ensures var q' := StepOne(q, t, id, CoreDecider("add_transfer_list", h), clock, delay);
            && t in q'.transfer
            && (forall u :: u != t ==> (u in q'.transfer <==> u in q.transfer) && (u in q.transfer ==> q'.transfer[u] == q.transfer[u]))
            && q.transfer[t].Keys <= q'.transfer[t].Keys
            && (!q'.exited ==> !q.exited && id in q'.transfer[t] && q'.transfer[t][id] == id)
  {
  }

  /** Once the request has ended, the remaining ids change nothing. */
  lemma {:induction false} StepsStopped(p: Progress, t: ItemType, ids: seq<Id>, i: nat,
                                        decide: Id -> Option<Decision>, clock: nat -> int, delay: int)
    requires i <= |ids| && Steps(p, t, ids[..i], decide, clock, delay).exited
    ensures Steps(p, t, ids, decide, clock, delay) == Steps(p, t, ids[..i], decide, clock, delay)
    decreases |ids| - i
  {
    if i < |ids| {
      var n := |ids| - 1;
      assert ids[..n][..i] == ids[..i];
      StepsStopped(p, t, ids[..n], i, decide, clock, delay);
      assert ids[..|ids|] == ids;
    } else {
      assert ids[..i] == ids;
    }
  }

  /** The loop over a prefix one id longer makes one more step. */
  lemma StepsExtend(p: Progress, t: ItemType, ids: seq<Id>, i: nat,
                    decide: Id -> Option<Decision>, clock: nat -> int, delay: int)
    requires i < |ids|
    ensures Steps(p, t, ids[..i + 1], decide, clock, delay)
            == StepOne(Steps(p, t, ids[..i], decide, clock, delay), t, ids[i], decide, clock, delay)
  {
    assert ids[..i + 1][..i] == ids[..i];
  }
}
