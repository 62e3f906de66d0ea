/**
 * Vocabulary shared by every part of the massive-action engine: item types,
 * item ids, action ids, the per-item outcome codes, the result counters and the
 * diagnostics added to a run.
 */
module MassiveTypes {
  import opened Wrappers
  import opened Sums

  /** A resource type name such as "Computer" (the PHP class name). */
  type ItemType = string
  /** A database id of one item. */
  type Id = int
  /** An action id, possibly of the form "<processor>:<action>". */
  type ActionId = string
  /** A display label of an action. */
  type Label = string

  /**
   * The items a run works on: per item type, the ids stored as `id => id`
   * (the PHP arrays `items`, `remainings` and `initial_items`).
   */
  type Selection = map<ItemType, map<Id, Id>>

  /** The checkbox values of one item type, as posted at the initial stage (0 or 1). */
  type Checkboxes = map<Id, int>

  /**
   * The posted form ($POST) with the fields the engine reads or writes; every
   * other field (id_field, field, the new value, massiveaction, ...) is in
   * `extra`. An absent field is None.
   */
  datatype Post = Post(
    item: Option<seq<(ItemType, Checkboxes)>>,      // raw checkboxes, in posted order
    items: Option<Selection>,
    isDeleted: Option<bool>,
    specificActions: Option<map<ActionId, Label>>,
    addActions: Option<map<ActionId, Label>>,
    actions: Option<map<ActionId, Label>>,
    actionFilter: Option<map<ActionId, set<ItemType>>>,
    dontFilterFor: Option<set<ActionId>>,
    action: Option<ActionId>,
    actionName: Option<Label>,
    processor: Option<string>,
    specializeItemtype: Option<ItemType>,
    initialItems: Option<Selection>,
    extra: map<string, string>)

  /** The empty $POST array. */
  const EmptyPost: Post :=
    Post(None, None, None, None, None, None, None, None, None, None, None, None, None, map[])

  /** Separator between the processor and the bare action in an action id. */
  const ClassActionSeparator: char := ':'
  /** Prefix of the actions that MassiveAction itself processes. */
  const SelfPrefix: string := "MassiveAction:"

  /** The four outcome codes accepted by itemDone (NO_ACTION, ACTION_OK, ACTION_KO, ACTION_NORIGHT). */
  datatype Outcome = NoAction | ActionOk | ActionKo | ActionNoRight

  /** The integer constant the source uses for each outcome. */
  function Code(o: Outcome): (c: int)
    ensures 0 <= c <= 3
    ensures c == 0 <==> o == NoAction
    ensures c == 1 <==> o == ActionOk
    ensures c == 2 <==> o == ActionKo
    ensures c == 3 <==> o == ActionNoRight
  {
    match o
    case NoAction => 0
    case ActionOk => 1
    case ActionKo => 2
    case ActionNoRight => 3
  }

  /** The outcome an integer passed to itemDone stands for; None for a value that is no outcome constant. */
  function OutcomeOf(c: int): (r: Option<Outcome>)
    ensures r.Some? <==> 0 <= c <= 3
  {
    if c == 0 then Some(NoAction)
    else if c == 1 then Some(ActionOk)
    else if c == 2 then Some(ActionKo)
    else if c == 3 then Some(ActionNoRight)
    else None
  }

  /** The codes and the outcomes are in one-to-one correspondence. */
  lemma CodeRoundTrip(o: Outcome, c: int)
    ensures OutcomeOf(Code(o)) == Some(o)
    ensures OutcomeOf(c).Some? ==> Code(OutcomeOf(c).value) == c
  {
  }

  /** The `results` array: counts of items done with each outcome. */
  datatype Results = Results(ok: int, ko: int, noright: int)

  function Total(r: Results): int {
    r.ok + r.ko + r.noright
  }

  /** The kinds of error text an item type can give (ERROR_*). */
  datatype ErrorKind = ErrorNotFound | ErrorRight | ErrorCompat | ErrorOnAction

  /** A diagnostic added to the run with addMessage. */
  datatype Message =
    | ItemError(itemtype: ItemType, id: Id, kind: ErrorKind)   // $item->getErrorMessage(kind)
    | Text(text: string)                                       // a message given by a legacy handler

  /** Why the constructor did not produce a usable object. */
  datatype Failure =
    | NoActionAvailable      // exception 'No action available'
    | NoSelectedItems        // exception 'No selected items'
    | ImplementationError    // exception 'Implementation error !'
    | Exit                   // exit(): the user chose no action

  /** PHP's empty() on a string: the empty string and "0" are empty. */
  predicate PhpEmpty(s: string) {
    s == "" || s == "0"
  }

  /** Every id of the selection is stored under itself (`id => id`). */
  ghost predicate WellFormed(sel: Selection) {
    forall t, id :: t in sel && id in sel[t] ==> sel[t][id] == id
  }

  /** The set of ids a selection holds for `t`, empty when `t` is absent. */
  function IdsOf(sel: Selection, t: ItemType): set<Id> {
    if t in sel then sel[t].Keys else {}
  }

  /** The number of ids a selection holds for `t`, 0 when `t` is absent. */
  function SizeOf(sel: Selection, t: ItemType): nat {
    if t in sel then |sel[t]| else 0
  }

  /** The number of ids in a selection, over all item types. */
  ghost function TotalSize(sel: Selection): int {
    SumOver(sel.Keys, t => SizeOf(sel, t))
  }

  /**
   * The timeout delay of one process request: the platform's
   * max_execution_time, or 60 seconds when that is 0 (unlimited), minus a
   * margin of 3 seconds.
   */
  function TimeoutDelay(maxExecutionTime: int): (delay: int)
    ensures maxExecutionTime == 0 ==> delay == 57
    ensures maxExecutionTime != 0 ==> delay + 3 == maxExecutionTime
  {
    (if maxExecutionTime == 0 then 60 else maxExecutionTime) - 3
  }
}
