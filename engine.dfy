/**
 * The MassiveAction object: the constructor's three stages and the resume of
 * a suspended run, itemDone, the per-type processing and process(), over a
 * session store in which a run that runs out of time is persisted under its
 * identifier.
 */
module Engine {
  import opened Wrappers
  import opened MassiveTypes
  import opened PhpStrings
  import opened Catalog
  import opened Sums
  import opened Initial
  import opened Specialize
  import opened Ledger
  import opened Dispatch

  /** The stage a request is at. */
  datatype Stage = AtInitial | AtSpecialize | AtProcess | AtOther

  /** What a legacy handler returns when it returns an array; every entry is optional. */
  datatype LegacyResult = LegacyResult(
    ok: Option<int>, ko: Option<int>, noright: Option<int>,
    messages: seq<string>,
    redirect: Option<string>)

  /** Everything outside the engine, as inputs and oracles. */
  datatype Env = Env(
    catalog: CatalogEnv,
    resolve: ItemType -> Option<TypeInfo>,     // getItemForItemtype: None when the type cannot be loaded
    handle: ItemType -> Handle,                // the database and rights behind a resolved type
    otherPlan: (Option<ItemType>, ItemType) -> UpdatePlan,  // the update plan of a type when the search options are those of another type or of `false`
    foreign: (string, ActionId, ItemType, Id) -> Option<Decision>,   // another processor's decision for an id
    legacy: (LegacyHandler, ItemType, ActionId, set<Id>) -> Option<LegacyResult>,  // a legacy handler given the checked ids; None: no array
    referer: Option<string>,                   // HTTP_REFERER
    rootDoc: string,
    maxExecutionTime: int)

  /** The catalog of each type, for the initial stage. */
  function CatalogOf(env: Env, isDeleted: bool): ItemType -> Option<map<ActionId, Label>> {
    t => AllMassiveActions(env.resolve(t), isDeleted, env.catalog)
  }

  /** The forbidden actions of each type, None when it cannot be resolved. */
  function ForbiddenOf(env: Env): ItemType -> Option<set<ActionId>> {
    t => if env.resolve(t).Some? then Some(env.resolve(t).value.forbidden) else None
  }

  /** The fields a suspended run is persisted with (all but the timer and the delay). */
  datatype Run = Run(
    post: Post, items: Option<Selection>, action: Option<ActionId>, processor: Option<string>,
    nbItems: int, identifier: Option<int>, actionName: Option<Label>, messages: seq<Message>,
    remainings: Option<Selection>, done: map<ItemType, seq<Id>>, results: Results, nbDone: int,
    current: Option<ItemType>, redirect: string, error: Option<string>)

  /** The session: persisted runs, the selection to restore in the list, and the transfer list. */
  class Session {
    var store: map<int, Run>
    var selected: Selection
    var transfer: map<ItemType, map<Id, Id>>

    constructor ()
      ensures store == map[] && selected == map[] && transfer == map[]
    {
      store := map[];
      selected := map[];
      transfer := map[];
    }
  }

  /** What process() ends with. */
  datatype ProcessOutcome =
    | Finished(results: Results, redirect: string)
    | Suspended            // the time ran out: the run is persisted and the page reloads
    | Fatal                // the legacy path on a selection without a single resolvable type

  class MassiveAction {
    const session: Session
    const env: Env
    const clock: nat -> int    // seconds elapsed at the k-th itemDone of this request

    var post: Post
    var items: Option<Selection>
    var action: Option<ActionId>
    var processor: Option<string>
    var nbItems: int
    var identifier: Option<int>
    var actionName: Option<Label>
    var messages: seq<Message>
    var remainings: Option<Selection>
    var done: map<ItemType, seq<Id>>
    var results: Results
    var nbDone: int
    var current: Option<ItemType>
    var redirect: string
    var error: Option<string>
    var timeoutDelay: int
    var ticks: nat
    var exited: bool

    /** The object for a POST that passed its stage, with the process-stage set-up at that stage. */
    constructor FromStage(session: Session, env: Env, clock: nat -> int, st: Staged, stage: Stage, freshId: int)
      ensures this.session == session && this.env == env && this.clock == clock
      ensures Built(st, stage, freshId)
      ensures ticks == 0 && !exited
    {
      this.session := session;
      this.env := env;
      this.clock := clock;
      post := if stage == AtProcess then WithoutProcessFields(st.post) else st.post;
      items := st.post.items;
      action := st.post.action;
      processor := st.post.processor;
      nbItems := st.nbItems;
      identifier := if stage == AtProcess then Some(freshId) else None;
      actionName := if stage == AtProcess then st.post.actionName else None;
      messages := [];
      remainings := if stage == AtProcess then st.post.items else None;
      done := map[];
      results := Results(0, 0, 0);
      nbDone := 0;
      current := None;
      redirect := if stage == AtProcess then env.referer.GetOr(env.rootDoc + "/front/central.php") else "";
      error := None;
      timeoutDelay := if stage == AtProcess then TimeoutDelay(env.maxExecutionTime) else 0;
      ticks := 0;
      exited := false;
    }

    /** The object of a persisted run, as restored from the session. */
    constructor Resumed(session: Session, env: Env, clock: nat -> int, run: Run)
      ensures this.session == session && this.env == env && this.clock == clock
      ensures Snapshot() == run
      ensures timeoutDelay == 0 && ticks == 0 && !exited
    {
      this.session := session;
      this.env := env;
      this.clock := clock;
      post := run.post;
      items := run.items;
      action := run.action;
      processor := run.processor;
      nbItems := run.nbItems;
      identifier := run.identifier;
      actionName := run.actionName;
      messages := run.messages;
      remainings := run.remainings;
      done := run.done;
      results := run.results;
      nbDone := run.nbDone;
      current := run.current;
      redirect := run.redirect;
      error := run.error;
      timeoutDelay := 0;
      ticks := 0;
      exited := false;
    }

    /** The fields persisted when the request ends. */
    function Snapshot(): Run
      reads this`post, this`items, this`action, this`processor, this`nbItems, this`identifier, this`actionName,
              this`messages, this`remainings, this`done, this`results, this`nbDone, this`current, this`redirect, this`error
    {
      Run(post, items, action, processor, nbItems, identifier, actionName, messages,
          remainings, done, results, nbDone, current, redirect, error)
    }

    /** The fields processing never changes. */
    function Fixed(): (Post, Option<Selection>, Option<ActionId>, Option<string>, int, Option<int>, Option<Label>, Option<string>, int)
      reads this`post, this`items, this`action, this`processor, this`nbItems, this`identifier, this`actionName,
              this`error, this`timeoutDelay
    {
      (post, items, action, processor, nbItems, identifier, actionName, error, timeoutDelay)
    }

    /** The bookkeeping fields. */
    function LedgerOf(): Ledger
      reads this`remainings, this`done, this`results, this`nbDone, this`current
      requires remainings.Some?
    {
      Ledger(remainings.value, done, results, nbDone, current)
    }

    /** What processing changes, session transfer list included. */
    function ProgressOf(): Progress
      reads this`remainings, this`done, this`results, this`nbDone, this`current, this`messages, this`redirect, this`ticks, this`exited, session`transfer
      requires remainings.Some?
    {
      Progress(LedgerOf(), messages, session.transfer, redirect, ticks, exited)
    }

    /** The bookkeeping invariant of a run at the process stage. */
    ghost predicate Consistent()
      reads this`items, this`remainings, this`done, this`results, this`nbDone, this`current
    {
      items.Some? && remainings.Some? && Accounted(items.value, LedgerOf())
    }

    // ----- accessors -----

    /** getInput: the form left by the previous stage. */
    function GetInput(): (r: Post)
      reads this`post
      ensures r == post
    {
      post
    }

    /** getAction: the current action, None at the initial stage. */
    function GetAction(): (r: Option<ActionId>)
      reads this`action
      ensures r == action
    {
      action
    }

    /** getItems: the selection, empty when unset. */
    function GetItems(): (r: Selection)
      reads this`items
      ensures items.Some? ==> r == items.value
      ensures items.None? ==> r == map[]
    {
      items.GetOr(map[])
    }

    /** getRemainings: the ids still to process, empty when unset. */
    function GetRemainings(): (r: Selection)
      reads this`remainings
      ensures remainings.Some? ==> r == remainings.value
      ensures remainings.None? ==> r == map[]
    {
      remainings.GetOr(map[])
    }

    /** getItemtype(false): the single item type of the selection, if there is exactly one. */
    function GetItemtype(): (r: Option<ItemType>)
      reads this`items
      ensures r.Some? <==> items.Some? && |items.value.Keys| == 1
      ensures r.Some? ==> items.value.Keys == {r.value}
    {
      SingleItemtype(items)
    }

    // ----- state changes -----

    /** __destruct: a run that still has an identifier is persisted under it. */
    method Destruct()
      modifies session`store
      ensures identifier.Some? ==> session.store == old(session.store)[identifier.value := Snapshot()]
      ensures identifier.None? ==> session.store == old(session.store)
    {
      if identifier.Some? {
        session.store := session.store[identifier.value := Snapshot()];
      }
    }

    /** addMessage. */
    method AddMessage(m: Message)
      modifies this`messages
      ensures messages == old(messages) + [m]
    {
      messages := messages + [m];
    }

    /** addMessage for each message of a list, in order. */
    method AddMessages(ms: seq<string>)
      modifies this`messages
      ensures messages == old(messages) + Texts(ms)
    {
      var i := 0;
      while i < |ms|
        invariant 0 <= i <= |ms|
        invariant messages == old(messages) + Texts(ms[..i])
      {
        assert ms[..i + 1][..i] == ms[..i];
        AddMessage(Text(ms[i]));
        i := i + 1;
      }
      assert ms[..i] == ms;
    }

    /** setRedirect. */
    method SetRedirect(r: string)
      modifies this`redirect
      ensures redirect == r
    {
      redirect := r;
    }

    /**
     * itemDone: the bookkeeping of MarkDone, then the timeout check, which
     * ends the request and persists the run when the delay is exceeded.
     */
    method ItemDone(t: ItemType, ids: seq<Id>, o: Outcome)
      requires remainings.Some? && !exited
      modifies this`remainings, this`done, this`results, this`nbDone, this`current, this`ticks, this`exited, session`store
      ensures remainings.Some? && LedgerOf() == MarkDone(old(LedgerOf()), t, ids, o)
      ensures ticks == old(ticks) + 1 && exited == (clock(old(ticks)) > timeoutDelay)
      ensures session.store == if exited && identifier.Some? then old(session.store)[identifier.value := Snapshot()]
                               else old(session.store)
    {
      var l := MarkDone(LedgerOf(), t, ids, o);
      remainings := Some(l.remainings);
      done := l.done;
      results := l.results;
      nbDone := l.nbDone;
      current := l.current;
      var elapsed := clock(ticks);
      ticks := ticks + 1;
      if elapsed > timeoutDelay {
        exited := true;
        Destruct();
      }
    }
  
    /** One decided id: the transfer-list entry, itemDone, then the error message unless the request ended. */
    method ApplyDecision(t: ItemType, id: Id, d: Decision)
      requires remainings.Some? && !exited
      modifies this`remainings, this`done, this`results, this`nbDone, this`current, this`ticks, this`exited, this`messages
      modifies session`store, session`transfer
      ensures remainings.Some? && ProgressOf() == Apply(old(ProgressOf()), t, id, d, clock, timeoutDelay)
      ensures session.store == if exited && identifier.Some? then old(session.store)[identifier.value := Snapshot()]
                               else old(session.store)
    {
      if d.call == Some(AddToTransferList(id)) {
        var list := if t in session.transfer then session.transfer[t] else map[];
        session.transfer := session.transfer[t := list[id := id]];
      }
      ItemDone(t, [id], d.outcome);
      if !exited && d.message.Some? {
        AddMessage(ItemError(t, id, d.message.value));
      }
    }

    /** One iteration: the processor's decision for the id, if it takes one. */
    method StepId(t: ItemType, id: Id, decide: Id -> Option<Decision>)
      requires remainings.Some? && !exited
      modifies this`remainings, this`done, this`results, this`nbDone, this`current, this`ticks, this`exited, this`messages
      modifies session`store, session`transfer
      ensures remainings.Some? && ProgressOf() == StepOne(old(ProgressOf()), t, id, decide, clock, timeoutDelay)
      ensures session.store == if exited && identifier.Some? then old(session.store)[identifier.value := Snapshot()]
                               else old(session.store)
    {
      var d := decide(id);
      if d.Some? {
        ApplyDecision(t, id, d.value);
      }
    }

    /** The loop over the ids of one type, left as soon as the request ends. */
    method RunIds(t: ItemType, ids: seq<Id>, decide: Id -> Option<Decision>)
      requires remainings.Some? && !exited
      modifies this`remainings, this`done, this`results, this`nbDone, this`current, this`ticks, this`exited, this`messages
      modifies session`store, session`transfer
      ensures remainings.Some? && ProgressOf() == Steps(old(ProgressOf()), t, ids, decide, clock, timeoutDelay)
      ensures session.store == if exited && identifier.Some? then old(session.store)[identifier.value := Snapshot()]
                               else old(session.store)
    {
      ghost var p0 := ProgressOf();
      var i := 0;
      while i < |ids| && !exited
        invariant 0 <= i <= |ids| && remainings.Some?
        invariant ProgressOf() == Steps(p0, t, ids[..i], decide, clock, timeoutDelay)
        invariant session.store == if exited && identifier.Some? then old(session.store)[identifier.value := Snapshot()]
                                   else old(session.store)
      {
        StepsExtend(p0, t, ids, i, decide, clock, timeoutDelay);
        StepId(t, ids[i], decide);
        i := i + 1;
      }
      if exited {
        StepsStopped(p0, t, ids, i, decide, clock, timeoutDelay);
      } else {
        assert ids[..i] == ids;
      }
    }

    /** processMassiveActionsForOneItemtype of MassiveAction's own processor. */
    method ProcessMassiveActionsForOneItemtype(t: ItemType, ids: seq<Id>)
      requires remainings.Some? && !exited
      modifies this`remainings, this`done, this`results, this`nbDone, this`current, this`ticks, this`exited, this`messages
      modifies this`redirect, session`store, session`transfer
      ensures remainings.Some?
      ensures ProgressOf() == ProcessType(old(ProgressOf()), action.GetOr(""), HandleFor(env, GetItemtype(), t), t, ids, clock, timeoutDelay, env.rootDoc)
      ensures session.store == if exited && identifier.Some? then old(session.store)[identifier.value := Snapshot()]
                               else old(session.store)
    {
      var a := action.GetOr("");
      if a == "add_transfer_list" && t !in session.transfer {
        session.transfer := session.transfer[t := map[]];
      }
      RunIds(t, ids, CoreDecider(a, HandleFor(env, GetItemtype(), t)));
      if a == "add_transfer_list" && !exited {
        SetRedirect(TransferPage(env.rootDoc));
      }
    }

    /** $processor::processMassiveActionsForOneItemtype, for this run's processor. */
    method ProcessOneItemtype(t: ItemType, ids: seq<Id>)
      requires remainings.Some? && processor.Some? && !exited
      modifies this`remainings, this`done, this`results, this`nbDone, this`current, this`ticks, this`exited, this`messages
      modifies this`redirect, session`store, session`transfer
      ensures remainings.Some?
      ensures ProgressOf() == ProcessWith(env, clock, timeoutDelay, processor.value, action.GetOr(""), GetItemtype(), old(ProgressOf()), t, ids)
      ensures session.store == if exited && identifier.Some? then old(session.store)[identifier.value := Snapshot()]
                               else old(session.store)
    {
      if processor.value == SelfProcessor {
        ProcessMassiveActionsForOneItemtype(t, ids);
      } else {
        RunIds(t, ids, ForeignDecider(processor.value, action.GetOr(""), t, env.foreign));
      }
    }

    /** Whether process() takes the legacy path: no processor, or an empty one. */
    predicate LegacyPath()
      reads this`processor
    {
      processor.None? || PhpEmpty(processor.value)
    }

    /**
     * processForSeveralItemtypes: every type of the remaining ids as they
     * stood when the loop began, skipping types that cannot be resolved, until
     * the request ends.
     */
    method ProcessForSeveralItemtypes()
      requires remainings.Some? && processor.Some? && !exited
      modifies this`remainings, this`done, this`results, this`nbDone, this`current, this`ticks, this`exited, this`messages
      modifies this`redirect, session`store, session`transfer
      ensures remainings.Some?
      ensures session.store == if exited && identifier.Some? then old(session.store)[identifier.value := Snapshot()]
                               else old(session.store)
      ensures old(Consistent()) ==> Consistent()
      ensures old(Consistent()) && !exited ==>
                forall u :: IdsOf(remainings.value, u) == Unprocessed(env, processor.value, action.GetOr(""), GetItemtype(), old(remainings.value), u)
    {
      var snapshot := remainings.value;
      var todo := snapshot.Keys;
      ghost var proc, act, look := processor.value, action.GetOr(""), GetItemtype();
      ghost var seen: set<ItemType> := {};
      ghost var consistent := Consistent();
      while todo != {} && !exited
        invariant todo + seen == snapshot.Keys && todo !! seen
        invariant Visited(snapshot, proc, act, look, seen, consistent)
        invariant session.store == if exited && identifier.Some? then old(session.store)[identifier.value := Snapshot()]
                                   else old(session.store)
        decreases |todo|
      {
        var t := PickOne(todo);
        todo := todo - {t};
        VisitType(t, snapshot, proc, act, look, seen, consistent);
        seen := seen + {t};
      }
      if consistent && !exited {
        SeveralDone(env, proc, act, look, remainings.value, snapshot);
      }
    }

    /** The invariant of processForSeveralItemtypes once the types of `seen` have been visited. */
    ghost predicate Visited(snapshot: Selection, proc: string, act: ActionId, look: Option<ItemType>, seen: set<ItemType>, consistent: bool)
      reads this`items, this`remainings, this`done, this`results, this`nbDone, this`current, this`processor, this`action, this`exited
    {
      && remainings.Some? && processor == Some(proc) && action.GetOr("") == act && GetItemtype() == look
      && (consistent ==> Consistent() && snapshot.Keys <= items.value.Keys && Untouched(remainings.value, snapshot, seen))
      && (consistent && !exited ==> Through(env, proc, act, look, remainings.value, snapshot, seen))
    }

    /** One type of processForSeveralItemtypes: its ids as they stood when the loop began, if the type resolves. */
    method VisitType(t: ItemType, snapshot: Selection, ghost proc: string, ghost act: ActionId, ghost look: Option<ItemType>,
                     ghost seen: set<ItemType>, ghost consistent: bool)
      requires Visited(snapshot, proc, act, look, seen, consistent) && !exited
      requires t in snapshot && t !in seen
      modifies this`remainings, this`done, this`results, this`nbDone, this`current, this`ticks, this`exited, this`messages
      modifies this`redirect, session`store, session`transfer
      ensures Visited(snapshot, proc, act, look, seen + {t}, consistent)
      ensures session.store == if exited && identifier.Some? then old(session.store)[identifier.value := Snapshot()]
                               else old(session.store)
    {
      if env.resolve(t).Some? {
        var ids := KeysInOrder(snapshot[t]);
        ghost var p := ProgressOf();
        ProcessOneItemtype(t, ids);
        if consistent {
          SeveralStep(items.value, env, clock, timeoutDelay, proc, act, look, snapshot, seen, p, t, ids);
        }
      } else if consistent {
        SeveralSkip(env, proc, act, look, remainings.value, snapshot, seen, t);
      }
    }

    /** A legacy handler's answer: its counters added, its messages kept, its redirect taken. */
    method MergeLegacy(res: LegacyResult)
      modifies this`results, this`messages, this`redirect
      ensures results == MergeCounts(old(results), res)
      ensures messages == old(messages) + Texts(res.messages)
      ensures redirect == res.redirect.GetOr(old(redirect))
    {
      results := MergeCounts(results, res);
      AddMessages(res.messages);
      if res.redirect.Some? {
        SetRedirect(res.redirect.value);
      }
    }

    /** What the legacy handler of the action answers for the checked ids of type `t`. */
    function LegacyAnswer(t: ItemType): Option<LegacyResult>
      reads this`items, this`action
      requires items.Some? && t in items.value
    {
      var a := action.GetOr("");
      env.legacy(LegacyHandlerFor(a), t, a, items.value[t].Keys)
    }

    /**
     * The legacy path: the handler of the action gets the ids of the single
     * item type; when it answers with an array, its counters are added, its
     * messages kept, its redirect taken, and every id is marked done with
     * NO_ACTION. Fatal when the selection has no single resolvable type.
     */
    method ProcessLegacy(t: ItemType) returns (order: seq<Id>)
      requires remainings.Some? && items.Some? && t in items.value && !exited
      modifies this`remainings, this`done, this`results, this`nbDone, this`current, this`ticks, this`exited, this`messages
      modifies this`redirect, session`store
      ensures remainings.Some?
      ensures var r := LegacyAnswer(t);
              && (r.None? ==> LedgerOf() == old(LedgerOf()) && messages == old(messages) && redirect == old(redirect) && !exited)
              && (r.Some? ==>
                    && messages == old(messages) + Texts(r.value.messages)
                    && redirect == r.value.redirect.GetOr(old(redirect))
                    && exited == (clock(old(ticks)) > timeoutDelay)
                    && NoDup(order) && Elements(order) == items.value[t].Keys
                    && LedgerOf() == MarkDone(old(LedgerOf()).(results := MergeCounts(old(results), r.value)), t, order, NoAction))
      ensures session.store == if exited && identifier.Some? then old(session.store)[identifier.value := Snapshot()]
                               else old(session.store)
    {
      order := [];
      var r := LegacyAnswer(t);
      if r.Some? {
        MergeLegacy(r.value);
        ghost var merged := LedgerOf();
        order := KeysInOrder(items.value[t]);
        ItemDone(t, order, NoAction);
        assert LedgerOf() == MarkDone(merged, t, order, NoAction);
      }
    }

    /**
     * process: the new path through the run's processor, or the legacy path;
     * then the results with the redirect, and the identifier cleared so that
     * nothing is persisted any more.
     */
    method Process() returns (out: ProcessOutcome)
      requires !exited
      modifies this`remainings, this`done, this`results, this`nbDone, this`current, this`ticks, this`exited, this`messages
      modifies this`redirect, this`identifier, session`store, session`transfer
      ensures remainings.Some? == old(remainings).Some?
      ensures out.Suspended? <==> exited
      ensures out.Finished? ==> out == Finished(results, redirect) && identifier.None?
      ensures !out.Finished? ==> identifier == old(identifier)
      ensures out.Fatal? <==> old(GetRemainings()) != map[] && LegacyPath()
                              && (GetItemtype().None? || env.resolve(GetItemtype().value).None?)
      ensures old(GetRemainings()) == map[] ==>
                && out == Finished(old(results), old(redirect))
                && remainings == old(remainings) && done == old(done) && results == old(results) && nbDone == old(nbDone)
      ensures session.store == if out.Suspended? && identifier.Some? then old(session.store)[identifier.value := Snapshot()]
                               else old(session.store)
      ensures !LegacyPath() && old(Consistent()) ==> Consistent()
      ensures !LegacyPath() && old(Consistent()) && out.Finished? ==>
                forall u :: IdsOf(remainings.value, u) == Unprocessed(env, processor.value, action.GetOr(""), GetItemtype(), old(remainings).value, u)
    {
      if remainings.Some? && remainings.value != map[] {
        if !LegacyPath() {
          ProcessForSeveralItemtypes();
        } else {
          var t := GetItemtype();
          if t.None? || env.resolve(t.value).None? {
            return Fatal;
          }
          var _ := ProcessLegacy(t.value);
        }
        if exited {
          return Suspended;
        }
      }
      identifier := None;
      out := Finished(results, redirect);
    }

    /** The fields the constructor leaves for a POST that passed its stage. */
    ghost predicate Built(st: Staged, stage: Stage, freshId: int)
      reads this
    {
      && items == st.post.items && action == st.post.action && processor == st.post.processor
      && nbItems == st.nbItems
      && post == (if stage == AtProcess then WithoutProcessFields(st.post) else st.post)
      && (stage == AtProcess ==>
            && identifier == Some(freshId) && messages == [] && done == map[] && nbDone == 0
            && results == Results(0, 0, 0) && actionName == st.post.actionName
            && redirect == env.referer.GetOr(env.rootDoc + "/front/central.php")
            && remainings == items && current.None? && error.None?
            && timeoutDelay == TimeoutDelay(env.maxExecutionTime))
      && (stage != AtProcess ==>
            && identifier.None? && messages == [] && done == map[] && nbDone == 0 && results == Results(0, 0, 0)
            && actionName.None? && redirect == "" && remainings.None? && current.None? && error.None?)
    }

    /**
     * __construct: a non-empty POST goes through its stage; an empty one
     * resumes the run persisted under the identifier of the query.
     */
    static method Create(post: Post, getIdentifier: Option<int>, stage: Stage, session: Session, env: Env,
                         clock: nat -> int, freshId: int) returns (r: Result<MassiveAction, Failure>)
      modifies session`store, session`selected
      ensures r.Success? ==> fresh(r.value) && r.value.session == session && r.value.env == env && r.value.clock == clock
      ensures r.Success? ==> !r.value.exited && r.value.ticks == 0
      ensures post != EmptyPost ==> FromPostSpec(post, stage, session, env, freshId, r, old(session.store), old(session.selected))
      ensures post == EmptyPost ==> ResumeSpec(getIdentifier, stage, session, env, r, old(session.store), old(session.selected))
    {
      if post != EmptyPost {
        r := CreateFromPost(post, stage, session, env, clock, freshId);
      } else {
        r := Resume(getIdentifier, stage, session, env, clock);
      }
    }

    /** The constructor on a non-empty POST. */
    static method CreateFromPost(post: Post, stage: Stage, session: Session, env: Env,
                                 clock: nat -> int, freshId: int) returns (r: Result<MassiveAction, Failure>)
      requires post != EmptyPost
      modifies session`selected
      ensures r.Success? ==> fresh(r.value) && r.value.session == session && r.value.env == env && r.value.clock == clock
      ensures r.Success? ==> !r.value.exited && r.value.ticks == 0
      ensures FromPostSpec(post, stage, session, env, freshId, r, old(session.store), old(session.selected))
    {
      var p := if post.isDeleted.None? then post.(isDeleted := Some(false)) else post;
      if p.item.None? && p.items.None? {
        return Failure(NoSelectedItems);
      }
      var staged: Staged;
      if stage == AtInitial {
        var res := RunInitialStage(p, CatalogOf(env, p.isDeleted.value));
        if res.Failure? {
          return Failure(res.error);
        }
        staged := res.value;
      } else if stage == AtSpecialize {
        var res := RunSpecializeStage(p, ForbiddenOf(env));
        if res.Failure? {
          return Failure(res.error);
        }
        staged := res.value;
      } else if stage == AtProcess {
        session.selected := p.initialItems.GetOr(map[]);
        var n := CountItems(p.items.GetOr(map[]));
        staged := Staged(p, n);
      } else {
        staged := Staged(p, 0);
      }
      if staged.nbItems == 0 {
        return Failure(NoSelectedItems);
      }
      var ma := new MassiveAction.FromStage(session, env, clock, staged, stage, freshId);
      return Success(ma);
    }

    /** The constructor on an empty POST: the resume of a persisted run. */
    static method Resume(getIdentifier: Option<int>, stage: Stage, session: Session, env: Env,
                         clock: nat -> int) returns (r: Result<MassiveAction, Failure>)
      modifies session`store
      ensures r.Success? ==> fresh(r.value) && r.value.session == session && r.value.env == env && r.value.clock == clock
      ensures r.Success? ==> !r.value.exited && r.value.ticks == 0
      ensures ResumeSpec(getIdentifier, stage, session, env, r, old(session.store), old(session.selected))
    {
      if !Resumable(stage, getIdentifier, session.store) {
        return Failure(ImplementationError);
      }
      var id := getIdentifier.value;
      var run := session.store[id];
      var ma := new MassiveAction.Resumed(session, env, clock, run);
      if run.identifier != Some(id) {
        ma.error := Some("Invalid process");
        return Success(ma);
      }
      session.store := session.store - {id};
      ma.ProcessSetUp();
      return Success(ma);
    }

    /** The process-stage set-up: the remaining ids start as the selection when unset, and the delay is set. */
    method ProcessSetUp()
      modifies this`remainings, this`timeoutDelay
      ensures remainings == if old(remainings).Some? then old(remainings) else items
      ensures timeoutDelay == TimeoutDelay(env.maxExecutionTime)
    {
      if remainings.None? {
        remainings := items;
      }
      timeoutDelay := TimeoutDelay(env.maxExecutionTime);
    }
  }

  /**
   * The handle MassiveAction's processor sees for type `t`. The update branch
   * looks its search options up under getItemtype(false), passed as `lookup`
   * (None for `false`, when the selection has several types): only when
   * that is `t` itself is the plan the type's own.
   */
  function HandleFor(env: Env, lookup: Option<ItemType>, t: ItemType): Handle {
    if lookup == Some(t) then env.handle(t) else env.handle(t).(update := env.otherPlan(lookup, t))
  }

  /**
   * With a single selected type the update plan is that type's own; with
   * several, getItemtype(false) gives `false` and every type gets the plan
   * looked up under `false`.
   */
  lemma UpdatePlanLookup(env: Env, items: Selection, t: ItemType)
    requires t in items
    ensures items.Keys == {t} ==> HandleFor(env, SingleItemtype(Some(items)), t) == env.handle(t)
    ensures items.Keys != {t} ==> HandleFor(env, SingleItemtype(Some(items)), t) == env.handle(t).(update := env.otherPlan(None, t))
  {
    if items.Keys != {t} {
      var u :| u in items.Keys && u != t;
      assert {t, u} <= items.Keys;
      assert |{t, u}| == 2;
    }
  }

  /** What the processor of a run does with the ids of one type. */
  function ProcessWith(env: Env, clock: nat -> int, delay: int, processor: string, action: ActionId, lookup: Option<ItemType>,
                       p: Progress, t: ItemType, ids: seq<Id>): Progress {
    if processor == SelfProcessor then ProcessType(p, action, HandleFor(env, lookup, t), t, ids, clock, delay, env.rootDoc)
    else Steps(p, t, ids, ForeignDecider(processor, action, t, env.foreign), clock, delay)
  }

  /** The decision the processor of a run takes for each id of a type. */
  function DeciderFor(env: Env, processor: string, action: ActionId, lookup: Option<ItemType>, t: ItemType): Id -> Option<Decision> {
    if processor == SelfProcessor then CoreDecider(action, HandleFor(env, lookup, t))
    else ForeignDecider(processor, action, t, env.foreign)
  }

  /** The counters of a legacy handler's answer added to the run's. */
  function MergeCounts(r: Results, res: LegacyResult): Results {
    Results(r.ok + res.ok.GetOr(0), r.ko + res.ko.GetOr(0), r.noright + res.noright.GetOr(0))
  }

  /** A legacy handler's messages, as messages of the run. */
  function Texts(ms: seq<string>): seq<Message>
    decreases |ms|
  {
    if ms == [] then [] else Texts(ms[..|ms| - 1]) + [Text(ms[|ms| - 1])]
  }

  /** The ids the processor of a run leaves in the remaining ones of a type, once it has been through them all. */
  function Unprocessed(env: Env, processor: string, action: ActionId, lookup: Option<ItemType>, rem: Selection, t: ItemType): set<Id> {
    if t in rem && env.resolve(t).Some? then
      IdsOf(rem, t) - (set id | id in rem[t] && DeciderFor(env, processor, action, lookup, t)(id).Some?)
    else IdsOf(rem, t)
  }

  /** The keys of a map, each once, in some order. */
  method KeysInOrder(m: map<Id, Id>) returns (s: seq<Id>)
    ensures NoDup(s) && Elements(s) == m.Keys
  {
    s := [];
    var todo := m.Keys;
    while todo != {}
      invariant NoDup(s) && Elements(s) + todo == m.Keys && Elements(s) !! todo
      decreases |todo|
    {
      var id := PickOne(todo);
      NoDupAppend(s, [id]);
      assert Elements([id]) == {id};
      s := s + [id];
      todo := todo - {id};
    }
  }

  /** The ledger through the processor of a run, on distinct remaining ids of one type. */
  lemma ProcessWithLedger(items: Selection, env: Env, clock: nat -> int, delay: int, processor: string, action: ActionId, lookup: Option<ItemType>,
                          p: Progress, t: ItemType, ids: seq<Id>)
    requires Accounted(items, p.ledger) && t in items
    requires NoDup(ids) && Elements(ids) <= IdsOf(p.ledger.remainings, t)
    ensures var q := ProcessWith(env, clock, delay, processor, action, lookup, p, t, ids);
            && Accounted(items, q.ledger)
            && (forall u :: u != t ==> IdsOf(q.ledger.remainings, u) == IdsOf(p.ledger.remainings, u))
            && (!q.exited ==> IdsOf(q.ledger.remainings, t) == IdsOf(p.ledger.remainings, t) - Decided(ids, DeciderFor(env, processor, action, lookup, t)))
  {
    var d := DeciderFor(env, processor, action, lookup, t);
    if processor == SelfProcessor {
      var p1 := if action == "add_transfer_list" && t !in p.transfer then p.(transfer := p.transfer[t := map[]]) else p;
      StepsLedger(items, p1, t, ids, d, clock, delay);
    } else {
      StepsLedger(items, p, t, ids, d, clock, delay);
    }
  }

  /** The types not yet visited still have the remaining ids they had when the loop began. */
  ghost predicate Untouched(rem: Selection, snapshot: Selection, seen: set<ItemType>) {
    forall u :: u !in seen ==> IdsOf(rem, u) == IdsOf(snapshot, u)
  }

  /** The visited types have been through the run's processor. */
  ghost predicate Through(env: Env, processor: string, action: ActionId, lookup: Option<ItemType>, rem: Selection, snapshot: Selection, seen: set<ItemType>) {
    forall u :: u in seen ==> IdsOf(rem, u) == Unprocessed(env, processor, action, lookup, snapshot, u)
  }

  /** One type of processForSeveralItemtypes keeps the loop's invariant. */
  lemma SeveralStep(items: Selection, env: Env, clock: nat -> int, delay: int, processor: string, action: ActionId, lookup: Option<ItemType>,
                    snapshot: Selection, seen: set<ItemType>, p: Progress, t: ItemType, ids: seq<Id>)
    requires Accounted(items, p.ledger) && snapshot.Keys <= items.Keys
    requires t in snapshot && t !in seen && env.resolve(t).Some?
    requires NoDup(ids) && Elements(ids) == snapshot[t].Keys
    requires Untouched(p.ledger.remainings, snapshot, seen)
    requires !p.exited ==> Through(env, processor, action, lookup, p.ledger.remainings, snapshot, seen)
    ensures var q := ProcessWith(env, clock, delay, processor, action, lookup, p, t, ids);
            && Accounted(items, q.ledger)
            && Untouched(q.ledger.remainings, snapshot, seen + {t})
            && (!q.exited ==> Through(env, processor, action, lookup, q.ledger.remainings, snapshot, seen + {t}))
  {
    assert IdsOf(p.ledger.remainings, t) == IdsOf(snapshot, t);
    ProcessWithLedger(items, env, clock, delay, processor, action, lookup, p, t, ids);
    var q := ProcessWith(env, clock, delay, processor, action, lookup, p, t, ids);
    var d := DeciderFor(env, processor, action, lookup, t);
    assert Decided(ids, d) == (set id | id in snapshot[t] && d(id).Some?);
    if !q.exited {
      assert !p.exited by {
        StepsKeepExited(env, clock, delay, processor, action, lookup, p, t, ids);
      }
      forall u | u in seen + {t}
        ensures IdsOf(q.ledger.remainings, u) == Unprocessed(env, processor, action, lookup, snapshot, u)
      {
        if u != t {
          assert u in seen;
        }
      }
    }
  }

  /** An ended request stays ended. */
  lemma StepsKeepExited(env: Env, clock: nat -> int, delay: int, processor: string, action: ActionId, lookup: Option<ItemType>,
                        p: Progress, t: ItemType, ids: seq<Id>)
    ensures p.exited ==> ProcessWith(env, clock, delay, processor, action, lookup, p, t, ids).exited
  {
    if p.exited {
      var d := DeciderFor(env, processor, action, lookup, t);
      var p1 := if processor == SelfProcessor && action == "add_transfer_list" && t !in p.transfer
                then p.(transfer := p.transfer[t := map[]]) else p;
      StepsStopped(p1, t, ids, 0, d, clock, delay);
    }
  }

  /** A type that cannot be resolved is passed over. */
  lemma SeveralSkip(env: Env, processor: string, action: ActionId, lookup: Option<ItemType>, rem: Selection, snapshot: Selection,
                    seen: set<ItemType>, t: ItemType)
    requires t !in seen && env.resolve(t).None?
    requires Untouched(rem, snapshot, seen) && Through(env, processor, action, lookup, rem, snapshot, seen)
    ensures Untouched(rem, snapshot, seen + {t}) && Through(env, processor, action, lookup, rem, snapshot, seen + {t})
  {
    assert IdsOf(rem, t) == IdsOf(snapshot, t);
  }

  /** Once every type has been visited, all the remaining ids are the unprocessed ones. */
  lemma SeveralDone(env: Env, processor: string, action: ActionId, lookup: Option<ItemType>, rem: Selection, snapshot: Selection)
    requires Untouched(rem, snapshot, snapshot.Keys) && Through(env, processor, action, lookup, rem, snapshot, snapshot.Keys)
    ensures forall u :: IdsOf(rem, u) == Unprocessed(env, processor, action, lookup, snapshot, u)
  {
    forall u ensures IdsOf(rem, u) == Unprocessed(env, processor, action, lookup, snapshot, u) {
      if u !in snapshot.Keys {
        assert IdsOf(rem, u) == IdsOf(snapshot, u);
      }
    }
  }

  // ----- the constructor -----

  /** What the process stage removes from the POST once it has copied it. */
  function WithoutProcessFields(p: Post): Post {
    p.(items := None, action := None, actionName := None, processor := None, isDeleted := None,
       initialItems := None, extra := p.extra - {"massiveaction"})
  }

  /** The stage a non-empty POST with a selection goes through, and the number of items it counts. */
  ghost function StageOf(p: Post, stage: Stage, env: Env): Result<Staged, Failure>
    requires p.isDeleted.Some?
  {
    match stage
    case AtInitial => InitialStage(p, CatalogOf(env, p.isDeleted.value))
    case AtSpecialize =>
      var res := SpecializePost(p, ForbiddenOf(env));
      if res.Failure? then Failure(res.error)
      else
        TotalSizeNonNegative(res.value.items.GetOr(map[]));
        Success(Staged(res.value, TotalSize(res.value.items.GetOr(map[]))))
    case AtProcess =>
      TotalSizeNonNegative(p.items.GetOr(map[]));
      Success(Staged(p, TotalSize(p.items.GetOr(map[]))))
    case AtOther => Success(Staged(p, 0))
  }

  /** The constructor on a non-empty POST: the stage's POST and count, or the exception it throws. */
  ghost function Construct(post: Post, stage: Stage, env: Env): Result<Staged, Failure> {
    var p := if post.isDeleted.None? then post.(isDeleted := Some(false)) else post;
    if p.item.None? && p.items.None? then Failure(NoSelectedItems)
    else
      var st := StageOf(p, stage, env);
      if st.Failure? then st
      else if st.value.nbItems == 0 then Failure(NoSelectedItems)
      else st
  }

  /** An empty POST resumes only at the process stage, and only a run persisted under the identifier. */
  /**
   * An object built for the process stage from a selection stored as
   * id => id starts a run that keeps the bookkeeping invariant and the
   * counter balance: all its ids remain, nothing is done yet.
   */
  lemma BuiltConsistent(ma: MassiveAction, st: Staged, freshId: int)
    requires ma.Built(st, AtProcess, freshId)
    requires st.post.items.Some? && WellFormed(st.post.items.value)
    ensures ma.Consistent() && Balanced(ma.LedgerOf())
    ensures ma.GetRemainings() == ma.GetItems() && ma.nbDone == 0
  {
    FreshAccounted(st.post.items.value);
    assert ma.LedgerOf() == Fresh(st.post.items.value);
  }

  predicate Resumable(stage: Stage, getIdentifier: Option<int>, store: map<int, Run>) {
    stage == AtProcess && getIdentifier.Some? && getIdentifier.value in store
  }

  lemma TotalSizeNonNegative(sel: Selection)
    ensures TotalSize(sel) >= 0
  {
    SumOverNonNegative(sel.Keys, t => SizeOf(sel, t));
  }

  /**
   * The constructor on a non-empty POST: it succeeds exactly when the stage
   * does and counts items, with the fields the stage leaves; the process
   * stage replaces the selection to restore in the list.
   */
  ghost predicate FromPostSpec(post: Post, stage: Stage, session: Session, env: Env, freshId: int,
                               r: Result<MassiveAction, Failure>, store0: map<int, Run>, selected0: Selection)
    reads session, if r.Success? then {r.value} else {}
  {
    var c := Construct(post, stage, env);
    && (r.Success? <==> c.Success?)
    && (r.Failure? ==> r.error == c.error)
    && (r.Success? ==> r.value.Built(c.value, stage, freshId))
    && session.store == store0
    && session.selected == if stage == AtProcess && (post.item.Some? || post.items.Some?)
                           then post.initialItems.GetOr(map[]) else selected0
  }

  /**
   * The constructor on an empty POST: an error unless the run can be
   * resumed; an identifier that does not match the run's sets the error and
   * keeps the entry; otherwise the entry is removed, the remaining ids start
   * as the selection when unset, and the delay is set.
   */
  ghost predicate ResumeSpec(getIdentifier: Option<int>, stage: Stage, session: Session, env: Env,
                             r: Result<MassiveAction, Failure>, store0: map<int, Run>, selected0: Selection)
    reads session, if r.Success? then {r.value} else {}
  {
    && session.selected == selected0
    && (r.Failure? <==> !Resumable(stage, getIdentifier, store0))
    && (r.Failure? ==> r.error == ImplementationError && session.store == store0)
    && (r.Success? ==>
          var id := getIdentifier.value;
          var run := store0[id];
          if run.identifier != Some(id) then
            && r.value.Snapshot() == run.(error := Some("Invalid process"))
            && session.store == store0
          else
            && r.value.Snapshot() == run.(remainings := if run.remainings.Some? then run.remainings else run.items)
            && r.value.timeoutDelay == TimeoutDelay(env.maxExecutionTime)
            && session.store == store0 - {id})
  }

  // ----- properties of the constructor -----

  /** Neither raw checkboxes nor a selection: "No selected items", whatever the stage. */
  lemma NothingPosted(post: Post, stage: Stage, env: Env)
    requires post.item.None? && post.items.None?
    ensures Construct(post, stage, env) == Failure(NoSelectedItems)
  {
  }

  /** A stage other than the three known ones counts no item, so it always ends in "No selected items". */
  lemma UnknownStageRefused(post: Post, env: Env)
    ensures Construct(post, AtOther, env) == Failure(NoSelectedItems)
  {
  }

  /**
   * The initial stage fails with "No action available" when no action can be
   * offered, and otherwise with "No selected items" exactly when no checkbox
   * of any posted type is checked; on success nb_items is the number of
   * checked boxes and the selection holds each type's checked ids.
   */
  lemma InitialStageErrors(post: Post, env: Env)
    requires post.item.Some? && DistinctTypes(post.item.value)
    ensures var c := Construct(post, AtInitial, env);
            var rows := post.item.value;
            var noAction := BaseActions(post) == map[]
                            && (post.specificActions.Some? || !SomeCatalogOffers(rows, CatalogOf(env, post.isDeleted.GetOr(false))));
            && (c == Failure(NoActionAvailable) <==> noAction)
            && (c == Failure(NoSelectedItems) <==> !noAction && forall k :: 0 <= k < |rows| ==> Checked(rows[k].1) == map[])
            && (c.Success? ==>
                  && c.value.post.items.Some? && c.value.post.items.value.Keys == RowTypes(rows)
                  && (forall k :: 0 <= k < |rows| ==> c.value.post.items.value[rows[k].0] == Checked(rows[k].1))
                  && c.value.nbItems == TotalSize(c.value.post.items.value))
  {
    var p := if post.isDeleted.None? then post.(isDeleted := Some(false)) else post;
    var catalogOf := CatalogOf(env, p.isDeleted.value);
    InitialStageSpec(p, catalogOf);
    NothingChecked(post.item.value, BaseActions(p), p.specificActions.Some?, catalogOf);
  }

  /** nb_items of the initial stage is zero exactly when no posted checkbox is checked. */
  lemma {:induction false} NothingChecked(rows: seq<Row>, base: map<ActionId, Label>, specific: bool,
                                          catalogOf: ItemType -> Option<map<ActionId, Label>>)
    ensures Gather(rows, base, specific, catalogOf).nbItems == 0 <==> forall k :: 0 <= k < |rows| ==> Checked(rows[k].1) == map[]
    decreases |rows|
  {
    if rows != [] {
      var n := |rows| - 1;
      var front := rows[..n];
      NothingChecked(front, base, specific, catalogOf);
      var sel := Checked(rows[n].1);
      GatherCount(rows, base, specific, catalogOf);
      assert |sel| == 0 <==> sel == map[];
      if Gather(rows, base, specific, catalogOf).nbItems == 0 {
        assert Gather(front, base, specific, catalogOf).nbItems == 0 && sel == map[];
        forall k | 0 <= k < |rows|
          ensures Checked(rows[k].1) == map[]
        {
          if k < n {
            assert front[k] == rows[k];
            assert Checked(front[k].1) == map[];
          } else {
            assert k == n;
          }
        }
      }
    }
  }

  /** The last row adds its checked boxes to nb_items. */
  lemma GatherCount(rows: seq<Row>, base: map<ActionId, Label>, specific: bool,
                    catalogOf: ItemType -> Option<map<ActionId, Label>>)
    requires rows != []
    ensures Gather(rows, base, specific, catalogOf).nbItems
            == Gather(rows[..|rows| - 1], base, specific, catalogOf).nbItems + |Checked(rows[|rows| - 1].1)|
  {
  }

  /**
   * The process stage accepts a POST exactly when its selection holds at
   * least one id, and counts them all.
   */
  lemma ProcessStageCount(post: Post, env: Env)
    ensures var c := Construct(post, AtProcess, env);
            && (c.Success? <==> post.items.Some? && exists t :: t in post.items.value && post.items.value[t] != map[])
            && (c.Failure? ==> c.error == NoSelectedItems)
            && (c.Success? ==> c.value.nbItems == TotalSize(post.items.value) && c.value.post.items == post.items)
  {
    if post.items.Some? {
      var sel := post.items.value;
      SumOverPositive(sel.Keys, t => SizeOf(sel, t));
      forall t | t in sel
        ensures SizeOf(sel, t) > 0 <==> sel[t] != map[]
      {
        assert |sel[t]| == 0 <==> sel[t] == map[];
      }
    }
  }

  // ----- properties of processing -----

  /** The actions for which MassiveAction's processor decides every id: all it knows, but an update without search option. */
  predicate DecidesEvery(action: ActionId, h: Handle) {
    || action in {"delete", "restore", "purge", "purge_item_but_devices", "add_transfer_list"}
    || (action == "update" && !h.update.NoSearchOption?)
  }

  /**
   * A run of MassiveAction's processor over types that all resolve, with an
   * action it decides for every id, leaves no id remaining once it finishes:
   * every type's done list then holds exactly its selected ids, once each,
   * and nb_done equals nb_items.
   */
  lemma CoreRunCompletes(env: Env, action: ActionId, lookup: Option<ItemType>, items: Selection, rem0: Selection, l: Ledger)
    requires Accounted(items, l)
    requires forall u :: u in rem0 ==> env.resolve(u).Some? && DecidesEvery(action, HandleFor(env, lookup, u))
    requires forall u :: IdsOf(l.remainings, u) == Unprocessed(env, SelfProcessor, action, lookup, rem0, u)
    ensures forall u :: u in l.remainings ==> l.remainings[u] == map[]
    ensures forall t :: t in items ==> Elements(DoneOf(l, t)) == items[t].Keys && NoDup(DoneOf(l, t))
    ensures l.nbDone == TotalSize(items)
  {
    forall u | u in l.remainings
      ensures l.remainings[u] == map[]
    {
      NothingUnprocessed(env, action, lookup, rem0, u);
      assert l.remainings[u].Keys == IdsOf(l.remainings, u) == {};
    }
    Completion(items, l);
  }

  /** A type MassiveAction's processor resolves and decides every id of leaves none unprocessed. */
  lemma NothingUnprocessed(env: Env, action: ActionId, lookup: Option<ItemType>, rem0: Selection, u: ItemType)
    requires u in rem0 ==> env.resolve(u).Some? && DecidesEvery(action, HandleFor(env, lookup, u))
    ensures Unprocessed(env, SelfProcessor, action, lookup, rem0, u) == {}
  {
    if u in rem0 {
      var d := DeciderFor(env, SelfProcessor, action, lookup, u);
      forall id | id in rem0[u]
        ensures d(id).Some?
      {
        CoreDecidesEvery(action, HandleFor(env, lookup, u), id);
      }
    }
  }

  /** The actions of DecidesEvery yield a decision for every id. */
  lemma CoreDecidesEvery(action: ActionId, h: Handle, id: Id)
    requires DecidesEvery(action, h)
    ensures CoreDecider(action, h)(id).Some?
  {
  }

  /** MassiveAction's processor keeps ok + ko + noright equal to nb_done. */
  lemma CoreKeepsBalance(env: Env, clock: nat -> int, delay: int, action: ActionId, lookup: Option<ItemType>, p: Progress, t: ItemType, ids: seq<Id>)
    requires Balanced(p.ledger)
    ensures Balanced(ProcessWith(env, clock, delay, SelfProcessor, action, lookup, p, t, ids).ledger)
  {
    var h := HandleFor(env, lookup, t);
    forall id | id in ids && CoreDecider(action, h)(id).Some?
      ensures CoreDecider(action, h)(id).value.outcome != NoAction
    {
      CoreOutcomes(action, h, id);
    }
    var p1 := if action == "add_transfer_list" && t !in p.transfer then p.(transfer := p.transfer[t := map[]]) else p;
    StepsCount(p1, t, ids, CoreDecider(action, h), clock, delay);
  }

  // ----- the legacy path's marking (see the Findings of the README) -----

  /** What itemDone receives on the legacy path as written: the values of array_fill_keys(ids, 1), all 1. */
  function FilledWithOnes(ids: seq<Id>): seq<Id> {
    seq(|ids|, _ => 1)
  }

  /**
   * As written, the legacy path marks id 1 once per selected id: for a
   * selection of ids 5 and 7 nothing leaves the remaining ids, the done list
   * records 1 twice, and the bookkeeping invariant is broken.
   */
  lemma LegacyMarkingAsWritten()
    ensures var items := map["Computer" := map[5 := 5, 7 := 7]];
            var l := MarkDone(Fresh(items), "Computer", FilledWithOnes([5, 7]), NoAction);
            && l.remainings == items
            && DoneOf(l, "Computer") == [1, 1]
            && l.nbDone == 2
            && !Accounted(items, l)
  {
    var items := map["Computer" := map[5 := 5, 7 := 7]];
    var ones := FilledWithOnes([5, 7]);
    assert ones == [1, 1];
    assert Elements(ones) == {1};
    var rest := items["Computer"] - Elements(ones);
    assert rest == items["Computer"];
    assert 5 in rest;
    var l := MarkDone(Fresh(items), "Computer", ones, NoAction);
    assert l.remainings == items["Computer" := rest];
    assert DoneOf(l, "Computer") == [1, 1];
    assert 1 in Elements(DoneOf(l, "Computer"));
    assert 1 !in items["Computer"].Keys;
    assert 1 in IdsOf(l.remainings, "Computer") + Elements(DoneOf(l, "Computer"));
  }

  /**
   * Marking the checked ids themselves, as the legacy path means to, on a
   * single-type run where nothing was done yet, completes the run: no id
   * remains, each is done once, nb_done equals nb_items, and the counters
   * are left as the handler set them.
   */
  lemma LegacyMarkingCompletes(items: Selection, l: Ledger, t: ItemType, order: seq<Id>)
    requires Accounted(items, l) && items.Keys == {t}
    requires IdsOf(l.remainings, t) == items[t].Keys
    requires NoDup(order) && Elements(order) == items[t].Keys
    ensures var l' := MarkDone(l, t, order, NoAction);
            && Accounted(items, l')
            && l'.remainings == map[]
            && l'.results == l.results
            && l'.nbDone == TotalSize(items)
  {
    var l' := MarkDone(l, t, order, NoAction);
    MarkDonePreserves(items, l, t, order, NoAction);
    MarkDoneShape(l, t, order, NoAction);
    if t in l.remainings {
      var rest := l.remainings[t] - Elements(order);
      assert rest.Keys == {};
      assert rest == map[];
    }
    assert l'.remainings == l.remainings - {t};
    assert l.remainings.Keys <= {t};
    assert l'.remainings == map[];
    Completion(items, l');
  }
}
