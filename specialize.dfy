/**
 * The specialize stage of the constructor: the chosen action is named, the
 * selection is narrowed to the types that offered the action and do not
 * forbid it, optionally to a single type, and the processor is split off the
 * action id.
 */
module Specialize {
  import opened Wrappers
  import opened MassiveTypes
  import opened PhpStrings
  import opened Sums
  import opened Initial

  /** The types of `items` that are in `types`, with their ids unchanged. */
  function Keep(items: Selection, types: set<ItemType>): Selection {
    map t | t in items && t in types :: items[t]
  }

  /**
   * The narrowing by action_filter: an action the caller gave is exempt; an
   * action with a filter entry keeps only the types listed there.
   */
  function FilterByAction(items: Selection, post: Post, action: ActionId): Selection {
    if post.dontFilterFor.Some? && action in post.dontFilterFor.value then items
    else if post.actionFilter.Some? && action in post.actionFilter.value then Keep(items, post.actionFilter.value[action])
    else items
  }

  /**
   * The types that can be resolved and do not forbid the action; `forbiddenOf`
   * gives None for a type that cannot be resolved, else its forbidden standard
   * actions.
   */
  function Allowed(items: Selection, action: ActionId, forbiddenOf: ItemType -> Option<set<ActionId>>): Selection {
    map t | t in items && forbiddenOf(t).Some? && action !in forbiddenOf(t).value :: items[t]
  }

  /** The selection reduced to the single type `t` (empty when `t` is not selected). */
  function OnlyType(items: Option<Selection>, t: ItemType): Selection {
    if items.Some? && t in items.value then map[t := items.value[t]] else map[]
  }

  /** The form once the action is named and the selection filtered (when the actions were posted). */
  function NameAndFilter(post: Post, action: ActionId, forbiddenOf: ItemType -> Option<set<ActionId>>): Post
    requires post.actions.Some? ==> action in post.actions.value
  {
    if post.actions.Some? then
      var items := FilterByAction(post.items.GetOr(map[]), post, action);
      post.(actionName := Some(post.actions.value[action]), items := Some(Allowed(items, action, forbiddenOf)),
            actions := None, dontFilterFor := None, actionFilter := None)
    else post
  }

  /** The form once specialize_itemtype is applied and removed. */
  function SpecializeType(post: Post): Post {
    if post.specializeItemtype.Some? then
      post.(items := Some(OnlyType(post.items, post.specializeItemtype.value)), specializeItemtype := None)
    else post
  }

  /** The form once the processor is extracted from the action, when none was posted. */
  function ExtractProcessor(post: Post, action: ActionId): Post {
    if post.processor.None? then
      var s := SplitProcessor(action);
      post.(processor := Some(s.processor), action := Some(s.action))
    else post
  }

  /**
   * The specialize stage: no action is an implementation error, the action
   * "-1" (none chosen) ends the request, and an action that is not among the
   * posted actions is an implementation error.
   */
  function SpecializePost(post: Post, forbiddenOf: ItemType -> Option<set<ActionId>>): Result<Post, Failure> {
    if post.action.None? then Failure(ImplementationError)
    else if post.action.value == "-1" then Failure(Exit)
    else if post.actions.Some? && post.action.value !in post.actions.value then Failure(ImplementationError)
    else
      var action := post.action.value;
      Success(ExtractProcessor(SpecializeType(NameAndFilter(post, action, forbiddenOf)), action))
  }

  // ----- the loops of the stage -----

  /** The loop over action_filter[action] that keeps the listed types. */
  method KeepTypes(items: Selection, types: set<ItemType>) returns (kept: Selection)
    ensures kept == Keep(items, types)
  {
    kept := map[];
    var todo := types;
    ghost var seen: set<ItemType> := {};
    while todo != {}
      invariant seen + todo == types && seen !! todo
      invariant kept == Keep(items, seen)
      decreases todo
    {
      var t := PickOne(todo);
      if t in items {
        kept := kept[t := items[t]];
      }
      todo := todo - {t};
      seen := seen + {t};
    }
  }

  /** The loop that drops the types that cannot be resolved or forbid the action. */
  method DropForbidden(items: Selection, action: ActionId, forbiddenOf: ItemType -> Option<set<ActionId>>)
    returns (kept: Selection)
    ensures kept == Allowed(items, action, forbiddenOf)
  {
    kept := map[];
    var todo := items.Keys;
    ghost var seen: set<ItemType> := {};
    while todo != {}
      invariant seen + todo == items.Keys && seen !! todo
      invariant kept == Allowed(Keep(items, seen), action, forbiddenOf)
      decreases todo
    {
      var t := PickOne(todo);
      var forbidden := forbiddenOf(t);
      if forbidden.Some? && action !in forbidden.value {
        kept := kept[t := items[t]];
      }
      todo := todo - {t};
      seen := seen + {t};
    }
    assert Keep(items, seen) == items;
  }

  /** The loop that counts the selected ids (`nb_items += count($ids)`). */
  method CountItems(items: Selection) returns (n: nat)
    ensures n == TotalSize(items)
  {
    n := 0;
    var todo := items.Keys;
    ghost var seen: set<ItemType> := {};
    while todo != {}
      invariant seen + todo == items.Keys && seen !! todo
      invariant n == SumOver(seen, t => SizeOf(items, t))
      decreases todo
    {
      var t := PickOne(todo);
      CountStep(items, seen, t);
      n := n + |items[t]|;
      todo := todo - {t};
      seen := seen + {t};
    }
  }

  /** One more type adds its ids to the count. */
  lemma CountStep(items: Selection, seen: set<ItemType>, t: ItemType)
    requires t in items && t !in seen
    ensures SumOver(seen + {t}, u => SizeOf(items, u)) == SumOver(seen, u => SizeOf(items, u)) + |items[t]|
  {
    SumOverInsert(seen, u => SizeOf(items, u), t);
  }

  /** The specialize stage as the constructor runs it, with nb_items. */
  method RunSpecializeStage(post: Post, forbiddenOf: ItemType -> Option<set<ActionId>>) returns (r: Result<Staged, Failure>)
    ensures var spec := SpecializePost(post, forbiddenOf);
            && (r.Success? <==> spec.Success?)
            && (r.Failure? ==> r.error == spec.error)
            && (r.Success? ==> r.value.post == spec.value
                               && r.value.nbItems == TotalSize(spec.value.items.GetOr(map[])))
  {
    if post.action.None? {
      return Failure(ImplementationError);
    }
    var action := post.action.value;
    if action == "-1" {
      return Failure(Exit);
    }
    var p := post;
    if p.actions.Some? {
      if action !in p.actions.value {
        return Failure(ImplementationError);
      }
      var items := if p.items.Some? then p.items.value else map[];
      if !(p.dontFilterFor.Some? && action in p.dontFilterFor.value) {
        if p.actionFilter.Some? && action in p.actionFilter.value {
          items := KeepTypes(items, p.actionFilter.value[action]);
        }
      }
      items := DropForbidden(items, action, forbiddenOf);
      p := p.(actionName := Some(p.actions.value[action]), items := Some(items),
              actions := None, dontFilterFor := None, actionFilter := None);
    }
    p := SpecializeType(p);
    p := ExtractProcessor(p, action);
    var n := 0;
    if p.items.Some? {
      n := CountItems(p.items.value);
    } else {
      assert TotalSize(map[]) == 0;
    }
    r := Success(Staged(p, n));
  }

  // ----- properties of the stage -----

  /**
   * The failures of the stage: no action, or one the posted actions do not
   * name, is an implementation error; "-1" ends the request.
   */
  lemma SpecializeFailures(post: Post, forbiddenOf: ItemType -> Option<set<ActionId>>)
    ensures SpecializePost(post, forbiddenOf) == Failure(Exit) <==> post.action == Some("-1")
    ensures SpecializePost(post, forbiddenOf) == Failure(ImplementationError)
            <==> post.action.None?
                 || (post.action.value != "-1" && post.actions.Some? && post.action.value !in post.actions.value)
    ensures SpecializePost(post, forbiddenOf).Failure? ==>
              SpecializePost(post, forbiddenOf).error in {Exit, ImplementationError}
  {
  }

  /** A type survives the filtering by action_filter and by the forbidden actions exactly when it may run the action. */
  predicate Survives(post: Post, action: ActionId, forbiddenOf: ItemType -> Option<set<ActionId>>, t: ItemType) {
    && post.items.Some? && t in post.items.value
    && (post.actions.Some? ==>
          && ((post.dontFilterFor.Some? && action in post.dontFilterFor.value)
              || !(post.actionFilter.Some? && action in post.actionFilter.value)
              || t in post.actionFilter.value[action])
          && forbiddenOf(t).Some? && action !in forbiddenOf(t).value)
    && (post.specializeItemtype.Some? ==> t == post.specializeItemtype.value)
  }

  /**
   * After the stage the selection holds exactly the types that survive, each
   * with all its posted ids; the action is named by its posted label, the
   * working fields leave the form, and nb_items counts the ids left.
   */
  lemma SpecializeSelection(post: Post, forbiddenOf: ItemType -> Option<set<ActionId>>, t: ItemType)
    requires SpecializePost(post, forbiddenOf).Success?
    ensures var p := SpecializePost(post, forbiddenOf).value;
            var action := post.action.value;
            && (p.items.Some? && t in p.items.value <==> Survives(post, action, forbiddenOf, t))
            && (p.items.Some? && t in p.items.value ==> p.items.value[t] == post.items.value[t])
    ensures var p := SpecializePost(post, forbiddenOf).value;
            && p.specializeItemtype.None?
            && (post.actions.Some? ==>
                  && p.actionName == Some(post.actions.value[post.action.value])
                  && p.actions.None? && p.dontFilterFor.None? && p.actionFilter.None?)
            && (post.actions.None? && post.specializeItemtype.None? ==> p.items == post.items)
  {
  }

  /** Filtering keeps every selected id stored under itself. */
  lemma SpecializeWellFormed(post: Post, forbiddenOf: ItemType -> Option<set<ActionId>>)
    requires SpecializePost(post, forbiddenOf).Success?
    requires post.items.Some? ==> WellFormed(post.items.value)
    ensures var p := SpecializePost(post, forbiddenOf).value;
            p.items.Some? ==> WellFormed(p.items.value)
  {
    var p := SpecializePost(post, forbiddenOf).value;
    if p.items.Some? {
      forall t, id | t in p.items.value && id in p.items.value[t] ensures p.items.value[t][id] == id {
        SpecializeSelection(post, forbiddenOf, t);
      }
    }
  }

  /**
   * The processor: a posted one is kept with the action; otherwise an action
   * id with exactly one ':' is split into processor and bare action, which
   * join back into the posted id, and any other id runs with the empty
   * processor.
   */
  lemma SpecializeProcessor(post: Post, forbiddenOf: ItemType -> Option<set<ActionId>>)
    requires SpecializePost(post, forbiddenOf).Success?
    ensures var p := SpecializePost(post, forbiddenOf).value;
            var action := post.action.value;
            && p.processor.Some? && p.action.Some?
            && (post.processor.Some? ==> p.processor == post.processor && p.action == post.action)
            && (post.processor.None? && CountChar(action, ClassActionSeparator) == 1 ==>
                  p.processor.value + [ClassActionSeparator] + p.action.value == action
                  && ClassActionSeparator !in p.processor.value && ClassActionSeparator !in p.action.value)
            && (post.processor.None? && CountChar(action, ClassActionSeparator) != 1 ==>
                  p.processor == Some("") && p.action == post.action)
  {
  }
}
