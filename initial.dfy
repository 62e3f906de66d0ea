/**
 * The initial stage of the constructor: the raw checkboxes become the
 * selection, and the catalogs of the selected item types are united into the
 * list of actions to propose, remembering which types offered each action.
 */
module Initial {
  import opened Wrappers
  import opened MassiveTypes
  import opened Sums

  /** One posted item type with its checkboxes. */
  type Row = (ItemType, Checkboxes)

  /** The ids whose checkbox equals 1, each stored under itself. */
  function Checked(boxes: Checkboxes): (sel: map<Id, Id>)
    ensures forall id :: id in sel <==> id in boxes && boxes[id] == 1
    ensures forall id :: id in sel ==> sel[id] == id
  {
    map id | id in boxes && boxes[id] == 1 :: id
  }

  /**
   * The inner loop of the initial stage: keeps the checked ids and counts
   * them (the `nb_items++` of the source).
   */
  method SelectChecked(boxes: Checkboxes) returns (sel: map<Id, Id>, n: nat)
    ensures sel == Checked(boxes)
    ensures n == |sel|
  {
    sel := map[];
    n := 0;
    var todo := boxes.Keys;
    ghost var seen: set<Id> := {};
    while todo != {}
      invariant seen + todo == boxes.Keys && seen !! todo
      invariant sel == CheckedAmong(boxes, seen)
      invariant n == |sel|
      decreases todo
    {
      var id := PickOne(todo);
      CheckedAmongStep(boxes, seen, id);
      if boxes[id] == 1 {
        sel := sel[id := id];
        n := n + 1;
      }
      todo := todo - {id};
      seen := seen + {id};
    }
    assert sel == Checked(boxes);
  }

  /** The checked ids among `seen`. */
  function CheckedAmong(boxes: Checkboxes, seen: set<Id>): map<Id, Id> {
    map id | id in seen && id in boxes && boxes[id] == 1 :: id
  }

  lemma CheckedAmongStep(boxes: Checkboxes, seen: set<Id>, id: Id)
    requires id !in seen && id in boxes
    ensures id !in CheckedAmong(boxes, seen)
    ensures CheckedAmong(boxes, seen + {id})
            == if boxes[id] == 1 then CheckedAmong(boxes, seen)[id := id] else CheckedAmong(boxes, seen)
  {
  }

  /** What the initial stage accumulates over the posted item types. */
  datatype Gathered = Gathered(
    items: Selection,
    actions: map<ActionId, Label>,
    filter: map<ActionId, set<ItemType>>,   // action_filter: the types that offered each action
    nbItems: nat)

  /** Records `t` as a type offering each of `offered`. */
  function AddFilter(filter: map<ActionId, set<ItemType>>, offered: set<ActionId>, t: ItemType): map<ActionId, set<ItemType>> {
    map a | a in filter.Keys + offered :: (if a in filter then filter[a] else {}) + (if a in offered then {t} else {})
  }

  /**
   * One posted item type: its checked ids join the selection; unless the
   * actions are the specific ones, its catalog (None for a type that cannot
   * be resolved) joins the actions, its labels overriding earlier ones.
   */
  function GatherRow(g: Gathered, row: Row, cat: Option<map<ActionId, Label>>, specific: bool): Gathered {
    var sel := Checked(row.1);
    var g1 := g.(items := g.items[row.0 := sel], nbItems := g.nbItems + |sel|);
    if specific || cat.None? then g1
    else g1.(actions := g1.actions + cat.value, filter := AddFilter(g1.filter, cat.value.Keys, row.0))
  }

  /** The initial stage over the posted rows, in order, starting from the `base` actions. */
  function Gather(rows: seq<Row>, base: map<ActionId, Label>, specific: bool,
                  catalogOf: ItemType -> Option<map<ActionId, Label>>): Gathered
    decreases |rows|
  {
    if rows == [] then Gathered(map[], base, map[], 0)
    else
      var last := rows[|rows| - 1];
      GatherRow(Gather(rows[..|rows| - 1], base, specific, catalogOf), last, catalogOf(last.0), specific)
  }

  /**
   * The loop of the initial stage over the posted item types, with the inner
   * loop over each catalog that appends the type to action_filter and sets
   * the action's label.
   */
  method GatherRows(rows: seq<Row>, base: map<ActionId, Label>, specific: bool,
                    catalogOf: ItemType -> Option<map<ActionId, Label>>) returns (g: Gathered)
    ensures g == Gather(rows, base, specific, catalogOf)
  {
    g := Gathered(map[], base, map[], 0);
    var i := 0;
    while i < |rows|
      invariant 0 <= i <= |rows|
      invariant g == Gather(rows[..i], base, specific, catalogOf)
    {
      var (t, boxes) := rows[i];
      var sel, n := SelectChecked(boxes);
      var next := g.(items := g.items[t := sel], nbItems := g.nbItems + n);
      if !specific {
        var cat := catalogOf(t);
        if cat.Some? {
          var actions, filter := MergeCatalog(g.actions, g.filter, cat.value, t);
          next := next.(actions := actions, filter := filter);
        }
      }
      assert rows[..i + 1][..i] == rows[..i];
      g := next;
      i := i + 1;
    }
    assert rows[..i] == rows;
  }

  /**
   * The merge of one catalog: array_merge keeps the posted label of an action
   * already proposed, then the loop over the catalog sets each offered label
   * and appends the type to the action's filter entry.
   */
  method MergeCatalog(actions0: map<ActionId, Label>, filter0: map<ActionId, set<ItemType>>,
                      offered: map<ActionId, Label>, t: ItemType)
    returns (actions: map<ActionId, Label>, filter: map<ActionId, set<ItemType>>)
    ensures actions == actions0 + offered
    ensures filter == AddFilter(filter0, offered.Keys, t)
  {
    actions := offered + actions0;
    filter := filter0;
    var todo := offered.Keys;
    ghost var seen: set<ActionId> := {};
    AddFilterNone(filter0, t);
    assert Restrict(offered, {}) == map[];
    while todo != {}
      invariant seen + todo == offered.Keys && seen !! todo
      invariant filter == AddFilter(filter0, seen, t)
      invariant actions == (offered + actions0) + Restrict(offered, seen)
      decreases todo
    {
      var a := PickOne(todo);
      AddFilterStep(filter0, seen, t, a);
      RestrictStep(offered + actions0, offered, seen, a);
      filter := filter[a := (if a in filter then filter[a] else {}) + {t}];
      actions := actions[a := offered[a]];
      todo := todo - {a};
      seen := seen + {a};
    }
    RestrictAll(offered + actions0, actions0, offered);
  }

  /** The entries of `m` whose keys are in `keys`. */
  function Restrict(m: map<ActionId, Label>, keys: set<ActionId>): map<ActionId, Label> {
    map k | k in keys && k in m :: m[k]
  }

  lemma RestrictStep(base: map<ActionId, Label>, m: map<ActionId, Label>, seen: set<ActionId>, a: ActionId)
    requires a in m
    ensures (base + Restrict(m, seen))[a := m[a]] == base + Restrict(m, seen + {a})
  {
    var l := (base + Restrict(m, seen))[a := m[a]];
    var r := base + Restrict(m, seen + {a});
    assert l.Keys == r.Keys;
    forall k | k in l ensures l[k] == r[k] {
    }
  }

  lemma RestrictAll(merged: map<ActionId, Label>, actions0: map<ActionId, Label>, m: map<ActionId, Label>)
    requires merged == m + actions0
    ensures merged + Restrict(m, m.Keys) == actions0 + m
  {
    var l := merged + Restrict(m, m.Keys);
    var r := actions0 + m;
    assert l.Keys == r.Keys;
    forall k | k in l ensures l[k] == r[k] {
    }
  }

  lemma AddFilterNone(filter: map<ActionId, set<ItemType>>, t: ItemType)
    ensures AddFilter(filter, {}, t) == filter
  {
    var l := AddFilter(filter, {}, t);
    assert l.Keys == filter.Keys;
    forall k | k in l ensures l[k] == filter[k] {
    }
  }

  lemma AddFilterStep(filter: map<ActionId, set<ItemType>>, seen: set<ActionId>, t: ItemType, a: ActionId)
    requires a !in seen
    ensures var f := AddFilter(filter, seen, t);
            AddFilter(filter, seen + {a}, t) == f[a := (if a in f then f[a] else {}) + {t}]
  {
    var f := AddFilter(filter, seen, t);
    var l := AddFilter(filter, seen + {a}, t);
    var r := f[a := (if a in f then f[a] else {}) + {t}];
    assert l.Keys == r.Keys;
    forall k | k in l ensures l[k] == r[k] {
    }
  }

  // ----- properties of the initial stage -----

  /** The item types of the posted rows. */
  function RowTypes(rows: seq<Row>): set<ItemType> {
    set k | 0 <= k < |rows| :: rows[k].0
  }

  /** The posted item types are distinct (they are the keys of a PHP array). */
  predicate DistinctTypes(rows: seq<Row>) {
    forall i, j :: 0 <= i < j < |rows| ==> rows[i].0 != rows[j].0
  }

  /**
   * The selection holds, for each posted type, exactly its checked ids stored
   * as `id => id`, and nb_items is the number of selected ids.
   */
  lemma {:induction false} GatherSelection(rows: seq<Row>, base: map<ActionId, Label>, specific: bool,
                                           catalogOf: ItemType -> Option<map<ActionId, Label>>)
    requires DistinctTypes(rows)
    ensures var g := Gather(rows, base, specific, catalogOf);
            && g.items.Keys == RowTypes(rows)
            && (forall k :: 0 <= k < |rows| ==> g.items[rows[k].0] == Checked(rows[k].1))
            && WellFormed(g.items)
            && g.nbItems == TotalSize(g.items)
    decreases |rows|
  {
    if rows == [] {
      assert RowTypes(rows) == {};
    } else {
      var n := |rows| - 1;
      var prefix := rows[..n];
      assert DistinctTypes(prefix);
      GatherSelection(prefix, base, specific, catalogOf);
      RowTypesSnoc(rows);
      GatherSnoc(rows, base, specific, catalogOf);
      var gp := Gather(prefix, base, specific, catalogOf);
      SelectionSnoc(rows, gp.items, Gather(rows, base, specific, catalogOf).items);
      TotalSizeInsert(gp.items, rows[n].0, Checked(rows[n].1));
    }
  }

  /** The per-row facts carry over when the last row's selection is added. */
  lemma SelectionSnoc(rows: seq<Row>, before: Selection, after: Selection)
    requires rows != [] && DistinctTypes(rows)
    requires var n := |rows| - 1;
             && before.Keys == RowTypes(rows[..n])
             && (forall k :: 0 <= k < n ==> before[rows[..n][k].0] == Checked(rows[..n][k].1))
             && WellFormed(before)
             && after == before[rows[n].0 := Checked(rows[n].1)]
    ensures rows[|rows| - 1].0 !in before
    ensures forall k :: 0 <= k < |rows| ==> rows[k].0 in after && after[rows[k].0] == Checked(rows[k].1)
    ensures WellFormed(after)
  {
    var n := |rows| - 1;
    forall k | 0 <= k < |rows| ensures rows[k].0 in after && after[rows[k].0] == Checked(rows[k].1) {
      if k < n {
        assert rows[..n][k] == rows[k];
        assert rows[k].0 in RowTypes(rows[..n]);
      }
    }
  }

  lemma GatherSnoc(rows: seq<Row>, base: map<ActionId, Label>, specific: bool,
                   catalogOf: ItemType -> Option<map<ActionId, Label>>)
    requires rows != []
    ensures var gp := Gather(rows[..|rows| - 1], base, specific, catalogOf);
            var g := Gather(rows, base, specific, catalogOf);
            var last := rows[|rows| - 1];
            && g.items == gp.items[last.0 := Checked(last.1)]
            && g.nbItems == gp.nbItems + |Checked(last.1)|
  {
  }

  lemma RowTypesSnoc(rows: seq<Row>)
    requires rows != []
    ensures RowTypes(rows) == RowTypes(rows[..|rows| - 1]) + {rows[|rows| - 1].0}
  {
    var n := |rows| - 1;
    forall x | x in RowTypes(rows) ensures x in RowTypes(rows[..n]) + {rows[n].0} {
      var k :| 0 <= k < |rows| && rows[k].0 == x;
      if k < n { assert rows[..n][k].0 == x; }
    }
  }

  /** Adding a new item type to a selection adds its ids to the total. */
  lemma TotalSizeInsert(sel: Selection, t: ItemType, ids: map<Id, Id>)
    requires t !in sel
    ensures TotalSize(sel[t := ids]) == TotalSize(sel) + |ids|
  {
    var sel' := sel[t := ids];
    var f := (u: ItemType) => SizeOf(sel, u);
    var f' := (u: ItemType) => SizeOf(sel', u);
    SumOverCongruent(sel.Keys, f, f');
    SumOverInsert(sel.Keys, f', t);
    assert sel'.Keys == sel.Keys + {t};
  }

  /**
   * action_filter records, for each action, exactly the posted types whose
   * catalog offers it (types that cannot be resolved offer nothing).
   */
  lemma {:induction false} GatherFilter(rows: seq<Row>, base: map<ActionId, Label>,
                                        catalogOf: ItemType -> Option<map<ActionId, Label>>, a: ActionId, t: ItemType)
    ensures var g := Gather(rows, base, false, catalogOf);
            (a in g.filter && t in g.filter[a])
            <==> (t in RowTypes(rows) && catalogOf(t).Some? && a in catalogOf(t).value)
    decreases |rows|
  {
    if rows != [] {
      var n := |rows| - 1;
      GatherFilter(rows[..n], base, catalogOf, a, t);
      RowTypesSnoc(rows);
    }
  }

  /**
   * The proposed actions: the specific ones alone when given; otherwise the
   * added ones and every action some posted, resolvable type offers.
   */
  lemma {:induction false} GatherActions(rows: seq<Row>, base: map<ActionId, Label>, specific: bool,
                                         catalogOf: ItemType -> Option<map<ActionId, Label>>, a: ActionId)
    ensures var g := Gather(rows, base, specific, catalogOf);
            specific ==> g.actions == base
    ensures var g := Gather(rows, base, specific, catalogOf);
            !specific ==>
              (a in g.actions <==> a in base || exists t :: t in RowTypes(rows) && catalogOf(t).Some? && a in catalogOf(t).value)
    decreases |rows|
  {
    if rows != [] {
      var n := |rows| - 1;
      GatherActions(rows[..n], base, specific, catalogOf, a);
      RowTypesSnoc(rows);
    }
  }

  // ----- the stage as a whole -----

  /** The rewritten form and nb_items a stage leaves. */
  datatype Staged = Staged(post: Post, nbItems: nat)

  /** The actions the stage starts from: the specific ones, else the added ones. */
  function BaseActions(post: Post): map<ActionId, Label> {
    if post.specificActions.Some? then post.specificActions.value else post.addActions.GetOr(map[])
  }

  /**
   * The initial stage: action_filter and the selection are rebuilt, the
   * actions are the specific ones or the added ones united with every
   * catalog, the actions given by the caller are never filtered, and the raw
   * checkboxes and the given actions leave the form. Without any action the
   * stage fails with "No action available".
   */
  function InitialStage(post: Post, catalogOf: ItemType -> Option<map<ActionId, Label>>): Result<Staged, Failure> {
    var specific := post.specificActions.Some?;
    var base := BaseActions(post);
    var g := Gather(post.item.GetOr([]), base, specific, catalogOf);
    if g.actions == map[] then Failure(NoActionAvailable)
    else
      var dont := if specific || post.addActions.Some? then base.Keys else {};
      Success(Staged(
        post.(actionFilter := Some(g.filter), actions := Some(g.actions), dontFilterFor := Some(dont),
              items := Some(g.items), initialItems := Some(g.items),
              specificActions := None, addActions := None, item := None),
        g.nbItems))
  }

  /** The initial stage as the constructor runs it, with its loops. */
  method RunInitialStage(post: Post, catalogOf: ItemType -> Option<map<ActionId, Label>>) returns (r: Result<Staged, Failure>)
    ensures r == InitialStage(post, catalogOf)
  {
    var specific := post.specificActions.Some?;
    var base := BaseActions(post);
    var dont: set<ActionId> := {};
    if specific || post.addActions.Some? {
      dont := base.Keys;
    }
    var rows := if post.item.Some? then post.item.value else [];
    var g := GatherRows(rows, base, specific, catalogOf);
    if g.actions == map[] {
      return Failure(NoActionAvailable);
    }
    var p := post.(actionFilter := Some(g.filter), actions := Some(g.actions), dontFilterFor := Some(dont),
                   items := Some(g.items), initialItems := Some(g.items));
    p := p.(specificActions := None, addActions := None, item := None);
    r := Success(Staged(p, g.nbItems));
  }

  /** Some posted, resolvable type offers at least one action. */
  predicate SomeCatalogOffers(rows: seq<Row>, catalogOf: ItemType -> Option<map<ActionId, Label>>) {
    exists t :: t in RowTypes(rows) && catalogOf(t).Some? && catalogOf(t).value != map[]
  }

  /**
   * The initial stage fails exactly when the caller gave no action and, unless
   * the actions are the specific ones, no posted type offers any; otherwise
   * the selection holds each posted type's checked ids, nb_items counts them,
   * the specific actions are proposed unchanged, and every given action is
   * exempt from filtering.
   */
  lemma InitialStageSpec(post: Post, catalogOf: ItemType -> Option<map<ActionId, Label>>)
    requires DistinctTypes(post.item.GetOr([]))
    ensures var r := InitialStage(post, catalogOf);
            r.Failure? <==>
              BaseActions(post) == map[] && (post.specificActions.Some? || !SomeCatalogOffers(post.item.GetOr([]), catalogOf))
    ensures var r := InitialStage(post, catalogOf);
            r.Failure? ==> r.error == NoActionAvailable
    ensures var r := InitialStage(post, catalogOf);
            var rows := post.item.GetOr([]);
            r.Success? ==>
              && r.value.post.items.Some? && r.value.post.initialItems == r.value.post.items
              && r.value.post.items.value.Keys == RowTypes(rows)
              && (forall k :: 0 <= k < |rows| ==> r.value.post.items.value[rows[k].0] == Checked(rows[k].1))
              && WellFormed(r.value.post.items.value)
              && r.value.nbItems == TotalSize(r.value.post.items.value)
              && r.value.post.item.None? && r.value.post.specificActions.None? && r.value.post.addActions.None?
              && (post.specificActions.Some? ==> r.value.post.actions == post.specificActions)
              && r.value.post.dontFilterFor == Some(if post.specificActions.Some? || post.addActions.Some? then BaseActions(post).Keys else {})
  {
    var rows := post.item.GetOr([]);
    var specific := post.specificActions.Some?;
    var base := BaseActions(post);
    var g := Gather(rows, base, specific, catalogOf);
    GatherSelection(rows, base, specific, catalogOf);
    GatherActions(rows, base, specific, catalogOf, "");
    if !specific {
      if g.actions == map[] {
        assert base == map[] by {
          forall a | a in base ensures false {
            GatherActions(rows, base, specific, catalogOf, a);
          }
        }
        if SomeCatalogOffers(rows, catalogOf) {
          var t :| t in RowTypes(rows) && catalogOf(t).Some? && catalogOf(t).value != map[];
          var a :| a in catalogOf(t).value;
          GatherActions(rows, base, specific, catalogOf, a);
        }
      } else {
        var a :| a in g.actions;
        GatherActions(rows, base, specific, catalogOf, a);
      }
    }
  }

  // ----- the union as the source writes it -----

  /**
   * One posted item type as the source computes it: for a type that cannot be
   * resolved, getAllMassiveActions returns false, and array_merge(false, ...)
   * returns NULL, so the actions gathered so far are lost.
   */
  function GatherRowAsWritten(g: Gathered, row: Row, cat: Option<map<ActionId, Label>>, specific: bool): Gathered {
    var sel := Checked(row.1);
    var g1 := g.(items := g.items[row.0 := sel], nbItems := g.nbItems + |sel|);
    if specific then g1
    else if cat.None? then g1.(actions := map[])
    else g1.(actions := g1.actions + cat.value, filter := AddFilter(g1.filter, cat.value.Keys, row.0))
  }

  /** The initial stage's union as the source writes it. */
  function GatherAsWritten(rows: seq<Row>, base: map<ActionId, Label>, specific: bool,
                           catalogOf: ItemType -> Option<map<ActionId, Label>>): Gathered
    decreases |rows|
  {
    if rows == [] then Gathered(map[], base, map[], 0)
    else
      var last := rows[|rows| - 1];
      GatherRowAsWritten(GatherAsWritten(rows[..|rows| - 1], base, specific, catalogOf), last, catalogOf(last.0), specific)
  }

  /**
   * A Computer row offering update followed by a row of a type that cannot be
   * resolved: as written the union ends empty (so "No action available" is
   * raised), while the Computer's update action should be proposed.
   */
  lemma UnresolvableTypeWipesActions()
    ensures var rows := [("Computer", map[1 := 1]), ("Unknown", map[2 := 1])];
            var catalogOf := (t: ItemType) => if t == "Computer" then Some(map["MassiveAction:update" := "Update"]) else None;
            && GatherAsWritten(rows, map[], false, catalogOf).actions == map[]
            && Gather(rows, map[], false, catalogOf).actions == map["MassiveAction:update" := "Update"]
  {
    var rows: seq<Row> := [("Computer", map[1 := 1]), ("Unknown", map[2 := 1])];
    assert rows[..1] == [("Computer", map[1 := 1])];
    assert rows[..1][..0] == [];
  }
}
