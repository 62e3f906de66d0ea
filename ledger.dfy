/**
 * The bookkeeping of itemDone: which ids remain, which are done per item
 * type, the outcome counters and nb_done. The class in the engine keeps these
 * in fields; this module states what one call does to them and what the calls
 * preserve together.
 */
module Ledger {
  import opened Wrappers
  import opened MassiveTypes
  import opened Sums

  /** The fields itemDone updates. */
  datatype Ledger = Ledger(
    remainings: Selection,
    done: map<ItemType, seq<Id>>,
    results: Results,
    nbDone: int,
    current: Option<ItemType>)

  /** The ledger of a run that has done nothing yet: every selected id remains. */
  function Fresh(items: Selection): Ledger {
    Ledger(items, map[], Results(0, 0, 0), 0, None)
  }

  /** The ids recorded as done for `t`, in the order they were done. */
  function DoneOf(l: Ledger, t: ItemType): seq<Id> {
    if t in l.done then l.done[t] else []
  }

  /** The elements of a sequence. */
  function Elements(s: seq<Id>): set<Id> {
    set i | i in s
  }

  /** No id occurs twice. */
  predicate NoDup(s: seq<Id>) {
    forall i, j :: 0 <= i < j < |s| ==> s[i] != s[j]
  }

  /** The counter an outcome increments; NO_ACTION increments none. */
  function Bump(r: Results, o: Outcome, n: int): Results {
    match o
    case NoAction => r
    case ActionOk => r.(ok := r.ok + n)
    case ActionKo => r.(ko := r.ko + n)
    case ActionNoRight => r.(noright := r.noright + n)
  }

  /**
   * itemDone(t, ids, o): the ids leave the remaining ids of `t` (whose entry
   * is dropped once empty), are appended to the done list of `t`, and count
   * towards the outcome's counter and nb_done; `t` becomes the current type.
   * A single id is the one-element sequence.
   */
  function MarkDone(l: Ledger, t: ItemType, ids: seq<Id>, o: Outcome): Ledger {
    var rest := if t in l.remainings then l.remainings[t] - Elements(ids) else map[];
    Ledger(
      if rest == map[] then l.remainings - {t} else l.remainings[t := rest],
      l.done[t := DoneOf(l, t) + ids],
      Bump(l.results, o, |ids|),
      l.nbDone + |ids|,
      Some(t))
  }

  /**
   * The bookkeeping invariant of a run over `items`: for every type, its
   * remaining ids and its done ids split its selected ids, no id is done
   * twice, and nb_done is the number of done ids.
   */
  ghost predicate Accounted(items: Selection, l: Ledger) {
    && WellFormed(items)
    && WellFormed(l.remainings)
    && l.remainings.Keys <= items.Keys
    && l.done.Keys <= items.Keys
    && (forall t :: t in items ==> Split(items, l, t))
    && l.nbDone == SumOver(items.Keys, t => |DoneOf(l, t)|)
  }

  /** The remaining ids and the done ids of `t` split its selected ids, and none is done twice. */
  ghost predicate Split(items: Selection, l: Ledger, t: ItemType)
    requires t in items
  {
    && IdsOf(l.remainings, t) !! Elements(DoneOf(l, t))
    && IdsOf(l.remainings, t) + Elements(DoneOf(l, t)) == items[t].Keys
    && NoDup(DoneOf(l, t))
  }

  /** Every counted item went through itemDone with an outcome: the counters add up to nb_done. */
  predicate Balanced(l: Ledger) {
    l.results.ok >= 0 && l.results.ko >= 0 && l.results.noright >= 0 && Total(l.results) == l.nbDone
  }

  // ----- properties -----

  /** A run starts accounted and balanced. */
  lemma FreshAccounted(items: Selection)
    requires WellFormed(items)
    ensures Accounted(items, Fresh(items)) && Balanced(Fresh(items))
  {
    var l := Fresh(items);
    SumOverCongruent(items.Keys, t => |DoneOf(l, t)|, t => 0);
    SumOverZero(items.Keys);
  }

  lemma {:induction false} SumOverZero(keys: set<ItemType>)
    ensures SumOver(keys, t => 0) == 0
    decreases keys
  {
    if keys != {} {
      var k :| k in keys;
      SumOverPick(keys, t => 0, k);
      SumOverZero(keys - {k});
    }
  }

  /**
   * itemDone on distinct ids that all remain for `t` keeps the bookkeeping
   * invariant, and the ids move from the remaining ones to the done ones.
   */
  lemma MarkDonePreserves(items: Selection, l: Ledger, t: ItemType, ids: seq<Id>, o: Outcome)
    requires Accounted(items, l)
    requires t in items && NoDup(ids) && Elements(ids) <= IdsOf(l.remainings, t)
    ensures var l' := MarkDone(l, t, ids, o);
            && Accounted(items, l')
            && IdsOf(l'.remainings, t) == IdsOf(l.remainings, t) - Elements(ids)
            && Elements(DoneOf(l', t)) == Elements(DoneOf(l, t)) + Elements(ids)
            && (forall u :: u != t ==> IdsOf(l'.remainings, u) == IdsOf(l.remainings, u) && DoneOf(l', u) == DoneOf(l, u))
  {
    MarkDoneShape(l, t, ids, o);
    NoDupAppend(DoneOf(l, t), ids);
    MarkDoneSplits(items, l, t, ids, o);
    MarkDoneCount(items, l, t, ids, o);
  }

  lemma MarkDoneSplits(items: Selection, l: Ledger, t: ItemType, ids: seq<Id>, o: Outcome)
    requires forall u :: u in items ==> Split(items, l, u)
    requires t in items && NoDup(ids) && Elements(ids) <= IdsOf(l.remainings, t)
    ensures forall u :: u in items ==> Split(items, MarkDone(l, t, ids, o), u)
  {
    var l' := MarkDone(l, t, ids, o);
    MarkDoneShape(l, t, ids, o);
    NoDupAppend(DoneOf(l, t), ids);
    forall u | u in items ensures Split(items, l', u) {
      assert Split(items, l, u);
    }
  }

  lemma MarkDoneCount(items: Selection, l: Ledger, t: ItemType, ids: seq<Id>, o: Outcome)
    requires l.nbDone == SumOver(items.Keys, u => |DoneOf(l, u)|)
    requires t in items
    ensures var l' := MarkDone(l, t, ids, o);
            l'.nbDone == SumOver(items.Keys, u => |DoneOf(l', u)|)
  {
    var l' := MarkDone(l, t, ids, o);
    MarkDoneShape(l, t, ids, o);
    SumOverUpdate(items.Keys, u => |DoneOf(l, u)|, u => |DoneOf(l', u)|, t);
  }

  /** What itemDone changes: the remaining and done ids of `t`, and nothing of any other type. */
  lemma MarkDoneShape(l: Ledger, t: ItemType, ids: seq<Id>, o: Outcome)
    ensures var l' := MarkDone(l, t, ids, o);
            && IdsOf(l'.remainings, t) == IdsOf(l.remainings, t) - Elements(ids)
            && DoneOf(l', t) == DoneOf(l, t) + ids
            && l'.remainings.Keys <= l.remainings.Keys
            && l'.done.Keys == l.done.Keys + {t}
            && (forall u :: u in l'.remainings ==>
                  (l'.remainings[u].Keys <= l.remainings[u].Keys
                   && forall id :: id in l'.remainings[u] ==> l'.remainings[u][id] == l.remainings[u][id]))
            && (forall u :: u != t ==> IdsOf(l'.remainings, u) == IdsOf(l.remainings, u) && DoneOf(l', u) == DoneOf(l, u))
  {
    RemainingsShape(l.remainings, t, Elements(ids));
  }

  lemma RemainingsShape(rem: Selection, t: ItemType, gone: set<Id>)
    ensures var rest := if t in rem then rem[t] - gone else map[];
            var rem' := if rest == map[] then rem - {t} else rem[t := rest];
            && IdsOf(rem', t) == IdsOf(rem, t) - gone
            && rem'.Keys <= rem.Keys
            && (forall u :: u in rem' ==>
                  (rem'[u].Keys <= rem[u].Keys && forall id :: id in rem'[u] ==> rem'[u][id] == rem[u][id]))
            && (forall u :: u != t ==> IdsOf(rem', u) == IdsOf(rem, u))
  {
    var rest := if t in rem then rem[t] - gone else map[];
    if t in rem && rest == map[] {
      forall id | id in rem[t] ensures id in gone {
        assert id !in gone ==> id in rest;
      }
    }
  }

  /** Appending distinct new ids to a list without repetitions keeps it without repetitions. */
  lemma NoDupAppend(d: seq<Id>, ids: seq<Id>)
    ensures Elements(d + ids) == Elements(d) + Elements(ids)
    ensures NoDup(d) && NoDup(ids) && Elements(d) !! Elements(ids) ==> NoDup(d + ids)
  {
    assert forall i :: 0 <= i < |d + ids| ==> (d + ids)[i] == if i < |d| then d[i] else ids[i - |d|];
    forall x | x in Elements(d + ids) ensures x in Elements(d) + Elements(ids) {
      var i :| 0 <= i < |d + ids| && (d + ids)[i] == x;
    }
    if NoDup(d) && NoDup(ids) && Elements(d) !! Elements(ids) {
      forall i, j | 0 <= i < j < |d + ids| ensures (d + ids)[i] != (d + ids)[j] {
        if i < |d| && j >= |d| {
          assert (d + ids)[j] == ids[j - |d|] && ids[j - |d|] in Elements(ids);
          assert (d + ids)[i] == d[i] && d[i] in Elements(d);
        }
      }
    }
  }

  /** itemDone with an outcome keeps the counters in balance with nb_done; NO_ACTION counts without an outcome. */
  lemma MarkDoneBalance(l: Ledger, t: ItemType, ids: seq<Id>, o: Outcome)
    ensures var l' := MarkDone(l, t, ids, o);
            && l'.nbDone == l.nbDone + |ids|
            && Total(l'.results) == Total(l.results) + (if o == NoAction then 0 else |ids|)
    ensures Balanced(l) && o != NoAction ==> Balanced(MarkDone(l, t, ids, o))
  {
  }

  /** A sequence without repetitions has as many elements as its set. */
  lemma {:induction false} NoDupCard(s: seq<Id>)
    requires NoDup(s)
    ensures |Elements(s)| == |s|
  {
    if s != [] {
      var n := |s| - 1;
      NoDupCard(s[..n]);
      assert Elements(s) == Elements(s[..n]) + {s[n]};
      assert s[n] !in Elements(s[..n]);
    }
  }

  /**
   * Nothing is lost or counted twice: the done ids and the remaining ids
   * together are exactly the selected ids, in number.
   */
  lemma Conservation(items: Selection, l: Ledger)
    requires Accounted(items, l)
    ensures l.nbDone + SumOver(items.Keys, t => SizeOf(l.remainings, t)) == TotalSize(items)
  {
    forall t | t in items ensures SizeOf(items, t) == SizeOf(l.remainings, t) + |DoneOf(l, t)| {
      NoDupCard(DoneOf(l, t));
      assert |items[t].Keys| == |items[t]|;
      if t in l.remainings {
        assert |l.remainings[t].Keys| == |l.remainings[t]|;
      }
    }
    SumOverAdd(items.Keys, t => SizeOf(l.remainings, t), t => |DoneOf(l, t)|, t => SizeOf(items, t));
  }

  /**
   * When no id remains, every selected id is done exactly once and nb_done is
   * the number of selected items.
   */
  lemma Completion(items: Selection, l: Ledger)
    requires Accounted(items, l)
    requires forall t :: t in l.remainings ==> l.remainings[t] == map[]
    ensures forall t :: t in items ==> Elements(DoneOf(l, t)) == items[t].Keys && NoDup(DoneOf(l, t))
    ensures l.nbDone == TotalSize(items)
  {
    Conservation(items, l);
    CompletionSizes(items, l);
    CompletionDone(items, l);
  }

  lemma CompletionDone(items: Selection, l: Ledger)
    requires forall t :: t in items ==> Split(items, l, t)
    requires forall t :: t in l.remainings ==> l.remainings[t] == map[]
    ensures forall t :: t in items ==> Elements(DoneOf(l, t)) == items[t].Keys && NoDup(DoneOf(l, t))
  {
    forall t | t in items ensures Elements(DoneOf(l, t)) == items[t].Keys && NoDup(DoneOf(l, t)) {
      assert Split(items, l, t);
      assert IdsOf(l.remainings, t) == {};
    }
  }

  lemma CompletionSizes(items: Selection, l: Ledger)
    requires forall t :: t in l.remainings ==> l.remainings[t] == map[]
    ensures SumOver(items.Keys, t => SizeOf(l.remainings, t)) == 0
  {
    SumOverCongruent(items.Keys, t => SizeOf(l.remainings, t), t => 0);
    SumOverZero(items.Keys);
  }

  /** getItemtype(false): the single type of the selection, if there is exactly one. */
  function SingleItemtype(items: Option<Selection>): (r: Option<ItemType>)
    ensures r.Some? <==> items.Some? && |items.value.Keys| == 1
    ensures r.Some? ==> items.value.Keys == {r.value}
  {
    if items.Some? && |items.value.Keys| == 1 then
      var t :| t in items.value.Keys;
      assert items.value.Keys == {t} by {
        var rest := items.value.Keys - {t};
        assert |rest| == 0;
        assert forall u :: u in items.value.Keys ==> u == t || u in rest;
      }
      Some(t)
    else None
  }
}
