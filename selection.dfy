/** The comparison list: the ordered ids picked for side-by-side comparison.
    It starts empty (App.tsx), the browse view toggles and clears it
    (pages/Home.tsx) and the comparison view removes from it
    (pages/Comparison.tsx). */
module Selection {
  import opened Common

  /** The capacity of the comparison list. */
  const MaxSelected: nat := 3

  /** `prev.filter(item => item !== id)`: every occurrence of `id` removed,
      the other ids kept with their multiplicities, in order. */
  function Without(ids: seq<string>, id: string): (r: seq<string>)
    ensures id !in r
    ensures forall x :: x != id ==> multiset(r)[x] == multiset(ids)[x]
    ensures SubsequenceOf(r, ids)
  {
    if ids == [] then []
    else
      var rest := Without(ids[1..], id);
      assert ids == [ids[0]] + ids[1..];
      SubsequenceCons(ids[0], rest, ids[1..]);
      if ids[0] == id then rest else [ids[0]] + rest
  }

  /** The list a toggle of `id` produces: a present id is removed; an absent id
      is appended while there is room; at capacity nothing changes. */
  function Toggled(ids: seq<string>, id: string): (r: seq<string>)
    ensures id in ids ==> id !in r && SubsequenceOf(r, ids)
    ensures id in ids ==> forall x :: x != id ==> multiset(r)[x] == multiset(ids)[x]
    ensures id !in ids && |ids| < MaxSelected ==> r == ids + [id]
    ensures id !in ids && |ids| >= MaxSelected ==> r == ids
  {
    if id in ids then Without(ids, id)
    else if |ids| < MaxSelected then ids + [id]
    else ids
  }

  /** The invariant of the comparison list: at most three ids, no repeats. */
  predicate Valid(ids: seq<string>) {
    |ids| <= MaxSelected && NoDuplicates(ids)
  }

  /** Removing from a list without repeats leaves one without repeats and
      makes it shorter by exactly the occurrence removed. */
  lemma {:induction false} WithoutNoDuplicates(ids: seq<string>, id: string)
    requires NoDuplicates(ids)
    ensures NoDuplicates(Without(ids, id))
    ensures |Without(ids, id)| == if id in ids then |ids| - 1 else |ids|
  {
    if ids != [] {
      assert NoDuplicates(ids[1..]);
      WithoutNoDuplicates(ids[1..], id);
      var rest := Without(ids[1..], id);
      assert ids[0] !in ids[1..];
      assert multiset(ids[1..])[ids[0]] == 0;
      assert id in ids <==> id == ids[0] || id in ids[1..];
    }
  }

  /** Every toggle keeps the list within capacity and free of repeats. */
  lemma ToggledValid(ids: seq<string>, id: string)
    requires Valid(ids)
    ensures Valid(Toggled(ids, id))
  {
    if id in ids {
      WithoutNoDuplicates(ids, id);
    }
  }

  /** Removing an id that is absent changes nothing. */
  lemma {:induction false} WithoutAbsent(ids: seq<string>, id: string)
    requires id !in ids
    ensures Without(ids, id) == ids
  {
    if ids != [] {
      WithoutAbsent(ids[1..], id);
      assert ids == [ids[0]] + ids[1..];
    }
  }

  /** Removing `id` from a list that ends with it drops that last element. */
  lemma {:induction false} WithoutAppended(ids: seq<string>, id: string)
    ensures Without(ids + [id], id) == Without(ids, id)
  {
    if ids == [] {
      assert Without([id], id) == Without([id][1..], id);
    } else {
      assert (ids + [id])[1..] == ids[1..] + [id];
      WithoutAppended(ids[1..], id);
    }
  }

  /** Toggling an absent id twice while there is room restores the list. */
  lemma ToggleTwiceRestores(ids: seq<string>, id: string)
    requires id !in ids && |ids| < MaxSelected
    ensures Toggled(Toggled(ids, id), id) == ids
  {
    WithoutAppended(ids, id);
    WithoutAbsent(ids, id);
  }

  /** The list after a sequence of toggles applied in order. */
  function ToggleAll(ids: seq<string>, toggles: seq<string>): seq<string>
    decreases |toggles|
  {
    if toggles == [] then ids else ToggleAll(Toggled(ids, toggles[0]), toggles[1..])
  }

  /** Starting from the empty list, any sequence of toggles keeps the list
      within capacity and free of repeats. */
  lemma {:induction false} ToggleAllValid(ids: seq<string>, toggles: seq<string>)
    requires Valid(ids)
    ensures Valid(ToggleAll(ids, toggles))
    decreases |toggles|
  {
    if toggles != [] {
      ToggledValid(ids, toggles[0]);
      ToggleAllValid(Toggled(ids, toggles[0]), toggles[1..]);
    }
  }

  lemma ReachableFromEmptyValid(toggles: seq<string>)
    ensures Valid(ToggleAll([], toggles))
  {
    ToggleAllValid([], toggles);
  }

  /** `comparisonList.includes(id)`: the card shows as selected. */
  predicate IsSelected(ids: seq<string>, id: string): (b: bool)
    ensures b <==> exists i :: 0 <= i < |ids| && ids[i] == id
  {
    id in ids
  }

  /** `comparisonList.length >= 3`: further picks are disabled, which is
      exactly when a toggle refuses every new id. */
  predicate DisableSelection(ids: seq<string>): (b: bool)
    ensures b ==> forall x :: x !in ids ==> Toggled(ids, x) == ids
    ensures !b ==> forall x :: x !in ids ==> Toggled(ids, x) == ids + [x]
  {
    |ids| >= MaxSelected
  }

  /** On a valid list, selection is disabled exactly when the list is full,
      and then toggling an unselected id is a no-op. */
  lemma DisableSelectionMeansFull(ids: seq<string>, id: string)
    requires Valid(ids)
    ensures DisableSelection(ids) <==> |ids| == MaxSelected
    ensures DisableSelection(ids) && !IsSelected(ids, id) ==> Toggled(ids, id) == ids
  {
  }

  /** The comparison list as an owned object: one field, the ids, which the
      operations replace. */
  class ComparisonList {
    var ids: seq<string>

    /** `useState<string[]>([])`: the list starts empty. */
    constructor ()
      ensures ids == [] && Valid(ids)
    {
      ids := [];
    }

    /** `toggleCompare(id)` on the browse view. */
    method Toggle(id: string)
      requires Valid(ids)
      modifies this
      ensures Valid(ids)
      ensures ids == Toggled(old(ids), id)
      ensures old(id in ids) ==> id !in ids && |ids| == |old(ids)| - 1
      ensures old(id !in ids && |ids| < MaxSelected) ==> ids == old(ids) + [id]
      ensures old(id !in ids && |ids| >= MaxSelected) ==> ids == old(ids)
    {
      ToggledValid(ids, id);
      WithoutNoDuplicates(ids, id);
      ids := Toggled(ids, id);
    }

    /** `removeState(id)` on the comparison view. */
    method Remove(id: string)
      modifies this
      ensures ids == Without(old(ids), id)
      ensures id !in ids && SubsequenceOf(ids, old(ids))
      ensures old(Valid(ids)) ==> Valid(ids)
    {
      if Valid(ids) {
        WithoutNoDuplicates(ids, id);
      }
      ids := Without(ids, id);
    }

    /** The Clear button: `setComparisonList([])`. */
    method Clear()
      modifies this
      ensures ids == [] && Valid(ids)
    {
      ids := [];
    }
  }
}
