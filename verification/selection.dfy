/**
 * The checkbox selection shared by the product list, the batch price
 * update and the batch barcode pages: a list of selected product ids plus
 * the state of the "select all" checkbox.
 */
module Selection {

  /** No id occurs twice. */
  predicate NoDuplicates(ids: seq<int>) {
    forall i, j :: 0 <= i < j < |ids| ==> ids[i] != ids[j]
  }

  /** `ids.filter(id => id !== x)`. */
  function Without(ids: seq<int>, x: int): (r: seq<int>)
    ensures x !in r
    ensures forall y :: y != x ==> (y in r <==> y in ids)
    ensures forall y :: y != x ==> multiset(r)[y] == multiset(ids)[y]
    ensures NoDuplicates(ids) ==> NoDuplicates(r)
    ensures x !in ids ==> r == ids
  {
    if |ids| == 0 then []
    else
      var rest := Without(ids[1..], x);
      assert ids == [ids[0]] + ids[1..];
      if ids[0] == x then rest
      else
        assert NoDuplicates(ids) ==> ids[0] !in ids[1..];
        [ids[0]] + rest
  }

  /** `handleSelectProduct`: removes `x` when it is selected, appends it
      otherwise. */
  function Toggle(ids: seq<int>, x: int): (r: seq<int>)
    ensures x in r <==> x !in ids
    ensures forall y :: y != x ==> (y in r <==> y in ids)
    ensures NoDuplicates(ids) ==> NoDuplicates(r)
  {
    if x in ids then Without(ids, x) else ids + [x]
  }

  /** Toggling an unselected id twice gives back exactly the same list;
      toggling a selected id twice keeps the same members. */
  lemma ToggleTwice(ids: seq<int>, x: int)
    ensures x !in ids ==> Toggle(Toggle(ids, x), x) == ids
    ensures forall y :: y in Toggle(Toggle(ids, x), x) <==> y in ids
  {
    if x !in ids {
      assert Without(ids + [x], x) == ids by {
        WithoutAppend(ids, x);
      }
    }
  }

  /** Removing `x` from `ids + [x]`, where `x` is not in `ids`. */
  lemma {:induction false} WithoutAppend(ids: seq<int>, x: int)
    requires x !in ids
    ensures Without(ids + [x], x) == ids
    decreases |ids|
  {
    if |ids| > 0 {
      assert (ids + [x])[1..] == ids[1..] + [x];
      WithoutAppend(ids[1..], x);
    }
  }

  /** Selection state of a list page. */
  datatype SelectionState = SelectionState(selected: seq<int>, selectAll: bool)

  const NothingSelected := SelectionState([], false)

  /** `handleSelectAll`: the checkbox state is stored; checking it selects
      every loaded id, unchecking it clears the selection. */
  function SelectAll(st: SelectionState, checked: bool, allIds: seq<int>): (r: SelectionState)
    ensures r.selectAll == checked
    ensures checked ==> forall id :: id in r.selected <==> id in allIds
    ensures !checked ==> forall id :: id !in r.selected
  {
    SelectionState(if checked then allIds else [], checked)
  }

  /** `handleSelectProduct`: flips one id; the "select all" checkbox is
      left as it was. */
  function SelectOne(st: SelectionState, id: int): (r: SelectionState)
    ensures id in r.selected <==> id !in st.selected
    ensures forall y :: y != id ==> (y in r.selected <==> y in st.selected)
    ensures NoDuplicates(st.selected) ==> NoDuplicates(r.selected)
    ensures r.selectAll == st.selectAll
  {
    SelectionState(Toggle(st.selected, id), st.selectAll)
  }

  /** Every selected id belongs to a loaded product. */
  predicate SelectedAmong(st: SelectionState, allIds: seq<int>) {
    forall id :: id in st.selected ==> id in allIds
  }

  /** Both handlers keep the selection within the loaded ids, as long as
      the toggled id is one of them (the checkboxes are drawn from the
      loaded products). */
  lemma HandlersKeepSelectionAmong(st: SelectionState, allIds: seq<int>, checked: bool, id: int)
    requires SelectedAmong(st, allIds)
    requires id in allIds
    ensures SelectedAmong(SelectAll(st, checked, allIds), allIds)
    ensures SelectedAmong(SelectOne(st, id), allIds)
  {
  }
}
