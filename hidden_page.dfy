/**
 * The hidden page (app/hidden/page.tsx): the same view controls as the main
 * page over the records on the hide-list, a count of the hide-list, and a
 * selection bar with Cancel, Unhide and a Send button that only announces
 * that sending is not available here.
 */
module HiddenPage {
  import opened NftGrid
  import opened ViewModes
  import HiddenList

  /**
   * After unhiding the selection, the hidden page shows exactly what it
   * showed before except the selected records, and the main grid shows
   * exactly the records whose id is off the hide-list or selected.
   */
  lemma UnhideMovesSelection(ns: seq<Nft>, hidden: seq<string>, selected: seq<string>)
    ensures forall n :: n in Shown(ns, HiddenList.Unhide(hidden, selected), true) <==>
      n in Shown(ns, hidden, true) && n.id !in selected
    ensures forall n :: n in Shown(ns, HiddenList.Unhide(hidden, selected), false) <==>
      n in ns && (n.id !in hidden || n.id in selected)
  {
    ShownMembers(ns, hidden, true);
    ShownMembers(ns, HiddenList.Unhide(hidden, selected), true);
    ShownMembers(ns, HiddenList.Unhide(hidden, selected), false);
  }

  class HiddenPageView {
    var gridMode: GridMode
    var selectedNfts: seq<string>
    var isSelectionMode: bool
    var hiddenCount: nat
    var sortBy: SortKey
    var sortDirection: SortDir

    /** The initial state: three columns, newest first, nothing selected, a count of 0. */
    constructor ()
      ensures gridMode == Three && sortBy == Date && sortDirection == Desc
      ensures selectedNfts == [] && !isSelectionMode && hiddenCount == 0
    {
      gridMode := Three;
      selectedNfts := [];
      isSelectionMode := false;
      hiddenCount := 0;
      sortBy := Date;
      sortDirection := Desc;
    }

    /** The selection the grid reads and writes. */
    function Selected(): Selection
      reads this
    {
      Selection(selectedNfts, isSelectionMode)
    }

    /** The mount effect: the count is the length of the stored hide-list. */
    method LoadCount(store: HiddenList.HiddenStore)
      modifies this
      ensures hiddenCount == |store.ids|
      ensures gridMode == old(gridMode) && selectedNfts == old(selectedNfts) && isSelectionMode == old(isSelectionMode)
      ensures sortBy == old(sortBy) && sortDirection == old(sortDirection)
    {
      hiddenCount := |store.ids|;
    }

    /** `cycleGridMode`. */
    method CycleGridMode()
      modifies this
      ensures gridMode == NextGridMode(old(gridMode))
      ensures selectedNfts == old(selectedNfts) && isSelectionMode == old(isSelectionMode) && hiddenCount == old(hiddenCount)
      ensures sortBy == old(sortBy) && sortDirection == old(sortDirection)
    {
      gridMode := NextGridMode(gridMode);
    }

    /** `cycleSortMode`. */
    method CycleSortMode()
      modifies this
      ensures sortBy == NextSortKey(old(sortBy))
      ensures gridMode == old(gridMode) && selectedNfts == old(selectedNfts) && isSelectionMode == old(isSelectionMode)
      ensures hiddenCount == old(hiddenCount) && sortDirection == old(sortDirection)
    {
      sortBy := NextSortKey(sortBy);
    }

    /** `toggleSortDirection`. */
    method ToggleSortDirection()
      modifies this
      ensures sortDirection == FlipDirection(old(sortDirection))
      ensures gridMode == old(gridMode) && selectedNfts == old(selectedNfts) && isSelectionMode == old(isSelectionMode)
      ensures hiddenCount == old(hiddenCount) && sortBy == old(sortBy)
    {
      sortDirection := FlipDirection(sortDirection);
    }

    /** A tap on a record while selecting: the grid's `toggleSelection`. */
    method TapNft(id: string)
      modifies this
      ensures Selected() == Toggle(old(Selected()), id)
      ensures gridMode == old(gridMode) && hiddenCount == old(hiddenCount)
      ensures sortBy == old(sortBy) && sortDirection == old(sortDirection)
    {
      var s := Toggle(Selected(), id);
      selectedNfts := s.ids;
      isSelectionMode := s.active;
    }

    /** A long press on a record: the grid's `handleLongPress`. */
    method LongPressNft(id: string)
      modifies this
      ensures Selected() == LongPress(old(Selected()), id)
      ensures gridMode == old(gridMode) && hiddenCount == old(hiddenCount)
      ensures sortBy == old(sortBy) && sortDirection == old(sortDirection)
    {
      var s := LongPress(Selected(), id);
      selectedNfts := s.ids;
      isSelectionMode := s.active;
    }

    /** Cancel in the selection bar: nothing selected, selection mode off. */
    method Cancel()
      modifies this
      ensures selectedNfts == [] && !isSelectionMode
      ensures gridMode == old(gridMode) && hiddenCount == old(hiddenCount)
      ensures sortBy == old(sortBy) && sortDirection == old(sortDirection)
    {
      selectedNfts := [];
      isSelectionMode := false;
    }

    /** `handleSendSelected`: only announces that sending is not available; no transfer, nothing changes. */
    method HandleSendSelected()
      ensures selectedNfts == old(selectedNfts) && isSelectionMode == old(isSelectionMode)
    {
    }

    /**
     * `handleUnhideSelected`: every occurrence of a selected id leaves the
     * stored hide-list, the count follows the new list, the selection is cleared.
     */
    method HandleUnhideSelected(store: HiddenList.HiddenStore)
      modifies this, store
      ensures store.ids == HiddenList.Unhide(old(store.ids), old(selectedNfts))
      ensures forall id :: id in old(selectedNfts) ==> id !in store.ids
      ensures hiddenCount == |store.ids| <= |old(store.ids)|
      ensures selectedNfts == [] && !isSelectionMode
      ensures gridMode == old(gridMode) && sortBy == old(sortBy) && sortDirection == old(sortDirection)
    {
      var updatedHidden := HiddenList.Unhide(store.ids, selectedNfts);
      store.ids := updatedHidden;
      hiddenCount := |updatedHidden|;
      selectedNfts := [];
      isSelectionMode := false;
    }
  }
}
