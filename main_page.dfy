/**
 * The main page (app/page.tsx): the view controls, the statistics it computes
 * for its header, the selection bar with Cancel, Hide and Send, and the send
 * dialog it opens for the selection.
 */
module MainPage {
  import opened Wrappers
  import opened NftGrid
  import opened ViewModes
  import WalletBalance
  import HiddenList
  import SendNftModal
  import Text
  import Seqs

  // ------------------------------------------------- what the dialog is given

  /** The items the page hands to the send dialog as written: `nftData` is never passed. */
  function ModalItemsAsWritten(selected: seq<string>): seq<SendNftModal.NftRecord> {
    []
  }

  /**
   * As written, once the dialog's checks pass, sending a selection of any
   * size submits nothing and still ends without error, so the dialog shows
   * its success step.
   */
  lemma AsWrittenSendsNothing(hasProvider: bool, recipient: string, wallet: string, selected: seq<string>, hashes: seq<string>)
    requires SendNftModal.Precheck(hasProvider, recipient, wallet).None?
    ensures SendNftModal.Send(hasProvider, recipient, wallet, ModalItemsAsWritten(selected), hashes) == SendNftModal.Outcome([], None)
  {
    SendNftModal.EmptySendSucceeds(hasProvider, recipient, wallet, hashes);
  }

  /** The send record of a grid record: its contract address and its token id. */
  function Record(n: Nft): SendNftModal.NftRecord {
    SendNftModal.NftRecord(n.contractAddress, "", "", n.tokenId, "", "")
  }

  /** The records the dialog needs: those of the listed NFTs whose id is selected, in listing order. */
  function ModalItems(selected: seq<string>, listing: seq<Nft>): (items: seq<SendNftModal.NftRecord>)
    ensures |items| <= |listing|
    ensures forall n :: n in listing && n.id in selected ==> Record(n) in items
    ensures forall r :: r in items ==> exists n :: n in listing && n.id in selected && r == Record(n)
  {
    if listing == [] then []
    else
      var rest := ModalItems(selected, listing[1..]);
      assert forall n :: n in listing <==> n == listing[0] || n in listing[1..];
      if listing[0].id in selected then [Record(listing[0])] + rest else rest
  }

  /** The records keep the listing's order: the selection distributes over concatenated listings. */
  lemma {:induction false} ModalItemsConcat(selected: seq<string>, a: seq<Nft>, b: seq<Nft>)
    ensures ModalItems(selected, a + b) == ModalItems(selected, a) + ModalItems(selected, b)
  {
    if a == [] {
      assert a + b == b;
    } else {
      assert (a + b)[0] == a[0];
      assert (a + b)[1..] == a[1..] + b;
      ModalItemsConcat(selected, a[1..], b);
      if a[0].id in selected {
        Seqs.ConcatAssoc([Record(a[0])], ModalItems(selected, a[1..]), ModalItems(selected, b));
      }
    }
  }

  /** A grid record the dialog can send: a contract address and a token id that parses. */
  predicate Sendable(n: Nft) {
    n.contractAddress != "" && n.tokenId != "" && SendNftModal.TokenIdHex(n.tokenId).Some?
  }

  /**
   * With the items handed over, once the checks pass and every submission
   * gets a hash, each selected listed NFT is sent, in listing order, to its
   * own contract; a selection holding a listed NFT sends at least one.
   */
  lemma SendsSelection(hasProvider: bool, recipient: string, wallet: string, selected: seq<string>, listing: seq<Nft>, hashes: seq<string>)
    requires SendNftModal.Precheck(hasProvider, recipient, wallet).None?
    requires forall n :: n in listing && n.id in selected ==> Sendable(n)
    requires |ModalItems(selected, listing)| <= |hashes|
    requires forall j :: 0 <= j < |hashes| ==> hashes[j] != ""
    ensures var items := ModalItems(selected, listing);
      var o := SendNftModal.Send(hasProvider, recipient, wallet, items, hashes);
      && o.error.None?
      && |o.submitted| == |items|
      && (forall j :: 0 <= j < |items| ==> o.submitted[j].to == items[j].contractAddress)
    ensures (exists n :: n in listing && n.id in selected) ==>
      |SendNftModal.Send(hasProvider, recipient, wallet, ModalItems(selected, listing), hashes).submitted| > 0
  {
    var items := ModalItems(selected, listing);
    var ps := SendNftModal.PrepareAll(wallet, Text.ToLower(recipient), items);
    forall j | 0 <= j < |ps| ensures ps[j].Ready? && ps[j].tx.to == items[j].contractAddress {
      assert items[j] in items;
      var n :| n in listing && n.id in selected && items[j] == Record(n);
      assert Sendable(n);
    }
    forall j | 0 <= j < |ps| ensures SendNftModal.Reply(hashes, j) != "" {
    }
    SendNftModal.SubmitsInOrder(ps, hashes);
    var o := SendNftModal.SubmitFrom(ps, hashes, 0);
    assert SendNftModal.Send(hasProvider, recipient, wallet, items, hashes) == o;
    forall j | 0 <= j < |items| ensures o.submitted[j].to == items[j].contractAddress {
      assert ps[j] == SendNftModal.Ready(o.submitted[j]);
    }
    if exists n :: n in listing && n.id in selected {
      var n :| n in listing && n.id in selected;
      assert Record(n) in items;
    }
  }

  // ------------------------------------------------------ hiding the selection

  /**
   * After hiding the selection, the main grid shows exactly what it showed
   * before except the selected records, and the hidden page shows exactly
   * the records whose id was hidden or selected.
   */
  lemma HideMovesSelection(ns: seq<Nft>, hidden: seq<string>, selected: seq<string>)
    ensures forall n :: n in Shown(ns, HiddenList.Hide(hidden, selected), false) <==>
      n in Shown(ns, hidden, false) && n.id !in selected
    ensures forall n :: n in Shown(ns, HiddenList.Hide(hidden, selected), true) <==>
      n in ns && (n.id in hidden || n.id in selected)
  {
    ShownMembers(ns, hidden, false);
    ShownMembers(ns, HiddenList.Hide(hidden, selected), false);
    ShownMembers(ns, HiddenList.Hide(hidden, selected), true);
  }

  // ------------------------------------------------------------------ the page

  class MainPageView {
    var gridMode: GridMode
    var selectedNfts: seq<string>
    var isSelectionMode: bool
    var isSendModalOpen: bool
    var sortBy: SortKey
    var sortDirection: SortDir
    var nftCount: nat
    var nftTotalValue: real

    /** The initial state: three columns, newest first, nothing selected, the dialog closed. */
    constructor ()
      ensures gridMode == Three && sortBy == Date && sortDirection == Desc
      ensures selectedNfts == [] && !isSelectionMode && !isSendModalOpen
      ensures nftCount == 0 && nftTotalValue == 0.0
    {
      gridMode := Three;
      selectedNfts := [];
      isSelectionMode := false;
      isSendModalOpen := false;
      sortBy := Date;
      sortDirection := Desc;
      nftCount := 0;
      nftTotalValue := 0.0;
    }

    /** The selection the grid reads and writes. */
    function Selected(): Selection
      reads this
    {
      Selection(selectedNfts, isSelectionMode)
    }

    /**
     * `fetchNFTStats`, as the wallet card computes it: without a wallet, or
     * when the listing fails, both numbers stay; otherwise they are set from
     * the listing and the stored hide-list.
     */
    method FetchStats(wallet: string, reply: ListReply, store: HiddenList.HiddenStore)
      modifies this
      ensures wallet == "" || !reply.Listed? ==> nftCount == old(nftCount) && nftTotalValue == old(nftTotalValue)
      ensures wallet != "" && reply.Listed? ==>
        WalletBalance.Stats(nftCount, nftTotalValue) == WalletBalance.StatsOf(reply.nfts, store.ids)
      ensures gridMode == old(gridMode) && selectedNfts == old(selectedNfts) && isSelectionMode == old(isSelectionMode)
      ensures isSendModalOpen == old(isSendModalOpen) && sortBy == old(sortBy) && sortDirection == old(sortDirection)
    {
      if wallet != "" && reply.Listed? {
        var stats := WalletBalance.StatsOf(reply.nfts, store.ids);
        nftCount, nftTotalValue := stats.count, stats.value;
        assert WalletBalance.Stats(nftCount, nftTotalValue) == stats;
      }
    }

    /** `cycleGridMode`. */
    method CycleGridMode()
      modifies this
      ensures gridMode == NextGridMode(old(gridMode))
      ensures selectedNfts == old(selectedNfts) && isSelectionMode == old(isSelectionMode)
      ensures isSendModalOpen == old(isSendModalOpen) && sortBy == old(sortBy) && sortDirection == old(sortDirection)
      ensures nftCount == old(nftCount) && nftTotalValue == old(nftTotalValue)
    {
      gridMode := NextGridMode(gridMode);
    }

    /** `cycleSortMode`. */
    method CycleSortMode()
      modifies this
      ensures sortBy == NextSortKey(old(sortBy))
      ensures gridMode == old(gridMode) && selectedNfts == old(selectedNfts) && isSelectionMode == old(isSelectionMode)
      ensures isSendModalOpen == old(isSendModalOpen) && sortDirection == old(sortDirection)
      ensures nftCount == old(nftCount) && nftTotalValue == old(nftTotalValue)
    {
      sortBy := NextSortKey(sortBy);
    }

    /** `toggleSortDirection`. */
    method ToggleSortDirection()
      modifies this
      ensures sortDirection == FlipDirection(old(sortDirection))
      ensures gridMode == old(gridMode) && selectedNfts == old(selectedNfts) && isSelectionMode == old(isSelectionMode)
      ensures isSendModalOpen == old(isSendModalOpen) && sortBy == old(sortBy)
      ensures nftCount == old(nftCount) && nftTotalValue == old(nftTotalValue)
    {
      sortDirection := FlipDirection(sortDirection);
    }

    /** A tap on a record while selecting: the grid's `toggleSelection`. */
    method TapNft(id: string)
      modifies this
      ensures Selected() == Toggle(old(Selected()), id)
      ensures gridMode == old(gridMode) && isSendModalOpen == old(isSendModalOpen)
      ensures sortBy == old(sortBy) && sortDirection == old(sortDirection)
      ensures nftCount == old(nftCount) && nftTotalValue == old(nftTotalValue)
    {
      var s := Toggle(Selected(), id);
      selectedNfts := s.ids;
      isSelectionMode := s.active;
    }

    /** A long press on a record: the grid's `handleLongPress`. */
    method LongPressNft(id: string)
      modifies this
      ensures Selected() == LongPress(old(Selected()), id)
      ensures gridMode == old(gridMode) && isSendModalOpen == old(isSendModalOpen)
      ensures sortBy == old(sortBy) && sortDirection == old(sortDirection)
      ensures nftCount == old(nftCount) && nftTotalValue == old(nftTotalValue)
    {
      var s := LongPress(Selected(), id);
      selectedNfts := s.ids;
      isSelectionMode := s.active;
    }

    /** Cancel in the selection bar: nothing selected, selection mode off. */
    method Cancel()
      modifies this
      ensures selectedNfts == [] && !isSelectionMode
      ensures gridMode == old(gridMode) && isSendModalOpen == old(isSendModalOpen)
      ensures sortBy == old(sortBy) && sortDirection == old(sortDirection)
      ensures nftCount == old(nftCount) && nftTotalValue == old(nftTotalValue)
    {
      selectedNfts := [];
      isSelectionMode := false;
    }

    /** `handleHideSelected`: the stored hide-list becomes its union with the selection; the selection is cleared. */
    method HandleHideSelected(store: HiddenList.HiddenStore)
      modifies this, store
      ensures store.ids == HiddenList.Hide(old(store.ids), old(selectedNfts))
      ensures forall id :: id in old(selectedNfts) ==> id in store.ids
      ensures selectedNfts == [] && !isSelectionMode
      ensures gridMode == old(gridMode) && isSendModalOpen == old(isSendModalOpen)
      ensures sortBy == old(sortBy) && sortDirection == old(sortDirection)
      ensures nftCount == old(nftCount) && nftTotalValue == old(nftTotalValue)
    {
      var updatedHidden := HiddenList.Hide(store.ids, selectedNfts);
      store.ids := updatedHidden;
      selectedNfts := [];
      isSelectionMode := false;
    }

    /** `handleSendSelected`: open the send dialog. */
    method HandleSendSelected()
      modifies this
      ensures isSendModalOpen
      ensures gridMode == old(gridMode) && selectedNfts == old(selectedNfts) && isSelectionMode == old(isSelectionMode)
      ensures sortBy == old(sortBy) && sortDirection == old(sortDirection)
      ensures nftCount == old(nftCount) && nftTotalValue == old(nftTotalValue)
    {
      isSendModalOpen := true;
    }

    /**
     * Send in the open dialog, with the selected records of the grid handed
     * over as `nftData`: the dialog's send over those items.
     */
    method SendSelected(modal: SendNftModal.SendModal, grid: NftGridView, hasProvider: bool, wallet: string,
                        hashes: seq<string>, store: SendNftModal.RecentsStore)
      returns (submitted: seq<SendNftModal.Tx>, error: Option<SendNftModal.SendError>)
      modifies modal, store
      ensures SendNftModal.Outcome(submitted, error) ==
        SendNftModal.Send(hasProvider, old(modal.recipient), wallet, ModalItems(selectedNfts, grid.nfts), hashes)
      ensures error.None? ==>
        && modal.step == SendNftModal.SuccessStep
        && store.stored == Some(SendNftModal.RecentsAfter(
             SendNftModal.StoredRecents(old(store.stored)), old(modal.recipient), old(modal.selectedUser)))
        && modal.recentRecipients == SendNftModal.RecentsAfter(
             SendNftModal.StoredRecents(old(store.stored)), old(modal.recipient), old(modal.selectedUser))
      ensures error.Some? ==>
        modal.step == old(modal.step) && store.stored == old(store.stored) && modal.recentRecipients == old(modal.recentRecipients)
      ensures !modal.isSending && modal.isSearching == old(modal.isSearching)
      ensures modal.recipient == old(modal.recipient) && modal.selectedUser == old(modal.selectedUser)
      ensures modal.searchResults == old(modal.searchResults) && modal.isAddressConfirmed == old(modal.isAddressConfirmed)
    {
      submitted, error := modal.HandleSend(hasProvider, wallet, ModalItems(selectedNfts, grid.nfts), hashes, store);
    }

    /** The dialog's `onClose`: closed, nothing selected, selection mode off. */
    method CloseSendModal()
      modifies this
      ensures !isSendModalOpen && selectedNfts == [] && !isSelectionMode
      ensures gridMode == old(gridMode) && sortBy == old(sortBy) && sortDirection == old(sortDirection)
      ensures nftCount == old(nftCount) && nftTotalValue == old(nftTotalValue)
    {
      isSendModalOpen := false;
      selectedNfts := [];
      isSelectionMode := false;
    }
  }
}
