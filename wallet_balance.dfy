/**
 * The NFT statistics of the wallet card (components/wallet-balance.tsx), which
 * the main page computes the same way: the listed NFTs whose id is not on the
 * hide-list are counted, and the floor prices of those with a positive floor
 * are summed.
 */
module WalletBalance {
  import opened Wrappers
  import NftApi
  import NftGrid
  import HiddenList
  import Seqs

  type OwnedNft = NftApi.OwnedNft

  /** The id the stats look up in the hide-list: contract address, a dash, token id. */
  function StatsId(o: OwnedNft): string {
    NftGrid.NftId(o.contractAddress, o.tokenId)
  }

  /** `allNFTs.filter(nft => !hiddenNFTs.includes(nftId))`. */
  function Visible(all: seq<OwnedNft>, hidden: seq<string>): (v: seq<OwnedNft>)
    ensures |v| <= |all|
    ensures forall o :: o in v <==> o in all && StatsId(o) !in hidden
  {
    if all == [] then []
    else
      var last := all[|all| - 1];
      var rest := Visible(all[..|all| - 1], hidden);
      assert all == all[..|all| - 1] + [last];
      if StatsId(last) in hidden then rest else rest + [last]
  }

  /** The filter on one more NFT at the end. */
  lemma VisibleSnoc(s: seq<OwnedNft>, o: OwnedNft, hidden: seq<string>)
    ensures Visible(s + [o], hidden) == Visible(s, hidden) + (if StatsId(o) in hidden then [] else [o])
  {
    assert (s + [o])[..|s|] == s;
  }

  /** The filter keeps the listing order: it distributes over concatenation. */
  lemma {:induction false} VisibleConcat(a: seq<OwnedNft>, b: seq<OwnedNft>, hidden: seq<string>)
    ensures Visible(a + b, hidden) == Visible(a, hidden) + Visible(b, hidden)
  {
    if b == [] {
      assert a + b == a;
    } else {
      var init, last := b[..|b| - 1], b[|b| - 1];
      assert b == init + [last];
      assert a + b == (a + init) + [last] by {
        Seqs.ConcatAssoc(a, init, [last]);
      }
      VisibleSnoc(a + init, last, hidden);
      VisibleSnoc(init, last, hidden);
      VisibleConcat(a, init, hidden);
      var tail := if StatsId(last) in hidden then [] else [last];
      Seqs.ConcatAssoc(Visible(a, hidden), Visible(init, hidden), tail);
    }
  }

  /** An empty hide-list hides nothing. */
  lemma {:induction false} VisibleNoneHidden(all: seq<OwnedNft>)
    ensures Visible(all, []) == all
  {
    if all != [] {
      var init, last := all[..|all| - 1], all[|all| - 1];
      assert all == init + [last];
      VisibleNoneHidden(init);
      VisibleSnoc(init, last, []);
    }
  }

  /**
   * The count agrees with the grid: the visible NFTs, formatted, are exactly
   * the records the main page's grid shows for the same listing and hide-list.
   */
  lemma {:induction false} VisibleMatchesGrid(all: seq<OwnedNft>, hidden: seq<string>)
    ensures NftGrid.FormatAll(Visible(all, hidden)) == NftGrid.Shown(NftGrid.FormatAll(all), hidden, false)
  {
    if all != [] {
      var init, last := all[..|all| - 1], all[|all| - 1];
      assert all == init + [last];
      VisibleMatchesGrid(init, hidden);
      VisibleSnoc(init, last, hidden);
      FormatAllSnoc(init, last);
      NftGrid.ShownSnoc(NftGrid.FormatAll(init), NftGrid.Format(last), hidden, false);
      assert NftGrid.Format(last).id == StatsId(last);
      if StatsId(last) !in hidden {
        FormatAllSnoc(Visible(init, hidden), last);
      }
    }
  }

  /** Formatting one more NFT appends its record. */
  lemma FormatAllSnoc(s: seq<OwnedNft>, o: OwnedNft)
    ensures NftGrid.FormatAll(s + [o]) == NftGrid.FormatAll(s) + [NftGrid.Format(o)]
  {
  }

  /** `floorPrice && floorPrice > 0`: the floor is present and positive. */
  predicate HasFloor(o: OwnedNft) {
    o.floorPrice.Some? && o.floorPrice.value > 0.0
  }

  /** `visibleNFTs.filter(nft => floorPrice && floorPrice > 0)`. */
  function WithFloor(vs: seq<OwnedNft>): (ws: seq<OwnedNft>)
    ensures |ws| <= |vs|
    ensures forall o :: o in ws <==> o in vs && HasFloor(o)
  {
    if vs == [] then []
    else
      var last := vs[|vs| - 1];
      var rest := WithFloor(vs[..|vs| - 1]);
      assert vs == vs[..|vs| - 1] + [last];
      if HasFloor(last) then rest + [last] else rest
  }

  /** `floorPrice || 0`. */
  function FloorOf(o: OwnedNft): NftApi.Price {
    match o.floorPrice
    case None => 0.0
    case Some(p) => p
  }

  /** The `reduce` that adds up `floorPrice || 0`. */
  function FloorTotal(ws: seq<OwnedNft>): (total: real)
    ensures total >= 0.0
    ensures (forall o :: o in ws ==> HasFloor(o)) ==> (total > 0.0 <==> ws != [])
  {
    if ws == [] then 0.0
    else
      assert forall o :: o in ws[..|ws| - 1] ==> o in ws;
      assert ws[|ws| - 1] in ws;
      FloorTotal(ws[..|ws| - 1]) + FloorOf(ws[|ws| - 1])
  }

  /** Only a present, positive floor adds anything, so the floor filter changes no total. */
  lemma {:induction false} ValueIgnoresNoFloor(vs: seq<OwnedNft>)
    ensures FloorTotal(WithFloor(vs)) == FloorTotal(vs)
  {
    if vs != [] {
      var init := vs[..|vs| - 1];
      var last := vs[|vs| - 1];
      ValueIgnoresNoFloor(init);
      if HasFloor(last) {
        assert (WithFloor(init) + [last])[..|WithFloor(init)|] == WithFloor(init);
      }
    }
  }

  /** What the card shows: the visible count and the sum of their floors. */
  datatype Stats = Stats(count: nat, value: real)

  /** `visibleNFTs.length` and the floor total over `nftsWithFloor`. */
  function StatsOf(all: seq<OwnedNft>, hidden: seq<string>): (s: Stats)
    ensures s.count <= |all|
    ensures s.value >= 0.0
    ensures s.value > 0.0 <==> exists o :: o in all && StatsId(o) !in hidden && HasFloor(o)
  {
    var vs := Visible(all, hidden);
    var ws := WithFloor(vs);
    assert (exists o :: o in all && StatsId(o) !in hidden && HasFloor(o)) <==> ws != [] by {
      if ws != [] {
        assert ws[0] in ws;
      }
    }
    Stats(|vs|, FloorTotal(ws))
  }

  /** Hiding an NFT never raises the count or the value. */
  lemma {:induction false} HidingLowersStats(all: seq<OwnedNft>, hidden: seq<string>, id: string)
    ensures StatsOf(all, hidden + [id]).count <= StatsOf(all, hidden).count
    ensures StatsOf(all, hidden + [id]).value <= StatsOf(all, hidden).value
  {
    if all != [] {
      var init := all[..|all| - 1];
      var last := all[|all| - 1];
      HidingLowersStats(init, hidden, id);
      var v0, v1 := Visible(init, hidden), Visible(init, hidden + [id]);
      if StatsId(last) !in hidden + [id] {
        WithFloorSnoc(v0, last);
        WithFloorSnoc(v1, last);
      } else if StatsId(last) !in hidden {
        WithFloorSnoc(v0, last);
      }
    }
  }

  /** The floor filter and total of a list with one more NFT. */
  lemma WithFloorSnoc(vs: seq<OwnedNft>, o: OwnedNft)
    ensures FloorTotal(WithFloor(vs + [o])) == FloorTotal(WithFloor(vs)) + (if HasFloor(o) then FloorOf(o) else 0.0)
  {
    assert (vs + [o])[..|vs|] == vs;
    if HasFloor(o) {
      assert (WithFloor(vs) + [o])[..|WithFloor(vs)|] == WithFloor(vs);
    }
  }

  /** The listing reply as the stats code sees it. */
  type ListReply = NftGrid.ListReply

  /** The two numbers the card keeps in its state. */
  class StatsCard {
    var nftCount: nat
    var nftTotalValue: real

    constructor ()
      ensures nftCount == 0 && nftTotalValue == 0.0
    {
      nftCount := 0;
      nftTotalValue := 0.0;
    }

    /**
     * `fetchNFTStats`: without a wallet nothing is fetched; an error body or an
     * exception leaves both numbers as they were; otherwise both are set from
     * the listing and the stored hide-list, which is only read.
     */
    method FetchStats(wallet: string, reply: ListReply, store: HiddenList.HiddenStore)
      modifies this
      ensures wallet == "" || !reply.Listed? ==> nftCount == old(nftCount) && nftTotalValue == old(nftTotalValue)
      ensures wallet != "" && reply.Listed? ==>
        && nftCount == StatsOf(reply.nfts, store.ids).count
        && nftTotalValue == StatsOf(reply.nfts, store.ids).value
      ensures wallet != "" && reply.Listed? ==> nftCount <= |reply.nfts| && nftTotalValue >= 0.0
    {
      if wallet == "" {
        return;
      }
      match reply {
        case ErrorBody =>
        case Threw =>
        case Listed(all) =>
          var stats := StatsOf(all, store.ids);
          nftCount := stats.count;
          nftTotalValue := stats.value;
      }
    }
  }
}
