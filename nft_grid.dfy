/**
 * The NFT grid: it turns the owned-NFT listing into display records, extends
 * the stored hide-list with the records it auto-hides, shows either the
 * visible or the hidden part, sorts it for display and keeps the selection.
 *
 * The listing reply and the hide-list are inputs; `localeCompare` is the
 * parameter `collate`.
 */
module NftGrid {
  import opened Wrappers
  import opened Text
  import Seqs
  import Sorting
  import NftApi
  import HiddenList

  type Price = NftApi.Price

  /** A display record. A floor of None is the "—" placeholder; a floor of 0 is a floor. */
  datatype Nft = Nft(
    id: string,
    name: string,
    collection: string,
    image: string,
    tokenId: string,
    contractAddress: string,
    floor: Option<Price>)

  /** What the grid gets back from `/api/nfts?address=…`: the NFTs, a body with an `error` field, or an exception. */
  datatype ListReply = Listed(nfts: seq<NftApi.OwnedNft>) | ErrorBody | Threw

  // ----------------------------------------------------------- the record id

  /** The record id: contract address, a dash, token id. */
  function NftId(contract: string, tokenId: string): (id: string)
    ensures |id| == |contract| + 1 + |tokenId|
    ensures id[..|contract|] == contract && id[|contract|] == '-' && id[|contract| + 1..] == tokenId
  {
    contract + "-" + tokenId
  }

  /** The index of the first dash in s, or |s| when there is none. */
  function FirstDash(s: string): (k: nat)
    ensures k <= |s| && (k < |s| ==> s[k] == '-')
    ensures forall i :: 0 <= i < k ==> s[i] != '-'
  {
    if s == [] || s[0] == '-' then 0 else 1 + FirstDash(s[1..])
  }

  /**
   * Contract addresses hold no dash, so an id names one contract and one
   * token: two records share an id exactly when they share both.
   */
  lemma NftIdInjective(c1: string, t1: string, c2: string, t2: string)
    requires '-' !in c1 && '-' !in c2
    ensures NftId(c1, t1) == NftId(c2, t2) <==> c1 == c2 && t1 == t2
  {
    if NftId(c1, t1) == NftId(c2, t2) {
      var id := NftId(c1, t1);
      assert forall i :: 0 <= i < |c1| ==> id[i] == c1[i];
      assert forall i :: 0 <= i < |c2| ==> id[i] == c2[i];
      assert FirstDash(id) == |c1|;
      assert FirstDash(id) == |c2|;
    }
  }

  // --------------------------------------------------------------- formatting

  /** The display record of one listed NFT. */
  function Format(o: NftApi.OwnedNft): Nft {
    Nft(
      NftId(o.contractAddress, o.tokenId),
      Or(o.name, Or(o.contractName, "Unnamed NFT")),
      Or(o.contractName, "Unknown Collection"),
      Or(o.cachedUrl, Or(o.thumbnailUrl, Or(o.originalUrl, "/digital-art-collection.png"))),
      o.tokenId,
      o.contractAddress,
      o.floorPrice)
  }

  /**
   * The fallbacks of a display record: the name is the NFT's, else the
   * contract's, else "Unnamed NFT"; the collection is the contract's name, else
   * "Unknown Collection"; the image the first of the cached, thumbnail and
   * original URLs that is set, else the placeholder; the floor is kept, 0 included.
   */
  lemma FormatFields(o: NftApi.OwnedNft)
    ensures var n := Format(o);
      && n.id == NftId(o.contractAddress, o.tokenId)
      && n.name != "" && n.collection != "" && n.image != ""
      && (o.name != "" ==> n.name == o.name)
      && (o.name == "" && o.contractName != "" ==> n.name == o.contractName)
      && (o.name == "" && o.contractName == "" ==> n.name == "Unnamed NFT")
      && (o.contractName != "" <==> n.collection == o.contractName)
      && (o.contractName == "" ==> n.collection == "Unknown Collection")
      && (o.cachedUrl != "" ==> n.image == o.cachedUrl)
      && (o.cachedUrl == "" && o.thumbnailUrl != "" ==> n.image == o.thumbnailUrl)
      && (o.cachedUrl == "" && o.thumbnailUrl == "" && o.originalUrl != "" ==> n.image == o.originalUrl)
      && (o.cachedUrl == "" && o.thumbnailUrl == "" && o.originalUrl == "" ==> n.image == "/digital-art-collection.png")
      && n.floor == o.floorPrice
  {
  }

  /** `allNFTs.map(format)`. */
  function FormatAll(raw: seq<NftApi.OwnedNft>): (ns: seq<Nft>)
    ensures |ns| == |raw|
    ensures forall i :: 0 <= i < |raw| ==> ns[i] == Format(raw[i])
  {
    seq(|raw|, i requires 0 <= i < |raw| => Format(raw[i]))
  }

  // ----------------------------------------------------------------- auto-hide

  /** The token id read as base 16 is 0; an id with no hexadecimal digit reads as NaN and is not. */
  predicate ZeroToken(o: NftApi.OwnedNft) {
    ParseIntHex(o.tokenId) == Some(0)
  }

  /** Flagged by either spam flag, or named with "claim", "reward" or "airdrop" in any case. */
  predicate IsSpam(o: NftApi.OwnedNft) {
    o.contractIsSpam || o.spamIsSpam
    || Contains(ToLower(o.name), "claim")
    || Contains(ToLower(o.name), "reward")
    || Contains(ToLower(o.name), "airdrop")
  }

  predicate AutoHidden(o: NftApi.OwnedNft) {
    ZeroToken(o) || IsSpam(o)
  }

  /** What the pass looks at in one NFT: its id and the outcome of the two auto-hide checks. */
  datatype Verdict = Verdict(id: string, zero: bool, spam: bool)

  function VerdictOf(o: NftApi.OwnedNft): Verdict {
    Verdict(NftId(o.contractAddress, o.tokenId), ZeroToken(o), IsSpam(o))
  }

  /** The verdicts of the listed NFTs, in order. */
  function Verdicts(raw: seq<NftApi.OwnedNft>): (vs: seq<Verdict>)
    ensures |vs| == |raw|
    ensures forall i :: 0 <= i < |raw| ==> vs[i] == VerdictOf(raw[i])
  {
    seq(|raw|, i requires 0 <= i < |raw| => VerdictOf(raw[i]))
  }

  /** What the pass does to the hide-list for one NFT: the zero check, then the spam check, each an `includes`-guarded push. */
  function HideStep(hidden: seq<string>, v: Verdict): (r: seq<string>)
    ensures r == if v.zero || v.spam then Seqs.AppendNew(hidden, v.id) else hidden
  {
    var h := if v.zero then Seqs.AppendNew(hidden, v.id) else hidden;
    if v.spam then Seqs.AppendNew(h, v.id) else h
  }

  /** The hide-list after the pass over the given verdicts, in order. */
  function HideAll(hidden: seq<string>, vs: seq<Verdict>): seq<string> {
    if vs == [] then hidden else HideStep(HideAll(hidden, vs[..|vs| - 1]), vs[|vs| - 1])
  }

  lemma HideAllStep(hidden: seq<string>, vs: seq<Verdict>, i: nat)
    requires i < |vs|
    ensures HideAll(hidden, vs[..i + 1]) == HideStep(HideAll(hidden, vs[..i]), vs[i])
  {
    assert vs[..i + 1][..i] == vs[..i];
  }

  /** The hide-list after the formatting pass over the listed NFTs. */
  function AutoHide(hidden: seq<string>, raw: seq<NftApi.OwnedNft>): seq<string> {
    HideAll(hidden, Verdicts(raw))
  }

  /**
   * The pass only appends: the old entries keep their places, at most one id
   * is added per NFT, no duplicate is introduced, and the ids added are
   * exactly those of auto-hidden NFTs.
   */
  lemma {:induction false} HideAllAppends(hidden: seq<string>, vs: seq<Verdict>)
    ensures var r := HideAll(hidden, vs);
      && |hidden| <= |r| <= |hidden| + |vs|
      && r[..|hidden|] == hidden
      && (Seqs.NoDup(hidden) ==> Seqs.NoDup(r))
      && forall x :: x in r <==> x in hidden || exists i :: 0 <= i < |vs| && (vs[i].zero || vs[i].spam) && vs[i].id == x
  {
    if vs != [] {
      var init := vs[..|vs| - 1];
      HideAllAppends(hidden, init);
      assert forall i :: 0 <= i < |init| ==> init[i] == vs[i];
      var prev := HideAll(hidden, init);
      var r := HideAll(hidden, vs);
      assert r[..|prev|] == prev;
      assert r[..|hidden|] == prev[..|hidden|];
    }
  }

  /**
   * After the pass the hide-list holds its old entries, in place and first,
   * and besides them exactly the ids of the listed NFTs whose token id reads
   * as 0 or that are spam, each once, without introducing duplicates.
   */
  lemma AutoHideMembers(hidden: seq<string>, raw: seq<NftApi.OwnedNft>)
    ensures var r := AutoHide(hidden, raw);
      && |hidden| <= |r| <= |hidden| + |raw|
      && r[..|hidden|] == hidden
      && (Seqs.NoDup(hidden) ==> Seqs.NoDup(r))
      && forall x :: x in r <==>
           x in hidden || exists i :: 0 <= i < |raw| && AutoHidden(raw[i]) && NftId(raw[i].contractAddress, raw[i].tokenId) == x
  {
    var vs := Verdicts(raw);
    HideAllAppends(hidden, vs);
    forall i | 0 <= i < |raw|
      ensures (vs[i].zero || vs[i].spam) == AutoHidden(raw[i])
      ensures vs[i].id == NftId(raw[i].contractAddress, raw[i].tokenId)
    {
    }
  }

  // ----------------------------------------------------------------- partition

  /** `formatted.filter(…)`: the records on the hide-list on the hidden page, the others elsewhere. */
  function Shown(ns: seq<Nft>, hidden: seq<string>, onHiddenPage: bool): seq<Nft> {
    if ns == [] then []
    else
      var rest := Shown(ns[..|ns| - 1], hidden, onHiddenPage);
      if (ns[|ns| - 1].id in hidden) == onHiddenPage then rest + [ns[|ns| - 1]] else rest
  }

  /** A record is shown exactly when it is listed and its hide-list membership matches the page. */
  lemma {:induction false} ShownMembers(ns: seq<Nft>, hidden: seq<string>, onHiddenPage: bool)
    ensures forall n :: n in Shown(ns, hidden, onHiddenPage) <==> n in ns && (n.id in hidden) == onHiddenPage
  {
    if ns != [] {
      ShownMembers(ns[..|ns| - 1], hidden, onHiddenPage);
      assert ns == ns[..|ns| - 1] + [ns[|ns| - 1]];
    }
  }

  /** The filter keeps the input order: it distributes over concatenation. */
  lemma {:induction false} ShownConcat(a: seq<Nft>, b: seq<Nft>, hidden: seq<string>, onHiddenPage: bool)
    ensures Shown(a + b, hidden, onHiddenPage) == Shown(a, hidden, onHiddenPage) + Shown(b, hidden, onHiddenPage)
  {
    if b == [] {
      assert a + b == a;
    } else {
      var init, last := b[..|b| - 1], b[|b| - 1];
      assert b == init + [last];
      assert a + b == (a + init) + [last] by {
        Seqs.ConcatAssoc(a, init, [last]);
      }
      ShownSnoc(a + init, last, hidden, onHiddenPage);
      ShownSnoc(init, last, hidden, onHiddenPage);
      ShownConcat(a, init, hidden, onHiddenPage);
      var tail := if (last.id in hidden) == onHiddenPage then [last] else [];
      Seqs.ConcatAssoc(Shown(a, hidden, onHiddenPage), Shown(init, hidden, onHiddenPage), tail);
    }
  }

  /** The filter on one more record at the end. */
  lemma ShownSnoc(ns: seq<Nft>, n: Nft, hidden: seq<string>, onHiddenPage: bool)
    ensures Shown(ns + [n], hidden, onHiddenPage)
      == Shown(ns, hidden, onHiddenPage) + (if (n.id in hidden) == onHiddenPage then [n] else [])
  {
    assert (ns + [n])[..|ns|] == ns;
  }

  /** The two pages split the records between them: together they hold each record as often as the listing does. */
  lemma {:induction false} ShownComplement(ns: seq<Nft>, hidden: seq<string>)
    ensures multiset(Shown(ns, hidden, true)) + multiset(Shown(ns, hidden, false)) == multiset(ns)
  {
    if ns != [] {
      ShownComplement(ns[..|ns| - 1], hidden);
      assert ns == ns[..|ns| - 1] + [ns[|ns| - 1]];
    }
  }

  // --------------------------------------------------------------- the fetch

  /**
   * The `map` over the listed NFTs: formats each one and, along the way, pushes
   * the id of each zero-token or spam NFT onto the hide-list unless it is
   * already there.
   */
  method FormatPass(raw: seq<NftApi.OwnedNft>, hidden0: seq<string>) returns (formatted: seq<Nft>, hidden: seq<string>)
    ensures formatted == FormatAll(raw)
    ensures hidden == AutoHide(hidden0, raw)
  {
    ghost var vs, fs := Verdicts(raw), FormatAll(raw);
    hidden := hidden0;
    formatted := [];
    for i := 0 to |raw|
      invariant hidden == HideAll(hidden0, vs[..i])
      invariant formatted == fs[..i]
    {
      var o := raw[i];
      var id := NftId(o.contractAddress, o.tokenId);
      var tokenIdNum := ParseIntHex(o.tokenId);
      if tokenIdNum == Some(0) && id !in hidden {
        hidden := hidden + [id];
      }
      var isSpam := IsSpam(o);
      if isSpam && id !in hidden {
        hidden := hidden + [id];
      }
      formatted := formatted + [Format(o)];
      assert vs[i] == Verdict(id, tokenIdNum == Some(0), isSpam);
      HideAllStep(hidden0, vs, i);
      Seqs.PrefixStep(fs, i);
    }
    assert vs[..|raw|] == vs && fs[..|raw|] == fs;
  }

  class NftGridView {
    /** The `isHiddenPage` prop. */
    const onHiddenPage: bool
    var nfts: seq<Nft>
    var loading: bool

    constructor (onHiddenPage: bool)
      ensures this.onHiddenPage == onHiddenPage
      ensures nfts == [] && loading
    {
      this.onHiddenPage := onHiddenPage;
      nfts := [];
      loading := true;
    }

    /**
     * `fetchNFTs`: without a wallet nothing is fetched; an error body or an
     * exception empties the list; an empty listing empties it without
     * touching storage; otherwise the pass formats every NFT while pushing
     * auto-hidden ids onto the hide-list, writes the list back once and keeps
     * the records of this page.
     */
    method FetchNfts(wallet: string, reply: ListReply, store: HiddenList.HiddenStore)
      modifies this, store
      ensures !loading
      ensures wallet == "" ==> nfts == old(nfts) && store.ids == old(store.ids)
      ensures wallet != "" && !reply.Listed? ==> nfts == [] && store.ids == old(store.ids)
      ensures wallet != "" && reply.Listed? && reply.nfts == [] ==> nfts == [] && store.ids == old(store.ids)
      ensures wallet != "" && reply.Listed? && reply.nfts != [] ==>
        && store.ids == AutoHide(old(store.ids), reply.nfts)
        && nfts == Shown(FormatAll(reply.nfts), store.ids, onHiddenPage)
    {
      if wallet == "" {
        loading := false;
        return;
      }
      loading := true;
      match reply {
        case ErrorBody =>
          nfts := [];
        case Threw =>
          nfts := [];
        case Listed(raw) =>
          if |raw| > 0 {
            var formatted, hidden := FormatPass(raw, store.ids);
            store.ids := hidden;
            nfts := Shown(formatted, hidden, onHiddenPage);
          } else {
            nfts := [];
          }
      }
      loading := false;
    }
  }

  /** Token 0 of contract 0xA, named "Foo". */
  const FooToken := NftApi.OwnedNft("0xA", "", false, false, "Foo", "0", "", "", "", None)
  /** Token 5 of contract 0xB, named "Bar". */
  const BarToken := NftApi.OwnedNft("0xB", "", false, false, "Bar", "5", "", "", "", None)

  /** Token "0" reads as 0 and "Foo" is no spam name. */
  lemma FooVerdict()
    ensures VerdictOf(FooToken) == Verdict("0xA-0", true, false)
  {
    SingleHexDigit('0');
    NameNotSpam("Foo");
  }

  /** A name of fewer than five characters holds none of the spam words. */
  lemma NameNotSpam(name: string)
    requires |name| < 5
    ensures !Contains(ToLower(name), "claim") && !Contains(ToLower(name), "reward") && !Contains(ToLower(name), "airdrop")
  {
    ShortNotContained(ToLower(name), "claim");
    ShortNotContained(ToLower(name), "reward");
    ShortNotContained(ToLower(name), "airdrop");
  }

  /** Token "5" reads as 5 and "Bar" is no spam name. */
  lemma BarVerdict()
    ensures VerdictOf(BarToken) == Verdict("0xB-5", false, false)
  {
    SingleHexDigit('5');
    NameNotSpam("Bar");
  }

  /** Starting from an empty hide-list, the pass hides the token 0 and only it. */
  lemma ScenarioHidden()
    ensures AutoHide([], [FooToken, BarToken]) == ["0xA-0"]
  {
    FooVerdict();
    BarVerdict();
    var raw := [FooToken, BarToken];
    var vs := Verdicts(raw);
    assert vs[0] == VerdictOf(raw[0]) && vs[1] == VerdictOf(raw[1]);
    HideAllTwo([], vs);
    assert HideStep([], vs[0]) == ["0xA-0"];
  }

  lemma HideAllTwo(hidden: seq<string>, vs: seq<Verdict>)
    requires |vs| == 2
    ensures HideAll(hidden, vs) == HideStep(HideStep(hidden, vs[0]), vs[1])
  {
    assert vs[..1][..0] == [];
    assert HideAll(hidden, vs[..1]) == HideStep(hidden, vs[0]);
  }

  /**
   * Two listed NFTs, the token 0 of 0xA named "Foo" and the token 5 of 0xB
   * named "Bar": with the hide-list the pass leaves (ScenarioHidden), the first
   * is on the hidden page and the second on the main page.
   */
  lemma TwoNftScenario()
    ensures Shown(FormatAll([FooToken, BarToken]), ["0xA-0"], false) == [Format(BarToken)]
    ensures Shown(FormatAll([FooToken, BarToken]), ["0xA-0"], true) == [Format(FooToken)]
  {
    var a, b := Format(FooToken), Format(BarToken);
    assert a.id == "0xA-0" && b.id == "0xB-5";
    assert FormatAll([FooToken, BarToken]) == [a, b];
    ShownPair(a, b, ["0xA-0"]);
  }

  lemma ShownPair(a: Nft, b: Nft, hidden: seq<string>)
    requires a.id in hidden && b.id !in hidden
    ensures Shown([a, b], hidden, false) == [b] && Shown([a, b], hidden, true) == [a]
  {
    assert [a, b][..1] == [a] && [a][..0] == [];
    assert Shown([a], hidden, false) == Shown([], hidden, false) == [];
    assert Shown([a], hidden, true) == Shown([], hidden, true) + [a];
  }

  // ------------------------------------------------------------------ sorting

  datatype SortKey = Date | Name | Collection | Floor
  datatype SortDir = Asc | Desc

  /** The number a floor sorts by: the floor, or -1 for the "—" placeholder. */
  function FloorNumber(n: Nft): (r: real)
    ensures n.floor.None? <==> r == -1.0
    ensures n.floor.Some? ==> r == n.floor.value
  {
    match n.floor
    case None => -1.0
    case Some(p) => p
  }

  /** The ascending comparison for a sort key. */
  function AscCompare(key: SortKey, collate: (string, string) -> int, a: Nft, b: Nft): (r: real)
    ensures key == Date ==> r == 0.0
    ensures key == Floor && a.floor.None? && b.floor.None? ==> r == 0.0
    ensures key == Floor && a.floor.None? && b.floor.Some? ==> r > 0.0
    ensures key == Floor && a.floor.Some? && b.floor.None? ==> r < 0.0
    ensures key == Floor && a.floor.Some? && b.floor.Some? ==>
      (r < 0.0 <==> a.floor.value < b.floor.value) && (r == 0.0 <==> a.floor.value == b.floor.value)
  {
    match key
    case Date => 0.0
    case Name => collate(a.name, b.name) as real
    case Collection => collate(a.collection, b.collection) as real
    case Floor =>
      var fa, fb := FloorNumber(a), FloorNumber(b);
      if fa == -1.0 && fb == -1.0 then 0.0
      else if fa == -1.0 then 1.0
      else if fb == -1.0 then -1.0
      else fa - fb
  }

  /** The comparator handed to `sort`: descending negates the whole ascending comparison. */
  function Comparator(key: SortKey, dir: SortDir, collate: (string, string) -> int): (Nft, Nft) -> real {
    (a: Nft, b: Nft) => if dir == Asc then AscCompare(key, collate, a, b) else -AscCompare(key, collate, a, b)
  }

  /** `sortedNfts`. */
  function SortedNfts(ns: seq<Nft>, key: SortKey, dir: SortDir, collate: (string, string) -> int): seq<Nft> {
    Sorting.Sort(Comparator(key, dir, collate), ns)
  }

  /** Sorting by date leaves the records in listing order, in either direction. */
  lemma DateKeepsOrder(ns: seq<Nft>, dir: SortDir, collate: (string, string) -> int)
    ensures SortedNfts(ns, Date, dir, collate) == ns
  {
    Sorting.SortAllEqual(Comparator(Date, dir, collate), ns);
  }

  /** Every comparator swaps sign with its arguments when the collation does. */
  lemma ComparatorConsistent(key: SortKey, dir: SortDir, collate: (string, string) -> int)
    requires Sorting.ConsistentCollation(collate)
    ensures Sorting.SignConsistent(Comparator(key, dir, collate))
  {
    var cmp := Comparator(key, dir, collate);
    forall a, b ensures cmp(a, b) < 0.0 <==> cmp(b, a) > 0.0 {
      assert collate(a.name, b.name) < 0 <==> collate(b.name, a.name) > 0;
      assert collate(a.collection, b.collection) < 0 <==> collate(b.collection, a.collection) > 0;
    }
  }

  /** The displayed list is a rearrangement of the records, in order for the comparator. */
  lemma SortedIsOrderedPermutation(ns: seq<Nft>, key: SortKey, dir: SortDir, collate: (string, string) -> int)
    requires Sorting.ConsistentCollation(collate)
    ensures multiset(SortedNfts(ns, key, dir, collate)) == multiset(ns)
    ensures Sorting.Sorted(Comparator(key, dir, collate), SortedNfts(ns, key, dir, collate))
  {
    ComparatorConsistent(key, dir, collate);
    Sorting.SortSorted(Comparator(key, dir, collate), ns);
  }

  /** Ascending by floor, every record without a floor comes after every record with one. */
  lemma FloorAscNoFloorLast(ns: seq<Nft>, collate: (string, string) -> int)
    ensures var r := SortedNfts(ns, Floor, Asc, collate);
      forall i, j :: 0 <= i < j < |r| && r[j].floor.Some? ==> r[i].floor.Some?
  {
    var cmp := Comparator(Floor, Asc, collate);
    assert Sorting.SignConsistent(cmp) by {
      forall a, b ensures cmp(a, b) < 0.0 <==> cmp(b, a) > 0.0 {
        assert cmp(a, b) == AscCompare(Floor, collate, a, b);
      }
    }
    Sorting.SortSorted(cmp, ns);
    Sorting.SortedGroupsFirst(cmp, (n: Nft) => n.floor.Some?, SortedNfts(ns, Floor, Asc, collate));
  }

  /** Descending by floor, the negation puts every record without a floor before every record with one. */
  lemma FloorDescNoFloorFirst(ns: seq<Nft>, collate: (string, string) -> int)
    ensures var r := SortedNfts(ns, Floor, Desc, collate);
      forall i, j :: 0 <= i < j < |r| && r[j].floor.None? ==> r[i].floor.None?
  {
    var cmp := Comparator(Floor, Desc, collate);
    assert Sorting.SignConsistent(cmp) by {
      forall a, b ensures cmp(a, b) < 0.0 <==> cmp(b, a) > 0.0 {
        assert cmp(a, b) == -AscCompare(Floor, collate, a, b);
      }
    }
    Sorting.SortSorted(cmp, ns);
    Sorting.SortedGroupsFirst(cmp, (n: Nft) => n.floor.None?, SortedNfts(ns, Floor, Desc, collate));
  }

  // ---------------------------------------------------------------- selection

  /** The selected ids and whether selection mode is on; both live in the page. */
  datatype Selection = Selection(ids: seq<string>, active: bool)

  /** `toggleSelection`: a selected id is filtered out, turning the mode off when nothing is left; another id is appended. */
  function Toggle(s: Selection, id: string): (r: Selection)
    ensures id in s.ids ==> r.ids == Seqs.Without(s.ids, [id])
    ensures id in s.ids ==> id !in r.ids && (forall x :: x in r.ids <==> x in s.ids && x != id)
    ensures id in s.ids ==> r.active == (s.active && r.ids != [])
    ensures id !in s.ids ==> r.ids == s.ids + [id] && r.active == s.active
  {
    if id in s.ids then
      var updated := Seqs.Without(s.ids, [id]);
      if updated == [] then Selection(updated, false) else Selection(updated, s.active)
    else Selection(s.ids + [id], s.active)
  }

  /** `handleLongPress`: selection mode on, the pressed id the only one selected. */
  function LongPress(s: Selection, id: string): (r: Selection)
    ensures r.active && r.ids == [id]
  {
    Selection([id], true)
  }

  /** Tapping an unselected id twice gives the selection back, except that an empty one ends up with the mode off. */
  lemma ToggleTwice(s: Selection, id: string)
    requires id !in s.ids
    ensures Toggle(Toggle(s, id), id) == Selection(s.ids, s.active && s.ids != [])
  {
    Seqs.WithoutConcat(s.ids, [id], [id]);
    Seqs.WithoutNone(s.ids, [id]);
    assert Seqs.Without([id], [id]) == [];
  }

  /** A long press followed by a tap on the same record leaves nothing selected and the mode off. */
  lemma LongPressThenTap(s: Selection, id: string)
    ensures Toggle(LongPress(s, id), id) == Selection([], false)
  {
    assert Seqs.Without([id], [id]) == [];
  }
}
