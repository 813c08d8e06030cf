/**
 * The `/api/nfts` route: it chooses a branch from the query string, pages
 * through the owned-NFT listing, passes token sales through, and turns
 * collection sales into one average price per day.
 *
 * Upstream replies are inputs: a reply to the collection-sales request, one
 * to the token-sales request and the sequence of listing pages in the order
 * they would be fetched. Absent or `null` strings are "" throughout, since the
 * route treats both as falsy.
 */
module NftApi {
  import opened Wrappers
  import opened Text
  import Seqs
  import Sorting

  /** A non-negative ETH amount: a collection floor price. */
  type Price = r: real | r >= 0.0

  /** One owned token as the listing endpoint returns it. */
  datatype OwnedNft = OwnedNft(
    contractAddress: string,
    contractName: string,
    contractIsSpam: bool,   // contract.isSpam
    spamIsSpam: bool,       // spam.isSpam
    name: string,
    tokenId: string,
    cachedUrl: string,
    thumbnailUrl: string,
    originalUrl: string,
    floorPrice: Option<Price>)   // contract.openSeaMetadata.floorPrice

  /** The query parameters the route reads; a missing one is "". */
  datatype Query = Query(address: string, history: string, tokenId: string, contractAddress: string)

  datatype Branch = CollectionSalesBranch | TokenSalesBranch | MissingAddress | OwnedListing

  /** One upstream sale record. */
  datatype Sale = Sale(
    sellerFee: string,      // sellerFee.amount, in wei
    protocolFee: string,    // protocolFee.amount
    royaltyFee: string,     // royaltyFee.amount
    blockTimestamp: string,
    buyerAddress: string,
    sellerAddress: string)

  /** The reply to a sales request: not ok, a body, or an exception. */
  datatype SalesReply = NotOk | SalesBody(nftSales: seq<Sale>) | SalesThrew

  /** The reply to one listing request. */
  datatype PageReply = PageBody(ownedNfts: seq<OwnedNft>, pageKey: string) | PageThrew

  datatype SalesPoint = SalesPoint(date: string, price: real)

  /** A token sale passed through; a price of None is the number 0. */
  datatype TokenSale = TokenSale(timestamp: string, price: Option<string>, buyer: string, seller: string)

  datatype Response =
    | Owned(nfts: seq<OwnedNft>)
    | CollectionSales(points: seq<SalesPoint>)
    | TokenSales(sales: seq<TokenSale>)
    | Failed(status: nat)

  datatype DayAgg = DayAgg(total: real, count: nat)

  const WeiPerEth: real := 1000000000000000000.0

  // ---------------------------------------------------------------- branches

  /** Which branch GET takes; the first matching condition wins. */
  function SelectBranch(q: Query): (b: Branch)
    ensures b == CollectionSalesBranch <==> q.history == "true" && q.contractAddress != ""
    ensures b == TokenSalesBranch <==>
      q.history == "true" && q.contractAddress == "" && q.address != "" && q.tokenId != ""
    ensures b == MissingAddress <==> q.address == "" && !(q.history == "true" && q.contractAddress != "")
    ensures b == OwnedListing <==>
      q.address != "" && !(q.history == "true" && (q.contractAddress != "" || q.tokenId != ""))
  {
    if q.history == "true" && q.contractAddress != "" then CollectionSalesBranch
    else if q.history == "true" && q.address != "" && q.tokenId != "" then TokenSalesBranch
    else if q.address == "" then MissingAddress
    else OwnedListing
  }

  // ------------------------------------------------------------ owned listing

  /** The listing stops after a page that throws or has no page key. */
  predicate Ends(p: PageReply) {
    p.PageThrew? || p.pageKey == ""
  }

  /** The index of the first page that ends the listing. */
  function FirstEnd(pages: seq<PageReply>): (k: nat)
    requires exists j :: 0 <= j < |pages| && Ends(pages[j])
    ensures k < |pages| && Ends(pages[k])
    ensures forall j :: 0 <= j < k ==> !Ends(pages[j])
  {
    if Ends(pages[0]) then 0
    else
      assert exists j :: 0 <= j < |pages[1..]| && Ends(pages[1..][j]) by {
        var j :| 0 <= j < |pages| && Ends(pages[j]);
        assert pages[1..][j - 1] == pages[j];
      }
      1 + FirstEnd(pages[1..])
  }

  /** The owned NFTs of the given pages, concatenated in order. */
  function Flatten(pages: seq<PageReply>): seq<OwnedNft> {
    if pages == [] then []
    else
      var last := pages[|pages| - 1];
      Flatten(pages[..|pages| - 1]) + (if last.PageBody? then last.ownedNfts else [])
  }

  /**
   * The `do … while (pageKey)` loop: fetches pages in order until one comes
   * back without a page key, concatenating their `ownedNfts`. An exception
   * ends the loop with no result. `fetched` counts the requests made.
   */
  method FetchOwned(pages: seq<PageReply>) returns (result: Option<seq<OwnedNft>>, fetched: nat)
    requires exists j :: 0 <= j < |pages| && Ends(pages[j])
    ensures fetched == FirstEnd(pages) + 1
    ensures pages[fetched - 1].PageThrew? ==> result == None
    ensures pages[fetched - 1].PageBody? ==> result == Some(Flatten(pages[..fetched]))
  {
    var all: seq<OwnedNft> := [];
    var i := 0;
    ghost var stop := FirstEnd(pages);
    while true
      invariant 0 <= i <= stop
      invariant all == Flatten(pages[..i])
      decreases stop - i
    {
      assert pages[..i + 1][..i] == pages[..i];
      match pages[i]
      case PageThrew =>
        return None, i + 1;
      case PageBody(owned, key) =>
        assert Flatten(pages[..i + 1]) == Flatten(pages[..i]) + owned;
        if |owned| > 0 {
          all := all + owned;
        } else {
          assert all + owned == all;
        }
        if key == "" {
          return Some(all), i + 1;
        }
        i := i + 1;
    }
  }

  // ------------------------------------------------------------ wei and sales

  /** `parseWeiToEth`: an amount in wei as ETH; 0 when absent or not a BigInt literal. */
  function ParseWeiToEth(raw: string): real {
    if raw == "" then 0.0
    else match ParseBigInt(raw)
      case Some(wei) => wei as real / 1000000000000000000.0
      case None => 0.0
  }

  /** A decimal wei amount is read exactly. */
  lemma DecimalWei(d: string)
    requires d != [] && AllDigits(d, 10)
    ensures ParseWeiToEth(d) * WeiPerEth == ValueOf(d, 10) as real
  {
    DecimalParses(d);
  }

  /** A "0x" wei amount is read as its base-16 value. */
  lemma HexWei(h: string)
    requires h != [] && AllDigits(h, 16)
    ensures ParseWeiToEth("0x" + h) * WeiPerEth == ValueOf(h, 16) as real
  {
    HexLiteralParses(h);
  }

  /** The sale price: seller, protocol and royalty fees added up. */
  function SalePrice(s: Sale): real {
    ParseWeiToEth(s.sellerFee) + ParseWeiToEth(s.protocolFee) + ParseWeiToEth(s.royaltyFee)
  }

  /** The day a sale belongs to: the first 10 characters of its timestamp, or of `now` without one. */
  function DayKey(s: Sale, now: string): (key: string)
    ensures |key| <= 10
    ensures s.blockTimestamp != "" ==> StartsWith(s.blockTimestamp, key) && (|key| < 10 ==> key == s.blockTimestamp)
    ensures s.blockTimestamp == "" ==> StartsWith(now, key) && (|key| < 10 ==> key == now)
  {
    Seqs.Take(if s.blockTimestamp != "" then s.blockTimestamp else now, 10)
  }

  /** What the chart takes from a sale: its day and its price in ETH. */
  datatype Priced = Priced(day: string, price: real)

  function PriceOf(s: Sale, now: string): Priced {
    Priced(DayKey(s, now), SalePrice(s))
  }

  /** The sales, in order, as day and price. */
  function PricedAll(sales: seq<Sale>, now: string): (ps: seq<Priced>)
    ensures |ps| == |sales|
    ensures forall i :: 0 <= i < |sales| ==> ps[i] == PriceOf(sales[i], now)
  {
    if sales == [] then []
    else PricedAll(sales[..|sales| - 1], now) + [PriceOf(sales[|sales| - 1], now)]
  }

  lemma PricedStep(sales: seq<Sale>, i: nat, now: string)
    requires i < |sales|
    ensures PricedAll(sales[..i + 1], now) == PricedAll(sales[..i], now) + [PriceOf(sales[i], now)]
  {
    assert sales[..i + 1][..i] == sales[..i];
  }

  /** A sale enters the chart only when its price is positive. */
  predicate Counted(p: Priced) {
    p.price > 0.0
  }

  /** The days of the counted sales, in order of first appearance (the accumulator object's key order). */
  function DayKeys(ps: seq<Priced>): (days: seq<string>)
    ensures Seqs.NoDup(days)
  {
    if ps == [] then []
    else
      var last := ps[|ps| - 1];
      var days := DayKeys(ps[..|ps| - 1]);
      if Counted(last) then Seqs.AppendNew(days, last.day) else days
  }

  /** The summed price of the counted sales of one day. */
  function DayTotal(ps: seq<Priced>, day: string): (total: real)
    ensures total >= 0.0
  {
    if ps == [] then 0.0
    else
      var last := ps[|ps| - 1];
      DayTotal(ps[..|ps| - 1], day) + (if Counted(last) && last.day == day then last.price else 0.0)
  }

  /** The number of counted sales of one day. */
  function DayCount(ps: seq<Priced>, day: string): nat {
    if ps == [] then 0
    else
      var last := ps[|ps| - 1];
      DayCount(ps[..|ps| - 1], day) + (if Counted(last) && last.day == day then 1 else 0)
  }

  /** How the day list, and one day's total and count, grow by one sale. */
  lemma DayStep(pre: seq<Priced>, p: Priced, k: string)
    ensures DayKeys(pre + [p]) == if Counted(p) then Seqs.AppendNew(DayKeys(pre), p.day) else DayKeys(pre)
    ensures DayTotal(pre + [p], k) == DayTotal(pre, k) + (if Counted(p) && p.day == k then p.price else 0.0)
    ensures DayCount(pre + [p], k) == DayCount(pre, k) + (if Counted(p) && p.day == k then 1 else 0)
  {
    assert (pre + [p])[..|pre|] == pre;
  }

  /** A day is listed exactly when some counted sale falls on it. */
  lemma {:induction false} DayKeysMembers(ps: seq<Priced>, day: string)
    ensures day in DayKeys(ps) <==> exists i :: 0 <= i < |ps| && Counted(ps[i]) && ps[i].day == day
  {
    if ps != [] {
      var init := ps[..|ps| - 1];
      DayKeysMembers(init, day);
      assert forall i :: 0 <= i < |init| ==> init[i] == ps[i];
      if day in DayKeys(ps) && day !in DayKeys(init) {
        assert Counted(ps[|ps| - 1]) && ps[|ps| - 1].day == day;
      }
    }
  }

  /** There are no days exactly when no sale is counted. */
  lemma {:induction false} NoDaysIffNoneCounted(ps: seq<Priced>)
    ensures DayKeys(ps) == [] <==> forall i :: 0 <= i < |ps| ==> !Counted(ps[i])
  {
    if ps != [] {
      var init := ps[..|ps| - 1];
      NoDaysIffNoneCounted(init);
      assert forall i :: 0 <= i < |init| ==> init[i] == ps[i];
    }
  }

  /** A day has a positive count, and then a positive total, exactly when it is one of the days. */
  lemma {:induction false} DayCountPositive(ps: seq<Priced>, day: string)
    ensures DayCount(ps, day) > 0 <==> day in DayKeys(ps)
    ensures DayCount(ps, day) > 0 ==> DayTotal(ps, day) > 0.0
    ensures DayCount(ps, day) == 0 ==> DayTotal(ps, day) == 0.0
  {
    if ps != [] {
      DayCountPositive(ps[..|ps| - 1], day);
    }
  }

  /** The points the chart is made of, one per day, before sorting. */
  function PointsFor(days: seq<string>, ps: seq<Priced>): (pts: seq<SalesPoint>)
    requires forall k :: k in days ==> DayCount(ps, k) > 0
    ensures |pts| == |days|
    ensures forall i :: 0 <= i < |days| ==>
      pts[i] == SalesPoint(days[i], DayTotal(ps, days[i]) / DayCount(ps, days[i]) as real)
  {
    if days == [] then []
    else
      [SalesPoint(days[0], DayTotal(ps, days[0]) / DayCount(ps, days[0]) as real)] + PointsFor(days[1..], ps)
  }

  /** Chart points ordered by `a.date.localeCompare(b.date)`. */
  function ByDate(collate: (string, string) -> int): (SalesPoint, SalesPoint) -> real {
    (a: SalesPoint, b: SalesPoint) => collate(a.date, b.date) as real
  }

  /** The chart made from priced sales: each day's average, sorted by date. */
  function Chart(ps: seq<Priced>, collate: (string, string) -> int): seq<SalesPoint> {
    var days := DayKeys(ps);
    assert forall k :: k in days ==> DayCount(ps, k) > 0 by {
      forall k | k in days ensures DayCount(ps, k) > 0 {
        DayCountPositive(ps, k);
      }
    }
    Sorting.Sort(ByDate(collate), PointsFor(days, ps))
  }

  /** What the collection branch returns for a non-empty list of sales. */
  function ExpectedChart(sales: seq<Sale>, now: string, collate: (string, string) -> int): seq<SalesPoint> {
    Chart(PricedAll(sales, now), collate)
  }

  /** The chart's points are those of PointsFor, in some order. */
  lemma ChartIsPermutation(ps: seq<Priced>, collate: (string, string) -> int)
    ensures var days := DayKeys(ps);
      && (forall k :: k in days ==> DayCount(ps, k) > 0)
      && |Chart(ps, collate)| == |days|
      && (forall p :: p in Chart(ps, collate) <==> p in PointsFor(days, ps))
  {
    var days := DayKeys(ps);
    forall k | k in days ensures DayCount(ps, k) > 0 {
      DayCountPositive(ps, k);
    }
    var pts := PointsFor(days, ps);
    var chart := Chart(ps, collate);
    assert multiset(chart) == multiset(pts);
    forall p ensures p in chart <==> p in pts {
      assert p in chart <==> p in multiset(chart);
      assert p in pts <==> p in multiset(pts);
    }
  }

  /** Every point of the chart stands for a day with counted sales, priced at that day's average. */
  lemma ChartPrices(ps: seq<Priced>, collate: (string, string) -> int)
    ensures forall p :: p in Chart(ps, collate) ==>
      && DayCount(ps, p.date) > 0
      && p.price == DayTotal(ps, p.date) / DayCount(ps, p.date) as real
      && p.price > 0.0
  {
    var days := DayKeys(ps);
    ChartIsPermutation(ps, collate);
    var pts := PointsFor(days, ps);
    forall p | p in Chart(ps, collate)
      ensures DayCount(ps, p.date) > 0
      ensures p.price == DayTotal(ps, p.date) / DayCount(ps, p.date) as real
      ensures p.price > 0.0
    {
      var i :| 0 <= i < |pts| && pts[i] == p;
      assert days[i] in days;
      DayAverage(ps, days[i]);
    }
  }

  /** A day of the chart has counted sales and a positive average. */
  lemma DayAverage(ps: seq<Priced>, day: string)
    requires day in DayKeys(ps)
    ensures DayCount(ps, day) > 0
    ensures DayTotal(ps, day) / DayCount(ps, day) as real > 0.0
  {
    DayCountPositive(ps, day);
  }

  /** Each day with a counted sale has a point on the chart, and no day has two. */
  lemma ChartDays(ps: seq<Priced>, collate: (string, string) -> int)
    ensures var chart := Chart(ps, collate);
      && (forall k :: k in DayKeys(ps) <==> exists p :: p in chart && p.date == k)
      && (forall i, j :: 0 <= i < j < |chart| ==> chart[i].date != chart[j].date)
  {
    var days := DayKeys(ps);
    ChartIsPermutation(ps, collate);
    var pts := PointsFor(days, ps);
    DistinctDates(days, pts);
    Sorting.SortKeepsNoDup(ByDate(collate), pts);
    DatesOfPermutation(days, pts, Chart(ps, collate));
  }

  /** Points dated by distinct days, one each, are distinct. */
  lemma DistinctDates(days: seq<string>, pts: seq<SalesPoint>)
    requires Seqs.NoDup(days)
    requires |pts| == |days| && forall i :: 0 <= i < |pts| ==> pts[i].date == days[i]
    ensures Seqs.NoDup(pts)
  {
    forall i, j | 0 <= i < j < |pts| ensures pts[i] != pts[j] {
      assert pts[i].date == days[i] && pts[j].date == days[j];
    }
  }

  /** A reordering without repeats of points dated one per distinct day has each day once. */
  lemma DatesOfPermutation(days: seq<string>, pts: seq<SalesPoint>, chart: seq<SalesPoint>)
    requires Seqs.NoDup(days) && Seqs.NoDup(chart)
    requires |pts| == |days| && forall i :: 0 <= i < |pts| ==> pts[i].date == days[i]
    requires forall p :: p in chart <==> p in pts
    ensures forall k :: k in days <==> exists p :: p in chart && p.date == k
    ensures forall i, j :: 0 <= i < j < |chart| ==> chart[i].date != chart[j].date
  {
    forall k ensures k in days <==> exists p :: p in chart && p.date == k {
      if k in days {
        var i :| 0 <= i < |days| && days[i] == k;
        assert pts[i] in chart;
      }
    }
    forall i, j | 0 <= i < j < |chart| ensures chart[i].date != chart[j].date {
      assert chart[i] in pts && chart[j] in pts;
      var a :| 0 <= a < |pts| && pts[a] == chart[i];
      var b :| 0 <= b < |pts| && pts[b] == chart[j];
      assert pts[a].date == days[a] && pts[b].date == days[b];
      assert chart[i] != chart[j];
    }
  }

  /** With a consistent collation the chart is in ascending date order. */
  lemma ChartSorted(ps: seq<Priced>, collate: (string, string) -> int)
    requires Sorting.ConsistentCollation(collate)
    ensures Sorting.Sorted(ByDate(collate), Chart(ps, collate))
  {
    var days := DayKeys(ps);
    forall k | k in days ensures DayCount(ps, k) > 0 {
      DayCountPositive(ps, k);
    }
    ByDateConsistent(collate);
    Sorting.SortSorted(ByDate(collate), PointsFor(days, ps));
  }

  /** Comparing points by date inherits the collation's sign consistency. */
  lemma ByDateConsistent(collate: (string, string) -> int)
    requires Sorting.ConsistentCollation(collate)
    ensures Sorting.SignConsistent(ByDate(collate))
  {
    var cmp := ByDate(collate);
    forall a: SalesPoint, b: SalesPoint ensures cmp(a, b) < 0.0 <==> cmp(b, a) > 0.0 {
      assert cmp(a, b) == collate(a.date, b.date) as real;
      assert cmp(b, a) == collate(b.date, a.date) as real;
      assert collate(a.date, b.date) < 0 <==> collate(b.date, a.date) > 0;
    }
  }

  /** The chart is empty exactly when no sale has a positive price. */
  lemma ChartEmpty(ps: seq<Priced>, collate: (string, string) -> int)
    ensures Chart(ps, collate) == [] <==> forall i :: 0 <= i < |ps| ==> !Counted(ps[i])
  {
    ChartIsPermutation(ps, collate);
    NoDaysIffNoneCounted(ps);
  }

  /** The accumulator after the sales `ps`: its key order is the day list, each entry holds the day's total and count. */
  ghost predicate Accumulates(ps: seq<Priced>, days: seq<string>, acc: map<string, DayAgg>) {
    && days == DayKeys(ps)
    && (forall k :: k in acc <==> k in days)
    && (forall k :: k in acc ==> acc[k] == DayAgg(DayTotal(ps, k), DayCount(ps, k)))
  }

  /**
   * The `reduce` over the sales: skips sales whose price is not positive and
   * adds each other sale's price and a count of one to its day, creating the
   * day's entry on first sight.
   */
  method AggregateSales(sales: seq<Sale>, now: string) returns (days: seq<string>, acc: map<string, DayAgg>)
    ensures days == DayKeys(PricedAll(sales, now))
    ensures forall k :: k in acc <==> k in days
    ensures forall k :: k in acc ==>
      acc[k] == DayAgg(DayTotal(PricedAll(sales, now), k), DayCount(PricedAll(sales, now), k))
  {
    ghost var ps := PricedAll(sales, now);
    days := [];
    acc := map[];
    for i := 0 to |sales|
      invariant Accumulates(ps[..i], days, acc)
    {
      var sale := sales[i];
      var priceInEth := SalePrice(sale);
      var dateKey := DayKey(sale, now);
      assert ps[i] == Priced(dateKey, priceInEth);
      Seqs.PrefixStep(ps, i);
      days, acc := AddSale(ps[..i], dateKey, priceInEth, days, acc);
    }
    assert ps[..|sales|] == ps;
  }

  /** The reducer's callback for one sale of day `dateKey` and price `priceInEth`; `days` is the accumulator's key order. */
  method AddSale(ghost pre: seq<Priced>, dateKey: string, priceInEth: real, days: seq<string>, acc: map<string, DayAgg>)
    returns (days': seq<string>, acc': map<string, DayAgg>)
    requires Accumulates(pre, days, acc)
    ensures Accumulates(pre + [Priced(dateKey, priceInEth)], days', acc')
  {
    if priceInEth <= 0.0 {
      SkipStep(pre, Priced(dateKey, priceInEth), days, acc);
      return days, acc;
    }
    var agg := if dateKey in acc then acc[dateKey] else DayAgg(0.0, 0);
    days' := days;
    if dateKey !in acc {
      days' := days + [dateKey];
    }
    acc' := acc[dateKey := DayAgg(agg.total + priceInEth, agg.count + 1)];
    CountStep(pre, Priced(dateKey, priceInEth), days, acc, agg, days', acc');
  }

  /** A sale that is not counted leaves the accumulator as it is. */
  lemma SkipStep(pre: seq<Priced>, p: Priced, days: seq<string>, acc: map<string, DayAgg>)
    requires !Counted(p)
    requires Accumulates(pre, days, acc)
    ensures Accumulates(pre + [p], days, acc)
  {
    DayStep(pre, p, p.day);
    forall k | k in acc ensures acc[k] == DayAgg(DayTotal(pre + [p], k), DayCount(pre + [p], k)) {
      DayStep(pre, p, k);
    }
  }

  /** One counted sale added to its day's entry (created empty on first sight) keeps the accumulator exact. */
  lemma CountStep(pre: seq<Priced>, p: Priced, days: seq<string>, acc: map<string, DayAgg>,
                  agg: DayAgg, days': seq<string>, acc': map<string, DayAgg>)
    requires Counted(p)
    requires Accumulates(pre, days, acc)
    requires days' == if p.day in acc then days else days + [p.day]
    requires agg == if p.day in acc then acc[p.day] else DayAgg(0.0, 0)
    requires acc' == acc[p.day := DayAgg(agg.total + p.price, agg.count + 1)]
    ensures Accumulates(pre + [p], days', acc')
  {
    var post := pre + [p];
    DayStep(pre, p, p.day);
    assert p.day in acc <==> p.day in days;
    if p.day !in acc {
      DayCountPositive(pre, p.day);
    }
    forall k | k in acc' ensures acc'[k] == DayAgg(DayTotal(post, k), DayCount(post, k)) {
      DayStep(pre, p, k);
    }
  }

  /** `Object.entries(acc).map(([date, agg]) => ({date, price: agg.total / agg.count}))`. */
  function Entries(days: seq<string>, acc: map<string, DayAgg>): (pts: seq<SalesPoint>)
    requires forall k :: k in days ==> k in acc && acc[k].count > 0
    ensures |pts| == |days|
  {
    if days == [] then []
    else [SalesPoint(days[0], acc[days[0]].total / acc[days[0]].count as real)] + Entries(days[1..], acc)
  }

  lemma {:induction false} EntriesArePoints(days: seq<string>, acc: map<string, DayAgg>, ps: seq<Priced>)
    requires forall k :: k in days ==> k in acc && DayCount(ps, k) > 0
    requires forall k :: k in acc ==> acc[k] == DayAgg(DayTotal(ps, k), DayCount(ps, k))
    ensures Entries(days, acc) == PointsFor(days, ps)
  {
    if days != [] {
      EntriesArePoints(days[1..], acc, ps);
    }
  }

  /** The collection-sales chart for a non-empty list of sales. */
  method SalesChart(sales: seq<Sale>, now: string, collate: (string, string) -> int)
    returns (chart: seq<SalesPoint>)
    ensures chart == ExpectedChart(sales, now, collate)
  {
    var days, acc := AggregateSales(sales, now);
    ghost var ps := PricedAll(sales, now);
    forall k | k in days ensures DayCount(ps, k) > 0 {
      DayCountPositive(ps, k);
    }
    EntriesArePoints(days, acc, ps);
    chart := Sorting.Sort(ByDate(collate), Entries(days, acc));
  }

  /** The collection branch: an empty chart when the upstream is not ok or has no sales, 500 on an exception. */
  function CollectionResponse(reply: SalesReply, now: string, collate: (string, string) -> int): Response {
    match reply
    case NotOk => CollectionSales([])
    case SalesThrew => Failed(500)
    case SalesBody(sales) => if sales == [] then CollectionSales([]) else CollectionSales(ExpectedChart(sales, now, collate))
  }

  /** The collection branch answers with an empty chart exactly when no sale has a positive price or the upstream failed without throwing. */
  lemma CollectionEmpty(reply: SalesReply, now: string, collate: (string, string) -> int)
    ensures CollectionResponse(reply, now, collate) == CollectionSales([]) <==>
      reply.NotOk? || (reply.SalesBody? && forall i :: 0 <= i < |reply.nftSales| ==> SalePrice(reply.nftSales[i]) <= 0.0)
  {
    if reply.SalesBody? {
      var ps := PricedAll(reply.nftSales, now);
      ChartEmpty(ps, collate);
      assert forall i :: 0 <= i < |ps| ==> (Counted(ps[i]) <==> SalePrice(reply.nftSales[i]) > 0.0);
    }
  }

  // ------------------------------------------------------------- token sales

  function TokenSaleOf(s: Sale): TokenSale {
    TokenSale(s.blockTimestamp, if s.sellerFee != "" then Some(s.sellerFee) else None, s.buyerAddress, s.sellerAddress)
  }

  /** The token branch maps each sale to its timestamp, seller fee, buyer and seller, in order. */
  function TokenSalesOf(sales: seq<Sale>): (r: seq<TokenSale>)
    ensures |r| == |sales|
    ensures forall i :: 0 <= i < |sales| ==>
      && r[i].timestamp == sales[i].blockTimestamp
      && r[i].buyer == sales[i].buyerAddress
      && r[i].seller == sales[i].sellerAddress
      && (r[i].price == None <==> sales[i].sellerFee == "")
      && (r[i].price.Some? ==> r[i].price.value == sales[i].sellerFee)
  {
    if sales == [] then [] else [TokenSaleOf(sales[0])] + TokenSalesOf(sales[1..])
  }

  /** The token branch does not look at the status: a body without sales gives an empty list. */
  function TokenResponse(reply: SalesReply): Response {
    match reply
    case NotOk => TokenSales([])
    case SalesThrew => Failed(500)
    case SalesBody(sales) => TokenSales(TokenSalesOf(sales))
  }

  // --------------------------------------------------------------------- GET

  /** `GET /api/nfts`. */
  method Get(q: Query, collectionReply: SalesReply, tokenReply: SalesReply, pages: seq<PageReply>,
             now: string, collate: (string, string) -> int)
    returns (resp: Response)
    requires SelectBranch(q) == OwnedListing ==> exists j :: 0 <= j < |pages| && Ends(pages[j])
    ensures SelectBranch(q) == CollectionSalesBranch ==> resp == CollectionResponse(collectionReply, now, collate)
    ensures SelectBranch(q) == TokenSalesBranch ==> resp == TokenResponse(tokenReply)
    ensures SelectBranch(q) == MissingAddress ==> resp == Failed(400)
    ensures SelectBranch(q) == OwnedListing ==>
      var k := FirstEnd(pages);
      resp == if pages[k].PageThrew? then Failed(500) else Owned(Flatten(pages[..k + 1]))
  {
    if q.history == "true" && q.contractAddress != "" {
      match collectionReply
      case NotOk =>
        return CollectionSales([]);
      case SalesThrew =>
        return Failed(500);
      case SalesBody(sales) =>
        if |sales| > 0 {
          var chart := SalesChart(sales, now, collate);
          return CollectionSales(chart);
        }
        return CollectionSales([]);
    }
    if q.history == "true" && q.address != "" && q.tokenId != "" {
      return TokenResponse(tokenReply);
    }
    if q.address == "" {
      return Failed(400);
    }
    var owned, _ := FetchOwned(pages);
    resp := if owned.Some? then Owned(owned.value) else Failed(500);
  }
}
