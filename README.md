# NFT wallet viewer — a verified model of its core logic

This project models the statable logic of a Farcaster mini-app that shows the
NFTs of the connected wallet and sends them. It is written in Dafny, one module
per source file of the core:

- **NftApi** (`app/api/nfts/route.ts`): the `GET /api/nfts` route.
  - It picks a branch from the query string.
  - It pages through the owned-NFT listing until a page has no page key.
  - It converts wei amounts with `parseWeiToEth`.
  - It passes token sales through.
  - It turns collection sales into one average price per day, sorted by date.
- **NftGrid** (`components/nft-grid.tsx`): the grid's `fetchNFTs` pass.
  - It formats each listed NFT into a display record with id `contract-tokenId`.
  - It appends zero-token and spam ids to the hide-list with an `includes`-guarded push, and writes the list once.
  - It keeps the records the page should show.
  - Also here: the sort comparator with its "—" floor sentinel, and the selection toggles.
- **WalletBalance** (`components/wallet-balance.tsx`): the NFT count and floor-value statistics.
- **MainPage** (`app/page.tsx`) and **HiddenPage** (`app/hidden/page.tsx`): the page state.
  - The grid mode, sort key and sort direction cycles.
  - The selection bar: hiding or unhiding the selection, and cancelling it.
  - The hidden count.
  - The send dialog the main page opens.
- **SendNftModal** (`components/send-nft-modal.tsx`): the send dialog.
  - The hand-built ERC-721 `safeTransferFrom(address,address,uint256)` calldata, with selector `0x42842e0e` and three zero-padded 64-digit words.
  - The sequential submission loop, which stops at the first failure.
  - The most-recent-first recents list, capped at four.
  - The preferred address of a Farcaster identity.
  - The routing of a recipient search.
  - The recipient → confirm → success wizard.
- **Helper modules**:
  - **HiddenList**: the `hidden_nfts` storage entry, with hide as a set union and unhide as a filter.
  - **ViewModes**: the three cyclic view controls.
  - **Seqs**: duplicate freedom, the insertion-ordered `Set`, `slice` and `filter`.
  - **Text**: JavaScript string functions, `BigInt(…)`, `toString(16)` and `Number.parseInt(…, 16)`.
  - **Sorting**: a stable insertion sort that stands for `Array.prototype.sort`.
  - **Wrappers**: `Option`.

How external inputs are represented:
- Network replies, provider answers and the clock are parameters.
  - The listing is a sequence of pages.
  - Each submission's hash is an element of a sequence, and "" stands for a falsy hash.
  - `now` is a string.
- Absent or `null` strings are "".
- Prices are exact reals.
- `localeCompare` is a parameter `collate`; its sortedness results require it to be sign-consistent.
- Each `localStorage` entry is a class with one field.

Behaviour of the code worth knowing, which the model follows:
- **Floor sort.** The comment at `components/nft-grid.tsx:163` says records without a floor go to the bottom. That holds only in ascending order: sorting by floor in descending order negates the whole comparison, so records without a floor come first (`NftGrid.FloorDescNoFloorFirst`).
- **Duplicate ids.** The id built at `components/nft-grid.tsx:74` is not deduplicated. A listing with two records of the same contract and token id yields two display records with the same id.
- **Unparseable token ids.** The zero-token check at `components/nft-grid.tsx:76-77` compares `parseInt(tokenId, 16)` with 0. A token id with no hexadecimal digit parses to NaN and is not auto-hidden.

## Model

| member | source | states |
|---|---|---|
| NftApi.SelectBranch | app/api/nfts/route.ts:16-123 | the branch is collection sales iff `history` is "true" and `contractAddress` is set; token sales iff that fails and `history` is "true" with address and tokenId; 400 iff both fail and the address is missing; the owned listing otherwise |
| NftApi.FirstEnd | app/api/nfts/route.ts:129-140 | the index of the first page that throws or has no page key: that page ends the loop and no earlier one does |
| NftApi.FetchOwned | app/api/nfts/route.ts:125-140 | the `do … while` loop makes FirstEnd+1 requests and returns the concatenation of the `ownedNfts` of those pages in fetch order, or nothing when the last one throws |
| NftApi.DecimalWei | app/api/nfts/route.ts:3-14 | a decimal amount in wei is read exactly as its base-10 value, divided by 10^18 |
| NftApi.HexWei | app/api/nfts/route.ts:3-14 | a `0x` amount in wei is read as its base-16 value, divided by 10^18 |
| NftApi.DayKey | app/api/nfts/route.ts:58-60 | the day key has at most 10 characters and begins the sale's timestamp, or `now` when the sale has none; a key shorter than 10 is the whole string |
| NftApi.PricedAll | app/api/nfts/route.ts:41-60 | each sale, in order, as its day key and its seller + protocol + royalty price |
| NftApi.DayKeys | app/api/nfts/route.ts:62-64 | the accumulator's keys have no duplicates |
| NftApi.DayTotal | app/api/nfts/route.ts:66 | a day's total is never negative |
| NftApi.DayStep | app/api/nfts/route.ts:49-67 | a sale with a positive price adds its day to the keys on first sight and adds to that day's total and count only; any other sale changes nothing |
| NftApi.DayKeysMembers | app/api/nfts/route.ts:49-64 | a day is a key iff some sale with a positive price falls on it |
| NftApi.NoDaysIffNoneCounted | app/api/nfts/route.ts:49-56 | there are no keys iff no sale has a positive price |
| NftApi.DayCountPositive | app/api/nfts/route.ts:62-67 | a day has a positive count iff it is a key, and then a positive total |
| NftApi.PointsFor | app/api/nfts/route.ts:72-76 | one point per day, its price that day's total divided by its count |
| NftApi.ChartIsPermutation | app/api/nfts/route.ts:72-77 | the chart has one point per day and holds exactly the per-day average points |
| NftApi.ChartPrices | app/api/nfts/route.ts:72-76 | every chart point is priced at its day's average, which is positive |
| NftApi.ChartDays | app/api/nfts/route.ts:62-77 | every day with a counted sale has a point and no day has two |
| NftApi.ChartSorted | app/api/nfts/route.ts:77 | with a consistent collation the chart is in ascending date order |
| NftApi.ChartEmpty | app/api/nfts/route.ts:49-77 | the chart is empty iff no sale has a positive price |
| NftApi.AggregateSales | app/api/nfts/route.ts:41-70 | the `reduce` loop leaves as keys the days in first-appearance order, each mapped to that day's total and count |
| NftApi.AddSale | app/api/nfts/route.ts:48-69 | the reducer callback for one sale keeps the accumulator exact for the sales seen so far plus this one |
| NftApi.CountStep | app/api/nfts/route.ts:62-67 | one counted sale added to its day (entry created empty on first sight) keeps the accumulator equal to the per-day totals and counts, and the day list in first-seen order |
| NftApi.SkipStep | app/api/nfts/route.ts:49-55 | a sale whose price is not positive leaves the accumulator unchanged and still exact |
| NftApi.Entries | app/api/nfts/route.ts:72-76 | `Object.entries(…).map(…)` yields one point per key |
| NftApi.EntriesArePoints | app/api/nfts/route.ts:72-76 | the entries of an accumulator that matches the sales are exactly the per-day average points |
| NftApi.SalesChart | app/api/nfts/route.ts:41-77 | aggregating, mapping and sorting the sales gives the specified chart of per-day averages |
| NftApi.CollectionEmpty | app/api/nfts/route.ts:29-85 | the collection branch answers with an empty chart iff the upstream was not ok or no sale has a positive price |
| NftApi.TokenSalesOf | app/api/nfts/route.ts:103-111 | each sale, in order, becomes its timestamp, seller fee (0 when absent), buyer and seller |
| NftApi.Get | app/api/nfts/route.ts:16-147 | each branch answers as specified: the chart, the token sales, status 400, the concatenated pages, or 500 when a page throws |
| NftGrid.NftId | components/nft-grid.tsx:75 | the id is the contract address, a dash, then the token id |
| NftGrid.FirstDash | components/nft-grid.tsx:75 | the first dash of a string, or its length |
| NftGrid.NftIdInjective | components/nft-grid.tsx:75 | for contract addresses without a dash, two ids are equal iff contract and token id are |
| NftGrid.FormatFields | components/nft-grid.tsx:95-106 | the record's id, the name/contract name/"Unnamed NFT" fallback, the "Unknown Collection" fallback, the image fallbacks, and a floor of 0 kept as a floor |
| NftGrid.FormatAll | components/nft-grid.tsx:74-117 | one display record per listed NFT, in order |
| NftGrid.HideStep | components/nft-grid.tsx:77-93 | one NFT adds its id to the hide-list when its token id reads as 0 or it is spam, unless the id is there already |
| NftGrid.HideAllStep | components/nft-grid.tsx:74-93 | the pass over one more NFT is the pass so far followed by that NFT's step |
| NftGrid.HideAllAppends | components/nft-grid.tsx:78-92 | the pass only appends: old entries stay first, at most one id per NFT, no duplicate introduced, and the added ids are exactly the auto-hidden ones |
| NftGrid.AutoHideMembers | components/nft-grid.tsx:74-93 | after the pass the hide-list holds the old entries first and otherwise exactly the ids of listed NFTs whose token id parses as 0 in base 16 or that are spam |
| NftGrid.ShownMembers | components/nft-grid.tsx:121-127 | a record is shown iff it is listed and its id's hide-list membership matches the page |
| NftGrid.ShownConcat | components/nft-grid.tsx:121-127 | the filter keeps the listing order |
| NftGrid.ShownComplement | components/nft-grid.tsx:121-127 | the hidden page and the main page together hold every listed record exactly as often as the listing does |
| NftGrid.FormatPass | components/nft-grid.tsx:72-119 | the `map` loop, which pushes onto the shared hide-list, yields the formatted records and the auto-hide list |
| NftGrid.NftGridView.FetchNfts | components/nft-grid.tsx:49-143 | no wallet: nothing changes; an error or an exception: empty list, storage untouched; an empty listing: empty list; otherwise storage gets the auto-hide list and the grid keeps the records of its page |
| NftGrid.FooVerdict | components/nft-grid.tsx:77-93 | token "0" reads as 0 and the name "Foo" is no spam |
| NftGrid.BarVerdict | components/nft-grid.tsx:77-93 | token "5" does not read as 0 |
| NftGrid.ScenarioHidden | components/nft-grid.tsx:74-119 | from an empty hide-list, a listing of token 0 and token 5 hides token 0 only |
| NftGrid.TwoNftScenario | components/nft-grid.tsx:121-127 | with token 0 hidden, the main grid shows token 5 and the hidden page token 0 |
| NftGrid.ShownPair | components/nft-grid.tsx:121-127 | of a hidden and a visible record, each page shows exactly its own |
| NftGrid.FloorNumber | components/nft-grid.tsx:160-161 | the "—" placeholder sorts as -1 and a floor as itself |
| NftGrid.AscCompare | components/nft-grid.tsx:146-169 | date compares everything as 0; two missing floors tie; a missing floor sorts after any floor; two floors by difference |
| NftGrid.DateKeepsOrder | components/nft-grid.tsx:149-152 | sorting by date keeps the listing order in both directions |
| NftGrid.ComparatorConsistent | components/nft-grid.tsx:145-172 | every comparator, negated or not, swaps sign with its arguments |
| NftGrid.SortedIsOrderedPermutation | components/nft-grid.tsx:145-172 | the sorted list is a permutation of the records and is ordered by the comparator |
| NftGrid.FloorAscNoFloorLast | components/nft-grid.tsx:159-171 | ascending by floor, every record without a floor comes after every one with a floor |
| NftGrid.FloorDescNoFloorFirst | components/nft-grid.tsx:159-171 | descending by floor, every record without a floor comes before every one with a floor |
| NftGrid.Toggle | components/nft-grid.tsx:197-207 | a selected id is removed with the other ids kept in order, and the mode goes off when nothing is left; an unselected id is appended |
| NftGrid.LongPress | components/nft-grid.tsx:192-195 | the mode is on and the pressed id is the only one selected |
| NftGrid.ToggleTwice | components/nft-grid.tsx:197-207 | tapping an unselected id twice restores the selection, with the mode off if it was empty |
| NftGrid.LongPressThenTap | components/nft-grid.tsx:192-207 | a long press then a tap on the same id leaves nothing selected and the mode off |
| WalletBalance.Visible | components/wallet-balance.tsx:29-33 | the visible NFTs are exactly the fetched ones whose id is not on the hide-list, and there are no more of them than fetched |
| WalletBalance.VisibleConcat | components/wallet-balance.tsx:29-33 | the filter keeps the input order |
| WalletBalance.VisibleNoneHidden | components/wallet-balance.tsx:29-33 | an empty hide-list keeps every NFT |
| WalletBalance.VisibleMatchesGrid | components/wallet-balance.tsx:29-33 | the counted NFTs, formatted, are exactly the records the main grid shows |
| WalletBalance.WithFloor | components/wallet-balance.tsx:35-38 | the NFTs kept are exactly those with a present, positive floor |
| WalletBalance.FloorTotal | components/wallet-balance.tsx:40-43 | the sum is never negative, and over floored NFTs it is positive iff there is one |
| WalletBalance.ValueIgnoresNoFloor | components/wallet-balance.tsx:35-43 | NFTs without a positive floor add nothing to the value |
| WalletBalance.StatsOf | components/wallet-balance.tsx:29-46 | the count is at most the number fetched; the value is not negative, and it is positive iff a visible NFT has a positive floor |
| WalletBalance.HidingLowersStats | components/wallet-balance.tsx:29-46 | adding an id to the hide-list never raises the count or the value |
| WalletBalance.StatsCard.FetchStats | components/wallet-balance.tsx:15-53 | no wallet, an error body or an exception leave both numbers unchanged; otherwise they become the visible count and the floor total |
| HiddenList.Hide | app/page.tsx:77-79 | the new list has no duplicates and holds exactly the old ids and the selected ones |
| HiddenList.HideExtends | app/page.tsx:78 | on a duplicate-free list, hiding keeps the old list in place and appends after it |
| HiddenList.HideIdempotent | app/page.tsx:78 | hiding the same selection twice is hiding it once |
| HiddenList.HideTail | app/page.tsx:78 | what hiding appends to a duplicate-free list are selected ids that were not on it |
| HiddenList.Unhide | app/hidden/page.tsx:49-50 | the new list holds exactly the old ids that are not selected, and is no longer |
| HiddenList.UnhideIdempotent | app/hidden/page.tsx:50 | unhiding the same selection twice is unhiding it once |
| HiddenList.UnhideUndoesHide | app/page.tsx:78 | on a duplicate-free list, unhiding ids just hidden that were not on it gives the list back |
| ViewModes.NextGridMode | app/page.tsx:65-70 | the mode always changes, and returns to 2 exactly from the list view |
| ViewModes.GridModeCycle | app/page.tsx:65-70 | four presses return to the start and two or three do not |
| ViewModes.NextSortKey | app/page.tsx:85-90 | the key always changes, and returns to date exactly from floor |
| ViewModes.SortKeyCycle | app/page.tsx:85-90 | four presses return to the start and two or three do not |
| ViewModes.FlipDirection | app/page.tsx:92-94 | the direction always changes |
| ViewModes.FlipTwice | app/page.tsx:92-94 | two toggles are no change |
| MainPage.MainPageView.constructor | app/page.tsx:17-25 | three columns, sort by date descending, nothing selected, dialog closed, zero stats |
| MainPage.MainPageView.FetchStats | app/page.tsx:28-60 | no wallet or an error leaves the stats unchanged; otherwise the visible count and floor total |
| MainPage.MainPageView.CycleGridMode | app/page.tsx:65-70 | the grid mode advances and nothing else changes |
| MainPage.MainPageView.CycleSortMode | app/page.tsx:85-90 | the sort key advances and nothing else changes |
| MainPage.MainPageView.ToggleSortDirection | app/page.tsx:92-94 | the direction flips and nothing else changes |
| MainPage.MainPageView.TapNft | components/nft-grid.tsx:197-207 | the page's selection becomes the toggled one; the wallet stats unchanged |
| MainPage.MainPageView.LongPressNft | components/nft-grid.tsx:192-195 | the page's selection becomes the pressed id alone, mode on; the wallet stats unchanged |
| MainPage.MainPageView.Cancel | app/page.tsx:255-260 | nothing selected and selection mode off; the wallet stats unchanged |
| MainPage.MainPageView.HandleHideSelected | app/page.tsx:76-83 | storage becomes the union of the old list and the selection, every selected id is on it, the selection is cleared and the mode is off; the wallet stats unchanged |
| MainPage.HideMovesSelection | app/page.tsx:76-83 | after hiding, the main grid shows what it showed minus the selected records, and the hidden page the records hidden or selected |
| MainPage.MainPageView.HandleSendSelected | app/page.tsx:72-74 | the dialog opens and nothing else changes |
| MainPage.MainPageView.CloseSendModal | app/page.tsx:277-281 | dialog closed, nothing selected, mode off; the wallet stats unchanged |
| MainPage.AsWrittenSendsNothing | app/page.tsx:275-283 | as written, with the checks passed, sending any selection submits nothing and ends without error |
| MainPage.ModalItems | app/page.tsx:275-283 | the items handed to the dialog are exactly the send records of the listed NFTs whose id is selected |
| MainPage.ModalItemsConcat | app/page.tsx:275-283 | the items keep the listing's order: the selection distributes over concatenated listings |
| MainPage.SendsSelection | app/page.tsx:275-283 | with those items, passed checks and a hash for every submission, each selected listed NFT is sent to its own contract in order, and a non-empty such selection sends at least one |
| MainPage.MainPageView.SendSelected | app/page.tsx:275-283 | the dialog's send runs over the selected records of the grid, with the dialog's recipient; on success the dialog shows the success step and the store and recents hold the updated list, on error the step, store and recents are unchanged; the dialog is not sending afterwards and its other fields are unchanged |
| HiddenPage.HiddenPageView.constructor | app/hidden/page.tsx:11-16 | three columns, sort by date descending, nothing selected, count 0 |
| HiddenPage.HiddenPageView.LoadCount | app/hidden/page.tsx:19-22 | the count is the length of the stored list, fetched or not |
| HiddenPage.HiddenPageView.CycleGridMode | app/hidden/page.tsx:24-29 | the grid mode advances as on the main page and nothing else changes |
| HiddenPage.HiddenPageView.CycleSortMode | app/hidden/page.tsx:31-36 | the sort key advances as on the main page and nothing else changes |
| HiddenPage.HiddenPageView.ToggleSortDirection | app/hidden/page.tsx:38-40 | the direction flips and nothing else changes |
| HiddenPage.HiddenPageView.TapNft | components/nft-grid.tsx:197-207 | the page's selection becomes the toggled one |
| HiddenPage.HiddenPageView.LongPressNft | components/nft-grid.tsx:192-195 | the page's selection becomes the pressed id alone, mode on |
| HiddenPage.HiddenPageView.Cancel | app/hidden/page.tsx:173-180 | nothing selected and selection mode off |
| HiddenPage.HiddenPageView.HandleSendSelected | app/hidden/page.tsx:42-45 | no transfer and the selection unchanged |
| HiddenPage.HiddenPageView.HandleUnhideSelected | app/hidden/page.tsx:47-62 | storage loses every occurrence of every selected id, the count is the new length, the selection is cleared and the mode is off |
| HiddenPage.UnhideMovesSelection | app/hidden/page.tsx:47-62 | after unhiding, the hidden page shows what it showed minus the selected records, and the main grid the records not hidden or selected |
| SendNftModal.Word | components/send-nft-modal.tsx:204-206 | a field of at most 64 digits becomes 64 characters, ending with the field and zero-padded in front; a longer one is not truncated |
| SendNftModal.Calldata | components/send-nft-modal.tsx:203-207 | the data starts with `0x42842e0e` and is the selector plus the three words |
| SendNftModal.CalldataLayout | components/send-nft-modal.tsx:203-207 | with fields of at most 64 digits the data is 202 characters, with sender, recipient and token id words at offsets 10, 74 and 138 |
| SendNftModal.WordValue | components/send-nft-modal.tsx:204-206 | read in base 16, a word holds the value of the field it pads |
| SendNftModal.TokenIdHex | components/send-nft-modal.tsx:196-201 | an id starting with "0x" passes through; any other becomes "0x" and its BigInt in hex, and fails exactly when BigInt throws |
| SendNftModal.DecimalTokenId | components/send-nft-modal.tsx:196-207 | a decimal id becomes "0x" and the lowercase hex of the same number, and its word reads as that number |
| SendNftModal.TokenTen | components/send-nft-modal.tsx:196-207 | "10" becomes "0xa", and its word is 63 zeros then "a" |
| SendNftModal.Prepare | components/send-nft-modal.tsx:189-214 | an item is rejected iff its contract or token id is missing or the id does not parse, with the matching error; otherwise it is sent from the wallet to its contract with the calldata |
| SendNftModal.PrepareAll | components/send-nft-modal.tsx:188-214 | every item prepared in order, and no item is rejected for a missing hash |
| SendNftModal.PrecheckOrder | components/send-nft-modal.tsx:174-186 | no provider, then a lower-cased recipient not starting with "0x", then no wallet: each stops the send before any submission |
| SendNftModal.SubmitFromPrefix | components/send-nft-modal.tsx:188-224 | the submitted transactions are those of a prefix of the items, in item order |
| SendNftModal.SubmitFromHashes | components/send-nft-modal.tsx:215-224 | each item but the last submitted got a hash; the send ends without error iff every item was submitted and got one |
| SendNftModal.SubmitFromFailure | components/send-nft-modal.tsx:188-224 | a missing hash ends the send with the transaction that lacked it; a rejected item ends it just after the submitted ones |
| SendNftModal.SubmitsInOrder | components/send-nft-modal.tsx:188-224 | a whole send: a prefix of the items in order, no error iff all were submitted with hashes, and an error that names its item |
| SendNftModal.EmptySendSucceeds | components/send-nft-modal.tsx:188-228 | with the checks passed and no items, nothing is submitted and the send succeeds |
| SendNftModal.SubmitEach | components/send-nft-modal.tsx:188-224 | the loop submits as the specification of a send says, stopping at the first failure |
| SendNftModal.SubmitStep | components/send-nft-modal.tsx:188-224 | how one item continues the send |
| SendNftModal.SendModal.HandleSend | components/send-nft-modal.tsx:168-235 | the submissions and error are those of the specified send; the success step and the saved recents (corrected update) only when all items got a hash; on error the step, store and recents unchanged; not sending afterwards; the other fields unchanged |
| SendNftModal.NewEntry | components/send-nft-modal.tsx:253-258 | the entry is the selected user, or `{fid 0, username "", displayName and ethAddress the address}` |
| SendNftModal.DropAddress | components/send-nft-modal.tsx:260 | the entries kept are exactly those whose address differs |
| SendNftModal.RecentsAsWrittenDuplicates | components/send-nft-modal.tsx:253-262 | as written, a selected user sent to another typed address ends up listed twice |
| SendNftModal.RecentsAgree | components/send-nft-modal.tsx:253-262 | when the entry's address is the recipient's, the written and the corrected update agree |
| SendNftModal.DropAddressConcat | components/send-nft-modal.tsx:260 | the filter keeps the order |
| SendNftModal.DropAddressDistinct | components/send-nft-modal.tsx:260 | filtering keeps addresses distinct |
| SendNftModal.RecentsAfterShape | components/send-nft-modal.tsx:253-262 | the new one first, its address exactly once, then the survivors of the old list in order, as many as fit: the length is 1 + survivors, capped at four; distinct addresses kept distinct |
| SendNftModal.RecentsAfterIdempotent | components/send-nft-modal.tsx:253-262 | saving the same recipient twice is saving it once |
| SendNftModal.SendModal.SaveRecentRecipient | components/send-nft-modal.tsx:248-269 | the stored and shown recents become the updated list; nothing else changes |
| SendNftModal.PreferredAddress | components/send-nft-modal.tsx:487-507 | the first verified address when the list is present and non-empty, the custody address otherwise |
| SendNftModal.ToUser | components/send-nft-modal.tsx:131-137 | fid and username kept, display name falling back to the username, the preferred address |
| SendNftModal.WithAddress | components/send-nft-modal.tsx:139 | the users kept are exactly those with an address |
| SendNftModal.WithAddressSnoc | components/send-nft-modal.tsx:139 | a user appended to the search answer is kept at the end exactly when it has an address |
| SendNftModal.WithAddressConcat | components/send-nft-modal.tsx:139 | the filter keeps the answer's order: it distributes over concatenation |
| SendNftModal.RouteOf | components/send-nft-modal.tsx:58-63 | cleared iff shorter than 2; address lookup iff "0x"-prefixed and longer than 10; username search otherwise |
| SendNftModal.SearchRouting | components/send-nft-modal.tsx:56-155 | short input clears; the address lookup keeps every user; the username search keeps exactly those with an address; a failed lookup gives nothing |
| SendNftModal.SendModal.SearchUsers | components/send-nft-modal.tsx:56-151 | the results become those of the route for the current text, and searching ends; the text, step, selection, confirmation, recents and sending flag unchanged |
| SendNftModal.SendModal.constructor | components/send-nft-modal.tsx:26-33 | the wizard starts reset at the recipient step |
| SendNftModal.SendModal.LoadRecents | components/send-nft-modal.tsx:38-54 | on opening, a stored list replaces the shown recents; nothing else changes |
| SendNftModal.SendModal.EditRecipient | components/send-nft-modal.tsx:285 | only the text changes; a user selected earlier stays selected |
| SendNftModal.SendModal.SelectRecipient | components/send-nft-modal.tsx:161-166 | address and user remembered, results cleared, confirm step; nothing else changes |
| SendNftModal.SendModal.Continue | components/send-nft-modal.tsx:380-383 | from the recipient step with a recipient and not sending (all read before the click), to the confirm step; otherwise no change; nothing else changes |
| SendNftModal.SendModal.Back | components/send-nft-modal.tsx:454-456 | from the confirm step and not sending (read before the click), back to the recipient step with nothing else changed |
| SendNftModal.SendModal.ConfirmAddress | components/send-nft-modal.tsx:441-446 | the checkbox sets the confirmation; nothing else changes |
| SendNftModal.SendModal.Close | components/send-nft-modal.tsx:237-246 | the wizard is reset; the recents and both flags stay |
| Sorting.Sort | components/nft-grid.tsx:145 | the sorted list is a permutation of the input |
| Sorting.SortSorted | components/nft-grid.tsx:145-172 | with a sign-consistent comparator each neighbouring pair of the result is ordered |
| Sorting.SortAllEqual | components/nft-grid.tsx:149-152 | a comparator that ties everything keeps the input order (stability, in the case the date key gives) |
| Sorting.SortedAllPairs | components/nft-grid.tsx:145-172 | with a transitive comparator, neighbouring order gives the order of every pair |
| Sorting.SortOrdered | components/nft-grid.tsx:145-172 | a sign-consistent, transitive comparator sorts the whole result into order |
| Sorting.SortedGroupsFirst | components/nft-grid.tsx:163-166 | in an ordered list, elements that compare before every other kind come first |
| Text.ParseIntHex | components/nft-grid.tsx:77 | `Number.parseInt(…, 16)` is NaN iff there is no hexadecimal digit to read |
| Text.ParseIntHexZero | components/nft-grid.tsx:77 | it reads 0 iff it reads at least one digit and all of them are '0' |
| Text.DecimalParses | components/send-nft-modal.tsx:200 | BigInt reads a decimal numeral as its value |
| Text.HexLiteralParses | app/api/nfts/route.ts:3-14 | `BigInt` of `0x` followed by hex digits is their base-16 value |
| Text.ToHexRoundTrip | components/send-nft-modal.tsx:200 | `toString(16)` read back in base 16 is the number |
| Text.ToHexFits | components/send-nft-modal.tsx:200-206 | a number has at most k hex digits iff it is below 16^k |
| Seqs.AppendAllConcat | app/page.tsx:78 | adding a then b to an insertion-ordered set is adding a + b |
| Seqs.AppendAllFresh | app/page.tsx:78 | adding new distinct elements appends them unchanged |
| Seqs.WithoutConcat | app/hidden/page.tsx:50 | the filter distributes over concatenation |
| Seqs.WithoutCount | app/hidden/page.tsx:50 | every occurrence of a selected id goes, and every other id keeps all of its occurrences |

## Left out

- Network I/O is left out: the Alchemy, Neynar, OpenSea and Base RPC requests, and the provider's `eth_sendTransaction`. Their replies are parameters.
- Timers are left out: the 300 ms search debounce, the long-press and touch timers, ETH price polling and the copied-flag timeout. The delayed reset in `handleClose` is modelled as immediate.
- Floating point is left out: `Number(wei) / 1e18`, the floor sums, `toFixed` and the USD conversions. Prices are exact reals.
- The `Number(floorPrice)` of a floor that is not a number is not modelled.
- The `parseFloat` of the floor string in the comparator is not modelled: the floor number is taken directly.
- `localeCompare` is not modelled; it is a parameter.
- Lower-casing covers ASCII letters only.
- The object form of a token id (`tokenId.tokenId`, read by the stats) is not modelled; token ids are strings.
- JSON parse errors of storage entries are not modelled.
- The `pfpUrl` of users, the traits and metadata fields of display records, and the NFT detail page are not modelled.
- The page reloads after hide and unhide are not modelled.
- The price-history, webhook and feedback routes, the providers file and all rendering are not part of this model.
- `isSearching` is only followed to its final value: the search's intermediate `true` is not modelled.
- A provider request that rejects is treated like a falsy hash. Both end the send with the error after the submitted transactions.
- The Send button's `disabled` guard (sending, or address not confirmed) is not a precondition of HandleSend, since the handler itself does not check it.
- NftApi.DecimalWei and NftApi.HexWei: `parseWeiToEth` is modelled as an exact real, so it does not capture the rounding of `Number(…)`, or a sum that is not finite.
- WalletBalance.StatsCard.FetchStats and MainPage.MainPageView.FetchStats: the stats id uses the string token id only; the `tokenId.tokenId` fallback is not modelled.
- SendNftModal.SendModal.SaveRecentRecipient: uses the corrected update (see Findings). It does not model the code's filter on the typed address.
- SendNftModal.SendModal.HandleSend: saves the corrected recents update through SaveRecentRecipient (RecentsAfter, see Findings). It does not model the code's filter on the typed address.
- NftApi.FetchOwned: requires that some page ends the listing. The `do … while (pageKey)` loop has no page cap and keeps fetching as long as the upstream returns a page key; an upstream that never stops is not modelled.
- MainPage.MainPageView.SendSelected: hands the dialog the selected records (see Findings). It does not model the code, which passes nothing.

## Findings

| source | as written | input that shows it | evidently intended | confidence | as-written member | corrected member |
|---|---|---|---|---|---|---|
| components/send-nft-modal.tsx:253-262 | The recents update drops old entries whose address equals the typed `address`. The new entry is the selected user, whose own address may differ, because typing in the field does not clear the selection. | A user u with address 0xaa is selected, and the recipient is then edited to 0xbb. With stored recents [u], the update gives [u, u]. | Drop the old entries by the new entry's own address, so that no address is listed twice. | not executed | SendNftModal.RecentsAsWrittenDuplicates | SendNftModal.RecentsAfterShape |
| app/page.tsx:275-283 | The main page opens the send dialog with `nftIds` only. It never passes `nftData`, so the send loop runs over `[]`. | Select one NFT, pick a valid recipient, confirm and send. Nothing is submitted, yet the dialog shows its success step and saves the recipient. | Hand the dialog the records of the selected NFTs, so that each one is transferred. | not executed | MainPage.AsWrittenSendsNothing | MainPage.SendsSelection |
