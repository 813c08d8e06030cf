/**
 * The send dialog (components/send-nft-modal.tsx): the hand-built calldata of
 * the ERC-721 `safeTransferFrom(address,address,uint256)` call, the sequential
 * submission loop that stops at the first failure, the capped recents list,
 * the preferred address of a Farcaster identity, the recipient search routing
 * and the three-step wizard.
 */
module SendNftModal {
  import opened Wrappers
  import opened Text
  import Seqs

  // ----------------------------------------------------------------- calldata

  /** The 4-byte selector of `safeTransferFrom(address,address,uint256)`, as hex. */
  const Selector: string := "0x42842e0e"

  /** One argument word: `hex.slice(2).padStart(64, "0")`. */
  function Word(hex: string): (w: string)
    ensures |Drop(hex, 2)| <= 64 ==> |w| == 64
    ensures |Drop(hex, 2)| > 64 ==> w == Drop(hex, 2)
    ensures w[|w| - |Drop(hex, 2)|..] == Drop(hex, 2)
    ensures forall i :: 0 <= i < |w| - |Drop(hex, 2)| ==> w[i] == '0'
  {
    PadStart(Drop(hex, 2), 64, '0')
  }

  /** The transaction data: selector, then the sender, recipient and token id words. */
  function Calldata(from: string, to: string, tokenHex: string): (data: string)
    ensures StartsWith(data, Selector)
    ensures |data| == 10 + |Word(from)| + |Word(to)| + |Word(tokenHex)|
  {
    var words := Word(from) + Word(to) + Word(tokenHex);
    StartsWithConcat(Selector, words);
    Selector + words
  }

  /**
   * When each field has at most 64 hex digits the calldata is 202 characters:
   * the selector and three 64-character words at fixed offsets, each the field
   * left-padded with zeros.
   */
  lemma CalldataLayout(from: string, to: string, tokenHex: string)
    requires |Drop(from, 2)| <= 64 && |Drop(to, 2)| <= 64 && |Drop(tokenHex, 2)| <= 64
    ensures var data := Calldata(from, to, tokenHex);
      && |data| == 202
      && data[10..74] == Word(from) && data[74..138] == Word(to) && data[138..202] == Word(tokenHex)
  {
    var a, b, c := Word(from), Word(to), Word(tokenHex);
    var data := Calldata(from, to, tokenHex);
    assert data == Selector + (a + b + c);
    assert |Selector| == 10 && |a| == 64 && |b| == 64 && |c| == 64;
    Seqs.PartsOfConcat(Selector, a, b, c);
  }

  /** Leading zeros do not change the value of a hexadecimal numeral. */
  lemma {:induction false} LeadingZeros(n: nat, s: string)
    ensures ValueOf(Repeat('0', n) + s, 16) == ValueOf(s, 16)
    decreases |s|
  {
    var z := Repeat('0', n);
    if s == [] {
      assert z + s == z;
      ValueZero(z, 16);
    } else {
      var init := s[..|s| - 1];
      LeadingZeros(n, init);
      assert (z + s)[..|z + s| - 1] == z + init;
    }
  }

  /** Read as a base-16 number, a word holds the value of the field it pads. */
  lemma WordValue(hex: string)
    ensures ValueOf(Word(hex), 16) == ValueOf(Drop(hex, 2), 16)
  {
    var d := Drop(hex, 2);
    if |d| < 64 {
      LeadingZeros(64 - |d|, d);
    }
  }

  // ----------------------------------------------------------------- token id

  /**
   * The token id as hex: a string that starts with "0x" is kept as it is;
   * anything else goes through `"0x" + BigInt(raw).toString(16)`. None stands
   * for the SyntaxError BigInt throws.
   */
  function TokenIdHex(raw: string): (r: Option<string>)
    ensures StartsWith(raw, "0x") ==> r == Some(raw)
    ensures !StartsWith(raw, "0x") ==> (r.None? <==> ParseBigInt(raw).None?)
    ensures r.Some? ==> StartsWith(r.value, "0x")
  {
    if StartsWith(raw, "0x") then Some(raw)
    else
      match ParseBigInt(raw)
      case None => None
      case Some(v) => Some("0x" + IntToHex(v))
  }

  /**
   * A decimal token id becomes the "0x"-prefixed lower-case hex of the same
   * number, and the calldata's token word, read as base 16, is that number.
   */
  lemma DecimalTokenId(d: string)
    requires d != [] && AllDigits(d, 10)
    ensures TokenIdHex(d) == Some("0x" + ToHex(ValueOf(d, 10)))
    ensures ValueOf(Word(TokenIdHex(d).value), 16) == ValueOf(d, 10)
  {
    assert !StartsWith(d, "0x") by { assert IsDigit(d[|d| - 1], 10); if |d| >= 2 { assert IsDigit(d[1], 10); } }
    DecimalParses(d);
    var h := "0x" + ToHex(ValueOf(d, 10));
    assert Drop(h, 2) == ToHex(ValueOf(d, 10));
    ToHexRoundTrip(ValueOf(d, 10));
    WordValue(h);
  }

  /** "10" becomes "0xa", and its word is 63 zeros and an 'a'. */
  lemma TokenTen()
    ensures TokenIdHex("10") == Some("0xa")
    ensures Word("0xa") == Repeat('0', 63) + "a"
  {
    assert !StartsWith("10", "0x") by {
      assert "10"[..2][0] != "0x"[0];
    }
    TenDigits();
    DecimalParses("10");
    HexOfTen();
    WordOfA();
  }

  lemma HexOfTen()
    ensures "0x" + IntToHex(10) == "0xa"
  {
    assert HexChar(10) == 'a';
    assert IntToHex(10) == "a";
  }

  lemma TenDigits()
    ensures "10" != [] && AllDigits("10", 10) && ValueOf("10", 10) == 10
  {
    assert "10"[..1] == "1";
    assert ValueOf("1", 10) == 1;
  }

  lemma WordOfA()
    ensures Word("0xa") == Repeat('0', 63) + "a"
  {
    assert Drop("0xa", 2) == "a";
  }

  // ------------------------------------------------------------------- sending

  /**
   * An entry of `nftData`. The code reads the contract from `contractAddress`,
   * `contract.address` or `contract_address` and the token id from `tokenId`,
   * `token_id` or `id.tokenId`, the first that is set; an absent field is "".
   */
  datatype NftRecord = NftRecord(
    contractAddress: string,
    contractDotAddress: string,
    contractAddressSnake: string,
    tokenId: string,
    tokenIdSnake: string,
    idDotTokenId: string)

  function ContractOf(r: NftRecord): string {
    Or(r.contractAddress, Or(r.contractDotAddress, r.contractAddressSnake))
  }

  function RawTokenOf(r: NftRecord): string {
    Or(r.tokenId, Or(r.tokenIdSnake, r.idDotTokenId))
  }

  /** Why a send stopped; each is an error the handler throws and then reports. */
  datatype SendError =
    | NoProvider          // no Ethereum provider
    | InvalidRecipient    // the lower-cased recipient does not start with "0x"
    | WalletNotConnected  // no wallet address
    | MissingField        // an item without contract address or token id
    | BadTokenId          // BigInt rejects the token id
    | NoHash              // the provider gave no transaction hash

  /** The `eth_sendTransaction` parameters; `value` is always "0x0". */
  datatype Tx = Tx(from: string, to: string, data: string)

  /** The transactions submitted, in order, and the error that stopped the send, if any. */
  datatype Outcome = Outcome(submitted: seq<Tx>, error: Option<SendError>)

  /** The checks made before any item, in the order the handler makes them. */
  function Precheck(hasProvider: bool, recipient: string, wallet: string): Option<SendError> {
    if !hasProvider then Some(NoProvider)
    else if !StartsWith(ToLower(recipient), "0x") then Some(InvalidRecipient)
    else if wallet == "" then Some(WalletNotConnected)
    else None
  }

  /** One item turned into its transaction, or the error that rejects it before submission. */
  datatype Prepared = Ready(tx: Tx) | Rejected(error: SendError)

  /** The transaction for one item, sent from the wallet to the item's contract. */
  function Prepare(wallet: string, to: string, r: NftRecord): (p: Prepared)
    ensures p.Rejected? ==> p.error == MissingField || p.error == BadTokenId
    ensures p.Rejected? && p.error == MissingField <==> ContractOf(r) == "" || RawTokenOf(r) == ""
    ensures p.Rejected? <==> ContractOf(r) == "" || RawTokenOf(r) == "" || TokenIdHex(RawTokenOf(r)).None?
    ensures p.Ready? ==> p.tx.from == wallet && p.tx.to == ContractOf(r) && ContractOf(r) != ""
    ensures p.Ready? ==> TokenIdHex(RawTokenOf(r)).Some?
    ensures p.Ready? ==> p.tx.data == Calldata(wallet, to, TokenIdHex(RawTokenOf(r)).value)
  {
    var contract := ContractOf(r);
    var raw := RawTokenOf(r);
    if contract == "" || raw == "" then Rejected(MissingField)
    else
      match TokenIdHex(raw)
      case None => Rejected(BadTokenId)
      case Some(hex) => Ready(Tx(wallet, contract, Calldata(wallet, to, hex)))
  }

  /** The provider's answer to the k-th submission; "" is a falsy hash or a rejected request. */
  function Reply(hashes: seq<string>, k: nat): string {
    if k < |hashes| then hashes[k] else ""
  }

  /** Every item prepared for the given sender and recipient, in order. */
  function PrepareAll(wallet: string, to: string, items: seq<NftRecord>): (ps: seq<Prepared>)
    ensures |ps| == |items| && forall i :: 0 <= i < |items| ==> ps[i] == Prepare(wallet, to, items[i])
    ensures forall i :: 0 <= i < |ps| && ps[i].Rejected? ==> ps[i].error != NoHash
  {
    seq(|items|, i requires 0 <= i < |items| => Prepare(wallet, to, items[i]))
  }

  /** Submitting the prepared items from the k-th on, one at a time, stopping at the first failure. */
  function SubmitFrom(ps: seq<Prepared>, hashes: seq<string>, k: nat): Outcome
    decreases |ps| - k
  {
    if k >= |ps| then Outcome([], None)
    else
      match ps[k]
      case Rejected(e) => Outcome([], Some(e))
      case Ready(tx) =>
        if Reply(hashes, k) == "" then Outcome([tx], Some(NoHash))
        else
          var rest := SubmitFrom(ps, hashes, k + 1);
          Outcome([tx] + rest.submitted, rest.error)
  }

  /** What `handleSend` submits and how it ends, for the given provider answers. */
  function Send(hasProvider: bool, recipient: string, wallet: string, items: seq<NftRecord>, hashes: seq<string>): Outcome {
    match Precheck(hasProvider, recipient, wallet)
    case Some(e) => Outcome([], Some(e))
    case None => SubmitFrom(PrepareAll(wallet, ToLower(recipient), items), hashes, 0)
  }

  /** The transactions already made, followed by the outcome of the rest. */
  function Then(done: seq<Tx>, o: Outcome): Outcome {
    Outcome(done + o.submitted, o.error)
  }

  /**
   * The checks run in order and each failing one stops the send before any
   * submission: no provider, then a recipient that does not start with "0x"
   * once lower-cased, then no wallet.
   */
  lemma PrecheckOrder(hasProvider: bool, recipient: string, wallet: string, items: seq<NftRecord>, hashes: seq<string>)
    ensures !hasProvider ==> Send(hasProvider, recipient, wallet, items, hashes) == Outcome([], Some(NoProvider))
    ensures hasProvider && !StartsWith(ToLower(recipient), "0x") ==>
      Send(hasProvider, recipient, wallet, items, hashes) == Outcome([], Some(InvalidRecipient))
    ensures hasProvider && StartsWith(ToLower(recipient), "0x") && wallet == "" ==>
      Send(hasProvider, recipient, wallet, items, hashes) == Outcome([], Some(WalletNotConnected))
    ensures Precheck(hasProvider, recipient, wallet).None? <==>
      hasProvider && StartsWith(ToLower(recipient), "0x") && wallet != ""
  {
  }

  /** The submitted transactions are those of a prefix of the items, in item order. */
  lemma {:induction false} SubmitFromPrefix(ps: seq<Prepared>, hashes: seq<string>, k: nat)
    requires k <= |ps|
    ensures var o := SubmitFrom(ps, hashes, k);
      && k + |o.submitted| <= |ps|
      && forall j :: k <= j < k + |o.submitted| ==> ps[j] == Ready(o.submitted[j - k])
    decreases |ps| - k
  {
    if k < |ps| && ps[k].Ready? && Reply(hashes, k) != "" {
      SubmitFromPrefix(ps, hashes, k + 1);
    }
  }

  /**
   * Each item but the last submitted got a hash; the send ends without error
   * exactly when every item was submitted and got one.
   */
  lemma {:induction false} SubmitFromHashes(ps: seq<Prepared>, hashes: seq<string>, k: nat)
    requires k <= |ps|
    ensures var o := SubmitFrom(ps, hashes, k);
      && (forall j :: k <= j < k + |o.submitted| - 1 ==> Reply(hashes, j) != "")
      && (o.error.None? <==> k + |o.submitted| == |ps| && forall j :: k <= j < |ps| ==> Reply(hashes, j) != "")
    decreases |ps| - k
  {
    if k < |ps| {
      if ps[k].Ready? && Reply(hashes, k) != "" {
        SubmitFromHashes(ps, hashes, k + 1);
      }
    }
  }

  /**
   * The error that stops a send names its cause: a missing hash ends with the
   * transaction that did not get one; a rejected item submits nothing and is
   * the item right after the submitted ones.
   */
  lemma {:induction false} SubmitFromFailure(ps: seq<Prepared>, hashes: seq<string>, k: nat)
    requires k <= |ps|
    requires forall j :: 0 <= j < |ps| && ps[j].Rejected? ==> ps[j].error != NoHash
    ensures var o := SubmitFrom(ps, hashes, k);
      && (o.error == Some(NoHash) ==> |o.submitted| > 0 && Reply(hashes, k + |o.submitted| - 1) == "")
      && (o.error.Some? && o.error != Some(NoHash) ==>
            k + |o.submitted| < |ps| && ps[k + |o.submitted|] == Rejected(o.error.value))
    decreases |ps| - k
  {
    if k < |ps| && ps[k].Ready? && Reply(hashes, k) != "" {
      SubmitFromFailure(ps, hashes, k + 1);
      var rest := SubmitFrom(ps, hashes, k + 1);
      var o := SubmitFrom(ps, hashes, k);
      assert o.submitted == [ps[k].tx] + rest.submitted && o.error == rest.error;
      assert |o.submitted| - 1 == |rest.submitted|;
    }
  }

  /**
   * A whole send, once the checks pass: the transactions of a prefix of the
   * prepared items, in order; no error exactly when every item was submitted
   * and got a hash; otherwise the error names the item that stopped it.
   */
  lemma SubmitsInOrder(ps: seq<Prepared>, hashes: seq<string>)
    requires forall j :: 0 <= j < |ps| && ps[j].Rejected? ==> ps[j].error != NoHash
    ensures var o := SubmitFrom(ps, hashes, 0);
      && |o.submitted| <= |ps|
      && (forall j :: 0 <= j < |o.submitted| ==> ps[j] == Ready(o.submitted[j]))
      && (o.error.None? <==> |o.submitted| == |ps| && forall j :: 0 <= j < |ps| ==> Reply(hashes, j) != "")
      && (o.error == Some(NoHash) ==> |o.submitted| > 0 && Reply(hashes, |o.submitted| - 1) == "")
      && (o.error.Some? && o.error != Some(NoHash) ==> |o.submitted| < |ps| && ps[|o.submitted|] == Rejected(o.error.value))
  {
    var o := SubmitFrom(ps, hashes, 0);
    SubmitFromPrefix(ps, hashes, 0);
    SubmitFromHashes(ps, hashes, 0);
    SubmitFromFailure(ps, hashes, 0);
    forall j | 0 <= j < |o.submitted| ensures ps[j] == Ready(o.submitted[j]) {
      assert ps[j] == Ready(o.submitted[j - 0]);
    }
  }

  /** With the checks passed and nothing to send, the send succeeds having submitted nothing. */
  lemma EmptySendSucceeds(hasProvider: bool, recipient: string, wallet: string, hashes: seq<string>)
    requires Precheck(hasProvider, recipient, wallet).None?
    ensures Send(hasProvider, recipient, wallet, [], hashes) == Outcome([], None)
  {
  }

  /**
   * The `for … of nftData` loop of `handleSend`: each item in order is
   * prepared and submitted, and the first item that is malformed or gets no
   * hash throws, so nothing after it is submitted.
   */
  method SubmitEach(wallet: string, normalizedRecipient: string, nftData: seq<NftRecord>, hashes: seq<string>)
    returns (submitted: seq<Tx>, error: Option<SendError>)
    ensures Outcome(submitted, error) == SubmitFrom(PrepareAll(wallet, normalizedRecipient, nftData), hashes, 0)
  {
    ghost var ps := PrepareAll(wallet, normalizedRecipient, nftData);
    submitted, error := [], None;
    var i := 0;
    while i < |nftData| && error.None?
      invariant 0 <= i <= |nftData|
      invariant error.None? ==> SubmitFrom(ps, hashes, 0) == Then(submitted, SubmitFrom(ps, hashes, i))
      invariant error.Some? ==> SubmitFrom(ps, hashes, 0) == Outcome(submitted, error)
      decreases |nftData| - i, error.None?
    {
      var prepared := Prepare(wallet, normalizedRecipient, nftData[i]);
      SubmitStep(ps, hashes, i);
      if prepared.Rejected? {
        error := Some(prepared.error);
      } else {
        var txHash := Reply(hashes, i);
        ghost var rest := SubmitFrom(ps, hashes, i + 1);
        Seqs.ConcatAssoc(submitted, [prepared.tx], rest.submitted);
        submitted := submitted + [prepared.tx];
        if txHash == "" {
          error := Some(NoHash);
        } else {
          i := i + 1;
        }
      }
    }
  }

  /** One step of the submission: what the item at k contributes before the rest. */
  lemma SubmitStep(ps: seq<Prepared>, hashes: seq<string>, k: nat)
    requires k < |ps|
    ensures ps[k].Rejected? ==> SubmitFrom(ps, hashes, k) == Outcome([], Some(ps[k].error))
    ensures ps[k].Ready? && Reply(hashes, k) == "" ==> SubmitFrom(ps, hashes, k) == Outcome([ps[k].tx], Some(NoHash))
    ensures ps[k].Ready? && Reply(hashes, k) != "" ==>
      SubmitFrom(ps, hashes, k) == Then([ps[k].tx], SubmitFrom(ps, hashes, k + 1))
  {
  }

  // ------------------------------------------------------------------ recents

  /** A Farcaster user as the dialog keeps it; an absent address is "". */
  datatype User = User(fid: int, username: string, displayName: string, ethAddress: string)

  /** The entry saved for a recipient: the selected user, or a bare entry for the address. */
  function NewEntry(address: string, user: Option<User>): (e: User)
    ensures user.Some? ==> e == user.value
    ensures user.None? ==> e == User(0, "", address, address)
  {
    match user
    case Some(u) => u
    case None => User(0, "", address, address)
  }

  /** `recents.filter(r => r.ethAddress !== address)`. */
  function DropAddress(recents: seq<User>, address: string): (r: seq<User>)
    ensures |r| <= |recents|
    ensures forall u :: u in r <==> u in recents && u.ethAddress != address
  {
    if recents == [] then []
    else
      var last := recents[|recents| - 1];
      var rest := DropAddress(recents[..|recents| - 1], address);
      assert recents == recents[..|recents| - 1] + [last];
      if last.ethAddress != address then rest + [last] else rest
  }

  /** How many entries carry the address. */
  function AddressCount(s: seq<User>, address: string): nat {
    if s == [] then 0
    else AddressCount(s[..|s| - 1], address) + (if s[|s| - 1].ethAddress == address then 1 else 0)
  }

  /** No two entries carry the same address. */
  predicate DistinctAddresses(s: seq<User>) {
    forall i, j :: 0 <= i < j < |s| ==> s[i].ethAddress != s[j].ethAddress
  }

  /**
   * The recents update as written: the new entry first, then the old list
   * without the entries whose address is the recipient's, cut to four.
   * The entry is the selected user when there is one, and that user's address
   * need not be the recipient's.
   */
  function RecentsAsWritten(recents: seq<User>, address: string, user: Option<User>): seq<User> {
    Seqs.Take([NewEntry(address, user)] + DropAddress(recents, address), 4)
  }

  /** The recents update with the old entries dropped by the new entry's own address. */
  function RecentsAfter(recents: seq<User>, address: string, user: Option<User>): seq<User> {
    var e := NewEntry(address, user);
    Seqs.Take([e] + DropAddress(recents, e.ethAddress), 4)
  }

  /** A user selected for one address and then sent to another is listed twice. */
  lemma RecentsAsWrittenDuplicates()
    ensures var u := User(7, "alice", "Alice", "0xaa");
      && RecentsAsWritten([u], "0xbb", Some(u)) == [u, u]
      && !DistinctAddresses(RecentsAsWritten([u], "0xbb", Some(u)))
  {
    var u := User(7, "alice", "Alice", "0xaa");
    assert DropAddress([u], "0xbb") == [u] by {
      assert [u][..0] == [];
    }
    assert [u, u][0].ethAddress == [u, u][1].ethAddress;
  }

  /** Whenever the entry's address is the recipient's the two updates agree. */
  lemma RecentsAgree(recents: seq<User>, address: string, user: Option<User>)
    requires user.None? || user.value.ethAddress == address
    ensures RecentsAsWritten(recents, address, user) == RecentsAfter(recents, address, user)
  {
  }

  lemma {:induction false} AddressCountNone(s: seq<User>, address: string)
    requires forall u :: u in s ==> u.ethAddress != address
    ensures AddressCount(s, address) == 0
  {
    if s != [] {
      assert forall u :: u in s[..|s| - 1] ==> u in s;
      AddressCountNone(s[..|s| - 1], address);
      assert s[|s| - 1] in s;
    }
  }

  lemma {:induction false} AddressCountCons(u: User, s: seq<User>, address: string)
    ensures AddressCount([u] + s, address) == (if u.ethAddress == address then 1 else 0) + AddressCount(s, address)
  {
    if s != [] {
      AddressCountCons(u, s[..|s| - 1], address);
      assert ([u] + s)[..|[u] + s| - 1] == [u] + s[..|s| - 1];
    }
  }

  /** The filter keeps order: it distributes over concatenation. */
  lemma {:induction false} DropAddressConcat(a: seq<User>, b: seq<User>, address: string)
    ensures DropAddress(a + b, address) == DropAddress(a, address) + DropAddress(b, address)
  {
    if b == [] {
      assert a + b == a;
    } else {
      var init, last := b[..|b| - 1], b[|b| - 1];
      assert b == init + [last];
      assert a + b == (a + init) + [last] by {
        Seqs.ConcatAssoc(a, init, [last]);
      }
      DropAddressSnoc(a + init, last, address);
      DropAddressSnoc(init, last, address);
      DropAddressConcat(a, init, address);
      var tail := if last.ethAddress != address then [last] else [];
      Seqs.ConcatAssoc(DropAddress(a, address), DropAddress(init, address), tail);
    }
  }

  /** The filter on one more entry at the end. */
  lemma DropAddressSnoc(s: seq<User>, x: User, address: string)
    ensures DropAddress(s + [x], address) == DropAddress(s, address) + (if x.ethAddress != address then [x] else [])
  {
    assert (s + [x])[..|s|] == s;
  }

  lemma {:induction false} DropAddressNone(s: seq<User>, address: string)
    requires forall u :: u in s ==> u.ethAddress != address
    ensures DropAddress(s, address) == s
  {
    if s != [] {
      var init, last := s[..|s| - 1], s[|s| - 1];
      assert s == init + [last];
      forall u | u in init ensures u.ethAddress != address {
        assert u in s;
      }
      DropAddressNone(init, address);
      assert last in s;
      DropAddressSnoc(init, last, address);
    }
  }

  /** The filter keeps the entries it keeps without duplicating an address. */
  lemma {:induction false} DropAddressDistinct(s: seq<User>, address: string)
    requires DistinctAddresses(s)
    ensures DistinctAddresses(DropAddress(s, address))
  {
    if s != [] {
      var init := s[..|s| - 1];
      var last := s[|s| - 1];
      DropAddressDistinct(init, address);
      if last.ethAddress != address {
        var r := DropAddress(init, address);
        assert forall u :: u in r ==> u.ethAddress != last.ethAddress by {
          forall u | u in r ensures u.ethAddress != last.ethAddress {
            var i :| 0 <= i < |init| && init[i] == u;
            assert s[i] == u;
          }
        }
        var t := r + [last];
        forall i, j | 0 <= i < j < |t| ensures t[i].ethAddress != t[j].ethAddress {
          if j < |r| {
            assert t[i] == r[i] && t[j] == r[j];
          } else {
            assert t[i] == r[i] && r[i] in r;
          }
        }
      }
    }
  }

  /**
   * After the update the new entry comes first and its address occurs exactly
   * once; the rest are the survivors of the old list in their old order, as
   * many as fit in four entries; and a list without repeated addresses stays so.
   */
  lemma RecentsAfterShape(recents: seq<User>, address: string, user: Option<User>)
    ensures var r := RecentsAfter(recents, address, user);
      var e := NewEntry(address, user);
      && 1 <= |r| <= 4
      && r[0] == e
      && AddressCount(r, e.ethAddress) == 1
      && |r| == (if |DropAddress(recents, e.ethAddress)| < 4 then 1 + |DropAddress(recents, e.ethAddress)| else 4)
      && r[1..] == DropAddress(recents, e.ethAddress)[..|r| - 1]
      && (DistinctAddresses(recents) ==> DistinctAddresses(r))
  {
    var e := NewEntry(address, user);
    var d := DropAddress(recents, e.ethAddress);
    var r := RecentsAfter(recents, address, user);
    RecentsAfterSplit(recents, address, user);
    var tail := d[..|r| - 1];
    assert r[1..] == tail;
    assert forall u :: u in tail ==> u in d;
    AddressCountNone(tail, e.ethAddress);
    AddressCountCons(e, tail, e.ethAddress);
    if DistinctAddresses(recents) {
      DropAddressDistinct(recents, e.ethAddress);
      FrontDistinct(e, tail, d);
    }
  }

  /** The update is the new entry followed by as many survivors as fit in four. */
  lemma RecentsAfterSplit(recents: seq<User>, address: string, user: Option<User>)
    ensures var r := RecentsAfter(recents, address, user);
      var e := NewEntry(address, user);
      var d := DropAddress(recents, e.ethAddress);
      && |r| == (if |d| < 4 then 1 + |d| else 4)
      && r == [e] + d[..|r| - 1]
  {
    var e := NewEntry(address, user);
    var d := DropAddress(recents, e.ethAddress);
    assert |[e] + d| == 1 + |d|;
    var r := RecentsAfter(recents, address, user);
    assert r == ([e] + d)[..|r|];
    assert ([e] + d)[..|r|] == [e] + d[..|r| - 1];
  }

  /** An entry put in front of a prefix of a list without its address keeps the addresses distinct. */
  lemma FrontDistinct(e: User, t: seq<User>, d: seq<User>)
    requires |t| <= |d| && t == d[..|t|]
    requires DistinctAddresses(d)
    requires forall u :: u in d ==> u.ethAddress != e.ethAddress
    ensures DistinctAddresses([e] + t)
  {
    var r := [e] + t;
    forall i, j | 0 <= i < j < |r| ensures r[i].ethAddress != r[j].ethAddress {
      if i == 0 {
        assert r[j] == d[j - 1] && d[j - 1] in d;
      } else {
        assert r[i] == d[i - 1] && r[j] == d[j - 1];
      }
    }
  }

  /** Saving the same recipient twice is saving it once. */
  lemma RecentsAfterIdempotent(recents: seq<User>, address: string, user: Option<User>)
    ensures RecentsAfter(RecentsAfter(recents, address, user), address, user) == RecentsAfter(recents, address, user)
  {
    var e := NewEntry(address, user);
    var d := DropAddress(recents, e.ethAddress);
    var r := RecentsAfter(recents, address, user);
    RecentsAfterSplit(recents, address, user);
    var tail := d[..|r| - 1];
    assert forall u :: u in tail ==> u in d;
    DropAddressConcat([e], tail, e.ethAddress);
    DropAddressNone(tail, e.ethAddress);
    assert DropAddress([e], e.ethAddress) == [] by {
      assert [e][..0] == [];
    }
    assert DropAddress(r, e.ethAddress) == tail;
  }

  /** The stored recents: localStorage "recentNFTRecipients"; None when nothing is stored. */
  class RecentsStore {
    var stored: Option<seq<User>>

    constructor (stored: Option<seq<User>>)
      ensures this.stored == stored
    {
      this.stored := stored;
    }
  }

  /** `JSON.parse(stored)`, or [] when nothing is stored. */
  function StoredRecents(stored: Option<seq<User>>): seq<User> {
    match stored
    case Some(us) => us
    case None => []
  }

  // ------------------------------------------------------------------- search

  /** A user record from the lookup endpoints: `verified_addresses.eth_addresses` and `custody_address`. */
  datatype Identity = Identity(verifiedEthAddresses: Option<seq<string>>, custodyAddress: string)

  /**
   * `getPreferredBaseAddress`: the first verified Ethereum address when the
   * list is present and non-empty, the custody address otherwise.
   */
  function PreferredAddress(id: Identity): (a: string)
    ensures id.verifiedEthAddresses.Some? && id.verifiedEthAddresses.value != [] ==>
      a == id.verifiedEthAddresses.value[0] && a in id.verifiedEthAddresses.value
    ensures id.verifiedEthAddresses.None? || id.verifiedEthAddresses.value == [] ==> a == id.custodyAddress
  {
    match id.verifiedEthAddresses
    case Some(addrs) => if |addrs| > 0 then addrs[0] else id.custodyAddress
    case None => id.custodyAddress
  }

  /** A user as a lookup endpoint returns it. */
  datatype RawUser = RawUser(fid: int, username: string, displayName: string, identity: Identity)

  /** The dialog's user: display name falling back to the username, address the preferred one. */
  function ToUser(u: RawUser): (r: User)
    ensures r.fid == u.fid && r.username == u.username
    ensures r.displayName == (if u.displayName != "" then u.displayName else u.username)
    ensures r.ethAddress == PreferredAddress(u.identity)
  {
    User(u.fid, u.username, Or(u.displayName, u.username), PreferredAddress(u.identity))
  }

  function ToUsers(us: seq<RawUser>): (r: seq<User>)
    ensures |r| == |us| && forall i :: 0 <= i < |us| ==> r[i] == ToUser(us[i])
  {
    seq(|us|, i requires 0 <= i < |us| => ToUser(us[i]))
  }

  /** `Object.values(data).flat()`, the values in the order given. */
  function Flatten(groups: seq<seq<RawUser>>): seq<RawUser> {
    if groups == [] then [] else Flatten(groups[..|groups| - 1]) + groups[|groups| - 1]
  }

  /** `.filter(u => u.ethAddress)`. */
  function WithAddress(us: seq<User>): (r: seq<User>)
    ensures |r| <= |us|
    ensures forall u :: u in r <==> u in us && u.ethAddress != ""
  {
    if us == [] then []
    else
      var last := us[|us| - 1];
      var rest := WithAddress(us[..|us| - 1]);
      assert us == us[..|us| - 1] + [last];
      if last.ethAddress != "" then rest + [last] else rest
  }

  /** The filter on one more user at the end. */
  lemma WithAddressSnoc(s: seq<User>, x: User)
    ensures WithAddress(s + [x]) == WithAddress(s) + (if x.ethAddress != "" then [x] else [])
  {
    assert (s + [x])[..|s|] == s;
  }

  /** The filter keeps the search order: it distributes over concatenation. */
  lemma {:induction false} WithAddressConcat(a: seq<User>, b: seq<User>)
    ensures WithAddress(a + b) == WithAddress(a) + WithAddress(b)
  {
    if b == [] {
      assert a + b == a;
    } else {
      var init, last := b[..|b| - 1], b[|b| - 1];
      assert b == init + [last];
      assert a + b == (a + init) + [last] by {
        Seqs.ConcatAssoc(a, init, [last]);
      }
      WithAddressSnoc(a + init, last);
      WithAddressSnoc(init, last);
      WithAddressConcat(a, init);
      var tail := if last.ethAddress != "" then [last] else [];
      Seqs.ConcatAssoc(WithAddress(a), WithAddress(init), tail);
    }
  }

  /** Which lookup a recipient string triggers. */
  datatype Route = ClearResults | AddressLookup | UsernameSearch

  function RouteOf(recipient: string): (r: Route)
    ensures r == ClearResults <==> |recipient| < 2
    ensures r == AddressLookup <==> StartsWith(recipient, "0x") && |recipient| > 10
    ensures r == UsernameSearch <==> |recipient| >= 2 && !(StartsWith(recipient, "0x") && |recipient| > 10)
  {
    if |recipient| < 2 then ClearResults
    else if StartsWith(recipient, "0x") && |recipient| > 10 then AddressLookup
    else UsernameSearch
  }

  /** The answer of the address lookup: the users per address, or a failure. */
  datatype AddressReply = AddressBody(values: seq<seq<RawUser>>) | AddressFailed

  /** The answer of the username search: `result.users`, or a failure. */
  datatype UsernameReply = UsernameBody(users: seq<RawUser>) | UsernameFailed

  /** The results the search effect settles on for the current recipient. */
  function SearchResults(recipient: string, byAddress: AddressReply, byName: UsernameReply): seq<User> {
    match RouteOf(recipient)
    case ClearResults => []
    case AddressLookup =>
      (match byAddress
       case AddressBody(values) => ToUsers(Flatten(values))
       case AddressFailed => [])
    case UsernameSearch =>
      (match byName
       case UsernameBody(users) => WithAddress(ToUsers(users))
       case UsernameFailed => [])
  }

  /**
   * A short input clears the results; the address lookup keeps every user it
   * returns, with or without an address; the username search keeps exactly
   * the users that have one; a failed lookup gives no results.
   */
  lemma SearchRouting(recipient: string, byAddress: AddressReply, byName: UsernameReply)
    ensures |recipient| < 2 ==> SearchResults(recipient, byAddress, byName) == []
    ensures RouteOf(recipient) == AddressLookup && byAddress.AddressBody? ==>
      SearchResults(recipient, byAddress, byName) == ToUsers(Flatten(byAddress.values))
    ensures RouteOf(recipient) == UsernameSearch && byName.UsernameBody? ==>
      forall u :: u in SearchResults(recipient, byAddress, byName) <==>
        u in ToUsers(byName.users) && u.ethAddress != ""
    ensures RouteOf(recipient) == AddressLookup && byAddress.AddressFailed? ==> SearchResults(recipient, byAddress, byName) == []
    ensures RouteOf(recipient) == UsernameSearch && byName.UsernameFailed? ==> SearchResults(recipient, byAddress, byName) == []
  {
  }

  // ------------------------------------------------------------------- wizard

  datatype Step = RecipientStep | ConfirmStep | SuccessStep

  class SendModal {
    var step: Step
    var recipient: string
    var selectedUser: Option<User>
    var searchResults: seq<User>
    var isSearching: bool
    var isSending: bool
    var recentRecipients: seq<User>
    var isAddressConfirmed: bool

    /** The fields `handleClose` resets. */
    predicate Reset()
      reads this
    {
      step == RecipientStep && recipient == "" && selectedUser.None? && searchResults == [] && !isAddressConfirmed
    }

    constructor ()
      ensures Reset() && !isSearching && !isSending && recentRecipients == []
    {
      step := RecipientStep;
      recipient := "";
      selectedUser := None;
      searchResults := [];
      isSearching := false;
      isSending := false;
      recentRecipients := [];
      isAddressConfirmed := false;
    }

    /** `loadRecents` when the dialog opens: the stored list, if any, replaces the shown one. */
    method LoadRecents(isOpen: bool, store: RecentsStore)
      modifies this
      ensures isOpen && store.stored.Some? ==> recentRecipients == store.stored.value
      ensures !(isOpen && store.stored.Some?) ==> recentRecipients == old(recentRecipients)
      ensures step == old(step) && recipient == old(recipient) && selectedUser == old(selectedUser)
      ensures searchResults == old(searchResults) && isAddressConfirmed == old(isAddressConfirmed)
      ensures isSending == old(isSending) && isSearching == old(isSearching)
    {
      if isOpen && store.stored.Some? {
        recentRecipients := store.stored.value;
      }
    }

    /** Typing in the recipient field changes only the text; a user selected before stays selected. */
    method EditRecipient(text: string)
      modifies this
      ensures recipient == text
      ensures step == old(step) && selectedUser == old(selectedUser) && searchResults == old(searchResults)
      ensures isAddressConfirmed == old(isAddressConfirmed) && recentRecipients == old(recentRecipients)
      ensures isSending == old(isSending) && isSearching == old(isSearching)
    {
      recipient := text;
    }

    /** The search effect for the current text, given what each lookup would answer. */
    method SearchUsers(byAddress: AddressReply, byName: UsernameReply)
      modifies this
      ensures searchResults == SearchResults(recipient, byAddress, byName)
      ensures RouteOf(recipient) == ClearResults ==> isSearching == old(isSearching)
      ensures RouteOf(recipient) != ClearResults ==> !isSearching
      ensures step == old(step) && recipient == old(recipient) && selectedUser == old(selectedUser)
      ensures isAddressConfirmed == old(isAddressConfirmed) && recentRecipients == old(recentRecipients)
      ensures isSending == old(isSending)
    {
      if |recipient| < 2 {
        searchResults := [];
        return;
      }
      if StartsWith(recipient, "0x") && |recipient| > 10 {
        isSearching := true;
        match byAddress {
          case AddressBody(values) =>
            searchResults := ToUsers(Flatten(values));
          case AddressFailed =>
            searchResults := [];
        }
        isSearching := false;
        return;
      }
      isSearching := true;
      match byName {
        case UsernameBody(users) =>
          searchResults := WithAddress(ToUsers(users));
        case UsernameFailed =>
          searchResults := [];
      }
      isSearching := false;
    }

    /** `handleSelectRecipient`: remember the address and the user, clear the results, go to the confirm step. */
    method SelectRecipient(address: string, user: Option<User>)
      modifies this
      ensures recipient == address && selectedUser == user && searchResults == [] && step == ConfirmStep
      ensures isAddressConfirmed == old(isAddressConfirmed) && recentRecipients == old(recentRecipients)
      ensures isSending == old(isSending) && isSearching == old(isSearching)
    {
      recipient := address;
      selectedUser := user;
      searchResults := [];
      step := ConfirmStep;
    }

    /** Continue: shown on the recipient step only when a recipient is typed, disabled while sending. */
    method Continue()
      modifies this
      ensures old(step) == RecipientStep && old(recipient) != "" && !old(isSending) ==> step == ConfirmStep
      ensures !(old(step) == RecipientStep && old(recipient) != "" && !old(isSending)) ==> step == old(step)
      ensures recipient == old(recipient) && selectedUser == old(selectedUser) && searchResults == old(searchResults)
      ensures isAddressConfirmed == old(isAddressConfirmed) && recentRecipients == old(recentRecipients)
      ensures isSending == old(isSending) && isSearching == old(isSearching)
    {
      if step == RecipientStep && recipient != "" && !isSending {
        step := ConfirmStep;
      }
    }

    /** Back: from the confirm step to the recipient step, disabled while sending; nothing else is cleared. */
    method Back()
      modifies this
      ensures old(step) == ConfirmStep && !old(isSending) ==> step == RecipientStep
      ensures !(old(step) == ConfirmStep && !old(isSending)) ==> step == old(step)
      ensures recipient == old(recipient) && selectedUser == old(selectedUser) && searchResults == old(searchResults)
      ensures isAddressConfirmed == old(isAddressConfirmed) && recentRecipients == old(recentRecipients)
      ensures isSending == old(isSending) && isSearching == old(isSearching)
    {
      if step == ConfirmStep && !isSending {
        step := RecipientStep;
      }
    }

    /** The "recipient address is correct" checkbox. */
    method ConfirmAddress(checked: bool)
      modifies this
      ensures isAddressConfirmed == checked
      ensures step == old(step) && recipient == old(recipient) && selectedUser == old(selectedUser)
      ensures searchResults == old(searchResults) && recentRecipients == old(recentRecipients)
      ensures isSending == old(isSending) && isSearching == old(isSearching)
    {
      isAddressConfirmed := checked;
    }

    /**
     * `saveRecentRecipient`: read the stored list, drop the entries with the
     * new entry's address, put the entry first, keep four, store and show it.
     */
    method SaveRecentRecipient(address: string, user: Option<User>, store: RecentsStore)
      modifies this, store
      ensures store.stored == Some(RecentsAfter(StoredRecents(old(store.stored)), address, user))
      ensures recentRecipients == RecentsAfter(StoredRecents(old(store.stored)), address, user)
      ensures step == old(step) && recipient == old(recipient) && selectedUser == old(selectedUser)
      ensures searchResults == old(searchResults) && isAddressConfirmed == old(isAddressConfirmed)
      ensures isSending == old(isSending)
      ensures isSearching == old(isSearching)
    {
      var recents := if store.stored.Some? then store.stored.value else [];
      var newRecipient := NewEntry(address, user);
      recents := DropAddress(recents, newRecipient.ethAddress);
      recents := [newRecipient] + recents;
      recents := Seqs.Take(recents, 4);
      store.stored := Some(recents);
      recentRecipients := recents;
    }

    /**
     * `handleSend`: the checks, then one submission per item in order, each
     * needing a hash before the next; only when every item got one are the
     * recents saved and the success step shown. Any failure leaves the step,
     * the recents and the store as they were.
     */
    method HandleSend(hasProvider: bool, wallet: string, nftData: seq<NftRecord>, hashes: seq<string>, store: RecentsStore)
      returns (submitted: seq<Tx>, error: Option<SendError>)
      modifies this, store
      ensures Outcome(submitted, error) == Send(hasProvider, old(recipient), wallet, nftData, hashes)
      ensures error.None? ==>
        && step == SuccessStep
        && store.stored == Some(RecentsAfter(StoredRecents(old(store.stored)), old(recipient), old(selectedUser)))
        && recentRecipients == RecentsAfter(StoredRecents(old(store.stored)), old(recipient), old(selectedUser))
      ensures error.Some? ==>
        step == old(step) && store.stored == old(store.stored) && recentRecipients == old(recentRecipients)
      ensures !isSending
      ensures recipient == old(recipient) && selectedUser == old(selectedUser)
      ensures searchResults == old(searchResults) && isAddressConfirmed == old(isAddressConfirmed)
      ensures isSearching == old(isSearching)
    {
      isSending := true;
      submitted := [];
      error := Precheck(hasProvider, recipient, wallet);
      if error.None? {
        submitted, error := SubmitEach(wallet, ToLower(recipient), nftData, hashes);
        if error.None? {
          SaveRecentRecipient(recipient, selectedUser, store);
          step := SuccessStep;
        }
      }
      isSending := false;
    }

    /** `handleClose`, with the delayed reset taken as immediate: the wizard starts over; the recents stay. */
    method Close()
      modifies this
      ensures Reset()
      ensures recentRecipients == old(recentRecipients) && isSending == old(isSending)
      ensures isSearching == old(isSearching)
    {
      step := RecipientStep;
      recipient := "";
      selectedUser := None;
      searchResults := [];
      isAddressConfirmed := false;
    }
  }
}
