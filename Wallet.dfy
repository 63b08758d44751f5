/** The published view of the Electrum mini wallet: for every watched address the
    unspent items the server reported, the parent transactions fetched so far,
    and what is derived from them (the consistency flag, the spendable UTXOs,
    the balance, the reserved-outpoint filter and the confirmation tiers). */
module Wallet {
  import opened Seqs
  import opened LinkedMaps

  type Bytes = seq<bv8>
  type TxId = Bytes
  type Address = string
  /** An amount in satoshis. */
  type Satoshi = int

  function Reversed(b: Bytes): (r: Bytes)
    ensures |r| == |b|
    ensures forall i :: 0 <= i < |b| ==> r[i] == b[|b| - 1 - i]
  {
    if b == [] then [] else Reversed(b[1..]) + [b[0]]
  }

  datatype TxOut = TxOut(amount: Satoshi)

  /** A bitcoin transaction, reduced to its id and its outputs. */
  datatype Transaction = Transaction(txid: TxId, txOut: seq<TxOut>) {
    /** The hash outpoints refer to: the txid in the other byte order. */
    function Hash(): Bytes { Reversed(txid) }
  }

  datatype OutPoint = OutPoint(hash: Bytes, index: int)

  /** One unspent output as the Electrum server reports it for an address. */
  datatype UnspentItem = UnspentItem(txid: TxId, outputIndex: int, value: Satoshi, blockHeight: int) {
    function OutPointOf(): OutPoint { OutPoint(Reversed(txid), outputIndex) }
  }

  /** A spendable output: an unspent item together with its parent transaction. */
  datatype Utxo = Utxo(previousTx: Transaction, outputIndex: int, blockHeight: int) {
    function OutPointOf(): OutPoint { OutPoint(previousTx.Hash(), outputIndex) }

    /** Reading output `outputIndex` of the parent transaction does not fail. */
    predicate HasAmount() { 0 <= outputIndex < |previousTx.txOut| }

    function Amount(): Satoshi
      requires HasAmount()
    {
      previousTx.txOut[outputIndex].amount
    }
  }

  datatype WalletState = WalletState(addresses: Entries<Address, seq<UnspentItem>>, parentTxs: map<TxId, Transaction>)

  const Empty := WalletState([], map[])

  datatype WalletWithConfirmations = WalletWithConfirmations(unconfirmed: seq<Utxo>, weaklyConfirmed: seq<Utxo>, deeplyConfirmed: seq<Utxo>) {
    function All(): seq<Utxo> { unconfirmed + weaklyConfirmed + deeplyConfirmed }
  }

  /** Every parent transaction is stored under its own txid. */
  ghost predicate WellKeyed(parentTxs: map<TxId, Transaction>)
  {
    forall k :: k in parentTxs ==> parentTxs[k].txid == k
  }

  /** All unspent items, address by address, each address's items in the server's order. */
  function AllItems(w: WalletState): seq<UnspentItem>
  {
    FlatValues(w.addresses)
  }

  function HasParent(parentTxs: map<TxId, Transaction>): UnspentItem -> bool
  {
    (it: UnspentItem) => it.txid in parentTxs
  }

  /** The parent transaction of every unspent item has been received. */
  predicate Consistent(w: WalletState)
  {
    forall it :: it in AllItems(w) ==> it.txid in w.parentTxs
  }

  function ToUtxo(parentTxs: map<TxId, Transaction>, it: UnspentItem): Utxo
    requires it.txid in parentTxs
  {
    Utxo(parentTxs[it.txid], it.outputIndex, it.blockHeight)
  }

  /** The items whose parent is known, turned into UTXOs, in order. */
  function UtxosOf(items: seq<UnspentItem>, parentTxs: map<TxId, Transaction>): (r: seq<Utxo>)
    ensures |r| <= |items|
  {
    if items == [] then []
    else (if items[0].txid in parentTxs then [ToUtxo(parentTxs, items[0])] else []) + UtxosOf(items[1..], parentTxs)
  }

  function Utxos(w: WalletState): seq<Utxo>
  {
    UtxosOf(AllItems(w), w.parentTxs)
  }

  predicate AmountsDefined(us: seq<Utxo>)
  {
    forall u :: u in us ==> u.HasAmount()
  }

  /** `balance`: the sum of the amounts of a list of UTXOs. */
  function Balance(us: seq<Utxo>): Satoshi
    requires AmountsDefined(us)
  {
    if us == [] then 0 else us[0].Amount() + Balance(us[1..])
  }

  function TotalBalance(w: WalletState): Satoshi
    requires AmountsDefined(Utxos(w))
  {
    Balance(Utxos(w))
  }

  /** Every item with a known parent names an existing output of that parent. */
  predicate OutputIndicesValid(w: WalletState)
  {
    forall it :: it in AllItems(w) && it.txid in w.parentTxs ==> 0 <= it.outputIndex < |w.parentTxs[it.txid].txOut|
  }

  function NotReserved(reserved: set<OutPoint>): UnspentItem -> bool
  {
    (it: UnspentItem) => it.OutPointOf() !in reserved
  }

  function DropReserved(reserved: set<OutPoint>): seq<UnspentItem> -> seq<UnspentItem>
  {
    (items: seq<UnspentItem>) => Filter(items, NotReserved(reserved))
  }

  function WithoutReservedUtxos(w: WalletState, reserved: set<OutPoint>): WalletState
  {
    WalletState(MapValues(w.addresses, DropReserved(reserved)), w.parentTxs)
  }

  function UtxoNotReserved(reserved: set<OutPoint>): Utxo -> bool
  {
    (u: Utxo) => u.OutPointOf() !in reserved
  }

  predicate IsUnconfirmed(u: Utxo)
  {
    u.blockHeight == 0
  }

  predicate IsWeaklyConfirmed(u: Utxo, currentBlockHeight: int, minConfirmations: int)
  {
    0 < u.blockHeight && u.blockHeight + minConfirmations > currentBlockHeight
  }

  predicate IsDeeplyConfirmed(u: Utxo, currentBlockHeight: int, minConfirmations: int)
  {
    0 < u.blockHeight && u.blockHeight + minConfirmations <= currentBlockHeight
  }

  function Weakly(currentBlockHeight: int, minConfirmations: int): Utxo -> bool
  {
    (u: Utxo) => IsWeaklyConfirmed(u, currentBlockHeight, minConfirmations)
  }

  function Deeply(currentBlockHeight: int, minConfirmations: int): Utxo -> bool
  {
    (u: Utxo) => IsDeeplyConfirmed(u, currentBlockHeight, minConfirmations)
  }

  function NonNegativeHeight(): Utxo -> bool
  {
    (u: Utxo) => u.blockHeight >= 0
  }

  function WithConfirmations(w: WalletState, currentBlockHeight: int, minConfirmations: int): WalletWithConfirmations
  {
    var us := Utxos(w);
    WalletWithConfirmations(
      Filter(us, IsUnconfirmed),
      Filter(us, Weakly(currentBlockHeight, minConfirmations)),
      Filter(us, Deeply(currentBlockHeight, minConfirmations)))
  }

  // ---------------------------------------------------------------------------
  // Consistency and the UTXO list

  /** `consistent` holds exactly when every item of every address has its parent. */
  lemma ConsistentIffEveryAddressKnown(w: WalletState)
    ensures Consistent(w) <==>
      forall i, it :: 0 <= i < |w.addresses| && it in w.addresses[i].1 ==> it.txid in w.parentTxs
  {
    forall it: UnspentItem
      ensures it in AllItems(w) <==> exists i :: 0 <= i < |w.addresses| && it in w.addresses[i].1
    {
      FlatValuesMembership(w.addresses, it);
    }
  }

  lemma {:induction false} UtxosOfAppend(a: seq<UnspentItem>, b: seq<UnspentItem>, p: map<TxId, Transaction>)
    ensures UtxosOf(a + b, p) == UtxosOf(a, p) + UtxosOf(b, p)
  {
    if a == [] {
      assert a + b == b;
    } else {
      assert (a + b)[0] == a[0] && (a + b)[1..] == a[1..] + b;
      UtxosOfAppend(a[1..], b, p);
    }
  }

  lemma {:induction false} UtxosOfMembership(items: seq<UnspentItem>, p: map<TxId, Transaction>, u: Utxo)
    ensures u in UtxosOf(items, p) <==> exists it :: it in items && it.txid in p && u == ToUtxo(p, it)
  {
    if items != [] {
      UtxosOfMembership(items[1..], p, u);
      assert forall it :: it in items <==> it == items[0] || it in items[1..];
    }
  }

  lemma {:induction false} UtxosOfCount(items: seq<UnspentItem>, p: map<TxId, Transaction>)
    ensures |UtxosOf(items, p)| == |Filter(items, HasParent(p))|
  {
    if items != [] {
      UtxosOfCount(items[1..], p);
    }
  }

  /** A UTXO is exactly an unspent item with a known parent, made into a UTXO. */
  lemma UtxosMembership(w: WalletState, u: Utxo)
    ensures u in Utxos(w) <==> exists it :: it in AllItems(w) && it.txid in w.parentTxs && u == ToUtxo(w.parentTxs, it)
  {
    UtxosOfMembership(AllItems(w), w.parentTxs, u);
  }

  /** There are as many UTXOs as items with a known parent; as many as items exactly when consistent. */
  lemma UtxosCount(w: WalletState)
    ensures |Utxos(w)| == |Filter(AllItems(w), HasParent(w.parentTxs))|
    ensures Consistent(w) <==> |Utxos(w)| == |AllItems(w)|
  {
    UtxosOfCount(AllItems(w), w.parentTxs);
    FilterKeepsAll(AllItems(w), HasParent(w.parentTxs));
  }

  /** UTXOs come address by address: the UTXOs of a concatenation of address lists concatenate. */
  lemma UtxosConcat(m1: Entries<Address, seq<UnspentItem>>, m2: Entries<Address, seq<UnspentItem>>, p: map<TxId, Transaction>)
    ensures Utxos(WalletState(m1 + m2, p)) == Utxos(WalletState(m1, p)) + Utxos(WalletState(m2, p))
  {
    FlatValuesAppend(m1, m2);
    UtxosOfAppend(FlatValues(m1), FlatValues(m2), p);
  }

  /** The UTXO made from an item spends the same outpoint, at the same height, for the amount of that output. */
  lemma UtxoOfItem(p: map<TxId, Transaction>, it: UnspentItem)
    requires it.txid in p && WellKeyed(p)
    ensures ToUtxo(p, it).previousTx.txid == it.txid
    ensures ToUtxo(p, it).OutPointOf() == it.OutPointOf()
    ensures ToUtxo(p, it).blockHeight == it.blockHeight
    ensures ToUtxo(p, it).HasAmount() <==> 0 <= it.outputIndex < |p[it.txid].txOut|
    ensures ToUtxo(p, it).HasAmount() ==> ToUtxo(p, it).Amount() == p[it.txid].txOut[it.outputIndex].amount
  {
  }

  // ---------------------------------------------------------------------------
  // Balances

  lemma {:induction false} BalanceAppend(a: seq<Utxo>, b: seq<Utxo>)
    requires AmountsDefined(a) && AmountsDefined(b)
    ensures AmountsDefined(a + b)
    ensures Balance(a + b) == Balance(a) + Balance(b)
  {
    if a == [] {
      assert a + b == b;
    } else {
      assert (a + b)[0] == a[0] && (a + b)[1..] == a[1..] + b;
      BalanceAppend(a[1..], b);
    }
  }

  /** The amount of every UTXO can be read exactly when every item with a known parent names an existing output. */
  lemma AmountsDefinedIffIndicesValid(w: WalletState)
    ensures AmountsDefined(Utxos(w)) <==> OutputIndicesValid(w)
  {
    forall u: Utxo {
      UtxosMembership(w, u);
    }
    if AmountsDefined(Utxos(w)) {
      forall it | it in AllItems(w) && it.txid in w.parentTxs
        ensures 0 <= it.outputIndex < |w.parentTxs[it.txid].txOut|
      {
        assert ToUtxo(w.parentTxs, it) in Utxos(w);
      }
    }
  }

  /** The total balance of a wallet is the sum of the balances of its address lists, in order. */
  lemma TotalBalanceConcat(m1: Entries<Address, seq<UnspentItem>>, m2: Entries<Address, seq<UnspentItem>>, p: map<TxId, Transaction>)
    requires AmountsDefined(Utxos(WalletState(m1, p))) && AmountsDefined(Utxos(WalletState(m2, p)))
    ensures AmountsDefined(Utxos(WalletState(m1 + m2, p)))
    ensures TotalBalance(WalletState(m1 + m2, p)) == TotalBalance(WalletState(m1, p)) + TotalBalance(WalletState(m2, p))
  {
    UtxosConcat(m1, m2, p);
    BalanceAppend(Utxos(WalletState(m1, p)), Utxos(WalletState(m2, p)));
  }

  lemma {:induction false} BalancePartition(s: seq<Utxo>, p: Utxo -> bool, q: Utxo -> bool, r: Utxo -> bool, any: Utxo -> bool)
    requires AmountsDefined(s)
    requires forall x :: x in s ==> any(x) == (p(x) || q(x) || r(x))
    requires forall x :: x in s ==> !(p(x) && q(x)) && !(p(x) && r(x)) && !(q(x) && r(x))
    ensures Balance(Filter(s, p)) + Balance(Filter(s, q)) + Balance(Filter(s, r)) == Balance(Filter(s, any))
  {
    if s != [] {
      BalancePartition(s[1..], p, q, r, any);
      BalanceFilterHead(s, p);
      BalanceFilterHead(s, q);
      BalanceFilterHead(s, r);
      BalanceFilterHead(s, any);
    }
  }

  lemma BalanceFilterHead(s: seq<Utxo>, p: Utxo -> bool)
    requires s != [] && AmountsDefined(s)
    ensures Balance(Filter(s, p)) == (if p(s[0]) then s[0].Amount() else 0) + Balance(Filter(s[1..], p))
  {
    var rest := Filter(s[1..], p);
    if p(s[0]) {
      assert Filter(s, p) == [s[0]] + rest;
      assert ([s[0]] + rest)[1..] == rest;
    } else {
      assert Filter(s, p) == rest;
    }
  }

  // ---------------------------------------------------------------------------
  // Reserved outpoints

  /** Same addresses in the same order, same parents; each list keeps, in order and with their multiplicity, exactly its unreserved items. */
  lemma WithoutReservedUtxosShape(w: WalletState, reserved: set<OutPoint>)
    ensures Keys(WithoutReservedUtxos(w, reserved).addresses) == Keys(w.addresses)
    ensures WithoutReservedUtxos(w, reserved).parentTxs == w.parentTxs
    ensures forall i :: 0 <= i < |w.addresses| ==>
      var items, kept := w.addresses[i].1, WithoutReservedUtxos(w, reserved).addresses[i].1;
      && IsSubsequence(kept, items)
      && (forall it :: it in kept <==> it in items && it.OutPointOf() !in reserved)
      && forall it :: multiset(kept)[it] == if it.OutPointOf() in reserved then 0 else multiset(items)[it]
  {
    var w' := WithoutReservedUtxos(w, reserved);
    forall i | 0 <= i < |w.addresses|
      ensures IsSubsequence(w'.addresses[i].1, w.addresses[i].1)
      ensures forall it :: multiset(w'.addresses[i].1)[it] == if it.OutPointOf() in reserved then 0 else multiset(w.addresses[i].1)[it]
    {
      FilterIsSubsequence(w.addresses[i].1, NotReserved(reserved));
      forall it ensures multiset(w'.addresses[i].1)[it] == if it.OutPointOf() in reserved then 0 else multiset(w.addresses[i].1)[it] {
        FilterMultiset(w.addresses[i].1, NotReserved(reserved), it);
      }
    }
  }

  /** Dropping reserved outpoints keeps a consistent wallet consistent. */
  lemma WithoutReservedUtxosConsistent(w: WalletState, reserved: set<OutPoint>)
    requires Consistent(w)
    ensures Consistent(WithoutReservedUtxos(w, reserved))
  {
    var w' := WithoutReservedUtxos(w, reserved);
    ConsistentIffEveryAddressKnown(w);
    ConsistentIffEveryAddressKnown(w');
  }

  /** Removing `r1` and then `r2` is removing their union. */
  lemma WithoutReservedUtxosTwice(w: WalletState, r1: set<OutPoint>, r2: set<OutPoint>)
    ensures WithoutReservedUtxos(WithoutReservedUtxos(w, r1), r2) == WithoutReservedUtxos(w, r1 + r2)
  {
    var a := WithoutReservedUtxos(WithoutReservedUtxos(w, r1), r2).addresses;
    var b := WithoutReservedUtxos(w, r1 + r2).addresses;
    forall i | 0 <= i < |w.addresses| ensures a[i] == b[i] {
      FilterFilter(w.addresses[i].1, NotReserved(r1), NotReserved(r2), NotReserved(r1 + r2));
    }
  }

  lemma WithoutReservedUtxosIdempotent(w: WalletState, reserved: set<OutPoint>)
    ensures WithoutReservedUtxos(WithoutReservedUtxos(w, reserved), reserved) == WithoutReservedUtxos(w, reserved)
  {
    WithoutReservedUtxosTwice(w, reserved, reserved);
    assert reserved + reserved == reserved;
  }

  lemma WithoutNoReservedUtxos(w: WalletState)
    ensures WithoutReservedUtxos(w, {}) == w
  {
    var a := WithoutReservedUtxos(w, {}).addresses;
    forall i | 0 <= i < |w.addresses| ensures a[i] == w.addresses[i] {
      FilterAllTrue(w.addresses[i].1, NotReserved({}));
    }
  }

  lemma {:induction false} UtxosOfReserved(items: seq<UnspentItem>, p: map<TxId, Transaction>, reserved: set<OutPoint>)
    requires WellKeyed(p)
    ensures UtxosOf(Filter(items, NotReserved(reserved)), p) == Filter(UtxosOf(items, p), UtxoNotReserved(reserved))
  {
    if items != [] {
      UtxosOfReserved(items[1..], p, reserved);
      var it := items[0];
      if it.txid in p {
        UtxoOfItem(p, it);
      }
      var head := if it.OutPointOf() !in reserved then [it] else [];
      assert Filter(items, NotReserved(reserved)) == head + Filter(items[1..], NotReserved(reserved));
      UtxosOfAppend(head, Filter(items[1..], NotReserved(reserved)), p);
      var uhead := if it.txid in p then [ToUtxo(p, it)] else [];
      assert UtxosOf(items, p) == uhead + UtxosOf(items[1..], p);
      FilterAppend(uhead, UtxosOf(items[1..], p), UtxoNotReserved(reserved));
    }
  }

  lemma {:induction false} FlatValuesReserved(m: Entries<Address, seq<UnspentItem>>, p: map<TxId, Transaction>, reserved: set<OutPoint>)
    requires WellKeyed(p)
    ensures UtxosOf(FlatValues(MapValues(m, DropReserved(reserved))), p) == Filter(UtxosOf(FlatValues(m), p), UtxoNotReserved(reserved))
  {
    if m != [] {
      FlatValuesReserved(m[1..], p, reserved);
      var f := DropReserved(reserved);
      assert MapValues(m, f) == [(m[0].0, f(m[0].1))] + MapValues(m[1..], f);
      assert FlatValues(MapValues(m, f)) == f(m[0].1) + FlatValues(MapValues(m[1..], f));
      UtxosOfAppend(f(m[0].1), FlatValues(MapValues(m[1..], f)), p);
      UtxosOfReserved(m[0].1, p, reserved);
      UtxosOfAppend(m[0].1, FlatValues(m[1..]), p);
      FilterAppend(UtxosOf(m[0].1, p), UtxosOf(FlatValues(m[1..]), p), UtxoNotReserved(reserved));
    }
  }

  /** The UTXOs of the wallet without reserved outpoints are the wallet's UTXOs whose outpoint is not reserved, in order. */
  lemma UtxosWithoutReserved(w: WalletState, reserved: set<OutPoint>)
    requires WellKeyed(w.parentTxs)
    ensures Utxos(WithoutReservedUtxos(w, reserved)) == Filter(Utxos(w), UtxoNotReserved(reserved))
  {
    FlatValuesReserved(w.addresses, w.parentTxs, reserved);
  }

  // ---------------------------------------------------------------------------
  // Confirmation tiers

  /** What each tier holds, in both directions; no UTXO is in two tiers, and one of negative height is in none. */
  lemma TierMembership(w: WalletState, currentBlockHeight: int, minConfirmations: int, u: Utxo)
    ensures var c := WithConfirmations(w, currentBlockHeight, minConfirmations);
      && (u in c.unconfirmed <==> u in Utxos(w) && u.blockHeight == 0)
      && (u in c.weaklyConfirmed <==> u in Utxos(w) && 0 < u.blockHeight && u.blockHeight + minConfirmations > currentBlockHeight)
      && (u in c.deeplyConfirmed <==> u in Utxos(w) && 0 < u.blockHeight && u.blockHeight + minConfirmations <= currentBlockHeight)
      && !(u in c.unconfirmed && u in c.weaklyConfirmed)
      && !(u in c.unconfirmed && u in c.deeplyConfirmed)
      && !(u in c.weaklyConfirmed && u in c.deeplyConfirmed)
      && (u.blockHeight < 0 ==> u !in c.All())
      && (u in Utxos(w) && u.blockHeight >= 0 ==> u in c.All())
  {
  }

  /** Together the tiers hold every UTXO of non-negative height once, as often as it occurs. */
  lemma TiersCoverUtxos(w: WalletState, currentBlockHeight: int, minConfirmations: int)
    ensures multiset(WithConfirmations(w, currentBlockHeight, minConfirmations).All()) == multiset(Filter(Utxos(w), NonNegativeHeight()))
    ensures (forall u :: u in Utxos(w) ==> u.blockHeight >= 0) ==>
      multiset(WithConfirmations(w, currentBlockHeight, minConfirmations).All()) == multiset(Utxos(w))
  {
    var us := Utxos(w);
    FilterPartition(us, IsUnconfirmed, Weakly(currentBlockHeight, minConfirmations), Deeply(currentBlockHeight, minConfirmations), NonNegativeHeight());
    if forall u :: u in us ==> u.blockHeight >= 0 {
      FilterAllTrue(us, NonNegativeHeight());
    }
  }

  /** Each tier keeps the order of the UTXO list. */
  lemma TiersKeepOrder(w: WalletState, currentBlockHeight: int, minConfirmations: int)
    ensures var c := WithConfirmations(w, currentBlockHeight, minConfirmations);
      && IsSubsequence(c.unconfirmed, Utxos(w))
      && IsSubsequence(c.weaklyConfirmed, Utxos(w))
      && IsSubsequence(c.deeplyConfirmed, Utxos(w))
  {
    var us := Utxos(w);
    FilterIsSubsequence(us, IsUnconfirmed);
    FilterIsSubsequence(us, Weakly(currentBlockHeight, minConfirmations));
    FilterIsSubsequence(us, Deeply(currentBlockHeight, minConfirmations));
  }

  /** A higher chain tip leaves the unconfirmed tier alone, only adds to the deep tier and only removes from the weak one. */
  lemma RaisingBlockHeight(w: WalletState, h1: int, h2: int, minConfirmations: int)
    requires h1 <= h2
    ensures var c1, c2 := WithConfirmations(w, h1, minConfirmations), WithConfirmations(w, h2, minConfirmations);
      && c1.unconfirmed == c2.unconfirmed
      && IsSubsequence(c1.deeplyConfirmed, c2.deeplyConfirmed)
      && IsSubsequence(c2.weaklyConfirmed, c1.weaklyConfirmed)
      && forall u :: u in c1.deeplyConfirmed ==> u in c2.deeplyConfirmed
  {
    var us := Utxos(w);
    FilterMonotone(us, Deeply(h1, minConfirmations), Deeply(h2, minConfirmations));
    FilterMonotone(us, Weakly(h2, minConfirmations), Weakly(h1, minConfirmations));
  }

  /** `balance(all)` is the sum of the tier balances, and the total balance when no height is negative. */
  lemma TiersBalance(w: WalletState, currentBlockHeight: int, minConfirmations: int)
    requires AmountsDefined(Utxos(w))
    ensures var c := WithConfirmations(w, currentBlockHeight, minConfirmations);
      && AmountsDefined(c.All())
      && Balance(c.All()) == Balance(c.unconfirmed) + Balance(c.weaklyConfirmed) + Balance(c.deeplyConfirmed)
      && ((forall u :: u in Utxos(w) ==> u.blockHeight >= 0) ==> Balance(c.All()) == TotalBalance(w))
  {
    var c := WithConfirmations(w, currentBlockHeight, minConfirmations);
    var us := Utxos(w);
    BalanceAppend(c.unconfirmed, c.weaklyConfirmed);
    BalanceAppend(c.unconfirmed + c.weaklyConfirmed, c.deeplyConfirmed);
    BalancePartition(us, IsUnconfirmed, Weakly(currentBlockHeight, minConfirmations), Deeply(currentBlockHeight, minConfirmations), NonNegativeHeight());
    if forall u :: u in us ==> u.blockHeight >= 0 {
      FilterAllTrue(us, NonNegativeHeight());
    }
  }
}
