/** The Electrum mini wallet actor: the script hashes it watches, the wallet state it
    publishes, and the step that merges a subscription answer from the Electrum
    server into that state. The server's answers (the subscription response, the
    unspents of a script hash, the parent transaction of a txid) are parameters. */
module MiniWallet {
  import opened Seqs
  import opened LinkedMaps
  import opened Wallet

  type ScriptHash = Bytes

  datatype ScriptHashSubscriptionResponse = ScriptHashSubscriptionResponse(scriptHash: ScriptHash, status: string)

  /** A notification pushed by the Electrum client; only subscription responses concern the wallet. */
  datatype ElectrumResponse = ScriptHashSubscription(response: ScriptHashSubscriptionResponse) | OtherResponse

  /** What the server gives back when the wallet subscribes to one script hash: the
      subscription response, and the unspents it returns if they are then asked for. */
  datatype SubscriptionAnswer = SubscriptionAnswer(response: ScriptHashSubscriptionResponse, unspents: seq<UnspentItem>)

  /** The server returns, for a txid, a transaction with that txid. */
  ghost predicate HonestServer(getTx: TxId -> Transaction)
  {
    forall id :: getTx(id).txid == id
  }

  /** `addresses[bitcoinAddress] ?: emptyList()` */
  function ItemsOf(w: WalletState, address: Address): seq<UnspentItem>
  {
    match Get(w.addresses, address)
    case Some(items) => items
    case None => []
  }

  function NotIn(known: seq<UnspentItem>): UnspentItem -> bool
  {
    (u: UnspentItem) => u !in known
  }

  /** `unspents.minus(known.toSet())`: the reported items that were not known before. */
  function NewUtxos(unspents: seq<UnspentItem>, known: seq<UnspentItem>): seq<UnspentItem>
  {
    Filter(unspents, NotIn(known))
  }

  /** One `getTx` request per item, in order. */
  function FetchParents(items: seq<UnspentItem>, getTx: TxId -> Transaction): (txs: seq<Transaction>)
    ensures |txs| == |items|
    ensures forall i :: 0 <= i < |items| ==> txs[i] == getTx(items[i].txid)
  {
    if items == [] then [] else [getTx(items[0].txid)] + FetchParents(items[1..], getTx)
  }

  /** `txs.associateBy { it.txid }`: each transaction under its own txid, a later one
      replacing an earlier one with the same txid. */
  function AssociateByTxid(txs: seq<Transaction>): (r: map<TxId, Transaction>)
    ensures forall k :: k in r ==> r[k].txid == k && r[k] in txs
    ensures forall tx :: tx in txs ==> tx.txid in r
  {
    if txs == [] then map[]
    else
      var last := txs[|txs| - 1];
      var r := AssociateByTxid(txs[..|txs| - 1]);
      assert forall tx :: tx in txs ==> tx == last || tx in txs[..|txs| - 1];
      r[last.txid := last]
  }

  /** The wallet-state update of `processSubscriptionResponse`. */
  function ProcessSubscriptionResponse(
    w: WalletState, scriptHashes: Entries<ScriptHash, Address>,
    msg: ScriptHashSubscriptionResponse, unspents: seq<UnspentItem>, getTx: TxId -> Transaction): WalletState
  {
    match Get(scriptHashes, msg.scriptHash)
    case None => w
    case Some(address) =>
      if msg.status == "" then w
      else
        var parents := FetchParents(NewUtxos(unspents, ItemsOf(w, address)), getTx);
        WalletState(Put(w.addresses, address, unspents), w.parentTxs + AssociateByTxid(parents))
  }

  /** The state update of one `subscribe` call: nothing when the subscription request failed. */
  function ApplyAnswer(w: WalletState, scriptHashes: Entries<ScriptHash, Address>, answer: Option<SubscriptionAnswer>, getTx: TxId -> Transaction): WalletState
  {
    match answer
    case None => w
    case Some(a) => ProcessSubscriptionResponse(w, scriptHashes, a.response, a.unspents, getTx)
  }

  /** The state after subscribing again to every watched address, answers taken in order. */
  function ApplyAnswers(w: WalletState, scriptHashes: Entries<ScriptHash, Address>, answers: seq<Option<SubscriptionAnswer>>, getTx: TxId -> Transaction): WalletState
    decreases |answers|
  {
    if answers == [] then w
    else ApplyAnswer(ApplyAnswers(w, scriptHashes, answers[..|answers| - 1], getTx), scriptHashes, answers[|answers| - 1], getTx)
  }

  /** The invariant the actor keeps: no address or script hash twice, each parent under its txid. */
  ghost predicate WellFormed(scriptHashes: Entries<ScriptHash, Address>, w: WalletState)
  {
    DistinctKeys(scriptHashes) && DistinctKeys(w.addresses) && WellKeyed(w.parentTxs)
  }

  // ---------------------------------------------------------------------------
  // The subscription merge

  /** An unknown script hash or an empty status leaves the state as it is. */
  lemma SubscriptionIgnored(w: WalletState, scriptHashes: Entries<ScriptHash, Address>, msg: ScriptHashSubscriptionResponse, unspents: seq<UnspentItem>, getTx: TxId -> Transaction)
    requires msg.scriptHash !in Keys(scriptHashes) || msg.status == ""
    ensures ProcessSubscriptionResponse(w, scriptHashes, msg, unspents, getTx) == w
  {
  }

  /** Otherwise the address's entry becomes the reported unspents, in place or appended, and no other entry changes. */
  lemma SubscriptionReplacesAddress(w: WalletState, scriptHashes: Entries<ScriptHash, Address>, msg: ScriptHashSubscriptionResponse, unspents: seq<UnspentItem>, getTx: TxId -> Transaction, address: Address)
    requires Get(scriptHashes, msg.scriptHash) == Some(address) && msg.status != ""
    ensures var r := ProcessSubscriptionResponse(w, scriptHashes, msg, unspents, getTx);
      && Get(r.addresses, address) == Some(unspents)
      && (forall a :: a != address ==> Get(r.addresses, a) == Get(w.addresses, a))
      && Keys(r.addresses) == (if address in Keys(w.addresses) then Keys(w.addresses) else Keys(w.addresses) + [address])
      && (forall i :: 0 <= i < |w.addresses| && w.addresses[i].0 != address ==> r.addresses[i] == w.addresses[i])
  {
    var m := w.addresses;
    PutKeys(m, address, unspents);
    PutOtherEntries(m, address, unspents);
    forall a ensures Get(Put(m, address, unspents), a) == if a == address then Some(unspents) else Get(m, a) {
      PutGet(m, address, unspents, a);
    }
  }

  /** Each fetched transaction is stored under its own txid, and every item's fetched parent is stored. */
  lemma FetchedParents(items: seq<UnspentItem>, getTx: TxId -> Transaction)
    ensures var fetched := AssociateByTxid(FetchParents(items, getTx));
      && (forall k :: k in fetched ==> fetched[k].txid == k && exists u :: u in items && fetched[k] == getTx(u.txid))
      && (forall u :: u in items ==> getTx(u.txid).txid in fetched)
  {
    var parents := FetchParents(items, getTx);
    var fetched := AssociateByTxid(parents);
    forall k | k in fetched
      ensures exists u :: u in items && fetched[k] == getTx(u.txid)
    {
      var i :| 0 <= i < |parents| && parents[i] == fetched[k];
      assert items[i] in items;
    }
    forall u | u in items
      ensures getTx(u.txid) in parents
    {
      var i :| 0 <= i < |items| && items[i] == u;
      assert parents[i] == getTx(u.txid);
    }
  }

  /** `parentTxs` only grows: what changes is a transaction fetched for a newly reported item,
      stored under its own txid, and every newly reported item's fetched parent is stored. */
  lemma SubscriptionExtendsParents(w: WalletState, scriptHashes: Entries<ScriptHash, Address>, msg: ScriptHashSubscriptionResponse, unspents: seq<UnspentItem>, getTx: TxId -> Transaction, address: Address)
    requires Get(scriptHashes, msg.scriptHash) == Some(address) && msg.status != ""
    ensures var r := ProcessSubscriptionResponse(w, scriptHashes, msg, unspents, getTx);
      && (forall k :: k in w.parentTxs ==> k in r.parentTxs)
      && (forall k :: k in r.parentTxs && (k !in w.parentTxs || r.parentTxs[k] != w.parentTxs[k]) ==>
            r.parentTxs[k].txid == k && exists u :: u in unspents && u !in ItemsOf(w, address) && r.parentTxs[k] == getTx(u.txid))
      && (forall u :: u in unspents && u !in ItemsOf(w, address) ==> getTx(u.txid).txid in r.parentTxs)
  {
    var known := ItemsOf(w, address);
    var reported := NewUtxos(unspents, known);
    var fetched := AssociateByTxid(FetchParents(reported, getTx));
    var merged := w.parentTxs + fetched;
    assert ProcessSubscriptionResponse(w, scriptHashes, msg, unspents, getTx).parentTxs == merged;
    FetchedParents(reported, getTx);
    forall k | k in merged && (k !in w.parentTxs || merged[k] != w.parentTxs[k])
      ensures merged[k].txid == k && exists u :: u in unspents && u !in known && merged[k] == getTx(u.txid)
    {
      assert k in fetched && merged[k] == fetched[k];
      var u :| u in reported && fetched[k] == getTx(u.txid);
      assert u in unspents && u !in known;
    }
    forall u | u in unspents && u !in known
      ensures getTx(u.txid).txid in merged
    {
      assert NotIn(known)(u);
      assert u in reported;
    }
  }

  /** With an honest server, a consistent wallet stays consistent. */
  lemma SubscriptionPreservesConsistency(w: WalletState, scriptHashes: Entries<ScriptHash, Address>, msg: ScriptHashSubscriptionResponse, unspents: seq<UnspentItem>, getTx: TxId -> Transaction)
    requires Consistent(w) && HonestServer(getTx)
    ensures Consistent(ProcessSubscriptionResponse(w, scriptHashes, msg, unspents, getTx))
  {
    var r := ProcessSubscriptionResponse(w, scriptHashes, msg, unspents, getTx);
    if r != w {
      var address := Get(scriptHashes, msg.scriptHash).value;
      SubscriptionExtendsParents(w, scriptHashes, msg, unspents, getTx, address);
      PutEntries(w.addresses, address, unspents);
      ConsistentIffEveryAddressKnown(w);
      forall i, it | 0 <= i < |r.addresses| && it in r.addresses[i].1
        ensures it.txid in r.parentTxs
      {
        assert r.addresses[i] in r.addresses;
        if r.addresses[i] == (address, unspents) {
          if it in ItemsOf(w, address) {
            var j :| 0 <= j < |w.addresses| && w.addresses[j] == (address, ItemsOf(w, address));
            assert it in w.addresses[j].1;
          }
        } else {
          var j :| 0 <= j < |w.addresses| && w.addresses[j] == r.addresses[i];
          assert it in w.addresses[j].1;
        }
      }
      ConsistentIffEveryAddressKnown(r);
    }
  }

  /** The merge keeps the actor's invariant. */
  lemma SubscriptionPreservesWellFormed(w: WalletState, scriptHashes: Entries<ScriptHash, Address>, msg: ScriptHashSubscriptionResponse, unspents: seq<UnspentItem>, getTx: TxId -> Transaction)
    requires WellFormed(scriptHashes, w)
    ensures WellFormed(scriptHashes, ProcessSubscriptionResponse(w, scriptHashes, msg, unspents, getTx))
  {
    match Get(scriptHashes, msg.scriptHash)
    case None =>
    case Some(address) =>
      PutDistinct(w.addresses, address, unspents);
  }

  /** Registering a script hash only after its first answer has been processed, as `AddAddress` does,
      drops that answer; registered first, the same answer records the address's unspents. */
  lemma NewAddressFirstAnswer(w: WalletState, scriptHashes: Entries<ScriptHash, Address>, address: Address, scriptHash: ScriptHash, msg: ScriptHashSubscriptionResponse, unspents: seq<UnspentItem>, getTx: TxId -> Transaction)
    requires scriptHash !in Keys(scriptHashes) && msg.scriptHash == scriptHash && msg.status != ""
    ensures ProcessSubscriptionResponse(w, scriptHashes, msg, unspents, getTx) == w
    ensures Get(ProcessSubscriptionResponse(w, Put(scriptHashes, scriptHash, address), msg, unspents, getTx).addresses, address) == Some(unspents)
  {
    PutGet(scriptHashes, scriptHash, address, scriptHash);
    SubscriptionReplacesAddress(w, Put(scriptHashes, scriptHash, address), msg, unspents, getTx, address);
  }

  /** Resubscribing to every address keeps the invariant, keeps an honest server's wallet consistent, and never forgets a parent. */
  lemma {:induction false} ApplyAnswersPreserves(w: WalletState, scriptHashes: Entries<ScriptHash, Address>, answers: seq<Option<SubscriptionAnswer>>, getTx: TxId -> Transaction)
    requires WellFormed(scriptHashes, w)
    ensures var r := ApplyAnswers(w, scriptHashes, answers, getTx);
      && WellFormed(scriptHashes, r)
      && (Consistent(w) && HonestServer(getTx) ==> Consistent(r))
      && w.parentTxs.Keys <= r.parentTxs.Keys
    decreases |answers|
  {
    if answers != [] {
      var prefix := answers[..|answers| - 1];
      ApplyAnswersPreserves(w, scriptHashes, prefix, getTx);
      var mid := ApplyAnswers(w, scriptHashes, prefix, getTx);
      match answers[|answers| - 1]
      case None =>
      case Some(a) =>
        SubscriptionPreservesWellFormed(mid, scriptHashes, a.response, a.unspents, getTx);
        if Consistent(w) && HonestServer(getTx) {
          SubscriptionPreservesConsistency(mid, scriptHashes, a.response, a.unspents, getTx);
        }
        match Get(scriptHashes, a.response.scriptHash)
        case None =>
        case Some(address) =>
          if a.response.status != "" {
            SubscriptionExtendsParents(mid, scriptHashes, a.response, a.unspents, getTx, address);
          }
    }
  }

  // ---------------------------------------------------------------------------
  // The actor's state

  class ElectrumMiniWallet {
    /** All watched script hashes and the bitcoin address of each. */
    var scriptHashes: Entries<ScriptHash, Address>
    /** The value published on the wallet state flow. */
    var walletState: WalletState

    ghost predicate Valid()
      reads this
    {
      WellFormed(scriptHashes, walletState)
    }

    constructor ()
      ensures Valid()
      ensures scriptHashes == [] && walletState == Empty
    {
      scriptHashes := [];
      walletState := Empty;
    }

    /** `subscribe`: on a successful subscription request, merge its answer into the state. */
    method Subscribe(answer: Option<SubscriptionAnswer>, getTx: TxId -> Transaction)
      requires Valid()
      modifies this`walletState
      ensures Valid()
      ensures walletState == ApplyAnswer(old(walletState), scriptHashes, answer, getTx)
    {
      if answer.Some? {
        SubscriptionPreservesWellFormed(walletState, scriptHashes, answer.value.response, answer.value.unspents, getTx);
        walletState := ProcessSubscriptionResponse(walletState, scriptHashes, answer.value.response, answer.value.unspents, getTx);
      }
    }

    /** `ElectrumNotification`: a subscription response is merged, anything else ignored. */
    method OnElectrumNotification(msg: ElectrumResponse, unspents: seq<UnspentItem>, getTx: TxId -> Transaction)
      requires Valid()
      modifies this`walletState
      ensures Valid()
      ensures walletState == match msg
        case ScriptHashSubscription(response) => ProcessSubscriptionResponse(old(walletState), scriptHashes, response, unspents, getTx)
        case OtherResponse => old(walletState)
      ensures Consistent(old(walletState)) && HonestServer(getTx) ==> Consistent(walletState)
    {
      if msg.ScriptHashSubscription? {
        SubscriptionPreservesWellFormed(walletState, scriptHashes, msg.response, unspents, getTx);
        if Consistent(walletState) && HonestServer(getTx) {
          SubscriptionPreservesConsistency(walletState, scriptHashes, msg.response, unspents, getTx);
        }
        walletState := ProcessSubscriptionResponse(walletState, scriptHashes, msg.response, unspents, getTx);
      }
    }

    /** `AddAddress`: subscribe (the answer is merged against the script hashes known so far),
        then register the script hash for the address. */
    method AddAddress(bitcoinAddress: Address, scriptHash: ScriptHash, answer: Option<SubscriptionAnswer>, getTx: TxId -> Transaction)
      requires Valid()
      modifies this
      ensures Valid()
      ensures walletState == ApplyAnswer(old(walletState), old(scriptHashes), answer, getTx)
      ensures scriptHashes == Put(old(scriptHashes), scriptHash, bitcoinAddress)
      ensures Consistent(old(walletState)) && HonestServer(getTx) ==> Consistent(walletState)
    {
      ApplyAnswersPreserves(walletState, scriptHashes, [answer], getTx);
      assert [answer][..0] == [];
      Subscribe(answer, getTx);
      PutDistinct(scriptHashes, scriptHash, bitcoinAddress);
      scriptHashes := Put(scriptHashes, scriptHash, bitcoinAddress);
    }

    /** `ElectrumConnected`: subscribe again to every watched address, in the order they were added;
        `answers[i]` is what the server gives back for the i-th one. */
    method OnElectrumConnected(answers: seq<Option<SubscriptionAnswer>>, getTx: TxId -> Transaction)
      requires Valid() && |answers| == |scriptHashes|
      modifies this`walletState
      ensures Valid()
      ensures walletState == ApplyAnswers(old(walletState), scriptHashes, answers, getTx)
      ensures Consistent(old(walletState)) && HonestServer(getTx) ==> Consistent(walletState)
      ensures old(walletState).parentTxs.Keys <= walletState.parentTxs.Keys
    {
      ApplyAnswersPreserves(walletState, scriptHashes, answers, getTx);
      var i := 0;
      while i < |scriptHashes|
        invariant 0 <= i <= |scriptHashes|
        invariant Valid()
        invariant walletState == ApplyAnswers(old(walletState), scriptHashes, answers[..i], getTx)
      {
        assert answers[..i + 1][..i] == answers[..i];
        Subscribe(answers[i], getTx);
        i := i + 1;
      }
      assert answers[..i] == answers;
    }
  }
}
