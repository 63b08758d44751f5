# Electrum mini wallet: wallet state model

This project models the wallet-state logic of lightning-kmp's Electrum mini wallet
(`ElectrumMiniWallet.kt`) in Dafny and proves properties of it.

The wallet watches bitcoin addresses through an Electrum server. It publishes a
`WalletState` value with two parts:

- for every watched address, the unspent items the server reported;
- the parent transactions fetched so far, keyed by txid.

From these it derives:

- the `consistent` flag;
- the spendable UTXOs (items whose parent is known);
- the total balance;
- the state with reserved outpoints removed;
- the split of the UTXOs into unconfirmed, weakly confirmed and deeply confirmed tiers.

The actor that owns this state keeps a map from script hash to address. It merges every
subscription answer from the server into the state.

Files and modules:

- `Seqs.dfy` (`Seqs`): Kotlin's `filter` and the subsequence relation, with the lemmas the
  wallet proofs use.
- `LinkedMaps.dfy` (`LinkedMaps`): Kotlin's read-only maps as this file builds them. They come
  from `emptyMap()`, `+` and `mapValues`, so they are insertion-ordered. They are modelled as
  association lists. `m + (k to v)` replaces an existing key's value in place and appends a new
  key at the end. This order is what makes `utxos` come "address by address".
- `Wallet.dfy` (`Wallet`): `WalletState`, `Utxo`, `WalletWithConfirmations`, `balance` and the
  lemmas about them. These are pure functions.
- `MiniWallet.dfy` (`MiniWallet`): the state merge of `processSubscriptionResponse` as a pure
  function, and the class `ElectrumMiniWallet`. The class holds the mutable `scriptHashes` and the
  published wallet state, with one method per mailbox command.

What the Electrum server answers is passed in as parameters:

- the subscription response;
- the unspents of a script hash;
- a function `getTx` from txid to transaction;
- `None` for a subscription request that failed (`runCatching`).

`HonestServer(getTx)` is the assumption that `getTx` returns a transaction with the
requested txid. Only the consistency lemmas use it.

Two consequences of the code as written:

- Lemma `NewAddressFirstAnswer` concerns `AddAddress`. There, `subscribe` merges the server's
  first answer before the new script hash is added to `scriptHashes`, and the merge looks the
  script hash up in `scriptHashes`. So that first answer leaves the state unchanged. The same
  answer is recorded if the script hash is registered first. The new address's unspents show up
  only after a later status notification or a reconnection.
- `processSubscriptionResponse` reads the previous unspents of the address from
  `_walletStateFlow.value`, not from its receiver. At both call sites the receiver is
  `_walletStateFlow.value`, so the model uses the receiver.

## Model

| member | source | states |
|---|---|---|
| Wallet.ConsistentIffEveryAddressKnown | src/commonMain/kotlin/fr/acinq/lightning/blockchain/electrum/ElectrumMiniWallet.kt:20 | `consistent` holds exactly when every unspent item of every address has its txid among the parent transactions |
| Wallet.UtxosMembership | src/commonMain/kotlin/fr/acinq/lightning/blockchain/electrum/ElectrumMiniWallet.kt:21-24 | a UTXO is in `utxos` exactly when it is made from some unspent item whose parent is known (that parent, the item's index and height) |
| Wallet.UtxosCount | src/commonMain/kotlin/fr/acinq/lightning/blockchain/electrum/ElectrumMiniWallet.kt:20-24 | there are as many UTXOs as items with a known parent, and exactly as many as items if and only if the wallet is consistent |
| Wallet.UtxosConcat | src/commonMain/kotlin/fr/acinq/lightning/blockchain/electrum/ElectrumMiniWallet.kt:21-24 | UTXOs come address by address: the UTXOs of two address lists put together are the first list's UTXOs followed by the second's |
| Wallet.UtxoOfItem | src/commonMain/kotlin/fr/acinq/lightning/blockchain/electrum/ElectrumMiniWallet.kt:40-43 | when parents are stored under their own txid, the UTXO made from an item spends the item's outpoint at the item's height, and its amount is that of output `outputIndex` of the parent, readable exactly when the index is in range |
| Wallet.AmountsDefinedIffIndicesValid | src/commonMain/kotlin/fr/acinq/lightning/blockchain/electrum/ElectrumMiniWallet.kt:42 | every UTXO's amount can be read exactly when every item with a known parent names an existing output of it |
| Wallet.BalanceAppend | src/commonMain/kotlin/fr/acinq/lightning/blockchain/electrum/ElectrumMiniWallet.kt:59 | `balance(a + b) == balance(a) + balance(b)` |
| Wallet.TotalBalanceConcat | src/commonMain/kotlin/fr/acinq/lightning/blockchain/electrum/ElectrumMiniWallet.kt:25 | the total balance of two address lists put together is the sum of their total balances |
| Wallet.WithoutReservedUtxosShape | src/commonMain/kotlin/fr/acinq/lightning/blockchain/electrum/ElectrumMiniWallet.kt:27-31 | same addresses in the same order, same parent transactions, and each list keeps, in its order and as many times as they occur, exactly its items whose outpoint is not reserved |
| Wallet.WithoutReservedUtxosConsistent | src/commonMain/kotlin/fr/acinq/lightning/blockchain/electrum/ElectrumMiniWallet.kt:27-31 | removing reserved outpoints keeps a consistent wallet consistent |
| Wallet.WithoutReservedUtxosTwice | src/commonMain/kotlin/fr/acinq/lightning/blockchain/electrum/ElectrumMiniWallet.kt:27-31 | removing one reserved set and then another is removing their union |
| Wallet.WithoutReservedUtxosIdempotent | src/commonMain/kotlin/fr/acinq/lightning/blockchain/electrum/ElectrumMiniWallet.kt:27-31 | removing the same reserved set twice is removing it once |
| Wallet.WithoutNoReservedUtxos | src/commonMain/kotlin/fr/acinq/lightning/blockchain/electrum/ElectrumMiniWallet.kt:27-31 | an empty reserved set leaves the wallet state unchanged |
| Wallet.UtxosWithoutReserved | src/commonMain/kotlin/fr/acinq/lightning/blockchain/electrum/ElectrumMiniWallet.kt:21-31 | when parents are stored under their own txid, the UTXOs of the wallet without reserved outpoints are, in order, its UTXOs whose outpoint is not reserved |
| Wallet.TierMembership | src/commonMain/kotlin/fr/acinq/lightning/blockchain/electrum/ElectrumMiniWallet.kt:33-38 | a UTXO is unconfirmed exactly at height 0; weakly confirmed exactly at height h > 0 with h + minConfirmations > currentBlockHeight; deeply confirmed exactly at h > 0 with h + minConfirmations <= currentBlockHeight; the tiers are disjoint; every UTXO of non-negative height is in a tier; one of negative height is in none |
| Wallet.TiersCoverUtxos | src/commonMain/kotlin/fr/acinq/lightning/blockchain/electrum/ElectrumMiniWallet.kt:33-38 | as a multiset, `unconfirmed + weaklyConfirmed + deeplyConfirmed` is the UTXOs of non-negative height, so it is all UTXOs when no height is negative |
| Wallet.TiersKeepOrder | src/commonMain/kotlin/fr/acinq/lightning/blockchain/electrum/ElectrumMiniWallet.kt:33-38 | each tier is a subsequence of `utxos` |
| Wallet.RaisingBlockHeight | src/commonMain/kotlin/fr/acinq/lightning/blockchain/electrum/ElectrumMiniWallet.kt:34-37 | a higher block height leaves `unconfirmed` unchanged, only adds to `deeplyConfirmed` (in order) and only removes from `weaklyConfirmed` |
| Wallet.TiersBalance | src/commonMain/kotlin/fr/acinq/lightning/blockchain/electrum/ElectrumMiniWallet.kt:50-52 | `balance(all)` is the sum of the three tier balances, and equals the total balance when no height is negative |
| LinkedMaps.PutKeys | src/commonMain/kotlin/fr/acinq/lightning/blockchain/electrum/ElectrumMiniWallet.kt:132 | `map + (k to v)` keeps an existing key where it was and appends a new key after all the others |
| LinkedMaps.PutGet | src/commonMain/kotlin/fr/acinq/lightning/blockchain/electrum/ElectrumMiniWallet.kt:132 | after `map + (k to v)`, `k` maps to `v` and every other key to what it mapped to before |
| MiniWallet.AssociateByTxid | src/commonMain/kotlin/fr/acinq/lightning/blockchain/electrum/ElectrumMiniWallet.kt:132 | `associateBy { it.txid }` stores each transaction under its own txid, stores only given transactions, and stores a transaction for every given txid |
| MiniWallet.FetchedParents | src/commonMain/kotlin/fr/acinq/lightning/blockchain/electrum/ElectrumMiniWallet.kt:127-132 | every fetched parent is recorded under its txid, and every recorded transaction was fetched for one of the items |
| MiniWallet.SubscriptionIgnored | src/commonMain/kotlin/fr/acinq/lightning/blockchain/electrum/ElectrumMiniWallet.kt:120-122 | a response for a script hash with no registered address, or with an empty status, leaves the state unchanged |
| MiniWallet.SubscriptionReplacesAddress | src/commonMain/kotlin/fr/acinq/lightning/blockchain/electrum/ElectrumMiniWallet.kt:120-132 | otherwise the address's entry becomes the reported unspents (in place, or appended for a new address), and every other address keeps its entry and position |
| MiniWallet.SubscriptionExtendsParents | src/commonMain/kotlin/fr/acinq/lightning/blockchain/electrum/ElectrumMiniWallet.kt:125-132 | no parent transaction is dropped; every new or changed entry is a transaction fetched for a newly reported item, under its own txid; the parent of every newly reported item is recorded |
| MiniWallet.SubscriptionPreservesConsistency | src/commonMain/kotlin/fr/acinq/lightning/blockchain/electrum/ElectrumMiniWallet.kt:119-138 | with an honest server, merging a subscription answer into a consistent state gives a consistent state |
| MiniWallet.SubscriptionPreservesWellFormed | src/commonMain/kotlin/fr/acinq/lightning/blockchain/electrum/ElectrumMiniWallet.kt:119-138 | the merge keeps addresses distinct and every parent under its own txid |
| MiniWallet.NewAddressFirstAnswer | src/commonMain/kotlin/fr/acinq/lightning/blockchain/electrum/ElectrumMiniWallet.kt:179-183 | an answer for a script hash not yet registered (as in `AddAddress`, which registers after subscribing) leaves the state unchanged, while the same answer after registration records the address's unspents |
| MiniWallet.ApplyAnswersPreserves | src/commonMain/kotlin/fr/acinq/lightning/blockchain/electrum/ElectrumMiniWallet.kt:168-171 | resubscribing to every address keeps the invariant, keeps a consistent state consistent with an honest server, and never forgets a parent |
| MiniWallet.ElectrumMiniWallet.constructor | src/commonMain/kotlin/fr/acinq/lightning/blockchain/electrum/ElectrumMiniWallet.kt:94-98 | the wallet starts with no script hashes and the empty wallet state |
| MiniWallet.ElectrumMiniWallet.Subscribe | src/commonMain/kotlin/fr/acinq/lightning/blockchain/electrum/ElectrumMiniWallet.kt:145-154 | a successful subscription merges its answer into the published state; a failed one changes nothing |
| MiniWallet.ElectrumMiniWallet.OnElectrumNotification | src/commonMain/kotlin/fr/acinq/lightning/blockchain/electrum/ElectrumMiniWallet.kt:173-177 | a subscription response is merged against the registered script hashes, any other notification is ignored, and consistency is kept with an honest server |
| MiniWallet.ElectrumMiniWallet.AddAddress | src/commonMain/kotlin/fr/acinq/lightning/blockchain/electrum/ElectrumMiniWallet.kt:179-183 | the answer is merged against the script hashes registered before the call, then the script hash is registered for the address |
| MiniWallet.ElectrumMiniWallet.OnElectrumConnected | src/commonMain/kotlin/fr/acinq/lightning/blockchain/electrum/ElectrumMiniWallet.kt:168-171 | one answer per registered script hash, merged in order (each answer is looked up by the script hash it carries); the script hashes are unchanged and no parent is forgotten |

## Left out

- The actor machinery is not modelled: the mailbox, `launch`, `Job`, `MutableStateFlow`, `stop()`, and the collectors that feed connection and notification events into the mailbox. Each mailbox command is one method call, in arrival order.
- Network calls to the Electrum client are not modelled. Their results are parameters: the subscription response, the unspents, `getTx`, and `None` for a failed subscription request.
- An exception thrown by `getScriptHashUnspents` or `getTx` escapes the handler in the source. The model has no such exception.
- The address-to-script-hash derivation (`addressToPublicKeyScript`, `Script.write`, `computeScriptHash`) comes from a bitcoin library whose source is not shown. The script hash is a parameter of `AddAddress`. On reconnection the source recomputes the hash and then discards it, so the model does not need it there.
- Logging and the test-only `setWalletState` are not modelled.
- `UnspentItem`, `Transaction` and `OutPoint` are declared in files that are not part of this model. They are modelled from how this file uses them. A transaction is a txid plus its output amounts. Its hash is the txid with the bytes reversed, and outpoints refer to that hash. Txid hashing and serialization are not modelled.
- Integer widths are not modelled. Heights and amounts are unbounded: a 64-bit overflow of `blockHeight + minConfirmations`, or of the balance sum, cannot happen in the model.
- `utxos` and `totalBalance` are eager properties in the source. So building a `WalletState` with an output index out of range for its parent throws. In the model the state can always be built, and only `Balance` and `TotalBalance` require the indices to be in range.
- MiniWallet.AssociateByTxid: does not state that, of several fetched transactions with the same txid, the last one is kept.
- The Lightning channel state machine is not modelled. The two channel test files exercise it, but its implementation is not part of this model.
