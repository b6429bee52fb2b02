# Legacy-address consolidation and address book of the accounts screen

This project models the logic inside the wallet app's accounts screen
(`AccountActivity`) that works on the wallet's imported ("legacy")
addresses:

- **Transfer gate.** `hasTransferableFunds` decides whether the "transfer
  funds" option is offered.
- **Plan.** `checkTransferFunds` builds one `PendingSpend` per legacy
  address worth sweeping into the default HD account. The confirmation
  dialog of `transferSpendableFunds` shows totals derived from the plan.
- **Send.** `sendPayment` and `executeSend` send the plan strictly in order.
  Each spend succeeds or fails on its own. A success debits the cached
  aggregate legacy balance. Only a successful final spend saves the
  payload and refreshes the list. The second password is cleared by a
  successful final spend or by a permanent failure of any spend.
- **Import.** `importNonBIP38Address` routes a scanned private key.
  `setPrivateKey` attaches the key to an address that is already listed.
  `remoteSaveNewAddress` appends a new entry and saves it.
  `addAddressAndUpdateList` records the new address's fetched balance.
  `importWatchOnly` repairs and checks a scanned address.
- **List.** `updateAccountsList` builds the rows: HD accounts, then the
  imported-addresses header, then one row per legacy address. `onRowClick`
  maps a clicked position back to an account or an address index. A
  missing cached balance reads as 0.

Modules, in dependency order:

- `WalletModel` (`wallet.dfy`): the entities, the constants and the
  `Wallet` class, which holds the state these operations change.
- `Planner` (`planner.dfy`): the specification of the plan and its totals.
- `Consolidation` (`consolidation.dfy`): the specification of a batch send.
- `AddressBook` (`addressbook.dfy`): the specification of the import paths.
- `AccountList` (`accountlist.dfy`): the specification of the list and of
  row clicks.
- `Screen` (`screen.dfy`): the class `AccountActivity`. Its methods keep
  the source's loops and field updates and are proved against the
  specification functions above.

Calls into code that is not part of this model become parameters:

- Base58 and second-password encryption are the `Crypto` functions.
- The URI and address checks are the `Formats` functions.
- Receive-address derivation is `receive(k)`, the address returned by the
  k-th call.
- The unspent-output lookup and the broadcast of each spend are one
  `Attempt` per spend.
- Connectivity, the payload save, the refresh of the legacy balance cache
  and the new address's balance lookup are a `SaveEnv`.
- The user's answers to dialogs (the label typed, the watch-only warning)
  are parameters.

The constants are the flat fee `AVERAGE_FEE = 10000`, the dust threshold
`DUST = 5460`, the archived tag `ARCHIVED_ADDRESS = 2` and the tag of a new
entry `NORMAL_ADDRESS = 0`. Their defining classes (`FeeUtil`, `SendCoins`,
`PayloadManager`) are not part of this model. No proof depends on their
values except the two concrete example lemmas.

Three behaviours of the code that a reader might not expect, which the model keeps:

- The aggregate legacy balance is debited with no floor at zero.
- `setPrivateKey` does not check that the listed entry is watch-only.
- `hasTransferableFunds` ignores the archived tag, while the plan skips
  archived addresses.

## Model

| member | source | states |
|---|---|---|
| WalletModel.BalanceOfUpdate | app/src/main/java/info/blockchain/wallet/ui/AccountActivity.java:1017 | Recording a balance for an address makes its lookup return that balance and leaves the lookup of every other address unchanged |
| Planner.SweptPositionsExact | app/src/main/java/info/blockchain/wallet/ui/AccountActivity.java:1249-1264 | The plan visits exactly the addresses that are not watch-only, not archived and hold more than fee plus dust; each appears once, in legacy-list order |
| Planner.PlanFollowsPositions | app/src/main/java/info/blockchain/wallet/ui/AccountActivity.java:1249-1264 | The k-th pending spend comes from the k-th selected address, carries the flat fee, sends the balance less the fee, and goes to the k-th derived receive address |
| Planner.PlanSpendsAreSweepable | app/src/main/java/info/blockchain/wallet/ui/AccountActivity.java:1251-1263 | Every pending spend comes from a listed, selectable address, with fee = AVERAGE_FEE and amount = balance - AVERAGE_FEE > DUST |
| Planner.TotalAmountAppend | app/src/main/java/info/blockchain/wallet/ui/AccountActivity.java:1259-1260 | Adding a spend raises the running total by exactly that spend's amount |
| Planner.ConfirmationTotals | app/src/main/java/info/blockchain/wallet/ui/AccountActivity.java:1298-1303 | The dialog shows n addresses, a fee of AVERAGE_FEE * n, and a total (totalToSend + AVERAGE_FEE * n) equal to the sum of the swept addresses' balances |
| Planner.PlanImpliesOffer | app/src/main/java/info/blockchain/wallet/ui/AccountActivity.java:1185-1198 | A non-empty plan implies the transfer option was offered |
| Planner.OfferWithoutPlan | app/src/main/java/info/blockchain/wallet/ui/AccountActivity.java:1185-1198 | The converse fails: a funded archived address offers the transfer, yet its plan is empty |
| Consolidation.ReportsFollowPlan | app/src/main/java/info/blockchain/wallet/ui/AccountActivity.java:1378-1405 | Every pending spend is tried in plan order. The selection target is amount + AVERAGE_FEE. Exactly the final spend is flagged last. A spend without unspent outputs is reported and skipped. Otherwise the advisory notice and the broadcast result are reported |
| Consolidation.RunDebitsSentSpends | app/src/main/java/info/blockchain/wallet/ui/AccountActivity.java:1427-1429 | After the batch, the aggregate balance has dropped by amount + fee for each sent spend, with no floor at zero |
| Consolidation.RunSavesOnlyAfterLast | app/src/main/java/info/blockchain/wallet/ui/AccountActivity.java:1431-1443 | The payload is saved once, and only when the final spend is sent |
| Consolidation.RunClearsPassword | app/src/main/java/info/blockchain/wallet/ui/AccountActivity.java:1427-1467 | The second password is cleared by a successful final spend or a permanent failure anywhere in the batch, and is kept otherwise |
| Consolidation.MiddleFailureDoesNotStopBatch | app/src/main/java/info/blockchain/wallet/ui/AccountActivity.java:1378-1405 | A failed middle spend does not stop a later one: the first and third spends are debited and the final success saves |
| Consolidation.DebitCanGoNegative | app/src/main/java/info/blockchain/wallet/ui/AccountActivity.java:1429 | Sending from a zero cached aggregate leaves it negative |
| AddressBook.IndexOf | app/src/main/java/info/blockchain/wallet/ui/AccountActivity.java:897 | The position of the first entry with the address, or -1 exactly when no entry has it |
| AddressBook.RouteKey | app/src/main/java/info/blockchain/wallet/ui/AccountActivity.java:814-889 | An unparseable key or one without a private part is refused. A key whose address is listed goes to that entry; otherwise a new entry is appended. Both directions hold |
| AddressBook.ChosenLabel | app/src/main/java/info/blockchain/wallet/ui/AccountActivity.java:866-880 | The label is always either the address or the text typed. It is the typed text when that text has a non-blank character, and the address otherwise. The label is visible exactly when the typed text or the address is |
| AddressBook.RepairUriDropsDoubleSlash | app/src/main/java/info/blockchain/wallet/ui/AccountActivity.java:925-928 | When exactly two slashes follow "bitcoin:", the repaired text is "bitcoin:" followed by the character after them, and it no longer starts with "bitcoin://" |
| AddressBook.RepairUriDropsOnePairOnly | app/src/main/java/info/blockchain/wallet/ui/AccountActivity.java:925-928 | The repair removes one pair of slashes only: "bitcoin:////x" becomes "bitcoin://x", which still starts with "bitcoin://" |
| AddressBook.CheckWatchOnly | app/src/main/java/info/blockchain/wallet/ui/AccountActivity.java:923-940 | An invalid address is refused, then an already listed address; only a valid, unlisted address is accepted (each an iff) |
| AddressBook.AttachKeyKeepsBook | app/src/main/java/info/blockchain/wallet/ui/AccountActivity.java:894-907 | Attaching a key keeps the list's length and every other entry. The entry gets the key and stops being watch-only. Uniqueness and key consistency are kept |
| AddressBook.AppendKeepsUnique | app/src/main/java/info/blockchain/wallet/ui/AccountActivity.java:1143-1147 | Appending keeps addresses unique iff the address was not listed |
| AddressBook.NewEntriesKeepKeysConsistent | app/src/main/java/info/blockchain/wallet/ui/AccountActivity.java:945-953 | Both new-entry shapes (a key entry, a watch-only entry without key) keep every watch-only entry keyless |
| AddressBook.SaveNewAddressAppends | app/src/main/java/info/blockchain/wallet/ui/AccountActivity.java:1124-1147 | Offline nothing changes. Online exactly the entry is appended and one save requested. An unlisted address keeps the list unique |
| AddressBook.SaveNewAddressBalances | app/src/main/java/info/blockchain/wallet/ui/AccountActivity.java:1150-1167 | After a good save the cache is the refreshed one (or the old one when the refresh threw), then the new address gets the fetched balance (0 when unreadable). The aggregate is the refreshed aggregate plus that balance, every other address keeps its refreshed balance, and the second password is cleared |
| AddressBook.SaveWithoutRefreshAddsOnly | app/src/main/java/info/blockchain/wallet/ui/AccountActivity.java:1155-1167 | When the refresh leaves the cache as it was, a good save changes no other address's balance and grows the aggregate by exactly the fetched balance |
| AccountList.ShownAccounts | app/src/main/java/info/blockchain/wallet/ui/AccountActivity.java:585-591 | The shown accounts are a prefix of the accounts, one shorter exactly when the last account is the ImportedAccount, and the whole list otherwise |
| AccountList.HdCountIsHdPart | app/src/main/java/info/blockchain/wallet/ui/AccountActivity.java:606 | hdAccountsIdx, the shown-account count of an upgraded wallet and 0 otherwise, equals the number of HD rows in the list |
| AccountList.LayoutParts | app/src/main/java/info/blockchain/wallet/ui/AccountActivity.java:575-629 | The list is the HD rows, then the header (upgraded wallets with legacy addresses only), then one row per legacy address at offset HD rows + headers |
| AccountList.LayoutClickRoundTrip | app/src/main/java/info/blockchain/wallet/ui/AccountActivity.java:257-264 | On the list as built, clicking HD row i opens account i, the header does nothing, and the row of legacy address j opens address j |
| AccountList.ClickedRow | app/src/main/java/info/blockchain/wallet/ui/AccountActivity.java:193-200 | For any row of the list as built: an HD row opens its own account, the header does nothing, and an address row opens the legacy address whose row it is |
| AccountList.RowContents | app/src/main/java/info/blockchain/wallet/ui/AccountActivity.java:598-627 | HD row i shows account i's label or "Account: i+1", its xpub balance or 0, and its default flag. Address row j shows the label or else the address, the balance or 0, and the archived and watch-only flags |
| Screen.AccountActivity.constructor | app/src/main/java/info/blockchain/wallet/ui/AccountActivity.java:185-186 | A new screen shows the freshly built list with the transfer option hidden |
| Screen.AccountActivity.UpdateAccountsList | app/src/main/java/info/blockchain/wallet/ui/AccountActivity.java:575-638 | The rebuilt rows and header positions are exactly the layout of the wallet; hdAccountsIdx is the HD row count |
| Screen.AccountActivity.ListHdAccounts | app/src/main/java/info/blockchain/wallet/ui/AccountActivity.java:583-607 | The HD loop appends exactly the HD rows of the shown accounts, in order, and sets hdAccountsIdx to their count |
| Screen.AccountActivity.ListLegacyAddresses | app/src/main/java/info/blockchain/wallet/ui/AccountActivity.java:609-629 | After the HD rows, the header (upgraded wallet only, its position recorded) and one row per legacy address complete exactly the layout |
| Screen.AccountActivity.OnItemClick | app/src/main/java/info/blockchain/wallet/ui/AccountActivity.java:193-200 | The click result is the row-click mapping. On a fresh list an HD row opens its account, the header does nothing, and an address row opens the address it shows |
| Screen.AccountActivity.HasTransferableFunds | app/src/main/java/info/blockchain/wallet/ui/AccountActivity.java:1185-1198 | True iff some address that is not watch-only has balance - AVERAGE_FEE > DUST |
| Screen.AccountActivity.OnCreateOptionsMenu | app/src/main/java/info/blockchain/wallet/ui/AccountActivity.java:269-288 | The transfer option is visible iff the wallet is upgraded and has transferable funds |
| Screen.AccountActivity.CheckTransferFunds | app/src/main/java/info/blockchain/wallet/ui/AccountActivity.java:1241-1269 | The loop builds exactly the plan, and totalToSend is the sum of its amounts |
| Screen.AccountActivity.ExecuteSend | app/src/main/java/info/blockchain/wallet/ui/AccountActivity.java:1412-1475 | The ledger follows the send callbacks. Only a successful final spend refreshes the list and hides the transfer option |
| Screen.AccountActivity.SendPayment | app/src/main/java/info/blockchain/wallet/ui/AccountActivity.java:1370-1406 | The ledger after the loop is the batch run, the reports are the plan's reports, and the list refreshes iff the final spend succeeds |
| Screen.AccountActivity.AddAddressAndUpdateList | app/src/main/java/info/blockchain/wallet/ui/AccountActivity.java:1001-1026 | The fetched balance (0 if unreadable) is cached and added to the aggregate, and the list is rebuilt |
| Screen.AccountActivity.RemoteSaveNewAddress | app/src/main/java/info/blockchain/wallet/ui/AccountActivity.java:1124-1182 | The new wallet state is the specified save of the new address, including the refreshed balance cache. The outcome reports connectivity and the save's result, and the list is rebuilt iff both succeed |
| Screen.AccountActivity.SetPrivateKey | app/src/main/java/info/blockchain/wallet/ui/AccountActivity.java:894-921 | The entry for the address gets the stored key in place and a save is requested; the list refreshes iff the save succeeds |
| Screen.AccountActivity.ImportNonBIP38Address | app/src/main/java/info/blockchain/wallet/ui/AccountActivity.java:814-892 | A refused key changes neither the wallet nor the list. A listed address gets the key in place, and the list is rebuilt iff the save succeeds. A new address is saved with the stored key and the chosen label; the outcome reports connectivity and the save, and the list is rebuilt iff both succeed. Uniqueness and key consistency are kept |
| Screen.AccountActivity.ImportWatchOnly | app/src/main/java/info/blockchain/wallet/ui/AccountActivity.java:923-999 | A refused or cancelled import changes neither the wallet nor the list. An accepted one saves a watch-only entry with the chosen label; the outcome reports connectivity and the save, and the list is rebuilt iff both succeed. Uniqueness and key consistency are kept |

## Left out

- Android UI and lifecycle are not modelled: toasts, progress dialogs, the
  FAB, the adapter, permissions, the scanner and broadcast receivers.
  Dialog answers are parameters.
- Display formatting of balances (`MonetaryUtil`, unit strings) is not
  modelled. Rows carry the balance in satoshi.
- Threads, `AsyncTask` and `Looper` are not modelled. Each batch and each
  save runs as sequential code, and callbacks run in call order.
- Network, persistence and the unspent-output lookup are not modelled.
  Each is an opaque outcome given as a parameter. An exception in the
  unspent lookup reads as `NoUnspents`.
- The websocket subscription broadcast for a new address is not modelled.
- AddressBook.SaveNewAddressBalances: what `refreshLegacyAddressData`
  computes is not modelled. It is an opaque new cache (per-address balances
  and aggregate), or none when it throws. `MultiAddrFactory` is not part of
  this model, so whether the refreshed aggregate already counts the new
  address, which the source would then count twice, is left open.
- Transaction building and signing (`SendFactory`) and HD receive-address
  derivation are not modelled. Key parsing, BIP38 detection and decryption,
  `ECKey`, Base58 and `DoubleEncryptionFactory` are parameters.
- `importBIP38Address`, `addAddress`, `createNewAccount`, `addAccount` and
  the `onActivityResult` dispatch between key formats are not modelled.
- The second-password prompt `alertDoubleEncrypted` before a send is not
  modelled. `SendPayment` starts from whatever second password the wallet
  holds.
- A missing payload in `remoteSaveNewAddress` is not modelled. The payload
  is always present.
- Creation time, device name and version of a new entry are not modelled.
  The label length limit of the input field is not modelled either.
- Java `null` and empty labels are not distinguished: both are `""`.
- WalletModel.BalanceOf: a missing cached balance reads as 0 everywhere.
  `getAccountBalance` and `getAddressBalance` do this explicitly. In
  `hasTransferableFunds` (AccountActivity.java:1190) and `checkTransferFunds`
  (1253) the source unboxes the cached `Long` into a `long`, so a missing
  entry there throws a NullPointerException where the model reads 0.
  `MultiAddrFactory`, which fills the cache, is not part of this model.
- Screen.AccountActivity.ExecuteSend: Java `long` overflow is not modelled,
  neither in the debit of the aggregate balance (1429), nor in the running
  total `totalToSend` (1260), nor in `balance - AVERAGE_FEE` (1191, 1255).
  Integers are unbounded, and real balances lie far below 2^63.
- Screen.AccountActivity.SetPrivateKey: `LegacyAddress` is a value inside
  the wallet's sequence. The in-place field update becomes a replacement of
  that element, so aliasing of the same object elsewhere is not captured.
- Screen.AccountActivity.UpdateAccountsList: `isNotUpgraded()` is taken to
  be the negation of `isUpgraded()`, since `PayloadManager` is not part of
  this model. For a wallet that is not upgraded, `hdAccountsIdx` keeps its
  initial value 0, as in the source.
- `WebSocketService.java` and `SSLVerifyUtil.java` are not part of this
  model. They do socket subscription and a network check with no wallet
  logic.
