# Sibcoin DEX and budget RPC, modelled in Dafny

This project models the decentralised offer exchange (DEX) of the Sibcoin
node and the masternode budget remote-procedure calls. It proves properties
of the model:

- **Offer store** (`offer_store.dfy`, module `OfferStore`): the buy, sell and
  own-offer tables of `DexDB` as sequences of records. The side tables
  are keyed by transaction id and the own-offer table by offer hash; lookup
  is by either. The model covers filtered and
  period counts, the last modification time, expiry purges and the change
  callbacks, as the database tests pin them down.
- **Offer synchronisation** (`dex_sync.dfy`, module `DexSync`): `CDexSync` as an
  immutable state record. Each handler returns the new state and a log of
  outgoing messages and timer requests, from start-up through the per-peer
  status map to the download set and the 30-second decision tree.
- **Payment transaction checks** (`dex_tx.dfy`, module `DexTx`): the `CHECK`
  macro's error accumulation, `CheckTx`, the duration-scaled fee,
  confirmations, broadcast checks, payment and signing. The transaction is
  an abstract record.
- **DEX RPC** (`dex_rpc.dfy`, module `DexRpc`): keyword parsing of `dexoffers`
  and `dexmyoffers` and the buy/sell merge under a limit. It also covers
  add/edit/send/delete/get of offers and the `dexsync` and `dexsettings`
  dispatch.
- **Budget RPC** (`budget_rpc.dfy`, module `BudgetRpc`): the `mnbudget` and
  `mnfinalbudget` whitelists, and `prepare`/`submit` validation against the
  payment cycle. It also covers vote parsing, the vote-many tally, the
  `show` filter and the `projection` running total.
- **Shared vocabulary** (`common.dfy`, module `Common`): results, hashes as
  numbers below 2^256, C++ truncating division, ASCII lower-casing,
  `std::stoi` and `uint256S`.

Wallet, key, signature, chain lookup, network and database-callback outcomes
are parameters of the operations that consult them. Constants whose values
the sources do not show (the offer fees, the minimum confirmation count, the
maximum transaction size, the minimum DEX protocol version, the budget cycle
length, `maxOutput()`) are parameters as well; the cycle is required to be
positive.

## Model

| member | source | states |
|---|---|---|
| Common.TDiv | src/dex/dex.cpp:136-137 | C++ `/` truncates toward zero: the remainder has the dividend's sign and is smaller than the divisor |
| Common.ParseHashRoundTrip | src/dex/rpc.cpp:429 | the 64-digit hex spelling of any hash reads back, via `uint256S`, as that hash |
| Common.StoIRoundTrip | src/dex/rpc.cpp:116-117 | `std::stoi` reads a non-negative number's decimal spelling back as that number |
| Common.ToLowerIdempotent | src/dex/rpc.cpp:157-161 | lower-casing, used for case-insensitive matching, is idempotent |
| Common.Utf8Length | src/rpcmasternode-budget.cpp:56-61 | the UTF-8 length of a text lies between one and four bytes per character and equals the character count exactly when every character is ASCII |
| OfferStore.IndexWhere | src/test/dexdb_tests.cpp:141-190 | the first row satisfying a predicate, with none before it; none exactly when no row satisfies it |
| OfferStore.Filter | src/test/dexdb_tests.cpp:364-373 | keeps exactly the rows satisfying the predicate, and its length is their count |
| OfferStore.Get | src/test/dexdb_tests.cpp:232-256 | a fetched row is in the table with the asked id; nothing is fetched exactly when no row has the id |
| OfferStore.GetByHash | src/test/dexdb_tests.cpp:232-256 | a fetched row is in the table with the asked hash; nothing is fetched exactly when no row has the hash |
| OfferStore.Exists | src/test/dexdb_tests.cpp:141-190 | existence by id holds exactly when some row has that id |
| OfferStore.ExistsByHash | src/test/dexdb_tests.cpp:141-190 | existence by hash holds exactly when some row has that hash |
| OfferStore.Insert | src/test/dexdb_tests.cpp:141-198 | adding succeeds exactly when no row has the new row's key (transaction id in the side tables, hash among own offers) and then appends it; a duplicate key fails and leaves the table unchanged |
| OfferStore.Update | src/test/dexdb_tests.cpp:232-256 | editing replaces the rows with the edited key and keeps every other row |
| OfferStore.Remove | src/test/dexdb_tests.cpp:226-230 | deleting by id leaves no row with that id and keeps exactly the others |
| OfferStore.RemoveByHash | src/test/dexdb_tests.cpp:226-230 | deleting by hash leaves no row with that hash and keeps exactly the others |
| OfferStore.LastModification | src/test/dexdb_tests.cpp:200-201 | the last modification time bounds every row's and is attained by one row of a non-empty table |
| OfferStore.HashesAndVersions | src/test/dexdb_tests.cpp:203-204 | one (hash, editing version) pair per row, in table order |
| OfferStore.HashesAndVersionsIn | src/test/dexdb_tests.cpp:206-214 | the pairs of a period are as many as the period count, and a pair is listed exactly when some row modified in the period has that hash and editing version |
| OfferStore.RemoveExpired | src/test/dexdb_tests.cpp:364-373 | the expiry purge keeps exactly the rows not yet expired |
| OfferStore.CountWhereAppend | src/test/dexdb_tests.cpp:192-198 | appending a row raises a count by one exactly when the row matches |
| OfferStore.CountWhereComplement | src/test/dexdb_tests.cpp:203-224 | counts of a predicate and its complement add up to the table size |
| OfferStore.FilterKeepsUniqueKeys | src/test/dexdb_tests.cpp:364-373 | filtering keeps a table's keys unique |
| OfferStore.AddThenExists | src/test/dexdb_tests.cpp:141-190 | after adding a row with a fresh key it exists by id and by hash, and other absent ids stay absent |
| OfferStore.InsertAllCount | src/test/dexdb_tests.cpp:192-198 | adding n offers with distinct fresh keys grows the table by n |
| OfferStore.CountFilteredAdd | src/test/dexdb_tests.cpp:192-198 | the filtered count rises by one exactly when the new row matches country, currency and payment method |
| OfferStore.CountFilteredAll | src/test/dexdb_tests.cpp:192-198 | the filtered count never exceeds the table, equals its size exactly when every row matches country, currency and payment method, and is 0 when no row has the country |
| OfferStore.CountWhereFull | src/test/dexdb_tests.cpp:192-198 | a count reaches the table size exactly when every row satisfies the predicate |
| OfferStore.PeriodSplit | src/test/dexdb_tests.cpp:206-224 | Before t and After t partition the table for every t |
| OfferStore.PeriodAtLastModification | src/test/dexdb_tests.cpp:211-224 | nothing lies after the last modification time, and at it After counts at least one row and Before fewer than all |
| OfferStore.DeleteRemovesOnlyThatId | src/test/dexdb_tests.cpp:226-230 | a deleted id is gone, every row with another id stays, and the table's keys stay unique |
| OfferStore.ListedRowsAreFetched | src/test/dexdb_tests.cpp:322-362 | in a table keyed by transaction id, every listed row is the row fetched by its id |
| OfferStore.EditThenGet | src/test/dexdb_tests.cpp:232-362 | after an edit of a stored key, fetching by id and by hash both return the edited row, and keys stay unique |
| OfferStore.DeleteOldAllExpired | src/test/dexdb_tests.cpp:364-373 | when every offer has expired the purge empties the table |
| OfferStore.AddOffer | src/test/dexdb_tests.cpp:537-546 | adding to a side table reports (that table, Add) and succeeds exactly for a fresh id, appending the offer; a failure changes nothing; the other tables are unchanged |
| OfferStore.EditOffer | src/test/dexdb_tests.cpp:547-553 | editing reports (that table, Edit, Ok), replaces the row with the offer's id, and leaves the other side table and the own offers unchanged |
| OfferStore.DeleteOffer | src/test/dexdb_tests.cpp:226-230 | deleting by id reports success; afterwards the table holds exactly its former offers with another id, and the other tables are unchanged |
| OfferStore.DeleteOfferByHash | src/dex/rpc.cpp:474-475 | deleting by hash reports success; afterwards the table holds exactly its former offers with another hash, and the other tables are unchanged |
| OfferStore.AddMyOffer | src/test/dexdb_tests.cpp:376-452 | adding an own offer succeeds exactly when no own offer has its hash, appends it, changes nothing on failure, and leaves the side tables alone |
| OfferStore.EditMyOffer | src/test/dexdb_tests.cpp:458-508 | editing an own offer reports success, replaces the own offer with the same hash, and leaves the side tables alone |
| OfferStore.DeleteMyOffer | src/test/dexdb_tests.cpp:454-456 | deleting an own offer by id keeps exactly the own offers with another id and leaves the side tables alone |
| OfferStore.DeleteMyOfferByHash | src/dex/rpc.cpp:476 | deleting an own offer by hash keeps exactly the own offers with another hash and leaves the side tables alone |
| OfferStore.CountMyFiltered | src/test/dexdb_tests.cpp:450-452 | the filtered own-offer count never exceeds the number of own offers |
| OfferStore.CountMyFilteredAdd | src/test/dexdb_tests.cpp:376-452 | adding an own offer raises the filtered count by one exactly when it is stored and matches country, currency, payment method, side and status |
| OfferStore.CountMyOffersFixture | src/test/dexdb_tests.cpp:376-452 | the three own offers of the test fixture, with distinct hashes, count three in all, one for (RU, RUB, 1, Buy, Active) and none for (RU, RUB, 1, Buy, Draft) |
| OfferStore.DeleteOldOffers | src/test/dexdb_tests.cpp:364-373 | the purge keeps exactly the unexpired offers of that side and leaves own offers alone |
| OfferStore.DeleteOldMyOffers | src/test/dexdb_tests.cpp:530-534 | the purge keeps exactly the unexpired own offers and leaves the side tables alone |
| OfferStore.DeleteSellKeepsBuy | src/test/dexdb_tests.cpp:226-230 | deleting an id from the sell table leaves the buy table, and its copy of the id, intact |
| OfferStore.InsertKeepsUniqueKeys | src/test/dexdb_tests.cpp:141-198 | adding never creates a duplicate key |
| OfferStore.AddEditKeepValid | src/test/dexdb_tests.cpp:141-256 | add and edit on every table keep its key unique |
| OfferStore.DeleteKeepValid | src/test/dexdb_tests.cpp:226-230 | every kind of delete and purge keeps the keys unique |
| OfferStore.CallbackReports | src/test/dexdb_tests.cpp:537-553 | the callback sees (OffersSell, Add, Ok) after adding a fresh sell offer and (OffersBuy, Edit, Ok) after editing a buy offer |
| DexSync.CountDexNodes | src/dex/dexsync.cpp:458-477 | the loop counts exactly the outbound, non-masternode, recent-enough, listed peers, and the count reaches the minimum exactly when the synchroniser may start |
| DexSync.Requests | src/dex/dexsync.cpp:56-110 | every eligible peer, and only such peers, is asked for its hash list with this node's sync info |
| DexSync.StartTimer | src/dex/dexsync.cpp:207-213 | the timer runs afterwards and is armed only if it was not running; nothing else changes |
| DexSync.StartSyncDex | src/dex/dexsync.cpp:56-110 | only a not-started synchroniser with enough peers starts: it clears the peer map, waits on every connected peer, asks every eligible one, arms both timers and ends in Initial |
| DexSync.Reset | src/dex/dexsync.cpp:179-190 | reset is refused, changing nothing, exactly in the two collecting states; otherwise it restarts from NoStarted |
| DexSync.CountActual | src/dex/dexsync.cpp:520-542 | the counting loop answers exactly when some peer is Actual and none is Good or Process |
| DexSync.AddAddrToStatusNode | src/dex/dexsync.cpp:488-501 | the peer gets the status and stops being awaited; every other entry and field is unchanged |
| DexSync.NoOffersList | src/dex/dexsync.cpp:420-431 | an "actual" reply marks the peer Actual and any other reply Bad |
| DexSync.FinishSyncDex | src/dex/dexsync.cpp:112-130 | with an actual network the state becomes Finished with peer bookkeeping cleared; otherwise the synchroniser resets |
| DexSync.FinishSyncDexSynced | src/dex/dexsync.cpp:112-135 | finishing leaves the node synced exactly when the network is actual |
| DexSync.CheckNodes | src/dex/dexsync.cpp:603-619 | afterwards no peer is awaited; unless the network is actual, every awaited peer becomes Bad and the rest keep their status |
| DexSync.CheckNodesNeverSynchronises | src/dex/dexsync.cpp:603-619 | marking silent peers Bad never makes a non-actual network actual |
| DexSync.NeedsDownload | src/dex/dexsync.cpp:311-326 | a received pair is wanted exactly when no local pair has its hash or the first one has an older editing version |
| DexSync.Wanted | src/dex/dexsync.cpp:311-330 | the wanted hashes of a part are exactly those offered in a wanted version |
| DexSync.GetHashs | src/dex/dexsync.cpp:294-342 | the download set grows by exactly the wanted hashes; the sender is Process if it offered any, else Good; Initial becomes SyncStepOne; the last part starts the download in SyncStepSecond with the maximum set to the set size |
| DexSync.EraseItem | src/dex/dexsync.cpp:438-456 | the hash leaves the download set, and emptying the set finishes the synchronisation |
| DexSync.LastOfferSynchronises | src/dex/dexsync.cpp:438-456 | downloading the last wanted offer from an actual network leaves the node synced |
| DexSync.SaveOffer | src/dex/dexsync.cpp:375-393 | an unknown offer is added, a known one replaced only by a strictly newer editing version |
| DexSync.GetOfferAndSaveInDb | src/dex/dexsync.cpp:362-418 | a failing offer check punishes the sender and stores nothing; an unconfirmed payment keeps the offer aside; a valid one is saved, also as own offer when the wallet holds its key during a rescan; the hash always leaves the download set |
| DexSync.SyncInfoOf | src/dex/dexsync.cpp:503-518 | the sync info counts both side tables and carries their latest modification time |
| DexSync.CeilDiv | src/dex/dexsync.cpp:264 | the part count is the least q with q * 100 covering the list |
| DexSync.Parts | src/dex/dexsync.cpp:264-291 | the list is cut into CeilDiv(n, 100) numbered parts of 1 to 100 pairs |
| DexSync.PartsJoin | src/dex/dexsync.cpp:272-291 | the parts concatenate back to the list sent |
| DexSync.SendHashOffersReplies | src/dex/dexsync.cpp:237-292 | equal, non-null sync info gets the "actual" reply alone; otherwise the chosen list goes out as parts 1..maxPart that join back to it, or as "empty" when there is nothing |
| DexSync.UpdatePrevData | src/dex/dexsync.cpp:192-205 | after recording progress, the progress check reports no change; nothing else changes |
| DexSync.FinishSyncDexTimer | src/dex/dexsync.cpp:628-651 | the timer decision keeps the peer bookkeeping invariant |
| DexSync.TimerDecisions | src/dex/dexsync.cpp:628-651 | an idle Initial state resets; an actual network finishes; SyncStepOne re-arms the timer; otherwise offers are requested again unless progress was seen |
| DexTx.Fail | src/dex/dex.cpp:19 | a failing CHECK appends a non-empty message to the error text and reports failure |
| DexTx.CoefMonotone | src/dex/dex.cpp:136-138 | the fee coefficient never falls as the offer lives longer |
| DexTx.CoefByDuration | src/dex/dex.cpp:136-138 | 1 to 10 days cost coefficient 1 and 11 to 20 days coefficient 2; days round the lifetime up |
| DexTx.Scan | src/dex/dex.cpp:114-118 | the script loop stops early exactly when a malformed operation occurs |
| DexTx.ScanReadsLastPush | src/dex/dex.cpp:114-119 | on a well-formed script the hash read is the last pushed datum |
| DexTx.ScanReadsPrefix | src/dex/dex.cpp:113-119 | whatever the script, the loop reads the last push before the first operation `GetOp` cannot decode |
| DexTx.DebitScan | src/dex/dex.cpp:127-134 | the input loop stops with a message exactly when some input does not resolve; otherwise it sums every input |
| DexTx.DebitScanSumsPrefix | src/dex/dex.cpp:127-134 | whatever the inputs, the loop sums the values of the inputs before the first one that does not resolve |
| DexTx.CheckTxAsWritten | src/dex/dex.cpp:102-143 | the code as written only ever appends to the error text, a failure appends a message, and it accepts exactly a transaction with inputs and outputs, the return fee and OP_RETURN in output 0, the offer hash as the last push before the first unreadable operation, and the fee paid by the inputs before the first one that does not resolve |
| DexTx.AcceptedWithMessages | src/dex/dex.cpp:113-143 | a transaction accepted as written comes back with its error text unchanged exactly when neither loop stopped early |
| DexTx.CheckTx | src/dex/dex.cpp:102-143 | the corrected check reports: success leaves the error text alone, failure appends a message |
| DexTx.CheckTxAcceptsAcceptable | src/dex/dex.cpp:102-143 | the corrected check accepts exactly a transaction with inputs and outputs, the return fee and OP_RETURN in output 0, the offer hash as last push, all inputs resolving and the scaled fee paid |
| DexTx.AsWrittenAgreesWhenWellFormed | src/dex/dex.cpp:110-134 | with a well-formed script and resolvable inputs the code as written and the corrected check agree |
| DexTx.Confirmations | src/dex/dex.cpp:83-90 | confirmations are tip height minus block height plus one, or -1 off the active chain |
| DexTx.CheckOfferTx | src/dex/dex.cpp:71-100 | with `CheckTx` as written, the offer transaction is accepted exactly when the offer is not null, checks out, is found, is acceptable as written, is mined and has enough confirmations; an accepted one keeps the messages `CheckTx` appended |
| DexTx.CheckOfferTxIntended | src/dex/dex.cpp:71-100 | with the corrected `CheckTx`, the offer transaction is accepted exactly when the offer is not null, checks out, is found, acceptable, mined and confirmed enough; success leaves the error text alone |
| DexTx.ConfirmationThreshold | src/dex/dex.cpp:83-94 | an accepted offer transaction is in a block and meets the confirmation minimum |
| DexTx.CheckBRCSTOfferTx | src/dex/dex.cpp:147-162 | with `CheckTx` as written, a broadcast transaction is accepted exactly when it is the offer's own, not too large, and acceptable as written; an oversized one gets the "transaction too large" message |
| DexTx.CheckBRCSTOfferTxIntended | src/dex/dex.cpp:147-162 | with the corrected `CheckTx`, a broadcast transaction is accepted exactly when it is the offer's own, not too large, and acceptable |
| DexTx.IntendedAcceptedAsWritten | src/dex/dex.cpp:71-143 | whatever the corrected offer check accepts, the check as written accepts with the same error text |
| DexTx.PayForOffer | src/dex/dex.cpp:56-68 | paying succeeds exactly for a non-null, unpaid offer when the wallet creates the transaction; then the offer's id, the txid and the transaction hash agree |
| DexTx.SignOffer | src/dex/dex.cpp:200-214 | signing succeeds exactly with a wallet, a non-null offer and a signature; a failure leaves an empty signature |
| DexTx.CheckOfferSign | src/dex/dex.cpp:166-177 | a signature is accepted exactly for a non-null offer, a non-empty signature, a valid key and a verifying signature |
| DexRpc.StoiInt | src/dex/rpc.cpp:116-117 | a limit or offset is read by `std::stoi` and must fit 32 bits |
| DexRpc.LastMatch | src/dex/rpc.cpp:156-165 | the payment method found matches the word ignoring case and no later method does, so the last match wins; none is found exactly when no name matches |
| DexRpc.ClassifyOffersWord | src/dex/rpc.cpp:143-169 | a word sets the country only among the first two words and the currency only among the first three, leaving the other fields; otherwise the last method matching it ignoring case sets the payment name and type; it fails with the wrong-parameter message exactly when none applies |
| DexRpc.ParseDexOffers | src/dex/rpc.cpp:58-189 | a parsed query comes from 1 to 8 words and names only enabled countries and currencies |
| DexRpc.DexOffersParsing | src/dex/rpc.cpp:110-174 | the type is the first word if it is buy, sell or all and "all" otherwise, so "wrong parameters" never happens; `limit` first fails; an offset needs a positive limit; codes come only from the allowed positions |
| DexRpc.WrongParameterDiffers | src/dex/rpc.cpp:168-174 | the unknown-word message is never the missing-type message |
| DexRpc.TakeUpTo | src/dex/rpc.cpp:196-210 | the buy rows shown are a prefix, cut at a positive limit |
| DexRpc.MergeOffers | src/dex/rpc.cpp:191-220 | limit 0 becomes maxOutput; buy rows up to the limit come first; sell is queried for the rest of the limit exactly when the type allows it and buy did not fill the limit |
| DexRpc.MergeWithinLimit | src/dex/rpc.cpp:191-220 | with a database that honours the limit, never more offers than the limit are shown |
| DexRpc.TypeCode | src/dex/rpc.cpp:288-291 | buy, sell and all map to 0, 1 and -1 |
| DexRpc.ClassifyMyWord | src/dex/rpc.cpp:321-358 | a word that lower-cases to buy, sell or all becomes the type while none is set; otherwise it sets the country, else the currency, when that is unset and the word is listed; otherwise it sets the payment method (when unset and some method matches) and the status (when unset and the word names one); every other field is unchanged and no word is refused |
| DexRpc.ParseDexMyOffers | src/dex/rpc.cpp:238-384 | a parsed query has a type keyword with its code, a non-zero limit unless maxOutput is 0, and only enabled codes |
| DexRpc.DexMyOffersParsing | src/dex/rpc.cpp:298-384 | without limit or offset and with enabled codes every call parses; a first word naming a type in any case decides the code |
| DexRpc.HashArg | src/dex/rpc.cpp:424-432 | a hash argument is accepted exactly when it is not empty and does not read as the null hash, with one error for each case |
| DexRpc.HashArgRoundTrip | src/dex/rpc.cpp:429-432 | the 64-digit spelling of any non-null hash is accepted as that hash |
| DexRpc.LookupForDelete | src/dex/rpc.cpp:436-446 | own offers are searched first, then buy, then sell; not found exactly when no table has the hash |
| DexRpc.DelDexOfferRules | src/dex/rpc.cpp:448-479 | a found, signed offer ends in "success"; it is broadcast exactly when not a draft; a draft is removed from the own table and leaves the buy and sell tables alone; a buy or sell row that is not an own offer is always deleted locally; a non-draft own offer is deleted from its side table and the own table when more than one peer took the broadcast; a non-draft offer with a known status changes nothing when at most one did |
| DexRpc.GetDexOffer | src/dex/rpc.cpp:964-991 | sell is searched first, then buy, then the unconfirmed offers; the empty answer comes exactly when none holds the hash |
| DexRpc.AddDexOffer | src/dex/rpc.cpp:531-567 | a parse error is reported unchanged; success needs the key and the created hash, appends a draft at editing version 0 with the new key and hash, and happens exactly when no own offer already has that hash; a failure leaves the database unchanged |
| DexRpc.AddThenFound | src/dex/rpc.cpp:436-567 | after `adddexoffer` answers a hash, the own-offer lookup returns the stored draft and `deldexoffer` finds it as an own draft |
| DexRpc.EditDexOfferRules | src/dex/rpc.cpp:632-707 | a draft is saved again as the new data at version 0; an Active edit goes ahead exactly when side, country, currency, method, minimum and shelf life are unchanged, and takes only price, short info and details; other statuses do nothing |
| DexRpc.SendDexOffer | src/dex/rpc.cpp:736-762 | sending needs a stored own offer and an error-free preparation, and answers the prepared offer's hash; an unknown hash answers "not found" and a preparation error is reported |
| DexRpc.AddThenSend | src/dex/rpc.cpp:531-762 | `senddexoffer` with the 64-digit spelling of the hash `adddexoffer` answered hands exactly the stored draft to the preparation, and answers its hash or its error |
| DexRpc.DexSyncCommand | src/dex/rpc.cpp:779-807 | exactly status, reset and force-synced are answered; status changes nothing; reset answers "reset sunc" exactly when the synchroniser may reset |
| DexRpc.DexSettings | src/dex/rpc.cpp:824-855 | exactly `maxoutput` with no number or a 32-bit number is accepted; a given number becomes the new limit, otherwise the limit stays; the answer is "all" exactly when the limit is 0 |
| DexRpc.SettingsSetThenShow | src/dex/rpc.cpp:837-851 | setting a 32-bit limit and then asking for it shows the limit just set, as "all" exactly when it is 0 |
| BudgetRpc.CommandWord | src/rpcmasternode-budget.cpp:22-24 | the command is the first parameter, or empty without one |
| BudgetRpc.BudgetCommand | src/rpcmasternode-budget.cpp:26-42 | a command runs exactly when it is one of the nine listed words, so "vote-alias" is refused |
| BudgetRpc.FinalBudgetCommand | src/rpcmasternode-budget.cpp:479-492 | a final-budget command runs exactly when it is suggest, vote-many, vote or show |
| BudgetRpc.NextCycleBlock | src/rpcmasternode-budget.cpp:71-74 | the suggested block is a cycle block above the tip, at most one cycle away |
| BudgetRpc.NextCycleBlockLeast | src/rpcmasternode-budget.cpp:71-74 | no cycle block above the tip comes before the suggested one |
| BudgetRpc.CheckProposalAccepts | src/rpcmasternode-budget.cpp:52-82 | a proposal passes exactly with a name of at most 20 bytes and a URL of at most 64 bytes in UTF-8, at least one payment, a cycle-aligned start no earlier than count+1 cycles before the tip, and an end not below the tip |
| BudgetRpc.ElevenCyrillicLettersTooLong | src/rpcmasternode-budget.cpp:55-57 | a name of eleven Cyrillic letters is refused as too long, since it takes 22 bytes |
| BudgetRpc.AcceptedWindow | src/rpcmasternode-budget.cpp:68-82 | an accepted window starts and ends on cycle blocks, is not empty, and reaches the tip |
| BudgetRpc.PrepareSubmitAgree | src/rpcmasternode-budget.cpp:127-160 | prepare and submit accept the same eight parameters and differ only in the too-low-start wording |
| BudgetRpc.UseIx | src/rpcmasternode-budget.cpp:100-104 | use_ix defaults to true and otherwise must be literally true or false |
| BudgetRpc.Prepare | src/rpcmasternode-budget.cpp:44-117 | prepare proceeds exactly when the parameter checks pass, the address, amount and proposal are valid and use_ix reads; each earlier failure is reported as the first failing check gives it |
| BudgetRpc.ParseHashV | src/rpcmasternode-budget.cpp:168 | a hash parameter is accepted exactly when it is an even-length hexadecimal string |
| BudgetRpc.Submit | src/rpcmasternode-budget.cpp:119-188 | submit proceeds exactly when the parameter checks pass, the address and amount are valid, the fee hash is hexadecimal and the collateral and proposal are valid; each earlier failure is reported as the first failing check gives it |
| BudgetRpc.ParseVote | src/rpcmasternode-budget.cpp:200-205 | only "yes" and "no" are votes |
| BudgetRpc.DetailOf | src/rpcmasternode-budget.cpp:212-261 | each masternode's detail line carries its alias and says success when its vote was taken |
| BudgetRpc.VoteMany | src/rpcmasternode-budget.cpp:207-267 | every configured masternode is counted once, as success exactly when its vote was taken, so success plus failed is the number of entries |
| BudgetRpc.TallySplits | src/rpcmasternode-budget.cpp:207-267 | successes and failures partition the entries; all succeed exactly when every vote was taken |
| BudgetRpc.BudgetVoteMany | src/rpcmasternode-budget.cpp:191-271 | vote-many needs three parameters, a hexadecimal hash and a yes/no vote, then tallies every entry |
| BudgetRpc.FinalBudgetVoteMany | src/rpcmasternode-budget.cpp:494-569 | final-budget vote-many needs two parameters, reads any text as the hash, and tallies every entry |
| BudgetRpc.SingleVote | src/rpcmasternode-budget.cpp:292-308 | a single vote answers the success text exactly when key, signature and budget update all succeed |
| BudgetRpc.BudgetVote | src/rpcmasternode-budget.cpp:273-309 | a single budget vote needs three parameters, a hexadecimal hash and a yes/no vote |
| BudgetRpc.FinalBudgetVote | src/rpcmasternode-budget.cpp:571-603 | a single final-budget vote needs two parameters |
| BudgetRpc.ValidOnly | src/rpcmasternode-budget.cpp:364 | keeps exactly the valid proposals |
| BudgetRpc.ShowAsWritten | src/rpcmasternode-budget.cpp:352-396 | as written, show lists only valid proposals whatever the argument |
| BudgetRpc.ShowIntended | src/rpcmasternode-budget.cpp:352-396 | as intended, show lists valid proposals by default or with "valid", and every proposal for any other word |
| BudgetRpc.ShowAllHidesInvalid | src/rpcmasternode-budget.cpp:354-364 | asking for every proposal still hides an invalid one as written |
| BudgetRpc.ShowAgreesWithoutArgument | src/rpcmasternode-budget.cpp:354-364 | without a filter word both readings agree |
| BudgetRpc.Projection | src/rpcmasternode-budget.cpp:311-350 | each winning proposal is listed with the running total of allotments up to and including it |
| BudgetRpc.ProjectionTotals | src/rpcmasternode-budget.cpp:311-350 | with non-negative allotments the running total never falls |
| BudgetRpc.ByName | src/rpcmasternode-budget.cpp:398-448 | getinfo and getvotes need exactly one name and answer "Unknown proposal name" when it is not found |

## Left out

- Networking, locks, timers and UI progress: messages received are inputs, and messages sent and timers armed are an output log. The float progress percentage is not modelled.
- `sendRequestForGetOffers` is not modelled: its peer loop does not advance when a peer is skipped and indexes an empty peer vector, so termination cannot be argued. It appears only as a `RequestOffers` entry in the output log.
- The `Started` status is set by `startSyncDex` (src/dex/dexsync.cpp:66) only for the stretch before it takes its lock and moves on to `Initial`. With locks abstracted, a handler runs as one step, so the model never observes `Started`: it is kept in the status type, and no transition ends in it.
- Cryptography (`Sign`, `Verify`, `IsFullyValid`), key generation and wallet lookups are boolean or optional inputs.
- Chain lookups (`GetTransaction`, the block index, the active chain) are inputs: the found transaction, its block and the tip height.
- `hash.SetHex(HexStr(vch))` byte-order handling: a pushed datum is modelled directly as the hash it denotes.
- The SQLite internals of the offer database are not modelled; `dexdb.cpp` is not part of this model. The tables are sequences. The buy and sell tables are keyed by transaction id. The own-offer table is keyed by offer hash, because a draft has no paying transaction yet (every draft carries the null id) and the RPC commands find own offers by hash. A row's side and status are the only fields of own offers beyond the offer record.
- `CDexOffer::IsNull` is taken as "the offer hash is the null hash"; `dexoffer.cpp` is not part of this model.
- OfferStore.RemoveExpired: the purge keeps a row whose `timeToExpiration` is at least the current time and removes the rest; the exact comparison in `dexdb.cpp` is not part of this model.
- Country, currency and payment-method reference data is a catalogue parameter; the default data sets are not modelled.
- JSON parsing of offers (`jsonToMyOfferInfo`) and result formatting are not modelled. The parsed offer and error text are inputs.
- `dexmanager.cpp` is not part of this model. `addOrEditDraftMyOffer`, `prepareAndSendMyOffer` and `forceSynced` are requests in the result, or inputs.
- DexRpc.AddDexOffer: `CDexOffer::Create` may change fields other than the hash; the model takes only the created hash from it.
- The `-txindex` and "DexDB is not initialized" guards of every DEX command are environment checks and are not modelled.
- Budget side effects (`CommitTransaction`, `Relay`, `AddProposal`, `UpdateProposal`, `CheckAndRemove`) and JSON-object formatting of budgets are not modelled. `mnfinalbudget suggest` passes the whitelist and falls through to a null answer, and `mnbudget check` answers "Success"; neither has more to model.
- BudgetRpc.CheckProposalAccepts: block heights are unbounded integers, so the 32-bit overflow of `cycle * (count + 1)` and of the end block for huge payment counts is not modelled; in C++ it is undefined behaviour.
- BudgetRpc.CheckProposalAccepts: the chain tip is assumed present; the C++ code dereferences it unconditionally for the cycle message and the end-block check.
- DexSync.CeilDiv: the part count is computed in `float` in C++; the model uses exact integer ceiling division, which agrees for lists below 2^24 pairs.
- BudgetRpc.Projection: `CAmount` and `int64_t` overflow of the running total is not modelled.
- `CDex::FindKey` is an input: `deldexoffer` receives its failure message, if any.
- Address parsing (`CBitcoinAddress`) and `AmountFromValue` are boolean inputs; `IsValid` and `IsBudgetCollateralValid` are optional error texts.
- DexTx.CheckTx: `days` and `coef` are 32-bit `int` in C++, narrowed from a 64-bit time difference, and `debit`, `credit` and `PAYOFFER_TX_FEE * coef` are 64-bit `CAmount`; the model computes all of them as unbounded integers, so narrowing and overflow for absurd lifetimes or amounts are not modelled.
- DexTx.CheckTxAsWritten: the same unbounded arithmetic as `DexTx.CheckTx`, for `days`, `coef` and the `CAmount` sums.
- DexTx.Coef: computed on unbounded integers; the 32-bit narrowing of `days` and `coef` is not modelled.
- BudgetRpc.Prepare: a parameter of the wrong JSON type throws `TypeMismatch`, a stand-in whose wording is not claimed; json_spirit's own message is not modelled. Numbers are taken as given, so `get_int` narrowing to 32 bits is not modelled either.
- BudgetRpc.Submit: the same `TypeMismatch` stand-in and unbounded numbers as `BudgetRpc.Prepare`.
- BudgetRpc.BudgetCommand: an unknown command throws `BudgetHelp` (and `mnfinalbudget` throws `FinalBudgetHelp`), short stand-ins for the multi-line help texts, whose wording is not claimed.
- DexRpc.Usage: the help text thrown on a wrong parameter count is a stand-in naming the command; the multi-line help texts are not modelled.

## Findings

| source | as written | input that shows it | evidently intended | confidence | as-written member | corrected member |
|---|---|---|---|---|---|---|
| src/dex/dex.cpp:115-119 | a script that `GetOp` cannot read makes `CHECK` break out of the inner `while` only; the message goes into `sError`, the hash read so far is compared, and `CheckTx` can return true | output 0 = OP_RETURN, push of the offer hash, then an unreadable operation, with correct fees | a script that cannot be read rejects the transaction | not executed; high | DexTx.MalformedScriptAcceptedAsWritten | DexTx.CheckTxAcceptsAcceptable, DexTx.CheckOfferTxIntended |
| src/dex/dex.cpp:128-138 | an input whose previous transaction is missing makes `CHECK` break out of the `for` over inputs only; the partial debit goes to the fee check, and `CheckTx` can return true | two inputs, the second not found, the first alone paying enough fee | an unresolvable input rejects the transaction | not executed; high | DexTx.MissingInputAcceptedAsWritten | DexTx.CheckTxAcceptsAcceptable, DexTx.CheckOfferTxIntended |
| src/rpcmasternode-budget.cpp:354-356 | `mnbudget show <word>` stores the word in a new, unused local, so the filter stays "valid" | `mnbudget show all` with one invalid proposal lists nothing | the word replaces the filter, and any word other than "valid" lists every proposal | not executed; medium | BudgetRpc.ShowAllHidesInvalid | BudgetRpc.ShowIntended |
