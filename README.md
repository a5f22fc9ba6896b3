# A verified model of the wirechain ledger modules

This project is a Dafny model of the four message-handling modules of the
wirechain application chain. It covers:

- **utxo**: an unspent-transaction-output ledger fed from account balances.
  It has account births, single-input spends, the outpoint store, wallet
  balances and queries.
- **htlc**: hashed-timelock contracts. A contract is added, then either
  redeemed with a preimage before a block height or failed back afterwards.
- **multisig**: a two-party escrow. It is initialised and joined; abort and
  spend are stubs.
- **registry**: a record store. Only the record's owner may overwrite it,
  and records can be listed by namespace.

Each module has three layers.

- **Messages, as values.** A message is a `datatype`. Its `ValidateBasic` is
  a function whose contract states exactly when it accepts and which error
  each rejection returns.
- **The keeper, as a class.** Its store fields are `map`s, and its methods
  carry `modifies` clauses. Iteration visits keys in byte order (`KeyOrder`),
  and the listing and clearing loops are proved against that order.
- **The handlers, as methods on the keeper.** Each is proved equal to a pure
  step function (`ensures Transition(res, k.State()) == XStep(old(k.State()), msg)`).
  The ledger's properties are lemmas about those step functions and about
  runs of them (`Run`): conservation, no double spend, resolvability of live
  outpoints, single payout, complementary time windows, owner-only overwrite,
  and that nothing else changes.

A rejected message leaves the state as it was, because the SDK discards the
writes of a failed message. A Go panic is modelled as a rejection with code
`Panic`.

SHA-256, Amino encoding, Bech32 and base64 are uninterpreted functions:
fields of `UtxoCodec.Env`, the `sha256` field of the HTLC keeper, or the
`addressText` parameter of the registry handler. `UtxoCodec.CodecSound`
assumes only that a pay-to-address script decodes back to its address.

Context values are parameters (`Sdk.Context`): the chain ID, the block
height and the account sequence numbers.

Where the specification and the code disagree, the model follows the code, except for the two wrapping sums and the repeated account birth listed under "## Left out" (the UTXO output total, the HTLC unlock height, and a birth whose record ID is already stored). There it uses the corrected behaviour and logs the code as written under "## Findings".

- The specification describes escrow abort and spend transitions. The code
  stubs both handlers to accept and change nothing (x/multisig/handlers/abort.go:14-16,
  x/multisig/handlers/spend.go:14-16).
- The registry declares delete and clear messages, but its handler routes only
  the write (x/registry/handler.go:17-23).
- The specification names its own error kinds. The model uses the codes and
  message texts that the code returns.

The registry's files disagree on the shape of a record.

- x/registry/msgs.go checks `Payload.Record.Owner` as a string.
- x/registry/handler.go takes a `MsgSetResource` and compares the signer's
  address text with `Owner.Address`.
- x/registry/keeper.go stores a `Record`.

The model has one `Record`, whose `owner` is the owner's address text, and
one write message, `MsgSetRecord`.

The UTXO handler also calls keeper operations that x/utxo/keeper.go does
not define: `HasOutPoint`, `GetTx`, `GetAccOutput`, `PutTx` and
`DeleteOutPoint`. The model gives them their map meaning, keyed the way
`PutOutPoint` keys outpoints. In the same way, the multisig join handler
calls `GetContract`, which x/multisig/handlers/keeper.go does not define
(x/multisig/handlers/join.go:18), and reads `msg.BobAmount`, a field that
x/multisig/msgs/join.go names `Amount` (x/multisig/handlers/join.go:27).
The model reads the stored contract from the map and takes the message's
`amount`.

## Model

| member | source | states |
|---|---|---|
| UtxoTypes.HashString | x/utxo/types.go:24-26 | an n-byte hash renders as 2n characters |
| UtxoTypes.HashStringAt | x/utxo/types.go:24-26 | byte i becomes characters 2i and 2i+1, high nibble first, upper case |
| UtxoTypes.HashStringAlphabet | x/utxo/types.go:24-26 | every character is one of 0-9A-F |
| UtxoTypes.HashStringInjective | x/utxo/types.go:24-26 | distinct hashes render differently |
| UtxoTypes.MarshalJSONQuoted | x/utxo/types.go:19-21 | the JSON form is the rendering between quotes, nothing escaped |
| Fmt.HexRoundTrip | x/htlc/handler.go:77 | lower-case hex of a digest decodes back to the digest, in either case |
| Fmt.FormatIntInjective | x/utxo/keeper.go:64 | `%d` renders distinct integers differently |
| Conv.UInt64ToBytes | x/utxo/utils/conv.go:10-15 | the loop writing the varint into ten zero bytes yields `UInt64Bytes(n)` |
| Conv.UInt64BytesShape | x/utxo/utils/conv.go:10-15 | the buffer is ten bytes: the LEB128 encoding, continuation bits on all groups but the last, then zeros |
| Conv.UInt64BytesRoundTrip | x/utxo/utils/conv.go:10-15 | reading the buffer back as a varint yields n |
| Conv.UInt64BytesInjective | x/utxo/utils/conv.go:10-15 | distinct inputs give distinct buffers |
| Conv.UInt64BytesZero | x/utxo/utils/conv.go:11-12 | the buffer of 0 is ten zero bytes |
| Conv.ShiftComplementIsZigZag | x/utxo/utils/conv.go:18-23 | shifting the two's-complement word left by one and complementing it for negative n gives the zig-zag value |
| Conv.Int64ToBytes | x/utxo/utils/conv.go:18-23 | the result is the unsigned buffer of the zig-zag value |
| Conv.Int64BytesRoundTrip | x/utxo/utils/conv.go:18-23 | ten bytes, reading back the zig-zag value, which un-zig-zags to n |
| Conv.Int64BytesInjective | x/utxo/utils/conv.go:18-23 | distinct inputs give distinct buffers |
| UtxoHelpers.GenAccOutput | x/utxo/helpers.go:16-37 | fails exactly when the address has no sequence; otherwise the record has the amount, the address and the height, and its ID is SHA-256 of the five-part preimage |
| UtxoHelpers.BirthPreimageSeparates | x/utxo/helpers.go:23-29 | preimages with different sequences or heights differ |
| UtxoHelpers.GenAccOutputPreimagesDiffer | x/utxo/helpers.go:23-29 | two births of one address at different sequences or heights hash different preimages |
| UtxoHelpers.GetTxOutValue | x/utxo/helpers.go:40-48 | the uint64 accumulator returns the exact output total modulo 2^64 |
| UtxoHelpers.GetTxOutValueWraps | x/utxo/helpers.go:40-48 | outputs 2^64-1 and 101 sum to 100 |
| UtxoHelpers.GetTxOutValueChecked | x/utxo/helpers.go:40-48 | reports whether the exact total fits in uint64, and then returns it |
| UtxoHelpers.InputsPreimageAppend | x/utxo/helpers.go:55-58 | inputs contribute to the hashed bytes in list order |
| UtxoHelpers.OutputsPreimageAppend | x/utxo/helpers.go:60-62 | outputs contribute to the hashed bytes in list order |
| UtxoHelpers.GenTxHashIgnoresWitness | x/utxo/helpers.go:51-71 | transactions differing only in witnesses have the same hash |
| UtxoMsgs.ValidateBirth | x/utxo/msgs.go:37-47 | accepts iff the amount is positive and the address non-empty, with the error of each case |
| UtxoMsgs.ValidateTx | x/utxo/msgs.go:76-90 | accepts iff there are inputs, outputs and a signer, with the error of each case |
| UtxoMsgs.SignersValidated | x/utxo/msgs.go:59-61 | a birth is signed by its address, a spend by its signer, and validation makes each non-empty |
| UtxoMsgs.OutputLessOrder | x/utxo/msgs.go:165-183 | the output comparator is a strict weak order |
| UtxoMsgs.SortOutputsSpec | x/utxo/msgs.go:165-183 | sorted outputs are a permutation, ordered by (value, script), ties kept in order, and sorting twice is sorting once |
| UtxoMsgs.SortTxOutputs | x/utxo/msgs.go:165-183 | the in-place sort leaves the array equal to `SortOutputs` of its old contents |
| UtxoMsgs.SortTxInputs | x/utxo/msgs.go:149-162 | the in-place sort with the comparator as written |
| UtxoMsgs.SortTxInputsAsWrittenIsIdentity | x/utxo/msgs.go:149-162 | with that comparator the inputs come back in the order given |
| UtxoMsgs.SortInputsSpec | x/utxo/msgs.go:149-162 | the intended input sort is a permutation ordered by (hash, index), stable and idempotent |
| UtxoMsgs.SortTxInputsByOutPoint | x/utxo/msgs.go:149-162 | the corrected in-place sort leaves the array equal to `SortInputs` of its old contents |
| UtxoMsgs.NewTxPayToAddressSpec | x/utxo/msgs.go:115-146 | one input spending (hash, index) with the signature; two outputs paying amount to `to` and change to `from`, whose total is amount + change |
| UtxoMsgs.NewTxPayToAddressInputOrder | x/utxo/msgs.go:142 | with a single input, the intended and the written input sort agree |
| UtxoKeeper.OutPointKeyInjective | x/utxo/keeper.go:64 | distinct outpoints get distinct "HEX:index" keys |
| UtxoKeeper.PutOutPointLive | x/utxo/keeper.go:62-65 | putting an outpoint adds exactly it to the live set; putting it twice leaves one entry |
| UtxoKeeper.DeleteOutPointLive | x/utxo/handler.go:100 | deleting an outpoint removes exactly it from the live set |
| UtxoKeeper.ListUtxoSpec | x/utxo/keeper.go:68-84 | the listing holds every live outpoint exactly once |
| UtxoKeeper.ListAccOutputSpec | x/utxo/keeper.go:43-59 | the listing holds every account output exactly once |
| UtxoKeeper.Keeper.PutAccOutput | x/utxo/keeper.go:37-40 | stores the record under its ID, overwriting; nothing else changes |
| UtxoKeeper.Keeper.ListAccOutput | x/utxo/keeper.go:43-59 | the loop returns the records in key order |
| UtxoKeeper.Keeper.PutOutPoint | x/utxo/keeper.go:62-65 | stores the outpoint under its key; nothing else changes |
| UtxoKeeper.Keeper.ListUtxo | x/utxo/keeper.go:68-84 | the loop returns the outpoints in key order |
| UtxoKeeper.Keeper.HasOutPoint | x/utxo/handler.go:62 | true iff the outpoint's key is stored |
| UtxoKeeper.Keeper.DeleteOutPoint | x/utxo/handler.go:100 | removes the outpoint's key; nothing else changes |
| UtxoKeeper.Keeper.PutTx | x/utxo/handler.go:96-97 | stores the tx under its hash; nothing else changes |
| UtxoKeeper.Keeper.GetTx | x/utxo/handler.go:72 | the stored tx, or none |
| UtxoKeeper.Keeper.GetAccOutput | x/utxo/handler.go:80 | the stored account output, or none |
| UtxoKeeper.Keeper.ListTx | x/utxo/querier.go:75-84 | the stored transactions and their hashes, in key order |
| UtxoHandler.AddOutPointsLive | x/utxo/handler.go:103-108 | the output loop adds exactly the outpoints (hash, i) for i below the output count |
| UtxoHandler.SpendTxEffect | x/utxo/handler.go:96-108 | an accepted spend removes exactly its input from the live set and adds one outpoint per output |
| UtxoHandler.RejectionChangesNothing | x/utxo/handler.go:29-111 | a rejected message leaves the state unchanged |
| UtxoHandler.OtherMessagesRefused | x/utxo/handler.go:21-23 | other messages are refused with UnknownRequest and change nothing |
| UtxoHandler.BirthStepSpec | x/utxo/handler.go:29-49 | birth succeeds iff the balance covers the amount, the record can be built and its ID is not yet stored; a short balance is refused with InsufficientCoins and a stored ID with AccOutputExists; an accepted birth debits exactly the amount and stores a fresh record of that value and its outpoint (ID, -1) |
| UtxoHandler.BirthAsWrittenWrites | x/utxo/handler.go:29-49 | as written, an accepted birth is the debit, the record written under its ID and the outpoint (ID, -1) |
| UtxoHandler.BirthTwiceAsWrittenBurns | x/utxo/handler.go:42-46 | as written, the same birth twice in one context is accepted twice: records and outpoints are as after the first, and the balance drops by twice the amount |
| UtxoHandler.BirthTwiceRefused | x/utxo/handler.go:29-49 | with the corrected birth, the same birth again in the same context is refused and changes nothing, with AccOutputExists when the balance still covers it |
| UtxoHandler.BirthPreservesValid | x/utxo/handler.go:42-46 | birth keeps every live outpoint resolvable |
| UtxoHandler.TxStepAccepts | x/utxo/handler.go:52-111 | a spend is accepted iff it has one live input that resolves, whose value equals the output total and whose owner is the signer; the accepted state is `SpendTx` |
| UtxoHandler.UnownedNeverSpent | x/utxo/handler.go:71-93 | a validated spend of an index below -1 is refused |
| UtxoHandler.NewLiveResolves | x/utxo/handler.go:96-108 | removing the input, adding the outpoints of the stored tx and storing it keeps every live outpoint resolvable |
| UtxoHandler.TxPreservesValid | x/utxo/handler.go:96-108 | a spend keeps every live outpoint resolvable |
| UtxoHandler.ResolveKinds | x/utxo/handler.go:71-84 | a non-negative index resolves iff the tx stored under the hash has that output and its script decodes, yielding that output's value and address; index -1 resolves iff an account output is stored under the hash, yielding its address and value; exactly the indices below -1 resolve to no owner |
| UtxoHandler.ResolveReadsOnlyItsRecord | x/utxo/handler.go:71-84 | resolving an outpoint reads only the record its index selects: states that agree on that tx or that account output resolve it alike |
| UtxoHandler.NoDoubleSpend | x/utxo/handler.go:62-64 | after an accepted spend with a fresh hash its input is no longer live, its key is gone from the store, and every spend of that input, by any message, is refused with "OutPoint not found" |
| UtxoHandler.BirthKeepsSpent | x/utxo/handler.go:42-46 | a birth leaves a spent outpoint spent: it mints only (ID, -1) for an ID not yet stored; it keeps every outpoint under its key and removes no record |
| UtxoHandler.TxStepWrites | x/utxo/handler.go:96-108 | an accepted spend writes exactly `SpendTx` for its single input, and a refused one leaves the state as it was |
| UtxoHandler.SpendTxKeepsSpent | x/utxo/handler.go:96-108 | the writes of a spend whose tx hash is not a spent outpoint's hash leave that outpoint spent and every outpoint under its key |
| UtxoHandler.TxKeepsSpent | x/utxo/handler.go:96-108 | a spend leaves a spent outpoint spent unless it is accepted with the outpoint's hash as its tx hash, and it leaves the account outputs unchanged |
| UtxoHandler.StepKeepsSpent | x/utxo/handler.go:14-26 | any handled message leaves a spent outpoint spent, unless it is an accepted spend with that hash as its tx hash |
| UtxoHandler.RunKeepsSpent | x/utxo/handler.go:14-26 | along any run in which no accepted spend, judged in the state the run has reached, has a spent outpoint's hash as its tx hash, the outpoint stays spent; births and refused messages, replays included, never bring it back |
| UtxoHandler.NoDoubleSpendLater | x/utxo/handler.go:62-64 | once a spend with a fresh hash is accepted, every later spend of its input is refused with "OutPoint not found", whatever run came in between, as long as no accepted spend in it has the input's hash as its tx hash |
| UtxoHandler.TxConserves | x/utxo/handler.go:86-93 | an accepted spend's outputs total exactly its input's value, and the signer owns the input |
| UtxoHandler.InflatingTxRefused | x/utxo/handler.go:67-89 | the spend that the wrapping sum would let through is refused by the model |
| UtxoHandler.HandlePreservesValid | x/utxo/handler.go:14-111 | every handled message keeps the ledger invariant |
| UtxoHandler.HandleMsgBirthAccOutput | x/utxo/handler.go:29-49 | the method's effect on the keeper is `BirthStep` |
| UtxoHandler.HandleMsgTx | x/utxo/handler.go:52-111 | the method and its output loop have the effect of `TxStep` |
| UtxoHandler.Handle | x/utxo/handler.go:14-26 | routes each message kind to its handler |
| UtxoQuerier.WalletStepHolds | x/utxo/querier.go:123-158 | one iteration that does not panic appends the outpoint's owned entry, if any, and keeps the balance equal to the entries' total modulo 2^64 |
| UtxoQuerier.ScanWalletSome | x/utxo/querier.go:123-141 | the scan does not panic iff every outpoint resolves |
| UtxoQuerier.ScanWalletContents | x/utxo/querier.go:123-158 | a scan that does not panic holds exactly the owned entries in list order and their total modulo 2^64 |
| UtxoQuerier.ScanWalletSpec | x/utxo/querier.go:123-158 | the scan succeeds iff every outpoint resolves; its entries are exactly the owned outpoints in list order, and its balance is their total modulo 2^64 |
| UtxoQuerier.OwnedEntriesMembers | x/utxo/querier.go:123-141 | an outpoint contributes an entry iff its resolved owner is the address; indexes below -1 never contribute |
| UtxoQuerier.OwnedEntriesDistinct | x/utxo/querier.go:123-141 | no outpoint contributes twice to a wallet built from a listing without repeats |
| UtxoQuerier.BalanceOfLive | x/utxo/querier.go:111-149 | on a valid ledger the balance query answers with the wallet of exactly the owned live outpoints |
| UtxoQuerier.BalancePanicsOnUnresolvable | x/utxo/querier.go:123-141 | a live outpoint that does not resolve makes every balance query fail |
| UtxoQuerier.QueryRouting | x/utxo/querier.go:29-48 | an empty path panics, and a query is refused with UnknownRequest exactly when its first segment is none of the six endpoints |
| UtxoQuerier.GetTxSpec | x/utxo/querier.go:87-108 | the query is answered iff the rest of the path decodes to the hash of a stored tx, and then with that tx; a path that does not decode is refused as undecodable, and a hash with no stored tx as not found, both with an internal error |
| UtxoQuerier.GetTxAfterSpend | x/utxo/querier.go:87-108 | after an accepted spend, the query on its hash answers with that spend's tx, and the query on any other hash answers as before |
| UtxoQuerier.ListingsExact | x/utxo/querier.go:51-84 | the three listings answer with the keeper's lists |
| UtxoQuerier.ScanWalletPrefixPanics | x/utxo/querier.go:123-141 | once one outpoint fails to resolve, the whole scan fails |
| UtxoQuerier.GetTxQuery | x/utxo/querier.go:87-108 | the method answers as `GetTxReply` |
| UtxoQuerier.GetBalanceQuery | x/utxo/querier.go:111-149 | the method and its loop answer as `GetBalanceReply` |
| UtxoQuerier.Query | x/utxo/querier.go:29-48 | the method answers as `QueryStep` |
| Bank.SubtractCoins | x/utxo/handler.go:31-34 | succeeds iff the balance covers the coin; it debits exactly that account and denomination |
| Bank.AddCoins | x/htlc/handler.go:100 | credits exactly that account and denomination |
| Bank.DebitThenCreditRestores | x/htlc/handler.go:54-57 | debiting a coin and crediting it back restores every balance |
| HtlcMsgs.ValidateAdd | x/htlc/msgs.go:40-62 | accepts iff the amount is positive, the hash non-empty, the locktime non-zero (negative allowed) and both addresses non-empty, with the error of each case |
| HtlcMsgs.ValidateRedeem | x/htlc/msgs.go:99-109 | accepts iff the preimage and the sender are non-empty |
| HtlcMsgs.ValidateFail | x/htlc/msgs.go:146-156 | accepts iff the hash and the sender are non-empty |
| HtlcMsgs.SignersValidated | x/htlc/msgs.go:74-76 | add is signed by the timeout address, redeem and fail by the sender, each non-empty once validated |
| HtlcKeeper.StatusCodeInjective | x/htlc/handler.go:14-18 | the three statuses have distinct codes 1 to 3 |
| HtlcKeeper.Keeper.HasHtlc | x/htlc/keeper.go:32-36 | true iff a record is stored under the hash |
| HtlcKeeper.Keeper.UpsertHtlc | x/htlc/keeper.go:39-42 | stores the record under its hash, overwriting; every other hash is unchanged |
| HtlcKeeper.Keeper.GetHtlc | x/htlc/keeper.go:45-53 | the stored record, or none |
| HtlcKeeper.Keeper.Clear | x/htlc/keeper.go:56-63 | the deletion loop leaves no record |
| HtlcHandler.UnlockHeightWraps | x/htlc/handler.go:92 | as written, a contract with the largest locktime is timed out at its own creation height |
| HtlcHandler.UnlockHeightAgrees | x/htlc/handler.go:92 | the written and the exact unlock height agree when the sum fits in int64 |
| HtlcHandler.AddStepSpec | x/htlc/handler.go:49-72 | add succeeds iff the hash is new and the depositor covers the amount; it debits exactly that and stores a Created record stamped with the height |
| HtlcHandler.RedeemStepSpec | x/htlc/handler.go:75-106 | redeem succeeds iff the record under the preimage's hex digest is Created, the sender is its redeem address and the height is below the unlock height; it then marks it Redeemed and credits the amount |
| HtlcHandler.FailStepSpec | x/htlc/handler.go:109-137 | fail succeeds iff the record is Created, the sender is its timeout address and the height is at least the unlock height; it then marks it Failed and credits the amount |
| HtlcHandler.ComplementaryWindows | x/htlc/handler.go:92-123 | at every height exactly one of the redeem and fail windows is open, and at the unlock height only fail is |
| HtlcHandler.StepEffect | x/htlc/handler.go:32-137 | every message keeps records under their hashes, removes none, changes nothing when refused, and never changes a resolved record |
| HtlcHandler.OtherMessagesRefused | x/htlc/handler.go:41-43 | other messages are refused with UnknownRequest and change nothing |
| HtlcHandler.RunKeeps | x/htlc/handler.go:32-137 | along any run a stored hash stays stored, and a resolved record stays as it is |
| HtlcHandler.HashNeverReusable | x/htlc/handler.go:50-52 | once a hash is stored, every later add of it is refused |
| HtlcHandler.PaysOutOnce | x/htlc/handler.go:84-117 | after a redeem or a fail, every later redeem or fail of that contract is refused |
| HtlcHandler.HandleMsgAddHtlc | x/htlc/handler.go:49-72 | the method's effect is `AddStep` |
| HtlcHandler.HandleMsgRedeemHtlc | x/htlc/handler.go:75-106 | the method's effect is `RedeemStep` |
| HtlcHandler.HandleMsgFailHtlc | x/htlc/handler.go:109-137 | the method's effect is `FailStep` |
| HtlcHandler.Handle | x/htlc/handler.go:32-46 | routes each message kind to its handler |
| MultisigMsgs.ValidateInit | x/multisig/msgs/init.go:40-62 | accepts iff the ID is non-empty and both parties have a positive amount and an address, with the error of each case |
| MultisigMsgs.ValidateInitIgnoresRelation | x/multisig/msgs/init.go:40-62 | identical parties and different denominations both pass validation |
| MultisigMsgs.ValidateJoin | x/multisig/msgs/join.go:36-50 | accepts iff the ID, a positive amount and Bob's address are given |
| MultisigMsgs.ValidateSpend | x/multisig/msgs/spend.go:40-62 | accepts iff the ID, a positive amount and the three addresses are given |
| MultisigMsgs.ValidateAbort | x/multisig/msgs/abort.go:34-44 | accepts iff the ID and Alice's address are given |
| MultisigMsgs.SignersValidated | x/multisig/msgs/init.go:74-76 | init and abort are signed by Alice, join by Bob, spend by Alice then Bob |
| MultisigKeeper.StateCode | x/multisig/handlers/keeper.go:14-21 | the states are numbered 1 to 3 |
| MultisigKeeper.StateCodeInjective | x/multisig/handlers/keeper.go:14-21 | the three states have distinct codes |
| MultisigKeeper.Keeper.HasContract | x/multisig/handlers/keeper.go:53-57 | true iff a contract is stored under the ID |
| MultisigKeeper.Keeper.UpsertContract | x/multisig/handlers/keeper.go:60-63 | stores the contract under its ID, overwriting; every other ID is unchanged |
| MultisigKeeper.Keeper.GetContract | x/multisig/handlers/join.go:14-16 | the stored contract, or none |
| MultisigHandlers.InitStepSpec | x/multisig/handlers/init.go:13-53 | init succeeds iff the ID is new, the parties differ, both amounts are positive and of one denomination and Alice covers hers; it debits exactly that and stores a Created contract holding it |
| MultisigHandlers.JoinStepSpec | x/multisig/handlers/join.go:13-42 | join succeeds iff the contract exists, the sender is its Bob (checked first), it is Created, the amount equals Bob's and Bob covers it; it debits exactly that, locks the contract and adds to its balance |
| MultisigHandlers.StubsChangeNothing | x/multisig/handlers/abort.go:14-16 | abort and spend accept every message and change neither contracts nor balances |
| MultisigHandlers.OtherMessagesRefused | x/multisig/handlers/handler.go:26-28 | other messages are refused with UnknownRequest and change nothing |
| MultisigHandlers.StepEffect | x/multisig/handlers/handler.go:15-31 | every message keeps the invariant, removes no contract, changes nothing when refused, and never changes a locked contract |
| MultisigHandlers.RunKeeps | x/multisig/handlers/handler.go:15-31 | along any run a stored contract stays stored, and a locked one stays as it is |
| MultisigHandlers.JoinOnce | x/multisig/handlers/join.go:23-25 | after a join, every later join of the contract is refused |
| MultisigHandlers.NeverAborted | x/multisig/handlers/abort.go:14-16 | no contract ever reaches the Aborted state |
| MultisigHandlers.HandleMsgInitMultiSig | x/multisig/handlers/init.go:13-53 | the method's effect is `InitStep` |
| MultisigHandlers.HandleMsgJoinMultiSig | x/multisig/handlers/join.go:13-42 | the method's effect is `JoinStep` |
| MultisigHandlers.Handle | x/multisig/handlers/handler.go:15-31 | routes each message kind to its handler |
| RegistryMsgs.ValidateSet | x/registry/msgs.go:34-46 | accepts iff the signer and the record owner are non-empty, with the error of each case |
| RegistryMsgs.ValidateDelete | x/registry/msgs.go:83-95 | accepts iff the signer and the record owner are non-empty; it agrees with the set validation |
| RegistryMsgs.ValidateClear | x/registry/msgs.go:130-137 | accepts iff the signer is non-empty |
| RegistryMsgs.SignersValidated | x/registry/msgs.go:58-60 | each message is signed by its one signer, non-empty once validated |
| RegistryMsgs.ClearIgnoresOwner | x/registry/msgs.go:130-137 | a clear passes where a set or delete with an ownerless record fails |
| RegistryKeeper.SelectSpec | x/registry/keeper.go:69-73 | the namespace filter keeps exactly the records whose "namespace" attribute is that string, and keeps everything when no namespace is given |
| RegistryKeeper.SelectDistinct | x/registry/keeper.go:69-73 | the filter keeps no record twice |
| RegistryKeeper.ListResourcesSpec | x/registry/keeper.go:56-78 | the listing holds exactly the stored records in the namespace, each once, and all of them when no namespace is given |
| RegistryKeeper.Keeper.PutResource | x/registry/keeper.go:33-36 | stores the record under its ID, overwriting; every other ID is unchanged |
| RegistryKeeper.Keeper.HasResource | x/registry/keeper.go:39-42 | true iff a record is stored under the ID |
| RegistryKeeper.Keeper.GetResource | x/registry/keeper.go:45-53 | the stored record, or none |
| RegistryKeeper.Keeper.ListResources | x/registry/keeper.go:56-78 | the loop returns the filtered records in key order |
| RegistryKeeper.Keeper.DeleteResource | x/registry/keeper.go:81-84 | removes that ID and nothing else |
| RegistryKeeper.Keeper.ClearResources | x/registry/keeper.go:88-95 | the deletion loop leaves no record |
| RegistryHandler.SetStepSpec | x/registry/handler.go:34-46 | a write succeeds iff the ID is new or the signer owns the stored record; success stores the record, failure is Unauthorized and stores nothing |
| RegistryHandler.NewIdAlwaysWritten | x/registry/handler.go:34-46 | writing a new ID always succeeds, whoever signs |
| RegistryHandler.UnauthorizedWriteChangesNothing | x/registry/handler.go:41-43 | a non-owner's write is refused and leaves the store unchanged |
| RegistryHandler.StepEffect | x/registry/handler.go:46 | a step changes at most the written ID, and only on success |
| RegistryHandler.OnlyWritesHandled | x/registry/handler.go:17-23 | delete, clear and unknown messages are refused with UnknownRequest |
| RegistryHandler.RunKeepsIds | x/registry/handler.go:46 | along any run every record stays under its own ID |
| RegistryHandler.OwnerControlsRecord | x/registry/handler.go:36-46 | a stored record stays exactly as it is through any run in which its owner signs no write of it |
| RegistryHandler.RunNeverForgets | x/registry/handler.go:15-25 | no run removes a stored ID |
| RegistryHandler.HandleMsgSetResource | x/registry/handler.go:28-52 | the method's effect is `SetStep` |
| RegistryHandler.Handle | x/registry/handler.go:15-25 | routes the write to its handler and refuses the rest |

## Left out

- Dot-graph rendering and the `getGraph` queries: they produce display text and state no ledger property.
- JSON marshalling of query results: only the value each query answers is modelled, not its bytes. `Hash.MarshalJSON` is the exception.
- The registry querier, its GraphQL server and the multisig querier: output formatting over keeper calls that are modelled.
- Client, CLI, daemon and app wiring code: argument parsing, key management and store wiring.
- Signing helpers, ante-handler fees and signature checks: the model sees only the declared signers.
- SHA-256, RIPEMD-160, Amino, Bech32 and base64 are uninterpreted. Only the decode-after-encode of a pay-to-address script is assumed (`UtxoCodec.CodecSound`).
- The registry's YAML and JSON conversion of attributes (x/registry/types.go) is not part of this model. Attributes are a map whose values are a string or something else, which is all the namespace filter asks.
- The registry record's owner ID is not modelled: the code never reads it.
- Sdk.Coin: negative coin amounts are not modelled, since the amount is a `nat`. The SDK's coin can hold one when a message is decoded (only `sdk.NewCoin` refuses it). The validators and the multisig init handler test `IsPositive` first (x/utxo/msgs.go:38, x/htlc/msgs.go:41, x/multisig/msgs/init.go:45 and 53, x/multisig/msgs/join.go:41, x/multisig/msgs/spend.go:45, x/multisig/handlers/init.go:23 and 27), and a negative amount fails that test like zero. The contracts about amounts cover only the non-negative ones.
- Console output of the handlers has no effect on state and is not modelled.
- Bank.AddCoins: the model has no error branch for a credit, because crediting a positive coin to an account never fails; the handlers ignore that error anyway.
- MultisigHandlers.JoinStep: `Coin.IsEqual` with different denominations either returns false or panics, depending on the SDK version. Both are a rejection that changes nothing, and the model returns `InvalidBobAmount`.
- The message text of HTLC's `EmptyTimeoutAddress` error prints the redeem address. The model keeps only the reason.
- UtxoHandler.TxPreservesValid: it assumes that a tx already stored under the new hash has the same outputs, and that there are at most 2^31 outputs. SHA-256 collisions and int32 index overflow are outside the model.
- UtxoHandler.NoDoubleSpendLater: it assumes that no spend accepted along the run has the spent input's hash as its tx hash. Refused messages, births and refused replays are all covered. A later accepted spend with that hash is either a hash collision or an accepted replay of the creating tx. An accepted replay spends an input that the creating spend already removed, and proving it refused would need that chain argument over collision-free hashes. The tx hash is an uninterpreted SHA-256 here, so the model does not prove it.
- UtxoHandler.RunKeepsSpent: it carries the same hypothesis as UtxoHandler.NoDoubleSpendLater, for the same reason.
- UtxoHandler.BirthStep: it refuses a birth whose record ID is already stored, with AccOutputExists. x/utxo/handler.go:29-49 overwrites that record and debits the amount again (see Findings).
- UtxoHandler.HandleMsgBirthAccOutput: it looks the ID up with `GetAccOutput` before writing, as the corrected `BirthStep` does.
- UtxoHandler.TxStep: the output total is the exact sum, not the source's wrapping `GetTxOutValue` (see Findings).
- HtlcHandler.RedeemStep and HtlcHandler.FailStep compare the height with the exact unlock height, not the source's wrapping int64 sum (see Findings).

## Findings

| source | as written | input that shows it | evidently intended | confidence | as-written member | corrected member |
|---|---|---|---|---|---|---|
| x/utxo/helpers.go:40-48 | the output total is summed in a uint64 and wraps past 2^64 | an input worth 100 spent into outputs 2^64-1 and 101: the sum is 100, so the spend passes the value check at x/utxo/handler.go:86 and mints value | the exact total, with a total past 2^64 refused | not executed | UtxoHelpers.GetTxOutValueWraps | UtxoHelpers.GetTxOutValueChecked |
| x/utxo/msgs.go:149-162 | the comparator reads `TxIn[i]` for both operands, so it never reports "less" and the sort changes nothing | inputs with hashes [0x02] then [0x01] stay in that order | inputs ordered by outpoint hash, then index | not executed | UtxoMsgs.SortTxInputsAsWrittenIsIdentity | UtxoMsgs.SortInputsSpec |
| x/utxo/handler.go:29-49 | a birth writes its record and outpoint without checking the ID, which hashes chain ID, address, amount, sequence and height | two identical `MsgBirthAccOutput` in one transaction share the sequence and the height (the sequence advances once per transaction), so the second is accepted, rewrites the same record and outpoint and debits the amount a second time | a record ID is created once: a birth whose ID is already stored is refused | not executed | UtxoHandler.BirthTwiceAsWrittenBurns | UtxoHandler.BirthTwiceRefused |
| x/htlc/handler.go:92 | the unlock height `BlockCreatedAt + Locktime` is an int64 sum and wraps, here and again at x/htlc/handler.go:123 | created at height 10 with locktime 2^63-1: the unlock height wraps to -2^63+9, so at its own creation height redeem is timed out and fail is allowed | the exact sum: a large locktime keeps the contract redeemable | not executed | HtlcHandler.UnlockHeightWraps | HtlcHandler.ComplementaryWindows |
