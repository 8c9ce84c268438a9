# Walletspace, verified

Walletspace is a wallet that signs on a user's machine for Tron, EVM and Solana
networks. Its hard part is that one approved intent becomes at most one
transaction, and exactly the approved one. This project models that part in Dafny
and proves it.

Run `dafny verify dfyconfig.toml` here to check everything.

## The system in these files

**Signing once.** `operation_store` is the durable file of idempotency keys, with the
pruning that bounds it. `sign_once` is the protocol as a state machine over all
requests at once: reserve, record the id, sign, send, classify, poll, crash, with every
write free to land, be lost, or land and be reported failed. `sign_once_keys` says how
often one key is signed for, `sign_once_record` what holds of requests and the network in
every run, `sign_once_names` which transaction a record names, `sign_once_replays` what a
repeat is told. `sign_once_spared` and `sign_once_latecomers` say when pruning is harmless
and what it allows when it is not, `sign_once_pruned` that this happens. `send_request` is
one handler as it runs, proved to take the protocol's steps. `solana_expiry` is the rule
by which a transaction no node knows may be called failed, and `solana_retry` puts requests,
records and cluster together.

**Signing exactly that.** `solana_codec` is the wire format, `solana_reader` the two
decoders with their cursors and loops, `solana_checker` and `solana_swap_checker` the two
checks made before a signature, `solana_compiler` a reference compiler in any account
order, `solana_tables` the lookup tables, and `solana_plans` the transfers and closings
that are compiled and checked. `solana_calls` reads a message as the runtime does and
`solana_transfers` runs what transfers and closings ask on a ledger of every wallet;
`swap_ledger` and `solana_swap` run a swap's operations on one, and `solana_swap_messages`
ties them to the bytes that are signed. `little_endian`, `decimals` and `fees` are amounts
and what the user approved to pay. `tron_swap` is the approve, grant and swap sequence, what
each signature gives away, and its price, `tron_staking` what is lent and may be taken back,
`refuel` the gas top-ups.

**Keeping secrets.** `vault` is the encrypted container, `accounts` the records of one
space and the edits made to them, `spaces` the manager's operations, `space_manager` the
manager that performs them in place, `space_laws` what each of them does to wallets, secrets
and sessions, said of the state before and after, and `space_runs`, `space_indexes` and
`space_wallets` what holds in every run. `throttle` slows guessing down. `provider_headers`
keeps node credentials with their endpoints.

**Sharing reads.** `single_flight` is the reads callers share, `single_flight_progress` when
they start and that they can end, `balance_cache` what is remembered of them, `pacer` how
requests to public nodes are spaced.

Where the source changes state step by step, a class or a method with its loops is proved
equal to a function, and what the system promises is proved about that function over every
run. Protocols between concurrent parties are event machines: an event that cannot happen
changes nothing, so a run is any list of events.

## What is assumed

- What a node did with a transaction's bytes is known only through what was heard. A
  rejection, other than as a duplicate on Tron, means it did not take them; a duplicate, or the
  own id named back, that it did; a lost answer and another signature fit both.
- A Solana message expires at the height announced for its blockhash. A node that answers about
  a transaction knows what had landed some blocks ago, at most a given number, and tells its true
  execution error at some level of confirmation.
- The system, token and associated-token programs do what `solana_transfers` says of a call's
  accounts and bytes. Allowances are drawn on as `TronSwap.CanDraw` says.
- A key derived from a password and a header equals another only for the same password and
  header, and a box opens with its key and label only. Addresses and derived accounts are
  injective in what they are derived from.
- A write of a space's file replaces it or changes nothing. The operations file is also
  allowed a write that takes effect and is then reported failed.
- Random identifiers are new. Each manager operation is atomic: an import does not fall
  inside a password change of the same space.
- A pool pays at least the minimum it was given or the whole transaction is undone. Program
  identifiers, the derivation of associated accounts, the exchange's instruction encoder and
  decoder, of which the decoder reads back what the encoder wrote, and the key of an
  endpoint's URL are parameters.

## Where the code is weaker than it reads

- A record can lose the id of a transaction that left for it, and a repeat can be told to
  use a new key while its transaction is with a node: pruning may forget a resolved record
  whose request still runs, its key can be reserved again, and the first request then writes
  over the second's record (`SignOncePruned.ARecordCanLoseItsTransaction`,
  `SignOncePruned.ARepeatCanBeMisled`). `SignOnceNames.NamesAreKeptIff` and
  `SignOnceReplays.AccountsAreKeptIff` say which writes do it, `SignOnceSpared` that sparing
  the records of requests that can still write prevents it, and `SignOnceLatecomers` that
  forgetting any one of them allows it. For the same reason a key is signed for once only
  while its record is not forgotten (`SignOnceKeys.TwoTransactionsNeedAForgottenRecord`).
- A derived wallet is said to be new on every network it is made for (`manager.go:722-724`).
  A record from before networks were bound can later be bound to the same index
  (`SpaceIndexes.OldRecordsCanClash`, `Accounts.BindKeepsOnePerIndexIff`).
- An approval whose parts pass 2^64 lamports adds up by wrapping and can then be exceeded
  (`Fees.ApprovalBindsIff`, `Fees.SwapApprovalBindsIff`). A simulated use from
  15372286728091292180 up to 1166666 more wraps to a limit below it, the first of them to
  none (`Fees.LimitCoversUseIff`, `Fees.LimitIsNothingIff`).
- Selling 2^160 units or more through V4 never finishes: with an exact approval no step can
  be encoded, with an unlimited one the grant is asked for again and again
  (`TronSwap.SwapIsSignableIff`, `TronSwap.OnePastTheGrant`).
- The expiry margin is 150 blocks and holds up to a lag of 151, against the 128 its comment
  relies on (`SolanaExpiry.MarginIsExact`, `SolanaRetry.SolanaRetryIsSafeIff`).

## Model

| member | source | states |
|---|---|---|
| `OperationStore.NormalizeKeyIsStable` | internal/operation/store.go:60-72 | A normalized key is stored under the spelling every entry point normalizes to; only blank keys normalize to nothing. |
| `OperationStore.NormalizeKeyTrims` | internal/operation/store.go:60-72 | What is taken off a key is blank, and what is left begins and ends with something that is not. |
| `OperationStore.Store.Begin` | internal/operation/store.go:134-167 | A key is refused, answered from its record, or reserved after pruning, with exactly the resulting file; the file stays at or under 512 records, each under its own key, whether the write lands, is lost, or fails after its rename. |
| `OperationStore.RepeatGetsItsRecord` | internal/operation/store.go:134-167 | Of two reservations of one key, however spelled and whatever became of the first one's write, the second gets the first one's record if it asks for the same and a conflict if not, and changes nothing; an unusable key is always refused. |
| `OperationStore.ReservingANewKey` | internal/operation/store.go:150-167 | A new key gets a fresh record with nothing signed, beside exactly the records pruning kept, or the file stays as it was; it is refused exactly when 512 are live or the write is told to have failed. |
| `OperationStore.Store.Update` | internal/operation/store.go:169-215 | The record's status and time change, a known id is replaced only by another id, a missing record is an error, and nothing else changes. |
| `OperationStore.Store.UpdateExpiring` | internal/operation/store.go:177-215 | As Update, with the expiry height in the same write; without an id and a height nothing is written. |
| `OperationStore.UpdatingFollows` | internal/operation/store.go:177-215 | An update that is written keeps what was asked for and when, takes back no id and no height, and leaves every other record alone; without the record it is an error. |
| `OperationStore.StatusFollowsTheTransaction` | internal/operation/store.go:217-246 | When the lookup by transaction says it wrote, the record found has the status, and nothing but its status and time changed; without one nothing did. |
| `OperationStore.Store.UpdateByTxHash` | internal/operation/store.go:217-246 | Exactly the status of one record naming the transaction changes; found or not is told truly, and an equal status is not rewritten. |
| `OperationStore.Store.FindByTxHash` | internal/operation/store.go:282-302 | Answers with a record naming the transaction if and only if there is one. |
| `OperationStore.Prune` | internal/operation/store.go:104-130 | The collect, sort and delete loops leave a file below the limit that dropped only droppable records, oldest first and as few as possible, or refuse when 512 are live. |
| `OperationStore.PruneSparesLive` | internal/operation/store.go:96-118 | A record neither confirmed nor failed and updated less than thirty days ago survives any pruning, and such records are exactly those counted as live. |
| `OperationStore.PruneDropsFewest` | internal/operation/store.go:96-130 | Any other way of making room drops at least as many records. |
| `OperationStore.PruneIsPossibleIff` | internal/operation/store.go:104-130 | Room can be made exactly when fewer than 512 records are live. |
| `SignOnce.AtMostOneTransactionPerRecord` | internal/httpapi/platform.go:1250-1341 | In every run of concurrent requests, with crashes, lost answers, failed writes and pruning anywhere, each lifetime of a record sees at most one signature and at most one release, and what leaves is what was signed for the same key. |
| `SignOnceKeys.OneTransactionPerKey` | internal/httpapi/platform.go:1250-1341 | In every run, a key whose record is never forgotten is signed for at most once and sent at most once. |
| `SignOnceKeys.TwoTransactionsNeedAForgottenRecord` | internal/operation/store.go:104-167 | Two signatures or two releases for one key belong to two lifetimes of its record, and the earlier one was pruned before the later was reserved: from a file of 512 or more, and resolved or thirty days old. |
| `SignOnceKeys.LiveTransactionsAreSeparated` | internal/operation/store.go:104-167 | Two signatures or releases for one key, each by a request whose record was its own at the time, have that pruning between them. |
| `SignOnceKeys.RecordsLiveUntilForgotten` | internal/operation/store.go:104-167 | A record stays the same lifetime through every step until a reservation prunes it, and then its key has none. |
| `SignOnceNames.RunsStayNamedIff` | internal/httpapi/platform.go:1656-1717 | Throughout a run every live record names what its lifetime recorded, signed and sent if and only if no step overwrites a relied-on id or height: a landed write of another one by a request whose own record was forgotten. |
| `SignOnceNames.NamesAreKeptIff` | internal/httpapi/platform.go:1656-1717 | One step keeps those names if and only if it is not such a write, a condition on the state before it. |
| `SignOnceNames.RecordNamesBeforeSending` | internal/httpapi/platform.go:1656-1717 | In a run without such a write, when a Tron or Solana transaction's bytes leave, the record already names it, Solana with its expiry height, if it is still the request's own. |
| `SignOnceNames.RecordNamesWhatLeft` | internal/httpapi/platform.go:1656-1717 | In a run without such a write, no later step erases that name for as long as the record lives. |
| `SignOnceSpared.SparedRunsAreNeverOverwritten` | internal/operation/store.go:104-130 | In runs whose pruning spares the record of every request that can still write an id, nothing is overwritten. |
| `SignOnceSpared.SparedRunsNameBeforeSending` | internal/httpapi/platform.go:1656-1717 | And whatever is about to leave is named by the request's own record, which is still there. |
| `SignOnceSpared.SparedRunsAreNeverMisreported` | internal/operation/store.go:104-130 | In runs whose pruning spares the record of every request that can still write a failure, no record is misreported. |
| `SignOnceSpared.YoungUnresolvedRecordsAreSpared` | internal/operation/store.go:88-118 | Pruning spares them when the file has room or their records are unresolved and under thirty days old. |
| `SignOnceLatecomers.ForgettingCanLoseATransaction` | internal/operation/store.go:104-130 | Conversely, after any run, pruning the record of any request that can still write an id has a continuation after which a transaction left for a live record and the record names another one. |
| `SignOnceLatecomers.ForgettingCanMislead` | internal/operation/store.go:104-130 | Likewise for a request that can still write a failure: a continuation tells a repeat to use a new key while a node has its transaction and nobody called it failed. |
| `SignOncePruned.ARunningRequestCanBeForgotten` | internal/operation/store.go:104-130 | That pruning happens: a status lookup resolves a record whose request still waits for its broadcast, and a full file makes room. |
| `SignOncePruned.ARecordCanLoseItsTransaction` | internal/operation/store.go:104-130 | So there is a run after which a record names another transaction than the one that left for it. |
| `SignOncePruned.ARepeatCanBeMisled` | internal/httpapi/platform.go:1803-1830 | And a run after which a repeat is told to use a new key though its transaction is with a node. |
| `SignOnceReplays.RunsStayAccountedIff` | internal/httpapi/platform.go:1803-1830 | Throughout a run a record says failed only when that was reported, or when no node has the bytes and nobody is left to send them, if and only if no request whose own record was forgotten writes failed over a live one. |
| `SignOnceReplays.RetryAdviceIsSafe` | internal/httpapi/platform.go:1803-1830 | In such runs a replay is told to use a new key only when the old transaction was reported failed, or no node took it and none ever will, whatever happens next. |
| `SolanaRetry.SolanaRetryIsSafe` | internal/httpapi/platform.go:1677-1705 | With requests, records and the cluster together, statuses coming from lookups in that cluster: if nodes lag at most 151 blocks and pruning spares what can still be written, whenever a replay is told to use a new key the old Solana transaction has had no effect and never will. |
| `SolanaRetry.SolanaRetryIsSafeIff` | internal/chain/solana/transaction.go:14-27 | That holds of every run exactly for nodes that lag at most 151 blocks; further behind, a run doubles a transaction. |
| `SolanaRetry.DeadIsSettled` | internal/httpapi/platform.go:1665-1717 | Conversely a transaction that never landed is settled even over a restart: once the margin is over, a lookup made from its record says failed and the poll writes that down. |
| `SolanaRetry.StepStaysDated` | internal/httpapi/platform.go:1665-1717 | Every height a request or record keeps is the one the cluster enforces for its signature, so a verdict made from the record after a restart is made with the right one. |
| `SendRequest.Request.Reserve` | internal/httpapi/platform.go:1267-1284 | The handler's reservation is the protocol's Begin step; a repeat for the same request is answered by its record's status, told to use a new key only when that is failed, and for another request is a conflict. |
| `SendRequest.Request.SignDigest` | internal/httpapi/platform.go:1656-1717 | The Tron signer is the Record step followed by Sign, or Record alone and no signature when the write fails. |
| `SendRequest.Request.SignMessage` | internal/httpapi/platform.go:1677-1705 | The Solana signer is Sign followed by Record with the announced height; without a signature, a height or the write, the signature is withheld, and handed back it is on disk with its height. |
| `SendRequest.Request.Conclude` | internal/httpapi/platform.go:1727-1765 | The outcome written down is the protocol's Finish step for its classification. |
| `SendRequest.Request.SendTron` | internal/httpapi/platform.go:1250-1341 | A whole Tron request takes only the protocol's steps, for a node that took the bytes or did not and any answer it may honestly give: a repeat signs and sends nothing; nothing leaves unless its id was written first; then one signature and one release of that id, and the status written is failed only if no node took the bytes, pending only if one did, and otherwise that it is not known. |
| `SendRequest.Request.SendSolana` | internal/chain/solana/transfer.go:951-998 | A whole Solana request takes only the protocol's steps: the expiry is announced, then the message signed, then signature and height written; only then does it leave, once, and the record keeps both with a status that is true of what the node did, as for Tron. |
| `SendRequest.Request.Broadcast` | internal/tron/service.go:869-879 | Whatever the node did with the bytes, the outcome is true of it: a lost answer and a foreign signature settle nothing, a duplicate on Tron and the own id mean they were taken, any other rejection that they were not. |
| `SolanaExpiry.ExpiryBook.Record` | internal/chain/solana/transaction.go:38-49 | The height is remembered, and at most one other entry goes, only when the book is full and the key new. |
| `SolanaExpiry.Transaction` | internal/chain/solana/transaction.go:85-133 | The lookup answers by the three readings and the book as the verdict function says, and forgets exactly on a final answer. |
| `SolanaExpiry.VerdictIsTrue` | internal/chain/solana/transaction.go:85-163 | On any answers nodes may give, at any confirmation level and with the true execution error, one lookup says failed only of a transaction that reverted or is dead, confirmed only of one that landed and succeeded, and pending of one only processed. |
| `SolanaExpiry.KnownIsTold` | internal/chain/solana/transaction.go:137-163 | A node that knows a transaction by vote or finality settles its lookup with how it was executed. |
| `SolanaExpiry.DeadIsTold` | internal/chain/solana/transaction.go:85-133 | A remembered transaction that is missing twice is called failed once its last height is more than 150 blocks past, and pending before. |
| `SolanaExpiry.ForgettingOnlyYieldsPending` | internal/chain/solana/transaction.go:51-62 | Without its entry a lookup answers as with it, or pending. |
| `SolanaExpiry.ExpiryIsSound` | internal/chain/solana/transaction.go:14-27 | Everything lookups ever answer is true and stays true, in every run of lookups, restarts and landings, with nodes at most 151 blocks behind: failed only of a transaction that was executed and failed or is not on chain and never lands, confirmed only of one that landed and succeeded. |
| `SolanaExpiry.LaggingNodeMisleads` | internal/chain/solana/transaction.go:14-27 | With nodes further behind there is a run that calls a landed transaction failed. |
| `SolanaExpiry.MarginIsExact` | internal/chain/solana/transaction.go:14-27 | The rule is never wrong if and only if nodes lag at most 151 blocks. |
| `SolanaReader.DecodeLegacyMessage` | internal/chain/solana/intent.go:217-309 | The cursor loops read exactly the legacy grammar: header, keys, blockhash, instructions with checked indexes, nothing left over, no version. |
| `SolanaReader.DecodeSwapMessage` | internal/chain/solana/swap_message.go:128-290 | The cursor loops read exactly the legacy or version 0 grammar and resolve lookups in order, writable before read-only. |
| `SolanaReader.Cursor.TakeCompact` | internal/chain/solana/intent.go:228-241 | The loop reads at most three groups of seven bits, least significant first. |
| `SolanaReader.LoadPass` | internal/chain/solana/swap_message.go:235-268 | One pass over the lookups loads the tables' addresses in order, or fails on an unknown table or an index past its end. |
| `SolanaCodec.DecodersAgree` | internal/chain/solana/swap_message.go:128-290 | On every input that announces no version the two decoders accept the same messages and read the same fields. |
| `SolanaCodec.LegacyRoundTrip` | internal/chain/solana/intent.go:217-309 | Every well-formed legacy message is read back from the reference encoding as it was. |
| `SolanaCodec.V0RoundTrip` | internal/chain/solana/swap_message.go:128-290 | Every encodable version 0 message is read back as its resolution against the tables: static keys, then writable, then read-only loaded ones. |
| `SolanaTables.DecodeLookupTable` | internal/chain/solana/swap_message.go:34-52 | A lookup table is read if and only if it is owned, initialized, active and whole, and then holds exactly its addresses. |
| `SolanaTables.TableReadsBack` | internal/chain/solana/swap_message.go:20-52 | A table as the runtime lays it out is taken exactly when it is the program's, set up and never deactivated, and then gives its addresses in order. |
| `SolanaTables.GrowthChangesNothing` | internal/chain/solana/swap_message.go:30-52 | A message resolved against tables as read resolves the same however the tables grow. |
| `SolanaChecker.VerifyInstructions` | internal/chain/solana/intent.go:124-188 | Accepts exactly the messages that decode to the payer as sole signer, the blockhash, the planned calls, distinct and used accounts, each writable if and only if the plan writes it. |
| `SolanaChecker.SameInstruction` | internal/chain/solana/intent.go:153-177 | One instruction passes if and only if its program, data and accounts are the planned ones, and its uses and writes are noted. |
| `SolanaSwapChecker.VerifySwapMessage` | internal/chain/solana/swap_message.go:298-377 | As VerifyInstructions after lookup resolution, with no planned signer but the payer and the Raydium instructions decoding, in order, to exactly the planned swaps. |
| `SolanaSwapChecker.NextSwap` | internal/chain/solana/swap_message.go:351-359 | A swap instruction matches the next planned swap, or the lists differ. |
| `SolanaCompiler.AcceptedPrivileges` | internal/chain/solana/intent.go:178-187 | An accepted message has the planned accounts and no other, and may write exactly the payer and what the plan writes. |
| `SolanaCompiler.AcceptedMessagesAgree` | internal/chain/solana/intent.go:110-188 | Two messages accepted for one plan run the same calls on the same accounts with the same privileges. |
| `SolanaCompiler.LegacyCompiles` | internal/chain/solana/intent.go:110-188 | In whatever order accounts are laid out, the compiled legacy message passes the checker. |
| `SolanaCompiler.V0Compiles` | internal/chain/solana/swap_message.go:57-90 | In whatever order and with whatever lookups, the compiled version 0 message passes the swap checker. |
| `SolanaCompiler.LegacySwapCompiles` | internal/chain/solana/swap_message.go:57-90 | A swap compiled as a legacy message passes the swap checker too. |
| `SolanaCompiler.EveryPlanHasALayout` | internal/chain/solana/transfer.go:190-198 | Every plan naming at most 256 accounts can be laid out. |
| `SolanaSwapMessages.BuildSwap` | internal/chain/solana/swap.go:281-353 | The list the planner appends for a stage, with the swaps it is meant to make, is the stage's list: budget, openings, wrapping, hops, closing. |
| `SolanaSwapMessages.EverySwapPasses` | internal/chain/solana/swap_message.go:57-90 | Every swap list the planner lays out makes a message the checker accepts, legacy or version 0 as its size decides, whatever order of accounts and lookups the serializer chose. |
| `SolanaSwapMessages.SmallestIsBuilt` | internal/chain/solana/swap_message.go:57-90 | The message built fits a transaction exactly if the legacy one does or, with tables to load from, the version 0 one does, and it is a version 0 one only where the legacy one does not fit. |
| `SolanaSwapMessages.EverySwapHasAMessage` | internal/chain/solana/swap_message.go:57-90 | A serializer always has such a choice. |
| `SolanaSwapMessages.AcceptedSwapDoesThePlan` | internal/chain/solana/swap_message.go:298-377 | The calls of an accepted message, read from their accounts and bytes, do exactly the planned operations. |
| `SolanaSwapMessages.OneSwapPerMessage` | internal/chain/solana/swap_message.go:298-377 | A message passes for one swap only: signer, compute limit and price, and every operation with its accounts and amounts. |
| `SolanaSwapMessages.AcceptedMessageIsHonoured` | internal/chain/solana/swap.go:1538-1566 | Run the calls of an accepted message on any ledger: its bytes set the approved compute limit and price, and whatever the pools do it sells exactly the amount, pays at least the minimum, keeps at most the announced rent and leaves no wrapped SOL account. |
| `SolanaPlans.BuiltIsExpectedIff` | internal/chain/solana/transfer.go:153-199 | What a transfer is compiled from equals what it is checked against if and only if its token accounts are the wallets' own. |
| `SolanaPlans.OneIntentPerMessage` | internal/chain/solana/intent.go:55-108 | A message passes for one intent only: payer, recipient, amount, token, opened account, limit and price are all fixed by it. |
| `SolanaPlans.EveryTransferPasses` | internal/chain/solana/transfer.go:166-199 | Every such transfer has a message that passes the check and fits a transaction. |
| `SolanaTransfers.AcceptedTransferDoes` | internal/chain/solana/intent.go:55-108 | The calls of an accepted message, read from their accounts and bytes as the programs read them, set the approved limit and price, open the recipient's account if the intent says so, and make the one payment of the amount from the payer to the recipient. |
| `SolanaTransfers.AcceptedTransferIsHonoured` | internal/chain/solana/transfer.go:153-199 | Run them on a ledger of every wallet: exactly the amount of the asset leaves the payer's own account for the recipient's, an account is opened only if it was missing and agreed to, at the payer's cost, and nobody else's tokens or SOL change; or nothing happens. |
| `SolanaTransfers.PayableGoesThrough` | internal/chain/solana/transfer.go:153-199 | It does happen whenever the payer has the amount, the rent of an account to open, and accounts of that mint. |
| `SolanaTransfers.AcceptedTransferIsLeast` | internal/chain/solana/intent.go:178-187 | An accepted transfer has the payer as its one signer, whose word every call takes, and may write exactly the payer and the accounts its calls alter. |
| `SolanaPlans.BuildClosing` | internal/chain/solana/close.go:189-205 | The list compiled for a closing, appended account by account, is the one it is checked against. |
| `SolanaPlans.OneClosingPerMessage` | internal/chain/solana/close.go:167-187 | A message passes for one closing only: owner, accounts in order, limit and price. |
| `SolanaPlans.NeverBothTransferAndClosing` | internal/chain/solana/close.go:167-187 | No message passes both as a transfer and as a closing. |
| `SolanaPlans.EveryClosingPasses` | internal/chain/solana/close.go:16-29 | Closing up to twenty accounts has a message that passes and takes at most 218 + 39n bytes signed. |
| `SolanaTransfers.AcceptedClosingIsHonoured` | internal/chain/solana/close.go:167-205 | Run an accepted closing on any ledger: exactly the accounts named were the owner's and empty and are gone, all they held is the owner's, at the approved limit and price; or nothing happens. |
| `SolanaTransfers.AcceptedClosingIsLeast` | internal/chain/solana/close.go:167-205 | Likewise a closing: one signer, and exactly the accounts it alters may be written. |
| `SolanaSwap.CheckHops` | internal/chain/solana/swap.go:613-637 | A route passes if and only if it is one or two distinct pools that connect the mints through an allowed middle one. |
| `SolanaSwap.LayOut` | internal/chain/solana/swap.go:281-353 | The operations of a stage, in the order the planner appends them. |
| `SwapLedger.Conserved` | internal/chain/solana/swap.go:281-353 | Over any executed instruction list the wallet's holding of each mint changes by what the trades moved and the rent kept, and by nothing else. |
| `SwapLedger.OthersUntouched` | internal/chain/solana/swap.go:281-353 | An account no instruction names is as it was. |
| `SolanaSwap.DraftedIsChosen` | internal/chain/solana/swap.go:437-480 | The accounts chosen for a route are the wallet's own for its mints, and the second hop sells the first one's minimum. |
| `SolanaSwap.PlannedIff` | internal/chain/solana/swap.go:402-637 | A swap is planned if and only if it trades two different assets, SOL only ever named as SOL, along one or two different pools that lead from one to the other through an allowed mint, and the wallet has the tokens it sells. |
| `SolanaSwap.PlannedAmounts` | internal/chain/solana/swap.go:886-947 | It sells the amount for the minimum the user saw, and a second pool sells exactly what the first guarantees: what that was seen to pay less the slippage, rounded down. |
| `SolanaSwap.SignedSwap` | internal/chain/solana/swap.go:281-353 | A signed swap that executes, on any ledger and whatever the pools pay, sells exactly the amount, receives at least the minimum, draws for its second hop no more than the first paid, keeps at most the announced rent and leaves no wrapped SOL account. |
| `SolanaSwap.FinalGoesThrough` | internal/chain/solana/swap.go:988-1012 | A swap whose SOL covers its new accounts and the SOL sold goes through whenever every pool pays its minimum. |
| `SolanaSwap.MeasuringIsExact` | internal/chain/solana/swap.go:886-947 | The measuring stages show exactly what the pools pay, also into the wrapped-SOL account. |
| `SolanaSwap.PlanOpens` | internal/chain/solana/swap.go:250-260 | The accounts a swap leaves open are those announced: all it creates but the wrapped-SOL one. |
| `SingleFlight.SharedIsNeverCancelled` | internal/tron/service.go:501-545 | In every interleaving, a read a caller can join is neither cancelled nor over. |
| `SingleFlight.CancelledIsUnwanted` | internal/tron/service.go:529-544 | An unfinished read is cancelled only when every caller left it and none can join it. |
| `SingleFlight.NobodyGetsAnothersCancellation` | internal/chain/solana/balance.go:479-502 | No caller is ever answered with a cancellation; whoever left had its own context end. |
| `SingleFlight.RefreshIsAnsweredFresh` | internal/chain/solana/balance.go:447-502 | A Solana refresh is answered only by a request sent after it asked. |
| `SingleFlight.SlotsMatchHolders` | internal/chain/solana/rpc.go:248-257 | Slots taken are exactly the reads holding one and never exceed the capacity. |
| `SingleFlight.OneReadPerAddress` | internal/tron/service.go:501-545 | At most one wanted read per address is under way; on Solana, of those not yet sent. |
| `SingleFlightProgress.AskingStartsAReadIff` | internal/tron/service.go:501-527 | A caller takes part in the read others can join, and starts one only where there is none or, for a Solana refresh, where its request is already out; then it is the one others join. |
| `SingleFlightProgress.EveryoneCanBeAnswered` | internal/tron/service.go:501-545 | From any moment of any run, however full the slots and whoever left, whoever waits can still be answered: with a value if nothing came back yet, else with what did. |
| `SingleFlightProgress.AnyoneCanLeave` | internal/chain/solana/balance.go:479-502 | Whoever's own context ends can leave; the last to leave takes the read along, and nobody joins it any more. |
| `SingleFlightProgress.CancelledCanEnd` | internal/chain/solana/rpc.go:248-257 | A cancelled read still waiting for a slot can end without taking one. |
| `Vault.ResealKeepsThePassword` | internal/vault/vault.go:196-223 | However often a vault is sealed again, its password and no other opens it, its header is unchanged, and it holds what was sealed last. |
| `Vault.OnePasswordOpens` | internal/vault/vault.go:143-175 | A container opens with one password, to its payload and a key for it. |
| `Accounts.VerifyPayload` | internal/space/manager.go:1551-1599 | The record loop accepts exactly the lists that agree with the vault on every address shown. |
| `Accounts.NextIndex` | internal/space/manager.go:748-757 | The search meets the least unused index within one more probe than there are used ones. |
| `Accounts.CollectUsed` | internal/space/manager.go:741-747 | The used indexes are those of derived wallets on any requested network, at most one for each record. |
| `Accounts.BindKeepsOnePerIndexIff` | internal/space/manager.go:1227-1256 | Binding keeps one wallet for each index if and only if it does not assign an old record an index its family already uses. |
| `Accounts.LentKeyIsTheOneShown` | internal/space/manager.go:1744-1817 | Whatever key a wallet gives for a family, its address is the one the wallet shows. |
| `Spaces.ApplyKeeps` | internal/space/manager.go:1437-1458 | Any good edit, written or not, leaves disk, memory and session in agreement, new secrets sealed or put back. |
| `Spaces.ReplaceKeeps` | internal/space/manager.go:602-625 | A file and its session replaced together stay in agreement. |
| `SpaceManager.Manager.ExpireLocked` | internal/space/manager.go:1475-1485 | The sweep removes exactly the sessions idle for the auto-lock time. |
| `SpaceManager.Manager.UnlockedLocked` | internal/space/manager.go:1418-1435 | Sweeps, then gives the open space's file and session and counts as use, or refuses. |
| `SpaceManager.Manager.SaveSecrets` | internal/space/manager.go:1437-1458 | Secrets edited in place are sealed and written, or put back when that fails. |
| `SpaceManager.Manager.Create` | internal/space/manager.go:323-371 | A new space is sealed, written and opened, or nothing changes. |
| `SpaceManager.Manager.Unlock` | internal/space/manager.go:487-524 | The right password of a verified vault opens a fresh session; anything else changes nothing. |
| `SpaceManager.Manager.Lock` | internal/space/manager.go:526-534 | The session goes, and nothing else. |
| `SpaceManager.Manager.ChangePassword` | internal/space/manager.go:563-655 | The vault is sealed under the new password and an open session replaced by one without a grant, or nothing changes. |
| `SpaceManager.Manager.DeriveNetworks` | internal/space/manager.go:725-814 | The wallet of the least index unused on the networks is reused or made. |
| `SpaceManager.Manager.ImportNetworks` | internal/space/manager.go:826-902 | A known key is put on more networks, a new one into the vault, and a failed write leaves both as they were. |
| `SpaceManager.Manager.DeleteAccount` | internal/space/manager.go:1328-1369 | With the password, the record goes, an imported one with its key; a failed write restores it. |
| `SpaceManager.Manager.BindNetwork` | internal/space/manager.go:1215-1264 | The record joins the network, an old one taking its family, or nothing changes. |
| `SpaceManager.Manager.UnbindNetwork` | internal/space/manager.go:1268-1297 | The record leaves the network unless it is its last. |
| `SpaceManager.Manager.ConfirmSend` | internal/space/manager.go:1109-1138 | The right password opens a grant on an open session and counts as use; a cancelled call opens none. |
| `SpaceManager.Manager.RequireSendConfirmation` | internal/space/manager.go:1151-1178 | Passes exactly when sending is allowed, and only sweeps. |
| `SpaceManager.Manager.WithKey` | internal/space/manager.go:1003-1038 | Lends exactly the key of a bound account of an open space. |
| `SpaceLaws.DeletionTakesThatWallet` | internal/space/manager.go:1328-1369 | After a confirmed deletion of a wallet of an open space that is written, no record has its identifier, every other is there in its order, the vault has lost exactly its key if it was imported and nothing else, under the same password; no other space's file or session changes. |
| `SpaceLaws.OtherDeletionsTakeNothing` | internal/space/manager.go:1328-1369 | Any other deletion leaves files, disk and secrets as they were; with a wrong password nothing changes at all. |
| `SpaceLaws.DerivingReusesTheWallet` | internal/space/manager.go:725-772 | Where the family has a wallet with the least index no derived wallet on the networks uses, that wallet is put on them, and nothing else changes. |
| `SpaceLaws.DerivingMakesTheWallet` | internal/space/manager.go:765-814 | Where it has none, one record is added: that index, those networks, and the address of that key; a list of 512 refuses. |
| `SpaceLaws.OtherwiseNothingIsDerived` | internal/space/manager.go:725-814 | Without networks, an open space, a seed or the write, no record changes. |
| `SpaceLaws.ImportingAKnownKey` | internal/space/manager.go:840-871 | A key that a wallet's stored secret equals puts that wallet on the networks as well, and is refused if it is on all of them. |
| `SpaceLaws.ImportingANewKey` | internal/space/manager.go:872-902 | Any other key is added to the vault under the new reference, with one record that shows exactly the addresses of its curve; a list of 512 refuses. |
| `SpaceLaws.OtherwiseNothingIsImported` | internal/space/manager.go:826-902 | Without networks, an open space or the write, no record and no key changes. |
| `SpaceLaws.BindingAddsTheNetwork` | internal/space/manager.go:1215-1264 | A wallet is bound exactly when it shows an address of the family: the network is added, an old record keeps its index and that address alone, and nothing else changes. |
| `SpaceLaws.UnbindingDropsTheNetwork` | internal/space/manager.go:1268-1297 | A wallet leaves a network it is on exactly when it is on another too, and nothing else changes. |
| `SpaceLaws.UnknownWalletsAreNotBound` | internal/space/manager.go:1215-1297 | Binding or unbinding a wallet the space does not have changes nothing. |
| `SpaceLaws.RightPasswordUnlocks` | internal/space/manager.go:487-524 | The right password of a stored space, when the throttle allows it, opens a session with the file's secrets, used now and without leave to spend; any other changes nothing. |
| `SpaceLaws.CreatingStoresTheSpace` | internal/space/manager.go:323-371 | A new space is in memory and on disk, opens with its password and no other to its records and secrets, and has an open session; or nothing changes. |
| `SpaceLaws.ChangingThePassword` | internal/space/manager.go:563-655 | After a change that is written the same records and secrets open with the new password and no other, and an open session stays open without leave to spend; otherwise nothing changes. |
| `SpaceLaws.LockingEndsTheSession` | internal/space/manager.go:526-534 | Locking ends that space's session and no other, and changes no file. |
| `SpaceLaws.ConfirmingGrants` | internal/space/manager.go:1109-1138 | The right password on an open space gives it leave for the grant's time, and no other space's session changes but for idle ones. |
| `SpaceLaws.GrantLasts` | internal/space/manager.go:1109-1178 | The gate then passes exactly until the grant's time is over or the session is idle, or whenever the step-up is off. |
| `SpaceLaws.OtherConfirmationsGrantNothing` | internal/space/manager.go:1109-1138 | Any other confirmation gives leave to nobody. |
| `SpaceLaws.KeyIsLentIff` | internal/space/manager.go:1003-1038 | A key is lent if and only if the space is open and a wallet with the identifier is on the network and shows an address of the family; it is the key behind that address. |
| `SpaceRuns.EverythingInOrder` | internal/space/manager.go:563-655 | In every run with any writes failing, disk equals memory, every file opens under its password to secrets its records agree with, and every open session has those secrets and that key. |
| `SpaceRuns.StoredSpaceOpens` | internal/space/manager.go:241-262 | A stored space passes the checks of a restart and opens with its password and no other. |
| `SpaceRuns.LentKeysAreShown` | internal/space/manager.go:1003-1038 | A key lent in any run is for a network of the wallet and makes the address it shows. |
| `SpaceRuns.GateNeedsTheCurrentPassword` | internal/space/manager.go:1092-1178 | The gate passes only if the password that opens the vault now was confirmed less than the then current grant time ago, with the session open under that grant ever since. |
| `SpaceRuns.EndedGrantsAreGone` | internal/space/manager.go:115-125 | Locking, unlocking anew, a completed password change and a restart leave no grant. |
| `SpaceRuns.IdleSessionsAreUseless` | internal/space/manager.go:1151-1178 | Nothing but the calls that do use an open session keeps it alive, wrong passwords and refused calls included: once idle for the auto-lock time it lends no key and passes no gate. |
| `SpaceWallets.WalletsStayUntilDeleted` | internal/space/manager.go:1328-1369 | In every run a wallet stays in its space until it is deleted with the space's password: the same identifier, index or imported key under the same seed, and no address it shows ever changes. |
| `SpaceIndexes.EveryWalletHasItsIndex` | internal/space/manager.go:725-814 | Without migrated old records, no space ever has two derived wallets of one family and index. |
| `SpaceIndexes.NoTwoWalletsShareAKey` | internal/space/manager.go:765-786 | So two derived wallets of a space never show the same address of a family. |
| `SpaceIndexes.OldRecordsCanClash` | internal/space/manager.go:1228-1242 | With an old record they can, in a run of three calls: migrate it, derive on a network, bind the old wallet to it. |
| `Decimals.ShiftedIsExact` | internal/chain/solana/transfer.go:82-95 | A decimal becomes base units if and only if it is exactly that many; nothing is rounded. |
| `Decimals.SolReadsBack` | internal/chain/solana/transfer.go:76-78 | Printing lamports as SOL and reading them back is the identity on all 64-bit amounts. |
| `Decimals.UnitsReadBack` | internal/chain/solana/transfer.go:80-95 | Printing and reading a token amount is the identity for every positive amount and any number of places; zero is refused. |
| `Fees.PriorityFeeIsTheCeiling` | internal/chain/solana/transfer.go:134-138 | Within the bounds the priority fee is the exact price rounded up, unwrapped. |
| `Fees.OfferCoversRecentIff` | internal/chain/solana/transfer.go:280-285 | The offered price covers the recent one exactly when that is within the ceiling, with a quarter of headroom up to it. |
| `Fees.PriorityPrice` | internal/chain/solana/transfer.go:257-278 | The price is the capped upper quartile: at least three quarters of the samples are at or below it, fewer strictly below. |
| `Fees.LimitCoversUseIff` | internal/chain/solana/transfer.go:486-490 | The limit covers the use or is the ceiling except for uses from 15372286728091292180 on, where the sum passes 64 bits, up to 1166666 more. |
| `Fees.LimitHasHeadroomIff` | internal/chain/solana/transfer.go:486-490 | Below the ceiling the headroom is a fifth and a thousand units exactly where the sum does not wrap. |
| `Fees.LimitIsNothingIff` | internal/chain/solana/transfer.go:486-490 | Exactly one use gives a limit of nothing. |
| `Fees.SentAsApproved` | internal/chain/solana/transfer.go:859-890 | A transfer past the gates has exactly the approved network fee, costs at most the approved fee, needs at most the approved limit and price, opens no account that was not agreed to, and the balance covers it. |
| `Fees.GateMeans` | internal/chain/solana/transfer.go:872-890 | A transfer passes exactly when nothing speaks against it, and is refused with something that does. |
| `Fees.SentCoversTheChain` | internal/chain/solana/transfer.go:859-890 | What passes covers what the chain says at that moment: the signed limit the simulated use, the price the recent one, and the balance network fee, rent and amount. |
| `Fees.ApprovalBindsIff` | internal/chain/solana/transfer.go:804-842 | A transfer can pass the gates and cost more than an approval if and only if the approval's parts do not add up in 64 bits. |
| `Fees.AnApprovalCanBeExceeded` | internal/chain/solana/transfer.go:804-842 | Such an approval is taken: rent of 2^64 - 1 lamports and a fee of 4999. |
| `Fees.EchoedEstimateIsSentIff` | internal/chain/solana/transfer.go:729-742 | An affordable estimate echoed back passes every gate unchanged, when the chain answers the same and whatever prices were sampled, if and only if its limit is something and an account to open has a rent. |
| `Fees.MaximumLeavesNothing` | internal/chain/solana/transfer.go:710-727 | The maximum of SOL leaves exactly nothing after its cost, passes too, and nothing larger can be afforded. |
| `Fees.ClosedAsApproved` | internal/chain/solana/close.go:349-378 | A closing passes if and only if it opens nothing and needs no more than the approved limit and price, costs exactly the approved fee, and is refused with a reason that holds. |
| `Fees.EchoedCloseIsSentIff` | internal/chain/solana/close.go:318-341 | An echoed closing estimate passes every gate under the same condition, and no other. |
| `Fees.SwappedAsApproved` | internal/chain/solana/swap.go:1515-1538 | A signed swap has the approved network fee, at most the approved cost, accounts, limit and price, the minimum the user saw, within the largest slippage of what it pays now, and a balance that covers what it takes. |
| `Fees.SwapGateMeans` | internal/chain/solana/swap.go:1515-1538 | A swap passes exactly when nothing speaks against it, and is refused with something that does. |
| `Fees.SwapCoversTheChain` | internal/chain/solana/swap.go:1500-1538 | What passes was measured at that moment: its limit covers that use and its price the recent one. |
| `Fees.SwapApprovalBindsIff` | internal/chain/solana/swap.go:1432-1462 | A swap can pass the gates and cost more than an approval if and only if the approval's parts do not add up in 64 bits. |
| `Fees.PrecheckCoversIff` | internal/chain/solana/swap.go:995-1012 | A balance that passes covers fee, rents and the SOL sold if and only if their sum does not wrap. |
| `Fees.RouteIsBlamedIff` | internal/chain/solana/swap.go:988-1035 | Where nothing wraps, a short balance is laid to the route alone exactly when it would do without the route's middle account. |
| `Fees.EchoedQuoteIsSwappedIff` | internal/chain/solana/swap.go:1432-1462 | A covered quote echoed back passes every gate unchanged, when the chain answers the same, under the same condition as a transfer, and no other. |
| `Fees.RentIsNothingIff` | internal/chain/solana/swap.go:260-260 | The rent shown for one or two accounts is nothing only for no rent, or for two of 2^63. |
| `Fees.WithSlippageIsFloor` | internal/chain/solana/swap.go:1048-1053 | The slippage minimum is the exact share rounded down. |
| `Fees.ApprovalIsTakenIff` | internal/chain/solana/transfer.go:804-842 | An approval is taken exactly when its limit and price are in bounds, its rent is something if and only if an account is opened, and the fee shown is the sum of what else is shown; then it is what was shown, and a refusal names what is wrong. |
| `Fees.SwapApprovalIsTakenIff` | internal/chain/solana/swap.go:1432-1462 | The same for a swap, with at most two accounts. |
| `TronSwap.SwapCalls` | internal/tron/swap.go:602-652 | The appended list is the list of steps the allowances leave, given up at the first one the encoder refuses. |
| `TronSwap.StepsAreOrdered` | internal/tron/swap.go:602-652 | The steps are an increasing selection of approve, grant and swap, ending in the swap, each there if and only if it is needed. |
| `TronSwap.VerdictsAreRight` | internal/tron/swap.go:920-930 | A step called in place is not needed, one told to wait has a needed one before it, one signed is needed and next, and nothing can be built exactly when V4 cannot hold the minimum or a grant that is needed. |
| `TronSwap.SwapIsSignableIff` | internal/tron/swap.go:602-705 | A swap can be signed on some ledger if and only if it does not sell more than 160 bits through V4 nor ask more than 160 bits of V4. |
| `TronSwap.UngrantableIsNeverSigned` | internal/tron/swap.go:618-648 | An amount past 160 bits sold through V4 is never signed whatever is on chain; without an unlimited grant no step is ever offered. |
| `TronSwap.OnePastTheGrant` | internal/tron/swap.go:634-648 | At 2^160 no step is offered, or a grant is offered that is needed again once confirmed. |
| `TronSwap.ConfirmingLeavesTheRest` | internal/tron/swap.go:602-652 | Confirming the first step leaves exactly the others while the grants live. |
| `TronSwap.FirstStepIsDoneIff` | internal/tron/swap.go:618-648 | An offered step is done with once confirmed, except a grant of all 160 bits for an amount past them. |
| `TronSwap.SwapFinishes` | internal/tron/swap.go:832-872 | Taken up any number of times within the life of the grants, a swap that can be granted finishes in as many signatures as it had steps, at most three, each of which can be built. |
| `TronSwap.SignedSwapCanDraw` | internal/tron/swap.go:634-642 | A swap is signed if and only if it can be encoded and, on chain by its deadline, its own router and grant let it draw the amount. |
| `TronSwap.SignedStepGives` | internal/tron/swap.go:602-705 | Confirming a signed approval changes only the allowance of the route's own router, a grant only the grant: to exactly the amount sold, or all the word holds if the user asked for no limit, a grant for its lifetime from now; a signed swap carries the plan's protocol, amount, minimum and the deadline three minutes from now. |
| `TronSwap.NothingIsAskedTwice` | internal/tron/swap.go:618-648 | An approval or grant is signed only where a swap signed now could not draw. |
| `TronSwap.ExactSwapsGiveNoMore` | internal/tron/swap.go:618-648 | However often its steps are signed, a swap without unlimited approvals never lets anyone draw more than they could before or than the amount sold, and changes no other router's allowance. |
| `TronSwap.PriceRoute` | internal/tron/swap.go:392-450 | Each step's energy is what its simulation said, or the typical use for one that waits for an approval; a route has no price exactly when an approval or grant that can be run fails; energy beyond what is available is paid once over all steps, and each step's bytes come whole from the staked pool, else the free one, else are burned. |
| `Pacer.Pacer.Reserve` | internal/chain/solana/rpc.go:131-146 | A call reserves the next free instant, no earlier than now. |
| `Pacer.RequestsAreSpaced` | internal/chain/solana/rpc.go:123-146 | Reservations are 100 ms apart overall and 250 ms for each method, in call order, whatever the clocks say. |
| `Pacer.NoBursts` | internal/chain/solana/rpc.go:123-160 | A window of length L holds at most L over the interval, rounded up. |
| `Pacer.NoNeedlessWait` | internal/chain/solana/rpc.go:131-146 | A reservation is due when it asks, or just a gap after an earlier one, overall or of its method. |
| `BalanceCache.Cache.Put` | internal/chain/solana/balance.go:101-123 | A read of a past generation or older than the cached one is not kept, and what is held is told. |
| `BalanceCache.Cache.Get` | internal/chain/solana/balance.go:90-99 | A holding written more than five minutes ago is dropped, any other is given. |
| `BalanceCache.Cache.DropNetwork` | internal/chain/solana/balance.go:125-135 | The generation advances and every holding of the network goes. |
| `BalanceCache.CacheKeepsTheNewest` | internal/chain/solana/balance.go:56-135 | For every interleaving a cached holding is of the current generation and the newest put since the entry was last absent, the last writer on ties. |
| `BalanceCache.HeldIsTheLatest` | internal/chain/solana/balance.go:56-71 | The holding in the cache was asked for strictly after every read that finished later, and not before any that finished earlier. |
| `BalanceCache.DroppedReadsAreNotKept` | internal/chain/solana/balance.go:101-135 | A read begun before its network was dropped is never kept afterwards. |
| `BalanceCache.DroppingIsWhole` | internal/chain/solana/balance.go:125-135 | Dropping a network leaves nothing of it cached, and every other network as it was. |
| `Throttle.Schedule` | internal/space/throttle.go:122-134 | Two seconds doubling past the fourth failure up to fifteen minutes, without overflow. |
| `Throttle.ScheduleNeverDecreases` | internal/space/throttle.go:122-134 | The schedule never decreases. |
| `Throttle.WaitsDouble` | internal/space/throttle.go:122-134 | The first wait is two seconds and each further failure doubles it up to the ceiling. |
| `Throttle.Cooldown.Check` | internal/space/throttle.go:95-104 | A try is allowed after at most three failures or from the recorded time on. |
| `Throttle.Cooldown.RecordFailure` | internal/space/throttle.go:107-112 | The count and the time of the next try are recorded. |
| `Throttle.OnlyWrongOnesCount` | internal/space/throttle.go:95-120 | A wrong password that was tried adds one to the record and dates the next try by the schedule and up to a quarter more, the right one clears it, and a refused try or an unreadable vault changes nothing. |
| `Throttle.GuessingIsSlow` | internal/space/throttle.go:95-143 | The n-th wrong password in a row is tried no earlier than all the waits since the fourth. |
| `Throttle.ClampNeverFires` | internal/space/throttle.go:167-173 | With a clock that never goes back the time read is the time written. |
| `Throttle.FreeAndBounded` | internal/space/throttle.go:95-104 | Three failures cost nothing, from the fourth on the date decides, and a date more than half an hour ahead is brought back to a quarter of an hour. |
| `Throttle.NeverParked` | internal/space/throttle.go:167-173 | The next try is never further away than the longest wait with its jitter. |
| `ProviderHeaders.CarryHeadersForward` | internal/config/home.go:741-767 | The two loops fill in, for endpoints saved without headers, those stored under the same key. |
| `ProviderHeaders.HomeManager.SaveNetwork` | internal/config/home.go:329-354 | Settings are validated, carried forward, written, and only then in force. |
| `ProviderHeaders.SavesTakeEffect` | internal/config/home.go:329-354 | After any saves, a valid one that is accepted and written is in force, with the endpoints and headers given; any other changes nothing, and none changes another network. |
| `ProviderHeaders.Distinct` | internal/config/home.go:656-677 | Settings pass exactly when every URL has a key and no two the same. |
| `ProviderHeaders.RedactedSaveKeepsCredentials` | internal/config/home.go:734-812 | Saving back the redacted list, in any order, with entries removed and added, keeps every endpoint's credentials. |
| `ProviderHeaders.SavedBackKeepsCredentials` | internal/config/home.go:329-354 | That holds of the settings after any saves, which are always valid, and of the settings that are then in force. |
| `ProviderHeaders.OthersGetNothing` | internal/config/home.go:734-767 | A new endpoint without headers has none, and given headers are kept as given. |
| `ProviderHeaders.RedactionHides` | internal/config/home.go:802-812 | Two lists that differ only in credentials are shown alike: what is shown tells nothing but whether there are some. |
| `ProviderHeaders.CredentialsNeverMove` | internal/config/home.go:734-767 | Credentials stored for an endpoint, after any saves, were given by the user for an endpoint of the same key. |
| `TronStaking.SplitDelegations` | internal/tron/staking.go:281-336 | One row for each receiver and resource lent anything, in order of first appearance, with all of it and its latest lock. |
| `TronStaking.AllOrNothing` | internal/tron/staking.go:530-558 | What may be taken back is everything lent once the last lock has passed, and otherwise nothing, with the reason. |
| `TronStaking.ReclaimedIsAllThatIsLent` | internal/tron/staking.go:281-336 | Of the node's own records: what may be taken back is the sum of what they lend once none of them is held any longer, a refusal names the last one's date, and nothing is lent exactly when that is the answer. |
| `Refuel.Store.PutPlan` | internal/refuel/store.go:94-121 | Outdated plans go, a full store refuses, and the new plan is kept. |
| `Refuel.PuttingKeeps` | internal/refuel/store.go:94-121 | A plan kept is the one given, dated now; the others are there unchanged except quotes that ran out and top-ups over for a week. |
| `Refuel.Store.ClaimPlan` | internal/refuel/store.go:169-187 | A plan is claimed exactly when it is known and no other is under way for its wallet and network. |
| `Refuel.ClaimingStarts` | internal/refuel/store.go:152-187 | A claim puts a plan under way exactly if no other is for its network and account, a finish ends it, and neither touches another plan. |
| `Refuel.OneTopUpAtATime` | internal/refuel/store.go:152-187 | In every run of quotes, claims and finishing marks a wallet has at most one top-up under way on a network. |
| `Refuel.UnderWayStays` | internal/refuel/store.go:94-187 | A top-up under way is never forgotten: in every run only a mark that finishes it ends it. |
| `Refuel.ATopUpCanStart` | internal/refuel/store.go:94-187 | After any run, a quote can be kept, claimed and finished if there is room and nothing is under way for its wallet and network. |
| `Refuel.MarkKeepsOneAtATimeIff` | internal/refuel/store.go:135-150 | A mark keeps that if and only if it finishes the plan or no other is under way. |

## Left out

- SignOnceNames.RecordNamesBeforeSending: says nothing of EVM transfers, whose hash the program does not record before broadcasting.
- SignOnceReplays.RetryAdviceIsSafe: a report of failure is taken as it comes; SolanaRetry says what it is worth on Solana, and on Tron and EVM it is the chain's own word.
- SolanaRetry.SolanaRetryIsSafe: effects are told apart from failed executions only; finality below the finalized height is not modelled.
- SendRequest.Request.SendTron: other requests move between whole requests, not inside this one, and the same for SendSolana; the protocol's runs have them anywhere.
- SolanaReader.DecodeLegacyMessage: all decoding errors are one error; the indexes stay bytes instead of being widened to integers.
- SolanaSwapChecker.VerifySwapMessage: the Raydium instruction encoders and decoders, with a pool's own accounts, are parameters.
- SolanaSwapMessages.EverySwapPasses: a message that does not fit a transaction is refused afterwards; which order of accounts the serializer chooses is left open.
- SolanaTransfers.AcceptedTransferIsHonoured: token extensions, frozen accounts and rent rules for SOL balances, on which the runtime may also refuse, are not modelled; network fees are charged apart.
- SolanaSwap.SignedSwap: pool state, tick arrays, mint decimals and frozen accounts, on which loading may also refuse, are not modelled; network fees are charged apart.
- Decimals.SolReadsBack: amounts in exponent notation, which the decimal library reads as well, are not part of the parser.
- Fees.EchoedEstimateIsSentIff: the simulations before and after, and the messages refusals carry, are not modelled.
- TronSwap.SignedStepGives: the path, the recipient and the unwrapping inside a swap's calldata are not modelled, only its protocol, amounts and deadline.
- TronSwap.SwapCalls: the checks of an amount's decimals, and of what a pool pays now, are not part of the steps.
- SpaceManager.Manager.BindNetwork: network lists are sets, labels and times are left out, and identifiers are numbers.
- SpaceLaws.KeyIsLentIff: what the borrower does with a key, and wiping it afterwards, are not modelled.
- Throttle.GuessingIsSlow: one space, with writes that succeed; without them the record is not kept.
- BalanceCache.CacheKeepsTheNewest: a cache key is a pair, not two strings joined by a NUL.
- SingleFlight.NobodyGetsAnothersCancellation: one network's slots; that a cancelled read not yet sent never leaves is not claimed, since the slot may be picked first.
- SingleFlightProgress.EveryoneCanBeAnswered: that nodes do answer in time is not claimed; deadlines are ends of contexts.
- Pacer.RequestsAreSpaced: what is spaced are reserved instants, not the moments callers wake up.
- ProviderHeaders.HomeManager.SaveNetwork: revisions, URL checks, explorers and the YAML files are one verdict.
- Settings, spaces and operations of several spaces or networks beside one another, where they do not touch.
- EVM fee approval and the field-by-field check of a Tron intent: long lists of independent comparisons.
- Failover between nodes, bounded bodies, price feeds, discovery and health checks.
- Pricing and sending a top-up, and the retry of failed balance reads: small loops without a property that spans them.
- HTTP routing, JSON and YAML coding, wording of errors, redaction of text and the user interface.
- Real cryptography, real time and file system details below an atomic write.
