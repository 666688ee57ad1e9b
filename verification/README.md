# OPN Core: models and proofs

OPN Core is the backend of an in-game phone: a world's money, messages, calls and servers,
reached over one WebSocket per device. This project models the parts of it whose promises
span many operations, and proves those promises for every input, every run or every
interleaving. `dafny verify dfyconfig.toml` checks everything.

| files | what they model |
|---|---|
| `Ledger`, `LedgerInvariants`, `LedgerTheorems`, `LedgerEffects`, `LedgerLaws`, `LedgerStore` | the ledger and the framework exchange: nine operations over accounts, transfers, holds and exchanges |
| `LockOrder`, `LedgerLocks` | the row locks of the ledger operations, one lock at a time, and that they cover what is written |
| `SendMessage`, `Delivery`, `DeliveryLaws`, `SeqTracker` | sending, fan-out and resume of a channel, from the row lock to the client's continuity tracker |
| `SessionIndex`, `Registry`, `Presence` | the connection registry, its topic index with takeovers and lazy pruning, and its presence counts |
| `Calls`, `CallLaws`, `CallStore` | one-to-one and group calls under commands, webhooks and reaps |
| `RateLimit`, `Preauth` | token buckets with idle eviction; the caps on unauthenticated sockets |
| `Servers`, `ServerLaws`, `ServerStore` | servers and the rosters they mirror into channels |
| `Eviction` | the race between a member's removal and their `sub` command |
| `Base64Url`, `Cursor`, `Paging` | page cursors and the walk along them |
| `Socket`, `SocketLaws` | the web client's reference-counted subscriptions across reconnects |
| `Common` | shared results, and sums over tables |

## How it is modelled

Tables are maps. A transaction that the database serialises is one step; where the
interleaving is the point (locks, sends, delivery, presence, pre-auth counters, the socket)
every statement, atomic operation or callback is a step of its own, and runs are arbitrary
sequences of steps. A step that is not enabled changes nothing, so "any run" needs no
side condition. Generated ids and clocks are parameters of the operations; an id that is
already a primary key is refused, as the database would, so freshness is never assumed.
Amounts are mathematical integers, and an update that leaves the 64-bit range fails and
rolls back.

Each operation is a function from the old state to the new state and the result, with the
source's branches and errors in the source's order. Code that works in place is a class
beside it whose methods are proved to do exactly that (`LedgerStore`, `Registry`,
`CallStore`, `ServerStore`, `SeqTracker`, `RateLimit`, `Preauth`, `Socket`); the properties
are proved about the functions. The files named `..Laws` say when each operation takes
effect and what it then changes, with its guards written out over the state before the call.

## Where the code and its comments disagree

The model follows the code; the exact conditions are proved.

- `exchange.rs:177-183` and `exchange.rs:363-364` call the locking of deposit and confirm
  free of deadlock without relying on the system id preceding the wallet id. The
  get-or-create upsert locks the system account before the id-ordered statement does, so
  both rely on it: `LockOrder.DepositDeadlockIff`, `LockOrder.ConfirmDeadlockIff`.
- Conservation holds for each currency exactly as long as confirms name the currency of
  their withdraw, which a tenant that changes its currency in between breaks:
  `LedgerTheorems.StepConservesEachCurrencyIff`,
  `LedgerTheorems.EachCurrencyIsZeroThroughoutIff`,
  `LedgerTheorems.CurrencyChangeBreaksTotals`. All currencies together always sum to zero.
- `socket.ts:157` closes "for good" exactly when no token is awaited and, unless the client
  is open, no auth ack can arrive by a socket other than the current one; otherwise the
  client can come open by itself: `Socket.CloseIsFinalIff`, `Socket.ClosedClientOpens`,
  `Socket.StaleAckOpens`. Connecting while an attempt is under way can leave the client
  open on a socket without its subscriptions: `Socket.ConnectIsSafeIff`,
  `Socket.InSyncThroughoutIff`.
- `exchange.rs:146-148` says a deposit under the id of something else is rejected; under
  the id of a withdraw with the same character and amount it is acked, and nothing is
  credited: `LedgerTheorems.AckedDepositWasCreditedIff`,
  `LedgerTheorems.WithdrawIdAcksADeposit`.
- `servers.rs:220` says a removed member's sockets stop getting the traffic, which holds
  exactly when no `sub` of theirs is between its membership check and its registration at
  the drop: `Eviction.DropEvictsIff`.
- `group.rs:124-129` speaks of a full room; a webhook join of a newcomer into one is
  admitted all the same, and nothing else exceeds the cap: `Calls.StepKeepsSeatsIff`.
- `ws.rs` drops a per-IP row with the last guard of its address, except that with a per-IP
  cap of zero and a positive global cap an attempt refused by the per-IP cap leaves its
  row behind: `Preauth.RowsOutliveGuardsIff`.
- Two pieces of call code are never needed: the ending branch of decline
  (`Calls.DeclineNeverEnds`) and the empty-room reap (`Calls.EmptyRoomReapFindsNothing`).

## Model

| member | source | states |
|---|---|---|
| `LedgerTheorems.HoldsStayCovered` | opn-core/crates/core/src/primitives/ledger/store.rs:225-256 | in every state any run of the nine operations reaches, the active holds of a character wallet sum to between zero and its balance |
| `LedgerTheorems.CheckNeverFires` | opn-core/crates/core/src/primitives/ledger/exchange.rs:396-407 | no operation on a reachable state ends in the balance CHECK or in an internal "vanished row" error, although capture and withdraw_confirm debit without looking at the balance |
| `LedgerTheorems.FailureChangesNothing` | opn-core/crates/core/src/primitives/ledger/store.rs:70-186 | an operation that reports an error leaves all four tables as they were |
| `LedgerTheorems.RunIsLater` | opn-core/crates/core/src/primitives/ledger/fsm.rs:29-36 | over any run journal rows stay for ever, accounts keep owner and currency, and holds and exchanges leave their open state at most once |
| `LedgerTheorems.WithdrawMatchesHold` | opn-core/crates/core/src/primitives/ledger/exchange.rs:278-303 | a withdraw exchange and its hold are in lockstep: pending with held, done with captured, expired with released, equal amounts, same owner, one hold per withdraw |
| `LedgerTheorems.PendingHoldMovesIff` | opn-core/crates/core/src/primitives/ledger/store.rs:519-552 | in any reachable state the hold of a pending withdraw changes in a step if and only if the step is its own confirm passing its guards, or expire_holds after its expiry |
| `LedgerTheorems.WithdrawSettlesAtMostOnce` | opn-core/crates/core/src/primitives/ledger/exchange.rs:323-436 | from any state and over any run the number of steps that settle a withdraw is one if it ends settled, else zero |
| `LedgerTheorems.OnlyConfirmSettles` | opn-core/crates/core/src/primitives/ledger/exchange.rs:340-429 | a step that settles a withdraw is a confirm naming its character and amount, and it moves exactly that amount from that character to a system account |
| `LedgerTheorems.ConfirmIsIdempotent` | opn-core/crates/core/src/primitives/ledger/exchange.rs:340-353 | confirming a settled withdraw again, after any further run, changes nothing and returns the stored result |
| `LedgerTheorems.TransferIsIdempotent` | opn-core/crates/core/src/primitives/ledger/store.rs:97-115 | retrying a transfer key after any further run moves nothing and acks the original transfer, whatever else the retry says |
| `LedgerTheorems.DepositIsIdempotent` | opn-core/crates/core/src/primitives/ledger/exchange.rs:130-159 | a deposit id credits once over any run: a faithful resend returns the stored result, any other request under the id is invalid |
| `LedgerTheorems.DepositUnderKnownId` | opn-core/crates/core/src/primitives/ledger/exchange.rs:130-159 | a deposit under an id in use, by a deposit or a withdraw, moves nothing at any later time: the stored state if character and amount agree, else invalid |
| `LedgerTheorems.AckedDepositWasCreditedIff` | opn-core/crates/core/src/primitives/ledger/exchange.rs:130-159 | after any run an acked deposit was credited, by this call or an earlier one, if and only if its id is not in use for a withdraw |
| `LedgerTheorems.WithdrawIdAcksADeposit` | opn-core/crates/core/src/primitives/ledger/exchange.rs:145-159 | concrete run: a deposit under the id of a pending withdraw is acked and nothing was ever credited for it |
| `LedgerTheorems.GrandTotalIsZero` | opn-core/crates/core/src/primitives/ledger/store.rs:148-177 | all balances together, system accounts included, sum to zero in every reachable state |
| `LedgerTheorems.EachCurrencySumsToZero` | opn-core/crates/core/src/primitives/ledger/exchange.rs:323-436 | over any run whose settling confirms each name the currency of their withdraw, every currency sums to zero on its own, whatever else changes currency |
| `LedgerTheorems.EachCurrencyIsZeroThroughoutIff` | opn-core/crates/core/src/primitives/ledger/exchange.rs:323-436 | every currency is at zero at every point of a run if and only if none of its confirms settles into another currency |
| `LedgerTheorems.FixedCurrencyMatches` | opn-core/crates/core/src/primitives/ledger/exchange.rs:43-50 | a tenant that keeps its currency never settles across currencies |
| `LedgerTheorems.StepConserves` | opn-core/crates/core/src/primitives/ledger/exchange.rs:361-429 | one step changes no total, of one currency or of all, unless it is a confirm that passes its guards and names another currency than its withdraw |
| `LedgerTheorems.ConfirmSettlesIff` | opn-core/crates/core/src/primitives/ledger/exchange.rs:332-407 | a confirm settles if and only if its guards hold beforehand: pending withdraw of that character and amount, nothing frozen, both balances in range, free ids |
| `LedgerTheorems.StepConservesEachCurrencyIff` | opn-core/crates/core/src/primitives/ledger/exchange.rs:332-429 | a step keeps the total of every currency if and only if it is not a confirm that passes those guards and names another currency than its withdraw |
| `LedgerTheorems.CurrencyChangeBreaksTotals` | opn-core/crates/core/src/primitives/ledger/exchange.rs:43-50 | concrete run: the tenant currency changes between withdraw and confirm, and the two currencies end at -10 and +10 |
| `LedgerTheorems.ReconcileIsQuietOnRuns` | opn-core/crates/core/src/primitives/ledger/store.rs:478-512 | reconciliation of any reachable state, cross-check included, freezes nothing, and no account is ever frozen |
| `LedgerTheorems.ReconcileIsCompleteAndIdempotent` | opn-core/crates/core/src/primitives/ledger/exchange.rs:500-528 | on any tables whatever: accounts left unfrozen agree with the journal, an unfrozen system account means the cross-check holds, a second run finds nothing more |
| `LedgerEffects.OnlyTheOwnerSpends` | opn-core/crates/core/src/primitives/ledger/store.rs:127-145 | what a character may spend, balance less active holds, falls only by their own transfer, hold or withdraw on that account; captures, settlements, deposits and the janitor never lower it |
| `LedgerEffects.TransferMovesAvailable` | opn-core/crates/core/src/primitives/ledger/store.rs:127-177 | a new transfer moves exactly its amount of spendable money from sender to recipient and touches no other account; a replay changes nothing |
| `LedgerEffects.HoldReserves` | opn-core/crates/core/src/primitives/ledger/store.rs:209-256 | a hold lowers what its account may spend by the amount, which was available, and no balance changes |
| `LedgerEffects.CaptureSpendsTheReserve` | opn-core/crates/core/src/primitives/ledger/store.rs:264-375 | a capture debits the held amount, leaves what the payer may spend as it was and adds the amount to the payee |
| `LedgerEffects.ReleaseGivesBack` | opn-core/crates/core/src/primitives/ledger/store.rs:377-408 | a release gives back exactly the held amount |
| `LedgerEffects.WithdrawReserves` | opn-core/crates/core/src/primitives/ledger/exchange.rs:248-307 | a withdraw sets its amount aside on the character wallet of that currency, where it was available |
| `LedgerEffects.DepositCreditsTheWallet` | opn-core/crates/core/src/primitives/ledger/exchange.rs:174-240 | a new deposit credits exactly its amount to the wallet of that character and currency, out of the system account of that currency, and touches no other balance |
| `LedgerLaws.HoldIsCapturedIff` | opn-core/crates/core/src/primitives/ledger/store.rs:284-375 | in any reachable state an active hold that backs no pending withdraw is captured by a step if and only if the step is a capture naming it, by the owner of its account, to another existing account of the currency, the payer not frozen, both balances staying in range, under a free id |
| `LedgerLaws.HoldIsReleasedIff` | opn-core/crates/core/src/primitives/ledger/store.rs:380-408 | and released if and only if the step is a release of it by that owner, or expire_holds after its expiry |
| `LedgerLaws.HoldAppearsIff` | opn-core/crates/core/src/primitives/ledger/store.rs:213-256 | a hold row appears if and only if the owner of the account reserves what it can spare, unfrozen, or the character of the wallet withdraws it; with that amount, expiring when asked or after an hour |
| `LedgerLaws.BalanceFallsIff` | opn-core/crates/core/src/primitives/ledger/store.rs:127-177 | in any reachable state the balance of a character falls in a step if and only if the step is a transfer, a capture or a confirm that passes its guards and pays from that account, and the step is then in the name of that character |
| `LedgerLaws.BalancesAfter` | opn-core/crates/core/src/primitives/ledger/store.rs:148-177 | every balance after every operation: moved by the one journal row the operation adds when its guards, written out over the tables, hold, and otherwise as it was |
| `LedgerLaws.JournalAfter` | opn-core/crates/core/src/primitives/ledger/store.rs:166-177 | every operation adds at most that one row: who pays whom, how much, of which kind, under the given id |
| `LedgerLaws.HoldsAfter` | opn-core/crates/core/src/primitives/ledger/store.rs:377-408 | every hold row after every operation: captured by its capture or confirm, released by its release or expiry, and otherwise as it was |
| `LedgerLaws.ExchangesAfter` | opn-core/crates/core/src/primitives/ledger/exchange.rs:278-303 | an exchange appears exactly by a deposit or withdraw passing its guards, is done by its confirm, expired behind its lapsed hold, and otherwise as it was |
| `LedgerLaws.AccountAppearsIff` | opn-core/crates/core/src/primitives/ledger/exchange.rs:61-103 | an account appears exactly as the missing system account or wallet of a deposit, or the missing system account of a confirm; in that slot, unfrozen |
| `LedgerLaws.FrozenAfter` | opn-core/crates/core/src/primitives/ledger/store.rs:478-512 | nothing but reconciliation freezes an account and nothing unfreezes one |
| `LedgerLaws.FreezesExactly` | opn-core/crates/core/src/primitives/ledger/exchange.rs:500-528 | on any tables reconciliation freezes an unfrozen account exactly if its balance is not what the journal says, or it is a system account while done exchanges and journal legs of a direction differ |
| `LedgerLaws.TransferAnswers` | opn-core/crates/core/src/primitives/ledger/store.rs:97-146 | a transfer answers new exactly when its guards hold, the original for a used key of the owner, forbidden exactly for an account of somebody else, not found exactly for a missing one |
| `LedgerLaws.HoldAnswers` | opn-core/crates/core/src/primitives/ledger/store.rs:213-256 | a hold is granted exactly when its guards hold, forbidden exactly on an account of somebody else, not found exactly without one |
| `LedgerLaws.CaptureAnswers` | opn-core/crates/core/src/primitives/ledger/store.rs:284-375 | a capture succeeds exactly when its guards hold, is forbidden exactly for somebody who does not own the account of a visible hold, not found exactly for an invisible hold or a missing payee |
| `LedgerLaws.ReleaseAnswers` | opn-core/crates/core/src/primitives/ledger/store.rs:380-408 | a release succeeds exactly for the owner of an active visible hold, is forbidden exactly for anybody else |
| `LedgerLaws.DepositAnswers` | opn-core/crates/core/src/primitives/ledger/exchange.rs:130-240 | a deposit answers new exactly when its guards hold, the stored result exactly for a matching resend, not found exactly for an unknown character |
| `LedgerLaws.WithdrawAnswers` | opn-core/crates/core/src/primitives/ledger/exchange.rs:248-307 | a withdraw succeeds exactly when its guards hold |
| `LedgerLaws.ConfirmAnswers` | opn-core/crates/core/src/primitives/ledger/exchange.rs:332-407 | a confirm succeeds exactly when its guards hold or the withdraw it describes is done, is invalid exactly for another character or amount, not found exactly without such a withdraw |
| `LedgerInvariants.StepKeepsInv` | opn-core/crates/core/src/primitives/ledger/store.rs:70-186 | every operation keeps the whole invariant: unique slots and keys, references, journal balances, covered holds, lockstep, exchange sums |
| `LedgerStore.Store.DoTransfer` | opn-core/crates/core/src/primitives/ledger/store.rs:70-186 | new tables and result are exactly those of the transfer specification: replay of the key, both lookups, owner, freeze, currency, available balance, two updates and the journal row, errors in that order |
| `LedgerStore.Store.DoHold` | opn-core/crates/core/src/primitives/ledger/store.rs:213-256 | new tables and result are exactly those of the hold specification: a held row only if balance minus held covers it |
| `LedgerStore.Store.DoCapture` | opn-core/crates/core/src/primitives/ledger/store.rs:272-375 | new tables and result are exactly those of the capture specification: hidden holds, owner, state machine, self-capture, freeze and currency refusals, then debit, credit, journal row and captured state |
| `LedgerStore.Store.DoRelease` | opn-core/crates/core/src/primitives/ledger/store.rs:380-408 | new tables and result are exactly those of the release specification |
| `LedgerStore.Store.GetOrCreateAccount` | opn-core/crates/core/src/primitives/ledger/exchange.rs:61-103 | finds the one account of the slot or inserts an empty one |
| `LedgerStore.Store.DoDeposit` | opn-core/crates/core/src/primitives/ledger/exchange.rs:120-240 | new tables and result are exactly those of the deposit specification: replay, accounts on first touch, frozen system refusal, posting and exchange row |
| `LedgerStore.Store.DoWithdraw` | opn-core/crates/core/src/primitives/ledger/exchange.rs:248-307 | new tables and result are exactly those of the withdraw specification: a hold and a pending exchange on it, nothing moved |
| `LedgerStore.Store.DoWithdrawConfirm` | opn-core/crates/core/src/primitives/ledger/exchange.rs:323-436 | new tables and result are exactly those of the confirm specification: mismatch, replay, expiry and freeze answers, then capture of the hold and the withdraw leg |
| `LedgerStore.Store.ExpireHolds` | opn-core/crates/core/src/primitives/ledger/store.rs:519-552 | both updates row by row: exchanges behind lapsed holds first, then the holds |
| `LedgerStore.Store.HasDrifted` | opn-core/crates/core/src/primitives/ledger/store.rs:484-500 | the recomputation of one balance by summing the journal |
| `LedgerStore.Store.CrossCheck` | opn-core/crates/core/src/primitives/ledger/exchange.rs:500-528 | four sums over the tables; on a mismatch the unfrozen system accounts, else nothing |
| `LedgerStore.Store.Reconcile` | opn-core/crates/core/src/primitives/ledger/store.rs:478-512 | the account recompute, then the cross-check, freeze what the specification says |
| `Query.Total` | opn-core/crates/core/src/primitives/ledger/store.rs:194-207 | the loop computes the SUM of a column over a table |
| `LockOrder.NoDeadlock` | opn-core/crates/core/src/primitives/ledger/store.rs:117-125 | transfer, hold, capture, release, withdraw and the expiry sweep, lock by lock, rows skipped and aborts anywhere, never deadlock; deposits and confirms may join if the system id precedes the wallet id |
| `LockOrder.SomeoneCanStep` | opn-core/crates/core/src/primitives/ledger/store.rs:291-320 | following who blocks whom, past the janitor if need be, leads from any transaction to one that can go on |
| `LockOrder.ReservedIsFree` | opn-core/crates/core/src/primitives/ledger/store.rs:524-531 | nobody ever waits for the hold behind a withdraw: confirm and expiry sweep own its exchange row first |
| `LockOrder.DepositDeadlockIff` | opn-core/crates/core/src/primitives/ledger/exchange.rs:174-190 | runs whose deposits pair one system account with one wallet can deadlock if and only if the wallet id is the smaller |
| `LockOrder.ConfirmDeadlockIff` | opn-core/crates/core/src/primitives/ledger/exchange.rs:361-381 | the same of runs whose confirms do: the system row is locked before the hold and the id-ordered accounts |
| `LedgerLocks.BalancesAreLocked` | opn-core/crates/core/src/primitives/ledger/store.rs:117-125 | every account whose balance an operation changes, or on which it reserves, is among the rows the operation locks |
| `LedgerLocks.HoldsAreLocked` | opn-core/crates/core/src/primitives/ledger/store.rs:284-299 | every hold whose state an operation changes is among the rows it locks, the one behind a pending withdraw with its exchange |
| `LedgerLocks.ExchangesAreLocked` | opn-core/crates/core/src/primitives/ledger/exchange.rs:323-340 | every exchange an operation changes is among the rows it locks |
| `SendMessage.SeqsAreGapless` | opn-core/crates/core/src/primitives/channels/store.rs:45-136 | with sends interleaved statement by statement and dying anywhere, the committed seqs are 1..last_seq in commit order |
| `SendMessage.OneMessagePerClient` | opn-core/crates/core/src/primitives/channels/store.rs:78-103 | a channel has at most one message per client uuid |
| `SendMessage.RetriesAckTheOriginal` | opn-core/crates/core/src/primitives/channels/store.rs:78-103 | all acks for one client uuid carry the same id and seq |
| `SendMessage.RetryIsANoOp` | opn-core/crates/core/src/primitives/channels/store.rs:45-136 | in any reachable state a whole retry on an idle channel, membership check to ack, changes nothing but one more ack, with the id and seq of the original |
| `SendMessage.OneFanOutPerClient` | opn-core/crates/core/src/primitives/channels/mod.rs:77-89 | of the sends with one client uuid at most one is acked as new, so at most one fans out |
| `SendMessage.UndisturbedSend` | opn-core/crates/core/src/primitives/channels/store.rs:45-136 | in any reachable state a first send of a member on an idle channel becomes the next message and is acked as new with its seq |
| `SendMessage.MessagesAreFromMembers` | opn-core/crates/core/src/primitives/channels/store.rs:45-60 | over any run every message is from somebody who was a member when its send began, under the client uuid given then |
| `Delivery.RowsAreTheNextSeqs` | opn-core/crates/core/src/primitives/channels/store.rs:774-792 | the replay read returns the seqs just above the watermark, ascending without a hole, and all of them below the cap |
| `Delivery.ReplayIsWhatWasAskedFor` | opn-core/crates/core/src/gateway/dispatch.rs:145-156 | over any run, if a sub was accepted with watermark f and no later one was, what is read and served is exactly the committed seqs above f, in order, at most 500, as of a read after that sub, all of them enqueued before the ack, with the overflow marker if there were 500 |
| `Delivery.ResumeIsTheOneAskedFor` | opn-core/crates/core/src/gateway/dispatch.rs:152-154 | the resume in progress or served carries the watermark of the sub that asked for it, and is given up only on a closed connection |
| `DeliveryLaws.UndisturbedResume` | opn-core/crates/core/src/primitives/channels/mod.rs:218-253 | on an open connection with an empty queue a resume after f that nothing disturbs brings exactly the committed messages above f in order, then the overflow marker if there were 500, then the ack, and leaves the client subscribed |
| `DeliveryLaws.ClosesIff` | opn-core/crates/core/src/gateway/registry.rs:103-128 | in any reachable state an open connection closes in a step if and only if it is closed or a frame pushed without waiting finds no room |
| `DeliveryLaws.PublishReachesTheSubscriber` | opn-core/crates/core/src/gateway/registry.rs:246-268 | in any reachable state a publish is one message frame for the current subscriber with room, and happens once for each message |
| `Delivery.NothingFallsBetween` | opn-core/crates/core/src/gateway/dispatch.rs:145-156 | if a sub was accepted with watermark f and no later one was, then after a replay of fewer than 500 rows each committed message above f is in it, enqueued, or still to be published, unless the connection was closed, superseded or unsubscribed |
| `Delivery.ServedMeansCoveredOrTold` | opn-core/crates/core/src/primitives/channels/mod.rs:218-253 | a served resume loses nothing above the watermark of its sub silently: each message is enqueued or about to be, or the overflow marker precedes the ack |
| `Delivery.AckMeansCaughtUp` | opn-core/crates/loadgen/src/driver.rs:440-475 | a client whose last accepted sub named its frontier, or 0 if it had seen nothing, without overflow and with the ack, is at last_seq of the replay read or beyond, hole-free, however live events mixed in |
| `Delivery.QuiescentClientHasEverything` | opn-core/crates/loadgen/src/driver.rs:222-251 | when nothing is left to publish such a client has every message from its first on, the first-time client every message there is |
| `SeqTracker.Tracker.Observe` | opn-core/crates/loadgen/src/driver.rs:223-241 | whatever arrives, the frontier is the end of the contiguous stretch from the first seq seen and pending is what lies above it |
| `SeqTracker.Tracker.Gaps` | opn-core/crates/loadgen/src/driver.rs:254-264 | the number of seqs between the first and the largest seen that never arrived, the subtraction never below zero |
| `SeqTracker.FrontierIsLargestContiguous` | opn-core/crates/loadgen/src/driver.rs:213-251 | the frontier bounds exactly the contiguous seqs |
| `SeqTracker.OrderDoesNotMatter` | opn-core/crates/loadgen/src/driver.rs:205-212 | two histories with the same first arrival and the same set of seqs agree on frontier and holes |
| `SeqTracker.ResumeClosesTheGap` | opn-core/crates/loadgen/src/driver.rs:243-251 | receiving every seq of the gap in any order, mixed with anything, brings the frontier past it |
| `SeqTracker.FirstResumeClosesTheGap` | opn-core/crates/loadgen/src/driver.rs:440-447 | a client that had seen nothing resumes from 0 and misses nothing from its first arrival on |
| `SeqTracker.ResumeCatchesUp` | opn-core/crates/loadgen/src/driver.rs:440-447 | for both kinds of client, receiving everything above the watermark leaves no seq of the stream missing |
| `SessionIndex.PublishIsExactOnRuns` | opn-core/crates/core/src/gateway/registry.rs:246-268 | after any run of register, takeover, subscribe, unsubscribe, drop_character_topic, unregister and publish, a publish sends to exactly the connections that are current, in that world and hold the topic, each once |
| `SessionIndex.WhoReceivesAfter` | opn-core/crates/core/src/gateway/registry.rs:160-302 | after any run, who a publish reaches after one more event: a subscription adds its current connection, an unsubscription, a drop, a cleanup and a takeover take away exactly theirs |
| `SessionIndex.WhoIsRegisteredAfter` | opn-core/crates/core/src/gateway/registry.rs:165-206 | a connection is registered until its cleanup, and current until that or a newer one of its session |
| `SessionIndex.WhatIsHeldAfter` | opn-core/crates/core/src/gateway/registry.rs:208-302 | the topics of a registered connection change by its own sub and unsub and by a drop of its character while it is current, and in no other way |
| `SessionIndex.PublishIsTheScan` | opn-core/crates/core/src/gateway/registry.rs:246-268 | in any state that keeps the index invariant the publish list, filtered by current sessions, is the scan over live connections, without duplicates |
| `SessionIndex.StepKeepsInv` | opn-core/crates/core/src/gateway/registry.rs:160-302 | every operation keeps the index invariant: entries belong to registered holders, current holders are listed, presence counts registrations |
| `SessionIndex.CleanupSparesOthers` | opn-core/crates/core/src/gateway/registry.rs:182-206 | a connection cleaning up after itself, late or not, takes nobody else off any topic and itself off all |
| `SessionIndex.PresenceIsExactOnRuns` | opn-core/crates/core/src/gateway/registry.rs:320-324 | the count of a character is its registered connections, a row exists only for a positive one |
| `Registry.SendIsOrderlyAndBounded` | opn-core/crates/core/src/gateway/registry.rs:103-146 | a send keeps the order and the bound of the queue; a durable frame is lost only by closing, an ephemeral one never closes nor takes the last slots; the first close code stays |
| `Registry.SendSucceedsIff` | opn-core/crates/core/src/gateway/registry.rs:103-146 | a durable frame is queued exactly if the writer is there and a slot is free, and else closes an open connection with 4409; an ephemeral one is queued exactly with more than a fifth of the slots free, and else dropped |
| `Registry.ConnHandle.Close` | opn-core/crates/core/src/gateway/registry.rs:85-94 | the first close code wins |
| `Registry.ConnHandle.SendAck` | opn-core/crates/core/src/gateway/registry.rs:103-108 | an ack is queued or closes the connection as a slow consumer |
| `Registry.ConnHandle.SendEvt` | opn-core/crates/core/src/gateway/registry.rs:130-146 | durable and ephemeral delivery as specified, headroom rule included |
| `Registry.SessionRegistry.Register` | opn-core/crates/core/src/gateway/registry.rs:165-177 | last writer wins: the previous handle is returned, and came_online holds exactly when the character had no connection |
| `Registry.SessionRegistry.Unregister` | opn-core/crates/core/src/gateway/registry.rs:182-206 | removes the session only if still its own, all its entries and one count; went_offline holds exactly when none is left |
| `Registry.SessionRegistry.Subscribe` | opn-core/crates/core/src/gateway/registry.rs:208-219 | adds the topic and one entry, once |
| `Registry.SessionRegistry.Unsubscribe` | opn-core/crates/core/src/gateway/registry.rs:221-228 | takes topic and entry away again, an emptied list with them |
| `Registry.SessionRegistry.PublishLocal` | opn-core/crates/core/src/gateway/registry.rs:246-268 | every live holder gets the frame on its channel once, no other channel changes, stale entries are pruned |
| `Registry.SessionRegistry.DropCharacterTopic` | opn-core/crates/core/src/gateway/registry.rs:292-302 | the topic is taken from exactly the current connections of that character in that world |
| `SessionIndex.DropLeaves` | opn-core/crates/core/src/gateway/registry.rs:292-302 | in whatever order the sessions come, the topic is gone from exactly the current connections of that character |
| `Presence.CountIsExact` | opn-core/crates/core/src/gateway/registry.rs:165-206 | with the decrement and the remove-if-zero of unregister as separate steps anywhere in between, the count is the live connections and came_online and went_offline alternate |
| `Presence.RemovalSparesTheReturned` | opn-core/crates/core/src/gateway/registry.rs:201-203 | a late removal leaves the row of a character that is back |
| `Presence.CountDownNeverSaturates` | opn-core/crates/core/src/gateway/registry.rs:193-200 | a live connection finds its row present and positive |
| `Presence.SettledTableHasNoZeroRows` | opn-core/crates/core/src/gateway/registry.rs:193-203 | with no removal outstanding a row exists exactly for characters with a connection |
| `Calls.OpenCallsAreOccupied` | opn-core/crates/core/src/primitives/calls/store.rs:104-269 | over any run of commands, webhooks and reaps an open call has a joined participant, and a ringing one is one-to-one with exactly one |
| `Calls.CallsOnlyMoveForward` | opn-core/crates/core/src/primitives/calls/fsm.rs:46-81 | over any run a call moves only forward through ringing, active, ended, and keeps world, topology, participants and first-join stamps |
| `Calls.DeclineNeverEnds` | opn-core/crates/core/src/primitives/calls/fsm.rs:62-71 | on reachable states decline never changes the session, its ending branch is dead |
| `Calls.HangupEndsIffLast` | opn-core/crates/core/src/primitives/calls/fsm.rs:72-81 | a hangup ends the call if and only if nobody else is joined, and always ends a ring |
| `Calls.LeaveEndsIffLast` | opn-core/crates/core/src/primitives/calls/store.rs:672-701 | leaving an open room ends it if and only if nobody else is joined |
| `Calls.EmptyRoomReapFindsNothing` | opn-core/crates/core/src/primitives/calls/store.rs:763-789 | on reachable states the empty-room reap never ends anything |
| `Calls.OnlyTheCreatorEndsIff` | opn-core/crates/core/src/primitives/calls/store.rs:705-740 | at every point after the opening of a room group_end serves its opener and nobody else if and only if no later join displaces them |
| `Calls.StepKeepsCreatorIff` | opn-core/crates/core/src/primitives/calls/store.rs:713-731 | a step leaves a room its creator if and only if it is not an admitted first join stamped earlier, or at the same instant with the smaller id |
| `Calls.OnlyTheCreatorEnds` | opn-core/crates/core/src/primitives/calls/store.rs:705-740 | after any run without such a join group_end serves exactly the opener |
| `Calls.NewcomerBecomesCreatorIff` | opn-core/crates/core/src/primitives/calls/store.rs:713-731 | a join displaces the creator exactly when its first stamp is earlier, or equal with the smaller id |
| `Calls.StepKeepsSeatsIff` | opn-core/crates/core/src/primitives/calls/store.rs:819-865 | a step keeps every room within the cap if and only if it is not a webhook join of a newcomer into a room whose seats are taken |
| `Calls.SeatsHoldThroughoutIff` | opn-core/crates/core/src/primitives/calls/group.rs:130-138 | rooms stay within the cap all along a run if and only if the run has no such webhook join |
| `Calls.SeatsStayWithinTheCap` | opn-core/crates/core/src/primitives/calls/group.rs:130-138 | after any run without such a webhook join no room seats more than the cap |
| `Calls.WebhookJoinIgnoresTheCap` | opn-core/crates/core/src/primitives/calls/store.rs:838-850 | such a run exists: a webhook seats two where the cap of one refuses the command |
| `CallLaws.AcceptConnectsIff` | opn-core/crates/core/src/primitives/calls/fsm.rs:51-59 | in any reachable state an accept succeeds if and only if the call is of the world and not ended and the actor is a participant being rung; the call is then active, the actor joined with the stamp of the first join, everybody else as before |
| `CallLaws.DeclineRefusesIff` | opn-core/crates/core/src/primitives/calls/fsm.rs:60-69 | a decline succeeds under the same guards, and the call stays as it was but for the row of the actor |
| `CallLaws.HangupLeavesIff` | opn-core/crates/core/src/primitives/calls/fsm.rs:70-81 | a hangup succeeds exactly for somebody joined in an open call, and ends it exactly for the last of them |
| `CallLaws.CallThenAcceptConnects` | opn-core/crates/core/src/primitives/calls/store.rs:104-269 | after any run: calling somebody free and their accept leave both joined in one active call |
| `CallLaws.CallAppearsIff` | opn-core/crates/core/src/primitives/calls/store.rs:104-176 | a call appears exactly when somebody else who is free is called, caller in and callee rung, or a room is opened under the cap with its creator in; none disappears |
| `CallLaws.PartsAfter` | opn-core/crates/core/src/primitives/calls/store.rs:184-269 | every participant row after every event: joined by an accept or an admitted join with the first stamp, declined, left, and otherwise as it was |
| `CallLaws.SessionAfter` | opn-core/crates/core/src/primitives/calls/fsm.rs:46-81 | in any reachable state every session after every event: active by an accept, ended by exactly the ending events with their guards written out, and otherwise as it was |
| `CallLaws.TransitAnswers` | opn-core/crates/core/src/primitives/calls/store.rs:184-269 | not found, forbidden and conflict of the three transitions, each exactly when |
| `CallLaws.StartAnswers` | opn-core/crates/core/src/primitives/calls/store.rs:104-176 | not found, invalid and conflict of a call to a number, each exactly when |
| `CallLaws.GroupCreateAnswers` | opn-core/crates/core/src/primitives/calls/store.rs:572-615 | a room is answered exactly when it opens, conflict exactly when the world has as many active rooms as allowed |
| `CallLaws.RoomAnswers` | opn-core/crates/core/src/primitives/calls/store.rs:621-740 | a join succeeds exactly for an open room with a seat free, a leave for anybody with a row, an end for the creator; not found exactly without such a room |
| `CallStore.Store.Start` | opn-core/crates/core/src/primitives/calls/store.rs:104-176 | new table and result are exactly those of the start specification: unknown number, self-call and busy refusals, else caller joined and callee ringing |
| `CallStore.Store.Transit` | opn-core/crates/core/src/primitives/calls/store.rs:184-269 | new table and result of accept, decline and hangup are those of the transition table on the actor and the states of the others |
| `CallStore.Store.GroupCreate` | opn-core/crates/core/src/primitives/calls/store.rs:572-615 | an active room with its creator joined, unless the world has as many active rooms as allowed |
| `CallStore.Store.GroupJoin` | opn-core/crates/core/src/primitives/calls/store.rs:621-668 | joined with the first stamp kept, unless ended or full; the own seat is not counted |
| `CallStore.Store.GroupLeave` | opn-core/crates/core/src/primitives/calls/store.rs:672-701 | left, and the session ended if that emptied it |
| `CallStore.Store.EndedIfEmpty` | opn-core/crates/core/src/primitives/calls/store.rs:745-756 | ends the session unless somebody is joined |
| `CallStore.Store.EarliestJoiner` | opn-core/crates/core/src/primitives/calls/store.rs:717-726 | finds the earliest stamped participant, ties by id |
| `CallStore.Store.GroupEnd` | opn-core/crates/core/src/primitives/calls/store.rs:705-740 | ended for the earliest joiner, forbidden for anybody else |
| `CallStore.Store.WebhookParticipant` | opn-core/crates/core/src/primitives/calls/store.rs:819-865 | joins or leaves without admission rules, unknown rooms ignored |
| `CallStore.Store.WebhookFinished` | opn-core/crates/core/src/primitives/calls/store.rs:869-887 | ends the room, unknown rooms and one-to-one calls ignored |
| `CallStore.Store.ReapZombieRings` | opn-core/crates/core/src/primitives/calls/store.rs:488-525 | ends exactly the rings older than a minute and returns their ids |
| `CallStore.Store.EndActiveOrphans` | opn-core/crates/core/src/primitives/calls/store.rs:431-475 | ends exactly the given calls that are still active |
| `CallStore.Store.ReapEmptyRooms` | opn-core/crates/core/src/primitives/calls/store.rs:763-789 | changes nothing and returns nothing |
| `RateLimit.WindowBound` | opn-core/crates/core/src/infra/ratelimit.rs:153-178 | in any window of any run, sweeps included, at most burst + rate * length commands of a character and class are admitted |
| `RateLimit.BurstIsExact` | opn-core/crates/core/src/infra/ratelimit.rs:27-35 | the bound is reached: of n checks at one instant a bucket of level k admits min(n, k) |
| `RateLimit.SweepsChangeNoDecision` | opn-core/crates/core/src/infra/ratelimit.rs:182-192 | the answers of a run are those of the same run without its sweeps |
| `RateLimit.IdleMeansFull` | opn-core/crates/core/src/infra/ratelimit.rs:134 | ten idle minutes refill every class |
| `RateLimit.SweepTakesTheIdle` | opn-core/crates/core/src/infra/ratelimit.rs:182-192 | a sweep takes exactly the buckets idle for ten minutes, all of them full again |
| `RateLimit.RetryAfterIsExact` | opn-core/crates/core/src/infra/ratelimit.rs:165-177 | after a refusal the next check is admitted from retry_after + 1 ms on and refused before retry_after |
| `RateLimit.RateLimitTable.Check` | opn-core/crates/core/src/infra/ratelimit.rs:153-178 | one check in place: the new bucket and the decision |
| `RateLimit.RateLimitTable.SweepIdle` | opn-core/crates/core/src/infra/ratelimit.rs:182-192 | removes exactly the idle buckets and counts them |
| `Preauth.GuardsStayWithinCaps` | opn-core/crates/core/src/gateway/ws.rs:40-57 | with every atomic operation a separate step, guards never exceed the global or the per-IP cap |
| `Preauth.GlobalCountsExactly` | opn-core/crates/core/src/gateway/ws.rs:34-57 | the global counter is the guards plus the attempts in flight |
| `Preauth.ReleaseFindsItsRow` | opn-core/crates/core/src/gateway/ws.rs:67-75 | a dropping guard finds its row positive, so no release is lost or counted twice |
| `Preauth.QuiescentIsClean` | opn-core/crates/core/src/gateway/ws.rs:67-75 | with nothing under way nothing is counted, and with a positive per-IP cap no row is left |
| `Preauth.RowsOutliveGuardsIff` | opn-core/crates/core/src/gateway/ws.rs:40-75 | for any caps and address, a run can end with nothing under way and yet a row for the address if and only if the per-IP cap is zero and the global cap is not |
| `Preauth.RefusalLeavesARow` | opn-core/crates/core/src/gateway/ws.rs:45-50 | the run that does: one attempt refused by the per-IP cap |
| `PreauthGuard.AcquireThenDropRestores` | opn-core/crates/core/src/gateway/ws.rs:40-75 | undisturbed, a guard is granted exactly below both caps and its drop restores the counters |
| `PreauthGuard.PreauthCaps.TryAcquire` | opn-core/crates/core/src/gateway/ws.rs:40-57 | run alone, the attempt is the composition of its atomic steps |
| `PreauthGuard.PreauthCaps.Release` | opn-core/crates/core/src/gateway/ws.rs:67-75 | run alone, the drop is the composition of its three steps |
| `Servers.RostersMirrorTheServer` | opn-core/crates/core/src/primitives/servers.rs:115-319 | over any run of server and channel commands each server channel has exactly the members of its server, the owner among them, at most 200 members and 50 channels |
| `Servers.RemovalIsComplete` | opn-core/crates/core/src/primitives/servers.rs:179-228 | a removal takes the target out of the server and of all its channels and names exactly those channels for the subscription drop |
| `ServerLaws.MemberLeavesIff` | opn-core/crates/core/src/primitives/servers.rs:179-207 | after any run a member leaves a server in a step if and only if the step is a removal naming them in the world of the server, by its owner or by themselves, and they are not the owner |
| `ServerLaws.MemberEntersIff` | opn-core/crates/core/src/primitives/servers.rs:136-178 | after any run a character enters a server in a step if and only if its owner adds them in its world, they live there and the server has fewer than 200 members |
| `ServerLaws.MemberChangeAnswers` | opn-core/crates/core/src/primitives/servers.rs:115-207 | not found, forbidden, invalid, conflict and ok of adding and removing, each exactly when |
| `ServerLaws.ServerAppearsIff` | opn-core/crates/core/src/primitives/servers.rs:30-74 | a server appears exactly when created under a name of 1 to 128 bytes without a dead banner, its creator alone in it; none disappears or changes hands |
| `ServerLaws.ChannelAppearsIff` | opn-core/crates/core/src/primitives/servers.rs:256-319 | after any run a channel appears exactly when the owner opens one of fewer than 50 on the server, a group is opened with distinct others of the world, or a first thread with somebody else; with exactly those people in it |
| `ServerLaws.RosterAfter` | opn-core/crates/core/src/primitives/channels/store.rs:660-728 | after any run, who is in a channel after one more event: the members of its server, else as the members of a plain group change it, else as before |
| `ServerLaws.GroupChangeAnswers` | opn-core/crates/core/src/primitives/channels/store.rs:660-728 | not found, conflict, forbidden and ok of a change of a plain group, each exactly when |
| `ServerLaws.CreateAnswers` | opn-core/crates/core/src/primitives/servers.rs:30-74 | a server is answered with its id exactly under a good name without a dead banner and with a free id, else invalid |
| `ServerLaws.ChannelCreateAnswers` | opn-core/crates/core/src/primitives/servers.rs:256-319 | invalid, not found, forbidden and ok of a new server channel, each exactly when |
| `ServerLaws.CreateGroupAnswers` | opn-core/crates/core/src/primitives/channels/store.rs:216-260 | a group is answered with its id exactly when it opens, invalid exactly when somebody named is missing or named twice |
| `ServerLaws.OpenDirectAnswers` | opn-core/crates/core/src/primitives/channels/store.rs:142-211 | after any run an opened direct thread is the one of the two parties; not found exactly for an unknown number, invalid exactly for the own |
| `Eviction.DropEvictsIff` | opn-core/crates/core/src/primitives/servers.rs:219-228 | with membership check, registration, removal and drop as separate steps, and the rest of the registry running, the drop takes the removed character off the traffic for good if and only if none of their sub commands is between its check and its registration on a current connection |
| `Eviction.LateSubHears` | opn-core/crates/core/src/gateway/dispatch.rs:145-151 | such a sub is registered after the drop, and the removed character hears the channel |
| `Eviction.RemovedMemberIsEvictedIff` | opn-core/crates/core/src/primitives/servers.rs:179-228 | from the removal on: after any run, removing a member and dropping the topic silences them for good if and only if no sub of theirs is pending |
| `Eviction.LateSubIsReachable` | opn-core/crates/core/src/gateway/dispatch.rs:145-151 | such a pending sub of a member occurs in a run |
| `Servers.AddThenRemoveRestores` | opn-core/crates/core/src/primitives/servers.rs:136-207 | adding a member and removing it again restores every roster |
| `Servers.MembersStay` | opn-core/crates/core/src/primitives/servers.rs:115-251 | over any run that does not remove them, a member stays in the server and in each of its channels, and adding them again does nothing and succeeds exactly while the server is not full |
| `Servers.DirectThreadIsItsPair` | opn-core/crates/core/src/primitives/channels/store.rs:660-684 | no run changes who is in a direct thread |
| `Servers.OpenDirectFindsTheThread` | opn-core/crates/core/src/primitives/channels/store.rs:142-211 | a direct thread once opened is found again by either party, after any further run |
| `ServerStore.Store.CreateServer` | opn-core/crates/core/src/primitives/servers.rs:30-74 | a server with its creator as owner and only member; bad names and dead banners are invalid |
| `ServerStore.Store.ChangeMember` | opn-core/crates/core/src/primitives/servers.rs:115-251 | new tables and result of member_add and member_remove, refusals in the source order, are those of the specification; a removal returns the channels to drop |
| `ServerStore.Store.Mirror` | opn-core/crates/core/src/primitives/servers.rs:165-207 | one row per channel of the server, no other channel touched |
| `ServerStore.Store.CreateChannel` | opn-core/crates/core/src/primitives/servers.rs:256-319 | a channel carrying the whole roster of its server; refusals in the source order |
| `ServerStore.Store.ChangeGroup` | opn-core/crates/core/src/primitives/channels/store.rs:660-728 | plain groups only: server channels and direct threads conflict, outsiders are forbidden; says whether the roster changed |
| `ServerStore.Store.OpenThread` | opn-core/crates/core/src/primitives/channels/store.rs:142-211 | finds the one thread of the ordered pair or opens it |
| `ServerStore.Store.OpenGroup` | opn-core/crates/core/src/primitives/channels/store.rs:216-260 | a group of the creator and the given distinct characters of the world, else invalid |
| `Base64Url.DecodeAfterEncode` | opn-core/crates/core/src/infra/cursor.rs:32 | decoding what was encoded gives the bytes back |
| `Base64Url.EncodeAfterDecode` | opn-core/crates/core/src/infra/cursor.rs:38-40 | a string decodes only if it is the encoding of the result: padding and stray bits are refused |
| `Base64Url.KnownEncodings` | opn-core/crates/core/src/infra/cursor.rs:32 | the encodings of the published vectors, and of the two characters of the url alphabet |
| `Cursor.CursorRoundTrip` | opn-core/crates/core/src/infra/cursor.rs:27-46 | a cursor comes back cut to the microsecond, and unchanged if and only if it was a whole number of them |
| `Cursor.SpelledCursorsAgree` | opn-core/crates/core/src/infra/cursor.rs:37-46 | whatever white space, letter case and uuid layout a position is spelled in, it decodes like the one the server wrote |
| `Paging.WalkReadsInOrder` | opn-core/crates/core/src/infra/cursor.rs:57-76 | after k pages the first k * limit rows were read in order, a next cursor exists exactly while rows remain |
| `Paging.ClampIsNearest` | opn-core/crates/core/src/primitives/ledger/store.rs:429 | a limit from 1 to 100 is taken as it is, any other as the nearest of these |
| `Paging.FullWalkVisitsEverything` | opn-core/crates/core/src/primitives/ledger/store.rs:423-470 | a finished walk read every row of the first table once, newest first, in max(1, ceil(n / limit)) pages, whatever changed above the cursor meanwhile |
| `PagedHistory.CursorsVisitEverything` | opn-core/crates/core/src/primitives/ledger/store.rs:423-470 | a finished reading whose positions go through encode and decode returned every stored row once, newest first, in the least number of pages |
| `PagedHistory.NextRequestIsAnswered` | opn-core/crates/core/src/primitives/ledger/store.rs:423-470 | an unfinished walk can always be continued with its cursor |
| `Socket.RefsCountOpenHandles` | opn-web/src/socket.ts:196-222 | over every run the count of a topic is the number of its unsubscribe functions not yet called |
| `Socket.OpenMeansInSync` | opn-web/src/socket.ts:107-155 | while open, the frames sent on the current connection subscribe exactly the topics with references, over runs that do not call connect() while an attempt is under way |
| `Socket.ConnectIsSafeIff` | opn-web/src/socket.ts:107-118 | after any such run, a connect() call keeps that agreement for good if and only if it does nothing or no attempt is under way |
| `Socket.CloseThenConnectBreaks` | opn-web/src/socket.ts:158-169 | concrete run: close() while the token is awaited, then connect() |
| `Socket.CloseIsFinalIff` | opn-web/src/socket.ts:157-169 | after any run whatever, close() is for good, the client not open again until connect() is called, if and only if no token is awaited and, unless the client is open, no auth ack can arrive by a socket other than the current one |
| `Socket.CloseIsFinalWhenCalm` | opn-web/src/socket.ts:157-169 | after runs that do not call connect() while an attempt is under way the awaited token alone decides |
| `Socket.StaleAckOpens` | opn-web/src/socket.ts:157-169 | concrete run: closed with no token awaited, the client comes open by the ack of a first socket that a second token had replaced |
| `Socket.InSyncThroughoutIff` | opn-web/src/socket.ts:107-155 | any run whatever keeps frames and counts in agreement all along if and only if it has none of the steps that break it: a second token, an ack or a subscription the current socket cannot be sent |
| `Socket.FixedTokenIsSafe` | opn-web/src/socket.ts:117-121 | with a fixed token no attempts overlap: every run is in sync while open and every close() is for good |
| `Socket.RejectionRetriesOnce` | opn-web/src/socket.ts:318-329 | until a token is accepted at most one rejected token leads to a reconnect, and none with a fixed token |
| `SocketLaws.LostConnectionReconnectsIff` | opn-web/src/socket.ts:300-329 | after any run, for either kind of token and every code, the close of the current socket with no timer pending arms the reconnect timer if and only if the client was not closed manually, the code is neither 4408 nor 4400, and if it is 4401 there is a provider not yet retried |
| `SocketLaws.ReconnectIsScheduledIff` | opn-web/src/socket.ts:313-341 | the timer after any event in any state: armed by such a close or a failing token, disarmed by close(), by firing and by a connect() that does something |
| `SocketLaws.ArmedClientComesBack` | opn-web/src/socket.ts:107-155 | an armed client that is down comes open again on a new socket, with exactly the topics still referenced subscribed and the kept commands handed over in order |
| `SocketLaws.LostConnectionComesBack` | opn-web/src/socket.ts:300-341 | after any run, an open client that loses its connection for a reason that allows a reconnect is armed and comes back in sync |
| `SocketLaws.PhaseAfter` | opn-web/src/socket.ts:107-155 | the state after any event: open by an ack that can arrive, connecting by a dial, closed by a lost connection, a failing token or a close() without a socket |
| `SocketLaws.CommandsAfter` | opn-web/src/socket.ts:158-187 | what becomes of a new command and of those kept, after any event |
| `Socket.ClosedClientOpens` | opn-web/src/socket.ts:157-169 | concrete run: closed while the token is awaited, the client comes open by itself |
| `Socket.CommandsSettleOnceInOrder` | opn-web/src/socket.ts:158-187 | over every run each command is handed over, kept or refused, exactly one of these; commands are handed over in order, none is kept while open or manually closed |
| `Socket.OpnSocket.ConnectCall` | opn-web/src/socket.ts:107-112 | the synchronous part of connect() |
| `Socket.OpnSocket.Acked` | opn-web/src/socket.ts:131-148 | the ack continuation: open, one sub frame per topic, then the kept commands in order |
| `Socket.OpnSocket.SubCall` | opn-web/src/socket.ts:196-206 | counts the reference, sends a frame for the first one if open |
| `Socket.OpnSocket.UnsubCall` | opn-web/src/socket.ts:207-221 | once per handle; the last reference sends the unsub frame if open |
| `Socket.OpnSocket.OnClose` | opn-web/src/socket.ts:300-329 | ignores a stale socket, else drops what is pending and the refresh timer, and arms the reconnect timer unless closed manually, taken over or for garbage, or for a rejected token a second time |
| `Socket.OpnSocket.CloseCall` | opn-web/src/socket.ts:158-169 | manual close: both timers off, kept commands refused, then the socket closed, or the state if there is none |
| `Socket.OpnSocket.CmdCall` | opn-web/src/socket.ts:176-187 | handed over while open, refused after a manual close, else kept |

## Left out

- SQL, row-level security, connection pools, tokio and DashMap: tables are maps, one transaction one step; a duplicate that would race past an idempotency read is the unique-index refusal, which changes nothing.
- LedgerStore.Store.DoCapture: the journal's `created_at` and the metrics it bumps are not modelled; nothing in the ledger's decisions reads them.
- LedgerStore.Store.Reconcile: the sums are unbounded integers, so the failing `::bigint` cast of a total beyond 64 bits is not modelled.
- LockOrder.NoDeadlock: covers the row locks of eight operations; waits on unique indexes (two transactions inserting the same key) and the freezes of reconcile, which on reachable states locks no row, are not in the lock model.
- Delivery.NothingFallsBetween: one replica, one channel and one connection; Redis fan-out, inbox rows for offline members and the `Call` and `Presence` topics are left out.
- SeqTracker.Tracker.Observe: seqs are unbounded, so the overflow of `f + 1` at the largest 64-bit value is not modelled.
- Registry.SessionRegistry.PublishLocal: each public method is one step; the interleaving of its DashMap accesses is modelled for the presence table only, and a poisoned subs lock not at all.
- Registry.SessionRegistry.Unregister: the `share_presence` flag, gauges and counters are left out.
- Calls.CallsOnlyMoveForward: device ids, call kinds and `left_at`/`ended_at` stamps are left out, as are signalling, tokens and snapshots; the foreign keys to characters are taken as met.
- CallStore.Store.GroupCreate: `max_rooms` is a hard ceiling here because a create is one step; the source states it as a soft one under concurrency.
- RateLimit.WindowBound: exact arithmetic over reals instead of floating point; the poisoned-mutex refusal and the mapping from commands to classes are left out.
- Preauth.GlobalCountsExactly: counters are unbounded; they never exceed the number of sockets, so wrap-around would take 2^32 of them.
- Servers.RostersMirrorTheServer: a roster is kept with its server or channel row, so foreign keys hold by construction; names, banners, positions, watermarks and mutes are checked where the source checks them but not stored.
- Cursor.SpelledCursorsAgree: the parser also reads ASCII characters written as unicode escapes, which the spellings compared here do not contain.
- Paging.FullWalkVisitsEverything: the `ledger.history` query; which rows belong to the caller is a filter on the table beforehand.
- Socket.OpenMeansInSync: a frame is kept as its effect on the set of subscribed topics; listeners that call back into the socket during a state change, sub frames sent through `cmd` and resume watermarks are left out.
- Socket.OpnSocket.OnClose: a token refresh is one step, renewed or failed; the wait for its ack is left out.
- Socket.ConnectIsSafeIff: automatic reconnect is on, as by default.
- Eviction.DropEvictsIff: one channel and one character; the removal is the roster row of `Servers.DoMemberChange`, its channels one at a time.
- Feed, media, directory, identity, notify, contracts, the panel, config, metrics, HTTP routes, JWT and S3: CRUD, plumbing or unseen libraries.
