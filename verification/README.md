# Verified model of the node's transaction manager, RPC pool and head tracking

This project models the logic of the Chainlink node vendored in this repository and proves what its comments and
tests promise. Each module names the Go file it models.

- **Fees** (`Fee`) and the **Broadcaster** of one address: `TxStore` and `BroadcasterRun` hold its rows and the runs over
  them, `Broadcaster` its methods, each proved to follow such a run, and `SequenceLife` strings its restarts together.
  `Interference` is what it and the Confirmer promise each other.
- The **Confirmer** (`Attempts`, `Chain`, `Reorg`, `RebroadcastList`, `ConfirmerRun`, `Confirmer`): attempts left in
  progress, bumping, re-org protection, on every head. **Txm**: reset and stop.
- The **RPC nodes** (`NodeLifecycle`, `NodeOutcomes`, `NodeFsm`), the **pool** (`Pool`, `Endpoints`, `SyncStatus`), its **selectors**
  (`Selectors`, with `Division` and `Sorting`) and the active node (`MultiNode`).
- **Head tracking** (`Backfill`, `HeadDelivery`, `HeadBroadcaster`).
- The tree of health checks (`CheckTree`, `Strings`) and the versions file of the contract wrappers (`Versions`).
- `Options`, `SetFacts` and `Runs` hold stock definitions.

`dafny verify dfyconfig.toml` checks everything.

## How the outside world appears

What the code cannot know is arbitrary: every answer of a node, the failure of every store operation, the moment a context
is cancelled, the estimator's prices, the transmit checker. For the Broadcaster and the Confirmer it is a `World`, any
function of time, which their methods consult from one moment to the next. A store operation is atomic and does what its
SQL does or, when it fails, nothing. Interference by others is a step that may change the rows in any way a stated relation
allows (`Interference.Rely`, `Interference.Handover`, `ConfirmerRun.ReceiptsOnly`), and every step of the Broadcaster and of
the Confirmer is proved to stay within what the other one relies on (`BroadcasterRun.OwnStepIsHandover`,
`ConfirmerRun.OwnStepIsRely`, and the lemmas of `Interference`). Each object carries a ghost `run`, the list of everything
that has changed its rows and of the answers it acted on, in the order of time; `Valid` says that the rows are what the run makes of them and
that every step was lawful, and the theorems are about all such runs. The node lifecycle, the pool and head delivery are
concurrent, so they are state machines whose steps are the code's critical sections, and their theorems are about every
finite run; the methods that change fields under a lock are modelled as methods too and proved to be those steps.

Assumed from code outside the model: the next sequence is plus one (`lib/chainlink/core/chains/evm/types/nonce.go:21`), a
bumped attempt is priced by `CalculateBumpedFee`, a mailbox hands out what was delivered in order and drops its oldest item
when full (the mailbox library is not part of this model), `LatestChain` is the highest head saved, and a client asked for
a hash answers with that block or not at all.

## Where code and documentation disagree

- `lib/chainlink/common/fee/models.go:33-36` describes a bump of the higher of the original and the current price; the code
  bumps the original only. `Fee.CommentHolds` says exactly when that makes no difference. The comment on `maxFee` (line 71)
  also lists the maximum price among the values whose maximum is taken; it only serves to ignore a current price above it.
- `lib/chainlink/common/txmgr/broadcaster.go:303-306` adds one to the latest stored sequence, and the EVM store counts the
  row in progress (`lib/chainlink/core/chains/evm/txmgr/evm_tx_store.go:1021`). A restart that finds a started transaction
  therefore skips a number. Both readings are modelled (`countsInProgress`); `SequenceLife.RunIsExactBlock` is the exact
  condition.
- `lib/chainlink/common/txmgr/txmgr.go:228-233` stores the error of abandoning in a variable that the answer on the channel
  then overwrites (`Txm.Txm.Reset`).
- `lib/chainlink/common/client/node_lifecycle.go:75` says that Closed ends the loops for good; `setState(nodeStateDialed)`
  does not look at the state, so a node closed in the middle of a redial comes to rest as Unreachable
  (`NodeLifecycle.ClosedNodeReopens`; `NodeLifecycle.ClosedIsPermanent` is the exact condition), and `verify` panics on a
  node closed just before it (`NodeLifecycle.VerifyPanicsWhenClosed`).
- `lib/chainlink/common/client/node_lifecycle.go:168` refuses to disable the last node, but the guard and the transition are
  separate steps (`Pool.GuardsRace`).
- `lib/chainlink/core/gethwrappers/versions.go:23` allows an empty binary path, which does not survive a round trip
  (`Versions.RoundTrip`).

## Model

| member | source | states |
|---|---|---|
| Fee.BumpMeaning | lib/chainlink/common/fee/models.go:37-85 | For every `uint16` percentage and every current price: the bumped price is the greatest of the percentage bump, the fixed bump and a usable current price; exactly when that exceeds the lower of the two limits, and when it is no bump at all |
| Fee.PercentBump | lib/chainlink/common/fee/utils.go:21-26 | The percentage bump is the price times (100 + percentage) hundredths rounded down, with the sum taken modulo 65536 |
| Fee.PercentageWraps | lib/chainlink/common/fee/utils.go:21-26 | `100 + percentage` wraps in `uint16`: a positive price is lowered by its percentage exactly from 65436 up |
| Fee.BumpRises | lib/chainlink/common/fee/models.go:43-60 | A successful bump with `bumpMin >= 0` satisfies original < result <= limit and raises by at least `bumpMin` |
| Fee.BumpChainRises | lib/chainlink/common/txmgr/broadcaster.go:727-768 | k bumps in a row raise the price by at least k and by at least k times `bumpMin`, and stay within the limit, so the fee gap bounds any run of Underpriced answers |
| Fee.CommentHolds | lib/chainlink/common/fee/models.go:33-60 | The code agrees with the baseline its comment describes if and only if the current price is unknown or no higher than the original, the original's own bump already exceeds the limit, or there is no fixed amount and a usable current price is not raised by its percentage either |
| Broadcaster.Broadcaster.ProcessUnstartedTxs | lib/chainlink/common/txmgr/broadcaster.go:446-493 | Whatever the node and the store answer and whoever interferes: the rows and the map entry are always what a lawful run makes of them (`Valid`, `Since`), so everything proved about runs holds, the in-flight cap included; in every round either there was no room or one more transaction was broadcast under the entry, given up or removed by others; no error means none is left in progress; the call ends without error only on an empty queue; what an error comes from, and whether it is retryable (`Excused`) |
| Broadcaster.Broadcaster.Round | lib/chainlink/common/txmgr/broadcaster.go:456-492 | One round: it waits only if as many are unconfirmed as the cap allows, and otherwise an unstarted transaction was taken and handled, or none is left |
| BroadcasterRun.CapIsKept | lib/chainlink/common/txmgr/broadcaster.go:458-479 | At every start of every run, what is then in flight is within the cap, but for the rows that others have made unconfirmed since they were last counted |
| BroadcasterRun.RunIsConsistent | lib/chainlink/common/txmgr/broadcaster.go:442-493 | Over every run of loads, the four updates of its own and others' changes in between: at most one transaction in progress; the sequences broadcast since a load are the consecutive block up to the entry, a left-over's own number apart; every sequence new since the load belongs to the row it was given to, which carries the entry while in progress and was broadcast afterwards |
| BroadcasterRun.OneRowPerSequence | lib/chainlink/common/txmgr/broadcaster.go:707-725 | No two rows share a sequence given out since the load |
| BroadcasterRun.LeftAloneIsSame | lib/chainlink/common/txmgr/broadcaster.go:442-446 | The Broadcaster loses no row, and changes none but the one it starts, resends, hands over or gives up |
| BroadcasterRun.OwnStepIsHandover | lib/chainlink/common/txmgr/broadcaster.go:621-634 | Every step of its own is one the Confirmer allows for |
| Broadcaster.Broadcaster.HandleInProgressTx | lib/chainlink/common/txmgr/broadcaster.go:561-703 | For every answer, through its recursion: the transaction is sent during the call, and the answer to its last send decides. No error means a rejection for good (then fatal, its sequence and attempts given up, the entry untouched) or an acceptance (then unconfirmed under its own sequence with the attempt last sent, the entry raised by one); an error means it still is in progress, nothing was consumed, and the store refused, there is no entry, no bump was to be had of an underpriced attempt, re-estimation is unsupported or used up, or the answer is one that leaves it in progress; which errors are retryable; it terminates |
| Broadcaster.Broadcaster.TryAgainBumpingGas | lib/chainlink/common/txmgr/broadcaster.go:727-744 | Either there is no bump or the store refuses, and nothing is done, or the bump of the price the node asks for then takes the attempt's place first and the run goes on from there, closer to the limit |
| Broadcaster.Broadcaster.TryAgainWithNewEstimation | lib/chainlink/common/txmgr/broadcaster.go:746-761 | Refused without any change for EIP-1559 attempts; otherwise an attempt with the price estimated then takes the place of the old one and the outcome is that of sending it, or the store refuses |
| Broadcaster.Broadcaster.CompareWithPendingSequence | lib/chainlink/common/txmgr/broadcaster.go:663-700 | After an unknown error the transaction counts as broadcast if and only if the pending sequence is known and has passed its own, there is an entry, and the store takes it |
| Broadcaster.Broadcaster.HandToConfirmer | lib/chainlink/common/txmgr/broadcaster.go:621-634 | Rows and map entry move together: fails if and only if there is no entry or the store refuses, and then the rows are as they were and so is the entry, unless it had to be loaded; on success this row and no other changes, unconfirmed under its own sequence, and the entry is one higher |
| Broadcaster.Broadcaster.UpdateTxAttemptInProgressToBroadcast | lib/chainlink/core/chains/evm/txmgr/evm_tx_store.go:1587-1622 | All of it or nothing: the row unconfirmed with its attempt broadcast, and the entry raised |
| Broadcaster.Broadcaster.SaveFatallyErroredTransaction | lib/chainlink/common/txmgr/broadcaster.go:771-806 | Only from in_progress or unstarted; the attempts go and the sequence is given back; on failure the rows are unchanged |
| Broadcaster.Broadcaster.HandleUnstartedTx | lib/chainlink/common/txmgr/broadcaster.go:510-557 | The transmit checker is asked during the call; if it refuses, the transaction is given up or, when that fails, left unstarted, and consumes no sequence. One that was removed by others or is rejected for good by the node consumes none either; one that is broadcast consumes exactly the entry; after an error it is as it was or in progress, and nothing was consumed |
| Broadcaster.Broadcaster.AfterCheck | lib/chainlink/common/txmgr/broadcaster.go:524-552 | What the checker says is heeded: refused, it is never started, and passed, it is not given up before it was sent |
| Broadcaster.Broadcaster.HandleAnyInProgressTx | lib/chainlink/common/txmgr/broadcaster.go:497-508 | A transaction left in progress is sent and ends broadcast under its own sequence or fatal, or after an error is in progress still; no error means nothing is in progress any more, so the loop never starts a second one |
| Broadcaster.Broadcaster.CheckRoom | lib/chainlink/common/txmgr/broadcaster.go:458-479 | There is room only if, when the unconfirmed ones were counted, there were fewer than the cap, or there is none; a new transaction waits only if there were as many |
| Broadcaster.Broadcaster.GetNextSequence | lib/chainlink/common/txmgr/broadcaster.go:809-835 | The map entry wins; it is loaded only when missing and only for an enabled address |
| Broadcaster.Broadcaster.GetSequenceForAddr | lib/chainlink/common/txmgr/broadcaster.go:300-317 | The latest counted sequence plus one when the store answers and counts a row; otherwise what the chain says, if anything |
| BroadcasterRun.RelyKeepsConsistent | lib/chainlink/common/txmgr/broadcaster.go:442-455 | Whatever the Confirmer, the reaper and callers may do to the rows meanwhile leaves the numbering and the single in-progress transaction intact |
| BroadcasterRun.BroadcastKeepsConsistent | lib/chainlink/common/txmgr/broadcaster.go:624-633 | Raising the entry from its own value, not from the transaction's sequence, keeps the numbering exact, for a left-over transaction too |
| BroadcasterRun.StartKeepsConsistent | lib/chainlink/common/txmgr/broadcaster.go:719-724 | Putting a transaction in progress with the entry keeps the numbering exact, and the sequence is its own |
| SequenceLife.ReloadValue | lib/chainlink/common/txmgr/broadcaster.go:300-317 | Exactly when a restart loads the entry where the last one stood or skips one number: the counted rows reach that far or, when the store fails or counts none, the chain does; and exactly when it skips: a started transaction carries the entry and is counted, or the chain has passed it |
| Broadcaster.Broadcaster.StartInternal | lib/chainlink/common/txmgr/broadcaster.go:204-237 | The same for the method that starts the Broadcaster over on the rows alone |
| Broadcaster.Broadcaster.Resume | lib/chainlink/common/txmgr/broadcaster.go:495-508 | A restart that goes on and finds a started transaction finishes it under its own number or gives it up; the store that counted it stays one number ahead |
| SequenceLife.RunIsLife | lib/chainlink/common/txmgr/broadcaster.go:576-634 | A run of the Broadcaster whose restarts go on strings together into epochs in each of which the numbering is exact and which hand on the left-over and the entry; a load that fails is only a delay |
| SequenceLife.RunIsExactBlock | lib/chainlink/common/txmgr/broadcaster.go:300-307 | What such a run broadcasts over any number of restarts rises strictly, and the range exceeds the number by one for each restart that skipped; so it is every number from the first to the last, each once and in order, if and only if none did |
| SequenceLife.ExactThroughout | lib/chainlink/common/txmgr/broadcaster.go:300-307 | For any run at all, whatever its restarts load, after a load that found nothing in progress or what carries the entry: the broadcast sequences are the exact consecutive block at every moment if and only if every restart loads the entry as it stood |
| Broadcaster.Broadcaster.LifeIsExactBlock | lib/chainlink/common/txmgr/broadcaster.go:300-307 | The same in every valid state of the Broadcaster's object |
| SequenceLife.ExcludingIsExactBlock | lib/chainlink/common/txmgr/broadcaster.go:303-306 | If the latest sequence leaves out the in_progress row, the block is exact over a whole life if and only if no restart skipped on the word of the chain or over rows stored above the entry |
| SequenceLife.CountingSkips | lib/chainlink/core/chains/evm/txmgr/evm_tx_store.go:1016-1024 | The EVM store counts every row with a nonce: a lawful run over four rows, restarted with 7 in progress, sends 5, 6, 7, 9 |
| Interference.RelyForAddress | lib/chainlink/common/txmgr/confirmer.go:280-324 | Updates of any rows that stay within the relation do so for every address, so the Confirmer's own updates are what each Broadcaster allows for |
| ConfirmerRun.OwnStepIsRely | lib/chainlink/common/txmgr/confirmer.go:280-324 | Every step of the Confirmer, the receipts steps included, is one each Broadcaster allows for |
| Interference.OtherAddressIsRely | lib/chainlink/common/txmgr/broadcaster.go:442-446 | A Broadcaster's updates are what the Broadcasters of all other addresses allow for |
| Interference.HandoverOfWhole | lib/chainlink/common/txmgr/broadcaster.go:621-634 | A Broadcaster's updates of its own address are what the Confirmer allows for over the whole table |
| Interference.VisibleUpdateIsRely | lib/chainlink/common/txmgr/confirmer.go:859-890 | An update of a row the Confirmer looks at that keeps owner, sequence and visibility never disturbs a Broadcaster |
| Interference.HiddenUpdateIsHandover | lib/chainlink/common/txmgr/broadcaster.go:628-632 | An update of a row out of the Confirmer's sight never disturbs it, as long as what comes into view has its one attempt broadcast |
| Broadcaster.Broadcaster.UpdateTxUnstartedToInProgress | lib/chainlink/core/chains/evm/txmgr/evm_tx_store.go:1625-1693 | All of it or nothing: this row and no other goes in progress under the entry with its one attempt, and nothing is newly unconfirmed |
| Broadcaster.Broadcaster.SaveReplacementInProgressAttempt | lib/chainlink/core/chains/evm/txmgr/evm_tx_store.go:1520-1545 | All of it or nothing: the replacement is the transaction's one attempt, and no other row changes |
| RebroadcastList.Merge | lib/chainlink/common/txmgr/confirmer.go:725-735 | Duplicate-free union of the two lists, the first list's copy winning |
| RebroadcastList.FindTxsRequiringRebroadcast | lib/chainlink/common/txmgr/confirmer.go:689-747 | Duplicate-free, ascending by sequence, and exactly the min(cap, size) lowest of the union, or all of it without a cap |
| Confirmer.Confirmer.HandleInProgressAttempt | lib/chainlink/common/txmgr/confirmer.go:813-901 | The transaction is sent during the call. No error means the node's answer was final and the attempt left in_progress: saved with the state that answer calls for at no lower a price, or deleted. An error leaves one in progress, and means that the context was done, the store refused, the answer was inconclusive, or an underpriced attempt was not the highest-priced one or had no bump; nothing else of the rows changes; it terminates |
| Confirmer.Confirmer.ReplaceAndSend | lib/chainlink/common/txmgr/confirmer.go:824-858 | The bumped attempt takes the place of the underpriced one, never beside it, whatever the recursion then does; it is given up only for want of a bump, of the store or of the context |
| Confirmer.CompletedAfterReplace | lib/chainlink/common/txmgr/confirmer.go:855-858 | What the recursion leaves of the replacement is what a completed send may leave of the original |
| Confirmer.Confirmer.Replace | lib/chainlink/core/chains/evm/txmgr/evm_tx_store.go:1520-1545 | As many attempts as before, in order of price with the replacement at the top, every other one kept, and no other row changed |
| Confirmer.Confirmer.SaveInProgressAttempt | lib/chainlink/core/chains/evm/txmgr/evm_tx_store.go:1272-1306 | A new attempt is inserted or an old one put back in progress; nothing else of the rows changes |
| Confirmer.Confirmer.SaveOutcome | lib/chainlink/common/txmgr/confirmer.go:859-890 | Fatal and too expensive delete the attempt, the rest save it as broadcast or insufficient_eth; only TransactionAlreadyKnown moves the transaction |
| Confirmer.Confirmer.HandleAnyInProgressAttempts | lib/chainlink/common/txmgr/confirmer.go:669-685 | No error without cancellation means that no attempt of the address is in progress; other addresses' rows are untouched |
| Confirmer.Confirmer.AttemptForRebroadcast | lib/chainlink/common/txmgr/confirmer.go:749-776 | The old attempt if and only if funds were short or the bump failed as a bump; else a new one by a successful bump of the highest-priced one; an error if and only if there is no attempt or the bump failed otherwise |
| Confirmer.Confirmer.RebroadcastWhereNecessary | lib/chainlink/common/txmgr/confirmer.go:631-662 | Without an error or cancellation, exactly the transactions of the list (the two queries merged, ordered and cut) were put in progress, each with the bump of its highest-priced attempt or with that attempt, sent and answered, one after the other in the order of their sequences, and none is left in progress; what an error can come from |
| Confirmer.Confirmer.RebroadcastAll | lib/chainlink/common/txmgr/confirmer.go:603-629 | The same for every enabled address |
| Confirmer.Confirmer.MarkForRebroadcast | lib/chainlink/common/txmgr/confirmer.go:984-1024 | Refused, without a change, exactly when the transaction is not confirmed or its highest-priced attempt not broadcast; else the store fails or this row and no other is put back |
| Confirmer.Confirmer.MarkReorgedTransactions | lib/chainlink/common/txmgr/confirmer.go:925-936 | While the Broadcasters go on working, a finished loop put back exactly the transactions in range without a receipt on the head's chain; it runs only when nothing of an enabled address is in progress; an unfinished one changed nothing but some of those, and says which transaction the store refused |
| Confirmer.Confirmer.SendMarked | lib/chainlink/common/txmgr/confirmer.go:938-959 | Only sends attempts in progress; without an error or cancellation none of an enabled address is left |
| Confirmer.Confirmer.EnsureConfirmedTransactionsInLongestChain | lib/chainlink/common/txmgr/confirmer.go:909-960 | Without an error or cancellation every transaction that needed it was put back, no other was, and each one put back for an enabled address has since been sent, answered for good and saved (`ReorgHandled`); nothing is then left in progress; the short-chain counter |
| Confirmer.Confirmer.ProcessHead | lib/chainlink/common/txmgr/confirmer.go:280-324 | Over a whole head the rows follow a lawful run; after success the receipts were looked for first, everything the queries listed for an enabled address was sent again in order, re-org protection was complete for the rows found after that, and nothing is in progress; it fails or is cancelled only if, during the head, the context ran out, the store refused, a send got an inconclusive answer or a bump an error of another kind, or if ever some unconfirmed transaction had no attempt or an underpriced one no bump, or one to be put back cannot be |
| ConfirmerRun.AlwaysValid | lib/chainlink/common/txmgr/confirmer.go:280-324 | In every state of every run, not only at its end: for enabled addresses no transaction has two attempts in progress, and attempts are distinct and in order of price |
| ConfirmerRun.MarkedWasSent | lib/chainlink/common/txmgr/confirmer.go:909-960 | A transaction that was put back and has nothing left in progress has been sent since, with a final answer |
| ConfirmerRun.UnsentStaysInProgress | lib/chainlink/common/txmgr/confirmer.go:813-901 | While attempts are sent, one whose answer was not acted on stays in progress, whatever the Broadcasters do |
| ConfirmerRun.StaysVisible | lib/chainlink/common/txmgr/confirmer.go:813-901 | While attempts are sent, no transaction the Confirmer looks at is lost, and each keeps its owner and sequence |
| Reorg.RebroadcastMeaning | lib/chainlink/common/txmgr/confirmer.go:984-1024 | A marked transaction keeps its identity and sequence, is unconfirmed without receipts, and has exactly one attempt in progress |
| Reorg.MarkedIsProtected | lib/chainlink/common/txmgr/confirmer.go:903-936 | After the loop whatever is confirmed by a receipt at a height of the head's chain, in the whole table, has a receipt on that chain and was not touched |
| Reorg.OutOfRangeIsUntouched | lib/chainlink/common/txmgr/confirmer.go:925-936 | A transaction that is not confirmed, or by no receipt at such a height, is left alone |
| Chain.HasReceiptInLongestChain | lib/chainlink/common/txmgr/confirmer.go:962-982 | Terminates, and is true exactly when some receipt of some attempt names a block of the chain |
| Chain.ReceiptOnChainMeaning | lib/chainlink/common/types/head.go:19-34 | On a chain with falling numbers that is: some receipt's hash is the chain's hash at the receipt's height |
| Attempts.LeavesProgress | lib/chainlink/core/chains/evm/txmgr/evm_tx_store.go:1192-1237 | Saving the one attempt in progress with another state leaves none in progress and every other attempt as it was |
| Attempts.LeavesTable | lib/chainlink/core/chains/evm/txmgr/evm_tx_store.go:1257-1270 | Deleting the one attempt in progress leaves none in progress and one attempt fewer |
| Attempts.EntersTable | lib/chainlink/core/chains/evm/txmgr/evm_tx_store.go:1520-1545 | Inserting an attempt where none is in progress leaves at most one, keeps the rest and the order by price, and puts the highest-priced one at the top |
| Txm.Txm.ExecReset | lib/chainlink/common/txmgr/txmgr.go:319-386 | Closing never fails, so its panics are out of reach; the callback finds both services stopped; afterwards both run or the stop signal was seen |
| Txm.Txm.Reset | lib/chainlink/common/txmgr/txmgr.go:222-239 | The caller learns only whether the manager was stopped: the error of abandoning is overwritten |
| Txm.Txm.RunLoop | lib/chainlink/common/txmgr/txmgr.go:388-446 | For every sequence of resets, key changes, start failures and stop signals: every caller of `Reset` is answered, the callback ran alone once for each that was not refused, and until the stop signal was seen both services were started once for every reset and every reload and all callers were told yes; the stop case ends the loop with both stopped |
| Txm.Txm.ReloadKeys | lib/chainlink/common/txmgr/txmgr.go:422-441 | Both services start over if and only if the keys could be loaded and no reset was cut short by the stop signal |
| NodeLifecycle.LifecycleIsSafe | lib/chainlink/common/client/node_lifecycle.go:70-440 | Under every interleaving with `Close` and every answer: no forbidden transition and no loop entered in a wrong state, one goroutine at most in control, and the wait group counts exactly the running loops |
| NodeLifecycle.VerifyPanicsWhenClosed | lib/chainlink/common/client/node.go:243-254 | In a reachable state a step panics if and only if it calls `verify` and the node was closed just before |
| NodeOutcomes.AliveIsVerified | lib/chainlink/common/client/node.go:215-275 | Over every run: a node that is alive named the right chain the last time it was asked |
| NodeOutcomes.FromVerify | lib/chainlink/common/client/node.go:227-236 | The wrong chain leads to InvalidChainID, any other error to Unreachable, and the right chain to Alive, from a start, a redial and a recheck |
| NodeOutcomes.FromDial | lib/chainlink/common/client/node.go:220-225 | A failed dial leads to Unreachable and a successful one to Dialed |
| NodeOutcomes.FromSubscribe | lib/chainlink/common/client/node_lifecycle.go:100-106 | A failed subscription leads to Unreachable, from Alive and from OutOfSync |
| NodeOutcomes.FromAlive | lib/chainlink/common/client/node_lifecycle.go:139-223 | An alive node becomes Unreachable when its subscription ends or, with another one alive, its polls fail, OutOfSync when it falls behind with another one alive, and else stays |
| NodeOutcomes.FromOutOfSync | lib/chainlink/common/client/node_lifecycle.go:282-341 | A node out of sync becomes Unreachable when it cannot be dialed or its subscription ends, InvalidChainID when it cannot be verified, Alive on a head in sync or when nobody is, and else stays |
| NodeOutcomes.NothingHappens | lib/chainlink/common/client/node_lifecycle.go:139-223 | An answer of no consequence changes nothing at all |
| NodeOutcomes.WaitsAgain | lib/chainlink/common/client/node_lifecycle.go:376-382 | After a failed redial or the wrong chain once more the loop waits before it tries again |
| NodeOutcomes.ComesAlive | lib/chainlink/common/client/node_lifecycle.go:372-402 | With good answers a started, redialed or rechecked node comes alive, in so many steps |
| NodeOutcomes.WaitsForHeads | lib/chainlink/common/client/node_lifecycle.go:282-341 | With good answers the loops of Alive and OutOfSync come to watch the heads, without leaving their state |
| NodeOutcomes.AlwaysWatched | lib/chainlink/common/client/node_lifecycle.go:72-75 | Until it is closed, a node has exactly one goroutine in control, whatever the endpoint answers |
| NodeOutcomes.CancelledLoopEnds | lib/chainlink/common/client/node_lifecycle.go:139-143 | Once the context is cancelled a waiting loop ends and leaves the wait group |
| NodeLifecycle.ClosedIsPermanent | lib/chainlink/common/client/node_lifecycle.go:75-75 | A closed node stays closed, whatever comes after, if and only if no goroutine is then between the start of a dial, or the wait for a redial, and `setState(nodeStateDialed)` |
| NodeLifecycle.ClosedNodeReopens | lib/chainlink/common/client/node_lifecycle.go:378-396 | A run from `Start` in which a closed node ends as Unreachable with no goroutine left: Closed is absorbing for the guarded transitions only |
| NodeLifecycle.AddedFromNonzero | lib/chainlink/common/client/node.go:185-197 | Once loops run, the wait group is never raised from zero, which `Close` waits for |
| NodeFsm.NodeFsm.DeclareAlive | lib/chainlink/common/client/node_fsm.go:131-155 | Is the step of the state machine: ignored when closed, panics from any state but Dialed and InvalidChainID; about to be declared in a safe node, it does not panic and leaves the node safe |
| NodeFsm.NodeFsm.DeclareInSync | lib/chainlink/common/client/node_fsm.go:159-180 | Likewise, from OutOfSync only |
| NodeFsm.NodeFsm.DeclareOutOfSync | lib/chainlink/common/client/node_fsm.go:184-207 | Likewise, from Alive only |
| NodeFsm.NodeFsm.DeclareUnreachable | lib/chainlink/common/client/node_fsm.go:209-232 | Likewise, from any state but Unreachable and Unusable |
| NodeFsm.NodeFsm.DeclareInvalidChainID | lib/chainlink/common/client/node_fsm.go:234-257 | Likewise, from Dialed and OutOfSync |
| Pool.FloorIsLost | lib/chainlink/common/client/node_lifecycle.go:154-223 | Exactly how one step takes the last live node that has not decided to leave: it passes its guard although all other live nodes have decided to leave, or leaves by an exit without a guard |
| Pool.DecidedEmpties | lib/chainlink/common/client/node_lifecycle.go:154-223 | The decisions already taken can empty the pool, in some order, if and only if no live node has yet to decide |
| Pool.PoolFloor | lib/chainlink/common/client/node_lifecycle.go:154-223 | Over any interleaving without unguarded exits, the pool keeps a live node if guards are passed only while no other live node is on its way out |
| Pool.AtomicFloor | lib/chainlink/common/client/multi_node.go:258-274 | With each guard and its transition one step, no run of poll failures, nodes fallen behind and silent heads empties a pool that has a live node |
| Pool.GuardsRace | lib/chainlink/common/client/node_lifecycle.go:164-171 | With guard and transition apart, two freshly started nodes both read a count of two and leave, and none is live |
| Pool.ZombieCheck | lib/chainlink/common/client/node_lifecycle.go:327-334 | An out-of-sync node's zombie check puts it back if and only if no node is live, and then one is |
| SyncStatus.NLiveNodes | lib/chainlink/common/client/multi_node.go:260-274 | The number of live nodes, and the greatest number and difficulty among them, each at least zero |
| SyncStatus.Check | lib/chainlink/common/client/node_lifecycle.go:236-256 | Out of sync exactly when some live node is more than the threshold ahead or the node is that far behind zero; disabled at threshold 0; a nil difficulty panics in the mode that needs it |
| SyncStatus.SomebodyElseIsAhead | lib/chainlink/common/client/node_lifecycle.go:175-183 | The stated note: for a live node to be out of sync a different live node is ahead of it, and at least two are live |
| SyncStatus.SomebodyElseIsHeavier | lib/chainlink/common/client/node_lifecycle.go:233-256 | The same for difficulties |
| SyncStatus.AloneAndBehind | lib/chainlink/common/client/node_lifecycle.go:233-256 | Exactly when a node that is alone is reported out of sync all the same: its number is more than the threshold below zero |
| Selectors.FirstOrHighestPriority | lib/chainlink/common/client/node_selector_priority_level.go:114-129 | The first candidate of the smallest order; none if and only if every order is MaxInt32 |
| Selectors.SelectHighestHead | lib/chainlink/common/client/node_selector_highest_head.go:23-37 | That pick among exactly the live nodes with no live node ahead |
| Selectors.SelectTotalDifficulty | lib/chainlink/common/client/node_selector_total_difficulty.go:23-50 | That pick among exactly the live nodes of the greatest known difficulty, or among all live ones when none is known |
| Selectors.PickIsInSync | lib/chainlink/common/client/node_selector_highest_head.go:23-37 | The node picked by the highest head is never out of sync |
| Selectors.HeaviestPickIsInSync | lib/chainlink/common/client/node_selector_total_difficulty.go:23-50 | Nor is the one picked by difficulty, where it is known |
| Selectors.RoundRobin.Select | lib/chainlink/common/client/node_selector_round_robin.go:28-46 | None if and only if no node is live; else the live node at the old counter modulo their number; the wrapping counter moves only on a pick |
| Selectors.RoundRobinIsFair | lib/chainlink/common/client/node_selector_round_robin.go:28-46 | Over any m selections in a row on the same nodes, without a wrap, each of the L live nodes is picked floor(m/L) or ceil(m/L) times, and no other node is |
| Selectors.WrapKeepsRotation | lib/chainlink/common/client/node_selector_round_robin.go:41-43 | Where the `uint32` counter wraps the rotation goes on if and only if L divides 2^32 |
| Selectors.RemoveLowerTiers | lib/chainlink/common/client/node_selector_priority_level.go:77-96 | Exactly the nodes of the smallest order, in their original order |
| Selectors.PriorityLevel.Select | lib/chainlink/common/client/node_selector_priority_level.go:40-53 | Rotates in the lowest-order tier that has a live node, by that tier's counter alone |
| Selectors.OutOfRangeIsNegative | lib/chainlink/common/client/node_selector_priority_level.go:46-50 | The counter index is out of range if and only if some live node has a negative order |
| Selectors.PickedIsLiveAndFirst | lib/chainlink/common/client/node_selector_priority_level.go:59-74 | Whatever is picked is live, and no live node has a smaller order |
| Selectors.PriorityIsFair | lib/chainlink/common/client/node_selector_priority_level.go:40-53 | Over such a run each node of the lowest-order tier with a live node is picked floor(m/L) or ceil(m/L) times, L being the live ones in it, and no other node is |
| MultiNode.MultiNode.SelectNode | lib/chainlink/common/client/multi_node.go:230-256 | In the modes that compare nodes: the active node is kept while it is alive; otherwise the best one takes its place; a returned node is alive |
| MultiNode.MultiNode.CheckLease | lib/chainlink/common/client/multi_node.go:276-292 | In the modes that compare nodes: exactly the other live nodes with more than one subscription are moved and the best node becomes active; panics if and only if there is no best node and something to move |
| MultiNode.MultiNode.BestExists | lib/chainlink/common/client/node_selector_priority_level.go:114-129 | With orders below MaxInt32 there is a best node whenever one is live, so that panic is out of reach |
| Backfill.HeadTracker.BackfillFrom | lib/chainlink/common/headtracker/head_tracker.go:306-346 | Asks for exactly the missing ancestors, highest first and once each, and goes on exactly as long as the requests go well and the context lives; those before a failure are saved and nothing else; an error is the failure of the last request |
| Backfill.HeadTracker.Backfill | lib/chainlink/common/headtracker/head_tracker.go:162-173 | Nil without cancellation means every ancestor down to max(0, number-depth+1) is saved, and with all requests going well it is nil; a chain that is long enough in memory costs no request |
| Backfill.NoneMissing | lib/chainlink/common/headtracker/head_tracker.go:329-345 | Once the missing ones are saved, every ancestor above the base is |
| HeadDelivery.OfferedIsNewHighest | lib/chainlink/common/headtracker/head_tracker.go:192-218 | A head is broadcast exactly when its number exceeds every number stored before |
| HeadDelivery.DeliveryRises | lib/chainlink/common/headtracker/head_broadcaster.go:91-161 | For every interleaving of heads, mailboxes, `Subscribe`, unsubscribing, `Close` and callbacks: each subscriber is called with strictly rising numbers above the head `Subscribe` returned, and only with stored heads |
| HeadDelivery.NewestArrives | lib/chainlink/common/headtracker/head_broadcaster.go:122-161 | Heads may be skipped but never the newest: once everything on its way has arrived, every subscriber knows the last head that was broadcast |
| HeadDelivery.OldestIsDropped | lib/chainlink/common/headtracker/head_tracker.go:33-86 | Up to ten heads wait to be broadcast; only then does a new one push out the oldest |
| HeadDelivery.NoCallsAfter | lib/chainlink/common/headtracker/head_broadcaster.go:62-107 | After unsubscribing or `Close`, over every run, nobody is called who was not being called just then |
| HeadBroadcaster.HeadTracker.HandleNewHead | lib/chainlink/common/headtracker/head_tracker.go:192-235 | Is the arrival step of the state machine |
| HeadBroadcaster.HeadTracker.SubscribeCallback | lib/chainlink/common/headtracker/head_broadcaster.go:91-107 | Is the subscription step; returns the latest head and an identity nobody had |
| HeadBroadcaster.HeadTracker.ExecuteCallbacks | lib/chainlink/common/headtracker/head_broadcaster.go:125-162 | A run of the state machine in which exactly the subscribers of the critical section are called, once each, with the waiting head |
| CheckTree.ReachAfterAssign | lib/chainlink/core/web/health_controller.go:164-180 | Assigning a node in place moves exactly the paths through it to its new, empty map |
| CheckTree.Put | lib/chainlink/core/web/health_controller.go:163-181 | What every path shows after one more check: the check at its own path, nothing below it, placeholders on the way, all else as before |
| CheckTree.NewCheckTree | lib/chainlink/core/web/health_controller.go:160-183 | For distinct names every check is at its dotted path with its own status and output |
| CheckTree.SurvivesUnlessCovered | lib/chainlink/core/web/health_controller.go:163-181 | For any order: a check survives if and only if no later one sits at its path or above it |
| CheckTree.SortedLosesNothing | lib/chainlink/core/web/health_controller.go:161-161 | In the order of the names nothing is lost, because a parent precedes its descendants |
| CheckTree.NothingMadeUp | lib/chainlink/core/web/health_controller.go:167-180 | Every node is a check at its own path or leads to one |
| CheckTree.UnsortedLoses | lib/chainlink/core/web/health_controller.go:174-175 | Without the sort, "a" after "a.b" overwrites it |
| Strings.SplitPrefixIsLeq | lib/chainlink/core/web/health_controller.go:164-164 | A name whose parts begin with those of another sorts after it, and equal parts mean equal names |
| Versions.WriteVersionsDB | lib/chainlink/core/gethwrappers/versions.go:102-142 | Every package once, in the order of the names, after the geth version |
| Versions.OneListing | lib/chainlink/core/gethwrappers/versions.go:124-129 | There is only one such order, so the text does not depend on the order in which the map is walked |
| Versions.ReadVersionsDB | lib/chainlink/core/gethwrappers/versions.go:59-98 | Is the left-to-right reading of the lines, with each error in its place and a panic on a blank line |
| Versions.RoundTrip | lib/chainlink/core/gethwrappers/versions.go:59-142 | Reading what was written yields the same record if and only if the geth version, paths and hashes are non-empty, no string holds white space and no package is called GETH_VERSION |
| Versions.NoGethVersionFails | lib/chainlink/core/gethwrappers/versions.go:73-77 | A file written without a geth version cannot be read at all |

## Left out

- Broadcaster.Broadcaster: the rows and the map entry of one address; the addresses' goroutines share nothing else.
- Broadcaster.Broadcaster.ProcessUnstartedTxs: follows any finite number of rounds of a loop that may go on for ever.
- Broadcaster.Broadcaster.TryAgainWithNewEstimation: re-estimation has no decreasing measure, so a call may answer "fee out of
  range" any finite number of times only.
- Broadcaster.Broadcaster.StartInternal: a crash in the middle of a call is a store operation that fails, after which the call
  returns; what is in memory is then loaded anew.
- SequenceLife.RunIsExactBlock: a restart that loads neither the entry nor one more ends a life, and how much it repeats or leaves
  out is not stated; `ExactThroughout` covers such runs too.
- Broadcaster.Broadcaster.NextUnstartedTransactionWithSequence: any unstarted transaction may be next; the order of the queue, by value
  and age, is not modelled.
- Broadcaster.Broadcaster.NewBumpTxAttempt: one price per attempt, where an EIP-1559 attempt has a tip and a cap.
- Txm.Txm.RunLoop: any finite number of rounds; the two start goroutines run one after the other, which share only `stopped`.
- Txm.Txm.StartWithRetries: a service fails to start at most a given, arbitrary number of times.
- Confirmer.Confirmer.CheckReceipts: stands for SetBroadcastBeforeBlockNum, CheckConfirmedMissingReceipt and CheckForReceipts by
  what they may do to rows and attempts; which receipts they fetch is not modelled.
- Confirmer.Confirmer.ProcessHead: the addresses' goroutines run one after the other, since they change disjoint rows;
  ResumePendingTaskRuns follows and changes no attempt.
- Confirmer.Confirmer.Query: the age, depth and funds conditions of the two queries; any list of unconfirmed transactions is allowed.
- NodeLifecycle.LifecycleIsSafe: modelled as steps and not as running goroutines; which answer a `select` takes first is arbitrary,
  and the timers, thresholds and poll counters that produce it are not modelled. `Start` runs once.
- Pool.PoolStep: `nLiveNodes` takes all states in one step, where the code reads one node after the other.
- SyncStatus.Check: one snapshot, for the same reason; an unknown selection mode panics and is not modelled.
- Selectors.PriorityLevel.constructor: no order is MaxInt32, for which the number of tiers would wrap.
- MultiNode.MultiNode: the two modes that compare nodes; the rotating ones are in Selectors.
- Backfill.HeadTracker.BackfillFrom: heads that `handleNewHead` saves while it runs; one that happens to be an ancestor would not be
  asked for.
- Backfill.HeadTracker.Backfill: the heads of the chain in memory are still held by the saver, whose trimming of old heads is not modelled.
- HeadDelivery.DeliveryRises: the wake-up channels of the mailboxes; a step may be taken whenever there is something to take.
- Versions.ReadVersionsDB: the scanner's limit of 64 KiB a line, and the file handling of both functions.
- Interference.Handover: the reaper also deletes old confirmed rows, which the Confirmer's relation does not allow for; abandoning
  rewrites rows of every state, but only while both services are stopped.
- SyncSequence, ForceRebroadcast, ResumePendingTaskRuns, the reaper, the resender, the tracker, send-only nodes and the head
  listener: simpler loops, or declared independent of the ones here.
- The HTML and text rendering of the health checks, RPC, SQL, timers, back-off, metrics and logging.
- ApplyMultiplier and the other helpers of `common/fee` and `core/utils`: minima and library calls.
