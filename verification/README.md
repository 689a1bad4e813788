# Verified model of the bank node

This project models the money-moving core of the OBP bank node in Dafny and proves what its small
state machines promise each other across crashes, redeliveries and chain rollbacks.

- **Settlement value leg** (`SettlementStore`, `SettlementRuns`, `SettlementInstruction`,
  `SettlementSafety`, `Redelivery`, `FinalityWatcher`). A settlement instruction is claimed in a durable row, paid,
  recorded, and promoted to `FINAL` by a watcher. The machine has any number of consumers, one watcher,
  a table and a ledger of the transfers really on chain; every statement may fail and a crash may fall
  between any two steps. With one consumer a key is never paid twice, and that is exact: with two it
  can be. And what should happen does: an attempt is paid, recorded and replied by the backend's answer,
  refused ones are tried again, and the first other answer stands for every later delivery.
- **Chain-sync follower** (`Follower`, `SettledStaysSettled`, `SettledForGood`, `SettledLimits`). The
  incremental record of watched transactions agrees with looking them up in the chain. Follower, chain
  and settlement leg are one machine in the end: a row that is `FINAL` was paid exactly once, by a
  transfer that is on the chain for ever, exactly when rollbacks are shallower than the finality depth
  and no deeper than the 32 points the follower keeps.
- **Transaction builder and backend** (`CoinSelection`, `TxBuilder`, `BuildOutcomes`, `FeeLoopLimits`,
  `CardanoSettlement`, `BackendOutcomes`). Largest-first selection is complete, minimal and monotone; every transaction
  built balances and pays enough. The fee loop ends within two rounds a coin plus five, and within twice
  the size limit plus five for every wallet; a cap that is to do for every wallet has to grow with the
  size limit. Eight rounds suffice when coins are not smaller than the fee can rise, so always on a
  network whose outputs hold 0.97 ADA or more. Each error of the builder has its one cause, so a wallet
  with enough is always paid from; settling succeeds exactly when the node took the payment under its id,
  and each failure is tied to the causes it is given for. The backend keeps the contract the leg rests on, as long
  as the node takes no transaction it answers with an RPC error: then a refusal means that nothing
  reached the chain.
- **Outbox dispatcher** (`Outbox`, `DispatcherRuns`, `DispatcherSafety`, `DispatcherProgress`,
  `DispatcherStarvation`, `Dispatcher`, `DispatcherOutcomes`, `OutboxStamps`, `Timestamps`, `StoredTimes`).
  Submit, commit on chain, reveal: each answer leads to the step it should, a row answered well is reported
  in one turn whatever the others are answered, rows only move forward, actions are repeated only when something cut them off from
  their record, and attempts keep their distance although times are cut to seconds and compared as
  texts. A row waits for no more passes than its elders fill while the passes fall within one retry
  interval; when they lie further apart, elders that keep failing can shut it out.
- **Beneficiary side** (`Beneficiary`, `CreditOutcomes`, `Evidence`, `CommitReveal`, `Returns`,
  `Commitments`). Evidence is checked and kept, settlement stamps are written once. Each reply is given
  exactly when the core banking system answers for it, and a credit retried after transient replies is
  taken once. The results are those of `CreditOutcomes`, `CommitReveal`, `Evidence` and `Returns`: each return repays one refused credit in one hop, and returns never outnumber
  refusals. What `Beneficiary` states of one message is the step toward them, as `CardanoSettlement` is
  toward the settlement leg.
- **Amounts and keys** (`Amounts`, `KeyDecoding`). Decimal amounts, lovelace conversion, and the CBOR
  byte string of a key file (RFC 8949, section 3).

Stores are classes whose methods update a map of rows in place, one SQL statement an atomic update;
each is proved equal to a function on the map, and the handlers and loops are methods proved against
those functions. The state machines are built from the same functions, and the methods are proved to be
runs of them, so what holds of all runs holds of the code. Whatever the outside decides (broker, OBP-API,
chain, core banking system, database availability, clock, minted ids) is a parameter or a step of the
environment. The hash, the JSON reader and writer and the transaction layout are function parameters.

## Where code and comments differ

The model follows the code.

- `crates/obp-bank-node/src/settlement_store.rs:9-12` says a concurrent instruction never pays a second
  time. `reclaim_for_retry` (222-234) does not tell its caller whether it won the row, so after a refused
  attempt two concurrent consumers both pay (`SettlementSafety.NeverPaysTwiceExactlyWhenSerial`). The one
  consumer of `interface_c/consumer.rs:161-202` is what makes the promise hold.
- `crates/obp-blockchain/src/cardano/tx.rs:152-154` calls selection deterministic given the UTxO set. The
  comparison ignores the output index, so it is exactly when no two coins differ in their index alone
  (`CoinSelection.DeterministicExactlyWithoutTies`).
- `crates/obp-blockchain/src/cardano/tx.rs:180-183` says the fee loop converges in one or two passes. An
  ordinary wallet of two coins needs three (`FeeLoopLimits.TwoPassesCanFail`), and the number grows with
  the size limit (`FeeLoopLimits.RoundsGrowWithTheLimit`). Nine coins can exhaust the eight rounds
  (`FeeLoopLimits.EightRoundsCanFail`), eight of them of 1584 lovelace: a network with these fees holds no
  such outputs (about 0.97 ADA is the least, tx.rs:36-38), and without them eight rounds always suffice
  (`FeeLoopLimits.EightRoundsSufficeOnTheNetwork`).
- `crates/obp-blockchain/src/cardano/follower.rs:34-36` says a follower whose points are all unknown starts
  again at the tip. The code does so only when it has no points (follower.rs:210-231); with unknown points
  it keeps failing. A rollback deeper than the 32 points empties the list and leads to the tip.
- `crates/obp-bank-node/src/dispatcher.rs:277-278` relies on sorted keys, but `Cargo.toml:33` enables
  `preserve_order`. Only that the preimage is a function of the row matters here.
- `crates/obp-bank-node/src/outbox.rs:21-24` relies on timestamps sorting as instants. They do exactly while
  years have four digits (`Timestamps.TextsSortExactlyInFourDigitYears`).
- `crates/obp-bank-node/src/outbox.rs:338-340` and `interface_c/router.rs:374-376` call a redelivered
  settlement idempotent. Replaying one stamps rows that came to exist, or got their OBP id, since, and
  changes nothing otherwise (`Evidence.ReplayChangesOnlyLatecomers`,
  `OutboxStamps.ReplayChangesOnlyLatecomers`, with a run that shows it beside each).

## Model

| member | source | states |
|---|---|---|
| SettlementStore.Store.Claim | crates/obp-bank-node/src/settlement_store.rs:187-218 | insert-or-ignore claims a key once; an existing row is left as it is and handed back |
| SettlementStore.Store.ReclaimForRetry | crates/obp-bank-node/src/settlement_store.rs:222-234 | reopens exactly a retryable ERROR row, and answers the same whether it did or not |
| SettlementStore.Store.MarkSubmitted | crates/obp-bank-node/src/settlement_store.rs:236-263 | writes the outcome whatever the status |
| SettlementStore.Store.MarkError | crates/obp-bank-node/src/settlement_store.rs:265-283 | writes the reason and whether a retry is allowed, whatever the status |
| SettlementStore.Store.RecordDepth | crates/obp-bank-node/src/settlement_store.rs:287-297 | writes depth and stamp, whatever the status |
| SettlementStore.Store.MarkFinal | crates/obp-bank-node/src/settlement_store.rs:299-314 | finalizes a SUBMITTED row and no other |
| SettlementStore.Store.ListSubmitted | crates/obp-bank-node/src/settlement_store.rs:351-360 | the SUBMITTED rows with the oldest stamps, oldest first, no row twice, as many as the limit allows |
| Worklist.TakeOldest | crates/obp-bank-node/src/settlement_store.rs:351-360 | the n keys of a table with the oldest stamps |
| SettlementInstruction.Router.SettlementInstruction | crates/obp-bank-node/src/interface_c/router.rs:443-635 | the handler's reply, table, requests to the backend and transfers are those of the specification, for every answer of store and chain |
| SettlementInstruction.HandlingIsARun | crates/obp-bank-node/src/interface_c/router.rs:516-634 | every handling of a valid instruction is a run of the settlement machine |
| SettlementInstruction.PaysOnlyOnAClaimOrARetry | crates/obp-bank-node/src/interface_c/router.rs:516-634 | a delivery pays only if it claimed the key or reopened a retryable failure, and at most one transfer |
| Redelivery.WellFormedInstructionIsTaken | crates/obp-bank-node/src/interface_c/router.rs:468-514 | a decimal amount, a creditor and a key that is not blank make a valid instruction, for the floor of its amount in hundredths; the idempotency key goes before the settlement id |
| Redelivery.IncompleteInstructionIsRefused | crates/obp-bank-node/src/interface_c/router.rs:468-514 | anything less, and nothing else, is a bad message, and changes nothing |
| Redelivery.AttemptPaysRecordsAndReplies | crates/obp-bank-node/src/interface_c/router.rs:585-634 | a new key, or a retryable failure, is paid exactly what the backend's answer put on chain; the row shows the answer, or stays claimed if it cannot be written; the reply gives it either way |
| Redelivery.BackendIsAskedOnce | crates/obp-bank-node/src/interface_c/router.rs:516-585 | the backend is asked exactly when an attempt is made, once, for amount and creditor of the message |
| Redelivery.OtherRowsAnswerForThemselves | crates/obp-bank-node/src/interface_c/router.rs:680-707 | any other row replies its status, transaction and depth, or its reason; nothing is paid or written |
| Redelivery.StoreDownPaysNothing | crates/obp-bank-node/src/interface_c/router.rs:516-561 | a platform error is replied exactly when a statement before the payment failed, and nothing was done |
| Redelivery.FirstAnswerStands | crates/obp-bank-node/src/interface_c/router.rs:516-634 | a new key delivered any number of times: refused attempts leave nothing on chain and are tried again; the first other answer is paid, recorded and replied once, and repeated by every later delivery |
| SettlementRuns.StepKeepsSound | crates/obp-bank-node/src/interface_c/router.rs:516-634 | each step of handler, watcher, chain or crash keeps the count of transfers each status stands for |
| SettlementRuns.RunKeepsSound | crates/obp-bank-node/src/interface_c/router.rs:516-634 | so does every run |
| SettlementSafety.PaidAtMostOnce | crates/obp-bank-node/src/settlement_store.rs:9-15 | with one consumer, over every run, at most one transfer per idempotency key reaches the chain |
| SettlementSafety.PaidAtMostOnceUnlessRefused | crates/obp-bank-node/src/settlement_store.rs:187-218 | with any number of consumers, a key none of whose attempts was refused is paid at most once |
| SettlementSafety.NeverPaysTwiceExactlyWhenSerial | crates/obp-bank-node/src/settlement_store.rs:220-234 | no run pays a key twice if and only if there is at most one consumer |
| SettlementSafety.RecordedTransferIsOnChain | crates/obp-bank-node/src/settlement_store.rs:236-263 | a SUBMITTED or FINAL row names the one transfer on chain |
| SettlementSafety.FinalIsAbsorbing | crates/obp-bank-node/src/settlement_store.rs:236-314 | a FINAL row is never written again, though three statements have no status guard |
| SettlementSafety.FinalIsJustified | crates/obp-bank-node/src/finality.rs:62-71 | a row turned FINAL from SUBMITTED on an observed depth of at least the threshold, which it shows ever after |
| SettlementSafety.OnlyAConfirmationFinalizes | crates/obp-bank-node/src/finality.rs:56-105 | no other step makes a row FINAL |
| SettlementSafety.FinalIsRepeated | crates/obp-bank-node/src/interface_c/router.rs:680-707 | every later redelivery is answered FINAL with the transfer on chain, and pays nothing |
| FinalityWatcher.Watcher.Tick | crates/obp-bank-node/src/finality.rs:56-105 | one pass over the worklist leaves the table the specification gives, a failed write ending the pass |
| FinalityWatcher.PassIsARun | crates/obp-bank-node/src/finality.rs:56-105 | a pass is a run of the settlement machine |
| FinalityWatcher.PassShowsTheAnswers | crates/obp-bank-node/src/finality.rs:56-105 | each listed row shows what confirm answered: final at the threshold, else the depth, zero while not included, or rejected; untouched without an answer or after a failed write, which ends the pass |
| FinalityWatcher.HealthyPassRestamps | crates/obp-bank-node/src/settlement_store.rs:287-314 | a pass whose calls all answer stamps the rows it lists and leaves the others alone |
| FinalityWatcher.SubmittedRowIsTheWatchers | crates/obp-bank-node/src/interface_c/router.rs:516-634 | with one consumer nothing but the watcher's write touches a SUBMITTED row |
| FinalityWatcher.MissedRowMovesUp | crates/obp-bank-node/src/finality.rs:57-98 | over any run, consumer steps, failures and crashes included: while passes do not list a SUBMITTED row, each examination takes a row from ahead of it and none joins |
| FinalityWatcher.FewPassesMiss | crates/obp-bank-node/src/finality.rs:57-98 | no more undisturbed passes miss a row than there are hundreds ahead of it |
| FinalityWatcher.NoRowStarves | crates/obp-bank-node/src/finality.rs:57-98 | a SUBMITTED row with p rows ahead is listed within p/100 + 1 undisturbed passes and examined before that pass is over, whatever the consumer does between and during the passes |
| Follower.FollowerState.Watch | crates/obp-blockchain/src/cardano/follower.rs:91-93 | registering is idempotent and forgets nothing |
| Follower.FollowerState.ApplyForward | crates/obp-blockchain/src/cardano/follower.rs:99-113 | a block marks exactly the watched transactions it holds and joins the newest 32 points |
| Follower.FollowerState.ApplyBackward | crates/obp-blockchain/src/cardano/follower.rs:115-135 | a rollback forgets exactly what lies after its slot |
| Follower.FollowerState.Status | crates/obp-blockchain/src/cardano/follower.rs:138-147 | the answer for a transaction id is the specified status of its record, whose meaning DepthCountsFromTheInclusion gives |
| Follower.FollowerState.IntersectionPoints | crates/obp-blockchain/src/cardano/follower.rs:150-152 | the reversing loop offers the kept points newest first |
| Follower.RecordIsLookupUnlessLate | crates/obp-blockchain/src/cardano/follower.rs:90-135 | after any run the record of a transaction is what a search of the chain finds, if and only if it was not registered too late |
| Follower.CuttingIsTruncating | crates/obp-blockchain/src/cardano/follower.rs:115-135 | cutting a record by slot is looking up in the truncated chain |
| Follower.DepthCountsFromTheInclusion | crates/obp-blockchain/src/cardano/follower.rs:138-147 | a depth is reported exactly for a transaction on the chain; it is tip minus inclusion plus one, at least one |
| Follower.StatusIsExact | crates/obp-blockchain/src/cardano/follower.rs:90-147 | after any run the answer for any id not registered too late: none if it is not registered, else whether it is on the chain, and how deep under the tip last told |
| Follower.NewestPointIsOfferedFirst | crates/obp-blockchain/src/cardano/follower.rs:106-152 | the k-th point offered is the k-th block from the end: the points are a contiguous suffix of the chain |
| Follower.ReconnectingResumesAtTheOfferedPoint | crates/obp-blockchain/src/cardano/follower.rs:210-258 | a rollback to any offered point leaves watches and points those of the truncated chain |
| SettledStaysSettled.StepKeepsSound | crates/obp-bank-node/src/finality.rs:62-71 | every step of chain, follower and watcher, and every claim, outcome, failure and reopening written to the table, keeps FINAL transfers on the chain and out of reach of rollbacks |
| SettledStaysSettled.FinalTransferIsNeverRemoved | crates/obp-blockchain/src/cardano/settlement.rs:227-254 | once FINAL, the block holding the transfer is never removed by any later step |
| SettledForGood.OutcomesAreWrittenOnSettlingRows | crates/obp-bank-node/src/settlement_store.rs:236-283 | one consumer writes an outcome only on a SETTLING row, the guard the two statements do not have |
| SettledForGood.ChainRuns | crates/obp-bank-node/src/interface_c/router.rs:516-634 | every run of leg, follower and chain together is, seen from the chain, a run of SettledStaysSettled |
| SettledForGood.FinalMeansPaidOnceForGood | crates/obp-bank-node/src/settlement_store.rs:9-21 | once a row is FINAL, over every later step of leg, follower and chain: exactly one transfer under its key, the one it names, on the node's chain for ever |
| SettledLimits.FinalMeansPaidOnceExactlyWhenDeepEnough | crates/obp-bank-node/src/finality.rs:62-71 | FINAL means paid exactly once and on chain, in every run of the whole, if and only if rollbacks are shallower than the finality depth and at most 32 blocks |
| SettledLimits.FinalIsOnChainExactlyWhenDeepEnough | crates/obp-bank-node/src/finality.rs:62-71 | the same of the chain side alone |
| CardanoSettlement.AdaSettlement.Settle | crates/obp-blockchain/src/cardano/settlement.rs:177-221 | result, follower and what landed on the node, for every quote, wallet and answer |
| CardanoSettlement.AdaSettlement.SubmitAdaTransfer | crates/obp-blockchain/src/cardano/settlement.rs:100-164 | build, register, submit, and take the registration back when the submission fails |
| CardanoSettlement.RefusalsLandNothingExactlyWhenTheNodeIsHonest | crates/obp-bank-node/src/interface_c/router.rs:616-622 | step toward the settlement leg: a refusal means nothing landed if and only if the node takes no transaction it answers with an RPC error: no other refusal comes after the submission |
| CardanoSettlement.LegBooksWhatLanded | crates/obp-bank-node/src/interface_c/router.rs:616-622 | step toward the settlement leg: what the settlement machine books for an answer is what landed, under the same condition exactly |
| CardanoSettlement.LandedTransferIsRight | crates/obp-blockchain/src/cardano/settlement.rs:124-221 | whatever lands was registered first, pays the creditor the floor of the net at the rate, and balances |
| CardanoSettlement.FollowerIsLeftInOrder | crates/obp-blockchain/src/cardano/settlement.rs:136-149 | after a success the transfer is watched; a failed submission leaves the follower as it was unless it already watched that id |
| CardanoSettlement.AdaSettlement.Confirm | crates/obp-blockchain/src/cardano/settlement.rs:227-254 | the follower's answer, or else whether the wallet holds an output of the transaction |
| BackendOutcomes.SettlesExactlyWhenAccepted | crates/obp-blockchain/src/cardano/settlement.rs:177-221 | settling succeeds if and only if the payment was built and the node took it under its own id up to case; the outcome names it, on cardano, in ADA, with a text of as many lovelace as it pays |
| BackendOutcomes.RefusedExactlyFor | crates/obp-blockchain/src/cardano/settlement.rs:100-221 | a settlement is refused, and so retried, for six causes and no other: debtor, size, a refusal passed on, funds, transaction size, an RPC error to the submission |
| BackendOutcomes.TouchIsLostExactlyFor | crates/obp-blockchain/src/cardano/settlement.rs:100-221 | it is a transport failure exactly when rate source or node were out of touch, before or at the submission |
| BackendOutcomes.FailuresArePassedOn | crates/obp-blockchain/src/cardano/settlement.rs:100-149 | failures of others are passed on with their reason, in the order of the calls |
| BackendOutcomes.LandsExactlyWhenTaken | crates/obp-blockchain/src/cardano/settlement.rs:117-149 | something lands if and only if the payment was built and the node took it, whatever it answered |
| BackendOutcomes.FollowerWatchesWhatWasTaken | crates/obp-blockchain/src/cardano/settlement.rs:134-154 | the follower watches what the node took even under another id, forgets what was not answered for, and is untouched before |
| BackendOutcomes.EnoughMeansSettled | crates/obp-blockchain/src/cardano/settlement.rs:177-221 | a wallet with enough settles whatever can be sized, if the node takes it under its id |
| BackendOutcomes.LegIsToldWhatHappened | crates/obp-bank-node/src/interface_c/router.rs:585-632 | the leg sees a success exactly when settling succeeded and may retry exactly after a refusal |
| BackendOutcomes.OrdinaryInstructionIsPaid | crates/obp-bank-node/src/interface_c/router.rs:443-612 | from the text of the amount to the chain: the floor of the amount at the rate lands with its creditor, once, recorded and replied as SUBMITTED |
| BackendOutcomes.ConfirmsWhatIsOnChain | crates/obp-blockchain/src/cardano/settlement.rs:227-254 | after any run of the follower: a registered transaction is confirmed exactly if it is on the chain, at its depth; an unknown one exactly if the wallet holds an output of it, at depth one |
| BackendOutcomes.DepthIsTheFollowers | crates/obp-blockchain/src/cardano/settlement.rs:227-254 | only references of this chain are answered, and a depth of two or more comes from the follower |
| CoinSelection.SelectLargestFirst | crates/obp-blockchain/src/cardano/tx.rs:155-170 | the loop over the stably sorted coins with a saturating total returns the shortest covering prefix |
| CoinSelection.SelectsExactlyWhenCovered | crates/obp-blockchain/src/cardano/tx.rs:155-170 | for a positive target selection succeeds if and only if the true total covers it |
| CoinSelection.NoSmallerSelectionCovers | crates/obp-blockchain/src/cardano/tx.rs:151-154 | no smaller number of coins covers the target |
| CoinSelection.SelectionCovers | crates/obp-blockchain/src/cardano/tx.rs:155-170 | the selection is made of the wallet's coins, each at most as often as it has it, and covers the target |
| CoinSelection.LargerTargetSelectsSuperset | crates/obp-blockchain/src/cardano/tx.rs:155-170 | a larger target keeps every coin of the smaller selection |
| CoinSelection.OneCoinCoversTheRise | crates/obp-blockchain/src/cardano/tx.rs:155-170 | when each coin is worth the rise to a top, no target up to it takes more than one extra coin |
| CoinSelection.DeterministicExactlyWithoutTies | crates/obp-blockchain/src/cardano/tx.rs:152-157 | the order of taking depends only on which coins there are if and only if no two differ in their index alone |
| TxBuilder.BuildSignedPayment | crates/obp-blockchain/src/cardano/tx.rs:184-255 | the loop's result is that of at most eight rounds from the 250-byte fee |
| TxBuilder.BuiltTransactionIsSendable | crates/obp-blockchain/src/cardano/tx.rs:207-249 | a built transaction balances exactly, pays at least the fee of its size plus margin, fits, and has no dust change |
| TxBuilder.NoInputIsUsedTwice | crates/obp-blockchain/src/cardano/tx.rs:207-225 | a wallet listing each coin once never spends one twice |
| TxBuilder.FeesStrictlyIncrease | crates/obp-blockchain/src/cardano/tx.rs:238-249 | an under-paid round asks for a strictly larger fee, never past the fee of the largest size |
| TxBuilder.InsufficientMeansInsufficient | crates/obp-blockchain/src/cardano/tx.rs:207-208 | giving up for lack of funds means the wallet cannot cover the largest fee |
| BuildOutcomes.HashesAreThirtyTwoBytes | crates/obp-blockchain/src/cardano/tx.rs:270-274 | assembly takes a hash if and only if it decodes from hex to 32 bytes |
| BuildOutcomes.BuildErrorsSay | crates/obp-blockchain/src/cardano/tx.rs:206-254 | what each error means: a hash that does not decode, a balanced transaction on the largest coins over the limit, a wallet short of payment and largest fee, coins smaller than the fee can rise |
| BuildOutcomes.EnoughMeansBuilt | crates/obp-blockchain/src/cardano/tx.rs:184-255 | a payment is built whenever none of these holds |
| BuildOutcomes.BuiltPaysWhatWasAsked | crates/obp-blockchain/src/cardano/tx.rs:203-252 | the fee of a built transaction, dust aside, is that of 250 bytes or what the size of another transaction tried required |
| TxBuilder.UnderpaidRoundsMakeProgress | crates/obp-blockchain/src/cardano/tx.rs:206-250 | of two under-paid rounds in a row the later takes more coins, drops the change, or widens the fee field |
| TxBuilder.RoundsPerCoinSuffice | crates/obp-blockchain/src/cardano/tx.rs:206-254 | twice the number of coins plus five rounds always reach a verdict |
| TxBuilder.EightRoundsSuffice | crates/obp-blockchain/src/cardano/tx.rs:206-254 | eight rounds do when each coin is worth what the fee can rise after the first |
| TxBuilder.RoundsPerByteSuffice | crates/obp-blockchain/src/cardano/tx.rs:206-254 | for given parameters one number of rounds, twice the size limit plus five, reaches a verdict for every wallet, when each input takes a byte or more |
| FeeLoopLimits.CapsFailAsTheSizeLimitGrows | crates/obp-blockchain/src/cardano/tx.rs:180-254 | for every encoder with inputs of a fixed size, all fees and every cap, a wallet of enough small coins exhausts the cap, given that the size limit has room for them, the payment is 1 ADA or more, an input costs between 1 lovelace and 1 ADA, and the smallest transaction with its margin is above the 250 bytes first estimated |
| FeeLoopLimits.RoundsGrowWithTheLimit | crates/obp-blockchain/src/cardano/tx.rs:180-254 | with the network's fees and 36 bytes an input, each cap up to 10^9 is exhausted by some wallet under the limit of 16384 + 36 * cap bytes |
| FeeLoopLimits.EightRoundsCanFail | crates/obp-blockchain/src/cardano/tx.rs:52-254 | with 36 bytes an input and the network's parameters, nine coins, eight of them smaller than a network admits, make the builder give up after its eight rounds |
| FeeLoopLimits.EightRoundsSufficeOnTheNetwork | crates/obp-blockchain/src/cardano/tx.rs:36-254 | with the network's parameters and no coin under 710072 lovelace the eight rounds always reach a verdict, whatever the encoder |
| FeeLoopLimits.TwoPassesCanFail | crates/obp-blockchain/src/cardano/tx.rs:180-254 | coins of 3.166381 and 2 ADA, paying 3 ADA: under-paid twice, built by the third pass |
| Outbox.Store.Insert | crates/obp-bank-node/src/outbox.rs:204-223 | a new id starts at INITIATED; an existing one is refused and untouched |
| Outbox.Store.ClaimDue | crates/obp-bank-node/src/outbox.rs:250-270 | the oldest open rows never tried, or last tried before the cutoff, texts compared as texts |
| Outbox.Store.RecordAttempt | crates/obp-bank-node/src/outbox.rs:275-287 | counts the attempt and stores its time cut to seconds |
| Outbox.Store.MarkSubmitted | crates/obp-bank-node/src/outbox.rs:291-308 | SUBMITTED with the id OBP-API gave, if any |
| Outbox.Store.MarkPromiseWritten | crates/obp-bank-node/src/outbox.rs:315-334 | PROMISE_WRITTEN with transaction and chain |
| Outbox.Store.MarkReported | crates/obp-bank-node/src/outbox.rs:311-313 | REPORTED, nothing else changed |
| Outbox.Store.MarkException | crates/obp-bank-node/src/outbox.rs:363-376 | EXCEPTION with the reason |
| Outbox.Store.MarkSettled | crates/obp-bank-node/src/outbox.rs:342-361 | stamps exactly the unstamped rows whose OBP id is listed and returns their number |
| Dispatcher.Dispatcher.ProcessDueOnce | crates/obp-bank-node/src/dispatcher.rs:97-113 | a pass over the due rows as the machine makes it; the number returned is that of the rows whose status changed |
| Dispatcher.Dispatcher.ProcessRow | crates/obp-bank-node/src/dispatcher.rs:117-268 | the table after one row, and the outcome, are those of the machine driven by the same answers |
| Dispatcher.RecordedMeansChanged | crates/obp-bank-node/src/dispatcher.rs:115-117 | the flag returned for a row tells whether its status changed |
| Dispatcher.RowIsARun | crates/obp-bank-node/src/dispatcher.rs:117-268 | processing a row is a run of the dispatcher machine, interrupted no more often than calls took effect unanswered or statements failed, and whose books show exactly what took effect |
| Dispatcher.PassIsARun | crates/obp-bank-node/src/dispatcher.rs:97-113 | a whole pass is such a run, its interruptions bounded by its mishaps |
| DispatcherOutcomes.SubmitDecides | crates/obp-bank-node/src/dispatcher.rs:125-163 | a retryable submit leaves the row, a refused one closes it with its reason, an accepted one is recorded with its id and the write follows |
| DispatcherOutcomes.WriteDecides | crates/obp-bank-node/src/dispatcher.rs:166-195 | a failed write leaves the row SUBMITTED, an accepted one is recorded with transaction and chain and the report follows |
| DispatcherOutcomes.ReportDecides | crates/obp-bank-node/src/dispatcher.rs:199-266 | without both ids the row is closed; else reported, left, or closed with the reason, by the answer |
| DispatcherOutcomes.InitiatedRow | crates/obp-bank-node/src/dispatcher.rs:117-268 | the columns a new row ends its turn with, for every combination of answers and failing statements |
| DispatcherOutcomes.AllWellMeansDone | crates/obp-bank-node/src/dispatcher.rs:117-268 | any open row answered well is reported in one turn under the id it was given, or closed because it was given none |
| DispatcherOutcomes.EachRowGetsItsTurn | crates/obp-bank-node/src/dispatcher.rs:104-111 | in a pass each row gets the turn it would get alone, until a turn fails; the rest is left alone |
| DispatcherOutcomes.WellAnsweredRowIsDone | crates/obp-bank-node/src/dispatcher.rs:97-268 | a row answered well is done after the pass, its attempt counted, whatever the rows before it are answered |
| DispatcherRuns.StepKeepsSound | crates/obp-bank-node/src/dispatcher.rs:97-268 | each step keeps statuses, records and outside effects of a row in agreement |
| DispatcherRuns.CutKeepsBooks | crates/obp-bank-node/src/dispatcher.rs:117-268 | stopping anywhere in a row, with the call in flight answered or not, keeps them in agreement |
| DispatcherSafety.RowsOnlyMoveForward | crates/obp-bank-node/src/outbox.rs:8-19 | a row is never lost or taken back; what it was made of and recorded is kept; REPORTED and EXCEPTION are absorbing |
| DispatcherSafety.RowIsWhatWasInserted | crates/obp-bank-node/src/outbox.rs:204-223 | over any run a row is made of what was inserted first under its id: bank, account, payload, salt, and the second it was inserted |
| DispatcherSafety.ClosedRowsAreLeftAlone | crates/obp-bank-node/src/outbox.rs:250-270 | a closed row is never submitted, written or reported again |
| DispatcherSafety.OnceAndOncePerInterruption | crates/obp-bank-node/src/dispatcher.rs:125-268 | submits, promise writes and reports of a row each take effect at most once, plus once per interruption before their record |
| DispatcherSafety.RecordsComeInOrder | crates/obp-bank-node/src/dispatcher.rs:165-268 | no write before a recorded submit, no report before a recorded write, REPORTED knows both ids |
| DispatcherSafety.RevealMatchesCommitment | crates/obp-bank-node/src/dispatcher.rs:166-297 | everything revealed for a row is the one commitment written for it, with its salt, preimage, ids and chain, and it verifies |
| DispatcherSafety.AttemptsKeepTheirDistance | crates/obp-bank-node/src/dispatcher.rs:97-106 | any two recorded attempts of a row are more than the retry interval apart, given only that time texts sort as times |
| DispatcherSafety.Rfc3339SortsThroughTheRun | crates/obp-bank-node/src/outbox.rs:392-396 | the format in use does, until year 10000 |
| DispatcherProgress.AttemptsTakeFromAhead | crates/obp-bank-node/src/outbox.rs:250-270 | over any run, interrupted or not: while passes within one retry interval do not list a due row, each attempt takes a row from ahead of it and none joins |
| DispatcherProgress.FewPassesMiss | crates/obp-bank-node/src/dispatcher.rs:97-113 | no more uninterrupted passes miss a row than there are batches ahead of it |
| DispatcherProgress.NoRowWaitsLongerThanItsElders | crates/obp-bank-node/src/dispatcher.rs:97-113 | a due row with p open rows no younger than it is listed within p/batch + 1 uninterrupted passes of one retry interval, and attempted before that pass is over |
| DispatcherStarvation.YoungerRowCanStarve | crates/obp-bank-node/src/outbox.rs:250-270 | on every schedule of passes further apart than the retry interval, a batch of older rows whose calls get no answer keeps a younger row from ever being listed |
| Timestamps.CivilOf | crates/obp-bank-node/src/outbox.rs:392-396 | every instant has a valid calendar date, which counts back to it |
| Timestamps.TextsSortExactlyInFourDigitYears | crates/obp-bank-node/src/outbox.rs:21-24 | the texts up to a limit sort as instants if and only if no year up to it has five digits |
| Timestamps.StampTextsSortAsInstants | crates/obp-bank-node/src/settlement_store.rs:362-364 | texts with a fraction of no, three, six or nine digits and a written offset sort as instants too |
| StoredTimes.WorklistIsByText | crates/obp-bank-node/src/settlement_store.rs:351-364 | ordering the worklist by the text column lists the rows examined longest ago |
| StoredTimes.DueListIsByText | crates/obp-bank-node/src/outbox.rs:255-270 | ordering the batch by the text column lists the oldest rows |
| OutboxStamps.FirstCoverWins | crates/obp-bank-node/src/outbox.rs:336-361 | over any run a promise carries the stamp of the first settlement that named its OBP id, and keeps it |
| OutboxStamps.ReplayChangesOnlyLatecomers | crates/obp-bank-node/src/outbox.rs:336-361 | settling a list again changes nothing if and only if every row it names was named before once it had its OBP id |
| OutboxStamps.ReplayCanStampLate | crates/obp-bank-node/src/outbox.rs:336-361 | a run in which a replayed settlement stamps a row its first delivery missed |
| OutboxStamps.CountsAddUp | crates/obp-bank-node/src/outbox.rs:339-361 | the counts returned add up to the rows stamped |
| Evidence.Store.Upsert | crates/obp-bank-node/src/evidence.rs:183-229 | a redelivery replaces what a delivery writes and keeps results, links and stamps |
| Evidence.Store.RecordCbsResult | crates/obp-bank-node/src/evidence.rs:234-252 | annotates an existing row only |
| Evidence.Store.RecordReturn | crates/obp-bank-node/src/evidence.rs:255-269 | links an existing row only |
| Evidence.Store.MarkSettled | crates/obp-bank-node/src/evidence.rs:274-294 | the loop stamps each fresh row once and returns their number, an id listed twice counting once |
| Evidence.FirstStampWins | crates/obp-bank-node/src/evidence.rs:183-294 | over any interleaving a row carries the stamp of the first settlement that named it once it existed |
| Evidence.LastDeliveryWins | crates/obp-bank-node/src/evidence.rs:180-229 | what a row says was received is what its last delivery said, whatever came between and after |
| Evidence.LastNotesWin | crates/obp-bank-node/src/evidence.rs:180-269 | over any interleaving the answer and the return a row shows are those noted last since it existed; redeliveries and settlements leave them alone |
| Evidence.ReplayChangesOnlyLatecomers | crates/obp-bank-node/src/evidence.rs:271-294 | replaying a settlement changes nothing if and only if every row it names was named before while it existed |
| Evidence.ReplayCanStampLate | crates/obp-bank-node/src/evidence.rs:271-294 | a sequence of calls in which a replayed settlement stamps a row its first delivery missed |
| Evidence.CountsAddUp | crates/obp-bank-node/src/evidence.rs:273-294 | the counts add up to the rows stamped |
| Beneficiary.Node.CreditNotification | crates/obp-bank-node/src/interface_c/router.rs:100-286 | reply, evidence, outbox and what reached the core banking system, for every message and answer |
| Beneficiary.Node.InitiateReturn | crates/obp-bank-node/src/interface_c/router.rs:293-367 | a return is enqueued exactly when the preimage names bank and account and the insert succeeds |
| Beneficiary.Node.SettlementAdvice | crates/obp-bank-node/src/interface_c/router.rs:377-429 | both tables are stamped whichever answers; acknowledged exactly when both did |
| Beneficiary.MismatchIsRefusedAndKept | crates/obp-bank-node/src/interface_c/router.rs:114-174 | step toward Returns, read off one message: refused for its evidence if and only if a shown triplet does not verify; kept as unverified, never returned |
| Beneficiary.OnRecordBeforeDelivery | crates/obp-bank-node/src/interface_c/router.rs:129-205 | step toward Returns: when a credit is handed to the core banking system it is on record, as notified and as it checked, never as a refuted triplet; what is written afterwards keeps that and touches no other row |
| Beneficiary.ReturnsExactlyWhatIsRefused | crates/obp-bank-node/src/interface_c/router.rs:220-268 | step toward Returns: a row is enqueued if and only if the reply says returned, and only for a credit refused for good that is not a return |
| CreditOutcomes.RepliesExactly | crates/obp-bank-node/src/interface_c/router.rs:100-286 | each reply exactly when: credited if and only if the core banking system took it, to be retried if that was out of reach or at fault, returned or parked if it refused, mismatch, platform error |
| CreditOutcomes.HandedOverOnce | crates/obp-bank-node/src/interface_c/router.rs:188-196 | the credit is handed over once, as it came, exactly when it is on record and not refuted |
| CreditOutcomes.RecordShowsTheCredit | crates/obp-bank-node/src/interface_c/router.rs:129-170 | the row shows the credit as notified and as it checked; no other row changes |
| CreditOutcomes.RecordShowsWhatHappened | crates/obp-bank-node/src/interface_c/router.rs:195-285 | and DELIVERED with its reference, REJECTED or FAILED by the answer, and the return it led to; the settlement stamp stays |
| CreditOutcomes.ReturnIsAPromiseOfThisBank | crates/obp-bank-node/src/interface_c/router.rs:293-367 | a return is one new row of this bank, same amount and currency, to the account and bank the preimage names, naming the credit; nothing else is written |
| CreditOutcomes.RetriedCreditIsTakenOnce | crates/obp-bank-node/src/interface_c/types.rs:26-36 | a sender that delivers again only after transient replies never has a credit taken twice, or taken and returned |
| Returns.ReturnsRepayWhatWasRefused | crates/obp-bank-node/src/interface_c/router.rs:288-367 | every minted return repays one non-return promise of the other node, same amount and currency, to its originator; returns never outnumber refusals |
| Returns.OneHopOnly | crates/obp-bank-node/src/interface_c/router.rs:211-240 | a minted return, relayed and refused in its turn, mints nothing |
| Commitments.BindsExactlyTheJoinedText | crates/obp-blockchain/src/lib.rs:36-49 | without collisions another pair is accepted if and only if salt and cleartext read on end are the same |
| CommitReveal.VerbatimRelayIsAccepted | crates/obp-bank-node/src/interface_c/router.rs:114-128 | whatever any run revealed, relayed as it was, passes the beneficiary's check |
| CommitReveal.OnlyTheRevealedTextIsAccepted | crates/obp-bank-node/src/interface_c/router.rs:114-128 | under the on-chain commitment only the revealed text passes |
| CommitReveal.CommitmentIsOfTheRequest | crates/obp-bank-node/src/dispatcher.rs:275-297 | over any run what is committed and revealed is the hash of salt and canonical text of the request as inserted |
| CommitReveal.CommitmentBindsTheRequest | crates/obp-blockchain/src/lib.rs:36-49 | without collisions two requests with salts of one length share a commitment if and only if salts and canonical texts agree |
| Amounts.ParseMinorUnits | crates/obp-bank-node/src/interface_c/router.rs:713-741 | the padding and truncating loop computes the specified minor units or error |
| Amounts.ParsesToFloorOfHundredths | crates/obp-bank-node/src/interface_c/router.rs:713-741 | a well-formed decimal is read as the floor of 100 times its value, and refused if and only if that exceeds 128 bits |
| Amounts.ReadsExactlyNumbers | crates/obp-bank-node/src/interface_c/router.rs:713-741 | of all texts: which are read, as what, and which error the others get |
| Amounts.ParseUndoesPrint | crates/obp-bank-node/src/interface_c/router.rs:713-741 | parsing an amount printed with two decimals gives it back |
| Amounts.LovelaceIsTheFloor | crates/obp-blockchain/src/cardano/settlement.rs:264-279 | the transfer is the largest number of lovelace worth no more than the net, and sizing succeeds exactly when it is positive and fits |
| Amounts.LovelaceIsMonotone | crates/obp-blockchain/src/cardano/settlement.rs:264-279 | a larger net is never worth less |
| Amounts.SplittingLosesLessThanOneLovelacePerPart | crates/obp-blockchain/src/cardano/settlement.rs:264-279 | splitting a net into m parts loses at most m - 1 lovelace |
| KeyDecoding.DecodesExactlyWhatIsAnnounced | crates/obp-blockchain/src/cardano/wallet.rs:122-162 | decoding yields a payload if and only if the bytes are a byte-string header announcing it |
| KeyDecoding.DecodeUndoesEncode | crates/obp-blockchain/src/cardano/wallet.rs:179-193 | decoding undoes encoding below 2^16 bytes, whatever follows |
| KeyDecoding.RoundTripsExactlyBelow64K | crates/obp-blockchain/src/cardano/wallet.rs:122-193 | the bound is exact |

## Left out

- HTTP, AMQP, WebSocket and SQLite: only their answers appear, and each statement is one atomic update.
- The crate `obp-bank-node-app`, its scripts, OIDC login and the setup reconciler.
- Price arithmetic in `fx.rs`, which is floating point: the rate is an arbitrary integer.
- SHA-256, Ed25519, bech32, transaction assembly and JSON text: function parameters, with what a theorem needs of them in its `requires`.
- `updated_at` of the outbox and the names and routing columns of the evidence table: nothing modelled here reads them.
- Routing, configuration, logging and reconnect backoff; the settlement backend built without a follower; the lock around a submission.
- Liveness of finality across restarts: a restarted follower no longer knows old transactions and the fallback reports a depth of one at most.
- Exactly one return per refused credit: a redelivery runs the delivery again and may mint another; `Returns` bounds returns by refusals.
- A customer of the southbound API may set `return_of` on a payment of its own (`rest/types.rs:24-28`): the one-hop results are about the returns a node mints.
- Whether successive writers pick the same coin: the builder sees the coins the query gave it.
- Inputs of a confirmation other than the transactions whose outputs the wallet holds: the node's listing is read into those.
- Amounts.ParseMinorUnits: a fraction whose second byte ends inside a character, as in "1.5é", makes `String::truncate` panic (router.rs:729-730) where the contract gives an error; white space past ASCII is not trimmed.
- Blocks the follower skips because it cannot read them.
- The in-place sort of the coins is a function here, stable like the library's; trimming and case folding are ASCII.
- TxBuilder.BuildSignedPayment: requires that the sums formed fit 64 bits, as the code assumes; assembly fails only for a malformed input hash.
- SettlementSafety.PaidAtMostOnce: assumes that a redelivery under one key carries the same body, and that an RPC error of the node means it did not take the transaction.
- DispatcherProgress.NoRowWaitsLongerThanItsElders: rows inserted in the same second as the one that waits may be listed before it, so those inserted meanwhile are taken to be younger.
- DispatcherSafety.AttemptsKeepTheirDistance: the clock is not read earlier within a pass than at its scan.
- Dispatcher.Dispatcher.ProcessDueOnce: inserts and settlements between its statements are steps of the machine, not of the method.
