# Verification of the ledger

A Dafny model of the event-sourced double-entry ledger, with proofs of what it promises over whole runs:
money is conserved, every posting has its mirror, every command takes effect at most once, and what is replayed
is what was live. Around it stand the multi-key lock, the lock keys chosen for payments and transfers, the
optimistic version check, the sliding-window limiter, the fee arithmetic and the in-process message bus.

`dafny verify dfyconfig.toml` checks the project.

## How it is built

Code that changes things in place is a class or a method here, and is proved equal to a function on values;
the theorems are about those functions, so they hold of the methods.

| files | model |
|---|---|
| `Text`, `Posting`, `Account` | strings, postings and events, one account as a value: `Book` is what booking one event does, `Replay` what a log rebuilds |
| `Aggregate` | the mutable account aggregate and its commands |
| `Store`, `Repository` | the event store per account (version, log, reserved ids, snapshots) with load and save |
| `Entities`, `Ledger`, `Service` | transactions and bookings; the outcome of a batch (`Record`) and of a transfer (`Transfer`); the service over aggregates and repository |
| `Batches`, `Funds`, `Transfers`, `TransferCommands` | facts about booking a batch, when it is accepted, what a transfer command moves |
| `Runs`, `Money`, `Concurrent` | all runs: exactly-once, conservation, mirrors; transactions interleaved without locks |
| `Payments`, `PaymentService`, `PaymentConsumer`, `PaymentCommands` | payment bookings and legs, the builders of both delivery paths, the two direct commands |
| `PaymentTable` | the postings and the acceptance of each payment event, written out |
| `PaymentEntries`, `PaymentFacts`, `Redelivery` | what the builders have in common; reversal and funds; payments delivered again, refunded and charged back |
| `LockKeys`, `Locks`, `LockProtocol` | lock keys and their coverage, one `WithLocks` call, any number of them interleaved |
| `RateLimit`, `Fee`, `PubSub`, `PubSubRuns`, `PubSubDelivery` | limiter, fee, bus: safety, progress and delivery |
| `Instances` | concrete inputs for the findings below |

A good store (`Stores.GoodStore`) is one whose logs were made by commands; the empty store is one, and
`Runs.RunGrows` shows that every run stays among them. `Money.DoubleEntry` commands are transfers and batches of
mirrored pairs, which by `Money.TransferIsPaired` and `PaymentFacts.PaymentsAreDoubleEntry` is all that transfers and
payment events ever make.

## What the proofs brought to light

Each point names the lemma with the exact condition and, where there is one, the instance.

- `RecordLedgerEvents` does not check that a batch balances. It conserves money exactly for batches that sum to
  zero (`Money.StepMovesTotal`, `Instances.UnbalancedBatchIsStored`); the builders only make such batches.
- A withdrawal request without a clearing key is held on its provider's account, but its failure releases from the
  account of the (blank) key, so the two do not cancel. A withdrawal books nothing on success, but a refund of it books
  its legs all the same (`PaymentFacts.ReversalNetsToZero`, `Instances.ProviderHeldIsNotUndone`,
  `Instances.RefundOfWithdrawalIsNotUndone`).
- A payment is booked once per payment id that its deliveries resolve to. A payload without a payment id, delivered
  through both paths with a message id that differs from its transaction id, is booked twice (`Redelivery.AbsorbedIffSameID`,
  `Redelivery.MovesOncePerID`, `Instances.NamelessIsPaidTwice`).
- A payment booked without its fee, or with another fee account, is refused when it comes again with its fee
  (`Redelivery.FeeChangeExactly`, `Instances.FeeAccountChanged`).
- A payment that was refunded can be charged back as well: only a second reversal of the same kind is absorbed
  (`Redelivery.ReversedOncePerKind`, `Redelivery.RefundAndChargeback`, `Instances.RefundedAndChargedBack`).
- The gRPC server computes no lock key for a blank clearing key, while the builders write to the clearing account of the
  blank key (`LockKeys.LockCoverage`, `Instances.BlankKeyIsNotLocked`).
- The transfer handler locks ids as given, while the service trims them. Sender and receiver arrive trimmed; only a fee
  account that is configured with white space around it, on a transfer with a fee, goes unlocked
  (`LockKeys.IncomingTransferCoverage`, `Instances.PaddedFeeAccountIsNotLocked`).
- Two deliveries of a batch at the same time, without a common lock, can have one of them refused for rows read at different
  moments, although either order would accept both (`Concurrent.MixedReadsAreRefused`,
  `Concurrent.ConcurrentRedeliveryRefused`). An answer of success is always true (`Concurrent.OkMeansBooked`).
- `ReservePostedTransaction` tests the outer error instead of the one it got, so a duplicate goes unreported and the
  branch for an already applied posting is never taken; the version check still refuses such a save
  (`Repositories.LedgerRepository.Save`).
- A save whose pending events pass two multiples of a hundred makes two snapshots under one id, and its batch is refused
  (`Funds.FreshBatchExactly`, `Instances.TwoSnapshotsAreRefused`).
- The limiter counts whole seconds, so a stretch of the window's length that starts off a whole second can see more than
  the limit, up to twice as much (`RateLimits.OverfullExactly`, `RateLimits.AtMostTwice`, `RateLimits.TwiceHappens`).
- The fee's overflow check sees the last addition only. A product that wraps can pass as a fee that is too small, or as
  none at all (`Fees.ComputeExactly`, `Fees.TooSmallElsewhere`, `Fees.OverflowUnseen`).
- An acquire whose reply is lost leaves its key locked until it expires: only keys acquired without error are released
  (`Locks.LockServer.WithLocks`, `LockProtocol.LostAcquireStaysLocked`, `LockProtocol.LeftLockedUntilExpiry`).
- An unsubscribe waits while a blocking publisher holds the subscription on a full buffer, even when the one who waits is the
  only reader (`PubSubRuns.StuckExactly`, `PubSubRuns.UnsubscribingReaderWaits`).

## Model

| member | source | states |
|---|---|---|
| `Text.TrimTakesSpaces` | core/modules/ledger/domain/aggregate/ledger_account_aggregate.go:508-569 | trimming takes white space off both ends and nothing else |
| `Text.CurrencyExactly` | core/modules/ledger/domain/aggregate/ledger_account_aggregate.go:96-102 | two currency codes are one if and only if they agree, trimmed, letter by letter up to case; the code has no small letter |
| `Text.LessExactly` | core/shared/infra/lock/lock_wrapper.go:54-55 | the order of keys, written out: at the first place where two texts part, one has ended or has the smaller character |
| `Postings.NormalizeFixpoints` | core/modules/ledger/domain/aggregate/ledger_account_aggregate.go:508-569 | normalising a posting is a projection: what it returns is well formed, and exactly the well-formed postings are left as they are |
| `Postings.PostingRefusals` | core/modules/ledger/domain/aggregate/ledger_account_aggregate.go:571-591 | which refusal a posting meets, and the posting it becomes otherwise, field by field |
| `Postings.EventRoundTrip` | core/modules/ledger/domain/aggregate/ledger_account_aggregate.go:627-648 | posting to event and back gives the posting with its kind's sign, so it is the identity if and only if the delta's sign matches the type, for all ten payment types |
| `Postings.PreviewIsStable` | core/modules/ledger/domain/aggregate/ledger_account_aggregate.go:627-680 | an event read for an account id, trimmed or not, yields a posting that a second normalisation leaves alone |
| `Postings.TransferEventsReadBack` | core/modules/ledger/domain/aggregate/ledger_account_aggregate.go:242-336 | the events the two transfer commands write read back as the postings the commands checked |
| `Postings.PreviewIgnoresTime` | core/modules/ledger/domain/aggregate/ledger_account_aggregate.go:895-902 | the same event dated otherwise yields the same posting up to the booked time |
| `Postings.SameExactly` | core/modules/ledger/domain/aggregate/ledger_account_aggregate.go:895-902 | two postings are the same if and only if they agree in every field but the booked time |
| `Accounts.TransitionIsPost` | core/modules/ledger/domain/aggregate/ledger_account_aggregate.go:65-94 | on its own account a transition fails only for an unreadable event or for funds, and otherwise books exactly the posting read |
| `Accounts.BalanceInAnyCase` | core/modules/ledger/domain/aggregate/ledger_account_aggregate.go:96-102 | the balance is found for a currency in any case and with white space around it |
| `Accounts.PostingsRefused` | core/modules/ledger/domain/aggregate/ledger_account_aggregate.go:425-466 | a normalised posting is refused for funds, then for an account that is already somebody else's, and otherwise moves one balance and one entry of the posted transactions |
| `Accounts.ExemptTypes` | core/modules/ledger/domain/aggregate/ledger_account_aggregate.go:468-482 | the eight payment types that may overdraw an account |
| `Accounts.BookStaysInStep` | core/shared/pkg/event/aggregate_root.go:83-107 | once a command's guards have passed, the transition of the event already appended cannot fail, and replaying the pending events still gives the live state |
| `Accounts.ReplaySplits` | core/shared/pkg/event/aggregate_root.go:109-119 | replaying a log is replaying any prefix of it and then the rest, errors included |
| `Accounts.ReplayPosts` | core/shared/pkg/event/aggregate_root.go:109-119 | a log made by commands never fails to replay; each event books its posting |
| `Accounts.ProducedVersions` | core/shared/pkg/event/aggregate_root.go:138-140 | the versions of a command-made stretch count up by one from the base version |
| `Accounts.ReplayGrows` | core/modules/ledger/domain/aggregate/ledger_account_aggregate.go:425-443 | replay keeps every posting it starts from and adds exactly the transaction ids of the log, none of them twice |
| `Accounts.PostKeepsSound` | core/modules/ledger/domain/aggregate/ledger_account_aggregate.go:425-466 | booking a new, allowed posting keeps each balance equal to the sum of the posted deltas and no lower than the sum of the exempt debits |
| `Accounts.ReplayIsSound` | core/modules/ledger/domain/aggregate/ledger_account_aggregate.go:425-482 | every account replayed from a command-made log has balances equal to the sums of its postings, bounded below by its exempt debits |
| `Accounts.NoOverdraft` | core/modules/ledger/domain/aggregate/ledger_account_aggregate.go:445-482 | an account without an exempt debit never has a negative balance |
| `Aggregates.LedgerAccountAggregate.Transition` | core/modules/ledger/domain/aggregate/ledger_account_aggregate.go:65-94 | the in-place transition reaches the state the replay function gives, or fails with its error and changes nothing |
| `Aggregates.LedgerAccountAggregate.ApplyPosting` | core/modules/ledger/domain/aggregate/ledger_account_aggregate.go:425-443 | balances and posted transactions move exactly as booking the normalised posting does, or nothing changes |
| `Aggregates.LedgerAccountAggregate.ApplyChange` | core/shared/pkg/event/aggregate_root.go:83-107 | the event is appended with the next version before the transition runs; both are in the new state |
| `Aggregates.LedgerAccountAggregate.ApplyPostingEvent` | core/modules/ledger/domain/aggregate/ledger_account_aggregate.go:122-150 | an event is booked, absorbed as a duplicate, or refused, as the booking function says; log and state stay in step |
| `Aggregates.LedgerAccountAggregate.TransferToAccount` | core/modules/ledger/domain/aggregate/ledger_account_aggregate.go:242-288 | the sending command has the same effect as booking its event |
| `Aggregates.LedgerAccountAggregate.ReceiveTransfer` | core/modules/ledger/domain/aggregate/ledger_account_aggregate.go:290-336 | the receiving command has the same effect as booking its event |
| `Aggregates.LedgerAccountAggregate.BookPaymentPosting` | core/modules/ledger/domain/aggregate/ledger_account_aggregate.go:196-240 | with a type whose direction is the delta's sign, or no valid type: the error of the posting, or the effect of booking its event, which records the posting as given |
| `Aggregates.LedgerAccountAggregate.BookPayment` | core/modules/ledger/domain/aggregate/ledger_account_aggregate.go:152-169 | the posting and event recorded are those of a deposit or withdrawal by the delta's sign; duplicates are absorbed, errors change nothing |
| `Aggregates.LedgerAccountAggregate.ReversePayment` | core/modules/ledger/domain/aggregate/ledger_account_aggregate.go:171-194 | a type that is neither a refund nor a chargeback is refused before anything else; for those two, the posting and event recorded are theirs by the sign of the delta |
| `Aggregates.PaymentCommandMoves` | core/modules/ledger/domain/aggregate/ledger_account_aggregate.go:152-240 | such a command moves one balance by the signed amount when it books something new, and otherwise nothing; exempt types are never refused for funds |
| `Aggregates.LedgerAccountAggregate.LoadFromHistory` | core/shared/pkg/event/aggregate_root.go:109-119 | the replay loop ends in the state of the longest prefix that replays, and fails exactly if that is not the whole log |
| `Aggregates.LedgerAccountAggregate.MarkPersisted` | core/shared/pkg/event/aggregate_root.go:121-129 | pending events become history: the base version moves to the last of them and the state stays |
| `Aggregates.LedgerAccountAggregate.PostedTransaction` | core/modules/ledger/domain/aggregate/ledger_account_aggregate.go:104-120 | looks a posting up by its trimmed transaction id; blank finds nothing |
| `Aggregates.NewLedgerAccountAggregate` | core/modules/ledger/domain/aggregate/ledger_account_aggregate.go:39-46 | a fresh account under the trimmed id, or an error exactly for a blank one |
| `Stores.AfterIsSuffix` | core/modules/ledger/infra/persistent/repository/ledger_aggregate_event_store.go:218-252 | the events after a version are the suffix of the log from there |
| `Stores.SnapshotRefinesReplay` | core/modules/ledger/infra/persistent/repository/ledger_aggregate_store.go:30-47 | a snapshot followed by the events after it rebuilds what the whole log rebuilds |
| `Stores.SavedRowIsGood` | core/modules/ledger/infra/persistent/repository/ledger_aggregate_store.go:49-110 | saving an account loaded from a good row leaves a good row whose replay is the live state, and no reserved id is reserved again |
| `Repositories.LedgerRepository.Load` | core/modules/ledger/infra/persistent/repository/ledger_account_aggregate_repo_impl.go:36-55 | whatever snapshot it starts from, the loaded account is the replay of its whole log at its stored version |
| `Repositories.LedgerRepository.Save` | core/modules/ledger/infra/persistent/repository/ledger_aggregate_store.go:49-110 | refused exactly on a moved version or on two snapshot versions in one save; else the row is the saved row and the account has nothing pending |
| `Repositories.LedgerRepository.ReservePostedTransaction` | core/modules/ledger/infra/persistent/repository/ledger_aggregate_event_store.go:118-161 | the transaction id ends up reserved; an event that is no posting is passed over, an unreadable one is an error; a clash goes unreported, as the shadowed error variable has it |
| `Repositories.LedgerRepository.Append` | core/modules/ledger/infra/persistent/repository/ledger_aggregate_event_store.go:195-216 | an event is appended unless its version is taken |
| `Repositories.LedgerRepository.CreateSnapshot` | core/modules/ledger/infra/persistent/repository/ledger_aggregate_event_store.go:254-269 | a snapshot is stored under the current version unless there is one |
| `Entities.NewLedgerTransaction` | core/modules/ledger/domain/entity/ledger.go:42-94 | succeeds if and only if the transaction is named and its entries are valid, at least two, of one currency and sum to zero; keeps them in order |
| `Entities.NewTransferBooking` | core/modules/ledger/domain/entity/transfer_booking.go:30-73 | the entries of a booking that is accepted are balanced |
| `Ledger.FirstOccurrences` | core/modules/ledger/application/service/ledger_service.go:501-557 | the save order: exactly the distinct accounts of the batch, each once |
| `Ledger.EarlierComesFirst` | core/modules/ledger/application/service/ledger_service.go:501-535 | an account that first occurs before another is saved before it |
| `Services.LedgerService.LoadLedgerAccounts` | core/modules/ledger/application/service/ledger_service.go:662-684 | each named account is loaded once, as the replay of its log; blank ids are skipped |
| `Services.LedgerService.ApplyEvents` | core/modules/ledger/application/service/ledger_service.go:523-547 | the fill-then-drain loop books the events in turn, counts the new ones, and its save order is that of first occurrence |
| `Services.LedgerService.SaveAll` | core/modules/ledger/application/service/ledger_service.go:548-557 | every account of the order is saved once; refused exactly when one of them needs two snapshots |
| `Services.LedgerService.RecordLedgerEvents` | core/modules/ledger/application/service/ledger_service.go:496-559 | the command has exactly the outcome of the batch function: all events stored or the store as it was |
| `Services.LedgerService.EnsureLedgerPostingsState` | core/modules/ledger/application/service/ledger_service.go:622-660 | true if all expected postings are there, false if none is, an error otherwise or at the first that differs |
| `Services.LedgerService.MoveAll` | core/modules/ledger/application/service/ledger_service.go:222-290 | when the zero-match check has passed, a transfer that succeeds has all its applied flags set, so the mismatch branches are unreachable |
| `Services.LedgerService.TransferToAccount` | core/modules/ledger/application/service/ledger_service.go:92-310 | the command has exactly the outcome of the transfer function, and hands back the entries of transfer and fee with the command's own accounts, currency, amounts and ids |
| `Batches.BookAllBooks` | core/modules/ledger/application/service/ledger_service.go:523-547 | booking a batch loses no posting and leaves every event of it booked |
| `Batches.FreshBatchMoves` | core/modules/ledger/domain/aggregate/ledger_account_aggregate.go:425-443 | a batch new throughout moves each balance by the sum of its deltas |
| `Batches.SavedIsGood` | core/modules/ledger/application/service/ledger_service.go:548-557 | saving accounts keeps the whole store good, moves each saved account to its live state and touches no other |
| `Funds.FreshBatchExactly` | core/modules/ledger/application/service/ledger_service.go:496-559 | a fresh batch of any size that books no slot twice is stored whole if and only if every guarded debit is covered by its account, counting what the batch did so far, and no account needs two snapshots; otherwise it is refused for that reason and changes nothing |
| `Funds.AnyBatchExactly` | core/modules/ledger/application/service/ledger_service.go:496-559 | for any batch at all: it is stored if and only if it is not empty, names its accounts, books no slot twice and nothing that is booked, and is covered without a second snapshot; any other batch changes nothing and succeeds if and only if all of it is booked already |
| `Funds.NeverShort` | core/modules/ledger/domain/aggregate/ledger_account_aggregate.go:445-482 | a batch without guarded debits is never refused for funds, in any store |
| `Transfers.MatchedMeans` | core/modules/ledger/application/service/ledger_service.go:622-660 | the duplicate check answers zero if and only if nothing is booked, and all if and only if everything is |
| `Transfers.BookPlan` | core/modules/ledger/application/service/ledger_service.go:222-290 | booking a fresh transfer passes if and only if the sender holds amount plus fee, and every event of it is then new |
| `TransferCommands.PlanOfCommand` | core/modules/ledger/application/service/ledger_service.go:92-133 | the validated transfer carries the command's own fields, and is refused exactly for its form |
| `TransferCommands.TransferMovesExactly` | core/modules/ledger/application/service/ledger_service.go:92-310 | in the command's own fields: refused as invalid exactly for its form; with nothing of it known, it succeeds if and only if the sender holds amount and fee, and then the sender loses both, the receiver gains the amount, the fee account the fee, and nothing else moves; with something of it known, nothing changes, and it succeeds if and only if every side is there as the command says |
| `TransferCommands.CurrencyInAnyCase` | core/modules/ledger/domain/entity/transfer_booking.go:30-58 | a transfer does the same whatever case its currency is written in |
| `Runs.AbsorbedIffBooked` | core/modules/ledger/domain/aggregate/ledger_account_aggregate.go:135-141 | a batch is absorbed without change if and only if all its events are booked already |
| `Runs.KnownBatchExactly` | core/modules/ledger/application/service/ledger_service.go:523-547 | a batch of which any event is booked already changes nothing, and succeeds if and only if all of its events are booked |
| `Runs.TransferIsBatch` | core/modules/ledger/application/service/ledger_service.go:190-302 | a transfer changes the store as the batch of its events would, and succeeds in the same cases |
| `Runs.RecordEffect` | core/modules/ledger/application/service/ledger_service.go:496-559 | all or nothing: either the store is untouched, or every event is booked, every balance moved by the batch, no posting or log entry lost and no other account changed |
| `Runs.CommitAppends` | core/modules/ledger/infra/persistent/repository/ledger_aggregate_store.go:91-110 | a committed batch is appended to the logs as it came: for each account its own events, in order, numbered on |
| `Runs.RunGrows` | core/modules/ledger/application/service/ledger_service.go:496-559 | every run keeps the store good and only adds postings and events |
| `Runs.ReachableAccounts` | core/shared/pkg/event/aggregate_root.go:83-140 | every account of every reachable store is the sound replay of its log, whose versions are 1, 2, 3, ... |
| `Runs.BatchExactlyOnce` | core/modules/ledger/application/service/ledger_service.go:523-547 | a batch that succeeded, sent again after any further run with any booked times, succeeds and changes nothing |
| `Runs.TransferExactlyOnce` | core/modules/ledger/application/service/ledger_service.go:190-220 | the same for a transfer |
| `Money.StepMovesTotal` | core/modules/ledger/application/service/ledger_service.go:496-559 | a command moves the total of a currency by the total of the batch it commits and by nothing else: RecordLedgerEvents conserves money exactly for batches that sum to zero, which it does not check |
| `Money.TransferIsPaired` | core/modules/ledger/application/service/ledger_service.go:92-310 | every transfer, with or without fee, consists of mirrored pairs of legs |
| `Money.RunConserves` | core/modules/ledger/application/service/ledger_service.go:496-559 | in every run of double-entry commands each currency's total over all accounts is constant, and zero from the empty store |
| `Money.RunKeepsMirrors` | core/modules/ledger/application/service/ledger_service.go:496-559 | in every run of double-entry commands each posting has its mirror: same transaction id, accounts swapped, same currency, opposite delta |
| `Concurrent.CommitIsSerial` | core/modules/ledger/infra/persistent/repository/ledger_aggregate_event_store.go:74-91 | a transaction that commits against unchanged versions has exactly the effect of its command on the store of that moment |
| `Concurrent.EveryInterleavingIsSerial` | core/modules/ledger/infra/persistent/repository/ledger_aggregate_store.go:49-110 | without any lock, after any interleaving of reads and commits the store is the one the committed commands make when run one at a time |
| `Concurrent.OkMeansBooked` | core/modules/ledger/application/service/ledger_service.go:523-559 | a transaction that answers success, with a commit or without, has all its events booked in the store of that moment |
| `Concurrent.CurrentAnswerIsSerial` | core/modules/ledger/infra/persistent/repository/ledger_aggregate_event_store.go:74-91 | a transaction whose reads are current answers as its command would alone, so an answer without a serial counterpart comes from an outdated read only |
| `Concurrent.MixedReadsAreRefused` | core/modules/ledger/application/service/ledger_service.go:540-547 | a batch that reads one account before another delivery of it commits and another account after is refused, although it would be stored before and absorbed after |
| `Concurrent.ConcurrentRedeliveryRefused` | core/modules/ledger/application/service/ledger_service.go:540-547 | and such a state is reached, for any batch on two accounts that the empty store accepts |
| `Payments.WithdrawalBySpelling` | core/modules/payment/domain/entity/payment_intent_behavior.go:161-170 | a workflow counts as a withdrawal if and only if, trimmed, it is the ten letters of the word, each in either case |
| `Payments.WorkflowsBySpelling` | core/modules/payment/domain/entity/payment_intent_behavior.go:161-170 | the three outcomes of normalising a workflow |
| `Payments.SuffixFree` | core/modules/ledger/application/service/payment_event_service.go:119-357 | no suffix of a ledger transaction id is the end of another |
| `Payments.LegIDInjective` | core/modules/ledger/domain/entity/payment_booking.go:98-163 | ledger transaction ids are equal if and only if payment id and leg kind are, whatever the payment id contains |
| `Payments.ClearingAccount` | core/modules/ledger/application/service/payment_event_service.go:508-510 | a clearing account id is trimmed and not blank, for any key |
| `Payments.LegPairIsMirrored` | core/modules/ledger/application/service/payment_event_service.go:381-458 | for any non-zero amount of either sign, the legs rebuilt from the events of a pair are mirrored |
| `Payments.LegPairOk` | core/modules/ledger/domain/aggregate/ledger_account_aggregate.go:571-591 | a pair of legs is refused exactly for a blank field, one account on both sides, a zero amount or a zero time |
| `PaymentEntries.PayloadIsEntries` | core/modules/ledger/application/service/payment_event_service.go:110-374 | each of the four builders makes one principal entry and, with a fee amount and a fee account, one fee entry, between the accounts stated |
| `PaymentEntries.PayloadFacts` | core/modules/ledger/application/service/payment_event_service.go:110-374 | a built batch is mirrored, booked under distinct ids, writes exactly the payload's accounts and moves exactly the payload's amounts; only withdrawal requests hold a guarded debit |
| `PaymentTable.PayloadLeaves` | core/modules/ledger/application/service/payment_event_service.go:110-458 | posting by posting, what each payment event leaves: accounts, transaction ids, reference types, payment id, counterparties, currency, signed amounts and times, written out for all five events with and without fee |
| `PaymentTable.AcceptedExactly` | core/modules/ledger/application/service/payment_event_service.go:110-374 | a batch is built if and only if the fields of the event meet the condition written out for its kind |
| `PaymentTable.HeldPerProvider` | core/modules/ledger/application/service/payment_event_service.go:512-518 | two withdrawals without a clearing key are held on one account if and only if their providers agree up to case and white space |
| `PaymentTable.ClearingPerKey` | core/modules/ledger/application/service/payment_event_service.go:508-510 | two clearing keys are one account if and only if they agree up to case and white space |
| `PaymentFacts.PaymentsAreDoubleEntry` | core/modules/ledger/application/service/payment_event_service.go:381-458 | on either path every batch built from a payment event is double entry and sums to zero in every currency |
| `PaymentFacts.PaymentNeverShort` | core/modules/ledger/domain/aggregate/ledger_account_aggregate.go:468-482 | successes, failures and reversals are never refused for funds, in any store |
| `PaymentFacts.PayloadMovesExactly` | core/modules/ledger/application/service/payment_event_service.go:110-374 | the batch of a payment event moves each account exactly so: request, wallet minus amount and fee, held on clearing and fee account; failure, the reverse; success, clearing minus amount and fee, wallet plus amount, fee account plus fee; refund or chargeback, the reverse; nothing else |
| `PaymentFacts.FreshPaymentMoves` | core/modules/ledger/application/service/payment_event_service.go:44-108 | a fresh payment event is stored and moves exactly that in any store, except that a withdrawal request is refused for funds if and only if the wallet does not hold amount and fee together |
| `PaymentFacts.ReversalNetsToZero` | core/modules/ledger/application/service/payment_event_service.go:238-374 | request then failure, and success then refund or chargeback, net to zero on every account if and only if the second event undoes the first: not for a withdrawal held on its provider for want of a clearing key, and not for the refund of a withdrawal |
| `PaymentFacts.ReversalRestores` | core/modules/ledger/application/service/payment_event_service.go:238-374 | after any further run the undoing event is accepted and takes back from every account exactly what the first event gave it |
| `PaymentConsumer.SamePaymentIDExactly` | core/modules/ledger/application/messaging/message_handler_payment_intent.go:190-208 | both paths resolve one payment id if and only if the payload carries one, or the message id is blank or equal to the transaction id |
| `PaymentConsumer.PathsAgree` | core/modules/ledger/application/messaging/message_handler_payment_intent.go:210-537 | both paths build the very same events when they resolve one payment id |
| `PaymentConsumer.PathsAgreeExactly` | core/modules/ledger/application/messaging/message_handler_payment_intent.go:210-537 | and only then |
| `PaymentCommands.RecordPaymentSucceeded` | core/modules/ledger/application/service/ledger_service.go:312-370 | the command has the outcome of the succeeded event without a fee, booked now; it refuses exactly what the builder refuses |
| `PaymentCommands.RecordPaymentReversed` | core/modules/ledger/application/service/ledger_service.go:372-431 | for the two reversal types, by name, the command has the outcome of the refund or chargeback event without a fee, booked now; other types are refused |
| `Redelivery.PaymentExactlyOnce` | core/modules/ledger/application/messaging/message_handler_payment_intent.go:210-537 | a payment delivered again under the same resolved payment id, through either path, at any time and after any further run, is built, succeeds and changes nothing; this includes a message without a payment id that comes again |
| `Redelivery.AbsorbedIffSameID` | core/modules/ledger/application/messaging/message_handler_payment_intent.go:190-208 | a second delivery is absorbed if and only if both resolve one payment id; under another id, of which nothing is booked, it moves the accounts again (or, for a withdrawal the wallet cannot pay twice, is refused for funds) |
| `Redelivery.MovesOncePerID` | core/modules/ledger/application/messaging/message_handler_payment_intent.go:190-208 | two deliveries into a store that knows neither move every account once if they resolve one payment id and twice if they do not; a withdrawal only as often as its wallet can pay |
| `Redelivery.FeeChangeExactly` | core/modules/ledger/application/service/ledger_service.go:523-547 | a payment that comes again under another fee configuration changes nothing, and is absorbed if and only if it now carries no fee or the fee account it was booked with; withdrawals included |
| `Redelivery.ReversedOncePerKind` | core/modules/ledger/application/service/payment_event_service.go:316-374 | a second reversal of a payment is absorbed if and only if it is of the same kind; a chargeback after a refund takes the same money back again |
| `Redelivery.RefundAndChargeback` | core/modules/ledger/application/service/payment_event_service.go:316-374 | a payment that succeeds and is later both refunded and charged back, in either order and with anything in between, changes every account as if it had run backwards once |
| `LockKeys.NormalizeLockKeys` | core/modules/ledger/transport/grpc/server.go:162-177 | the keys trimmed, without blanks, each where it first occurs |
| `LockKeys.FirstsGrow` | core/modules/ledger/transport/grpc/server.go:162-177 | the keys come in the order of their first occurrence |
| `LockKeys.EventLockKeys` | core/modules/ledger/application/messaging/message_handler_payment_intent.go:587-602 | the same for the account ids of a batch |
| `LockKeys.EventKeysAreExact` | core/modules/ledger/application/messaging/message_handler_payment_intent.go:587-602 | the consumer locks exactly the accounts of the batch it books |
| `LockKeys.LockCoverage` | core/modules/ledger/transport/grpc/server.go:118-177 | the server's keys are exactly the accounts the batch writes, except that a withdrawal request without key and provider, or a withdrawal failure without key, writes the blank clearing account unlocked (unless the fee account is that account) |
| `LockKeys.WritersShareALock` | core/modules/ledger/transport/grpc/server.go:102-117 | any two of gRPC payments, consumed payments and transfers whose batches write a common account lock a common key, if the keys of each suffice |
| `LockKeys.TransferLockCoverage` | core/modules/ledger/application/command/transfer_transaction_handler.go:86-103 | a transfer's keys cover its accounts exactly when each id came trimmed, or another one came as the trimmed form of it: the handler locks the ids as given, the service trims them |
| `LockKeys.IncomingTransferCoverage` | core/modules/ledger/application/command/transfer_transaction_handler.go:43-103 | with sender and receiver trimmed, as they arrive, coverage fails if and only if there is a fee, the configured fee account has white space around it and is not the receiver |
| `LockKeys.WriterCoverage` | core/modules/ledger/application/messaging/message_handler_payment_intent.go:587-602 | each of the three kinds of writer locks every account it writes if and only if its keys suffice, as stated per kind |
| `Locks.AscendingIsUnique` | core/shared/infra/lock/lock_wrapper.go:30-56 | the sorted list of keys is determined by the set of keys |
| `Locks.PrefixIsInjective` | core/shared/infra/lock/lock_wrapper.go:42-44 | prefixing keeps different keys apart |
| `Locks.NormalizeKeys` | core/shared/infra/lock/lock_wrapper.go:30-56 | strictly ascending, and exactly the distinct non-blank keys with their prefix |
| `Locks.CompareAndDelete` | core/shared/infra/lock/lock.go:29-36 | frees the key if it is held under this token and never one held under another |
| `Locks.GetsExactly` | core/shared/infra/lock/lock.go:38-65 | a key is had if and only if some request arrives and finds it free and every request before it arrived, found it busy and could be repeated |
| `Locks.LockServer.AcquireLock` | core/shared/infra/lock/lock.go:38-65 | the key is had exactly when its requests so fare; an error leaves it locked only if a reply was lost, and leaves no other key locked |
| `Locks.LockServer.ReleaseLock` | core/shared/infra/lock/lock.go:67-82 | the map afterwards is exactly that of the compare-and-delete, or untouched if the request never arrived |
| `Locks.LockServer.WithLocks` | core/shared/infra/lock/lock_wrapper.go:58-115 | keys are acquired in strictly ascending order, the function runs if and only if every key is had, every exit, a panic included, releases exactly the acquired keys in reverse, and only keys whose release failed, or whose acquire lost its reply, stay held |
| `LockProtocol.NextKeepsInv` | core/shared/infra/lock/lock_wrapper.go:58-115 | whatever step any of the calls takes: a held key belongs to a call that acquired it and has not released it, or to a lost request; and an acquired key is held unless it expired |
| `LockProtocol.OnlyOwnKeysFreed` | core/shared/infra/lock/lock.go:29-36 | no step of a call frees or takes over a key held under another token |
| `LockProtocol.DoneHoldsNothing` | core/shared/infra/lock/lock_wrapper.go:73-83 | a call that is done holds nothing but keys with a lost request |
| `LockProtocol.MutualExclusion` | core/shared/infra/lock/lock_wrapper.go:85-114 | two calls running at once share no key, unless a lock on it expired |
| `LockProtocol.NoCircularWait` | core/shared/infra/lock/lock_wrapper.go:30-115 | in no reachable state do calls wait for each other in a circle |
| `LockProtocol.Progress` | core/shared/infra/lock/lock_wrapper.go:58-115 | in every reachable state some call that is not done can take a proper step, unless a call waits for a key with a lost request |
| `LockProtocol.LostAcquireStaysLocked` | core/shared/infra/lock/lock_wrapper.go:85-110 | a call whose acquire loses its reply is done with the key still locked under its token |
| `LockProtocol.LeftLockedUntilExpiry` | core/shared/infra/lock/lock_wrapper.go:73-83 | what a call that is done left locked stays locked, whatever the others do, until it expires |
| `RateLimits.WindowSeconds` | core/shared/infra/ratelimit/sliding_window.go:31-34 | the whole seconds of the window, rounded down, and one for a shorter window |
| `RateLimits.SlidingWindowLimiter.Allow` | core/shared/infra/ratelimit/sliding_window.go:27-50 | without cache errors the answer is yes if and only if the calls of the last window seconds, refused ones and this one included, number at most the limit; pruning and key expiry never matter; a cache error lets the call through |
| `RateLimits.MembersAreCalls` | core/shared/infra/ratelimit/sliding_window.go:35-46 | with distinct stamps the cardinality of the sorted set is the number of calls |
| `RateLimits.NoWindowOverfull` | core/shared/infra/ratelimit/sliding_window.go:27-50 | no window of whole seconds holds more accepted calls than the limit |
| `RateLimits.OwnWindowNeverOverfull` | core/shared/infra/ratelimit/sliding_window.go:27-50 | the same for the limiter's own window |
| `RateLimits.SixtyPerMinute` | core/shared/infra/ratelimit/sliding_window.go:27-50 | of sixty-one calls half a second apart, a limit of sixty a minute lets the sixtieth through and not the sixty-first |
| `RateLimits.AtMostTwice` | core/shared/infra/ratelimit/sliding_window.go:40-41 | a stretch of the window length holds at most the limit if it starts on a whole second, and at most twice the limit anyway |
| `RateLimits.OverfullExactly` | core/shared/infra/ratelimit/sliding_window.go:40-41 | some calls overfill a stretch of the window length if and only if it starts off a whole second, the limit is positive and the stretch has room for more stamps than that |
| `RateLimits.TwiceHappens` | core/shared/infra/ratelimit/sliding_window.go:40-41 | the smallest instance: two calls a tenth of a second apart pass a limit of one call a second |
| `Fees.ExactWhereItFits` | core/shared/finance/stripe_fee.go:14-35 | where amount times rate plus 9999 fits in 64 bits, the result is an error if and only if the rounded-up fee plus the flat amount does not fit, and else exactly that |
| `Fees.TooSmallElsewhere` | core/shared/finance/stripe_fee.go:24-32 | where it does not fit, any fee that comes out is too small |
| `Fees.ComputeExactly` | core/shared/finance/stripe_fee.go:14-35 | the result is the fee of the policy, rounded up, if and only if both the scaled amount and that fee fit |
| `Fees.RefusalsExactly` | core/shared/finance/stripe_fee.go:15-22 | what is refused outright, and as what |
| `Fees.OverflowUnseen` | core/shared/finance/stripe_fee.go:24-32 | an amount that goes through free of charge because the product wraps |
| `Fees.WrappedToMinusOne` | core/shared/finance/stripe_fee.go:26-27 | division is towards zero: a product that wraps to minus one counts for nothing |
| `Fees.FeeIsMonotone` | core/shared/finance/stripe_fee.go:14-35 | where the larger amount is charged rightly (its scaled amount and fee fit), a smaller amount is too, and costs no more |
| `Fees.SplittingCostsMore` | core/shared/finance/stripe_fee.go:14-35 | where the whole amount is charged rightly (its scaled amount and fee fit), splitting it never lowers the total fee |
| `PubSub.Bus.Subscribe` | core/shared/pkg/pubsub/pubsub.go:65-92 | a new subscription is open and registered under its own topic and id; refused for a blank topic or a closed bus |
| `PubSub.Bus.Recipients` | core/shared/pkg/pubsub/pubsub.go:102-124 | exactly the subscriptions registered for the topic, each once, in any order |
| `PubSub.Bus.RemoveSubscription` | core/shared/pkg/pubsub/pubsub.go:163-176 | the subscription is off the table, all others stay, no topic is left empty |
| `PubSubRuns.NextKeepsInv` | core/shared/pkg/pubsub/pubsub.go:65-231 | every step of every operation keeps the table, channels, read locks and pending closes consistent, and does not panic |
| `PubSubRuns.EveryInterleaving` | core/shared/pkg/pubsub/pubsub.go:65-231 | in every interleaving no message goes to a closed channel, none is closed twice, every open subscription is registered or still due to be closed, and buffers hold only messages of their topic within capacity |
| `PubSubRuns.ClosedBusForgetsNobody` | core/shared/pkg/pubsub/pubsub.go:144-161 | once the bus is closed and all operations have returned, every channel ever handed out is closed |
| `PubSubDelivery.PublishAddressesAll` | core/shared/pkg/pubsub/pubsub.go:109-124 | a publish that begins is addressed to exactly the subscriptions registered for its topic, each once |
| `PubSubDelivery.EveryPublishDelivers` | core/shared/pkg/pubsub/pubsub.go:126-142 | in every reachable state, a publish that ended normally has had its turn with every recipient in its order: it put its message in once for each it delivered to and for nobody else; one passed over was closed or, without blocking, full; and each subscription receives what was put in, first in, first out |
| `PubSubDelivery.OpenRecipientGotIt` | core/shared/pkg/pubsub/pubsub.go:203-231 | a recipient still open has the message of a blocking publish that ended normally exactly once |
| `PubSubDelivery.PublisherStops` | core/shared/pkg/pubsub/pubsub.go:130-141 | a publish stops by finishing its order or, blocking, by being cancelled while it waits |
| `PubSubRuns.StuckExactly` | core/shared/pkg/pubsub/pubsub.go:191-231 | an operation in progress cannot take a step exactly when it is a blocking publish on a full buffer, or an unsubscribe or close whose next subscription is inside deliver |
| `PubSubRuns.CloserWaitsForSender` | core/shared/pkg/pubsub/pubsub.go:191-210 | what a waiting unsubscribe or close waits for is a publisher inside deliver that can go on or is blocked on a full buffer |
| `PubSubRuns.StuckOnFullBuffer` | core/shared/pkg/pubsub/pubsub.go:203-231 | if operations are in progress and none can take a step, a blocking publisher waits on a full buffer, and one receive from it lets it go on |
| `PubSubRuns.UnsubscribingReaderWaits` | core/shared/pkg/pubsub/pubsub.go:186-201 | a run in which the only reader of a subscription waits in its own unsubscribe for the publisher it no longer reads from |
| `Instances.TopUpCredits` | core/modules/ledger/application/service/payment_event_service.go:185-236 | the success of a top-up credits the wallet |
| `Instances.SmallLettersMove` | core/modules/ledger/domain/entity/transfer_booking.go:30-58 | a transfer of 5 usd moves 5 USD |
| `Instances.UnbalancedBatchIsStored` | core/modules/ledger/application/service/ledger_service.go:496-559 | a batch of one deposit is stored and makes a dollar out of nothing |
| `Instances.TwoSnapshotsAreRefused` | core/modules/ledger/infra/persistent/repository/ledger_aggregate_store.go:101-105 | two hundred deposits into one new wallet, a valid batch, are refused for the duplicate snapshot |
| `Instances.ProviderHeldIsNotUndone` | core/modules/ledger/application/service/payment_event_service.go:238-314 | a withdrawal held on its provider and its failure, both of which build, do not cancel |
| `Instances.RefundOfWithdrawalIsNotUndone` | core/modules/ledger/application/service/payment_event_service.go:185-374 | a withdrawal whose success moves nothing and whose refund does |
| `Instances.NamelessIsPaidTwice` | core/modules/ledger/application/messaging/message_handler_payment_intent.go:190-208 | a success without a payment id, delivered once over each path, pays five dollars twice |
| `Instances.RefundedAndChargedBack` | core/modules/ledger/application/service/payment_event_service.go:316-374 | five dollars paid, refunded and charged back leave the wallet at minus five |
| `Instances.FeeAccountChanged` | core/modules/ledger/application/service/ledger_service.go:523-547 | a success with a fee, booked and then delivered again after the fee account has changed, is refused |
| `Instances.BlankKeyIsNotLocked` | core/modules/ledger/transport/grpc/server.go:140-149 | a withdrawal failure without clearing key that writes an account it does not lock |
| `Instances.PaddedFeeAccountIsNotLocked` | core/modules/ledger/application/command/transfer_transaction_handler.go:39-93 | a transfer with a fee while the fee account is configured with a space in front: that account is written and not locked |

## Left out

- Balances and amounts are unbounded integers; 64-bit wrap-around is modelled for the fee only, so the negation and
  absolute value of the smallest amount are not captured.
- Case mapping covers ASCII letters; trimming covers all Unicode white space. Other alphabets in currencies and clearing keys are not captured.
- Reference types are a datatype with an unknown case, not strings that are trimmed first.
- The validation errors of bookings and transactions are one error, as the service wraps them; their texts are not modelled.
- A booked time is an integer with zero for the zero time; a command reads the clock once, where the source may read it once per transaction it creates.
- JSON serialisation of events, payloads and snapshots is taken to be faithful. The id of an outbox or database row is not modelled.
- A database transaction works on a copy of the store and is committed or dropped as a whole. In `Concurrent` a commit
  is one step that checks all versions read, which assumes that the row updates of one transaction conflict with those of another;
  accounts a transaction only reads are checked there too.
- A failed insert does not abort the surrounding transaction in the model of `ReservePostedTransaction`; on Postgres it would, which only refuses more.
- Aggregates.LedgerAccountAggregate.BookPaymentPosting: says nothing of a payment type whose direction is against the sign of the delta; its two callers pick the type by that sign.
- Repositories.LedgerRepository.Load: the repository's error for an account never stored and the service's fresh account in its place are one step.
- Aggregates.LedgerAccountAggregate.ApplyChange: the aggregate type, event names and metadata are not modelled.
- PaymentConsumer: its error path that emits a reconciliation-failed event is left out.
- Locks.LockServer.AcquireLock: delays, jitter and the deadline are the number of requests made; how each request fares, what other callers and
  expiry make of the map before it, and whether go-redis reports a busy `SET NX` as an error are given in advance. Other callers are assumed not to
  use this call's token, a fresh UUID.
- Locks.LockServer.WithLocks: how the guarded function ends (a value, an error, a panic) is given in advance, and it does not touch the locks. A nil locker is left out.
- RateLimits.SlidingWindowLimiter.Allow: the cache's clock is that of the caller, and the key expires by it; scores are whole numbers rather than floats. A nil limiter is left out.
- Two calls of the limiter at the same nanosecond share a member and count once; the contract counts stamps.
- PubSubRuns: `bus.mu` sections are single steps and the state lock is explicit; the writer preference of Go's read-write lock is not modelled, nor the wrap-around of subscription ids.
- The data of a bus message is an integer here and any value in the source; the bus only passes it on.
- Receiving from the bus and the order of a topic's subscriptions are arbitrary; what a consumer does with a message is not modelled.
- PubSubRuns.StuckExactly: a context that is cancelled always frees a blocking publisher; the lemmas on stuck states are about the time before that.
- RecordPaymentReconciliationFailed and the projection outbox append one event to a table and leave the ledger alone; ListTransactions pages over a
  read model kept elsewhere.
- HTTP and gRPC routing, configuration and the Redis, Kafka and Postgres clients pass values through to services outside the program.
- The account, device, session and notification modules, hashing and tokens keep no ledger state and are independent of it.
