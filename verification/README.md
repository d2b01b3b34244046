# Wager settlement, verified

A Dafny model of the wager settlement engine: 64-bit money, wallets, the transaction status machine, the decision over
six kinds of operation, the PostgreSQL store with its constraints and triggers, the pending-reference resolver, the
input queue's consumers and the outbox publishers. `dafny verify dfyconfig.toml` checks the whole project.

## How it is built

- **Domain** (`Prelude`, `Money`, `MoneyText`, `Domain`, `Decision`). Money is an `int64` and a currency; every guard is
  computed in `int64`. Wallets, transactions and transaction states are classes whose methods are proved against
  functions (`Move`, `Transitioned`, `NextStatus`, `Decide`), and the lemmas are about those functions.
- **Schema** (`Schema`, `Constraints`, `Integrity`). Tables are maps and sequences in `Db`. A client's transaction is any sequence of row
  statements. `Accepted` says that it passes every CHECK, unique index, foreign key and row trigger as it runs, and every
  deferred trigger at commit. Nothing here knows the application, so this is a second, independent account of integrity.
- **Writes** (`Writes`, `Invariant`, `Preservation`, `Steps`, `Economics`, `EventLog`, `Reversals`). What one store
  transaction writes is a function of what it read: a wallet snapshot, a reference view, fresh identifiers and two
  clocks. `Sound` collects what holds of every stored state; `Run` is any sequence of wallet creations, writes and
  deliveries from empty tables.
- **Store** (`Statements`, `Calls`, `Store`, `UseCases`, `Idempotency`, `Acceptance`, `Resolver`, `Visits`,
  `Schedule`, `Convergence`, `PairOrder`, `Audit`, `Paging`). The `Store` class issues the statements one by one inside `Begin`/`Exec`/`Commit` and is proved to do what
  `Planned` and `Resolution` say, from any tables; from sound tables every write is proved to commit. `Acceptance` and
  `Schedule` are a second, independent account of it: the rules over stored rows, in literal conditions and columns, from
  which they tell what a submission, a creation and a visit leave in every table.
- **Concurrency** (`Threads`, `Concurrency`). Any number of threads lock, read, decide and commit, crash or give up in separate
  steps. Reads see committed rows; the only synchronisation is the wallet row lock and the pending row lock.
- **Delivery** (`Queue`, `Handling`, `Delivery`, `Inbox`, `Consumer`, `Outbox`, `Publisher`). Input messages redelivered at any
  time, crashes between commit and delete, a dead-letter queue, and an outbox leased by many publishers. `Delivery` takes
  one handling of a message as one step; `Inbox` interleaves consumers' transactions statement by statement, under the
  inbox row lock, with all the others and proves that every such run is a run of `Delivery`.

Where code and documentation disagree the code is followed:

- `retryDelay` stops growing at the eighth attempt, so the ninth delay is 128 s and the patience is 384 s; ARCHITECTURE.md
  line 211 says 256 s and about 512 s (`Resolver.PatienceInSeconds`).
- ARCHITECTURE.md line 203 says that an incompatible wallet is a stored rejection. A player mismatch is; a currency
  mismatch is decided as `WALLET_MISMATCH` and then rolled back, because the wallet's balance is refused as a result in
  another currency (`Calls.RowIsLeftIff`).
- ARCHITECTURE.md line 213 allows a reversal to lose a race on the single-reversal index at commit. The wallet lock
  excludes that (`Concurrency.ReversalIndexNeverRaises`).

Results that hold only under a condition carry the exact condition:

- the overflow verdict under a backward clock (`Decision.BackwardClockReportsOverflow`), and a row for a well-formed
  request (`Calls.RowIsLeftIff`);
- one end for a root and its dependent in either order: it fails exactly when the dependent's last attempt meets a root
  that still waits (`PairOrder.PairOrderIrrelevant`), and for a dependent refused for its wallet exactly when the two name
  each other and the root is not refused too (`PairOrder.PairOrderRefused`);
- lease exclusivity: a late retry clears a lease that another publisher has taken meanwhile, and some future without
  another retry then puts the event under two running leases exactly when the retry's delay ends within that lease
  (`Outbox.RetryBreaksIff`; what the row tells of it is `Outbox.RowTellsTakenOver`; a run that breaks it is
  `Outbox.LateRetryBreaksExclusivity`). From the sixth attempt on the delay outlasts every lease and no retry does harm;
- paging over entries appended meanwhile (`Paging.DeliveredIffBeyond`, with an input that skips one in
  `Paging.SameInstantCanBeSkipped`).

## Model

| member | source | states |
|---|---|---|
| MoneyModel.Money.Add | internal/model/money.go:74-82 | succeeds exactly when both are valid, of one currency, and the true sum fits int64; the result is that sum |
| MoneyModel.Money.Sub | internal/model/money.go:94-102 | succeeds exactly when the true difference fits int64; the result is that difference |
| MoneyModel.Money.Negate | internal/model/money.go:84-92 | fails exactly on an invalid amount and on the int64 minimum |
| MoneyModel.Money.Compare | internal/model/money.go:104-115 | the sign of the exact difference; zero exactly for equal amounts |
| MoneyModel.AddSubInverse | internal/model/money.go:74-102 | adding and subtracting undo each other whenever they succeed, and fail on mirror inputs |
| MoneyText.ParseMoney | internal/model/money.go:28-57 | the scanning loop accepts exactly the grammar strings of a valid currency whose value in cents fits int64, and returns that value |
| MoneyText.AmountExact | internal/model/money.go:117-125 | the text of every int64 amount, the minimum included, matches the grammar and denotes exactly the amount |
| MoneyText.AmountDecimals | internal/model/money.go:117-125 | and always has two decimals |
| MoneyText.ParseOfAmount | internal/model/money.go:28-57 | parsing the text of a non-negative amount gives the amount back |
| MoneyText.AmountInjective | internal/model/money.go:117-125 | two int64 amounts of one currency have one text only if they are equal |
| MoneyText.NegativeTextRejected | internal/model/money.go:28-57 | the text of a negative amount is never accepted |
| MoneyText.SpellingsShareOneText | internal/model/money.go:28-57 | accepted spellings normalise to one text exactly when they denote one value |
| MoneyText.MatchesExact | internal/model/money.go:20-21 | the accepted amounts are a 0 or digits not beginning with one, then nothing or a full stop and one or two digits |
| MoneyText.HundredthsExact | internal/model/money.go:28-57 | their value, digit by digit |
| Domain.NextStatus | internal/model/transaction.go:71-83 | a status moves exactly when it is not final and the target is not PENDING |
| Domain.TransactionState.Transition | internal/model/transaction.go:71-83 | the object moves to the target or keeps its status; TerminalTransaction exactly for a final status, InvalidTransaction exactly for a move of another back to PENDING |
| Domain.NewTx | internal/model/wager_transaction.go:35-45 | accepted exactly for real identifiers and instant, a hash, no blank text and a valid operation; the state fields start afresh and every other field is kept |
| Domain.NewOpeningTx | internal/model/wager_transaction.go:47-53 | accepted exactly for real identifiers, a positive amount and a real instant; the record is a PROCESSED opening of that amount |
| Domain.Transitioned | internal/model/wager_transaction.go:72-103 | succeeds exactly for a valid, non-final transaction, an instant not before its last, a result in its currency, a failure code exactly with REJECTED or FAILED and a reference only with PROCESSED; the five state fields change and no other, and the result is valid |
| Domain.WagerTransaction.Transition | internal/model/wager_transaction.go:72-103 | the object ends as the specification says or is left unchanged with its error |
| Domain.Move | internal/model/wallet.go:49-94 | a movement happens exactly under the stated guards and when the exact new balance is in range; it moves the signed amount and one version; a refusal changes nothing |
| Domain.Wallet.Credit | internal/model/wallet.go:49-69 | the fields end as the movement says, the three identity fields untouched |
| Domain.Wallet.Debit | internal/model/wallet.go:71-94 | the same for debits |
| Domain.NewEntry | internal/model/ledger.go:30-54 | accepts exactly a positive movement between two non-negative balances that differ by it |
| Decision.CanonicalInjective | internal/usecases/wager.go:124-136 | two operations hash alike exactly when they agree in every business field, whatever their keys |
| Decision.DecideInPlace | internal/usecases/wager.go:138-193 | the sequence of tests on the mutable wallet computes the specified decision and wallet |
| Decision.DecideMoves | internal/usecases/wager.go:138-193 | the wallet moves by the signed amount and one version exactly when a direction is set, and is otherwise untouched |
| Decision.VerdictExact | internal/usecases/wager.go:138-193 | every verdict with its literal condition over all int64 inputs and every state of the reference, its code, direction, reference and new balance; AMOUNT_OVERFLOW exactly when the exact balance exceeds int64 |
| Decision.BackwardClockReportsOverflow | internal/usecases/wager.go:182-184 | a coverable bet reports AMOUNT_OVERFLOW exactly when the clock is behind the wallet |
| Decision.EntryAccepted | internal/model/ledger.go:30-54 | whatever Decide moved makes a ledger entry the constructor accepts |
| Schema.EnforceLedgerTransaction | migrations/000003_audit_integrity.up.sql:1-33 | the procedure raises exactly when the entry does not match its processed transaction, amount, currency and direction |
| Schema.EnforceLedgerIntegrity | migrations/000002_wallet_integrity.up.sql:90-116 | the ledger half of the procedure raises exactly when the entry breaks the chain |
| Schema.EnforceWalletIntegrity | migrations/000002_wallet_integrity.up.sql:66-88 | the wallet half raises exactly when the change has no matching entry |
| Constraints.AllowedExact | migrations/000001_init.up.sql:1-54 | from tables on which every CHECK, foreign key and unique index holds, a statement is let through exactly when they hold after it and it changes nothing protected |
| Constraints.EveryCommittedRunTidy | migrations/000001_init.up.sql:1-54 | after any run of any clients' transactions every declared constraint holds of what is stored |
| Constraints.EntryTransactionExact | migrations/000003_audit_integrity.up.sql:1-33 | an entry's transaction check, kind by kind, in the final tables' own columns |
| Constraints.EntryChainExact | migrations/000002_wallet_integrity.up.sql:90-116 | an entry's chain check: where it leaves its wallet, and the entry one version earlier or the start it may have |
| Constraints.WalletChainExact | migrations/000002_wallet_integrity.up.sql:66-88 | an inserted wallet's and a changed balance's check, by the entry of that version |
| Integrity.SchemaInductive | migrations/000002_wallet_integrity.up.sql:43-124 | any accepted batch from any client keeps unique keys, matching entries and every balance, version and ledger chain, and loses nothing financial |
| Integrity.AtMostOneBalanceChange | migrations/000002_wallet_integrity.up.sql:52-83 | no accepted batch changes one wallet's balance twice |
| Integrity.ChangeReachesFinal | migrations/000002_wallet_integrity.up.sql:45-57 | a balance change writes the version the wallet has at commit, one more than before |
| Integrity.OneNewEntry | migrations/000002_wallet_integrity.up.sql:90-96 | an accepted batch adds at most one entry to a wallet |
| Integrity.NewEntryContinues | migrations/000002_wallet_integrity.up.sql:97-114 | the added entry starts from the stored balance at the next version and leaves the final one |
| Integrity.UntouchedWallet | migrations/000002_wallet_integrity.up.sql:66-83 | a wallet that gained no entry keeps its balance and version |
| Integrity.NetIsBalance | migrations/000001_init.up.sql:53-54 | along a chain, credits minus debits equal the last balance |
| Integrity.Conserved | internal/infra/postgres/store.go:356-384 | a wallet's entries sum to its balance, and their number is its version or one less |
| Integrity.EveryCommittedRunConserves | migrations/000002_wallet_integrity.up.sql:43-124 | conservation after any run of accepted batches from the empty database |
| Invariant.WriteCommits | migrations/000003_audit_integrity.up.sql:1-59 | no constraint or trigger raises on a sound write of executeTx or the resolver, and the commit leaves exactly the written tables |
| Invariant.AcceptedWithEvents | internal/infra/postgres/store.go:603-606 | outbox inserts with fresh identifiers keep an accepted batch accepted |
| Preservation.RecordKeepsInv | internal/infra/postgres/store.go:550-568 | every sound write keeps rows valid, references grounded and entries complete |
| Preservation.ProcessedIsGrounded | internal/usecases/wager.go:145-166 | a PROCESSED verdict rests on a processed row of the same provider, wallet, player and round, of a permitted kind and amount, not reversed yet |
| Preservation.DraftSound | internal/infra/postgres/store.go:527-568 | whatever executeTx writes, from any reads that fit the tables, is a sound write |
| Preservation.FreshRowOk | internal/infra/postgres/store.go:530-553 | the inserted row passes validateWagerTransaction and carries the hash of the operation it stands for |
| Preservation.OpenCommits | internal/infra/postgres/store.go:233-264 | CreateWallet's statements always commit, for zero and positive balances |
| Preservation.OpenKeepsInv | internal/infra/postgres/store.go:233-264 | a created wallet leaves the stored state intact |
| Preservation.OpenedReadsBack | internal/infra/postgres/store.go:233-283 | a created wallet reads back as the wallet that was created |
| Resolver.ResolutionSound | internal/infra/postgres/store.go:174-223 | a visit either postpones or settles its row, never breaks, and its write is sound |
| Resolver.SettledRowOk | internal/infra/postgres/store.go:188-204 | a row the resolver settles, past the aggregate's own transition, still passes validateWagerTransaction |
| Resolver.VisitProgress | internal/infra/postgres/store.go:174-187 | each visit strictly lowers the sum of remaining attempts over pending rows |
| Visits.VisitsBounded | internal/infra/postgres/store.go:174-187 | any n rows take at most 10 n visits together, whatever is submitted, created or delivered between the visits and whatever references turn up |
| Visits.PendingVisitsBounded | internal/infra/postgres/store.go:174-187 | over any future of a state its stored rows take at most ten visits for each row pending in it |
| Visits.SettledIsNotVisited | internal/infra/postgres/store.go:122-124 | a final row is never visited again |
| Resolver.PatienceInSeconds | internal/infra/postgres/store.go:226-231 | one second and the nine delays make 384 seconds |
| Resolver.ExhaustionIsPatient | internal/infra/postgres/store.go:177-187 | a stored REFERENCE_NOT_FOUND is at least 384 seconds after the acceptance |
| Schedule.VisitExact | internal/infra/postgres/store.go:110-224 | a visit ends as the rules over stored rows say of the row's operation: settled column by column, put off by 1, 2, 4, 8, 16, 32, 64, 128 or 128 seconds, or rejected at the tenth miss; nothing else changes |
| Schedule.PatienceExact | internal/infra/postgres/store.go:174-231 | a row whose reference never comes, visited within a slack of each due instant, is REFERENCE_NOT_FOUND 384 seconds after its first miss and at most ten slacks later |
| Economics.DepthAtMostTwo | internal/usecases/wager.go:153-166 | no reversal of a reversal of a reversal exists; the chain is BET, REFUND, ROLLBACK |
| Economics.EffectiveRoot | internal/usecases/wager.go:153-166 | a bet or win counts exactly when each of its reversals has itself been reversed |
| Economics.BetThenRefund | internal/usecases/wager.go:168-192 | a bet and its refund contribute nothing together |
| Economics.BetRefundRollback | internal/usecases/wager.go:168-192 | a bet, its refund and the rollback of that contribute one bet |
| Economics.TargetEffect | internal/usecases/wager.go:168-192 | the signed amount a reversal moves is exactly the change in what its root contributes |
| Economics.WriteKeepsMeaning | internal/infra/postgres/store.go:554-565 | every write keeps each balance equal to its effective transactions |
| Economics.BalanceIsEffectiveTotal | internal/usecases/wager.go:153-192 | a balance is the opening amount plus all effective wins minus all effective bets of the wallet |
| Reversals.ReversalsAreGrounded | internal/usecases/wager.go:153-166 | a processed reversal names an earlier processed row of the same provider, wallet, player, round and exact amount |
| Reversals.NoDoubleReversal | migrations/000001_init.up.sql:41-41 | no row has two processed reversals |
| Reversals.CyclesNeverProcess | internal/infra/postgres/store.go:158-172 | no operation on a cycle of references, one naming itself included, is ever PROCESSED |
| EventLog.EventsOfFit | internal/infra/postgres/store.go:572-601 | the events of a write announce exactly what it did |
| EventLog.EventsOfWait | internal/infra/postgres/store.go:572-606 | every stored event is about the wallet, carries the causing message, and is unpublished, unclaimed and due at once |
| EventLog.WriteKeepsLog | internal/infra/postgres/store.go:554-606 | balance events stay the ledger entry by entry, and each row keeps its exact announcements |
| EventLog.EventsRebuildWallets | internal/infra/postgres/store.go:572-579 | folding the balance events rebuilds every wallet's balance and version |
| Steps.EveryRunSound | internal/infra/postgres/store.go:448-570 | every state any run reaches satisfies all the stored-state properties |
| Steps.StepEvolves | internal/model/wager_transaction.go:105-135 | a stored row only goes from PENDING_REFERENCE to itself, PROCESSED or REJECTED, never changes once final, and always passes validation |
| Steps.RowsEvolve | migrations/000003_audit_integrity.up.sql:35-59 | the same between any two points of any run |
| Steps.PendingAnnouncedIffEverPending | internal/infra/postgres/store.go:581-601 | a row has one pending announcement exactly when it was ever pending |
| Steps.DraftIsStep | internal/infra/postgres/store.go:527-570 | executeTx's write is a sound step whose statements all commit |
| Steps.VisitIsStep | internal/infra/postgres/store.go:110-224 | a resolver visit is a sound step whose statements all commit |
| Steps.StepNews | internal/infra/postgres/store.go:603-606 | every event any step adds, a creation's included, is of a stored row and its wallet, new, and waits to be sent untouched; the earlier ones stand |
| Idempotency.IdentityIsUnique | migrations/000001_init.up.sql:38-39 | at most one row per provider and key, and per provider and external id |
| Idempotency.RepeatReplays | internal/infra/postgres/store.go:486-502 | a repeat of a stored operation is answered from its row and writes nothing |
| Idempotency.ConflictExactly | internal/infra/postgres/store.go:492-495 | with a matching row stored, the answer is a conflict exactly when no stored row is the operation itself |
| Idempotency.AnswerIsDetermined | internal/infra/postgres/store.go:491-502 | the answer does not depend on which matching row LIMIT 1 returns |
| Idempotency.AlteredOperationConflicts | internal/infra/postgres/store.go:492-495 | reusing a key or external id with any other field altered conflicts |
| Idempotency.PlanIsStep | internal/infra/postgres/store.go:550-569 | a planned write commits whole, and the reply tells what was written |
| Idempotency.SecondSubmissionReplays | internal/infra/postgres/store.go:486-502 | at any later point of any run a second submission names the first one's row, with its final outcome |
| Idempotency.RepeatAnswersBalance | internal/infra/postgres/store.go:496-500 | at any later point of any run a repeat answers the balance the wallet had right after the write that gave the row its status |
| Acceptance.AdmissibleExact | internal/usecases/wager.go:103-111 | an operation is let through exactly with five texts that say something, two identifiers, a listed currency, and the amount and reference its kind may have |
| Acceptance.FailableExact | internal/usecases/wager.go:83-93 | what Fail lets through |
| Acceptance.TransactionExact | internal/model/wager_transaction.go:105-135 | the transactions that rehydrate, condition by condition |
| Acceptance.WalletExact | internal/model/wallet.go:45-47 | the wallets that rehydrate |
| Acceptance.SubmissionExact | internal/usecases/wager.go:138-193 | a new admissible operation in its wallet's currency is always taken down and ends as the rules over stored rows say: which reference serves, which verdict, and every column of its row, wallet, entry and reply |
| Acceptance.RuledOnce | internal/usecases/wager.go:138-193 | the rules leave exactly one verdict |
| Acceptance.ExecutionExact | internal/infra/postgres/store.go:550-569 | a call that ran to its end has left exactly that in every table and answered it |
| Acceptance.FailureExact | internal/usecases/wager.go:83-101 | a recorded failure leaves a FAILED row with its code and the standing balance, no entry and no event |
| Acceptance.RepeatExact | internal/infra/postgres/store.go:486-502 | with the identity taken, the stored row's own status, code and balance are answered exactly when it states the operation column by column, and otherwise a conflict |
| Acceptance.RefusalExact | internal/infra/postgres/store.go:471-485 | NotFound exactly for a missing wallet, InvalidTransaction exactly for another currency |
| Acceptance.CreationExact | internal/infra/postgres/store.go:233-264 | a creation leaves the wallet at version 1 and, with money, one processed opening, one credit from zero and two events waiting to be sent; every column of each |
| Convergence.ResolutionMatchesSubmission | internal/infra/postgres/store.go:154-215 | giving up apart, a visit writes the status, code, reference, result, wallet row, entry and events that submitting the operation afresh would |
| PairOrder.PairOrderIrrelevant | internal/infra/postgres/store.go:506-565 | the root then the dependent, or the dependent, any number of visits in vain, the root and one more visit: both end with one balance, version, pair of statuses and failure codes and ledger amounts, exactly unless that visit is the last attempt and the root itself still waits; other wallets' steps may come between |
| PairOrder.PairOrderRefused | internal/usecases/wager.go:138-141 | a dependent refused for its wallet ends both orders alike, exactly unless the two name each other and the root is not refused for its wallet too |
| PairOrder.PostponingIsQuiet | internal/infra/postgres/store.go:174-187 | a visit in vain, to the dependent or any row, is one of the steps that may come between |
| PairOrder.OtherWalletsAreQuiet | internal/infra/postgres/store.go:550-568 | so is any write of another wallet that does not bear the name the root refers to |
| Calls.FreshPlanCases | internal/infra/postgres/store.go:527-569 | each outcome of executeTx past its identity check; the ledger entry is never refused |
| Calls.RowIsLeftIff | internal/model/wager_transaction.go:72-103 | an admissible new operation leaves a row exactly when its currency is the wallet's |
| Calls.SoundExecution | internal/infra/postgres/store.go:448-462 | from sound tables the planned write always commits and leaves sound tables |
| Calls.SoundVisitResolves | internal/infra/postgres/store.go:110-224 | from sound tables a resolver visit never fails |
| Statements.ImmediateSnoc | internal/infra/postgres/store.go:550-561 | statements run in sequence exactly when each is allowed in the state the ones before it left |
| Statements.InboxAround | internal/infra/postgres/store.go:38-59 | inbox statements around a batch change neither its acceptance nor its effect |
| PostgresStore.Store.Exec | internal/infra/postgres/store.go:550-553 | a statement goes through exactly when the schema allows it; a failed one dooms every continuation |
| PostgresStore.Store.Commit | internal/infra/postgres/store.go:458-460 | the tables become the transaction's state exactly when every deferred trigger passes, and stay as they were otherwise |
| PostgresStore.Store.ReadReference | internal/infra/postgres/store.go:507-526 | returns what the two reference queries read, or fails exactly on an amount that does not rehydrate |
| PostgresStore.Store.LoadWallet | internal/infra/postgres/store.go:471-485 | each error with its exact condition |
| PostgresStore.Store.ExecuteTx | internal/infra/postgres/store.go:464-570 | arrives at a plan its reads allow and issues exactly that plan's statements, or fails in a way no commit can follow |
| PostgresStore.Store.Execute | internal/infra/postgres/store.go:448-462 | all of the plan's write or none; a lost identity is a conflict; from sound tables the write always commits and the tables stay sound |
| PostgresStore.Store.ExecuteInbox | internal/infra/postgres/store.go:32-64 | a known message with another payload conflicts and changes nothing; otherwise the operation's effect and the completed message commit together or not at all |
| PostgresStore.Store.CreateWallet | internal/infra/postgres/store.go:233-264 | succeeds exactly when the schema accepts its statements; a taken id, or player and currency, is a conflict that changes nothing; from sound tables it always succeeds for a new wallet |
| PostgresStore.Store.PickDue | internal/infra/postgres/store.go:122-124 | the loop finds a due, unlocked row first by instant and id, or there is none |
| PostgresStore.Store.ResolvePendingReference | internal/infra/postgres/store.go:110-224 | takes the due waiting row nobody has locked that is first by instant and id; settles or postpones it exactly as the resolution says, or changes nothing and could not have; from sound tables it always succeeds |
| PostgresStore.Store.ListLedger | internal/infra/postgres/store.go:285-339 | returns the page of the wallet's ordered ledger past the cursor |
| PostgresStore.Store.ReconcileWallet | internal/infra/postgres/store.go:356-384 | reports the exact sums; from sound tables it always reports a consistent wallet with zero difference |
| PostgresStore.Store.GetTransaction | internal/infra/postgres/store.go:389-439 | shows the stored row column by column; a stored row always rehydrates |
| PostgresStore.Store.ClaimOutbox | internal/infra/postgres/store.go:66-98 | leases distinct claimable events, earliest first, as many as the limit allows, and touches nothing else |
| Outbox.ClaimExact | internal/infra/postgres/store.go:72-78 | a claim leases for thirty seconds exactly the rows it picks, all unpublished, due and free, passes over no earlier one, and leaves none out while it may take more |
| PostgresStore.Store.MarkOutboxPublished | internal/infra/postgres/store.go:100-103 | publishes the named event once and touches nothing else |
| PostgresStore.Store.RetryOutbox | internal/infra/postgres/store.go:105-108 | reschedules the named unpublished event and touches nothing else |
| UseCases.Wager.Process | internal/usecases/wager.go:103-122 | an inadmissible operation changes nothing; an admissible one is executed under its own hash |
| UseCases.Wager.ProcessInbox | internal/usecases/wager.go:79-122 | the same through the inbox |
| UseCases.Wager.Fail | internal/usecases/wager.go:83-101 | a recorded outcome is returned and never replaced; otherwise a FAILED row is left that moves nothing and announces nothing |
| Audit.EntriesMatchRows | internal/infra/postgres/store.go:233-264 | PROCESSED rows of positive amount and ledger entries correspond one to one; all other rows have none |
| Audit.OneMovementPerOperation | internal/infra/postgres/store.go:486-505 | an operation has at most one ledger entry, however often submitted |
| Audit.VersionsStartAtOpening | migrations/000002_wallet_integrity.up.sql:97-104 | in every reachable state a wallet has one entry for each of its versions exactly when it has an opening, which is then the first entry, of version 1, crediting its whole amount from zero; otherwise one less, from version 2 |
| Audit.OpenedWithMoneyIff | internal/infra/postgres/store.go:239-262 | ever after its creation a wallet has an opening exactly when it was created with a positive balance |
| Audit.EveryLedgerIsAuditable | internal/infra/postgres/store.go:294-338 | in every reachable state paging returns the whole history once, in order, without version gaps, summing to the balance |
| Audit.EveryBalanceIsExplained | internal/infra/postgres/store.go:554-565 | in every reachable state the balance is the effective total and what the events fold to |
| Audit.EveryMovementIsAnnounced | internal/infra/postgres/store.go:572-579 | in every reachable state the i-th balance event tells the i-th ledger entry: wallet, transaction, direction, amount, both balances, version and currency |
| Audit.EveryInterleavingIsExplained | internal/infra/postgres/store.go:464-570 | in every state any interleaving of threads reaches, the balance is the effective total, the ledger's sum and what the events fold to |
| Paging.OrderedIsHistory | internal/infra/postgres/store.go:294-295 | the ordered list is the wallet's entries, each once, strictly ascending |
| Paging.PageExact | internal/infra/postgres/store.go:294-338 | a page holds the wallet's entries after the cursor by instant and id, in that order, up to the limit and none before an earlier one left out; a next cursor exactly when any is left out |
| Paging.PagesAreTheLedger | internal/infra/postgres/store.go:294-338 | for every limit following the cursor ends, and the pages are the ledger without gap or repeat |
| Paging.PagingUnderAppends | internal/infra/postgres/store.go:297-338 | while later entries are appended the pages read are exactly the first entries, and a last page means all were read |
| Paging.DeliveredIffBeyond | internal/infra/postgres/store.go:298-299 | an entry is still delivered exactly when it sorts after the cursor |
| Paging.SameInstantCanBeSkipped | internal/infra/postgres/store.go:298-299 | an entry appended at the cursor's instant with a smaller id is skipped |
| Concurrency.EveryInterleavingSound | internal/infra/postgres/store.go:464-570 | every interleaving of writers, resolvers, creations, crashes and delivery keeps the tables sound and every lock holder's reads current |
| Concurrency.CommitterReadsHold | internal/infra/postgres/store.go:465-526 | what a committer read of its own wallet is still true at its commit |
| Threads.ReadyCommits | internal/infra/postgres/store.go:550-568 | at commit the only possible failure is an identity taken by another wallet |
| Concurrency.SysStepSerial | internal/infra/postgres/store.go:464-570 | each interleaved step is one atomic step of the tables or none |
| Concurrency.InterleavingIsSerial | internal/infra/postgres/store.go:464-570 | the committed states of any interleaving are a serial run |
| Concurrency.CommitIsSerial | internal/infra/postgres/store.go:464-570 | a committed submission is what running alone at that instant would do, but for a foreign reference that moves no money |
| Concurrency.RaceEndsInConflict | internal/infra/postgres/store.go:550-553 | a cross-wallet race for one identity ends in the INSERT's unique violation, reported as the conflict that running alone at that instant would give |
| Concurrency.SettlementIsSerial | internal/infra/postgres/store.go:110-224 | a resolver's commit always succeeds on its unchanged row and wallet, and is a serial visit or moves no money |
| Concurrency.ReversalIndexNeverRaises | migrations/000001_init.up.sql:41-41 | no commit is ever stopped by the single-reversal index |
| Concurrency.PlanCanRun | internal/infra/postgres/store.go:464-570 | whatever executeTx would write alone, an undisturbed thread can write statement by statement |
| Concurrency.VisitCanRun | internal/infra/postgres/store.go:110-224 | and whatever a visit would |
| QueueModel.BackoffBounds | internal/infra/queue/sqs.go:119-128 | the delay never shrinks, lasts 1 to 256 seconds and never meets its five-minute cap |
| QueueModel.BackoffExact | internal/infra/queue/sqs.go:119-128 | the delay of every attempt in seconds |
| Handling.ActionFor | internal/worker/workers.go:66-119 | deletion exactly after success; dead letter exactly for permanent, invalid and conflicting messages; the failure path exactly from the fifth receive on; otherwise a retry after 1, 1, 2, 4 or 8 seconds |
| Handling.ProcessingSteps | internal/worker/workers.go:142-176 | a handling that ran to its end is at most a business write and inbox bookkeeping, and success means the tables hold the operation |
| Handling.ProcessingExact | internal/worker/workers.go:142-167 | a message is handled under the consumer's name and its own id: another body on record conflicts, success records this body as completed, every event it causes names its id, and anything else changes nothing |
| Handling.HandledExact | internal/worker/workers.go:142-176 | a new operation in a new message is handled to exactly what the rules over stored rows say of it |
| Handling.GivenUpExact | internal/worker/workers.go:123-140 | given up on, it leaves a FAILED row with PROCESSING_RETRIES_EXHAUSTED and nothing else |
| Delivery.NothingIsLost | internal/worker/workers.go:66-119 | over all runs a message leaves the input only with a committed row for its operation or a copy in the dead-letter queue |
| Delivery.EffectAtMostOnce | internal/worker/workers.go:66-119 | over all runs an operation gains at most one ledger entry |
| Delivery.SettledRowsStand | internal/worker/workers.go:123-140 | no worker step, recording a failure included, changes a settled row |
| Delivery.OneBodyPerId | internal/infra/postgres/store.go:38-49 | over all runs two messages of one id are never both handled to an effect unless their bodies are equal |
| InboxThreads.CommitIsProcessing | internal/infra/postgres/store.go:32-64 | a consumer's commit among interleaved transactions is its message processed alone at that instant, but for a foreign reference seen earlier that moves no money |
| InboxThreads.ReplayIsProcessing | internal/infra/postgres/store.go:486-502 | a replay decided from a row read earlier still holds when its message is completed |
| InboxThreads.WholeStepRefines | internal/infra/postgres/store.go:32-64 | every interleaved step, the inbox lock's included, keeps what was read and locked, keeps two consumers off one message, and is one step of the delivery protocol or none |
| InboxThreads.InterleavingIsDelivery | internal/worker/workers.go:66-119 | the queues, consumers and committed tables of every interleaving are a run of the delivery protocol |
| InboxThreads.NothingIsLostInterleaved | internal/worker/workers.go:66-119 | in every interleaving a message leaves the input only with a committed row or a dead-letter copy |
| InboxThreads.EffectAtMostOnceInterleaved | internal/worker/workers.go:66-119 | in every interleaving an operation gains at most one ledger entry |
| InboxThreads.OneBodyPerIdInterleaved | internal/infra/postgres/store.go:38-49 | the same of commits in every interleaving |
| InboxThreads.MessageCanRun | internal/infra/postgres/store.go:32-64 | whatever ProcessInbox would write alone for a message, an undisturbed consumer can write statement by statement and be answered |
| ConsumerModel.InputConsumer.Handle | internal/worker/workers.go:142-176 | one call is one processing step of the protocol, also when the store fails or loses its answer; another body under the message's own id is a conflict, and success completes exactly that id with this body |
| ConsumerModel.InputConsumer.RecordPermanentFailure | internal/worker/workers.go:123-140 | one call is one failure-recording step of the protocol, also when the store fails or loses its answer |
| ConsumerModel.InputConsumer.Consume | internal/worker/workers.go:66-119 | what becomes of the message in both queues follows from handle's answer, whatever calls fail or lose their answer; it leaves only if accounted for or dead-lettered, and from the fifth receive on it leaves whatever the store does |
| ConsumerModel.ConsumeIsProtocol | internal/worker/workers.go:66-119 | every way a call can end is reached by the protocol's receive, handle, route, fail, dead-letter and delete steps, with the tables and both queues as the call left them |
| Outbox.PublishedWasSent | internal/worker/workers.go:244-269 | over all runs a published event's own id and payload were sent before |
| Outbox.PublishedIsNeverClaimed | internal/infra/postgres/store.go:72-78 | a published event is never claimed again |
| Outbox.ClaimableAgain | internal/infra/postgres/store.go:72-78 | every unpublished event left alone can be claimed once 256 seconds have passed |
| Outbox.RetryKeepsLeasesIff | internal/infra/postgres/store.go:105-108 | a retry keeps every row unclaimable for the leases running on it, exactly when nobody else holds the unpublished event for longer than the retry's delay |
| Outbox.RetryBreaksIff | internal/infra/postgres/store.go:105-108 | after a retry some future without another one puts the event under two running leases exactly when somebody else holds it, unpublished, for longer than the delay; otherwise no such future exists for any event |
| Outbox.LeasesAreExact | internal/infra/postgres/store.go:66-108 | the leases hold exactly when no future without a retry puts an event under two running leases |
| Outbox.RowTellsTakenOver | internal/infra/postgres/store.go:105-108 | when the row's lease is a working publisher's other than the retrying one, the row tells: harm is done exactly when it is unpublished and the delay ends within the recorded lease |
| Outbox.LateEnoughIsHarmless | internal/infra/postgres/store.go:105-108 | a retry of a published event, or of a row claimable anyway once the delay is over, takes nothing from anybody |
| Outbox.InTimeIsAlone | internal/infra/postgres/store.go:105-108 | within its lease a publisher is alone with the event |
| Outbox.HarmlessRunsAreExclusive | internal/infra/postgres/store.go:66-108 | however late, when no retry takes an event from another, two running leases never cover one event |
| Outbox.TimelyRunsAreExclusive | internal/infra/postgres/store.go:66-108 | when every retry comes within its lease, two running leases never cover one event |
| Outbox.LateRetryBreaksExclusivity | internal/infra/postgres/store.go:105-108 | a run in which one late retry puts an event under two running leases |
| Outbox.StoredEventsArrive | internal/infra/postgres/store.go:603-606 | what a store transaction adds to the outbox are the publishers' arrivals |
| Outbox.StepEventsArrive | internal/infra/postgres/store.go:603-606 | so is every event any step of the store adds, a creation's included |
| Outbox.PublishingKeepsEvents | internal/infra/postgres/store.go:66-108 | publishing changes no event's identity or payload |
| PublisherModel.BatchOutcome | internal/worker/workers.go:249-267 | each unpublished event of a batch ends published now or due after its delay with one more attempt, its lease given up, by its own fate alone; no other event is touched |
| PublisherModel.OutboxPublisher.SendAll | internal/worker/workers.go:249-268 | the loop handles the batch in order up to the first store call that does not answer, whether that call took effect or not, and hands the queue exactly the events so far |
| PublisherModel.PublishIsProtocol | internal/worker/workers.go:244-269 | every way a call of publish can end is reached by the protocol's claim, send, mark, retry and stop steps |
| PublisherModel.OutboxPublisher.Publish | internal/worker/workers.go:244-269 | what a batch newly marks was taken by the queue; the claim is the earliest events or fails; the whole call is a run of the protocol's steps that leaves the publisher idle |

## Left out

- HTTP routes, JSON decoding, cursor encoding, OIDC, configuration, metrics, logs and Fx lifecycle: adapters without state worth proving.
- PostgreSQL's own machinery: MVCC, index waits and deadlocks. A transaction's statements and its commit are one instant in `Concurrency`; row locks, committed reads, atomic commit and unique checks are assumed.
- In `InboxThreads` an answer that writes nothing, such as a conflict or a recorded outcome that Fail finds, is given at the instant of the read that decides it.
- Rounding of instants to microseconds and differences between the application's and the database's clock: one non-decreasing clock in nanoseconds.
- SHA-256 and payload hashes are injective, so content stands for its hash; UUIDs are a supply of unused numbers.
- The ISO 4217 table is an arbitrary set of codes; every result holds for any table.
- Go's zero value for a status and a failure code of one's own choosing outside the two deciders the use cases pass.
- The event envelope beyond type, identifiers and data; the order in which RETURNING lists claimed events.
- Queue visibility: any message still in the input queue may be received at any time, which is more than SQS allows.
- The endless loops around one batch, one visit and one publication, and their waits.
- The version backfill and the runner of the migrations, TRUNCATE and privileged schema changes.
- A negative attempt count, which no stored row has: the source would panic on its shift, `PostgresStore.Store.Visit` reports an error.
- The `afterPublish` and `afterCommit` hooks, which inject faults: the faults themselves are modelled.
- PublisherModel.OutboxPublisher.Publish: takes the call as a run of the protocol with nobody else at work meanwhile; `Outbox` interleaves any number of publishers.
- PairOrder.PairOrderIrrelevant: compares balance, version, statuses, failure codes and ledger amounts, not instants or identifiers, which differ between the two orders. Between the steps no other operation touches the wallet or bears the name the root refers to; one that did may change how an order ends.
- Paging.PagesAreTheLedger: limits below one are not modelled; the controller never passes them.
