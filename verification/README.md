# Shop ledger backend: a verified model

This project models the parts of the shop ledger backend where correctness is hardest to see from any
one function, and proves what they promise for every input, every run and every interleaving.

* **Ledger** (`ledger`, `history`, `books`, `invariant`, `interleaving`, `runs`, `guarantees`, `store`,
  `requested`, `written_rows`, `decisions`, `alone`, `correction_response`, `payment_cancellation`). One store's append-only tables, with originals, corrections, period closes and
  expense payments. `ledger` holds the rows and the decision each command reaches when it runs alone.
  `interleaving` runs the same commands statement by statement, with row locks held until commit and
  committed reads, any number of transactions at once, each abandoned at any point. `runs` and
  `guarantees` show that every commit is the serial outcome, and what follows for every reachable state.
  `store` is the imperative form: a class whose methods claim, work inside a savepoint, push facts one by
  one and record the outcome, proved against the serial decision. `requested`, `written_rows` and `decisions`
  say in the terms of request and tables alone what an applied command did, which rows it added and when it is
  refused as what; `alone` that a command which nothing disturbs runs to that end. `payment_cancellation` is the one other
  writer that appends reversals, decided on any state those commands leave.
* **Migrations** (`sql_lexer`, `lexical_forms`, `transaction_control`, `server_lexer`, `migration_files`, `migration_state`,
  `migration_runner`, with `sorting`). The script lexer against a reference lexer, the transaction-control
  filter and when a server reads a script as it does, the recorded state of a database as a prefix of the repository, and the apply loop with a failure
  possible at every statement.
* **Recovery** (`recovery`). The cutover between a source and a target database as a class whose methods
  take a plan of what fails or crashes at each effect.
* **Reads** (`keyset`, `attachment_inventory`, `like_prefix`, `base64url`, `json_text`, `customer_cursor`,
  `customer_list`). Keyset pagination, the attachment inventory loop, LIKE escaping, and cursors within
  their byte budgets.
* **Calendar** (`calendar`, `accounting_month`, `posting_date`, `gregorian`, `local_months`). Month boundaries for
  any whole-minute offset, the posting dates that are accepted, both against the Gregorian calendar's own
  arithmetic, and when an instant's month is that of its
  local date.

`dafny verify dfyconfig.toml` checks everything. Nothing was executed.

## Assumptions

* Identifiers derived by hashing (`deriveMoneyFactId`, `deriveMoneyFactOperationId`, request hashes) are
  injective: they are modelled as constructors, and a derived identifier is never an operation's, an account's
  or a period's. `deriveTransactionGroupId` is the identity on canonical ids.
* `sync.claim_operation` inserts one processing row per operation or reports that one exists; a pending
  insert makes others wait on the key.
* Row locks are held until the transaction ends, a rollback to a savepoint gives up the locks taken inside
  it, and reads see committed rows. A lock that is never granted, a lost connection or an unexpected error
  is a transaction abandoned at that point.
* Originals are written in the shape of the posting repositories for opening balances, owner commands and
  transfers. `v_expense_balances` sums posted payments of posted expenses, the owner position sums owner entries.
* Fencing keeps the generation, activation makes another one, an attempt record is appended or not, and
  the recovery job lock is exclusive and does not expire. Recovery commands run one at a time.
* A server runs a migration statement by statement as some lexer of its own splits it, and every migration
  file is one that the filter guards for that lexer (`ServerLexer.Guards`).
* `Intl` prints a whole-minute offset as `GMT` with a sign, hours and minutes, and a zero offset as a bare `GMT`.
* Whatever reads a cursor's JSON reads at least what the encoder writes (`CustomerCursor.ReadsEncoded`).
* The locale's order is total and orders migration names with different prefixes by their prefix.
* `localeCompare`, `Intl` offsets and the database's collations appear as functions with the laws stated
  where they are used.

## Findings

* A correction whose target is an applied opening balance of zero is refused with an integrity conflict,
  because such an opening writes no movement to load. That is the only way a correction meets that
  conflict (`Guarantees.IntegrityConflictExactly`, met in `Guarantees.ConflictIsMet`).
* Cancelling an expense payment that came from the owner's pocket takes its liability back without a check
  and under a shared store lock, so the owner liability can become negative: pay 100, reimburse 100, cancel
  (`OverdrawnOwner.CancellingMayOverdraw`). It stays non-negative exactly when it covers the cancelled amount
  (`PaymentCancellation.LiabilityStaysExactly`). What the other results say of liability holds for runs of
  the four commands without such a cancellation.
* The transaction-control filter takes a dollar tag inside an identifier for a quote, so what stands between
  two identifiers such as `a$b$` passes it unread, a `commit` included (`ServerLexer.FilterMissesCommit`). The
  filter guards every script in which no quote begins inside an identifier (`ServerLexer.FilterGuards`).
* The integrity rejections behind the settlement reads of an expense payment never happen
  (`Guarantees.NoSettlementConflict`).
* A recovery attempt can end ABORTED with its source fenced; this happens exactly when a restore fenced the
  source and stopped before recording it (`Recovery.RecoverySystem.RestoreDatabase`,
  `Recovery.AbortAfterUnrecordedFence`).
* A preparation that crashes after taking the job lock and before writing PREPARED leaves the lock held and no
  attempt that could release it (`Recovery.RecoverySystem.Prepare`).
* An activation that stops between activating the target and recording it can never be finished: the branch
  meant to resume it (`scripts/recovery/recovery-execution.ts:375`) is dead, because the verification at line
  363 requires the target to be fenced (`Recovery.RecoverySystem.Activate`,
  `Recovery.ActivateAfterUnrecordedActivation`).
* The overlap check between executed rows and a baseline ceiling
  (`scripts/migrations/effective-migration-state.ts:96-98`) refuses nothing that the prefix check after it
  would accept (`MigrationState.ReadEffectiveMigrationState` characterises acceptance without it).
* With at most one change of offset near it and no zero offset, a local midnight is found whenever it exists;
  only a month whose midnight the clock skips is refused. A zero offset at one of the two instants asked first
  refuses the month as well (`AccountingMonth.OneChangeResolvesExactly`).

## Model

| member | source | states |
|---|---|---|
| `History.OneRowPerOperation` | src/accounting-corrections/accounting-correction-posting.repository.ts:1164-1212 | in every valid history each operation id has at most one row, and no committed row is still processing |
| `History.ReadsComeFromTheRow` | src/accounting-corrections/accounting-correction-posting.repository.ts:1002-1077 | reading a movement, owner entry or transfer by its derived key finds only what the one command with that key's operation wrote |
| `History.LoaderAcceptsWriter` | src/accounting-corrections/accounting-correction-posting.repository.ts:453-611 | the facts of every original, and of every replacement at any depth, pass all loader checks when they are targeted; only an opening balance of zero loads nothing |
| `History.TargetsAreRows` | src/accounting-corrections/accounting-correction-posting.repository.ts:412-430 | whatever a correction supersedes is a recorded operation |
| `Books.CorrectionReversesEvent` | src/accounting-corrections/accounting-correction-posting.repository.ts:710-928 | the facts of a correction add up to its replacement minus exactly its target, per account, in liability and in equity |
| `Books.EffectIsEvent` | src/accounting-corrections/accounting-correction-posting.repository.ts:453-611 | what a row adds to the books, reversals apart, is the event a later correction loads from it |
| `Books.BalancesAreActiveEvents` | src/accounting-corrections/accounting-correction-posting.repository.ts:730-928 | the sum of all movements ever appended on an account is the sum over the events no correction has superseded |
| `Books.OwnerPositionIsActiveEvents` | src/accounting-corrections/accounting-correction-posting.repository.ts:764-828 | the same for owner liability and for equity |
| `Books.TransfersAddZero` | src/accounting-corrections/accounting-correction-posting.repository.ts:830-928 | a transfer, its reversals and its replacements add zero over all accounts |
| `Books.SupersededOnce` | src/accounting-corrections/accounting-correction-posting.repository.ts:412-430 | an operation is superseded by at most one applied correction |
| `Books.ReversalIsNeverTarget` | src/accounting-corrections/accounting-correction-posting.repository.ts:369-410 | what is superseded is an applied original or replacement that stands for an event, never a reversal |
| `Books.OneLine` | src/accounting-corrections/accounting-correction-posting.repository.ts:369-430 | of two rows with the same origin the later one descends from the earlier one |
| `Books.OneActiveEnd` | src/accounting-corrections/accounting-correction-posting.repository.ts:369-430 | a correction history is a finite chain with at most one end that is not superseded |
| `Invariant.CommitApplies` | src/accounting-corrections/accounting-correction-posting.repository.ts:331-367 | an applied outcome had an active target, an open period, a changing replacement and enough liability, and its facts are built from the target's event |
| `Invariant.CommitKeepsInvariant` | src/accounting-corrections/accounting-correction-posting.repository.ts:292-329 | every commit keeps the history valid, the tables equal to the history's facts, liability non-negative and settlements in range |
| `Invariant.SerialKeepsInvariant` | src/accounting-corrections/accounting-correction-posting.repository.ts:292-329 | the same for a whole command run alone, whatever it decides or answers |
| `Invariant.CommitKeepsLiability` | src/accounting-corrections/accounting-correction-posting.repository.ts:686-708 | owner liability after the commit is not negative |
| `Invariant.AfterCheckNeverFires` | src/expenses/expense-payment.repository.ts:283-290 | the re-read after a payment always shows exactly that payment |
| `Invariant.SettlementIsConsistent` | src/expenses/expense-payment.repository.ts:351-380 | the settlement of a payable expense always passes the integrity comparison, with settled and outstanding adding up to its amount |
| `Invariant.PaymentHasOneBackingFact` | src/expenses/expense-payment.repository.ts:208-281 | a posted payment has exactly one backing fact, of the right kind, amount and reference, and points to it |
| `Invariant.SettledIsBacked` | src/expenses/expense-payment.repository.ts:176-325 | what is settled on an expense is the money paid out for it plus the liability raised for it |
| `Invariant.FactsPostIntoOpenPeriods` | src/accounting-periods/accounting-period-posting-context.service.ts:45-64 | every fact a commit adds lies in one period that is open and canonical, or is provisioned open by the same commit |
| `Invariant.ClosedPeriodIsFrozen` | src/accounting-periods/accounting-period-write.repository.ts:122-221 | a commit changes neither a closed period nor any fact recorded in it |
| `Interleaving.CommitFootprint` | src/accounting-periods/accounting-period-posting-context.repository.ts:49-63 | a commit changes nothing outside the rows its transaction has locked in a conflicting mode |
| `Interleaving.KnowledgeSurvivesCommit` | src/accounting-corrections/accounting-correction-posting.repository.ts:1121-1162 | what an open transaction has read and checked stays true when any other transaction commits |
| `Runs.AdvanceTakesGrantedLocks` | src/accounting-corrections/accounting-correction-posting.repository.ts:1121-1162 | each statement adds only locks that no other transaction holds in conflict |
| `Runs.AdvanceKeepsKnowledge` | src/accounting-corrections/accounting-correction-posting.repository.ts:331-367 | each statement of each command establishes what the next one relies on |
| `Runs.CommitKeepsTables` | src/accounting-corrections/accounting-correction-posting.repository.ts:315-328 | committing an outcome, a replay or a conflict keeps the tables valid within the transaction's footprint |
| `Runs.RunKeeps` | src/accounting-periods/accounting-period-posting-context.repository.ts:25-63 | the invariant holds in every state of every interleaving, transactions abandoned anywhere included |
| `Guarantees.StartIsOk` | src/accounting-corrections/accounting-correction-posting.repository.ts:292-312 | an empty store satisfies the invariant |
| `Guarantees.CommitIsSerial` | src/accounting-corrections/accounting-correction-posting.repository.ts:292-329 | a commit leaves behind and answers exactly what the whole command, run alone at that moment, would |
| `Guarantees.RejectionIsSerial` | src/accounting-corrections/accounting-correction-posting.repository.ts:1300-1335 | a rejection is the serial answer at the moment it is decided, and writes only the operation's row |
| `Guarantees.RunOnlyAppends` | src/accounting-corrections/accounting-correction-posting.repository.ts:930-1000 | no run of posting, correcting, closing and paying commands edits or removes a recorded operation, movement, owner entry, transfer or payment |
| `Guarantees.RetryIsAnswered` | src/accounting-corrections/accounting-correction-posting.repository.ts:1236-1260 | after any further run an identical retry is answered with the first outcome and changes nothing; a different request under the same id only adds a conflict row |
| `Guarantees.OneOutcomePerOperation` | src/accounting-periods/accounting-period-write.repository.ts:229-288 | in every reachable state each operation id has at most one outcome and none is processing |
| `Guarantees.FactKeysAreUnique` | src/money-movements/money-movement-identity.ts:33-42 | no interleaving writes two movements, or two owner entries, under one key |
| `Guarantees.ClosedForever` | src/accounting-periods/accounting-period-write.repository.ts:122-221 | once a close has committed, no interleaving changes the period or its facts |
| `Guarantees.CloseTakesEffect` | src/accounting-periods/accounting-period-write.repository.ts:160-220 | an applied close met the expected version and leaves that period, and no other, closed, one version later if it was open |
| `Guarantees.PostsWhileOpen` | src/accounting-periods/accounting-period-posting-context.service.ts:45-64 | what a finished transaction is about to commit lies in a period that is still open |
| `Guarantees.BooksBalance` | src/accounting-corrections/accounting-correction-posting.repository.ts:686-928 | in every state reachable by posting, correcting, closing and paying, balances, liability and equity are the sums of the active events and liability is not negative |
| `Guarantees.SettlementsBalance` | src/expenses/expense-payment.repository.ts:327-380 | in every state reachable by posting, correcting, closing and paying, settled plus outstanding is the amount, settled never exceeds it and is fully backed |
| `Guarantees.RacingCorrections` | src/accounting-corrections/accounting-correction-posting.repository.ts:1141-1162 | however corrections of one target race, at most one supersedes it |
| `Guarantees.NoSettlementConflict` | src/expenses/expense-payment.repository.ts:188-290 | no payment is rejected for an inconsistent settlement |
| `Guarantees.IntegrityConflictExactly` | src/accounting-corrections/accounting-correction-posting.repository.ts:369-611 | a correction meets a target integrity conflict if and only if it names an applied opening balance of zero |
| `Guarantees.ConflictIsMet` | src/accounting-corrections/accounting-correction-posting.repository.ts:453-481 | on an empty store an opening balance of zero is posted and its reversal meets the conflict |
| `Alone.WaitsOnlyForConflicts` | src/accounting-periods/accounting-period-posting-context.repository.ts:25-63 | a transaction waits only for a row that another holds in conflict with what its command locks: posters of one month share it and the store |
| `Alone.RejectionFreesRows` | src/accounting-corrections/accounting-correction-posting.repository.ts:319-327 | a command rejected inside its savepoint gives up its target, month and expense rows before it commits |
| `Alone.EveryCommandRunsAlone` | src/accounting-corrections/accounting-correction-posting.repository.ts:292-329 | with no other transaction open, beginning any command, running its at most eight statements and committing leaves behind and answers what the whole command decides |
| `Requested.CorrectionDoesWhatIsAsked` | src/accounting-corrections/accounting-correction-posting.repository.ts:710-928 | on every account an applied correction takes back what stands for its target and adds what the request names: the amount on the opening's account, in or out of the named account by domain, out of the requested or former source and into the requested destination; likewise for liability and equity |
| `Requested.OriginalDoesWhatIsAsked` | src/owner-ledger/owner-ledger-posting.repository.ts:71-117 | contributions and loans put money in, reimbursements and withdrawals take it out, transfers move it from source to destination; loans raise and reimbursements lower liability, contributions raise and withdrawals lower equity |
| `Requested.PaymentDoesWhatIsAsked` | src/expenses/expense-payment.repository.ts:203-262 | a payment takes its amount from its account or owes it to the owner, and settles its expense by it |
| `WrittenRows.CorrectionTakesBackTarget` | src/accounting-corrections/accounting-correction-posting.repository.ts:741-761 | every movement that stands for the target is taken back once, on its account, with its counterpart and reference, and nothing else is |
| `WrittenRows.CorrectionEntries` | src/accounting-corrections/accounting-correction-posting.repository.ts:764-828 | owner entries pair off with movements, each naming the other, and the first takes back the target's entry |
| `WrittenRows.CorrectionHeader` | src/accounting-corrections/accounting-correction-posting.repository.ts:905-925 | a replaced transfer has one new header with the requested or former source, the requested destination and amount |
| `WrittenRows.CorrectionRowsAreItsOwn` | src/accounting-corrections/accounting-correction-posting.repository.ts:930-1000 | every added row carries the correction's operation, group, period, time and type, and nothing recorded changes |
| `WrittenRows.OriginalRowsAreItsOwn` | src/owner-ledger/owner-ledger-posting.repository.ts:196-336 | every row of an original carries its operation, period, time and the type of its domain; a transfer's header names its accounts and amount |
| `WrittenRows.OriginalReferences` | src/money-transfers/money-transfer-posting.repository.ts:172-233 | an opening refers to its account, an owner command's movement and entry to each other, a transfer's legs to the header and each other's account |
| `WrittenRows.PaymentRowsAreItsOwn` | src/expenses/expense-payment.repository.ts:203-281 | one posted payment as requested and the one fact behind it, each naming the other |
| `WrittenRows.OperationIsRecorded` | src/accounting-corrections/accounting-correction-posting.repository.ts:1262-1335 | a new command leaves one row with its device, request and outcome; an applied one reports exactly the facts added, a rejected one adds nothing else |
| `WrittenRows.IdentityIsOneToOne` | src/accounting-corrections/accounting-correction-posting.repository.ts:1236-1260 | two requests have one identity exactly when device and request are the same |
| `Decisions.CorrectionWithoutTarget` | src/accounting-corrections/accounting-correction-posting.repository.ts:369-377 | a correction of an operation that is not recorded is refused as not found, of itself as not active |
| `Decisions.CorrectionTargets` | src/accounting-corrections/accounting-correction-posting.repository.ts:369-430 | which targets are refused, and as what: rejected, reversal or superseded ones as not active, other domains and kinds as mismatch, an opening of zero as conflict |
| `Decisions.CorrectionDecides` | src/accounting-corrections/accounting-correction-posting.repository.ts:331-367 | a correction of an active target is refused for the first that holds of same account, no change, period, missing or unavailable account and liability, and otherwise applied |
| `Decisions.OriginalDecides` | src/owner-ledger/owner-ledger-posting.repository.ts:248-283 | when an original is applied, and each refusal exactly |
| `Decisions.PaymentDecides` | src/expenses/expense-payment.repository.ts:176-201 | a payment is applied if and only if its month takes postings, its expense is posted and due later, it is no more than is due and its account is usable; each refusal exactly |
| `Decisions.CloseDecides` | src/accounting-periods/accounting-period-write.repository.ts:122-183 | a close is applied if and only if the period is there, canonical, at the expected version, not closing, and not open while blocked; each refusal exactly |
| `Decisions.CloseDoesWhatIsAsked` | src/accounting-periods/accounting-period-write.repository.ts:186-220 | an applied close changes nothing but its period's status and version |
| `Store.StoreDatabase.BeginMutation` | src/accounting-corrections/accounting-correction-posting.repository.ts:298-312 | a recorded operation is answered serially, a new one is claimed, and a store that is not active is refused untouched |
| `Store.StoreDatabase.ResolveProcessedOperation` | src/accounting-corrections/accounting-correction-posting.repository.ts:1236-1260 | answers by identity and status, and records a conflict exactly for a different request |
| `Store.StoreDatabase.Complete` | src/accounting-corrections/accounting-correction-posting.repository.ts:1276-1298 | the update by operation and status touches exactly the claimed row |
| `Store.StoreDatabase.ResolveForWrite` | src/accounting-periods/accounting-period-posting-context.service.ts:33-72 | provisions a missing month open, then accepts exactly canonical open periods |
| `Store.StoreDatabase.LoadTarget` | src/accounting-corrections/accounting-correction-posting.repository.ts:336-349 | reading tables that hold the command's own claimed row decides as on the tables without it |
| `Store.StoreDatabase.InsertOpeningCorrection` | src/accounting-corrections/accounting-correction-posting.repository.ts:730-762 | appends exactly the specified reversal and replacement, in order, and reports them |
| `Store.StoreDatabase.InsertOwnerCorrection` | src/accounting-corrections/accounting-correction-posting.repository.ts:764-828 | the same for a movement with its owner entry |
| `Store.StoreDatabase.InsertTransferCorrection` | src/accounting-corrections/accounting-correction-posting.repository.ts:830-928 | the same for both legs and the replacement header |
| `Store.StoreDatabase.ApplyCorrection` | src/accounting-corrections/accounting-correction-posting.repository.ts:331-367 | fails as the verdict on the tables without the claim fails, or writes exactly what the verdict says |
| `Store.StoreDatabase.CorrectEvent` | src/accounting-corrections/accounting-correction-posting.repository.ts:292-329 | a correction leaves behind and answers what its serial decision says, its savepoint undone on rejection |
| `Store.StoreDatabase.ClosePeriod` | src/accounting-periods/accounting-period-write.repository.ts:112-227 | the same for closing a period |
| `Store.StoreDatabase.PostPaymentFacts` | src/expenses/expense-payment.repository.ts:203-281 | a draft payment, its backing fact and the update to posted leave exactly one posted payment and its fact |
| `Store.StoreDatabase.InsertPayment` | src/expenses/expense-payment.repository.ts:176-325 | the checks before and after posting decide as the verdict does |
| `Store.StoreDatabase.PostPayment` | src/expenses/expense-payment.repository.ts:154-174 | a payment leaves behind and answers what its serial decision says |
| `PaymentCancellation.CancelsExactly` | src/expenses/expense-correction.repository.ts:448-553 | from every state the other commands leave, a cancellation succeeds exactly for an applied payment of an expense open to settlement in an open month; what paid always passes the loader |
| `PaymentCancellation.CancelGivesBack` | src/expenses/expense-correction.repository.ts:964-1028 | the reversal gives back exactly the amount, to the account or from the liability, and takes it from what is settled on that expense alone |
| `PaymentCancellation.CancelKeepsSettlements` | src/expenses/expense-correction.repository.ts:505-517 | after a cancellation every settlement is still between zero and the amount |
| `PaymentCancellation.LiabilityStaysExactly` | src/expenses/expense-correction.repository.ts:1010-1023 | liability stays non-negative if and only if money paid or the liability covers the cancelled amount |
| `PaymentCancellation.CancelledOnce` | src/expenses/expense-correction.repository.ts:740-770 | a cancelled payment is never cancelled again |
| `CancelDecisions.CancelDecides` | src/expenses/expense-correction.repository.ts:581-770 | when a cancellation is applied and for what each other is refused, in order |
| `CancelDecisions.CancelRows` | src/expenses/expense-correction.repository.ts:964-1028 | one reversal of the payment's one fact, with the cancellation's period, time and group, and nothing else added |
| `OverdrawnOwner.CancellingMayOverdraw` | src/expenses/expense-correction.repository.ts:1098-1104 | pay 100 from the pocket, reimburse 100, cancel: the liability is -100 |
| `CorrectionResponse.StoredResponsesAreAccepted` | src/accounting-corrections/accounting-correction-response.ts:269-324 | in every reachable state the stored response of every applied correction is parsed back unchanged |
| `CorrectionResponse.AcceptableIsReadBack` | src/accounting-corrections/accounting-correction-response.ts:35-147 | the parser rebuilds every field of every movement, owner entry and transfer as it was stored |
| `CorrectionResponse.TextIsOneToOne` | src/accounting-corrections/accounting-correction-response.ts:18-20 | different amounts have different texts, so the amounts read back are those posted |
| `CorrectionResponse.AcceptedBelongsToItsOperation` | src/accounting-corrections/accounting-correction-response.ts:193-231 | a response accepted for one operation is never accepted for another |
| `CorrectionResponse.AcceptedMovementsMove` | src/accounting-corrections/accounting-correction-response.ts:35-73 | every movement of an accepted response spells an amount other than zero |
| `CorrectionResponse.AcceptedEntriesChange` | src/accounting-corrections/accounting-correction-response.ts:75-115 | every owner entry spells two integers, not both written as zero |
| `CorrectionResponse.AcceptedTransferBalances` | src/accounting-corrections/accounting-correction-response.ts:228-267 | an accepted replacement transfer moves one positive amount from its source to a different destination; nothing else has a transfer |
| `CorrectionResponse.AcceptedKeys` | src/accounting-corrections/accounting-correction-response.ts:156-226 | an accepted response lists what is taken back first and then what replaces it, under its operation's keys |
| `CorrectionResponse.AcceptedNames` | src/accounting-corrections/accounting-correction-response.ts:278-280 | the name of each domain and each kind in an accepted response |
| `CorrectionResponse.AcceptedHeader` | src/accounting-corrections/accounting-correction-response.ts:269-290 | an accepted response has a posting date of the form year, month, day and the keys of its own operation |
| `SqlLexer.LexPartitions` | scripts/migrate.ts:100-187 | each character of a script lies in exactly one piece of the reference lexer, and no piece is empty |
| `SqlLexer.PiecesAreWellFormed` | scripts/migrate.ts:108-180 | every comment, quote and dollar quote is closed where its own rules say or reaches the end, and at code no comment, quote or tag begins |
| `LexicalForms.LexIsTheCutting` | scripts/migrate.ts:100-187 | the lexer's pieces are the one and only way to cut a script into well-formed comments, quotes, dollar quotes and code that begins none of them |
| `SqlLexer.StripNonExecutableSql` | scripts/migrate.ts:100-187 | the loops end on every input and yield one character for each piece: code itself, a space for anything else |
| `SqlLexer.SemicolonsAreCode` | scripts/migrate.ts:100-187 | the output's semicolons are exactly those of code |
| `TransactionControl.StrippingHidesNothing` | scripts/migrate.ts:189-203 | the patterns on the stripped text match exactly the statements whose first words begin, end or nest a transaction |
| `TransactionControl.ValidateTransactionControl` | scripts/migrate.ts:88-203 | a script passes if and only if no statement's first code words are begin, start transaction, commit, end, rollback, abort, savepoint, release or prepare transaction |
| `TransactionControl.PatternsAreTheWords` | scripts/migrate.ts:88-98 | the nine patterns are those words, letters in either case |
| `TransactionControl.StatementsAreSeparated` | scripts/migrate.ts:190-193 | the statements joined by code semicolons are the script, and none holds one |
| `TransactionControl.LeadingBlanksHideNothing` | scripts/migrate.ts:189-197 | comments, quotes and white space in front of a statement change nothing |
| `ServerLexer.LexersAgree` | scripts/migrate.ts:134-142 | a server that reads identifiers whole splits a script as the runner does if and only if no quote of the runner begins inside an identifier |
| `ServerLexer.FilterGuards` | scripts/migrate.ts:189-203 | a script of that kind that passes leaves such a server no statement that controls a transaction |
| `ServerLexer.FilterMisreadsNames` | scripts/migrate.ts:134-142 | any plain statement between two names that end in the same dollar tag, whatever letter they begin with, passes the filter and is run by such a server |
| `ServerLexer.FilterMissesCommit` | scripts/migrate.ts:88-98 | so a commit between two such names passes |
| `MigrationFiles.CodeUnitOrderIsRank` | scripts/migrations/effective-migration-state.ts:144-144 | on names with different prefixes the code-unit order is the order of the prefixes |
| `MigrationFiles.ReadNamesExactly` | scripts/migrations/migration-files.ts:38-57 | comparing sorted neighbours finds every shared prefix; otherwise all migrations are read in prefix order |
| `MigrationFiles.NamesAreExactly` | scripts/migrations/migration-files.ts:38-42 | a migration name is four digits, an underscore, a non-empty name of lower-case letters, digits and underscores, and .sql |
| `MigrationFiles.FilesAreRead` | scripts/migrations/migration-files.ts:38-42 | every file with such a name is read as often as it is there, and nothing else |
| `MigrationState.VerifyMigrationChecksums` | scripts/migrations/effective-migration-state.ts:117-129 | passes exactly records that are repository files with their checksums; the first that is not is refused as missing or for its checksum |
| `MigrationState.ValidateBaselineProvenance` | scripts/migrations/effective-migration-state.ts:131-165 | passes exactly a baseline of the right form that lists the files up to its ceiling, checksums included, and says which of the three failed |
| `MigrationState.BaselineRules` | scripts/migrations/effective-migration-state.ts:135-143 | the form of a baseline's row, pattern by pattern |
| `MigrationState.ReadEffectiveMigrationState` | scripts/migrations/effective-migration-state.ts:43-115 | succeeds if and only if the records are a repository prefix; then effective is that prefix with its checksums and pending is the rest; otherwise the first check that fails gives the reason |
| `MigrationRunner.MigrationDatabase.Execute` | scripts/migrate.ts:237-237 | the runner's transaction stays open exactly as long as no executed statement of the server's reading ends it, which a guarded script that passed the filter never does |
| `MigrationRunner.MigrationDatabase.ApplyMigration` | scripts/migrate.ts:229-276 | a guarded migration takes effect and is recorded, or neither |
| `MigrationRunner.MigrationDatabase.ApplyAll` | scripts/migrate.ts:304-307 | stops at the first failure with exactly the migrations before it applied and recorded |
| `MigrationRunner.MigrationDatabase.Run` | scripts/migrate.ts:278-331 | every run, stopped anywhere, leaves a repository prefix and has run the added migrations once and in order; an unobstructed apply ends with all files |
| `Recovery.GoodHasOneAuthority` | scripts/recovery/recovery-execution.ts:129-234 | in every reachable state, between any two effects, at most one of the source and all targets is ACTIVE |
| `Recovery.RecordsTellTheTruth` | scripts/recovery/recovery-execution.ts:141-233 | each recorded phase implies its database facts, up to the activated target at a new generation |
| `Recovery.AppendingIsGood` | src/recovery/recovery-attempt-catalog.service.ts:116-144 | appending a true record keeps phases a prefix of the order, or PREPARED then ABORTED, and every other attempt's facts |
| `Recovery.RecoverySystem.Prepare` | scripts/recovery/recovery-execution.ts:78-127 | starts an attempt exactly from an active source with the lock free and nothing failing; a failed preparation gives the lock back unless it crashes or the release fails |
| `Recovery.RecoverySystem.RestoreDatabase` | scripts/recovery/recovery-execution.ts:129-234 | wherever it stops the attempt stays restorable; success always ends in the one state given by the prepared record and the recovery point, and comes exactly when no effect fails; an unrecorded fence remains exactly when the run stops between fence and record |
| `Recovery.RecoverySystem.FillTarget` | scripts/recovery/recovery-execution.ts:162-230 | records a restored database only with the target fenced at the prepared generation |
| `Recovery.RecoverySystem.RestoreAttachments` | scripts/recovery/recovery-execution.ts:236-282 | advances exactly when nothing fails, over a target fenced at the recorded generation |
| `Recovery.RecoverySystem.Verify` | scripts/recovery/recovery-execution.ts:284-328 | advances exactly when nothing fails, with source and target fenced |
| `Recovery.RecoverySystem.Approve` | scripts/recovery/recovery-execution.ts:330-350 | advances exactly a verified attempt for its own recovery point when nothing fails |
| `Recovery.RecoverySystem.Activate` | scripts/recovery/recovery-execution.ts:352-409 | success means target active at a new generation, source fenced, lock released; an attempt is stranded exactly when the run stops between activation and record, and a stranded one never succeeds |
| `Recovery.RecoverySystem.AbortPrepared` | scripts/recovery/recovery-execution.ts:411-435 | aborts exactly what has recorded nothing but its preparation and has no target, when nothing fails, and leaves the source as it is |
| `Recovery.AbortAfterUnrecordedFence` | scripts/recovery/recovery-execution.ts:141-153 | a run that ends aborted with the source fenced |
| `Recovery.ActivateAfterUnrecordedActivation` | scripts/recovery/recovery-execution.ts:363-384 | a run whose smooth second activation fails |
| `Keyset.PageIsNext` | src/customers/customer-read.repository.ts:43-67 | the page after the k-th row of the ordered listing is the next rows of it |
| `Keyset.FollowFrom` | src/customers/customer-read.service.ts:39-59 | following next cursors reads what is left exactly once, in order, and ends |
| `AttachmentInventory.CaptureInventory` | scripts/recovery/attachment-recovery-inventory.ts:46-178 | succeeds exactly for a valid batch size, rows that meet the entry schema and totals that fit the footer, and then lists every active attachment once, in order, with the exact count and byte total |
| `AttachmentInventory.EntryRules` | src/recovery/attachment-recovery-manifest.ts:31-51 | the entry schema, rule by rule |
| `AttachmentInventory.EntriesInOrder` | scripts/recovery/attachment-recovery-inventory.ts:126-144 | entries are ordered by store and then by attachment |
| `LikePrefix.ChainedIsEach` | src/customers/customer-read-query.ts:75-77 | the three chained replacements are one escape per character |
| `LikePrefix.SearchIsPrefix` | src/customers/customer-read.repository.ts:28-38 | the LIKE pattern matches a text if and only if the raw value is a prefix of it |
| `Base64Url.DecodeUndoes` | src/customers/customer-read-cursor.ts:96-99 | encoding can be undone and takes four characters for three bytes, rounded up |
| `Base64Url.EncodeRestoresCanonical` | src/customers/customer-read-cursor.ts:119-125 | re-encoding what was decoded gives the text back exactly for texts of whole bytes |
| `Base64Url.SextetsAreTheBits` | src/customers/customer-read-cursor.ts:96-99 | three bytes and their four sextets are one 24-bit number |
| `Base64Url.AlphabetIs` | src/customers/customer-read-cursor.ts:103-109 | the URL-safe alphabet, symbol by symbol |
| `JsonText.FromUtf8Undoes` | src/customers/customer-read-cursor.ts:91-129 | UTF-8 of any text reads back |
| `JsonText.ReadQuoted` | src/customers/customer-read-cursor.ts:91-129 | a JSON string literal of any text reads back with exactly what follows it |
| `JsonText.BytesOfChar` | src/customers/customer-cursor-representability.ts:4-8 | what each character costs in a JSON string in UTF-8 |
| `CustomerCursor.DecodeUndoesEncode` | src/customers/customer-read-cursor.ts:80-149 | what encodes decodes to the same status, search and position, however else objects may be spelled |
| `CustomerCursor.AcceptsOnlyCanonical` | src/customers/customer-read-cursor.ts:103-125 | however objects are read, only canonical base64url within the length bound is accepted, one text for given bytes |
| `CustomerCursor.ObjectIsSpelled` | src/customers/customer-read-cursor.ts:80-101 | the encoded object's text, with each member's name and place |
| `CustomerCursor.EncodeDecides` | src/customers/customer-read-cursor.ts:80-101 | a cursor encodes if and only if its id has its form, its texts their lengths and its object at most 1,536 bytes |
| `CustomerCursor.DecodeDecides` | src/customers/customer-read-cursor.ts:103-149 | a text is accepted if and only if its length, alphabet, whole bytes, size and object are right |
| `CustomerCursor.DecodedIsWithin` | src/customers/customer-read-cursor.ts:42-78 | what is decoded is within the lengths and has its id in lower case |
| `CustomerCursor.ScopesMatch` | src/customers/customer-read-cursor.ts:151-161 | a cursor belongs to a request exactly when status, prefix and phone are the same |
| `CustomerCursor.StringifySize` | src/customers/customer-cursor-representability.ts:4-8 | the exact size of a payload in bytes, from which the 138-byte envelope follows |
| `CustomerCursor.NameGuardIsTheBudget` | src/customers/customer-cursor-representability.ts:43-53 | the name guard passes exactly the non-empty names within 699 bytes |
| `CustomerCursor.SearchGuardIsTheBudget` | src/customers/customer-cursor-representability.ts:55-66 | the search guard passes exactly the searches that leave room for every name |
| `CustomerCursor.GuardedCursorsEncode` | src/customers/customer-cursor-representability.ts:43-66 | any guarded name and any guarded search encode together within 1,536 bytes and 2,048 characters, and read back |
| `CustomerList.ListIsCut` | src/customers/customer-read.service.ts:31-47 | a cursor of the listing passes the scope check and continues exactly behind it |
| `CustomerList.PageIsExact` | src/customers/customer-read.service.ts:39-59 | a page holds the next rows up to the limit and leads on exactly when some are left |
| `CustomerList.ForeignCursorsAreRefused` | src/customers/customer-read.service.ts:31-38 | a cursor that does not decode, or of another status or search, is refused |
| `CustomerList.CustomersInOrder` | src/customers/customer-read.repository.ts:43-67 | the listing is ordered by name and then by id |
| `CustomerList.FollowReadsAll` | src/customers/customer-read.service.ts:26-71 | following next cursors with any limits of at least one reads every wanted customer exactly once, in order, ends and meets no error |
| `CustomerList.CustomersAreTheWanted` | src/customers/customer-read.repository.ts:23-41 | what is read is exactly the customers of the status whose name starts with the prefix or whose phone is the searched one |
| `Calendar.NumberOfDate` | src/accounting-periods/accounting-posting-date.ts:46-55 | the day-number formula counts calendar days one by one, leap years included |
| `Calendar.DateOfNumber` | src/accounting-periods/accounting-posting-date.ts:46-55 | every real date is reached, so days and dates correspond one to one |
| `Gregorian.MonthsFromMarch` | src/accounting-periods/accounting-posting-date.ts:46-51 | from March on the months begin where five months of 153 days put them |
| `Gregorian.MonthsToMarch` | src/accounting-periods/accounting-posting-date.ts:46-55 | January has 31 days and February 28, or 29 in a leap year |
| `Gregorian.DaysAreAnchored` | src/accounting-periods/accounting-posting-date.ts:53-55 | days count from the first of January 1970, and four hundred years have 146,097 of them |
| `AccountingMonth.ShowsMidnightExactly` | src/accounting-periods/accounting-period-month.ts:83-104 | the formatted parts show a month's midnight exactly at that local time |
| `AccountingMonth.ResolveLocalMidnight` | src/accounting-periods/accounting-period-month.ts:51-104 | fails at the first offset it cannot read, and otherwise accepts the loop's last candidate exactly when it is the local midnight |
| `Gregorian.MidnightIsTheFourthCandidate` | src/accounting-periods/accounting-period-month.ts:51-66 | the midnight is the fourth candidate, if no offset asked for is unreadable and the clock shows it there |
| `AccountingMonth.ResolveBoundaries` | src/accounting-periods/accounting-period-month.ts:19-49 | resolves exactly months in range whose own and next starts exist, and ends a month where the next one starts |
| `AccountingMonth.StartsIncrease` | src/accounting-periods/accounting-period-month.ts:19-35 | later months start later, whatever the offset does |
| `AccountingMonth.MonthsTileTime` | src/accounting-periods/accounting-period-month.ts:19-35 | every instant between the first start and the last lies in exactly one month |
| `AccountingMonth.SettledMonthResolves` | src/accounting-periods/accounting-period-month.ts:51-81 | a month whose offset is constant around its start resolves exactly when that offset is not zero |
| `AccountingMonth.OneChangeResolvesExactly` | src/accounting-periods/accounting-period-month.ts:51-81 | with one change of offset near it a month resolves if and only if its local midnight exists and the first two offsets asked for are not zero |
| `PostingDate.ParseOfFormat` | src/accounting-periods/accounting-posting-date.ts:20-44 | every real date of 2020 to 9999 in canonical form is accepted with its year and month |
| `PostingDate.FormatOfParse` | src/accounting-periods/accounting-posting-date.ts:20-44 | what is accepted is the canonical form of one real date |
| `PostingDate.AcceptsExactlyTheDays` | src/accounting-periods/accounting-posting-date.ts:20-55 | accepted texts are exactly the calendar's days from 2020-01-01 to 9999-12-31 |
| `Gregorian.AcceptsExactly` | src/accounting-periods/accounting-posting-date.ts:20-55 | character by character: accepted are exactly year, month and day of 2020 to 9999, with 31 days in seven months, 30 in four and 28 or 29 in February |
| `LocalMonths.MonthIsLocalMonthExactly` | src/accounting-periods/accounting-period-month.ts:19-35 | an instant of an accounting month has its local date in that month if and only if the clock was not set back since the month's start by more than has passed, nor is set back by its end by as much as is left |
| `LocalMonths.SteadyMonthIsLocal` | src/accounting-periods/accounting-period-month.ts:19-35 | with no clock change around the two starts, every instant of a month has its local date in it |
| `LocalMonths.PostingDateNamesItsMonth` | src/accounting-periods/accounting-posting-date.ts:20-44 | each accepted posting date names the one month of its day |
| `LocalMonths.DayFallsInOnePeriod` | src/accounting-periods/accounting-period-posting-context.service.ts:38-56 | with no clock change around the two starts, every instant of a day lies in the period of its month and in no other |

## Left out

- Integer widths: amounts are unbounded; a cast or overflow error of the database is a transaction abandoned.
- Store entitlement checks, row-level security, SQL function bodies and triggers; a refused store is `Forbidden`.
- Money account rows are constant, so their locks are not modelled; the check that an account has only one opening balance depends on them and is left out with it.
- The close blockers are queries over tables outside the model: their answer is a parameter.
- The offline-operation scope, and the writers of expenses, categories and customers, which repeat the same operation protocol.
- Corrections of expenses, of supplier payments and of inventory, and the replacement half of a payment edit: the reversal half is `PaymentCancellation`, whose commands are not steps of the interleaved runs.
- `Guarantees.BooksBalance`: liability is non-negative along runs of the four commands only; a cancelled owner-pocket payment lowers it unchecked, as `OverdrawnOwner.CancellingMayOverdraw` shows.
- `Guarantees.SettlementsBalance` and `Guarantees.RunOnlyAppends` are likewise about runs of the four commands; a cancellation sets a payment's status.
- The original posting repositories appear as values only, in `Ledger.OriginalFacts` and the interleaving, not as methods of the store class.
- `validateRoleSwitches` in `scripts/migrate.ts` is a pattern on the raw text: it appears as one more way in which a migration is refused.
- `TransactionControl.ValidateTransactionControl`: judges statements by the reference lexer's rules, which are the script's own and not PostgreSQL's; `ServerLexer` models whole identifiers and no other difference of a server (tags beyond ASCII, settings that change string syntax).
- `MigrationRunner.MigrationDatabase.ApplyMigration`: says nothing of a migration that the filter does not guard and that fails behind a statement ending the transaction.
- `CorrectionResponse.StoredResponsesAreAccepted`: texts with the form of a UUID or an instant are values of their own; that the database writes them in that form is not modelled.
- Recovery: artifacts, dumps, object storage, attachment bytes and target inspections are effects that succeed or fail; an append that stores its record and still reports failure is not modelled.
- `CustomerCursor.Decode`: unpaired surrogates in names are not modelled.
- Phone parsing, name normalisation, PDF, dashboard, audit, controllers, authentication and bootstrap scripts: library behaviour or wiring.
