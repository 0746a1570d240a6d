/** What every interleaving of posting, correcting, closing and paying transactions guarantees. */
module Guarantees {
  import opened Wrappers
  import opened Ledger
  import opened History
  import opened Books
  import opened Invariant
  import opened Interleaving
  import opened Runs

  /** A store with nothing posted yet and no transaction open. */
  function Start(periods: map<PeriodId, Period>, expenses: map<ExpenseId, Expense>, accounts: map<AccountId, bool>): Db {
    Db(Tables([], [], [], [], [], [], periods, expenses, accounts), map[])
  }

  lemma StartIsOk(periods: map<PeriodId, Period>, expenses: map<ExpenseId, Expense>, accounts: map<AccountId, bool>)
    requires forall e | e in expenses :: expenses[e].amount >= 0
    ensures DbOk(Start(periods, expenses, accounts))
  {
    var t := Start(periods, expenses, accounts).tables;
    assert ValidHistory(t.operations) && FactsStored(t);
    assert Sum(t.owners, Liability()) == 0;
    assert forall e | e in expenses :: Sum(t.payments, PaidOn(e)) == 0;
  }

  /* ---- Every outcome is a serial outcome ---- */

  /** What the caller of a finished transaction is told. */
  function Told(tx: Tx): Answer
    requires Done(tx)
  {
    match tx.stage
    case Ready(effect) => Stored(effect.row.status)
    case Answered(row) => Resolve(row, tx.device, tx.command)
  }

  predicate IsRejection(tx: Tx) { tx.stage.Ready? && tx.stage.effect.row.status.Rejected? }

  /** A commit leaves behind and answers exactly what the whole command, run alone on the tables it
      commits to, leaves behind and answers. */
  lemma CommitIsSerial(db: Db, id: nat)
    requires DbOk(db) && id in db.txs && Done(db.txs[id]) && !IsRejection(db.txs[id])
    ensures var tx := db.txs[id];
            (Do(db, Commit(id)).tables, Told(tx)) == Serial(db.tables, tx.device, tx.command, tx.blocked)
  {
    assert TxOk(db.tables, db.txs[id]);
  }

  /** A rejection is the serial answer at the moment it is decided. */
  lemma RejectionIsSerial(db: Db, id: nat)
    requires DbOk(db) && id in db.txs && !Done(db.txs[id])
    requires Next(db, id).Some? && IsRejection(Next(db, id).value)
    ensures var (tx, next) := (db.txs[id], Next(db, id).value);
            Serial(db.tables, tx.device, tx.command, tx.blocked) == (Install(db.tables, next.stage.effect), Told(next))
  {
    var (t, tx) := (db.tables, db.txs[id]);
    assert TxOk(t, tx);
    match tx.command
    case Correct(i) => CorrectRejection(db, id);
    case Post(i) => PostRejection(db, id);
    case Pay(i) => PayRejection(db, id);
    case Close(i) => CloseRejection(db, id);
  }

  /** The failure behind a rejection. */
  function FailureOf(tx: Tx): Failure
    requires IsRejection(tx)
  {
    tx.stage.effect.row.status.failure
  }

  ghost predicate Rejects(db: Db, id: nat) {
    && id in db.txs && TxOk(db.tables, db.txs[id]) && !Done(db.txs[id])
    && Next(db, id).Some? && IsRejection(Next(db, id).value)
  }

  ghost predicate RejectedAs(db: Db, id: nat, verdict: Result<Effect, Failure>)
    requires Rejects(db, id)
  {
    var (tx, next) := (db.txs[id], Next(db, id).value);
    && FindOperation(db.tables.operations, tx.command.Operation()).None?
    && verdict == Err(FailureOf(next))
    && next.stage.effect == RejectedEffect(tx.device, tx.command, FailureOf(next))
  }

  lemma CorrectRejection(db: Db, id: nat)
    requires Rejects(db, id) && db.txs[id].command.Correct?
    ensures RejectedAs(db, id, CorrectVerdict(db.tables, db.txs[id].device, db.txs[id].command.correction))
  {
    match db.txs[id].stage
    case Claimed =>
    case TargetHeld(_) =>
    case TargetLoaded(_, _) =>
    case CorrectionPeriodHeld(_, _, _) =>
    case _ =>
  }

  lemma PostRejection(db: Db, id: nat)
    requires Rejects(db, id) && db.txs[id].command.Post?
    ensures RejectedAs(db, id, PostVerdict(db.tables, db.txs[id].device, db.txs[id].command.original))
  {
  }

  lemma PayRejection(db: Db, id: nat)
    requires Rejects(db, id) && db.txs[id].command.Pay?
    ensures RejectedAs(db, id, PayVerdict(db.tables, db.txs[id].device, db.txs[id].command.payment))
  {
  }

  lemma CloseRejection(db: Db, id: nat)
    requires Rejects(db, id) && db.txs[id].command.Close?
    ensures RejectedAs(db, id, CloseVerdict(db.tables, db.txs[id].device, db.txs[id].command.close, db.txs[id].blocked))
  {
  }

  /* ---- Nothing recorded is ever edited ---- */

  predicate AppendOnly(t: Tables, u: Tables) {
    && t.operations <= u.operations && t.conflicts <= u.conflicts
    && t.movements <= u.movements && t.owners <= u.owners
    && t.transfers <= u.transfers && t.payments <= u.payments
  }

  lemma {:induction false} RunOnlyAppends(db: Db, steps: seq<Step>)
    ensures AppendOnly(db.tables, Run(db, steps).tables)
  {
    if steps != [] {
      RunOnlyAppends(db, steps[..|steps| - 1]);
    }
  }

  /** Once an operation is recorded, its row is the same after any further run: a retry is answered
      with the first outcome and changes nothing, and a different request under the same operation id
      only leaves a conflict row. */
  lemma RetryIsAnswered(db: Db, steps: seq<Step>, row: OperationRow, device: DeviceId, command: Command, blocked: bool)
    requires DbOk(db) && FindOperation(db.tables.operations, command.Operation()) == Some(row)
    ensures var t := Run(db, steps).tables;
            Serial(t, device, command, blocked)
            == if row.identity == IdentityOf(device, command) then (t, Stored(row.status))
               else (t.(conflicts := t.conflicts + [Conflict(command.Operation(), IdentityOf(device, command))]),
                     Refused(OperationIdConflict))
  {
    var (t, u) := (db.tables, Run(db, steps).tables);
    RunKeeps(db, steps);
    RunOnlyAppends(db, steps);
    var k := Found(t.operations, command.Operation());
    assert u.operations[k] == row;
    FindInPrefix(u.operations, k);
    OneRowPerOperation(u.operations, k, k);
  }

  /** Each operation id has at most one committed row in any reachable state, and none is processing. */
  lemma OneOutcomePerOperation(db: Db, steps: seq<Step>, i: nat, j: nat)
    requires DbOk(db) && i <= j < |Run(db, steps).tables.operations|
    ensures var rows := Run(db, steps).tables.operations;
            !rows[j].status.Processing? && (rows[i].operation == rows[j].operation ==> i == j)
  {
    RunKeeps(db, steps);
    OneRowPerOperation(Run(db, steps).tables.operations, i, j);
  }

  /* ---- Keys ---- */

  ghost predicate MovementKeysDistinct(rows: seq<Movement>) {
    forall i, j | 0 <= i < j < |rows| :: rows[i].id != rows[j].id
  }

  ghost predicate OwnerKeysDistinct(rows: seq<OwnerEntry>) {
    forall i, j | 0 <= i < j < |rows| :: rows[i].id != rows[j].id
  }

  lemma RowKeysDistinct(history: seq<OperationRow>, row: OperationRow)
    requires RowOk(history, row)
    ensures MovementKeysDistinct(RowFacts(row).movements) && OwnerKeysDistinct(RowFacts(row).owners)
  {
  }

  lemma {:induction false} FactsHaveARow(rows: seq<OperationRow>)
    requires ValidHistory(rows)
    ensures forall m | m in AllMovements(rows) :: FindOperation(rows, m.id.operation).Some?
    ensures forall e | e in AllOwners(rows) :: FindOperation(rows, e.id.operation).Some?
  {
    if rows != [] {
      FactsHaveARow(rows[..|rows| - 1]);
      FactsAreStamped(rows[..|rows| - 1], rows[|rows| - 1]);
    }
  }

  lemma {:induction false} KeysNeverCollide(rows: seq<OperationRow>)
    requires ValidHistory(rows)
    ensures MovementKeysDistinct(AllMovements(rows)) && OwnerKeysDistinct(AllOwners(rows))
  {
    if rows != [] {
      var (prefix, last) := (rows[..|rows| - 1], rows[|rows| - 1]);
      KeysNeverCollide(prefix);
      FactsHaveARow(prefix);
      FactsAreStamped(prefix, last);
      RowKeysDistinct(prefix, last);
    }
  }

  /** No interleaving writes two movements, or two owner entries, under one key. */
  lemma FactKeysAreUnique(db: Db, steps: seq<Step>)
    requires DbOk(db)
    ensures MovementKeysDistinct(Run(db, steps).tables.movements) && OwnerKeysDistinct(Run(db, steps).tables.owners)
  {
    RunKeeps(db, steps);
    KeysNeverCollide(Run(db, steps).tables.operations);
  }

  /* ---- Closed periods ---- */

  lemma StepKeepsClosed(db: Db, step: Step, p: PeriodId)
    requires DbOk(db) && IsClosed(db.tables, p)
    ensures SamePeriod(db.tables, Do(db, step).tables, p)
  {
    if step.Commit? && step.id in db.txs && db.txs[step.id].stage.Ready? {
      var tx := db.txs[step.id];
      ClosedPeriodIsFrozen(db.tables, tx.device, tx.command, tx.blocked, tx.stage.effect, p);
    }
  }

  /** Once a close has committed, no interleaving changes the period or the facts recorded in it. */
  lemma {:induction false} ClosedForever(db: Db, steps: seq<Step>, p: PeriodId)
    requires DbOk(db) && IsClosed(db.tables, p)
    ensures SamePeriod(db.tables, Run(db, steps).tables, p)
  {
    if steps != [] {
      var before := Run(db, steps[..|steps| - 1]);
      ClosedForever(db, steps[..|steps| - 1], p);
      RunKeeps(db, steps[..|steps| - 1]);
      StepKeepsClosed(before, steps[|steps| - 1], p);
    }
  }

  /** A close that is applied leaves the period closed, one version later if it was still open. */
  lemma CloseTakesEffect(t: Tables, device: DeviceId, input: CloseInput, blocked: bool)
    requires CloseVerdict(t, device, input, blocked).Ok?
    ensures var u := Install(t, CloseVerdict(t, device, input, blocked).value);
            && IsClosed(u, input.period) && input.period in t.periods
            && t.periods[input.period].version == input.expectedVersion
            && u.periods[input.period].version == input.expectedVersion + (if IsClosed(t, input.period) then 0 else 1)
            && (forall p | p != input.period :: p in u.periods <==> p in t.periods)
            && (forall p | p != input.period && p in t.periods :: u.periods[p] == t.periods[p])
  {
    var period := CheckClose(t.periods, input, blocked).value;
    assert period == t.periods[input.period];
  }

  /** Whatever a transaction is about to commit lies in a period that is open until it commits. */
  lemma PostsWhileOpen(db: Db, id: nat)
    requires DbOk(db) && id in db.txs && db.txs[id].stage.Ready?
    ensures PostsIntoOpenPeriod(db.tables, db.txs[id].stage.effect)
  {
    var tx := db.txs[id];
    FactsPostIntoOpenPeriods(db.tables, tx.device, tx.command, tx.blocked, tx.stage.effect);
  }

  /* ---- Books ---- */

  /** In every reachable state the append-only sums are the sums of the active events, and the owner
      liability is not negative. */
  lemma BooksBalance(db: Db, steps: seq<Step>, a: AccountId)
    requires DbOk(db)
    ensures var t := Run(db, steps).tables;
            var superseded := Targets(t.operations);
            && Sum(t.movements, MoneyOn(a)) == ActiveSum(t.operations, superseded, MoneyEffect(a))
            && Sum(t.owners, Liability()) == ActiveSum(t.operations, superseded, LiabilityEffect())
            && Sum(t.owners, Equity()) == ActiveSum(t.operations, superseded, EquityEffect())
            && Sum(t.owners, Liability()) >= 0
  {
    RunKeeps(db, steps);
    BalancesAreActiveEvents(Run(db, steps).tables.operations, a);
    OwnerPositionIsActiveEvents(Run(db, steps).tables.operations);
  }

  /** In every reachable state what is settled on an expense stays within its amount and equals the
      money paid out for it plus the owner liability raised for it. */
  lemma SettlementsBalance(db: Db, steps: seq<Step>, e: ExpenseId)
    requires DbOk(db) && e in Run(db, steps).tables.expenses && Run(db, steps).tables.expenses[e].status.PostedExpense?
    ensures var t := Run(db, steps).tables;
            var s := ReadSettlement(t.expenses, t.payments, e);
            && s.Ok? && s.value.recognized == t.expenses[e].amount == s.value.settled + s.value.outstanding
            && 0 <= s.value.settled <= s.value.recognized
            && s.value.settled == Sum(t.operations, MoneyOutFor(e)) + Sum(t.operations, LiabilityRaisedFor(e))
  {
    RunKeeps(db, steps);
    SettledIsBacked(Run(db, steps).tables.operations, e);
  }

  /** However corrections of one event race, at most one supersedes it. */
  lemma RacingCorrections(db: Db, steps: seq<Step>, i: nat, j: nat, k: nat)
    requires DbOk(db)
    requires var rows := Run(db, steps).tables.operations; Supersedes(rows, j, i) && Supersedes(rows, k, i)
    ensures j == k
  {
    RunKeeps(db, steps);
    SupersededOnce(Run(db, steps).tables.operations, i, j, k);
  }

  /* ---- Integrity rejections ---- */

  /** A payment is never rejected for an inconsistent settlement, before or after it is posted. */
  lemma NoSettlementConflict(t: Tables, device: DeviceId, input: PaymentInput)
    requires Inv(t)
    ensures PayVerdict(t, device, input) != Err(ExpenseOutstandingIntegrityConflict)
  {
    AccountFailures(t.accounts, PaymentAccounts(input));
    if LockExpense(t.expenses, input.expense).Ok? {
      SettlementIsConsistent(t, input.expense);
      var before := ReadSettlement(t.expenses, t.payments, input.expense).value;
      assert CheckSettlement(t.expenses[input.expense], before, input.amount) != Err(ExpenseOutstandingIntegrityConflict);
      AfterCheckNeverFires(t, input, before);
    }
  }

  lemma {:induction false} AccountFailures(accounts: map<AccountId, bool>, wanted: seq<AccountId>)
    ensures var r := CheckAccounts(accounts, wanted); r.Ok? || r.error.AccountNotFound? || r.error.AccountUnavailable?
  {
    if wanted != [] { AccountFailures(accounts, wanted[1..]); }
  }

  /** The one target that loads nothing: an applied opening balance of zero. */
  predicate ZeroOpening(rows: seq<OperationRow>, input: CorrectionInput) {
    && input.target != input.operation && input.domain.OpeningBalance?
    && var row := FindOperation(rows, input.target);
       && row.Some? && row.value.status.Applied?
       && row.value.identity.digest.Post?
       && row.value.identity.digest.original.domain.OpeningBalance? && row.value.identity.digest.original.amount == 0
  }

  /** A correction meets an integrity conflict exactly when it names an opening balance of zero. */
  lemma IntegrityConflictExactly(t: Tables, device: DeviceId, input: CorrectionInput)
    requires Inv(t) && Correct(input).WellFormed()
    ensures CorrectVerdict(t, device, input) == Err(TargetIntegrityConflict) <==> ZeroOpening(t.operations, input)
  {
    var target := FindOperation(t.operations, input.target);
    if input.target != input.operation && target.Some? && target.value.status.Applied? {
      var k := Found(t.operations, input.target);
      PrefixIsValid(t.operations, k);
      KindIsResolved(t.operations[..k], target.value, input);
      ZeroOpeningIsCorrectable(t.operations[..k], target.value, input);
      if Correctable(target.value, input.domain) {
        LoaderAcceptsWriter(t, t.operations[..k], target.value, input.domain);
        CorrectableConflict(t, device, input, target.value);
      }
    }
  }

  /** Whoever posts an opening balance of zero and then corrects it meets the conflict. */
  lemma ZeroOpeningMeetsConflict(t: Tables, device: DeviceId, opening: OriginalInput, input: CorrectionInput)
    requires Inv(t) && opening.domain.OpeningBalance? && opening.amount == 0
    requires FindOperation(t.operations, opening.operation).None? && PostVerdict(t, device, opening).Ok?
    requires Correct(input).WellFormed() && input.domain.OpeningBalance?
    requires input.target == opening.operation && input.operation != opening.operation
    ensures CorrectVerdict(Serial(t, device, Post(opening), false).0, device, input) == Err(TargetIntegrityConflict)
  {
    var u := Serial(t, device, Post(opening), false).0;
    SerialKeepsInvariant(t, device, Post(opening), false);
    assert u.operations[|u.operations| - 1] == PostVerdict(t, device, opening).value.row;
    IntegrityConflictExactly(u, device, input);
  }

  /** On an empty store with one open month and one account, an opening balance of zero is posted and
      its reversal is refused. */
  lemma ConflictIsMet(start: Tables, month: PeriodId)
    requires start == Start(map[month := Period(Open, 1, true)], map[], map[3 := true]).tables
    ensures var t := Serial(start, 0, Post(OriginalInput(1, OpeningBalance, month, 0, 0, 3, 3)), false).0;
            CorrectVerdict(t, 0, CorrectionInput(2, 1, OpeningBalance, ReversalKind, month, 0, None)) == Err(TargetIntegrityConflict)
  {
    var opening := OriginalInput(1, OpeningBalance, month, 0, 0, 3, 3);
    StartIsOk(start.periods, start.expenses, start.accounts);
    assert CheckAccounts(start.accounts, [3]).Ok?;
    ZeroOpeningMeetsConflict(start, 0, opening, CorrectionInput(2, 1, OpeningBalance, ReversalKind, month, 0, None));
  }

  lemma ZeroOpeningIsCorrectable(history: seq<OperationRow>, row: OperationRow, input: CorrectionInput)
    requires RowOk(history, row)
    ensures (row.status.Applied? && row.identity.digest.Post? && row.identity.digest.original.domain.OpeningBalance?
             && input.domain.OpeningBalance?) ==> Correctable(row, input.domain)
  {
  }

  lemma CorrectableConflict(t: Tables, device: DeviceId, input: CorrectionInput, row: OperationRow)
    requires Inv(t) && Correct(input).WellFormed() && FindOperation(t.operations, input.target) == Some(row)
    requires ResolveTarget(t.operations, input) == Ok(KindOf(row))
    requires LoadEvent(t, input.target, input.domain, KindOf(row))
          == if EventOf(row).Some? then Ok(EventOf(row).value) else Err(TargetIntegrityConflict)
    requires EventOf(row).Some? ==> EventIn(EventOf(row).value, input.domain)
    ensures CorrectVerdict(t, device, input) == Err(TargetIntegrityConflict) <==> EventOf(row).None?
  {
    if EventOf(row).Some? {
      AccountFailures(t.accounts, AffectedAccounts(input, EventOf(row).value));
    } else if input.target in Targets(t.operations) {
      NothingToSupersede(t.operations, input.target);
    }
  }

  lemma KindIsResolved(history: seq<OperationRow>, row: OperationRow, input: CorrectionInput)
    requires RowOk(history, row) && row.operation == input.target && row.status.Applied?
    ensures ResolveTargetKind(Some(row), input.target, input.domain).Ok? <==> Correctable(row, input.domain)
    ensures Correctable(row, input.domain) ==> ResolveTargetKind(Some(row), input.target, input.domain) == Ok(KindOf(row))
    ensures ResolveTargetKind(Some(row), input.target, input.domain) != Err(TargetIntegrityConflict)
  {
  }

  lemma {:induction false} NothingToSupersede(rows: seq<OperationRow>, t: OperationId)
    requires ValidHistory(rows) && t in Targets(rows)
    ensures FindOperation(rows, t).Some? && EventOf(FindOperation(rows, t).value).Some?
  {
    var prefix := rows[..|rows| - 1];
    if t in Targets(prefix) {
      NothingToSupersede(prefix, t);
    }
    var k := Found(prefix, t);
    FindInPrefix(rows, k);
  }
}
