/** Concurrent transactions over one store, statement by statement, under read-committed reads and
    row locks held until the transaction ends.

    A run is any sequence of steps of any transactions, with a transaction abandoned at any point.
    Every commit turns out to leave behind exactly what running the whole command at that moment,
    alone, on the committed tables would have left behind. */
module Interleaving {
  import opened Wrappers
  import opened Ledger
  import opened History
  import opened Invariant

  datatype LockMode = Share | Exclusive

  /** A row, or the unique key a pending insert occupies. */
  datatype Resource = StoreRow | OperationKey(operation: OperationId) | PeriodRow(period: PeriodId) | ExpenseRow(expense: ExpenseId)

  type Locks = map<Resource, LockMode>

  /** How far a transaction has come, with what it has read. */
  datatype Stage =
    | Begun | Probed | StoreHeld | Claimed
    | TargetHeld(kind: TargetKind)
    | TargetLoaded(kind: TargetKind, event: Event)
    | CorrectionPeriodHeld(kind: TargetKind, event: Event, provision: Option<PeriodId>)
    | CorrectionChecked(kind: TargetKind, event: Event, provision: Option<PeriodId>)
    | OriginalPeriodHeld(provision: Option<PeriodId>)
    | OriginalChecked(provision: Option<PeriodId>)
    | PaymentPeriodHeld(provision: Option<PeriodId>)
    | ExpenseHeld(provision: Option<PeriodId>)
    | SettlementRead(provision: Option<PeriodId>, before: Settlement)
    | Ready(effect: Effect)
    | Answered(row: OperationRow)

  datatype Tx = Tx(device: DeviceId, command: Command, blocked: bool, stage: Stage, locks: Locks)

  datatype Db = Db(tables: Tables, txs: map<nat, Tx>)

  datatype Step =
    | Begin(id: nat, device: DeviceId, command: Command, blocked: bool)
    | Advance(id: nat)
    | Abort(id: nat)
    | Commit(id: nat)

  /* ---- Statements ---- */

  predicate Grantable(db: Db, id: nat, r: Resource, mode: LockMode) {
    forall other | other in db.txs && other != id && r in db.txs[other].locks ::
      mode.Share? && db.txs[other].locks[r].Share?
  }

  function StoreMode(command: Command): LockMode { if command.LowersLiability() then Exclusive else Share }

  function Lock(tx: Tx, r: Resource, mode: LockMode): Tx { tx.(locks := tx.locks[r := mode]) }

  /** Rolling back to the savepoint gives up the locks taken inside it, then the claimed row is rejected. */
  function Reject(tx: Tx, failure: Failure): Tx {
    var op := tx.command.Operation();
    tx.(stage := Ready(RejectedEffect(tx.device, tx.command, failure)),
        locks := map r | r in tx.locks && (r == StoreRow || r == OperationKey(op)) :: tx.locks[r])
  }

  /** Ensures the month's row and locks it: shared when it exists, as a pending insert otherwise. */
  function LockPeriod(db: Db, id: nat, tx: Tx, p: PeriodId): Option<Tx> {
    var mode := if p in db.tables.periods then Share else Exclusive;
    if Grantable(db, id, PeriodRow(p), mode) then Some(Lock(tx, PeriodRow(p), mode)) else None
  }

  function HoldPeriod(db: Db, id: nat, tx: Tx, p: PeriodId, next: Option<PeriodId> -> Stage): Option<Tx> {
    match LockPeriod(db, id, tx, p)
    case None => None
    case Some(locked) =>
      match ResolvePosting(db.tables.periods, p)
      case Err(f) => Some(Reject(locked, f))
      case Ok(provision) => Some(locked.(stage := next(provision)))
  }

  function LockTarget(db: Db, id: nat, tx: Tx, i: CorrectionInput): Option<Tx> {
    if i.target == i.operation || FindOperation(db.tables.operations, i.target).None? then
      // the command's own row is still processing, or no committed row is visible
      match ResolveTarget(db.tables.operations, i)
      case Err(f) => Some(Reject(tx, f))
      case Ok(_) => None
    else if !Grantable(db, id, OperationKey(i.target), Exclusive) then None
    else
      match ResolveTarget(db.tables.operations, i)
      case Err(f) => Some(Reject(Lock(tx, OperationKey(i.target), Exclusive), f))
      case Ok(kind) => Some(Lock(tx, OperationKey(i.target), Exclusive).(stage := TargetHeld(kind)))
  }

  function LockClosing(db: Db, id: nat, tx: Tx, i: CloseInput): Option<Tx> {
    if i.period !in db.tables.periods then Some(Reject(tx, PeriodNotFound))
    else if !Grantable(db, id, PeriodRow(i.period), Exclusive) then None
    else
      match CheckClose(db.tables.periods, i, tx.blocked)
      case Err(f) => Some(Reject(tx, f))
      case Ok(period) => Some(Lock(tx, PeriodRow(i.period), Exclusive).(stage := Ready(CloseEffect(tx.device, i, period))))
  }

  function LockPaidExpense(db: Db, id: nat, tx: Tx, i: PaymentInput, provision: Option<PeriodId>): Option<Tx> {
    if !Grantable(db, id, ExpenseRow(i.expense), Exclusive) then None
    else
      match LockExpense(db.tables.expenses, i.expense)
      case Err(f) => Some(Reject(tx, f))
      case Ok(_) => Some(Lock(tx, ExpenseRow(i.expense), Exclusive).(stage := ExpenseHeld(provision)))
  }

  function CheckCorrection(t: Tables, i: CorrectionInput, event: Event): Result<(), Failure> {
    var _ :- CheckAccounts(t.accounts, AffectedAccounts(i, event));
    CheckProjectedLiability(t.owners, i, event)
  }

  function CheckOriginalPosting(t: Tables, i: OriginalInput): Result<(), Failure> {
    var _ :- CheckAccounts(t.accounts, OriginalAccounts(i));
    CheckOriginal(t.owners, i)
  }

  /** The next statement of one transaction; None while it waits for a lock or has only to commit. */
  function Next(db: Db, id: nat): Option<Tx>
    requires id in db.txs
  {
    var (t, tx) := (db.tables, db.txs[id]);
    var op := tx.command.Operation();
    match (tx.stage, tx.command)
    case (Begun, _) =>
      Some(tx.(stage := if FindOperation(t.operations, op).Some? then Answered(FindOperation(t.operations, op).value) else Probed))
    case (Probed, _) =>
      if Grantable(db, id, StoreRow, StoreMode(tx.command))
      then Some(Lock(tx, StoreRow, StoreMode(tx.command)).(stage := StoreHeld)) else None
    case (StoreHeld, _) =>
      if FindOperation(t.operations, op).Some? then Some(tx.(stage := Answered(FindOperation(t.operations, op).value)))
      else if Grantable(db, id, OperationKey(op), Exclusive)
      then Some(Lock(tx, OperationKey(op), Exclusive).(stage := Claimed)) else None
    case (Claimed, Correct(i)) => LockTarget(db, id, tx, i)
    case (Claimed, Post(i)) => HoldPeriod(db, id, tx, i.period, provision => OriginalPeriodHeld(provision))
    case (Claimed, Pay(i)) => HoldPeriod(db, id, tx, i.period, provision => PaymentPeriodHeld(provision))
    case (Claimed, Close(i)) => LockClosing(db, id, tx, i)
    case (TargetHeld(kind), Correct(i)) =>
      (match LoadActive(t, i, kind)
       case Err(f) => Some(Reject(tx, f))
       case Ok(event) => Some(tx.(stage := TargetLoaded(kind, event))))
    case (TargetLoaded(kind, event), Correct(i)) =>
      HoldPeriod(db, id, tx, i.period, provision => CorrectionPeriodHeld(kind, event, provision))
    case (CorrectionPeriodHeld(kind, event, provision), Correct(i)) =>
      (match CheckCorrection(t, i, event)
       case Err(f) => Some(Reject(tx, f))
       case Ok(_) => Some(tx.(stage := CorrectionChecked(kind, event, provision))))
    case (CorrectionChecked(kind, event, provision), Correct(i)) =>
      Some(tx.(stage := Ready(CorrectEffect(tx.device, i, event, provision))))
    case (OriginalPeriodHeld(provision), Post(i)) =>
      (match CheckOriginalPosting(t, i)
       case Err(f) => Some(Reject(tx, f))
       case Ok(_) => Some(tx.(stage := OriginalChecked(provision))))
    case (OriginalChecked(provision), Post(i)) => Some(tx.(stage := Ready(PostEffect(tx.device, i, provision))))
    case (PaymentPeriodHeld(provision), Pay(i)) => LockPaidExpense(db, id, tx, i, provision)
    case (ExpenseHeld(provision), Pay(i)) =>
      (match CheckBeforePayment(t, i)
       case Err(f) => Some(Reject(tx, f))
       case Ok(before) => Some(tx.(stage := SettlementRead(provision, before))))
    case (SettlementRead(provision, before), Pay(i)) =>
      (match CheckAfterPayment(t, i, before)
       case Err(f) => Some(Reject(tx, f))
       case Ok(_) => Some(tx.(stage := Ready(PayEffect(tx.device, i, provision)))))
    case _ => None
  }

  function CommitTables(t: Tables, tx: Tx): Tables {
    match tx.stage
    case Ready(effect) => Install(t, effect)
    case Answered(row) =>
      if Resolve(row, tx.device, tx.command) == Refused(OperationIdConflict)
      then t.(conflicts := t.conflicts + [Conflict(tx.command.Operation(), IdentityOf(tx.device, tx.command))]) else t
    case _ => t
  }

  predicate Done(tx: Tx) { tx.stage.Ready? || tx.stage.Answered? }

  /** One step of a run. A step that is not possible leaves the database as it is. */
  function Do(db: Db, step: Step): Db {
    match step
    case Begin(id, device, command, blocked) =>
      if id !in db.txs && command.WellFormed()
      then db.(txs := db.txs[id := Tx(device, command, blocked, Begun, map[])]) else db
    case Advance(id) =>
      if id in db.txs && Next(db, id).Some? then db.(txs := db.txs[id := Next(db, id).value]) else db
    case Abort(id) => db.(txs := db.txs - {id})
    case Commit(id) =>
      if id in db.txs && Done(db.txs[id]) then Db(CommitTables(db.tables, db.txs[id]), db.txs - {id}) else db
  }

  function Run(db: Db, steps: seq<Step>): Db {
    if steps == [] then db else Do(Run(db, steps[..|steps| - 1]), steps[|steps| - 1])
  }

  /* ---- What a transaction knows stays true while it holds its locks ---- */

  predicate Holds(tx: Tx, r: Resource, mode: LockMode) {
    r in tx.locks && (tx.locks[r] == mode || tx.locks[r].Exclusive?)
  }

  predicate HoldsClaim(t: Tables, tx: Tx) {
    && Holds(tx, StoreRow, StoreMode(tx.command))
    && Holds(tx, OperationKey(tx.command.Operation()), Exclusive)
    && FindOperation(t.operations, tx.command.Operation()).None?
  }

  predicate KnowsTarget(t: Tables, tx: Tx, kind: TargetKind) {
    && tx.command.Correct?
    && Holds(tx, OperationKey(tx.command.correction.target), Exclusive)
    && ResolveTarget(t.operations, tx.command.correction) == Ok(kind)
  }

  predicate KnowsEvent(t: Tables, tx: Tx, kind: TargetKind, event: Event) {
    KnowsTarget(t, tx, kind) && LoadActive(t, tx.command.correction, kind) == Ok(event)
  }

  predicate KnowsPosting(t: Tables, tx: Tx, p: PeriodId, provision: Option<PeriodId>) {
    && Holds(tx, PeriodRow(p), if p in t.periods then Share else Exclusive)
    && ResolvePosting(t.periods, p) == Ok(provision)
  }

  predicate KnowsExpense(t: Tables, tx: Tx) {
    tx.command.Pay? && Holds(tx, ExpenseRow(tx.command.payment.expense), Exclusive)
  }

  /** The locks under which the outcome of a finished command was reached. */
  predicate HoldsOutcome(t: Tables, tx: Tx) {
    match tx.command
    case Correct(i) =>
      && Holds(tx, OperationKey(i.target), Exclusive)
      && Holds(tx, PeriodRow(i.period), if i.period in t.periods then Share else Exclusive)
    case Post(i) => Holds(tx, PeriodRow(i.period), if i.period in t.periods then Share else Exclusive)
    case Pay(i) =>
      && Holds(tx, PeriodRow(i.period), if i.period in t.periods then Share else Exclusive)
      && Holds(tx, ExpenseRow(i.expense), Exclusive)
    case Close(i) => Holds(tx, PeriodRow(i.period), Exclusive)
  }

  predicate TxOk(t: Tables, tx: Tx) {
    && tx.command.WellFormed()
    && match tx.stage
       case Begun => true
       case Probed => true
       case StoreHeld => Holds(tx, StoreRow, StoreMode(tx.command))
       case Answered(row) => FindOperation(t.operations, tx.command.Operation()) == Some(row)
       case Ready(effect) =>
         && HoldsClaim(t, tx)
         && MayCommit(t, tx.device, tx.command, tx.blocked, effect)
         && (effect.row.status.Applied? ==> HoldsOutcome(t, tx))
       case _ => HoldsClaim(t, tx) && Midway(t, tx)
  }

  predicate Midway(t: Tables, tx: Tx) {
    match tx.stage
    case TargetHeld(kind) => KnowsTarget(t, tx, kind)
    case TargetLoaded(kind, event) => KnowsEvent(t, tx, kind, event)
    case CorrectionPeriodHeld(kind, event, provision) =>
      KnowsEvent(t, tx, kind, event) && KnowsPosting(t, tx, tx.command.correction.period, provision)
    case CorrectionChecked(kind, event, provision) =>
      && KnowsEvent(t, tx, kind, event) && KnowsPosting(t, tx, tx.command.correction.period, provision)
      && CheckCorrection(t, tx.command.correction, event).Ok?
    case OriginalPeriodHeld(provision) => tx.command.Post? && KnowsPosting(t, tx, tx.command.original.period, provision)
    case OriginalChecked(provision) =>
      && tx.command.Post? && KnowsPosting(t, tx, tx.command.original.period, provision)
      && CheckOriginalPosting(t, tx.command.original).Ok?
    case PaymentPeriodHeld(provision) => tx.command.Pay? && KnowsPosting(t, tx, tx.command.payment.period, provision)
    case ExpenseHeld(provision) =>
      tx.command.Pay? && KnowsPosting(t, tx, tx.command.payment.period, provision) && KnowsExpense(t, tx)
    case SettlementRead(provision, before) =>
      && tx.command.Pay? && KnowsPosting(t, tx, tx.command.payment.period, provision) && KnowsExpense(t, tx)
      && CheckBeforePayment(t, tx.command.payment) == Ok(before)
    case _ => true
  }

  predicate Compatible(a: Locks, b: Locks) {
    forall r | r in a && r in b :: a[r].Share? && b[r].Share?
  }

  ghost predicate DbOk(db: Db) {
    && Inv(db.tables)
    && (forall id | id in db.txs :: TxOk(db.tables, db.txs[id]))
    && (forall a, b | a in db.txs && b in db.txs && a != b :: Compatible(db.txs[a].locks, db.txs[b].locks))
  }

  /* ---- A commit changes only what its transaction has locked ---- */

  /** What a commit under `locks` may change, seen by a transaction that holds none of them. */
  ghost predicate Footprint(t: Tables, u: Tables, locks: Locks) {
    && u.expenses == t.expenses && u.accounts == t.accounts
    && (u.owners == t.owners || StoreRow in locks)
    && t.operations <= u.operations && |u.operations| <= |t.operations| + 1
    && (forall op | OperationKey(op) !in locks ::
          && (|u.operations| > |t.operations| ==> op != u.operations[|t.operations|].operation)
          && (op in Targets(u.operations) <==> op in Targets(t.operations)))
    && t.movements <= u.movements && t.owners <= u.owners && t.transfers <= u.transfers
    && (forall p | PeriodRow(p) !in locks || locks[PeriodRow(p)].Share? ::
          && (p in u.periods <==> p in t.periods)
          && (p in t.periods ==> u.periods[p] == t.periods[p]))
    && (forall e | ExpenseRow(e) !in locks :: Sum(u.payments, PaidOn(e)) == Sum(t.payments, PaidOn(e)))
  }

  lemma CommitFootprint(t: Tables, tx: Tx)
    requires Inv(t) && tx.stage.Ready? && TxOk(t, tx)
    ensures Footprint(t, Install(t, tx.stage.effect), tx.locks)
  {
    var effect := tx.stage.effect;
    if effect.row.status.Applied? {
      CommitApplies(t, tx.device, tx.command, tx.blocked, effect);
    }
    FootprintOperations(t, tx);
    FootprintPeriods(t, tx);
    forall e | ExpenseRow(e) !in tx.locks ensures Sum(effect.payments, PaidOn(e)) == 0 {
      FootprintPayments(t, tx, e);
    }
    FootprintOf(t, effect, tx.locks);
  }

  ghost predicate OperationsUnder(t: Tables, row: OperationRow, locks: Locks) {
    forall op | OperationKey(op) !in locks ::
      op != row.operation && (op in Targets(t.operations + [row]) <==> op in Targets(t.operations))
  }

  ghost predicate PeriodsUnder(before: map<PeriodId, Period>, after: map<PeriodId, Period>, locks: Locks) {
    forall p | PeriodRow(p) !in locks || locks[PeriodRow(p)].Share? ::
      && (p in after <==> p in before)
      && (p in before ==> after[p] == before[p])
  }

  lemma FootprintOf(t: Tables, effect: Effect, locks: Locks)
    requires StoreRow in locks && OperationsUnder(t, effect.row, locks)
    requires PeriodsUnder(t.periods, InstallPeriods(t.periods, effect), locks)
    requires forall e | ExpenseRow(e) !in locks :: Sum(effect.payments, PaidOn(e)) == 0
    ensures Footprint(t, Install(t, effect), locks)
  {
    forall e | ExpenseRow(e) !in locks
      ensures Sum(t.payments + effect.payments, PaidOn(e)) == Sum(t.payments, PaidOn(e))
    {
      SumAppend(t.payments, effect.payments, PaidOn(e));
    }
  }

  lemma ConflictFootprint(t: Tables, conflict: Conflict, locks: Locks)
    ensures Footprint(t, t.(conflicts := t.conflicts + [conflict]), locks)
  {
  }

  lemma FootprintOperations(t: Tables, tx: Tx)
    requires tx.stage.Ready? && TxOk(t, tx)
    requires tx.stage.effect.row.status.Applied? ==> Applies(t, tx.device, tx.command, tx.stage.effect)
    ensures OperationsUnder(t, tx.stage.effect.row, tx.locks)
  {
    var rows := t.operations + [tx.stage.effect.row];
    assert rows[..|rows| - 1] == t.operations;
  }

  /** A period that a commit changes is locked exclusively. */
  lemma ChangedPeriodsAreHeld(t: Tables, tx: Tx)
    requires tx.stage.Ready? && TxOk(t, tx)
    requires tx.stage.effect.row.status.Applied? ==> Applies(t, tx.device, tx.command, tx.stage.effect)
    ensures var e := tx.stage.effect;
            && (e.provision.Some? ==> Holds(tx, PeriodRow(e.provision.value), Exclusive))
            && (e.close.Some? ==> Holds(tx, PeriodRow(e.close.value), Exclusive))
  {
  }

  lemma FootprintPeriods(t: Tables, tx: Tx)
    requires tx.stage.Ready? && TxOk(t, tx)
    requires tx.stage.effect.row.status.Applied? ==> Applies(t, tx.device, tx.command, tx.stage.effect)
    ensures PeriodsUnder(t.periods, InstallPeriods(t.periods, tx.stage.effect), tx.locks)
  {
    ChangedPeriodsAreHeld(t, tx);
  }

  lemma FootprintPayments(t: Tables, tx: Tx, e: ExpenseId)
    requires tx.stage.Ready? && TxOk(t, tx) && ExpenseRow(e) !in tx.locks
    requires tx.stage.effect.row.status.Applied? ==> Applies(t, tx.device, tx.command, tx.stage.effect)
    ensures Sum(tx.stage.effect.payments, PaidOn(e)) == 0
  {
    if tx.stage.effect.payments != [] {
      SumOne(tx.stage.effect.payments[0], PaidOn(e));
    }
  }

  /* ---- So what another transaction knows survives the commit ---- */

  lemma OperationStays(t: Tables, u: Tables, locks: Locks, op: OperationId)
    requires Footprint(t, u, locks) && OperationKey(op) !in locks
    ensures FindOperation(u.operations, op) == FindOperation(t.operations, op)
  {
    if |u.operations| > |t.operations| {
      assert u.operations[..|t.operations|] == t.operations;
    } else {
      assert u.operations == t.operations;
    }
  }

  lemma RowStays(t: Tables, u: Tables, locks: Locks, op: OperationId)
    requires Footprint(t, u, locks) && FindOperation(t.operations, op).Some? && ValidHistory(u.operations)
    ensures FindOperation(u.operations, op) == FindOperation(t.operations, op)
  {
    var k := Found(t.operations, op);
    assert u.operations[k] == t.operations[k];
    FindInPrefix(u.operations, k);
  }

  lemma ReadsStay(t: Tables, u: Tables, id: FactId)
    requires t.movements <= u.movements && t.owners <= u.owners && t.transfers <= u.transfers
    ensures ReadMovement(t.movements, id).Some? ==> ReadMovement(u.movements, id) == ReadMovement(t.movements, id)
    ensures ReadOwnerEntry(t.owners, id).Some? ==> ReadOwnerEntry(u.owners, id) == ReadOwnerEntry(t.owners, id)
    ensures ReadTransfer(t.transfers, id).Some? ==> ReadTransfer(u.transfers, id) == ReadTransfer(t.transfers, id)
  {
    ReadMovementAppend(t.movements, u.movements[|t.movements|..], id);
    assert u.movements == t.movements + u.movements[|t.movements|..];
    ReadOwnerAppend(t.owners, u.owners[|t.owners|..], id);
    assert u.owners == t.owners + u.owners[|t.owners|..];
    ReadTransferAppend(t.transfers, u.transfers[|t.transfers|..], id);
    assert u.transfers == t.transfers + u.transfers[|t.transfers|..];
  }

  lemma LoadedEventStays(t: Tables, u: Tables, op: OperationId, domain: Domain, kind: TargetKind)
    requires t.movements <= u.movements && t.owners <= u.owners && t.transfers <= u.transfers
    requires LoadEvent(t, op, domain, kind).Ok?
    ensures LoadEvent(u, op, domain, kind) == LoadEvent(t, op, domain, kind)
  {
    match domain
    case OpeningBalance => ReadsStay(t, u, FactId(op, RoleFor(kind, Opening)));
    case InternalTransfer =>
      ReadsStay(t, u, FactId(op, RoleFor(kind, TransferHeader)));
      ReadsStay(t, u, FactId(op, RoleFor(kind, TransferSource)));
      ReadsStay(t, u, FactId(op, RoleFor(kind, TransferDestination)));
    case _ =>
      ReadsStay(t, u, FactId(op, RoleFor(kind, OwnerMoney)));
      ReadsStay(t, u, FactId(op, RoleFor(kind, OwnerEntryFact)));
  }

  lemma ActiveEventStays(t: Tables, u: Tables, locks: Locks, i: CorrectionInput, kind: TargetKind)
    requires Footprint(t, u, locks) && OperationKey(i.target) !in locks
    requires ResolveTarget(t.operations, i) == Ok(kind) && LoadActive(t, i, kind).Ok?
    ensures ResolveTarget(u.operations, i) == Ok(kind) && LoadActive(u, i, kind) == LoadActive(t, i, kind)
  {
    OperationStays(t, u, locks, i.target);
    LoadedEventStays(t, u, i.target, i.domain, kind);
  }

  /** Whoever needs the owner liability holds the store row exclusively, so nobody else commits. */
  lemma LiabilityChecksStay(t: Tables, u: Tables, locks: Locks, tx: Tx, event: Event)
    requires Footprint(t, u, locks) && Compatible(tx.locks, locks)
    requires tx.command.Correct? && Holds(tx, StoreRow, StoreMode(tx.command)) && EventIn(event, tx.command.correction.domain)
    ensures CheckCorrection(u, tx.command.correction, event) == CheckCorrection(t, tx.command.correction, event)
  {
  }

  lemma PaidStays(a: seq<Payment>, b: seq<Payment>, row: Payment, e: ExpenseId)
    requires Sum(a, PaidOn(e)) == Sum(b, PaidOn(e))
    ensures Sum(a + [row], PaidOn(e)) == Sum(b + [row], PaidOn(e))
  {
    SumAppend(a, [row], PaidOn(e));
    SumAppend(b, [row], PaidOn(e));
  }

  lemma SettlementStays(t: Tables, u: Tables, locks: Locks, i: PaymentInput, before: Settlement)
    requires Footprint(t, u, locks) && ExpenseRow(i.expense) !in locks
    ensures CheckBeforePayment(u, i) == CheckBeforePayment(t, i)
    ensures CheckAfterPayment(u, i, before) == CheckAfterPayment(t, i, before)
  {
    PaidStays(t.payments, u.payments, PostedPaymentRow(i), i.expense);
  }

  lemma PostingStays(t: Tables, u: Tables, locks: Locks, tx: Tx, p: PeriodId)
    requires Footprint(t, u, locks) && Compatible(tx.locks, locks)
    requires Holds(tx, PeriodRow(p), if p in t.periods then Share else Exclusive)
    ensures p in u.periods <==> p in t.periods
    ensures ResolvePosting(u.periods, p) == ResolvePosting(t.periods, p)
  {
  }

  lemma ClaimStays(t: Tables, u: Tables, locks: Locks, tx: Tx)
    requires Footprint(t, u, locks) && Compatible(tx.locks, locks) && HoldsClaim(t, tx)
    ensures HoldsClaim(u, tx)
  {
    OperationStays(t, u, locks, tx.command.Operation());
  }

  lemma LoadedEventIsInDomain(t: Tables, i: CorrectionInput, kind: TargetKind, event: Event)
    requires LoadActive(t, i, kind) == Ok(event)
    ensures EventIn(event, i.domain)
  {
  }

  lemma KnownEventStays(t: Tables, u: Tables, locks: Locks, tx: Tx, kind: TargetKind, event: Event)
    requires Footprint(t, u, locks) && Compatible(tx.locks, locks) && HoldsClaim(t, tx) && KnowsEvent(t, tx, kind, event)
    ensures KnowsEvent(u, tx, kind, event)
    ensures CheckCorrection(u, tx.command.correction, event) == CheckCorrection(t, tx.command.correction, event)
  {
    LoadedEventIsInDomain(t, tx.command.correction, kind, event);
    ActiveEventStays(t, u, locks, tx.command.correction, kind);
    LiabilityChecksStay(t, u, locks, tx, event);
  }

  lemma OriginalChecksStay(t: Tables, u: Tables, locks: Locks, tx: Tx)
    requires Footprint(t, u, locks) && Compatible(tx.locks, locks) && HoldsClaim(t, tx) && tx.command.Post?
    ensures CheckOriginalPosting(u, tx.command.original) == CheckOriginalPosting(t, tx.command.original)
  {
  }

  lemma MidwayStays(t: Tables, u: Tables, locks: Locks, tx: Tx)
    requires Footprint(t, u, locks) && Compatible(tx.locks, locks) && HoldsClaim(t, tx) && Midway(t, tx)
    ensures Midway(u, tx)
  {
    match tx.stage
    case TargetHeld(kind) => OperationStays(t, u, locks, tx.command.correction.target);
    case TargetLoaded(kind, event) => KnownEventStays(t, u, locks, tx, kind, event);
    case CorrectionPeriodHeld(kind, event, _) =>
      KnownEventStays(t, u, locks, tx, kind, event);
      PostingStays(t, u, locks, tx, tx.command.correction.period);
    case CorrectionChecked(kind, event, _) =>
      KnownEventStays(t, u, locks, tx, kind, event);
      PostingStays(t, u, locks, tx, tx.command.correction.period);
    case OriginalPeriodHeld(_) => PostingStays(t, u, locks, tx, tx.command.original.period);
    case OriginalChecked(_) =>
      PostingStays(t, u, locks, tx, tx.command.original.period);
      OriginalChecksStay(t, u, locks, tx);
    case PaymentPeriodHeld(_) => PostingStays(t, u, locks, tx, tx.command.payment.period);
    case ExpenseHeld(_) => PostingStays(t, u, locks, tx, tx.command.payment.period);
    case SettlementRead(_, before) =>
      PostingStays(t, u, locks, tx, tx.command.payment.period);
      SettlementStays(t, u, locks, tx.command.payment, before);
    case _ =>
  }

  lemma CorrectOutcomeStays(t: Tables, u: Tables, locks: Locks, tx: Tx, effect: Effect)
    requires Footprint(t, u, locks) && Compatible(tx.locks, locks) && HoldsClaim(t, tx) && HoldsOutcome(t, tx)
    requires tx.command.Correct? && CorrectVerdict(t, tx.device, tx.command.correction) == Ok(effect)
    ensures HoldsOutcome(u, tx) && CorrectVerdict(u, tx.device, tx.command.correction) == Ok(effect)
  {
    var i := tx.command.correction;
    var kind := ResolveTarget(t.operations, i).value;
    var event := LoadActive(t, i, kind).value;
    KnownEventStays(t, u, locks, tx, kind, event);
    PostingStays(t, u, locks, tx, i.period);
    assert CheckCorrection(t, i, event).Ok?;
  }

  lemma OtherOutcomeStays(t: Tables, u: Tables, locks: Locks, tx: Tx, effect: Effect)
    requires Footprint(t, u, locks) && Compatible(tx.locks, locks) && HoldsClaim(t, tx) && HoldsOutcome(t, tx)
    requires !tx.command.Correct? && Verdict(t, tx.device, tx.command, tx.blocked) == Ok(effect)
    ensures HoldsOutcome(u, tx) && Verdict(u, tx.device, tx.command, tx.blocked) == Ok(effect)
  {
    match tx.command
    case Post(i) =>
      PostingStays(t, u, locks, tx, i.period);
      OriginalChecksStay(t, u, locks, tx);
      assert CheckOriginalPosting(t, i).Ok?;
    case Pay(i) =>
      PostingStays(t, u, locks, tx, i.period);
      SettlementStays(t, u, locks, i, CheckBeforePayment(t, i).value);
    case Close(i) =>
  }

  lemma OutcomeStays(t: Tables, u: Tables, locks: Locks, tx: Tx, effect: Effect)
    requires Footprint(t, u, locks) && Compatible(tx.locks, locks) && HoldsClaim(t, tx)
    requires MayCommit(t, tx.device, tx.command, tx.blocked, effect)
    requires effect.row.status.Applied? ==> HoldsOutcome(t, tx)
    ensures MayCommit(u, tx.device, tx.command, tx.blocked, effect)
    ensures effect.row.status.Applied? ==> HoldsOutcome(u, tx)
  {
    ClaimStays(t, u, locks, tx);
    if effect.row.status.Applied? {
      if tx.command.Correct? {
        CorrectOutcomeStays(t, u, locks, tx, effect);
      } else {
        OtherOutcomeStays(t, u, locks, tx, effect);
      }
    }
  }

  /** Whatever an open transaction has established stays true when another one commits. */
  lemma KnowledgeSurvivesCommit(t: Tables, u: Tables, locks: Locks, tx: Tx)
    requires TxOk(t, tx) && Footprint(t, u, locks) && Compatible(tx.locks, locks) && ValidHistory(u.operations)
    ensures TxOk(u, tx)
  {
    match tx.stage
    case Answered(_) => RowStays(t, u, locks, tx.command.Operation());
    case Ready(effect) =>
      ClaimStays(t, u, locks, tx);
      OutcomeStays(t, u, locks, tx, effect);
    case Begun =>
    case Probed =>
    case StoreHeld =>
    case _ =>
      ClaimStays(t, u, locks, tx);
      MidwayStays(t, u, locks, tx);
  }
}
