/** Properties of every run of concurrent transactions. */
module Runs {
  import opened Wrappers
  import opened Ledger
  import opened Invariant
  import opened Interleaving

  /* ---- Advancing one transaction ---- */

  /** `b` is `a` with more locks at most, each of them granted. */
  predicate Granted(db: Db, id: nat, a: Tx, b: Tx) {
    && a.device == b.device && a.command == b.command && a.blocked == b.blocked
    && forall r | r in b.locks :: (r in a.locks && b.locks[r] == a.locks[r]) || Grantable(db, id, r, b.locks[r])
  }

  lemma RejectionIsGranted(db: Db, id: nat, a: Tx, b: Tx, f: Failure)
    requires Granted(db, id, a, b)
    ensures Granted(db, id, a, Reject(b, f))
  {
  }

  lemma PeriodIsGranted(db: Db, id: nat, tx: Tx, p: PeriodId, next: Option<PeriodId> -> Stage)
    requires HoldPeriod(db, id, tx, p, next).Some?
    ensures Granted(db, id, tx, HoldPeriod(db, id, tx, p, next).value)
  {
    var locked := LockPeriod(db, id, tx, p).value;
    match ResolvePosting(db.tables.periods, p)
    case Err(f) => RejectionIsGranted(db, id, tx, locked, f);
    case Ok(_) =>
  }

  lemma TargetIsGranted(db: Db, id: nat, tx: Tx, i: CorrectionInput)
    requires LockTarget(db, id, tx, i).Some?
    ensures Granted(db, id, tx, LockTarget(db, id, tx, i).value)
  {
    match ResolveTarget(db.tables.operations, i)
    case Err(f) =>
      RejectionIsGranted(db, id, tx, tx, f);
      if Grantable(db, id, OperationKey(i.target), Exclusive) {
        RejectionIsGranted(db, id, tx, Lock(tx, OperationKey(i.target), Exclusive), f);
      }
    case Ok(_) =>
  }

  lemma ClosingIsGranted(db: Db, id: nat, tx: Tx, i: CloseInput)
    requires LockClosing(db, id, tx, i).Some?
    ensures Granted(db, id, tx, LockClosing(db, id, tx, i).value)
  {
  }

  lemma ExpenseIsGranted(db: Db, id: nat, tx: Tx, i: PaymentInput, provision: Option<PeriodId>)
    requires LockPaidExpense(db, id, tx, i, provision).Some?
    ensures Granted(db, id, tx, LockPaidExpense(db, id, tx, i, provision).value)
  {
  }

  /** The statements that take no lock. */
  predicate TakesNoLock(stage: Stage) {
    !stage.Probed? && !stage.StoreHeld? && !stage.Claimed? && !stage.TargetLoaded? && !stage.PaymentPeriodHeld?
  }

  lemma OthersTakeNoLock(db: Db, id: nat)
    requires id in db.txs && Next(db, id).Some? && TakesNoLock(db.txs[id].stage)
    ensures Granted(db, id, db.txs[id], Next(db, id).value)
  {
  }

  lemma AdvanceTakesGrantedLocks(db: Db, id: nat)
    requires id in db.txs && Next(db, id).Some?
    ensures Granted(db, id, db.txs[id], Next(db, id).value)
  {
    var tx := db.txs[id];
    if TakesNoLock(tx.stage) {
      OthersTakeNoLock(db, id);
    } else {
      match (tx.stage, tx.command)
      case (Claimed, Correct(i)) => TargetIsGranted(db, id, tx, i);
      case (Claimed, Post(i)) => PeriodIsGranted(db, id, tx, i.period, provision => OriginalPeriodHeld(provision));
      case (Claimed, Pay(i)) => PeriodIsGranted(db, id, tx, i.period, provision => PaymentPeriodHeld(provision));
      case (Claimed, Close(i)) => ClosingIsGranted(db, id, tx, i);
      case (TargetLoaded(kind, event), Correct(i)) =>
        PeriodIsGranted(db, id, tx, i.period, provision => CorrectionPeriodHeld(kind, event, provision));
      case (PaymentPeriodHeld(provision), Pay(i)) => ExpenseIsGranted(db, id, tx, i, provision);
      case _ =>
    }
  }

  /* ---- Each statement establishes what the next stage claims to know ---- */

  lemma BeginningAdvances(db: Db, id: nat)
    requires id in db.txs && TxOk(db.tables, db.txs[id]) && Next(db, id).Some?
    requires db.txs[id].stage.Begun? || db.txs[id].stage.Probed? || db.txs[id].stage.StoreHeld?
    ensures TxOk(db.tables, Next(db, id).value)
  {
  }

  lemma RejectionIsOk(t: Tables, tx: Tx, f: Failure)
    requires tx.command.WellFormed() && HoldsClaim(t, tx)
    ensures TxOk(t, Reject(tx, f))
  {
  }

  lemma TargetAdvances(db: Db, id: nat, tx: Tx, i: CorrectionInput)
    requires tx.command == Correct(i) && tx.command.WellFormed() && HoldsClaim(db.tables, tx)
    requires LockTarget(db, id, tx, i).Some?
    ensures TxOk(db.tables, LockTarget(db, id, tx, i).value)
  {
    match ResolveTarget(db.tables.operations, i)
    case Err(f) =>
      RejectionIsOk(db.tables, tx, f);
      RejectionIsOk(db.tables, Lock(tx, OperationKey(i.target), Exclusive), f);
    case Ok(_) =>
  }

  lemma PeriodAdvances(db: Db, id: nat, tx: Tx, p: PeriodId, next: Option<PeriodId> -> Stage)
    requires tx.command.WellFormed() && HoldsClaim(db.tables, tx)
    requires HoldPeriod(db, id, tx, p, next).Some?
    ensures var held := HoldPeriod(db, id, tx, p, next).value;
            && held.command == tx.command
            && match ResolvePosting(db.tables.periods, p)
               case Err(f) => TxOk(db.tables, held)
               case Ok(provision) =>
                 && held.stage == next(provision) && HoldsClaim(db.tables, held) && KnowsPosting(db.tables, held, p, provision)
                 && (forall r | r in tx.locks && r != PeriodRow(p) :: r in held.locks && held.locks[r] == tx.locks[r])
  {
    match ResolvePosting(db.tables.periods, p)
    case Err(f) => RejectionIsOk(db.tables, LockPeriod(db, id, tx, p).value, f);
    case Ok(_) =>
  }

  lemma ClosingAdvances(db: Db, id: nat, tx: Tx, i: CloseInput)
    requires tx.command == Close(i) && HoldsClaim(db.tables, tx) && LockClosing(db, id, tx, i).Some?
    ensures TxOk(db.tables, LockClosing(db, id, tx, i).value)
  {
    if i.period !in db.tables.periods {
      RejectionIsOk(db.tables, tx, PeriodNotFound);
    } else {
      match CheckClose(db.tables.periods, i, tx.blocked)
      case Err(f) => RejectionIsOk(db.tables, tx, f);
      case Ok(_) =>
    }
  }

  lemma ClaimedAdvances(db: Db, id: nat)
    requires id in db.txs && TxOk(db.tables, db.txs[id]) && Next(db, id).Some? && db.txs[id].stage.Claimed?
    ensures TxOk(db.tables, Next(db, id).value)
  {
    var tx := db.txs[id];
    match tx.command
    case Correct(i) => TargetAdvances(db, id, tx, i);
    case Post(i) => PeriodAdvances(db, id, tx, i.period, provision => OriginalPeriodHeld(provision));
    case Pay(i) => PeriodAdvances(db, id, tx, i.period, provision => PaymentPeriodHeld(provision));
    case Close(i) => ClosingAdvances(db, id, tx, i);
  }

  lemma CorrectionAdvances(db: Db, id: nat)
    requires id in db.txs && TxOk(db.tables, db.txs[id]) && Next(db, id).Some?
    requires var s := db.txs[id].stage; s.TargetHeld? || s.TargetLoaded? || s.CorrectionPeriodHeld? || s.CorrectionChecked?
    ensures TxOk(db.tables, Next(db, id).value)
  {
    var (t, tx) := (db.tables, db.txs[id]);
    var i := tx.command.correction;
    match tx.stage {
      case TargetHeld(kind) => if LoadActive(t, i, kind).Err? { RejectionIsOk(t, tx, LoadActive(t, i, kind).error); }
      case TargetLoaded(kind, event) => PeriodAdvances(db, id, tx, i.period, provision => CorrectionPeriodHeld(kind, event, provision));
      case CorrectionPeriodHeld(_, event, _) => if CheckCorrection(t, i, event).Err? { RejectionIsOk(t, tx, CheckCorrection(t, i, event).error); }
      case CorrectionChecked(_, _, _) => CheckedCorrectionIsTheVerdict(t, tx);
    }
  }

  /** The statements of a correction, one after the other, are the correction's verdict. */
  lemma CheckedCorrectionIsTheVerdict(t: Tables, tx: Tx)
    requires tx.stage.CorrectionChecked? && Midway(t, tx)
    ensures CorrectVerdict(t, tx.device, tx.command.correction)
         == Ok(CorrectEffect(tx.device, tx.command.correction, tx.stage.event, tx.stage.provision))
  {
  }

  lemma OriginalAdvances(db: Db, id: nat)
    requires id in db.txs && TxOk(db.tables, db.txs[id]) && Next(db, id).Some?
    requires db.txs[id].stage.OriginalPeriodHeld? || db.txs[id].stage.OriginalChecked?
    ensures TxOk(db.tables, Next(db, id).value)
  {
    var (t, tx) := (db.tables, db.txs[id]);
    var checked := CheckOriginalPosting(t, tx.command.original);
    if checked.Err? { RejectionIsOk(t, tx, checked.error); }
  }

  lemma PaymentAdvances(db: Db, id: nat)
    requires id in db.txs && TxOk(db.tables, db.txs[id]) && Next(db, id).Some?
    requires var s := db.txs[id].stage; s.PaymentPeriodHeld? || s.ExpenseHeld? || s.SettlementRead?
    ensures TxOk(db.tables, Next(db, id).value)
  {
    var (t, tx) := (db.tables, db.txs[id]);
    var i := tx.command.payment;
    var failed := match tx.stage
      case PaymentPeriodHeld(_) => if LockExpense(t.expenses, i.expense).Err? then Some(LockExpense(t.expenses, i.expense).error) else None
      case ExpenseHeld(_) => if CheckBeforePayment(t, i).Err? then Some(CheckBeforePayment(t, i).error) else None
      case SettlementRead(_, before) => if CheckAfterPayment(t, i, before).Err? then Some(CheckAfterPayment(t, i, before).error) else None
      case _ => None;
    if failed.Some? { RejectionIsOk(t, tx, failed.value); }
  }

  lemma AdvanceKeepsKnowledge(db: Db, id: nat)
    requires id in db.txs && TxOk(db.tables, db.txs[id]) && Next(db, id).Some?
    ensures TxOk(db.tables, Next(db, id).value)
  {
    var s := db.txs[id].stage;
    if s.Begun? || s.Probed? || s.StoreHeld? {
      BeginningAdvances(db, id);
    } else if s.Claimed? {
      ClaimedAdvances(db, id);
    } else if s.OriginalPeriodHeld? || s.OriginalChecked? {
      OriginalAdvances(db, id);
    } else if s.PaymentPeriodHeld? || s.ExpenseHeld? || s.SettlementRead? {
      PaymentAdvances(db, id);
    } else if Done(db.txs[id]) {
      DoneWaits(db, id);
    } else {
      CorrectionAdvances(db, id);
    }
  }

  lemma DoneWaits(db: Db, id: nat)
    requires id in db.txs && Done(db.txs[id])
    ensures Next(db, id).None?
  {
  }

  /* ---- Every step keeps the invariant ---- */

  lemma GrantedIsCompatible(db: Db, id: nat, next: Tx, other: nat)
    requires id in db.txs && other in db.txs && other != id && Granted(db, id, db.txs[id], next)
    requires Compatible(db.txs[id].locks, db.txs[other].locks)
    ensures Compatible(next.locks, db.txs[other].locks) && Compatible(db.txs[other].locks, next.locks)
  {
  }

  lemma AdvanceKeeps(db: Db, id: nat)
    requires DbOk(db)
    ensures DbOk(Do(db, Advance(id)))
  {
    if id in db.txs && Next(db, id).Some? {
      AdvanceKeepsKnowledge(db, id);
      AdvanceTakesGrantedLocks(db, id);
      ReplacedTxIsOk(db, id, Next(db, id).value);
    }
  }

  lemma ReplacedTxIsOk(db: Db, id: nat, next: Tx)
    requires DbOk(db) && id in db.txs && TxOk(db.tables, next) && Granted(db, id, db.txs[id], next)
    ensures DbOk(db.(txs := db.txs[id := next]))
  {
    forall other | other in db.txs && other != id
      ensures Compatible(next.locks, db.txs[other].locks) && Compatible(db.txs[other].locks, next.locks)
    {
      GrantedIsCompatible(db, id, next, other);
    }
  }

  /** Every commit leaves the tables valid and changes nothing that another transaction relies on. */
  lemma CommitKeepsTables(t: Tables, tx: Tx)
    requires Inv(t) && TxOk(t, tx) && Done(tx)
    ensures Inv(CommitTables(t, tx)) && Footprint(t, CommitTables(t, tx), tx.locks)
  {
    if tx.stage.Ready? {
      CommitKeepsInvariant(t, tx.device, tx.command, tx.blocked, tx.stage.effect);
      CommitFootprint(t, tx);
    } else {
      ConflictKeepsTables(t, Conflict(tx.command.Operation(), IdentityOf(tx.device, tx.command)), tx.locks);
    }
  }

  lemma ConflictKeepsTables(t: Tables, conflict: Conflict, locks: Locks)
    requires Inv(t)
    ensures Inv(t) && Footprint(t, t, locks)
    ensures var u := t.(conflicts := t.conflicts + [conflict]); Inv(u) && Footprint(t, u, locks)
  {
    ConflictFootprint(t, conflict, locks);
  }

  lemma CommitKeeps(db: Db, id: nat)
    requires DbOk(db)
    ensures DbOk(Do(db, Commit(id)))
  {
    if id in db.txs && Done(db.txs[id]) {
      CommitKeepsTables(db.tables, db.txs[id]);
      var (t, u, locks) := (db.tables, CommitTables(db.tables, db.txs[id]), db.txs[id].locks);
      forall other | other in db.txs && other != id ensures TxOk(u, db.txs[other]) {
        assert Compatible(db.txs[other].locks, locks);
        KnowledgeSurvivesCommit(t, u, locks, db.txs[other]);
      }
    }
  }

  lemma BeginKeeps(db: Db, id: nat, device: DeviceId, command: Command, blocked: bool)
    requires DbOk(db)
    ensures DbOk(Do(db, Begin(id, device, command, blocked)))
  {
  }

  lemma AbortKeeps(db: Db, id: nat)
    requires DbOk(db)
    ensures DbOk(Do(db, Abort(id)))
  {
  }

  lemma StepKeeps(db: Db, step: Step)
    requires DbOk(db)
    ensures DbOk(Do(db, step))
  {
    match step
    case Begin(id, device, command, blocked) => BeginKeeps(db, id, device, command, blocked);
    case Advance(id) => AdvanceKeeps(db, id);
    case Abort(id) => AbortKeeps(db, id);
    case Commit(id) => CommitKeeps(db, id);
  }

  /** The invariant holds in every state of every interleaving. */
  lemma {:induction false} RunKeeps(db: Db, steps: seq<Step>)
    requires DbOk(db)
    ensures DbOk(Run(db, steps))
  {
    if steps != [] {
      RunKeeps(db, steps[..|steps| - 1]);
      StepKeeps(Run(db, steps[..|steps| - 1]), steps[|steps| - 1]);
    }
  }
}
