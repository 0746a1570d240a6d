/** Nothing keeps a command from its outcome but other transactions: alone, its statements run to the end
    and commit what the whole command decides. */
module Alone {
  import opened Wrappers
  import opened Ledger
  import opened Invariant
  import opened Interleaving
  import opened Runs
  import opened Guarantees

  /** No more statements than this are left. */
  function Left(stage: Stage): nat {
    match stage
    case Begun => 8
    case Probed => 7
    case StoreHeld => 6
    case Claimed => 5
    case TargetHeld(_) => 4
    case TargetLoaded(_, _) => 3
    case CorrectionPeriodHeld(_, _, _) => 2
    case CorrectionChecked(_, _, _) => 1
    case OriginalPeriodHeld(_) => 2
    case OriginalChecked(_) => 1
    case PaymentPeriodHeld(_) => 3
    case ExpenseHeld(_) => 2
    case SettlementRead(_, _) => 1
    case Ready(_) => 0
    case Answered(_) => 0
  }

  ghost predicate OnlyTx(db: Db, t: Tables, device: DeviceId, command: Command, blocked: bool) {
    && DbOk(db) && db.tables == t && db.txs.Keys == {0}
    && db.txs[0].device == device && db.txs[0].command == command && db.txs[0].blocked == blocked
    && (IsRejection(db.txs[0]) ==> Serial(t, device, command, blocked) == (Install(t, db.txs[0].stage.effect), Told(db.txs[0])))
  }

  /** The locks that a command takes when it runs to its end. */
  function Wanted(t: Tables, command: Command): Locks {
    var own: Locks := map[StoreRow := StoreMode(command), OperationKey(command.Operation()) := Exclusive];
    match command
    case Post(i) => own[PeriodRow(i.period) := PeriodMode(t, i.period)]
    case Correct(i) => own[OperationKey(i.target) := Exclusive][PeriodRow(i.period) := PeriodMode(t, i.period)]
    case Close(i) => own[PeriodRow(i.period) := Exclusive]
    case Pay(i) => own[PeriodRow(i.period) := PeriodMode(t, i.period)][ExpenseRow(i.expense) := Exclusive]
  }

  /** A month that has a row is shared by all that post to it. */
  function PeriodMode(t: Tables, p: PeriodId): LockMode { if p in t.periods then Share else Exclusive }

  /** No other transaction holds a row in conflict with what the command of this one wants. */
  ghost predicate Unhindered(db: Db, id: nat) {
    && id in db.txs
    && forall other | other in db.txs && other != id :: Compatible(Wanted(db.tables, db.txs[id].command), db.txs[other].locks)
  }

  lemma WantedIsGranted(db: Db, id: nat, r: Resource)
    requires Unhindered(db, id) && r in Wanted(db.tables, db.txs[id].command)
    ensures Grantable(db, id, r, Wanted(db.tables, db.txs[id].command)[r])
  {
  }

  /** The next statement is there, and one fewer is left. */
  predicate GoesOn(db: Db, id: nat)
    requires id in db.txs
  {
    && Next(db, id).Some?
    && var (tx, next) := (db.txs[id], Next(db, id).value);
       && Left(next.stage) < Left(tx.stage)
       && next.device == tx.device && next.command == tx.command && next.blocked == tx.blocked
  }

  lemma BeginningGoesOn(db: Db, id: nat)
    requires Unhindered(db, id) && var s := db.txs[id].stage; s.Begun? || s.Probed? || s.StoreHeld?
    ensures GoesOn(db, id)
  {
    WantedIsGranted(db, id, StoreRow);
    WantedIsGranted(db, id, OperationKey(db.txs[id].command.Operation()));
  }

  lemma PeriodGoesOn(db: Db, id: nat, tx: Tx, p: PeriodId, next: Option<PeriodId> -> Stage)
    requires Grantable(db, id, PeriodRow(p), PeriodMode(db.tables, p))
    ensures var held := HoldPeriod(db, id, tx, p, next);
            && held.Some? && held.value.device == tx.device && held.value.command == tx.command && held.value.blocked == tx.blocked
            && (held.value.stage.Ready? || exists provision :: held.value.stage == next(provision))
  {
  }

  lemma PostingGoesOn(db: Db, id: nat)
    requires Unhindered(db, id) && db.txs[id].stage.Claimed? && (db.txs[id].command.Post? || db.txs[id].command.Pay?)
    ensures GoesOn(db, id)
  {
    var tx := db.txs[id];
    match tx.command
    case Post(i) =>
      WantedIsGranted(db, id, PeriodRow(i.period));
      PeriodGoesOn(db, id, tx, i.period, provision => OriginalPeriodHeld(provision));
    case Pay(i) =>
      WantedIsGranted(db, id, PeriodRow(i.period));
      PeriodGoesOn(db, id, tx, i.period, provision => PaymentPeriodHeld(provision));
  }

  lemma ClaimedGoesOn(db: Db, id: nat)
    requires Unhindered(db, id) && db.txs[id].stage.Claimed?
    ensures GoesOn(db, id)
  {
    var tx := db.txs[id];
    match tx.command
    case Correct(i) => WantedIsGranted(db, id, OperationKey(i.target));
    case Close(i) => WantedIsGranted(db, id, PeriodRow(i.period));
    case _ => PostingGoesOn(db, id);
  }

  lemma CorrectionGoesOn(db: Db, id: nat)
    requires Unhindered(db, id) && db.txs[id].command.Correct?
    requires var s := db.txs[id].stage; s.TargetHeld? || s.TargetLoaded? || s.CorrectionPeriodHeld? || s.CorrectionChecked?
    ensures GoesOn(db, id)
  {
    var tx := db.txs[id];
    match tx.stage
    case TargetLoaded(kind, event) =>
      WantedIsGranted(db, id, PeriodRow(tx.command.correction.period));
      PeriodGoesOn(db, id, tx, tx.command.correction.period, provision => CorrectionPeriodHeld(kind, event, provision));
    case _ =>
  }

  lemma OriginalGoesOn(db: Db, id: nat)
    requires id in db.txs && db.txs[id].command.Post?
    requires db.txs[id].stage.OriginalPeriodHeld? || db.txs[id].stage.OriginalChecked?
    ensures GoesOn(db, id)
  {
  }

  lemma PaymentGoesOn(db: Db, id: nat)
    requires Unhindered(db, id) && db.txs[id].command.Pay? && db.txs[id].stage.PaymentPeriodHeld?
    ensures GoesOn(db, id)
  {
    WantedIsGranted(db, id, ExpenseRow(db.txs[id].command.payment.expense));
  }

  lemma SettlementGoesOn(db: Db, id: nat)
    requires id in db.txs && db.txs[id].command.Pay? && (db.txs[id].stage.ExpenseHeld? || db.txs[id].stage.SettlementRead?)
    ensures GoesOn(db, id)
  {
  }

  /** Each stage is one of its own command's. */
  predicate FitsStage(tx: Tx) {
    match tx.stage
    case TargetHeld(_) => tx.command.Correct?
    case TargetLoaded(_, _) => tx.command.Correct?
    case CorrectionPeriodHeld(_, _, _) => tx.command.Correct?
    case CorrectionChecked(_, _, _) => tx.command.Correct?
    case OriginalPeriodHeld(_) => tx.command.Post?
    case OriginalChecked(_) => tx.command.Post?
    case PaymentPeriodHeld(_) => tx.command.Pay?
    case ExpenseHeld(_) => tx.command.Pay?
    case SettlementRead(_, _) => tx.command.Pay?
    case _ => true
  }

  lemma StagesFit(t: Tables, tx: Tx)
    requires TxOk(t, tx)
    ensures FitsStage(tx)
  {
  }

  /** A transaction waits only for what another one holds in conflict with what its command wants; while
      there is no such thing, each statement takes it nearer to its outcome. */
  lemma WaitsOnlyForConflicts(db: Db, id: nat)
    requires Unhindered(db, id) && FitsStage(db.txs[id]) && !Done(db.txs[id])
    ensures GoesOn(db, id)
  {
    match db.txs[id].stage
    case Begun => BeginningGoesOn(db, id);
    case Probed => BeginningGoesOn(db, id);
    case StoreHeld => BeginningGoesOn(db, id);
    case Claimed => ClaimedGoesOn(db, id);
    case TargetHeld(_) => CorrectionGoesOn(db, id);
    case TargetLoaded(_, _) => CorrectionGoesOn(db, id);
    case CorrectionPeriodHeld(_, _, _) => CorrectionGoesOn(db, id);
    case CorrectionChecked(_, _, _) => CorrectionGoesOn(db, id);
    case OriginalPeriodHeld(_) => OriginalGoesOn(db, id);
    case OriginalChecked(_) => OriginalGoesOn(db, id);
    case PaymentPeriodHeld(_) => PaymentGoesOn(db, id);
    case _ => SettlementGoesOn(db, id);
  }

  /** An abandoned transaction leaves no trace: the tables and all others are as they were, and nobody waits
      for it any more. */
  lemma AbandonedLeavesNoTrace(db: Db, id: nat, other: nat)
    requires id in db.txs && other in db.txs && other != id
    ensures var after := Do(db, Abort(id));
            && after.tables == db.tables && id !in after.txs && other in after.txs && after.txs[other] == db.txs[other]
            && (forall r, mode :: (forall third | third in db.txs && third != id && third != other && r in db.txs[third].locks ::
                                     mode == Share && db.txs[third].locks[r] == Share)
                                  ==> Grantable(after, other, r, mode))
  {
  }

  /** A transaction that has just been rejected holds no row but its store and its own operation id: whoever
      waits for its target, its month or its expense goes on before it commits. */
  lemma RejectionFreesRows(db: Db, id: nat, r: Resource)
    requires id in db.txs && Next(db, id).Some? && IsRejection(Next(db, id).value)
    requires r in Next(db, id).value.locks
    ensures r == StoreRow || r == OperationKey(db.txs[id].command.Operation())
  {
  }

  lemma AdvancesAlone(db: Db, t: Tables, device: DeviceId, command: Command, blocked: bool)
    requires OnlyTx(db, t, device, command, blocked)
    ensures var after := Do(db, Advance(0));
            && OnlyTx(after, t, device, command, blocked)
            && (Done(after.txs[0]) || Left(after.txs[0].stage) < Left(db.txs[0].stage))
  {
    AdvanceKeeps(db, 0);
    if Done(db.txs[0]) {
      DoneWaits(db, 0);
    } else {
      StagesFit(db.tables, db.txs[0]);
      WaitsOnlyForConflicts(db, 0);
      if IsRejection(Next(db, 0).value) { RejectionIsSerial(db, 0); }
    }
  }

  function Repeated(step: Step, n: nat): seq<Step> { if n == 0 then [] else Repeated(step, n - 1) + [step] }

  lemma RunMore(db: Db, steps: seq<Step>, step: Step)
    ensures Run(db, steps + [step]) == Do(Run(db, steps), step)
  {
    assert (steps + [step])[..|steps|] == steps;
  }

  /** After `n` more statements the transaction is done, or so many fewer are left. */
  ghost predicate Progress(db: Db, after: Db, n: nat) {
    0 in db.txs && 0 in after.txs && (Done(after.txs[0]) || Left(after.txs[0].stage) + n <= Left(db.txs[0].stage))
  }

  lemma OneMoreStatement(db: Db, before: Db, t: Tables, device: DeviceId, command: Command, blocked: bool, step: Step, n: nat)
    requires step == Advance(0) && OnlyTx(before, t, device, command, blocked) && Progress(db, before, n)
    ensures OnlyTx(Do(before, step), t, device, command, blocked) && Progress(db, Do(before, step), n + 1)
  {
    AdvancesAlone(before, t, device, command, blocked);
    if Done(before.txs[0]) { StaysDone(before); }
  }

  predicate StepKeeps(step: Step, kept: (Db, nat) -> bool, before: Db, k: nat) {
    kept(before, k) ==> kept(Do(before, step), k + 1)
  }

  /** What a step keeps, counting the steps, holds after any number of them. */
  lemma {:induction false} KeptThroughout(db: Db, step: Step, kept: (Db, nat) -> bool, n: nat)
    requires kept(db, 0) && forall before: Db, k: nat :: StepKeeps(step, kept, before, k)
    ensures kept(Run(db, Repeated(step, n)), n)
  {
    if n > 0 {
      KeptThroughout(db, step, kept, n - 1);
      RunMore(db, Repeated(step, n - 1), step);
      assert StepKeeps(step, kept, Run(db, Repeated(step, n - 1)), n - 1);
    }
  }

  lemma AdvancesToTheEnd(db: Db, t: Tables, device: DeviceId, command: Command, blocked: bool, step: Step, n: nat)
    requires step == Advance(0) && OnlyTx(db, t, device, command, blocked)
    ensures OnlyTx(Run(db, Repeated(step, n)), t, device, command, blocked) && Progress(db, Run(db, Repeated(step, n)), n)
  {
    var kept := (after: Db, k: nat) => OnlyTx(after, t, device, command, blocked) && Progress(db, after, k);
    forall before: Db, k: nat ensures StepKeeps(step, kept, before, k) {
      if kept(before, k) { OneMoreStatement(db, before, t, device, command, blocked, step, k); }
    }
    KeptThroughout(db, step, kept, n);
  }

  lemma DoneAtTheEnd(begun: Db, after: Db, n: nat)
    requires Progress(begun, after, n) && begun.txs[0].stage == Begun && n >= 8
    ensures Done(after.txs[0])
  {
  }

  lemma StaysDone(db: Db)
    requires 0 in db.txs && Done(db.txs[0])
    ensures Do(db, Advance(0)) == db
  {
    DoneWaits(db, 0);
  }

  lemma LastCommit(db: Db)
    requires db.txs.Keys == {0} && Done(db.txs[0])
    ensures Do(db, Commit(0)) == Db(CommitTables(db.tables, db.txs[0]), map[])
  {
    assert Do(db, Commit(0)).txs == map[];
  }

  lemma CommitsAlone(db: Db, t: Tables, device: DeviceId, command: Command, blocked: bool)
    requires OnlyTx(db, t, device, command, blocked) && Done(db.txs[0])
    ensures Do(db, Commit(0)) == Db(Serial(t, device, command, blocked).0, map[])
    ensures Told(db.txs[0]) == Serial(t, device, command, blocked).1
  {
    LastCommit(db);
    if !IsRejection(db.txs[0]) { CommitIsSerial(db, 0); }
  }

  lemma BegunAlone(t: Tables, device: DeviceId, command: Command, blocked: bool)
    requires Inv(t) && command.WellFormed()
    ensures var begun := Do(Db(t, map[]), Begin(0, device, command, blocked));
            OnlyTx(begun, t, device, command, blocked) && begun.txs[0].stage == Begun
  {
    var empty := Db(t, map[]);
    assert DbOk(empty);
    BeginKeeps(empty, 0, device, command, blocked);
  }

  /** On any valid tables with no other transaction open, beginning a command, running its statements, of
      which there are at most eight, and committing leaves behind exactly what the whole command decides. */
  lemma EveryCommandRunsAlone(t: Tables, device: DeviceId, command: Command, blocked: bool, n: nat)
    requires Inv(t) && command.WellFormed() && n >= 8
    ensures var begun := Do(Db(t, map[]), Begin(0, device, command, blocked));
            var statements := Repeated(Advance(0), n);
            && Run(begun, statements + [Commit(0)]) == Db(Serial(t, device, command, blocked).0, map[])
            && 0 in Run(begun, statements).txs && Done(Run(begun, statements).txs[0])
            && Told(Run(begun, statements).txs[0]) == Serial(t, device, command, blocked).1
  {
    var begun := Do(Db(t, map[]), Begin(0, device, command, blocked));
    var statements := Repeated(Advance(0), n);
    BegunAlone(t, device, command, blocked);
    AdvancesToTheEnd(begun, t, device, command, blocked, Advance(0), n);
    DoneAtTheEnd(begun, Run(begun, statements), n);
    CommitsAlone(Run(begun, statements), t, device, command, blocked);
    RunMore(begun, statements, Commit(0));
  }
}
