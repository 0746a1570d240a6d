/** What every commit keeps: the history stays valid, the tables hold exactly the facts of the
    history, owner liability and settlements stay in range, and closed periods are frozen. */
module Invariant {
  import opened Wrappers
  import opened Ledger
  import opened History
  import opened Books

  predicate SettlementsInRange(t: Tables) {
    forall e | e in t.expenses :: 0 <= Sum(t.payments, PaidOn(e)) <= t.expenses[e].amount
  }

  predicate Inv(t: Tables) {
    && ValidHistory(t.operations)
    && FactsStored(t)
    && Sum(t.owners, Liability()) >= 0
    && SettlementsInRange(t)
  }

  /** `effect` is what `command` may leave behind when it commits on `t`: the outcome of running the
      whole command on `t`, or a stored rejection that changes nothing else. */
  predicate MayCommit(t: Tables, device: DeviceId, command: Command, blocked: bool, effect: Effect) {
    && FindOperation(t.operations, command.Operation()).None?
    && match effect.row.status
       case Rejected(f) => effect == RejectedEffect(device, command, f)
       case Applied(_) => Verdict(t, device, command, blocked) == Ok(effect)
       case Processing => false
  }

  /* ---- The new row continues the history ---- */

  lemma TargetEvent(t: Tables, input: CorrectionInput, kind: TargetKind) returns (target: OperationRow)
    requires ValidHistory(t.operations) && FactsStored(t)
    requires ResolveTarget(t.operations, input) == Ok(kind) && LoadActive(t, input, kind).Ok?
    ensures FindOperation(t.operations, input.target) == Some(target)
    ensures Correctable(target, input.domain)
    ensures EventOf(target) == Some(LoadActive(t, input, kind).value)
    ensures LegsMirrorHeader(EventOf(target).value)
    ensures EventIn(EventOf(target).value, input.domain)
  {
    target := FindOperation(t.operations, input.target).value;
    var k := Found(t.operations, input.target);
    PrefixIsValid(t.operations, k);
    LoaderAcceptsWriter(t, t.operations[..k], target, input.domain);
    EffectIsEvent(t.operations[..k], target, input.domain, 0);
  }

  /* ---- What an applied outcome is built from ---- */

  predicate CorrectApplies(t: Tables, device: DeviceId, i: CorrectionInput, effect: Effect) {
    var target := FindOperation(t.operations, i.target);
    && i.target !in Targets(t.operations)
    && target.Some? && Correctable(target.value, i.domain) && EventOf(target.value).Some?
    && var event := EventOf(target.value).value;
       && EventIn(event, i.domain)
       && (event.OwnerEvent? ==> OwnerDeltasMatch(Describe(i.domain), event.movement, event.entry))
       && CheckReplacement(i, event).Ok?
       && CheckProjectedLiability(t.owners, i, event).Ok?
       && ResolvePosting(t.periods, i.period).Ok?
       && effect == CorrectEffect(device, i, event, ResolvePosting(t.periods, i.period).value)
  }

  predicate PostApplies(t: Tables, device: DeviceId, i: OriginalInput, effect: Effect) {
    && CheckOriginal(t.owners, i).Ok?
    && ResolvePosting(t.periods, i.period).Ok?
    && effect == PostEffect(device, i, ResolvePosting(t.periods, i.period).value)
  }

  predicate CloseApplies(t: Tables, device: DeviceId, i: CloseInput, effect: Effect) {
    i.period in t.periods && effect == CloseEffect(device, i, t.periods[i.period])
  }

  predicate PayApplies(t: Tables, device: DeviceId, i: PaymentInput, effect: Effect) {
    && ResolvePosting(t.periods, i.period).Ok?
    && CheckBeforePayment(t, i).Ok?
    && effect == PayEffect(device, i, ResolvePosting(t.periods, i.period).value)
  }

  predicate Applies(t: Tables, device: DeviceId, command: Command, effect: Effect) {
    match command
    case Post(i) => PostApplies(t, device, i, effect)
    case Correct(i) => CorrectApplies(t, device, i, effect)
    case Close(i) => CloseApplies(t, device, i, effect)
    case Pay(i) => PayApplies(t, device, i, effect)
  }

  lemma OwnerEventDeltas(t: Tables, operation: OperationId, domain: Domain, kind: TargetKind)
    requires !domain.OpeningBalance? && !domain.InternalTransfer? && LoadOwner(t, operation, domain, kind).Ok?
    ensures var e := LoadOwner(t, operation, domain, kind).value;
            e.OwnerEvent? && OwnerDeltasMatch(Describe(domain), e.movement, e.entry)
  {
  }

  lemma CorrectVerdictApplies(t: Tables, device: DeviceId, i: CorrectionInput, effect: Effect)
    requires ValidHistory(t.operations) && FactsStored(t) && CorrectVerdict(t, device, i) == Ok(effect)
    ensures CorrectApplies(t, device, i, effect)
  {
    var kind := ResolveTarget(t.operations, i).value;
    var target := TargetEvent(t, i, kind);
    if !i.domain.OpeningBalance? && !i.domain.InternalTransfer? {
      OwnerEventDeltas(t, i.target, i.domain, kind);
    }
  }

  lemma CommitApplies(t: Tables, device: DeviceId, command: Command, blocked: bool, effect: Effect)
    requires Inv(t) && MayCommit(t, device, command, blocked, effect) && effect.row.status.Applied?
    ensures Applies(t, device, command, effect)
  {
    match command
    case Correct(i) => CorrectVerdictApplies(t, device, i, effect);
    case _ =>
  }

  lemma AppliedContinuesHistory(t: Tables, device: DeviceId, command: Command, effect: Effect)
    requires command.WellFormed() && FindOperation(t.operations, command.Operation()).None?
    requires Applies(t, device, command, effect)
    ensures RowOk(t.operations, effect.row)
    ensures effect.facts == RowFacts(effect.row) && effect.payments == RowPayments(effect.row)
  {
  }

  lemma CommitContinuesHistory(t: Tables, device: DeviceId, command: Command, blocked: bool, effect: Effect)
    requires Inv(t) && command.WellFormed() && MayCommit(t, device, command, blocked, effect)
    ensures RowOk(t.operations, effect.row)
    ensures effect.facts == RowFacts(effect.row) && effect.payments == RowPayments(effect.row)
  {
    if effect.row.status.Applied? {
      CommitApplies(t, device, command, blocked, effect);
      AppliedContinuesHistory(t, device, command, effect);
    }
  }

  lemma InstallContinuesHistory(t: Tables, effect: Effect)
    requires ValidHistory(t.operations) && FactsStored(t) && RowOk(t.operations, effect.row)
    requires effect.facts == RowFacts(effect.row) && effect.payments == RowPayments(effect.row)
    ensures ValidHistory(Install(t, effect).operations) && FactsStored(Install(t, effect))
  {
    var rows := Install(t, effect).operations;
    assert rows[..|rows| - 1] == t.operations;
  }

  /* ---- Owner liability ---- */

  lemma CorrectionLiability(i: CorrectionInput, e: Event)
    requires Correct(i).WellFormed() && EventIn(e, i.domain)
    requires e.OwnerEvent? ==> OwnerDeltasMatch(Describe(i.domain), e.movement, e.entry)
    ensures var repl := if i.replacement.Some? && e.OwnerEvent? then Describe(i.domain).liabilityFactor * i.replacement.value.amount else 0;
            Sum(CorrectionFacts(i, e).owners, Liability()) == (if e.OwnerEvent? then -e.entry.liabilityDelta + repl else 0)
    ensures !Correct(i).LowersLiability() ==> Sum(CorrectionFacts(i, e).owners, Liability()) == 0
  {
    SmallOwnerSums(CorrectionFacts(i, e).owners);
  }

  lemma AppliedKeepsLiability(t: Tables, device: DeviceId, command: Command, effect: Effect)
    requires Sum(t.owners, Liability()) >= 0 && command.WellFormed() && Applies(t, device, command, effect)
    ensures Sum(t.owners, Liability()) + Sum(effect.facts.owners, Liability()) >= 0
    ensures !command.LowersLiability() ==> Sum(effect.facts.owners, Liability()) >= 0
  {
    SmallOwnerSums(effect.facts.owners);
    if command.Correct? {
      var i := command.correction;
      CorrectionLiability(i, EventOf(FindOperation(t.operations, i.target).value).value);
    }
  }

  lemma CommitKeepsLiability(t: Tables, device: DeviceId, command: Command, blocked: bool, effect: Effect)
    requires Inv(t) && command.WellFormed() && MayCommit(t, device, command, blocked, effect)
    ensures Sum(t.owners + effect.facts.owners, Liability()) >= 0
  {
    SumAppend(t.owners, effect.facts.owners, Liability());
    if effect.row.status.Applied? {
      CommitApplies(t, device, command, blocked, effect);
      AppliedKeepsLiability(t, device, command, effect);
    }
  }

  /* ---- Settlements ---- */

  lemma AppliedKeepsSettlement(t: Tables, device: DeviceId, command: Command, effect: Effect, e: ExpenseId)
    requires command.WellFormed() && Applies(t, device, command, effect)
    requires e in t.expenses && 0 <= Sum(t.payments, PaidOn(e)) <= t.expenses[e].amount
    ensures 0 <= Sum(t.payments, PaidOn(e)) + Sum(effect.payments, PaidOn(e)) <= t.expenses[e].amount
  {
    if command.Pay? {
      SumOne(effect.payments[0], PaidOn(e));
    }
  }

  lemma CommitKeepsSettlements(t: Tables, device: DeviceId, command: Command, blocked: bool, effect: Effect)
    requires Inv(t) && command.WellFormed() && MayCommit(t, device, command, blocked, effect)
    ensures SettlementsInRange(Install(t, effect))
  {
    if effect.row.status.Applied? {
      CommitApplies(t, device, command, blocked, effect);
    }
    forall e | e in t.expenses ensures 0 <= Sum(t.payments + effect.payments, PaidOn(e)) <= t.expenses[e].amount {
      SumAppend(t.payments, effect.payments, PaidOn(e));
      if effect.row.status.Applied? {
        AppliedKeepsSettlement(t, device, command, effect, e);
      }
    }
  }

  lemma CommitKeepsInvariant(t: Tables, device: DeviceId, command: Command, blocked: bool, effect: Effect)
    requires Inv(t) && command.WellFormed() && MayCommit(t, device, command, blocked, effect)
    ensures Inv(Install(t, effect))
  {
    CommitContinuesHistory(t, device, command, blocked, effect);
    InstallContinuesHistory(t, effect);
    CommitKeepsLiability(t, device, command, blocked, effect);
    CommitKeepsSettlements(t, device, command, blocked, effect);
  }

  /** A command run on its own keeps the invariant, whatever it decides. */
  lemma SerialKeepsInvariant(t: Tables, device: DeviceId, command: Command, blocked: bool)
    requires command.WellFormed()
    ensures Inv(t) ==> Inv(Serial(t, device, command, blocked).0)
  {
    if Inv(t) && FindOperation(t.operations, command.Operation()).None? {
      match Verdict(t, device, command, blocked)
      case Ok(effect) =>
        VerdictIsApplied(t, device, command, blocked);
        CommitKeepsInvariant(t, device, command, blocked, effect);
      case Err(failure) => CommitKeepsInvariant(t, device, command, blocked, RejectedEffect(device, command, failure));
    }
  }

  lemma VerdictIsApplied(t: Tables, device: DeviceId, command: Command, blocked: bool)
    requires Verdict(t, device, command, blocked).Ok?
    ensures Verdict(t, device, command, blocked).value.row.status.Applied?
  {
  }

  /** Re-reading the settlement after the payment is posted shows exactly that payment, so the
      integrity rejection behind the re-read never happens. */
  lemma AfterCheckNeverFires(t: Tables, input: PaymentInput, before: Settlement)
    requires ReadSettlement(t.expenses, t.payments, input.expense) == Ok(before)
    ensures CheckAfterPayment(t, input, before).Ok?
  {
    var row := PostedPaymentRow(input);
    SumAppend(t.payments, [row], PaidOn(input.expense));
    SumOne(row, PaidOn(input.expense));
  }

  /** A settlement read of a posted, due-later expense always passes the integrity comparison. */
  lemma SettlementIsConsistent(t: Tables, expense: ExpenseId)
    requires Inv(t) && LockExpense(t.expenses, expense).Ok?
    ensures var s := ReadSettlement(t.expenses, t.payments, expense);
            && s.Ok? && s.value.settled + s.value.outstanding == s.value.recognized == t.expenses[expense].amount
            && 0 <= s.value.settled && 0 <= s.value.outstanding
    ensures forall amount {:trigger CheckSettlement(t.expenses[expense], ReadSettlement(t.expenses, t.payments, expense).value, amount)} ::
              CheckSettlement(t.expenses[expense], ReadSettlement(t.expenses, t.payments, expense).value, amount) != Err(ExpenseOutstandingIntegrityConflict)
  {
  }

  /* ---- Each posted payment has exactly one backing fact ---- */

  function MoneyOutFor(e: ExpenseId): OperationRow -> int {
    (r: OperationRow) =>
      if r.status.Applied? && r.identity.digest.Pay? && r.identity.digest.payment.expense == e
      then -Sum(RowFacts(r).movements, AnyMoney()) else 0
  }

  function LiabilityRaisedFor(e: ExpenseId): OperationRow -> int {
    (r: OperationRow) =>
      if r.status.Applied? && r.identity.digest.Pay? && r.identity.digest.payment.expense == e
      then Sum(RowFacts(r).owners, Liability()) else 0
  }

  lemma PaymentHasOneBackingFact(history: seq<OperationRow>, row: OperationRow)
    requires RowOk(history, row) && row.status.Applied? && row.identity.digest.Pay?
    ensures |RowPayments(row)| == 1 && |RowFacts(row).movements| + |RowFacts(row).owners| == 1
    ensures var (p, f) := (RowPayments(row)[0], RowFacts(row));
            if p.source.FromAccount?
            then p.moneyMovement == Some(f.movements[0].id) && p.ownerEntry.None?
                 && f.movements[0].delta == -p.amount && f.movements[0].account == p.source.account
                 && f.movements[0].reference == ToPayment(p.id)
            else p.moneyMovement.None? && p.ownerEntry == Some(f.owners[0].id)
                 && f.owners[0].liabilityDelta == p.amount && f.owners[0].equityDelta == 0
                 && f.owners[0].reference == ToPayment(p.id)
  {
  }

  lemma PaymentIsBacked(history: seq<OperationRow>, row: OperationRow, e: ExpenseId)
    requires RowOk(history, row)
    ensures Sum(RowPayments(row), PaidOn(e)) == MoneyOutFor(e)(row) + LiabilityRaisedFor(e)(row)
  {
    var (p, f) := (RowPayments(row), RowFacts(row));
    if row.status.Applied? && row.identity.digest.Pay? {
      PaymentHasOneBackingFact(history, row);
      assert p == [p[0]];
      SumOne(p[0], PaidOn(e));
      if f.movements != [] {
        assert f.movements == [f.movements[0]];
        SumOne(f.movements[0], AnyMoney());
      } else {
        assert f.owners == [f.owners[0]];
        SumOne(f.owners[0], Liability());
      }
    }
  }

  lemma {:induction false} SettledIsBacked(rows: seq<OperationRow>, e: ExpenseId)
    requires ValidHistory(rows)
    ensures Sum(AllPayments(rows), PaidOn(e)) == Sum(rows, MoneyOutFor(e)) + Sum(rows, LiabilityRaisedFor(e))
  {
    if rows != [] {
      var (prefix, last) := (rows[..|rows| - 1], rows[|rows| - 1]);
      SettledIsBacked(prefix, e);
      SumAppend(AllPayments(prefix), RowPayments(last), PaidOn(e));
      PaymentIsBacked(prefix, last, e);
    }
  }

  /* ---- Closed periods ---- */

  function Select<T>(rows: seq<T>, wanted: T -> bool): seq<T> {
    if rows == [] then []
    else Select(rows[..|rows| - 1], wanted) + (if wanted(rows[|rows| - 1]) then [rows[|rows| - 1]] else [])
  }

  function MovementsIn(p: PeriodId): Movement -> bool { (m: Movement) => m.period == p }
  function OwnersIn(p: PeriodId): OwnerEntry -> bool { (e: OwnerEntry) => e.period == p }
  function TransfersIn(p: PeriodId): Transfer -> bool { (t: Transfer) => t.period == p }
  function PaymentsIn(p: PeriodId): Payment -> bool { (x: Payment) => x.period == p }

  lemma {:induction false} SelectNothingNew<T>(x: seq<T>, y: seq<T>, wanted: T -> bool)
    requires forall e | e in y :: !wanted(e)
    ensures Select(x + y, wanted) == Select(x, wanted)
  {
    if y == [] {
      assert x + y == x;
    } else {
      SelectNothingNew(x, y[..|y| - 1], wanted);
      assert (x + y)[..|x + y| - 1] == x + y[..|y| - 1];
    }
  }

  predicate IsClosed(t: Tables, p: PeriodId) { p in t.periods && t.periods[p].status.Closed? }

  /** Period `p` and everything recorded in it are the same in both tables. */
  predicate SamePeriod(t: Tables, u: Tables, p: PeriodId) {
    && p in t.periods && p in u.periods && u.periods[p] == t.periods[p]
    && Select(u.movements, MovementsIn(p)) == Select(t.movements, MovementsIn(p))
    && Select(u.owners, OwnersIn(p)) == Select(t.owners, OwnersIn(p))
    && Select(u.transfers, TransfersIn(p)) == Select(t.transfers, TransfersIn(p))
    && Select(u.payments, PaymentsIn(p)) == Select(t.payments, PaymentsIn(p))
  }

  /** Every fact a commit adds lies in one period that is open, or that the same commit provisions open. */
  predicate PostsIntoOpenPeriod(t: Tables, effect: Effect) {
    effect.facts != NoFacts || effect.payments != [] ==>
      effect.row.status.Applied? &&
      var p := effect.row.status.response.period;
      && Stamped(effect.facts, effect.row.operation, p)
      && (forall x | x in effect.payments :: x.period == p)
      && (p in t.periods ==> t.periods[p].status.Open? && t.periods[p].canonical)
      && p in Install(t, effect).periods && Install(t, effect).periods[p].status.Open?
  }

  lemma AppliedPostsIntoOpenPeriod(t: Tables, device: DeviceId, command: Command, effect: Effect)
    requires Applies(t, device, command, effect) && RowOk(t.operations, effect.row)
    requires effect.facts == RowFacts(effect.row) && effect.payments == RowPayments(effect.row)
    ensures PostsIntoOpenPeriod(t, effect)
  {
    FactsAreStamped(t.operations, effect.row);
  }

  lemma FactsPostIntoOpenPeriods(t: Tables, device: DeviceId, command: Command, blocked: bool, effect: Effect)
    requires Inv(t) && command.WellFormed() && MayCommit(t, device, command, blocked, effect)
    ensures PostsIntoOpenPeriod(t, effect)
  {
    if effect.row.status.Applied? {
      CommitContinuesHistory(t, device, command, blocked, effect);
      CommitApplies(t, device, command, blocked, effect);
      AppliedPostsIntoOpenPeriod(t, device, command, effect);
    }
  }

  lemma ClosedRowStays(t: Tables, device: DeviceId, command: Command, blocked: bool, effect: Effect, p: PeriodId)
    requires Inv(t) && MayCommit(t, device, command, blocked, effect) && IsClosed(t, p)
    ensures p in InstallPeriods(t.periods, effect) && InstallPeriods(t.periods, effect)[p] == t.periods[p]
  {
    if effect.row.status.Applied? {
      CommitApplies(t, device, command, blocked, effect);
    }
  }

  lemma ClosedPeriodIsFrozen(t: Tables, device: DeviceId, command: Command, blocked: bool, effect: Effect, p: PeriodId)
    requires Inv(t) && command.WellFormed() && MayCommit(t, device, command, blocked, effect)
    requires IsClosed(t, p)
    ensures SamePeriod(t, Install(t, effect), p)
  {
    FactsPostIntoOpenPeriods(t, device, command, blocked, effect);
    ClosedRowStays(t, device, command, blocked, effect, p);
    NothingPostedInto(t, effect, p);
  }

  lemma NothingPostedInto(t: Tables, effect: Effect, p: PeriodId)
    requires PostsIntoOpenPeriod(t, effect) && IsClosed(t, p)
    requires p in InstallPeriods(t.periods, effect) && InstallPeriods(t.periods, effect)[p] == t.periods[p]
    ensures SamePeriod(t, Install(t, effect), p)
  {
    SelectNothingNew(t.movements, effect.facts.movements, MovementsIn(p));
    SelectNothingNew(t.owners, effect.facts.owners, OwnersIn(p));
    SelectNothingNew(t.transfers, effect.facts.transfers, TransfersIn(p));
    SelectNothingNew(t.payments, effect.payments, PaymentsIn(p));
  }
}
