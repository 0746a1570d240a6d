/** Cancelling a posted expense payment: the one writer beside corrections that appends reversals. It
    checks no liability, so it decides by itself whether the owner liability stays non-negative. */
module PaymentCancellation {
  import opened Wrappers
  import opened Ledger
  import opened History
  import opened Invariant

  datatype CancelInput = CancelInput(operation: OperationId, target: OperationId, period: PeriodId, occurredAt: Instant)

  /* ---- What a cancellation reads ---- */

  function ReadPayment(rows: seq<Payment>, id: FactId): Option<Payment> {
    if rows == [] then None
    else if rows[|rows| - 1].id == id then Some(rows[|rows| - 1]) else ReadPayment(rows[..|rows| - 1], id)
  }

  function ResolvePaymentTarget(rows: seq<OperationRow>, input: CancelInput): Result<FactId, Failure> {
    if input.target == input.operation then Err(TargetNotActive)  // the command's own row is still processing
    else
      match FindOperation(rows, input.target)
      case None => Err(TargetNotFound)
      case Some(row) =>
        if !row.status.Applied? then Err(TargetNotActive)
        else if row.identity.action != PayAction || row.identity.aggregate != ExpensePayments then Err(TargetNotFound)
        else
          var expected := FactId(input.target, PaymentHeader);
          if row.identity.aggregateId == FactAggregate(expected) then Ok(expected) else Err(TargetIntegrityConflict)
  }

  function LockSettlementExpense(expenses: map<ExpenseId, Expense>, expense: ExpenseId): Result<(), Failure> {
    match LockExpense(expenses, expense)
    case Ok(_) => Ok(())
    case Err(ExpenseNotFound) => Err(TargetNotFound)
    case Err(_) => Err(TargetNotActive)
  }

  predicate MoneyReversed(rows: seq<Movement>, id: FactId) { exists m | m in rows :: m.reversalOf == Some(id) }
  predicate OwnerReversed(rows: seq<OwnerEntry>, id: FactId) { exists e | e in rows :: e.reversalOf == Some(id) }

  /** The one fact that paid: a movement out of an account, or a liability to the owner. */
  datatype Funding = ByMoney(movement: Movement) | ByOwner(entry: OwnerEntry)

  predicate MovementFunds(m: Movement, p: Payment, operation: OperationId) {
    && p.source.FromAccount? && m.account == p.source.account && m.period == p.period
    && m.movementType == ExpensePaymentMovement && m.delta == -p.amount && m.reference == ToPayment(p.id)
    && m.group == operation && m.reversalOf.None? && m.factOperation == FactOperationId(operation, PaymentMoney)
  }

  predicate EntryFunds(e: OwnerEntry, p: Payment, operation: OperationId) {
    && e.period == p.period && e.entryType == OwnerPaidExpense && e.liabilityDelta == p.amount && e.equityDelta == 0
    && e.account.None? && e.reference == ToPayment(p.id)
    && e.group == operation && e.reversalOf.None? && e.factOperation == FactOperationId(operation, PaymentOwner)
  }

  function LoadFunding(t: Tables, p: Payment, operation: OperationId): Result<Funding, Failure> {
    if p.source.FromAccount? then
      if p.moneyMovement.None? || p.ownerEntry.Some? then Err(TargetIntegrityConflict)
      else
        match ReadMovement(t.movements, p.moneyMovement.value)
        case None => Err(TargetIntegrityConflict)
        case Some(m) =>
          if MovementFunds(m, p, operation) && !MoneyReversed(t.movements, m.id) then Ok(ByMoney(m)) else Err(TargetIntegrityConflict)
    else if p.moneyMovement.Some? || p.ownerEntry.None? then Err(TargetIntegrityConflict)
    else
      match ReadOwnerEntry(t.owners, p.ownerEntry.value)
      case None => Err(TargetIntegrityConflict)
      case Some(e) =>
        if EntryFunds(e, p, operation) && !OwnerReversed(t.owners, e.id) then Ok(ByOwner(e)) else Err(TargetIntegrityConflict)
  }

  /* ---- What it writes ---- */

  function FundingReversal(input: CancelInput, p: Payment, funding: Funding): Facts {
    match funding
    case ByMoney(m) =>
      Facts([Movement(FactId(input.operation, Reversal(PaymentMoney)), FactOperationId(input.operation, Reversal(PaymentMoney)),
                      m.account, input.period, CorrectionMovementType, -m.delta, ToPayment(p.id), input.operation, None, None,
                      input.occurredAt, Some(m.id))], [], [])
    case ByOwner(e) =>
      Facts([], [OwnerEntry(FactId(input.operation, Reversal(PaymentOwner)), FactOperationId(input.operation, Reversal(PaymentOwner)),
                            CorrectionEntryType, -e.liabilityDelta, -e.equityDelta, e.account, input.period, ToPayment(p.id),
                            input.operation, input.occurredAt, Some(e.id))], [])
  }

  /** The update of one payment from posted to cancelled. */
  function MarkCancelled(rows: seq<Payment>, id: FactId): (marked: seq<Payment>)
    ensures |marked| == |rows|
  {
    if rows == [] then []
    else
      var last := rows[|rows| - 1];
      MarkCancelled(rows[..|rows| - 1], id)
      + [if last.id == id && last.status.PostedPayment? then last.(status := CancelledPayment) else last]
  }

  /** The business rows a cancellation leaves behind; its claimed operation row is recorded as for the
      other commands. */
  function CancelPayment(t: Tables, input: CancelInput): Result<Tables, Failure> {
    var id :- ResolvePaymentTarget(t.operations, input);
    var found := ReadPayment(t.payments, id);
    if found.None? then Err(TargetNotFound)
    else
      var p := found.value;
      var _ :- LockSettlementExpense(t.expenses, p.expense);
      var _ :- Need(p.status.PostedPayment? && p.amount > 0, TargetNotActive);
      var provision :- ResolvePosting(t.periods, input.period);
      var funding :- LoadFunding(t, p, input.target);
      var reversal := FundingReversal(input, p, funding);
      Ok(t.(movements := t.movements + reversal.movements,
            owners := t.owners + reversal.owners,
            payments := MarkCancelled(t.payments, id),
            periods := if provision.Some? then t.periods[provision.value := Period(Open, 1, true)] else t.periods))
  }

  /* ---- Payments are read back from their rows ---- */

  function PaymentsOfOperation(rows: seq<OperationRow>, operation: OperationId): seq<Payment> {
    match FindOperation(rows, operation)
    case None => []
    case Some(row) => RowPayments(row)
  }

  lemma {:induction false} ReadPaymentAppend(x: seq<Payment>, y: seq<Payment>, id: FactId)
    ensures ReadPayment(x + y, id) == if ReadPayment(y, id).Some? then ReadPayment(y, id) else ReadPayment(x, id)
  {
    if y == [] {
      assert x + y == x;
    } else {
      ReadPaymentAppend(x, y[..|y| - 1], id);
      assert (x + y)[..|x + y| - 1] == x + y[..|y| - 1];
    }
  }

  lemma {:induction false} MarkAppend(x: seq<Payment>, y: seq<Payment>, id: FactId)
    ensures MarkCancelled(x + y, id) == MarkCancelled(x, id) + MarkCancelled(y, id)
  {
    if y == [] {
      assert x + y == x;
    } else {
      MarkAppend(x, y[..|y| - 1], id);
      assert (x + y)[..|x + y| - 1] == x + y[..|y| - 1];
    }
  }

  lemma RowPaymentIsOwn(history: seq<OperationRow>, row: OperationRow, op: OperationId)
    requires RowOk(history, row)
    ensures var (mine, id) := (RowPayments(row), FactId(op, PaymentHeader));
            if row.operation == op && mine != []
            then mine == [mine[0]] && mine[0].id == id && ReadPayment(mine, id) == Some(mine[0])
                 && MarkCancelled(mine, id) == [mine[0].(status := CancelledPayment)]
            else ReadPayment(mine, id).None? && MarkCancelled(mine, id) == mine
  {
    var (mine, id) := (RowPayments(row), FactId(op, PaymentHeader));
    if mine != [] {
      assert mine == [mine[0]] && mine[..0] == [];
      assert ReadPayment(mine[..0], id) == None && MarkCancelled(mine[..0], id) == [];
    }
  }

  /** A payment's header is read from the one row that posted it. */
  lemma {:induction false} PaymentComesFromTheRow(rows: seq<OperationRow>, op: OperationId)
    requires ValidHistory(rows)
    ensures ReadPayment(AllPayments(rows), FactId(op, PaymentHeader)) == ReadPayment(PaymentsOfOperation(rows, op), FactId(op, PaymentHeader))
  {
    if rows != [] {
      var (prefix, last) := (rows[..|rows| - 1], rows[|rows| - 1]);
      PaymentComesFromTheRow(prefix, op);
      RowPaymentIsOwn(prefix, last, op);
      ReadPaymentAppend(AllPayments(prefix), RowPayments(last), FactId(op, PaymentHeader));
    }
  }

  lemma RowIsUnpaid(history: seq<OperationRow>, row: OperationRow, op: OperationId, e: ExpenseId)
    requires RowOk(history, row)
    ensures Sum(MarkCancelled(RowPayments(row), FactId(op, PaymentHeader)), PaidOn(e))
         == if row.operation == op then 0 else Sum(RowPayments(row), PaidOn(e))
  {
    RowPaymentIsOwn(history, row, op);
    if row.operation == op && RowPayments(row) != [] {
      SumOne(RowPayments(row)[0].(status := CancelledPayment), PaidOn(e));
    }
  }

  /** Marking a payment takes exactly its amount out of what its expense is settled by. */
  lemma {:induction false} MarkingUnpays(rows: seq<OperationRow>, op: OperationId, e: ExpenseId)
    requires ValidHistory(rows)
    ensures Sum(MarkCancelled(AllPayments(rows), FactId(op, PaymentHeader)), PaidOn(e))
         == Sum(AllPayments(rows), PaidOn(e)) - Sum(PaymentsOfOperation(rows, op), PaidOn(e))
  {
    if rows != [] {
      var (prefix, last, id) := (rows[..|rows| - 1], rows[|rows| - 1], FactId(op, PaymentHeader));
      MarkingUnpays(prefix, op, e);
      RowIsUnpaid(prefix, last, op, e);
      MarkAppend(AllPayments(prefix), RowPayments(last), id);
      SumAppend(AllPayments(prefix), RowPayments(last), PaidOn(e));
      SumAppend(MarkCancelled(AllPayments(prefix), id), MarkCancelled(RowPayments(last), id), PaidOn(e));
      assert PaymentsOfOperation(rows, op) == if last.operation == op then RowPayments(last) else PaymentsOfOperation(prefix, op);
    }
  }

  /* ---- No correction reverses what paid ---- */

  predicate IsPaymentFact(id: FactId) { id.role.PaymentMoney? || id.role.PaymentOwner? }

  predicate SparesPayments(f: Facts) {
    && (forall m | m in f.movements :: m.reversalOf.Some? ==> !IsPaymentFact(m.reversalOf.value))
    && (forall e | e in f.owners :: e.reversalOf.Some? ==> !IsPaymentFact(e.reversalOf.value))
  }

  /** The facts of an event are none of a payment's. */
  predicate EventSparesPayments(e: Event) {
    match e
    case OpeningEvent(_, m) => !IsPaymentFact(m.id)
    case OwnerEvent(_, _, m, entry) => !IsPaymentFact(m.id) && !IsPaymentFact(entry.id)
    case TransferEvent(_, _, s, d) => !IsPaymentFact(s.id) && !IsPaymentFact(d.id)
  }

  lemma CorrectionSparesPayments(i: CorrectionInput, e: Event)
    requires EventSparesPayments(e)
    ensures SparesPayments(CorrectionFacts(i, e))
  {
  }

  lemma OwnerEventSparesPayments(history: seq<OperationRow>, row: OperationRow, domain: Domain)
    requires !domain.OpeningBalance? && !domain.InternalTransfer?
    requires RowOk(history, row) && Correctable(row, domain) && EventOf(row).Some?
    ensures EventSparesPayments(EventOf(row).value)
  {
    OwnerRowShape(history, row, domain);
    EventLiesInDomain(row, domain);
  }

  lemma EventsSparePayments(history: seq<OperationRow>, row: OperationRow, domain: Domain)
    requires RowOk(history, row) && Correctable(row, domain) && EventOf(row).Some?
    ensures EventSparesPayments(EventOf(row).value)
  {
    match domain
    case OpeningBalance => OpeningRowShape(history, row);
    case InternalTransfer => TransferRowShape(history, row);
    case _ => OwnerEventSparesPayments(history, row, domain);
  }

  lemma RowSparesPayments(history: seq<OperationRow>, row: OperationRow)
    requires ValidHistory(history) && RowOk(history, row)
    ensures SparesPayments(RowFacts(row))
  {
    if IsAppliedCorrection(row) {
      var i := row.identity.digest.correction;
      var k := Found(history, i.target);
      PrefixIsValid(history, k);
      EventsSparePayments(history[..k], history[k], i.domain);
      CorrectionSparesPayments(i, EventOf(history[k]).value);
    }
  }

  lemma {:induction false} NothingReversesAPayment(rows: seq<OperationRow>, id: FactId)
    requires ValidHistory(rows) && IsPaymentFact(id)
    ensures !MoneyReversed(AllMovements(rows), id) && !OwnerReversed(AllOwners(rows), id)
  {
    if rows != [] {
      NothingReversesAPayment(rows[..|rows| - 1], id);
      RowSparesPayments(rows[..|rows| - 1], rows[|rows| - 1]);
    }
  }

  /* ---- The funding fact always loads ---- */

  /** The payment of an applied payment command, and the fact that backs it. */
  predicate IsPosted(t: Tables, target: OperationId) {
    var row := FindOperation(t.operations, target);
    row.Some? && row.value.status.Applied? && row.value.identity.digest.Pay?
  }

  function PaymentOf(t: Tables, target: OperationId): PaymentInput
    requires IsPosted(t, target)
  {
    FindOperation(t.operations, target).value.identity.digest.payment
  }

  function FundingOf(i: PaymentInput): Funding {
    if i.source.FromAccount? then ByMoney(PaymentFacts(i).movements[0]) else ByOwner(PaymentFacts(i).owners[0])
  }

  lemma PostedPaymentIsRead(t: Tables, target: OperationId)
    requires Inv(t) && IsPosted(t, target)
    ensures ReadPayment(t.payments, FactId(target, PaymentHeader)) == Some(PostedPaymentRow(PaymentOf(t, target)))
    ensures PaymentOf(t, target).operation == target && PaymentOf(t, target).amount > 0
    ensures FactsOfOperation(t.operations, target) == PaymentFacts(PaymentOf(t, target))
  {
    var k := Found(t.operations, target);
    PrefixIsValid(t.operations, k);
    PaymentComesFromTheRow(t.operations, target);
    RowPaymentIsOwn(t.operations[..k], t.operations[k], target);
  }

  lemma MoneyFunds(t: Tables, p: Payment, operation: OperationId, m: Movement)
    requires p.source.FromAccount? && p.moneyMovement == Some(m.id) && p.ownerEntry.None?
    requires ReadMovement(t.movements, m.id) == Some(m) && MovementFunds(m, p, operation) && !MoneyReversed(t.movements, m.id)
    ensures LoadFunding(t, p, operation) == Ok(ByMoney(m))
  {
  }

  lemma OwnerFunds(t: Tables, p: Payment, operation: OperationId, e: OwnerEntry)
    requires p.source.OwnerPocket? && p.ownerEntry == Some(e.id) && p.moneyMovement.None?
    requires ReadOwnerEntry(t.owners, e.id) == Some(e) && EntryFunds(e, p, operation) && !OwnerReversed(t.owners, e.id)
    ensures LoadFunding(t, p, operation) == Ok(ByOwner(e))
  {
  }

  lemma FundingLoads(t: Tables, target: OperationId)
    requires Inv(t) && IsPosted(t, target)
    ensures LoadFunding(t, PostedPaymentRow(PaymentOf(t, target)), target) == Ok(FundingOf(PaymentOf(t, target)))
  {
    PostedPaymentIsRead(t, target);
    var i := PaymentOf(t, target);
    var (p, f) := (PostedPaymentRow(i), PaymentFacts(i));
    if i.source.FromAccount? {
      ReadsComeFromTheRow(t.operations, f.movements[0].id);
      NothingReversesAPayment(t.operations, f.movements[0].id);
      MoneyFunds(t, p, target, f.movements[0]);
    } else {
      ReadsComeFromTheRow(t.operations, f.owners[0].id);
      NothingReversesAPayment(t.operations, f.owners[0].id);
      OwnerFunds(t, p, target, f.owners[0]);
    }
  }

  lemma TargetIsPosted(t: Tables, input: CancelInput)
    requires Inv(t)
    ensures ResolvePaymentTarget(t.operations, input).Ok? <==> input.target != input.operation && IsPosted(t, input.target)
    ensures ResolvePaymentTarget(t.operations, input).Ok? ==>
              ResolvePaymentTarget(t.operations, input).value == FactId(input.target, PaymentHeader)
    ensures ResolvePaymentTarget(t.operations, input) != Err(TargetIntegrityConflict)
  {
    if FindOperation(t.operations, input.target).Some? {
      var k := Found(t.operations, input.target);
      PrefixIsValid(t.operations, k);
    }
  }

  /** A cancellation goes through exactly when it names an applied payment of an expense still open to
      settlement and its month takes postings: what paid is always found intact. */
  lemma CancelsExactly(t: Tables, input: CancelInput)
    requires Inv(t)
    ensures CancelPayment(t, input).Ok? <==>
              && input.target != input.operation && IsPosted(t, input.target)
              && (input.period in t.periods ==> t.periods[input.period].canonical && t.periods[input.period].status == Open)
              && var e := PaymentOf(t, input.target).expense;
                 e in t.expenses && t.expenses[e].status == PostedExpense && t.expenses[e].dueLater
    ensures CancelPayment(t, input) != Err(TargetIntegrityConflict)
  {
    TargetIsPosted(t, input);
    if IsPosted(t, input.target) {
      PostedPaymentIsRead(t, input.target);
      FundingLoads(t, input.target);
    }
  }

  /* ---- What a cancellation does to the books ---- */

  lemma CancelledTables(t: Tables, input: CancelInput)
    requires Inv(t) && CancelPayment(t, input).Ok?
    ensures IsPosted(t, input.target)
    ensures var (u, i) := (CancelPayment(t, input).value, PaymentOf(t, input.target));
            var reversal := FundingReversal(input, PostedPaymentRow(i), FundingOf(i));
            && u.movements == t.movements + reversal.movements && u.owners == t.owners + reversal.owners
            && u.payments == MarkCancelled(t.payments, FactId(input.target, PaymentHeader))
            && u.operations == t.operations && u.transfers == t.transfers && u.expenses == t.expenses
  {
    CancelsExactly(t, input);
    TargetIsPosted(t, input);
    PostedPaymentIsRead(t, input.target);
    FundingLoads(t, input.target);
  }

  /** A cancellation gives back exactly what the payment took: the money to its account or the liability
      to the owner, and the settled amount to what is outstanding, on that expense and no other. */
  lemma CancelGivesBack(t: Tables, input: CancelInput, a: AccountId, e: ExpenseId)
    requires Inv(t) && CancelPayment(t, input).Ok? && IsPosted(t, input.target)
    ensures var (u, i) := (CancelPayment(t, input).value, PaymentOf(t, input.target));
            && Sum(u.movements, MoneyOn(a)) == Sum(t.movements, MoneyOn(a)) + (if i.source == FromAccount(a) then i.amount else 0)
            && Sum(u.owners, Liability()) == Sum(t.owners, Liability()) - (if i.source.OwnerPocket? then i.amount else 0)
            && Sum(u.owners, Equity()) == Sum(t.owners, Equity())
            && Sum(u.payments, PaidOn(e)) == Sum(t.payments, PaidOn(e)) - (if i.expense == e then i.amount else 0)
  {
    CancelledTables(t, input);
    PostedPaymentIsRead(t, input.target);
    var i := PaymentOf(t, input.target);
    var reversal := FundingReversal(input, PostedPaymentRow(i), FundingOf(i));
    SumAppend(t.movements, reversal.movements, MoneyOn(a));
    SumAppend(t.owners, reversal.owners, Liability());
    SumAppend(t.owners, reversal.owners, Equity());
    if i.source.FromAccount? {
      SumOne(reversal.movements[0], MoneyOn(a));
    } else {
      SumOne(reversal.owners[0], Liability());
      SumOne(reversal.owners[0], Equity());
    }
    MarkingUnpays(t.operations, input.target, e);
    SumOne(PostedPaymentRow(i), PaidOn(e));
  }

  lemma SettlementStaysInRange(t: Tables, input: CancelInput, e: ExpenseId)
    requires Inv(t) && CancelPayment(t, input).Ok? && e in t.expenses
    ensures 0 <= Sum(CancelPayment(t, input).value.payments, PaidOn(e)) <= t.expenses[e].amount
  {
    CancelledTables(t, input);
    CancelGivesBack(t, input, 0, e);
    PostedPaymentIsRead(t, input.target);
    MarkedIsNotNegative(t.operations, input.target, e);
    assert Sum(t.payments, PaidOn(e)) <= t.expenses[e].amount;
  }

  /** Settlements stay in range: what was settled by other payments stays settled, and no more. */
  lemma CancelKeepsSettlements(t: Tables, input: CancelInput)
    requires Inv(t) && CancelPayment(t, input).Ok?
    ensures SettlementsInRange(CancelPayment(t, input).value)
  {
    var u := CancelPayment(t, input).value;
    assert u.expenses == t.expenses by { CancelledTables(t, input); }
    forall e | e in u.expenses ensures 0 <= Sum(u.payments, PaidOn(e)) <= u.expenses[e].amount {
      SettlementStaysInRange(t, input, e);
    }
  }

  lemma RowIsNotNegative(history: seq<OperationRow>, row: OperationRow, e: ExpenseId)
    requires RowOk(history, row)
    ensures Sum(RowPayments(row), PaidOn(e)) >= 0
  {
    if RowPayments(row) != [] { SumOne(RowPayments(row)[0], PaidOn(e)); }
  }

  lemma {:induction false} MarkedIsNotNegative(rows: seq<OperationRow>, op: OperationId, e: ExpenseId)
    requires ValidHistory(rows)
    ensures Sum(MarkCancelled(AllPayments(rows), FactId(op, PaymentHeader)), PaidOn(e)) >= 0
  {
    if rows != [] {
      var (prefix, last, id) := (rows[..|rows| - 1], rows[|rows| - 1], FactId(op, PaymentHeader));
      MarkedIsNotNegative(prefix, op, e);
      RowIsUnpaid(prefix, last, op, e);
      RowIsNotNegative(prefix, last, e);
      MarkAppend(AllPayments(prefix), RowPayments(last), id);
      SumAppend(MarkCancelled(AllPayments(prefix), id), MarkCancelled(RowPayments(last), id), PaidOn(e));
    }
  }

  /** No liability is checked, so it stays non-negative exactly when it covers what the owner had paid. */
  lemma LiabilityStaysExactly(t: Tables, input: CancelInput)
    requires Inv(t) && CancelPayment(t, input).Ok? && IsPosted(t, input.target)
    ensures var i := PaymentOf(t, input.target);
            Sum(CancelPayment(t, input).value.owners, Liability()) >= 0
            <==> i.source.FromAccount? || i.amount <= Sum(t.owners, Liability())
  {
    CancelGivesBack(t, input, 0, 0);
  }

  /** With nothing owed to the owner, cancelling what the owner paid leaves the owner owing all of it. */
  lemma CancelAgainstNothing(t: Tables, input: CancelInput)
    requires Inv(t) && input.target != input.operation && IsPosted(t, input.target)
    requires PaymentOf(t, input.target).source.OwnerPocket? && Sum(t.owners, Liability()) == 0
    requires LockExpense(t.expenses, PaymentOf(t, input.target).expense).Ok? && ResolvePosting(t.periods, input.period).Ok?
    ensures CancelPayment(t, input).Ok?
    ensures Sum(CancelPayment(t, input).value.owners, Liability()) == -PaymentOf(t, input.target).amount
  {
    CancelsExactly(t, input);
    CancelGivesBack(t, input, 0, 0);
  }

  /** What is cancelled once cannot be cancelled again. */
  lemma CancelledOnce(t: Tables, input: CancelInput, again: CancelInput)
    requires Inv(t) && CancelPayment(t, input).Ok? && again.target == input.target
    ensures CancelPayment(CancelPayment(t, input).value, again).Err?
  {
    CancelledTables(t, input);
    PostedPaymentIsRead(t, input.target);
    MarkedIsRead(t.payments, FactId(input.target, PaymentHeader));
  }

  lemma {:induction false} MarkedIsRead(rows: seq<Payment>, id: FactId)
    ensures ReadPayment(MarkCancelled(rows, id), id).Some? ==> !ReadPayment(MarkCancelled(rows, id), id).value.status.PostedPayment?
  {
    if rows != [] {
      MarkedIsRead(rows[..|rows| - 1], id);
      assert MarkCancelled(rows, id)[..|rows| - 1] == MarkCancelled(rows[..|rows| - 1], id);
    }
  }
}

/** When a cancellation is applied, when it is refused and as what, and the rows it leaves. */
module CancelDecisions {
  import opened Wrappers
  import opened Ledger
  import opened History
  import opened Invariant
  import opened Decisions
  import opened PaymentCancellation

  lemma CancelWithoutTarget(t: Tables, i: CancelInput)
    requires forall row | row in t.operations :: row.operation != i.target
    ensures CancelPayment(t, i) == Err(if i.target == i.operation then TargetNotActive else TargetNotFound)
  {
    NotRecorded(t.operations, i.target);
  }

  /** A cancellation is applied exactly when its target is an applied payment, that payment's expense is
      posted and due later, and its month takes postings; the first that fails gives the reason. */
  lemma CancelDecides(t: Tables, i: CancelInput, row: OperationRow)
    requires Inv(t) && IsRowOf(t, i.target, row)
    ensures var v := CancelPayment(t, i);
            if i.target == i.operation || !row.status.Applied? then v == Err(TargetNotActive)
            else if !row.identity.digest.Pay? then v == Err(TargetNotFound)
            else
              var e := row.identity.digest.payment.expense;
              if e !in t.expenses then v == Err(TargetNotFound)
              else if t.expenses[e].status != PostedExpense || !t.expenses[e].dueLater then v == Err(TargetNotActive)
              else if i.period in t.periods && !t.periods[i.period].canonical then v == Err(PeriodIntegrityConflict)
              else if i.period in t.periods && t.periods[i.period].status != Open then v == Err(PeriodNotPostingEligible)
              else v.Ok?
  {
    RowIsFound(t, row);
    if i.target != i.operation && row.status.Applied? {
      if !row.identity.digest.Pay? {
        NotAPayment(t, i, row);
      } else {
        TargetIsPosted(t, i);
        PostedPaymentIsRead(t, i.target);
        FundingLoads(t, i.target);
        PaidExpense(t, i, PaymentOf(t, i.target));
      }
    }
  }

  lemma NotAPayment(t: Tables, i: CancelInput, row: OperationRow)
    requires Inv(t) && IsRowOf(t, i.target, row) && i.target != i.operation && row.status.Applied? && !row.identity.digest.Pay?
    ensures CancelPayment(t, i) == Err(TargetNotFound)
  {
    RowIsFound(t, row);
    var k :| 0 <= k < |t.operations| && t.operations[k] == row && RowOk(t.operations[..k], row);
  }

  lemma PaidExpense(t: Tables, i: CancelInput, p: PaymentInput)
    requires ResolvePaymentTarget(t.operations, i) == Ok(FactId(i.target, PaymentHeader))
    requires ReadPayment(t.payments, FactId(i.target, PaymentHeader)) == Some(PostedPaymentRow(p)) && p.amount > 0
    requires LoadFunding(t, PostedPaymentRow(p), i.target).Ok?
    ensures var v := CancelPayment(t, i);
            if p.expense !in t.expenses then v == Err(TargetNotFound)
            else if t.expenses[p.expense].status != PostedExpense || !t.expenses[p.expense].dueLater then v == Err(TargetNotActive)
            else if i.period in t.periods && !t.periods[i.period].canonical then v == Err(PeriodIntegrityConflict)
            else if i.period in t.periods && t.periods[i.period].status != Open then v == Err(PeriodNotPostingEligible)
            else v.Ok?
  {
  }

  /** A cancellation writes one reversal of the payment's one fact, marks that payment and no other, and
      leaves the rest as it was. */
  lemma CancelRows(t: Tables, i: CancelInput)
    requires Inv(t) && CancelPayment(t, i).Ok? && IsPosted(t, i.target)
    ensures var (u, p) := (CancelPayment(t, i).value, PaymentOf(t, i.target));
            && t.movements <= u.movements && t.owners <= u.owners && u.transfers == t.transfers && u.operations == t.operations
            && |u.payments| == |t.payments|
            && (if p.source.FromAccount?
                then u.owners == t.owners && |u.movements| == |t.movements| + 1
                     && IsMoneyReversal(u.movements[|t.movements|], i, p)
                else u.movements == t.movements && |u.owners| == |t.owners| + 1
                     && IsOwnerReversal(u.owners[|t.owners|], i, p))
            && u.periods == (if i.period in t.periods then t.periods else t.periods[i.period := Period(Open, 1, true)])
  {
    CancelledTables(t, i);
    PostedPaymentIsRead(t, i.target);
    CancelledPeriods(t, i);
  }

  predicate IsMoneyReversal(n: Movement, i: CancelInput, p: PaymentInput) {
    && p.source == FromAccount(n.account) && n.delta == p.amount && n.reversalOf == Some(FactId(i.target, PaymentMoney))
    && n.period == i.period && n.occurredAt == i.occurredAt && n.movementType == CorrectionMovementType
    && n.reference == ToPayment(FactId(i.target, PaymentHeader)) && n.group == i.operation && n.id.operation == i.operation
  }

  predicate IsOwnerReversal(n: OwnerEntry, i: CancelInput, p: PaymentInput) {
    && p.source == OwnerPocket && n.liabilityDelta == -p.amount && n.equityDelta == 0 && n.account.None?
    && n.reversalOf == Some(FactId(i.target, PaymentOwner))
    && n.period == i.period && n.occurredAt == i.occurredAt && n.entryType == CorrectionEntryType
    && n.reference == ToPayment(FactId(i.target, PaymentHeader)) && n.group == i.operation && n.id.operation == i.operation
  }

  lemma CancelledPeriods(t: Tables, i: CancelInput)
    requires CancelPayment(t, i).Ok?
    ensures CancelPayment(t, i).value.periods == (if i.period in t.periods then t.periods else t.periods[i.period := Period(Open, 1, true)])
  {
  }

  /** Marking changes the status of the payment with the id, if it is posted, and nothing else. */
  lemma {:induction false} MarkedAt(rows: seq<Payment>, id: FactId, k: nat)
    requires k < |rows|
    ensures MarkCancelled(rows, id)[k]
         == if rows[k].id == id && rows[k].status == PostedPayment then rows[k].(status := CancelledPayment) else rows[k]
  {
    if k < |rows| - 1 { MarkedAt(rows[..|rows| - 1], id, k); }
  }
}

/** A run that ends with the owner owing the store. */
module OverdrawnOwner {
  import opened Wrappers
  import opened Ledger
  import opened History
  import opened Invariant
  import opened Interleaving
  import opened Guarantees
  import opened PaymentCancellation

  const MONTH := PeriodId(2024, 1)
  const BILL := PaymentInput(1, 7, OwnerPocket, 100, MONTH, 0)
  const REPAY := OriginalInput(2, OwnerReimbursement, MONTH, 0, 100, 3, 3)

  /** An open store with one bill of 100 and one account. */
  function OneBill(): Tables {
    Start(map[MONTH := Period(Open, 1, true)], map[7 := Expense(100, true, PostedExpense)], map[3 := true]).tables
  }

  /** The store in which the bill is posted and the month open. */
  predicate HasBill(t: Tables) {
    && ResolvePosting(t.periods, MONTH) == Ok(None) && CheckAccounts(t.accounts, [3]).Ok?
    && 7 in t.expenses && t.expenses[7] == Expense(100, true, PostedExpense)
  }

  /** Nothing is posted yet. */
  predicate NothingPosted(t: Tables) {
    t.operations == [] && Sum(t.payments, PaidOn(7)) == 0 && Sum(t.owners, Liability()) == 0
  }

  lemma OneBillIsOpen()
    ensures Inv(OneBill()) && HasBill(OneBill()) && NothingPosted(OneBill())
  {
    StartIsOk(OneBill().periods, OneBill().expenses, OneBill().accounts);
  }

  lemma PaymentApplies(t: Tables, i: PaymentInput)
    requires i.source.OwnerPocket? && FindOperation(t.operations, i.operation).None?
    requires ResolvePosting(t.periods, i.period) == Ok(None) && CheckBeforePayment(t, i).Ok?
    ensures var u := Serial(t, 0, Pay(i), false).0;
            && u.operations == t.operations + [PayEffect(0, i, None).row]
            && Sum(u.owners, Liability()) == Sum(t.owners, Liability()) + i.amount
            && u.periods == t.periods && u.expenses == t.expenses && u.accounts == t.accounts
  {
    var facts := PaymentFacts(i);
    AfterCheckNeverFires(t, i, CheckBeforePayment(t, i).value);
    SumAppend(t.owners, facts.owners, Liability());
    SumOne(facts.owners[0], Liability());
  }

  lemma ReimbursementApplies(t: Tables, i: OriginalInput)
    requires i.domain.OwnerReimbursement? && FindOperation(t.operations, i.operation).None?
    requires ResolvePosting(t.periods, i.period) == Ok(None) && CheckOriginalPosting(t, i).Ok?
    ensures var u := Serial(t, 0, Post(i), false).0;
            && u.operations == t.operations + [PostEffect(0, i, None).row]
            && Sum(u.owners, Liability()) == Sum(t.owners, Liability()) - i.amount
            && u.periods == t.periods && u.expenses == t.expenses && u.accounts == t.accounts
  {
    var facts := OriginalFacts(i);
    SumAppend(t.owners, facts.owners, Liability());
    SumOne(facts.owners[0], Liability());
  }

  lemma BillIsDue(t: Tables, i: PaymentInput)
    requires i == BILL && HasBill(t) && NothingPosted(t)
    ensures CheckBeforePayment(t, i) == Ok(Settlement(100, 0, 100))
  {
  }

  /** The owner pays the bill out of pocket. */
  lemma OwnerPays(t: Tables, i: PaymentInput) returns (u: Tables)
    requires i == BILL && Inv(t) && HasBill(t) && NothingPosted(t)
    ensures u == Serial(t, 0, Pay(i), false).0 && Inv(u) && HasBill(u)
    ensures u.operations == [PayEffect(0, i, None).row] && Sum(u.owners, Liability()) == 100
  {
    u := Serial(t, 0, Pay(i), false).0;
    BillIsDue(t, i);
    PaymentApplies(t, i);
    SerialKeepsInvariant(t, 0, Pay(i), false);
  }

  /** The store pays the owner back. */
  lemma OwnerIsReimbursed(t: Tables, first: OperationRow, i: OriginalInput) returns (u: Tables)
    requires i == REPAY && Inv(t) && HasBill(t) && t.operations == [first] && first.operation == 1
    requires Sum(t.owners, Liability()) == 100
    ensures u == Serial(t, 0, Post(i), false).0 && Inv(u) && HasBill(u)
    ensures u.operations == [first, PostEffect(0, i, None).row] && Sum(u.owners, Liability()) == 0
  {
    u := Serial(t, 0, Post(i), false).0;
    ReimbursementApplies(t, i);
    SerialKeepsInvariant(t, 0, Post(i), false);
  }

  lemma FirstOfTwo(first: OperationRow, second: OperationRow)
    requires first.operation != second.operation
    ensures FindOperation([first, second], first.operation) == Some(first)
  {
    assert [first, second][..1] == [first];
  }

  lemma BillIsCancelled(t: Tables, cancel: CancelInput, first: OperationRow, second: OperationRow)
    requires cancel.target == 1 && cancel.operation > 2 && cancel.period == MONTH
    requires Inv(t) && HasBill(t) && Sum(t.owners, Liability()) == 0
    requires t.operations == [first, second] && first.operation == 1 && second.operation == 2
    requires first.status.Applied? && first.identity.digest == Pay(BILL)
    ensures CancelPayment(t, cancel).Ok? && Sum(CancelPayment(t, cancel).value.owners, Liability()) == -100
  {
    FirstOfTwo(first, second);
    assert IsPosted(t, 1) && PaymentOf(t, 1) == BILL;
    CancelAgainstNothing(t, cancel);
  }

  /** The owner pays 100, is reimbursed 100, and the payment is cancelled: the liability is -100. */
  lemma CancellingMayOverdraw(start: Tables, bill: PaymentInput, repay: OriginalInput, cancel: CancelInput)
    requires Inv(start) && HasBill(start) && NothingPosted(start) && bill == BILL && repay == REPAY
    requires cancel.target == 1 && cancel.operation > 2 && cancel.period == MONTH
    ensures var t := Serial(Serial(start, 0, Pay(bill), false).0, 0, Post(repay), false).0;
            && Inv(t) && CancelPayment(t, cancel).Ok?
            && Sum(CancelPayment(t, cancel).value.owners, Liability()) == -100
  {
    var paid := OwnerPays(start, bill);
    var t := OwnerIsReimbursed(paid, PayEffect(0, bill, None).row, repay);
    BillIsCancelled(t, cancel, PayEffect(0, bill, None).row, PostEffect(0, repay, None).row);
  }
}
