/** What each command was asked to do, in its own terms, and that an applied command did exactly that.

    Nothing here refers to the functions that build facts: a correction takes back what stands for its
    target and adds what the request names, an original and a payment add what they name. */
module Requested {
  import opened Wrappers
  import opened Ledger
  import opened History
  import opened Books
  import opened Invariant

  /** A new command, run alone, is applied. */
  predicate IsApplied(t: Tables, device: DeviceId, command: Command, blocked: bool) {
    && FindOperation(t.operations, command.Operation()).None?
    && var answer := Serial(t, device, command, blocked).1; answer.Stored? && answer.status.Applied?
  }

  /* ---- What stands for an operation ---- */

  predicate Stands(m: Movement, operation: OperationId) { m.id.operation == operation && m.reversalOf.None? }

  function MoneyStanding(operation: OperationId, a: AccountId): Movement -> int {
    (m: Movement) => if m.id.operation == operation && m.reversalOf.None? && m.account == a then m.delta else 0
  }

  function LiabilityStanding(operation: OperationId): OwnerEntry -> int {
    (e: OwnerEntry) => if e.id.operation == operation && e.reversalOf.None? then e.liabilityDelta else 0
  }

  function EquityStanding(operation: OperationId): OwnerEntry -> int {
    (e: OwnerEntry) => if e.id.operation == operation && e.reversalOf.None? then e.equityDelta else 0
  }

  lemma {:induction false} SumsAgree<T>(rows: seq<T>, v: T -> int, w: T -> int)
    requires forall x | x in rows :: v(x) == w(x)
    ensures Sum(rows, v) == Sum(rows, w)
  {
    if rows != [] { SumsAgree(rows[..|rows| - 1], v, w); }
  }

  lemma {:induction false} SumOfNothing<T>(rows: seq<T>, v: T -> int)
    requires forall x | x in rows :: v(x) == 0
    ensures Sum(rows, v) == 0
  {
    if rows != [] { SumOfNothing(rows[..|rows| - 1], v); }
  }

  lemma RowStanding(history: seq<OperationRow>, row: OperationRow, op: OperationId, a: AccountId)
    requires RowOk(history, row)
    ensures Sum(RowFacts(row).movements, MoneyStanding(op, a)) == if row.operation == op then MoneyEffect(a)(row) else 0
    ensures Sum(RowFacts(row).owners, LiabilityStanding(op)) == if row.operation == op then LiabilityEffect()(row) else 0
    ensures Sum(RowFacts(row).owners, EquityStanding(op)) == if row.operation == op then EquityEffect()(row) else 0
  {
    var f := RowFacts(row);
    FactsAreStamped(history, row);
    if row.operation == op {
      SumsAgree(f.movements, MoneyStanding(op, a), LiveMoneyOn(a));
      SumsAgree(f.owners, LiabilityStanding(op), LiveLiability());
      SumsAgree(f.owners, EquityStanding(op), LiveEquity());
    } else {
      SumOfNothing(f.movements, MoneyStanding(op, a));
      SumOfNothing(f.owners, LiabilityStanding(op));
      SumOfNothing(f.owners, EquityStanding(op));
    }
  }

  /** What stands for an operation is the effect of its row. */
  lemma {:induction false} StandingIsEffect(rows: seq<OperationRow>, op: OperationId, a: AccountId)
    requires ValidHistory(rows)
    ensures Sum(AllMovements(rows), MoneyStanding(op, a))
         == if FindOperation(rows, op).Some? then MoneyEffect(a)(FindOperation(rows, op).value) else 0
    ensures Sum(AllOwners(rows), LiabilityStanding(op))
         == if FindOperation(rows, op).Some? then LiabilityEffect()(FindOperation(rows, op).value) else 0
    ensures Sum(AllOwners(rows), EquityStanding(op))
         == if FindOperation(rows, op).Some? then EquityEffect()(FindOperation(rows, op).value) else 0
  {
    if rows != [] {
      var (prefix, last) := (rows[..|rows| - 1], rows[|rows| - 1]);
      StandingIsEffect(prefix, op, a);
      RowStanding(prefix, last, op, a);
      SumAppend(AllMovements(prefix), RowFacts(last).movements, MoneyStanding(op, a));
      SumAppend(AllOwners(prefix), RowFacts(last).owners, LiabilityStanding(op));
      SumAppend(AllOwners(prefix), RowFacts(last).owners, EquityStanding(op));
    }
  }

  /** Whatever a table holds of an operation is in the facts of its row. */
  lemma {:induction false} HeldByTheRow(rows: seq<OperationRow>, op: OperationId)
    requires ValidHistory(rows)
    ensures forall m | m in AllMovements(rows) && m.id.operation == op :: m in FactsOfOperation(rows, op).movements
    ensures forall e | e in AllOwners(rows) && e.id.operation == op :: e in FactsOfOperation(rows, op).owners
    ensures forall h | h in AllTransfers(rows) && h.id.operation == op :: h in FactsOfOperation(rows, op).transfers
  {
    if rows != [] {
      HeldByTheRow(rows[..|rows| - 1], op);
      FactsAreStamped(rows[..|rows| - 1], rows[|rows| - 1]);
    }
  }

  /** The facts of a recorded operation are in the tables. */
  lemma {:induction false} RowIsHeld(rows: seq<OperationRow>, op: OperationId)
    requires ValidHistory(rows)
    ensures forall m | m in FactsOfOperation(rows, op).movements :: m in AllMovements(rows)
    ensures forall e | e in FactsOfOperation(rows, op).owners :: e in AllOwners(rows)
    ensures forall h | h in FactsOfOperation(rows, op).transfers :: h in AllTransfers(rows)
  {
    if rows != [] { RowIsHeld(rows[..|rows| - 1], op); }
  }

  /* ---- What a replacement asks for ---- */

  /** Money the replacement puts on an account. `at` is the account that the corrected opening balance
      stands on, `from` the account that the corrected transfer took from. */
  function ReplacementMoney(i: CorrectionInput, at: AccountId, from: AccountId, a: AccountId): int {
    match i.replacement
    case None => 0
    case Some(r) =>
      match i.domain
      case OpeningBalance => if a == at then r.amount else 0
      case OwnerContribution => if r.account == Some(a) then r.amount else 0
      case OwnerLoan => if r.account == Some(a) then r.amount else 0
      case OwnerReimbursement => if r.account == Some(a) then -r.amount else 0
      case OwnerPersonalWithdrawal => if r.account == Some(a) then -r.amount else 0
      case OwnerCapitalWithdrawal => if r.account == Some(a) then -r.amount else 0
      case InternalTransfer =>
        (if a == TransferFrom(r, from) then -r.amount else 0) + (if r.destination == Some(a) then r.amount else 0)
  }

  /** The requested source, and without one the source that the transfer had. */
  function TransferFrom(r: ReplacementSpec, from: AccountId): AccountId { if r.source.Some? then r.source.value else from }

  function ReplacementLiability(i: CorrectionInput): int {
    match (i.replacement, i.domain)
    case (Some(r), OwnerLoan) => r.amount
    case (Some(r), OwnerReimbursement) => -r.amount
    case _ => 0
  }

  function ReplacementEquity(i: CorrectionInput): int {
    match (i.replacement, i.domain)
    case (Some(r), OwnerContribution) => r.amount
    case (Some(r), OwnerPersonalWithdrawal) => -r.amount
    case (Some(r), OwnerCapitalWithdrawal) => -r.amount
    case _ => 0
  }

  /** `at` and `from` are where the target stands. */
  ghost predicate StandsAt(t: Tables, i: CorrectionInput, at: AccountId, from: AccountId) {
    && (i.domain.OpeningBalance? ==> exists m :: m in t.movements && Stands(m, i.target) && m.account == at)
    && (i.domain.InternalTransfer? ==> exists h :: h in t.transfers && h.id.operation == i.target && h.source == from)
  }

  /* ---- From the request to the facts ---- */

  lemma LiveReplacementMoney(i: CorrectionInput, e: Event, a: AccountId, from: AccountId)
    requires Correct(i).WellFormed() && EventIn(e, i.domain) && (e.TransferEvent? ==> from == e.transfer.source)
    ensures Sum(CorrectionFacts(i, e).movements, LiveMoneyOn(a))
         == ReplacementMoney(i, if e.TransferEvent? then 0 else e.movement.account, from, a)
  {
    SmallMoneySums(CorrectionFacts(i, e).movements, a);
  }

  lemma LiveReplacementOwners(i: CorrectionInput, e: Event)
    requires Correct(i).WellFormed() && EventIn(e, i.domain)
    ensures Sum(CorrectionFacts(i, e).owners, LiveLiability()) == ReplacementLiability(i)
    ensures Sum(CorrectionFacts(i, e).owners, LiveEquity()) == ReplacementEquity(i)
  {
    SmallOwnerSums(CorrectionFacts(i, e).owners);
  }

  /** What an applied correction installs. */
  lemma AppliedCorrection(t: Tables, device: DeviceId, i: CorrectionInput, blocked: bool) returns (target: OperationRow)
    requires Inv(t) && IsApplied(t, device, Correct(i), blocked)
    ensures FindOperation(t.operations, i.target) == Some(target) && Correctable(target, i.domain)
    ensures EventOf(target).Some? && EventIn(EventOf(target).value, i.domain) && CheckReplacement(i, EventOf(target).value).Ok?
    ensures ResolvePosting(t.periods, i.period).Ok?
    ensures Serial(t, device, Correct(i), blocked).0
         == Install(t, CorrectEffect(device, i, EventOf(target).value, ResolvePosting(t.periods, i.period).value))
  {
    var effect := CorrectVerdict(t, device, i).value;
    CorrectVerdictApplies(t, device, i, effect);
    target := FindOperation(t.operations, i.target).value;
  }

  lemma OpeningStandsAlone(history: seq<OperationRow>, row: OperationRow, m: Movement)
    requires RowOk(history, row) && Correctable(row, OpeningBalance) && m in RowFacts(row).movements && m.reversalOf.None?
    ensures EventOf(row) == Some(OpeningEvent(row.operation, m))
  {
  }

  lemma OpeningStandsAt(t: Tables, i: CorrectionInput, target: OperationRow, at: AccountId)
    requires Inv(t) && FindOperation(t.operations, i.target) == Some(target) && Correctable(target, OpeningBalance)
    requires EventOf(target).Some? && exists m :: m in t.movements && Stands(m, i.target) && m.account == at
    ensures EventOf(target).value.OpeningEvent? && EventOf(target).value.movement.account == at
  {
    var m :| m in t.movements && Stands(m, i.target) && m.account == at;
    var k := Found(t.operations, i.target);
    PrefixIsValid(t.operations, k);
    HeldByTheRow(t.operations, i.target);
    OpeningStandsAlone(t.operations[..k], target, m);
  }

  lemma TransferStandsAt(t: Tables, i: CorrectionInput, target: OperationRow, from: AccountId)
    requires Inv(t) && FindOperation(t.operations, i.target) == Some(target) && Correctable(target, InternalTransfer)
    requires exists h :: h in t.transfers && h.id.operation == i.target && h.source == from
    ensures EventOf(target).Some? && EventOf(target).value.TransferEvent? && EventOf(target).value.transfer.source == from
  {
    var h :| h in t.transfers && h.id.operation == i.target && h.source == from;
    var k := Found(t.operations, i.target);
    PrefixIsValid(t.operations, k);
    HeldByTheRow(t.operations, i.target);
    TransferRowShape(t.operations[..k], target);
  }

  lemma TargetStands(t: Tables, i: CorrectionInput, target: OperationRow, at: AccountId, from: AccountId)
    requires Inv(t) && FindOperation(t.operations, i.target) == Some(target) && Correctable(target, i.domain)
    requires EventOf(target).Some? && StandsAt(t, i, at, from)
    ensures var e := EventOf(target).value;
            && (e.OpeningEvent? ==> e.movement.account == at) && (e.TransferEvent? ==> e.transfer.source == from)
  {
    EventLiesInDomain(target, i.domain);
    if i.domain.OpeningBalance? { OpeningStandsAt(t, i, target, at); }
    if i.domain.InternalTransfer? { TransferStandsAt(t, i, target, from); }
  }

  lemma TargetEffect(t: Tables, target: OperationRow, domain: Domain, a: AccountId)
    requires Inv(t) && FindOperation(t.operations, target.operation) == Some(target)
    requires Correctable(target, domain) && EventOf(target).Some?
    ensures var e := EventOf(target).value;
            && LegsMirrorHeader(e)
            && Sum(t.movements, MoneyStanding(target.operation, a)) == EventMoney(e, a)
            && Sum(t.owners, LiabilityStanding(target.operation)) == EventLiability(e)
            && Sum(t.owners, EquityStanding(target.operation)) == EventEquity(e)
  {
    var k := Found(t.operations, target.operation);
    PrefixIsValid(t.operations, k);
    EffectIsEvent(t.operations[..k], target, domain, a);
    StandingIsEffect(t.operations, target.operation, a);
  }

  /* ---- Corrections ---- */

  /** On every account an applied correction takes back what stands for its target and adds what the
      request names, and likewise for owner liability and equity. */
  lemma CorrectionDoesWhatIsAsked(t: Tables, device: DeviceId, i: CorrectionInput, blocked: bool, a: AccountId, at: AccountId, from: AccountId)
    requires Inv(t) && Correct(i).WellFormed() && IsApplied(t, device, Correct(i), blocked) && StandsAt(t, i, at, from)
    ensures var u := Serial(t, device, Correct(i), blocked).0;
            && Sum(u.movements, MoneyOn(a))
               == Sum(t.movements, MoneyOn(a)) - Sum(t.movements, MoneyStanding(i.target, a)) + ReplacementMoney(i, at, from, a)
            && Sum(u.owners, Liability())
               == Sum(t.owners, Liability()) - Sum(t.owners, LiabilityStanding(i.target)) + ReplacementLiability(i)
            && Sum(u.owners, Equity())
               == Sum(t.owners, Equity()) - Sum(t.owners, EquityStanding(i.target)) + ReplacementEquity(i)
  {
    var target := AppliedCorrection(t, device, i, blocked);
    var e := EventOf(target).value;
    var k := Found(t.operations, i.target);
    TargetEffect(t, target, i.domain, a);
    TargetStands(t, i, target, at, from);
    CorrectionReversesEvent(i, e, a);
    LiveReplacementMoney(i, e, a, from);
    LiveReplacementOwners(i, e);
    CorrectionAdds(t, i, e, a);
  }

  lemma CorrectionAdds(t: Tables, i: CorrectionInput, e: Event, a: AccountId)
    ensures var f := CorrectionFacts(i, e);
            && Sum(t.movements + f.movements, MoneyOn(a)) == Sum(t.movements, MoneyOn(a)) + Sum(f.movements, MoneyOn(a))
            && Sum(t.owners + f.owners, Liability()) == Sum(t.owners, Liability()) + Sum(f.owners, Liability())
            && Sum(t.owners + f.owners, Equity()) == Sum(t.owners, Equity()) + Sum(f.owners, Equity())
  {
    var f := CorrectionFacts(i, e);
    SumAppend(t.movements, f.movements, MoneyOn(a));
    SumAppend(t.owners, f.owners, Liability());
    SumAppend(t.owners, f.owners, Equity());
  }

  /* ---- Originals ---- */

  /** Money an original puts on an account. */
  function OriginalMoney(i: OriginalInput, a: AccountId): int {
    match i.domain
    case OpeningBalance => if a == i.account then i.amount else 0
    case OwnerContribution => if a == i.account then i.amount else 0
    case OwnerLoan => if a == i.account then i.amount else 0
    case OwnerReimbursement => if a == i.account then -i.amount else 0
    case OwnerPersonalWithdrawal => if a == i.account then -i.amount else 0
    case OwnerCapitalWithdrawal => if a == i.account then -i.amount else 0
    case InternalTransfer => (if a == i.account then -i.amount else 0) + (if a == i.destination then i.amount else 0)
  }

  function OriginalLiability(i: OriginalInput): int {
    match i.domain
    case OwnerLoan => i.amount
    case OwnerReimbursement => -i.amount
    case _ => 0
  }

  function OriginalEquity(i: OriginalInput): int {
    match i.domain
    case OwnerContribution => i.amount
    case OwnerPersonalWithdrawal => -i.amount
    case OwnerCapitalWithdrawal => -i.amount
    case _ => 0
  }

  lemma OriginalFactsDo(i: OriginalInput, a: AccountId)
    ensures var f := OriginalFacts(i);
            && Sum(f.movements, MoneyOn(a)) == OriginalMoney(i, a)
            && Sum(f.owners, Liability()) == OriginalLiability(i) && Sum(f.owners, Equity()) == OriginalEquity(i)
  {
    SmallMoneySums(OriginalFacts(i).movements, a);
    SmallOwnerSums(OriginalFacts(i).owners);
  }

  lemma AppliedOriginal(t: Tables, device: DeviceId, i: OriginalInput, blocked: bool)
    requires IsApplied(t, device, Post(i), blocked)
    ensures ResolvePosting(t.periods, i.period).Ok?
    ensures Serial(t, device, Post(i), blocked).0 == Install(t, PostEffect(device, i, ResolvePosting(t.periods, i.period).value))
  {
  }

  /** An applied original moves the money it names, in the direction of its domain, and no other. */
  lemma OriginalDoesWhatIsAsked(t: Tables, device: DeviceId, i: OriginalInput, blocked: bool, a: AccountId)
    requires IsApplied(t, device, Post(i), blocked)
    ensures var u := Serial(t, device, Post(i), blocked).0;
            && Sum(u.movements, MoneyOn(a)) == Sum(t.movements, MoneyOn(a)) + OriginalMoney(i, a)
            && Sum(u.owners, Liability()) == Sum(t.owners, Liability()) + OriginalLiability(i)
            && Sum(u.owners, Equity()) == Sum(t.owners, Equity()) + OriginalEquity(i)
  {
    AppliedOriginal(t, device, i, blocked);
    var f := OriginalFacts(i);
    OriginalFactsDo(i, a);
    SumAppend(t.movements, f.movements, MoneyOn(a));
    SumAppend(t.owners, f.owners, Liability());
    SumAppend(t.owners, f.owners, Equity());
  }

  /* ---- Payments ---- */

  lemma AppliedPayment(t: Tables, device: DeviceId, i: PaymentInput, blocked: bool)
    requires IsApplied(t, device, Pay(i), blocked)
    ensures ResolvePosting(t.periods, i.period).Ok?
    ensures Serial(t, device, Pay(i), blocked).0 == Install(t, PayEffect(device, i, ResolvePosting(t.periods, i.period).value))
  {
  }

  lemma PaymentFactsDo(i: PaymentInput, a: AccountId)
    ensures var f := PaymentFacts(i);
            && Sum(f.movements, MoneyOn(a)) == (if i.source == FromAccount(a) then -i.amount else 0)
            && Sum(f.owners, Liability()) == (if i.source.OwnerPocket? then i.amount else 0) && Sum(f.owners, Equity()) == 0
  {
    SmallMoneySums(PaymentFacts(i).movements, a);
    SmallOwnerSums(PaymentFacts(i).owners);
  }

  /** An applied payment takes its amount from the account it names, or owes it to the owner, and settles
      its expense by that amount. */
  lemma PaymentDoesWhatIsAsked(t: Tables, device: DeviceId, i: PaymentInput, blocked: bool, a: AccountId, e: ExpenseId)
    requires IsApplied(t, device, Pay(i), blocked)
    ensures var u := Serial(t, device, Pay(i), blocked).0;
            && Sum(u.movements, MoneyOn(a)) == Sum(t.movements, MoneyOn(a)) - (if i.source == FromAccount(a) then i.amount else 0)
            && Sum(u.owners, Liability()) == Sum(t.owners, Liability()) + (if i.source.OwnerPocket? then i.amount else 0)
            && Sum(u.owners, Equity()) == Sum(t.owners, Equity())
            && Sum(u.payments, PaidOn(e)) == Sum(t.payments, PaidOn(e)) + (if e == i.expense then i.amount else 0)
  {
    AppliedPayment(t, device, i, blocked);
    var f := PaymentFacts(i);
    PaymentFactsDo(i, a);
    SumAppend(t.movements, f.movements, MoneyOn(a));
    SumAppend(t.owners, f.owners, Liability());
    SumAppend(t.owners, f.owners, Equity());
    SumAppend(t.payments, [PostedPaymentRow(i)], PaidOn(e));
    SumOne(PostedPaymentRow(i), PaidOn(e));
  }
}
