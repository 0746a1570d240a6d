/** One store's append-only ledger: rows, commands and the decision each command reaches.

    Identifiers derived by hashing are modelled by injective constructors: a fact is identified
    by the command that produced it and the role it plays in that command, and a request digest
    is the request it digests. Amounts are minor units, without a width bound. */
module Ledger {
  import opened Wrappers

  type OperationId = nat
  type AccountId = nat
  type ExpenseId = nat
  type DeviceId = nat
  type Instant = int

  datatype PeriodId = PeriodId(year: int, month: int)

  /** The discriminator of a fact within its command, e.g. `replacement:owner-money`. */
  datatype Role =
    | Opening | OwnerMoney | OwnerEntryFact
    | TransferHeader | TransferSource | TransferDestination
    | PaymentHeader | PaymentMoney | PaymentOwner
    | Reversal(of: Role) | Replacement(of: Role)

  datatype FactId = FactId(operation: OperationId, role: Role)
  datatype FactOperationId = FactOperationId(operation: OperationId, role: Role)

  datatype Domain =
    | OpeningBalance | OwnerContribution | OwnerLoan | OwnerReimbursement
    | OwnerPersonalWithdrawal | OwnerCapitalWithdrawal | InternalTransfer

  datatype MovementType =
    | OpeningMovement | ContributionMovement | LoanMovement | ReimbursementMovement
    | WithdrawalMovement | TransferMovement | ExpensePaymentMovement | CorrectionMovementType

  datatype OwnerEntryType =
    | CapitalContribution | OwnerLoanToStore | ReimbursementEntry | PersonalWithdrawal
    | CapitalWithdrawal | OwnerPaidExpense | CorrectionEntryType

  datatype Reference =
    | ToOpeningBalance(account: AccountId) | ToOwnerEntry(id: FactId) | ToMoneyMovement(id: FactId)
    | ToTransfer(id: FactId) | ToPayment(id: FactId)

  datatype Movement = Movement(
    id: FactId, factOperation: FactOperationId, account: AccountId, period: PeriodId,
    movementType: MovementType, delta: int, reference: Reference, group: OperationId,
    transferGroup: Option<FactId>, counterAccount: Option<AccountId>,
    occurredAt: Instant, reversalOf: Option<FactId>)

  datatype OwnerEntry = OwnerEntry(
    id: FactId, factOperation: FactOperationId, entryType: OwnerEntryType,
    liabilityDelta: int, equityDelta: int, account: Option<AccountId>, period: PeriodId,
    reference: Reference, group: OperationId, occurredAt: Instant, reversalOf: Option<FactId>)

  datatype TransferStatus = DraftTransfer | PostedTransfer | CancelledTransfer

  datatype Transfer = Transfer(
    id: FactId, factOperation: FactOperationId, source: AccountId, destination: AccountId,
    amount: int, transferAt: Instant, sourceMovement: FactId, destinationMovement: FactId,
    period: PeriodId, status: TransferStatus)

  datatype PaymentSource = FromAccount(account: AccountId) | OwnerPocket

  datatype PaymentStatus = DraftPayment | PostedPayment | CancelledPayment

  datatype Payment = Payment(
    id: FactId, expense: ExpenseId, amount: int, source: PaymentSource, period: PeriodId,
    paymentAt: Instant, status: PaymentStatus,
    moneyMovement: Option<FactId>, ownerEntry: Option<FactId>)

  datatype Facts = Facts(movements: seq<Movement>, owners: seq<OwnerEntry>, transfers: seq<Transfer>)

  const NoFacts := Facts([], [], [])

  /* ---- Commands ---- */

  datatype Kind = ReversalKind | ReplacementKind

  datatype ReplacementSpec = ReplacementSpec(
    amount: int, account: Option<AccountId>, source: Option<AccountId>, destination: Option<AccountId>)

  datatype OriginalInput = OriginalInput(
    operation: OperationId, domain: Domain, period: PeriodId, occurredAt: Instant,
    amount: int, account: AccountId, destination: AccountId)

  datatype CorrectionInput = CorrectionInput(
    operation: OperationId, target: OperationId, domain: Domain, kind: Kind,
    period: PeriodId, occurredAt: Instant, replacement: Option<ReplacementSpec>)

  datatype CloseInput = CloseInput(operation: OperationId, period: PeriodId, expectedVersion: nat)

  datatype PaymentInput = PaymentInput(
    operation: OperationId, expense: ExpenseId, source: PaymentSource, amount: int,
    period: PeriodId, occurredAt: Instant)

  datatype Command =
    | Post(original: OriginalInput) | Correct(correction: CorrectionInput)
    | Close(close: CloseInput) | Pay(payment: PaymentInput)
  {
    function Operation(): OperationId {
      match this
      case Post(i) => i.operation
      case Correct(i) => i.operation
      case Close(i) => i.operation
      case Pay(i) => i.operation
    }

    /** What the write services check before a repository sees the command. */
    predicate WellFormed() {
      match this
      case Post(i) =>
        if i.domain.OpeningBalance? then true
        else i.amount > 0
      case Correct(i) =>
        && (i.kind.ReplacementKind? <==> i.replacement.Some?)
        && (i.replacement.Some? ==>
              var r := i.replacement.value;
              match i.domain
              case OpeningBalance => r.amount != 0
              case InternalTransfer => r.amount > 0 && r.destination.Some?
              case _ => r.amount > 0 && r.account.Some?)
      case Close(_) => true
      case Pay(i) => i.amount > 0
    }

    /** Writers that may lower the owner liability lock the store row exclusively. */
    predicate LowersLiability() {
      match this
      case Post(i) => i.domain.OwnerReimbursement?
      case Correct(i) => i.domain.OwnerLoan? || i.domain.OwnerReimbursement?
      case _ => false
    }
  }

  /* ---- Processed operations ---- */

  datatype Aggregate = MoneyMovements | OwnerLedgerEntries | MoneyTransfers | AccountingPeriods | ExpensePayments
  datatype AggregateId = GroupAggregate(operation: OperationId) | FactAggregate(id: FactId) | PeriodAggregate(period: PeriodId)
  datatype Action = OriginalAction(domain: Domain) | CorrectionAction(kind: Kind, domain: Domain) | CloseAction | PayAction

  /** The columns that tell a retry from a reuse of the operation id. */
  datatype Identity = Identity(
    device: DeviceId, aggregate: Aggregate, aggregateId: AggregateId, action: Action, digest: Command)

  function IdentityOf(device: DeviceId, command: Command): Identity {
    match command
    case Post(i) =>
      Identity(device, Describe(i.domain).aggregate,
               if i.domain.InternalTransfer? then FactAggregate(FactId(i.operation, TransferHeader)) else GroupAggregate(i.operation),
               OriginalAction(i.domain), command)
    case Correct(i) =>
      Identity(device, MoneyMovements, GroupAggregate(i.operation), CorrectionAction(i.kind, i.domain), command)
    case Close(i) => Identity(device, AccountingPeriods, PeriodAggregate(i.period), CloseAction, command)
    case Pay(i) =>
      Identity(device, ExpensePayments, FactAggregate(FactId(i.operation, PaymentHeader)), PayAction, command)
  }

  datatype Failure =
    | DomainMismatch | NoOp | TargetIntegrityConflict | TargetNotActive | TargetNotFound
    | PeriodIntegrityConflict | PeriodNotPostingEligible
    | AccountNotFound | AccountUnavailable | TransferSameAccount | OwnerLiabilityExceeded
    | ExpenseNotFound | ExpenseNotSettlementEligible | ExpenseAlreadySettled
    | ExpenseOutstandingIntegrityConflict | PaymentExceedsOutstanding
    | PeriodNotFound | PeriodVersionConflict | PeriodClosing | PeriodCloseBlocked
    | OperationIdConflict | OperationInProgress

  /** The stored response body; `target` is its `targetOperationId`. */
  datatype Response = Response(target: Option<OperationId>, period: PeriodId, facts: Facts)

  datatype OperationStatus = Processing | Applied(response: Response) | Rejected(failure: Failure)

  datatype OperationRow = OperationRow(operation: OperationId, identity: Identity, status: OperationStatus)

  datatype Conflict = Conflict(operation: OperationId, identity: Identity)

  datatype PeriodStatus = Open | Closing | Closed

  /** `canonical` says whether the stored identity and boundaries are the recomputed ones. */
  datatype Period = Period(status: PeriodStatus, version: nat, canonical: bool)

  datatype ExpenseStatus = DraftExpense | PostedExpense | CancelledExpense
  datatype Expense = Expense(amount: int, dueLater: bool, status: ExpenseStatus)

  datatype Tables = Tables(
    operations: seq<OperationRow>, conflicts: seq<Conflict>,
    movements: seq<Movement>, owners: seq<OwnerEntry>, transfers: seq<Transfer>, payments: seq<Payment>,
    periods: map<PeriodId, Period>, expenses: map<ExpenseId, Expense>, accounts: map<AccountId, bool>)

  /* ---- Domain descriptors ---- */

  datatype Descriptor = Descriptor(
    aggregate: Aggregate, movementType: MovementType, entryType: Option<OwnerEntryType>,
    liabilityFactor: int, equityFactor: int)
  {
    function MoneySign(): int { if liabilityFactor == -1 || equityFactor == -1 then -1 else 1 }
  }

  function Describe(domain: Domain): Descriptor {
    match domain
    case OpeningBalance => Descriptor(MoneyMovements, OpeningMovement, None, 0, 0)
    case OwnerContribution => Descriptor(OwnerLedgerEntries, ContributionMovement, Some(CapitalContribution), 0, 1)
    case OwnerLoan => Descriptor(OwnerLedgerEntries, LoanMovement, Some(OwnerLoanToStore), 1, 0)
    case OwnerReimbursement => Descriptor(OwnerLedgerEntries, ReimbursementMovement, Some(ReimbursementEntry), -1, 0)
    case OwnerPersonalWithdrawal => Descriptor(OwnerLedgerEntries, WithdrawalMovement, Some(PersonalWithdrawal), 0, -1)
    case OwnerCapitalWithdrawal => Descriptor(OwnerLedgerEntries, WithdrawalMovement, Some(CapitalWithdrawal), 0, -1)
    case InternalTransfer => Descriptor(MoneyTransfers, TransferMovement, None, 0, 0)
  }

  /* ---- Reads ---- */

  function FindOperation(rows: seq<OperationRow>, operation: OperationId): Option<OperationRow> {
    if rows == [] then None
    else if rows[|rows| - 1].operation == operation then Some(rows[|rows| - 1])
    else FindOperation(rows[..|rows| - 1], operation)
  }

  function ReadMovement(rows: seq<Movement>, id: FactId): Option<Movement> {
    if rows == [] then None
    else if rows[0].id == id then Some(rows[0]) else ReadMovement(rows[1..], id)
  }

  function ReadOwnerEntry(rows: seq<OwnerEntry>, id: FactId): Option<OwnerEntry> {
    if rows == [] then None
    else if rows[0].id == id then Some(rows[0]) else ReadOwnerEntry(rows[1..], id)
  }

  function ReadTransfer(rows: seq<Transfer>, id: FactId): Option<Transfer> {
    if rows == [] then None
    else if rows[0].id == id then Some(rows[0]) else ReadTransfer(rows[1..], id)
  }

  function Sum<T>(rows: seq<T>, weight: T -> int): int {
    if rows == [] then 0 else Sum(rows[..|rows| - 1], weight) + weight(rows[|rows| - 1])
  }

  function MoneyOn(account: AccountId): Movement -> int {
    (m: Movement) => if m.account == account then m.delta else 0
  }

  function AnyMoney(): Movement -> int { (m: Movement) => m.delta }
  function Liability(): OwnerEntry -> int { (e: OwnerEntry) => e.liabilityDelta }
  function Equity(): OwnerEntry -> int { (e: OwnerEntry) => e.equityDelta }

  function PaidOn(expense: ExpenseId): Payment -> int {
    (p: Payment) => if p.expense == expense && p.status.PostedPayment? then p.amount else 0
  }

  /** Operations that an applied correction names as its target. */
  function Targets(rows: seq<OperationRow>): set<OperationId> {
    if rows == [] then {}
    else
      var last := rows[|rows| - 1];
      Targets(rows[..|rows| - 1])
      + (if last.identity.action.CorrectionAction? && last.status.Applied? && last.status.response.target.Some?
         then {last.status.response.target.value} else {})
  }

  /* ---- Targets and active events ---- */

  datatype TargetKind = OriginalTarget | ReplacementTarget

  datatype Event =
    | OpeningEvent(operation: OperationId, movement: Movement)
    | OwnerEvent(domain: Domain, operation: OperationId, movement: Movement, entry: OwnerEntry)
    | TransferEvent(operation: OperationId, transfer: Transfer, source: Movement, destination: Movement)

  function ResolveTargetKind(row: Option<OperationRow>, target: OperationId, domain: Domain): Result<TargetKind, Failure> {
    if row.None? then Err(TargetNotFound)
    else
      var r := row.value;
      if !r.status.Applied? then Err(TargetNotActive)
      else if r.identity.aggregate == Describe(domain).aggregate && r.identity.action == OriginalAction(domain) then
        var expected :=
          if domain.InternalTransfer? then FactAggregate(FactId(target, TransferHeader)) else GroupAggregate(target);
        if r.identity.aggregateId == expected then Ok(OriginalTarget) else Err(TargetIntegrityConflict)
      else if r.identity.action == CorrectionAction(ReplacementKind, domain) then
        if r.identity.aggregate == MoneyMovements && r.identity.aggregateId == GroupAggregate(target)
        then Ok(ReplacementTarget) else Err(TargetIntegrityConflict)
      else if r.identity.action.CorrectionAction? && r.identity.action.kind.ReplacementKind? then Err(DomainMismatch)
      else if r.identity.action.CorrectionAction? then Err(TargetNotActive)
      else Err(DomainMismatch)
  }

  function RoleFor(kind: TargetKind, role: Role): Role {
    if kind.OriginalTarget? then role else Replacement(role)
  }

  function LoadOpening(t: Tables, operation: OperationId, kind: TargetKind): Result<Event, Failure> {
    var role := RoleFor(kind, Opening);
    match ReadMovement(t.movements, FactId(operation, role))
    case None => Err(TargetIntegrityConflict)
    case Some(m) =>
      if || m.factOperation != FactOperationId(operation, role)
         || m.group != operation
         || m.reversalOf.Some?
         || m.movementType != (if kind.OriginalTarget? then OpeningMovement else CorrectionMovementType)
         || m.delta == 0
      then Err(TargetIntegrityConflict)
      else Ok(OpeningEvent(operation, m))
  }

  function Magnitude(amount: int): int { if amount < 0 then -amount else amount }

  predicate OwnerDeltasMatch(d: Descriptor, m: Movement, e: OwnerEntry) {
    && m.delta == d.MoneySign() * Magnitude(m.delta)
    && e.liabilityDelta == d.liabilityFactor * Magnitude(m.delta)
    && e.equityDelta == d.equityFactor * Magnitude(m.delta)
  }

  function LoadOwner(t: Tables, operation: OperationId, domain: Domain, kind: TargetKind): Result<Event, Failure> {
    var moneyRole := RoleFor(kind, OwnerMoney);
    var ownerRole := RoleFor(kind, OwnerEntryFact);
    var movement := ReadMovement(t.movements, FactId(operation, moneyRole));
    var entry := ReadOwnerEntry(t.owners, FactId(operation, ownerRole));
    if movement.None? || entry.None? then Err(TargetIntegrityConflict)
    else
      var (m, e, d) := (movement.value, entry.value, Describe(domain));
      if || m.factOperation != FactOperationId(operation, moneyRole)
         || e.factOperation != FactOperationId(operation, ownerRole)
         || m.group != operation || e.group != operation
         || m.reversalOf.Some? || e.reversalOf.Some?
         || Some(m.account) != e.account
         || m.period != e.period
         || m.occurredAt != e.occurredAt
         || m.reference != ToOwnerEntry(e.id)
         || e.reference != ToMoneyMovement(m.id)
         || m.movementType != (if kind.OriginalTarget? then d.movementType else CorrectionMovementType)
         || Some(e.entryType) != (if kind.OriginalTarget? then d.entryType else Some(CorrectionEntryType))
         || !OwnerDeltasMatch(d, m, e)
      then Err(TargetIntegrityConflict)
      else Ok(OwnerEvent(domain, operation, m, e))
  }

  predicate TransferLegMatches(m: Movement, operation: OperationId, role: Role, kind: TargetKind, t: Transfer,
                               account: AccountId, counter: AccountId, delta: int) {
    && m.factOperation == FactOperationId(operation, role)
    && m.group == operation
    && m.reversalOf.None?
    && m.account == account
    && m.period == t.period
    && m.movementType == (if kind.OriginalTarget? then TransferMovement else CorrectionMovementType)
    && m.delta == delta
    && m.reference == ToTransfer(t.id)
    && m.transferGroup == Some(t.id)
    && m.counterAccount == Some(counter)
    && m.occurredAt == t.transferAt
  }

  function LoadTransfer(t: Tables, operation: OperationId, kind: TargetKind): Result<Event, Failure> {
    var headerRole := RoleFor(kind, TransferHeader);
    var sourceRole := RoleFor(kind, TransferSource);
    var destinationRole := RoleFor(kind, TransferDestination);
    var header := ReadTransfer(t.transfers, FactId(operation, headerRole));
    var source := ReadMovement(t.movements, FactId(operation, sourceRole));
    var destination := ReadMovement(t.movements, FactId(operation, destinationRole));
    if header.None? || source.None? || destination.None? then Err(TargetIntegrityConflict)
    else
      var (h, s, d) := (header.value, source.value, destination.value);
      if || !h.status.PostedTransfer?
         || h.factOperation != FactOperationId(operation, headerRole)
         || h.sourceMovement != s.id || h.destinationMovement != d.id
         || !TransferLegMatches(s, operation, sourceRole, kind, h, h.source, h.destination, -h.amount)
         || !TransferLegMatches(d, operation, destinationRole, kind, h, h.destination, h.source, h.amount)
      then Err(TargetIntegrityConflict)
      else Ok(TransferEvent(operation, h, s, d))
  }

  function LoadEvent(t: Tables, operation: OperationId, domain: Domain, kind: TargetKind): Result<Event, Failure> {
    match domain
    case OpeningBalance => LoadOpening(t, operation, kind)
    case InternalTransfer => LoadTransfer(t, operation, kind)
    case _ => LoadOwner(t, operation, domain, kind)
  }

  function CheckReplacement(input: CorrectionInput, event: Event): Result<(), Failure> {
    if !input.kind.ReplacementKind? then Ok(())
    else if input.replacement.None? then Err(TargetIntegrityConflict)
    else
      var r := input.replacement.value;
      match event
      case OpeningEvent(_, m) => Need(r.amount != m.delta, NoOp)
      case TransferEvent(_, t, _, _) =>
        if r.destination.None? then Err(TargetIntegrityConflict)
        else
          var source := FinalSource(r, t);
          if source == r.destination.value then Err(TransferSameAccount)
          else Need(!(r.amount == t.amount && source == t.source && r.destination.value == t.destination), NoOp)
      case OwnerEvent(_, _, m, _) =>
        if r.account.None? then Err(TargetIntegrityConflict)
        else Need(!(r.amount == Magnitude(m.delta) && r.account.value == m.account), NoOp)
  }

  function FinalSource(r: ReplacementSpec, t: Transfer): AccountId {
    if r.source.Some? then r.source.value else t.source
  }

  /** Locks the target row, then decides that it is the active event of its domain. */
  function ResolveTarget(rows: seq<OperationRow>, input: CorrectionInput): Result<TargetKind, Failure> {
    if input.target == input.operation then Err(TargetNotActive)  // the command's own row is still processing
    else ResolveTargetKind(FindOperation(rows, input.target), input.target, input.domain)
  }

  function LoadActive(t: Tables, input: CorrectionInput, kind: TargetKind): Result<Event, Failure> {
    var _ :- Need(input.target !in Targets(t.operations), TargetNotActive);
    var event :- LoadEvent(t, input.target, input.domain, kind);
    var _ :- CheckReplacement(input, event);
    Ok(event)
  }

  /* ---- Gates every posting passes ---- */

  /** Adopts the month's row when there is one, and otherwise reports that the posting provisions it. */
  function ResolvePosting(periods: map<PeriodId, Period>, period: PeriodId): Result<Option<PeriodId>, Failure> {
    if period !in periods then Ok(Some(period))
    else if !periods[period].canonical then Err(PeriodIntegrityConflict)
    else if !periods[period].status.Open? then Err(PeriodNotPostingEligible)
    else Ok(None)
  }

  function CheckAccounts(accounts: map<AccountId, bool>, wanted: seq<AccountId>): Result<(), Failure> {
    if wanted == [] then Ok(())
    else if wanted[0] !in accounts then Err(AccountNotFound)
    else if !accounts[wanted[0]] then Err(AccountUnavailable)
    else CheckAccounts(accounts, wanted[1..])
  }

  function AffectedAccounts(input: CorrectionInput, event: Event): seq<AccountId> {
    var r := if input.replacement.Some? then input.replacement.value else ReplacementSpec(0, None, None, None);
    match event
    case TransferEvent(_, t, _, _) => [t.source, t.destination] + AsSeq(r.source) + AsSeq(r.destination)
    case _ => [event.movement.account] + AsSeq(r.account)
  }

  function AsSeq<T>(x: Option<T>): seq<T> { if x.Some? then [x.value] else [] }

  function CheckProjectedLiability(owners: seq<OwnerEntry>, input: CorrectionInput, event: Event): Result<(), Failure> {
    if event.OwnerEvent? && (event.domain.OwnerLoan? || event.domain.OwnerReimbursement?) then
      var replacementDelta :=
        if input.replacement.Some? then Describe(event.domain).liabilityFactor * input.replacement.value.amount else 0;
      Need(Sum(owners, Liability()) - event.entry.liabilityDelta + replacementDelta >= 0, OwnerLiabilityExceeded)
    else Ok(())
  }

  /* ---- Facts written ---- */

  function CorrectionMovement(input: CorrectionInput, role: Role, account: AccountId, delta: int,
                              reference: Reference, reversalOf: Option<FactId>,
                              transferGroup: Option<FactId>, counter: Option<AccountId>): Movement {
    Movement(FactId(input.operation, role), FactOperationId(input.operation, role), account, input.period,
             CorrectionMovementType, delta, reference, input.operation, transferGroup, counter,
             input.occurredAt, reversalOf)
  }

  function CorrectionOwnerEntry(input: CorrectionInput, role: Role, account: AccountId, liability: int, equity: int,
                                reference: FactId, reversalOf: Option<FactId>): OwnerEntry {
    OwnerEntry(FactId(input.operation, role), FactOperationId(input.operation, role), CorrectionEntryType,
               liability, equity, Some(account), input.period, ToMoneyMovement(reference), input.operation,
               input.occurredAt, reversalOf)
  }

  function OpeningCorrection(input: CorrectionInput, target: Movement): Facts {
    var reversal := CorrectionMovement(input, Reversal(Opening), target.account, -target.delta,
                                       ToOpeningBalance(target.account), Some(target.id), None, None);
    if input.replacement.None? then Facts([reversal], [], [])
    else
      var replacement := CorrectionMovement(input, Replacement(Opening), target.account, input.replacement.value.amount,
                                            ToOpeningBalance(target.account), None, None, None);
      Facts([reversal, replacement], [], [])
  }

  function OwnerCorrection(input: CorrectionInput, domain: Domain, target: Movement, entry: OwnerEntry): Facts {
    var id := (role: Role) => FactId(input.operation, role);
    var d := Describe(domain);
    var reversal := CorrectionMovement(input, Reversal(OwnerMoney), target.account, -target.delta,
                                       ToOwnerEntry(id(Reversal(OwnerEntryFact))), Some(target.id), None, None);
    var reversalEntry := CorrectionOwnerEntry(input, Reversal(OwnerEntryFact), target.account,
                                              -entry.liabilityDelta, -entry.equityDelta,
                                              id(Reversal(OwnerMoney)), Some(entry.id));
    if input.replacement.None? || input.replacement.value.account.None? then Facts([reversal], [reversalEntry], [])
    else
      var (account, amount) := (input.replacement.value.account.value, input.replacement.value.amount);
      var replacement := CorrectionMovement(input, Replacement(OwnerMoney), account, d.MoneySign() * amount,
                                            ToOwnerEntry(id(Replacement(OwnerEntryFact))), None, None, None);
      var replacementEntry := CorrectionOwnerEntry(input, Replacement(OwnerEntryFact), account,
                                                   d.liabilityFactor * amount, d.equityFactor * amount,
                                                   id(Replacement(OwnerMoney)), None);
      Facts([reversal, replacement], [reversalEntry, replacementEntry], [])
  }

  function TransferCorrection(input: CorrectionInput, t: Transfer, source: Movement, destination: Movement): Facts {
    var reversals := [
      CorrectionMovement(input, Reversal(TransferSource), t.source, t.amount, ToTransfer(t.id),
                         Some(source.id), Some(t.id), Some(t.destination)),
      CorrectionMovement(input, Reversal(TransferDestination), t.destination, -t.amount, ToTransfer(t.id),
                         Some(destination.id), Some(t.id), Some(t.source))];
    if input.replacement.None? || input.replacement.value.destination.None? then Facts(reversals, [], [])
    else
      var r := input.replacement.value;
      var (from, to) := (FinalSource(r, t), r.destination.value);
      var header := FactId(input.operation, Replacement(TransferHeader));
      var replacements := [
        CorrectionMovement(input, Replacement(TransferSource), from, -r.amount, ToTransfer(header), None, Some(header), Some(to)),
        CorrectionMovement(input, Replacement(TransferDestination), to, r.amount, ToTransfer(header), None, Some(header), Some(from))];
      Facts(reversals + replacements, [],
            [Transfer(header, FactOperationId(input.operation, Replacement(TransferHeader)), from, to, r.amount,
                      input.occurredAt, replacements[0].id, replacements[1].id, input.period, PostedTransfer)])
  }

  function CorrectionFacts(input: CorrectionInput, event: Event): Facts {
    match event
    case OpeningEvent(_, m) => OpeningCorrection(input, m)
    case OwnerEvent(domain, _, m, e) => OwnerCorrection(input, domain, m, e)
    case TransferEvent(_, t, s, d) => TransferCorrection(input, t, s, d)
  }

  function OriginalMovement(input: OriginalInput, role: Role, account: AccountId, delta: int, reference: Reference,
                            transferGroup: Option<FactId>, counter: Option<AccountId>): Movement {
    Movement(FactId(input.operation, role), FactOperationId(input.operation, role), account, input.period,
             Describe(input.domain).movementType, delta, reference, input.operation, transferGroup, counter,
             input.occurredAt, None)
  }

  function OriginalFacts(input: OriginalInput): Facts {
    var d := Describe(input.domain);
    match input.domain
    case OpeningBalance =>
      if input.amount == 0 then NoFacts
      else Facts([OriginalMovement(input, Opening, input.account, input.amount, ToOpeningBalance(input.account), None, None)], [], [])
    case InternalTransfer =>
      var header := FactId(input.operation, TransferHeader);
      var source := OriginalMovement(input, TransferSource, input.account, -input.amount, ToTransfer(header),
                                     Some(header), Some(input.destination));
      var destination := OriginalMovement(input, TransferDestination, input.destination, input.amount, ToTransfer(header),
                                          Some(header), Some(input.account));
      Facts([source, destination], [],
            [Transfer(header, FactOperationId(input.operation, TransferHeader), input.account, input.destination,
                      input.amount, input.occurredAt, source.id, destination.id, input.period, PostedTransfer)])
    case _ =>
      var entryId := FactId(input.operation, OwnerEntryFact);
      var movement := OriginalMovement(input, OwnerMoney, input.account, d.MoneySign() * input.amount, ToOwnerEntry(entryId), None, None);
      Facts([movement],
            [OwnerEntry(entryId, FactOperationId(input.operation, OwnerEntryFact),
                        if d.entryType.Some? then d.entryType.value else CorrectionEntryType,
                        d.liabilityFactor * input.amount, d.equityFactor * input.amount, Some(input.account), input.period,
                        ToMoneyMovement(movement.id), input.operation, input.occurredAt, None)], [])
  }

  /* ---- Expense settlement ---- */

  datatype Settlement = Settlement(recognized: int, settled: int, outstanding: int)

  /** The balance view lists posted expenses only. */
  function ReadSettlement(expenses: map<ExpenseId, Expense>, payments: seq<Payment>, expense: ExpenseId): Result<Settlement, Failure> {
    if expense in expenses && expenses[expense].status.PostedExpense? then
      var (amount, paid) := (expenses[expense].amount, Sum(payments, PaidOn(expense)));
      Ok(Settlement(amount, paid, amount - paid))
    else Err(ExpenseOutstandingIntegrityConflict)
  }

  function LockExpense(expenses: map<ExpenseId, Expense>, expense: ExpenseId): Result<Expense, Failure> {
    if expense !in expenses then Err(ExpenseNotFound)
    else
      var e := expenses[expense];
      if e.status.PostedExpense? && e.dueLater then Ok(e) else Err(ExpenseNotSettlementEligible)
  }

  function CheckSettlement(expense: Expense, s: Settlement, amount: int): Result<(), Failure> {
    if s.recognized != expense.amount || s.settled < 0 || s.outstanding < 0 || s.settled + s.outstanding != expense.amount
    then Err(ExpenseOutstandingIntegrityConflict)
    else if s.outstanding == 0 then Err(ExpenseAlreadySettled)
    else Need(amount <= s.outstanding, PaymentExceedsOutstanding)
  }

  function PaymentFacts(input: PaymentInput): Facts {
    var header := FactId(input.operation, PaymentHeader);
    match input.source
    case FromAccount(account) =>
      Facts([Movement(FactId(input.operation, PaymentMoney), FactOperationId(input.operation, PaymentMoney), account,
                      input.period, ExpensePaymentMovement, -input.amount, ToPayment(header), input.operation, None, None,
                      input.occurredAt, None)], [], [])
    case OwnerPocket =>
      Facts([], [OwnerEntry(FactId(input.operation, PaymentOwner), FactOperationId(input.operation, PaymentOwner),
                            OwnerPaidExpense, input.amount, 0, None, input.period, ToPayment(header), input.operation,
                            input.occurredAt, None)], [])
  }

  function PostedPaymentRow(input: PaymentInput): Payment {
    var facts := PaymentFacts(input);
    Payment(FactId(input.operation, PaymentHeader), input.expense, input.amount, input.source, input.period,
            input.occurredAt, PostedPayment,
            if facts.movements != [] then Some(facts.movements[0].id) else None,
            if facts.owners != [] then Some(facts.owners[0].id) else None)
  }

  /** The re-read after the payment is posted must show exactly this payment. */
  function CheckAfter(before: Settlement, after: Settlement, amount: int): Result<(), Failure> {
    Need(after == Settlement(before.recognized, before.settled + amount, before.outstanding - amount),
         ExpenseOutstandingIntegrityConflict)
  }

  /* ---- Verdicts: what each command decides against given tables ---- */

  /** Everything one transaction leaves behind when it commits. */
  datatype Effect = Effect(
    row: OperationRow, facts: Facts, payments: seq<Payment>, provision: Option<PeriodId>, close: Option<PeriodId>)

  function AppliedRow(device: DeviceId, command: Command, response: Response): OperationRow {
    OperationRow(command.Operation(), IdentityOf(device, command), Applied(response))
  }

  function RejectedEffect(device: DeviceId, command: Command, failure: Failure): Effect {
    Effect(OperationRow(command.Operation(), IdentityOf(device, command), Rejected(failure)), NoFacts, [], None, None)
  }

  function CorrectEffect(device: DeviceId, input: CorrectionInput, event: Event, provision: Option<PeriodId>): Effect {
    var facts := CorrectionFacts(input, event);
    Effect(AppliedRow(device, Correct(input), Response(Some(input.target), input.period, facts)), facts, [], provision, None)
  }

  function CorrectVerdict(t: Tables, device: DeviceId, input: CorrectionInput): Result<Effect, Failure> {
    var kind :- ResolveTarget(t.operations, input);
    var event :- LoadActive(t, input, kind);
    var provision :- ResolvePosting(t.periods, input.period);
    var _ :- CheckAccounts(t.accounts, AffectedAccounts(input, event));
    var _ :- CheckProjectedLiability(t.owners, input, event);
    Ok(CorrectEffect(device, input, event, provision))
  }

  function OriginalAccounts(input: OriginalInput): seq<AccountId> {
    if input.domain.InternalTransfer? then [input.account, input.destination] else [input.account]
  }

  function CheckOriginal(owners: seq<OwnerEntry>, input: OriginalInput): Result<(), Failure> {
    match input.domain
    case InternalTransfer => Need(input.account != input.destination, TransferSameAccount)
    case OwnerReimbursement => Need(input.amount <= Sum(owners, Liability()), OwnerLiabilityExceeded)
    case _ => Ok(())
  }

  function PostEffect(device: DeviceId, input: OriginalInput, provision: Option<PeriodId>): Effect {
    var facts := OriginalFacts(input);
    Effect(AppliedRow(device, Post(input), Response(None, input.period, facts)), facts, [], provision, None)
  }

  function PostVerdict(t: Tables, device: DeviceId, input: OriginalInput): Result<Effect, Failure> {
    var provision :- ResolvePosting(t.periods, input.period);
    var _ :- CheckAccounts(t.accounts, OriginalAccounts(input));
    var _ :- CheckOriginal(t.owners, input);
    Ok(PostEffect(device, input, provision))
  }

  function PayEffect(device: DeviceId, input: PaymentInput, provision: Option<PeriodId>): Effect {
    var facts := PaymentFacts(input);
    Effect(AppliedRow(device, Pay(input), Response(None, input.period, facts)), facts, [PostedPaymentRow(input)], provision, None)
  }

  function PaymentAccounts(input: PaymentInput): seq<AccountId> {
    if input.source.FromAccount? then [input.source.account] else []
  }

  /** The reads and checks made before the payment row is inserted. */
  function CheckBeforePayment(t: Tables, input: PaymentInput): Result<Settlement, Failure> {
    var expense :- LockExpense(t.expenses, input.expense);
    var before :- ReadSettlement(t.expenses, t.payments, input.expense);
    var _ :- CheckSettlement(expense, before, input.amount);
    var _ :- CheckAccounts(t.accounts, PaymentAccounts(input));
    Ok(before)
  }

  function CheckAfterPayment(t: Tables, input: PaymentInput, before: Settlement): Result<(), Failure> {
    var after :- ReadSettlement(t.expenses, t.payments + [PostedPaymentRow(input)], input.expense);
    CheckAfter(before, after, input.amount)
  }

  function PayVerdict(t: Tables, device: DeviceId, input: PaymentInput): Result<Effect, Failure> {
    var provision :- ResolvePosting(t.periods, input.period);
    var before :- CheckBeforePayment(t, input);
    var _ :- CheckAfterPayment(t, input, before);
    Ok(PayEffect(device, input, provision))
  }

  /** `blocked` is the answer of the close-blocker query over tables outside this model. */
  function CheckClose(periods: map<PeriodId, Period>, input: CloseInput, blocked: bool): Result<Period, Failure> {
    if input.period !in periods then Err(PeriodNotFound)
    else
      var p := periods[input.period];
      if !p.canonical then Err(PeriodIntegrityConflict)
      else if p.version != input.expectedVersion then Err(PeriodVersionConflict)
      else if p.status.Closing? then Err(PeriodClosing)
      else if p.status.Open? && blocked then Err(PeriodCloseBlocked)
      else Ok(p)
  }

  function CloseEffect(device: DeviceId, input: CloseInput, period: Period): Effect {
    Effect(AppliedRow(device, Close(input), Response(None, input.period, NoFacts)), NoFacts, [], None,
           if period.status.Open? then Some(input.period) else None)
  }

  function CloseVerdict(t: Tables, device: DeviceId, input: CloseInput, blocked: bool): Result<Effect, Failure> {
    var period :- CheckClose(t.periods, input, blocked);
    Ok(CloseEffect(device, input, period))
  }

  function Verdict(t: Tables, device: DeviceId, command: Command, blocked: bool): Result<Effect, Failure> {
    match command
    case Post(i) => PostVerdict(t, device, i)
    case Correct(i) => CorrectVerdict(t, device, i)
    case Close(i) => CloseVerdict(t, device, i, blocked)
    case Pay(i) => PayVerdict(t, device, i)
  }

  /* ---- Committing ---- */

  function InstallPeriods(periods: map<PeriodId, Period>, e: Effect): map<PeriodId, Period> {
    var provisioned := if e.provision.Some? then periods[e.provision.value := Period(Open, 1, true)] else periods;
    if e.close.Some? && e.close.value in provisioned
    then
      var p := provisioned[e.close.value];
      provisioned[e.close.value := p.(status := Closed, version := p.version + 1)]
    else provisioned
  }

  function Install(t: Tables, e: Effect): Tables {
    t.(operations := t.operations + [e.row],
       movements := t.movements + e.facts.movements,
       owners := t.owners + e.facts.owners,
       transfers := t.transfers + e.facts.transfers,
       payments := t.payments + e.payments,
       periods := InstallPeriods(t.periods, e))
  }

  /** What a command meets when its operation id is already recorded. */
  datatype Answer = Stored(status: OperationStatus) | Refused(failure: Failure)

  function Resolve(row: OperationRow, device: DeviceId, command: Command): Answer {
    if row.identity != IdentityOf(device, command) then Refused(OperationIdConflict)
    else if row.status.Processing? then Refused(OperationInProgress)
    else Stored(row.status)
  }

  /** One command run on its own, from its first read to its commit. */
  function Serial(t: Tables, device: DeviceId, command: Command, blocked: bool): (Tables, Answer) {
    match FindOperation(t.operations, command.Operation())
    case Some(row) =>
      var answer := Resolve(row, device, command);
      (if answer == Refused(OperationIdConflict)
       then t.(conflicts := t.conflicts + [Conflict(command.Operation(), IdentityOf(device, command))]) else t, answer)
    case None =>
      match Verdict(t, device, command, blocked)
      case Ok(effect) => (Install(t, effect), Stored(effect.row.status))
      case Err(failure) => (Install(t, RejectedEffect(device, command, failure)), Stored(Rejected(failure)))
  }
}
