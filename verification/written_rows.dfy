/** The rows that an applied command adds: what each of them carries, which earlier row it takes back, and
    what is recorded of the command itself. */
module WrittenRows {
  import opened Wrappers
  import opened Ledger
  import opened History
  import opened Books
  import opened Invariant
  import opened Requested

  /* ---- The rows of a correction ---- */

  /** A row written by `i` carries its period, its time, its group and a correction's type. */
  predicate MovementIsOf(m: Movement, i: CorrectionInput) {
    && m.id.operation == i.operation && m.factOperation == FactOperationId(i.operation, m.id.role) && m.group == i.operation
    && m.period == i.period && m.occurredAt == i.occurredAt && m.movementType == CorrectionMovementType
  }

  predicate EntryIsOf(e: OwnerEntry, i: CorrectionInput) {
    && e.id.operation == i.operation && e.factOperation == FactOperationId(i.operation, e.id.role) && e.group == i.operation
    && e.period == i.period && e.occurredAt == i.occurredAt && e.entryType == CorrectionEntryType
  }

  /** The part a fact plays, whether it was written by an original or by a replacement. */
  function Part(role: Role): Role { if role.Replacement? then role.of else role }

  /** `n` takes back exactly `m`. */
  predicate TakesBack(n: Movement, m: Movement) {
    && n.reversalOf == Some(m.id) && n.id.role == Reversal(Part(m.id.role)) && n.account == m.account && n.delta == -m.delta
    && n.counterAccount == m.counterAccount && n.transferGroup == m.transferGroup
    && (!m.reference.ToOwnerEntry? ==> n.reference == m.reference)
  }

  predicate EntryTakesBack(n: OwnerEntry, e: OwnerEntry) {
    && n.reversalOf == Some(e.id) && n.id.role == Reversal(Part(e.id.role))
    && n.account == e.account && n.liabilityDelta == -e.liabilityDelta && n.equityDelta == -e.equityDelta
  }

  /** A movement and an owner entry that name each other. */
  predicate Paired(m: Movement, e: OwnerEntry) { m.reference == ToOwnerEntry(e.id) && e.reference == ToMoneyMovement(m.id) }

  lemma FactsAreOf(i: CorrectionInput, e: Event)
    ensures var f := CorrectionFacts(i, e);
            && (forall m | m in f.movements :: MovementIsOf(m, i)) && (forall n | n in f.owners :: EntryIsOf(n, i))
  {
  }

  /** Every row that an applied correction adds to movements and owner entries is of that correction, and
      nothing that was recorded changes. */
  lemma CorrectionRowsAreItsOwn(t: Tables, device: DeviceId, i: CorrectionInput, blocked: bool)
    requires Inv(t) && IsApplied(t, device, Correct(i), blocked)
    ensures var u := Serial(t, device, Correct(i), blocked).0;
            && t.movements <= u.movements && t.owners <= u.owners && t.transfers <= u.transfers
            && u.payments == t.payments && u.expenses == t.expenses && u.accounts == t.accounts && u.conflicts == t.conflicts
            && (forall m | m in u.movements[|t.movements|..] :: MovementIsOf(m, i))
            && (forall e | e in u.owners[|t.owners|..] :: EntryIsOf(e, i))
            && u.periods == (if i.period in t.periods then t.periods else t.periods[i.period := Period(Open, 1, true)])
  {
    var target := AppliedCorrection(t, device, i, blocked);
    FactsAreOf(i, EventOf(target).value);
  }

  /* ---- What a correction takes back ---- */

  function EventMovements(e: Event): seq<Movement> {
    if e.TransferEvent? then [e.source, e.destination] else [e.movement]
  }

  /** What stands for a correctable row are the movements of its event, shaped by its domain. */
  predicate StandingShape(m: Movement, domain: Domain) {
    match domain
    case OpeningBalance => Part(m.id.role) == Opening && m.counterAccount.None? && m.transferGroup.None? && m.reference == ToOpeningBalance(m.account)
    case InternalTransfer => m.reference.ToTransfer? && (Part(m.id.role) == TransferSource || Part(m.id.role) == TransferDestination)
    case _ => Part(m.id.role) == OwnerMoney && m.counterAccount.None? && m.transferGroup.None? && m.reference.ToOwnerEntry?
  }

  lemma StandingOfOriginal(history: seq<OperationRow>, row: OperationRow, domain: Domain)
    requires RowOk(history, row) && Correctable(row, domain) && EventOf(row).Some? && row.identity.digest.Post?
    ensures forall m | m in RowFacts(row).movements && m.reversalOf.None? :: m in EventMovements(EventOf(row).value)
    ensures forall m | m in EventMovements(EventOf(row).value) ::
              m in RowFacts(row).movements && m.reversalOf.None? && StandingShape(m, domain)
  {
  }

  lemma StandingOfReplacement(history: seq<OperationRow>, row: OperationRow, domain: Domain)
    requires RowOk(history, row) && Correctable(row, domain) && EventOf(row).Some? && row.identity.digest.Correct?
    ensures forall m | m in RowFacts(row).movements && m.reversalOf.None? :: m in EventMovements(EventOf(row).value)
    ensures forall m | m in EventMovements(EventOf(row).value) ::
              m in RowFacts(row).movements && m.reversalOf.None? && StandingShape(m, domain)
  {
    EventLiesInDomain(FindOperation(history, row.identity.digest.correction.target).value, domain);
  }

  lemma StandingMovements(history: seq<OperationRow>, row: OperationRow, domain: Domain)
    requires RowOk(history, row) && Correctable(row, domain) && EventOf(row).Some?
    ensures forall m | m in RowFacts(row).movements && m.reversalOf.None? :: m in EventMovements(EventOf(row).value)
    ensures forall m | m in EventMovements(EventOf(row).value) ::
              m in RowFacts(row).movements && m.reversalOf.None? && StandingShape(m, domain)
  {
    if row.identity.digest.Post? { StandingOfOriginal(history, row, domain); } else { StandingOfReplacement(history, row, domain); }
  }

  /** The one owner entry of an owner's row that is not a reversal. */
  lemma StandingEntry(history: seq<OperationRow>, row: OperationRow, domain: Domain)
    requires RowOk(history, row) && Correctable(row, domain) && EventOf(row).Some? && EventOf(row).value.OwnerEvent?
    ensures var (m, e) := (EventOf(row).value.movement, EventOf(row).value.entry);
            && e in RowFacts(row).owners && e.reversalOf.None? && e.account == Some(m.account) && Part(e.id.role) == OwnerEntryFact
            && forall n | n in RowFacts(row).owners && n.reversalOf.None? :: n == e
  {
  }

  predicate LegsFit(e: Event) {
    e.TransferEvent? ==>
      && e.source.reference == ToTransfer(e.transfer.id) && e.destination.reference == ToTransfer(e.transfer.id)
      && e.source.transferGroup == Some(e.transfer.id) && e.destination.transferGroup == Some(e.transfer.id)
      && e.source.counterAccount == Some(e.transfer.destination) && e.destination.counterAccount == Some(e.transfer.source)
      && Part(e.source.id.role) == TransferSource && Part(e.destination.id.role) == TransferDestination
  }

  lemma EventLegsFit(history: seq<OperationRow>, row: OperationRow)
    requires RowOk(history, row) && Correctable(row, InternalTransfer)
    ensures EventOf(row).Some? && LegsFit(EventOf(row).value)
  {
    TransferRowShape(history, row);
  }

  /** The facts of a correction take back each movement of its target's event, and nothing else. */
  lemma FactsTakeBack(i: CorrectionInput, e: Event)
    requires EventIn(e, i.domain) && LegsMirrorHeader(e) && LegsFit(e)
    requires forall m | m in EventMovements(e) :: StandingShape(m, i.domain)
    ensures var f := CorrectionFacts(i, e);
            && (forall n | n in f.movements && n.reversalOf.Some? :: exists m :: m in EventMovements(e) && TakesBack(n, m))
            && (forall m | m in EventMovements(e) :: exists n :: n in f.movements && TakesBack(n, m))
  {
    var (f, taken) := (CorrectionFacts(i, e), EventMovements(e));
    assert taken[0] in taken && TakesBack(f.movements[0], taken[0]);
    if e.TransferEvent? {
      assert taken[1] in taken && TakesBack(f.movements[1], taken[1]);
    }
  }

  /** The owner entries of a correction pair off with its movements, and the first takes back its target's. */
  lemma EntriesTakeBack(i: CorrectionInput, e: Event)
    requires Correct(i).WellFormed() && EventIn(e, i.domain) && e.OwnerEvent? && e.entry.account == Some(e.movement.account)
    requires Part(e.entry.id.role) == OwnerEntryFact
    ensures var f := CorrectionFacts(i, e);
            && |f.movements| == |f.owners| == (if i.replacement.Some? then 2 else 1) && f.transfers == []
            && EntryTakesBack(f.owners[0], e.entry)
            && (forall k | 0 <= k < |f.owners| :: Paired(f.movements[k], f.owners[k]))
            && (forall k | 1 <= k < |f.owners| :: f.owners[k].reversalOf.None? && f.owners[k].account == Some(f.movements[k].account))
  {
  }

  /** The header of a replacement transfer: what was asked, from the requested or the former source. */
  predicate IsHeader(h: Transfer, i: CorrectionInput, from: AccountId) {
    && i.replacement.Some?
    && var r := i.replacement.value;
       && h.source == TransferFrom(r, from) && r.destination == Some(h.destination) && h.amount == r.amount
       && h.period == i.period && h.transferAt == i.occurredAt && h.status == PostedTransfer && h.id.operation == i.operation
  }

  lemma FactsHaveHeader(i: CorrectionInput, e: Event)
    requires Correct(i).WellFormed() && EventIn(e, i.domain)
    ensures var f := CorrectionFacts(i, e);
            if e.TransferEvent? && i.replacement.Some?
            then |f.transfers| == 1 && IsHeader(f.transfers[0], i, e.transfer.source) && |f.movements| == 4
            else f.transfers == []
  {
  }

  /** An applied correction takes back every movement that stands for its target, on the same account,
      with the same counterpart and reference, and takes back nothing else. */
  lemma CorrectionTakesBackTarget(t: Tables, device: DeviceId, i: CorrectionInput, blocked: bool)
    requires Inv(t) && IsApplied(t, device, Correct(i), blocked)
    ensures var u := Serial(t, device, Correct(i), blocked).0;
            && |t.movements| <= |u.movements|
            && var added := u.movements[|t.movements|..];
               && (forall n | n in added && n.reversalOf.Some? :: exists m :: m in t.movements && Stands(m, i.target) && TakesBack(n, m))
               && (forall m | m in t.movements && Stands(m, i.target) :: exists n :: n in added && TakesBack(n, m))
  {
    var target := AppliedCorrection(t, device, i, blocked);
    var e := EventOf(target).value;
    TargetMovements(t, i, target);
    FactsTakeBack(i, e);
    var added := Serial(t, device, Correct(i), blocked).0.movements[|t.movements|..];
    assert added == CorrectionFacts(i, e).movements;
    forall n | n in added && n.reversalOf.Some? ensures exists m :: m in t.movements && Stands(m, i.target) && TakesBack(n, m) {
      var m :| m in EventMovements(e) && TakesBack(n, m);
      assert m in t.movements && Stands(m, i.target);
    }
    forall m | m in t.movements && Stands(m, i.target) ensures exists n :: n in added && TakesBack(n, m) {
      assert m in EventMovements(e);
    }
  }

  /** What stands for the target in the tables is its event. */
  lemma TargetMovements(t: Tables, i: CorrectionInput, target: OperationRow)
    requires Inv(t) && FindOperation(t.operations, i.target) == Some(target) && Correctable(target, i.domain) && EventOf(target).Some?
    ensures var e := EventOf(target).value;
            && LegsMirrorHeader(e) && LegsFit(e)
            && (forall m | m in EventMovements(e) :: StandingShape(m, i.domain))
            && (forall m :: m in EventMovements(e) <==> m in t.movements && Stands(m, i.target))
  {
    var k := Found(t.operations, i.target);
    PrefixIsValid(t.operations, k);
    HeldByTheRow(t.operations, i.target);
    RowIsHeld(t.operations, i.target);
    StandingMovements(t.operations[..k], target, i.domain);
    EffectIsEvent(t.operations[..k], target, i.domain, 0);
    FactsAreStamped(t.operations[..k], target);
    EventLiesInDomain(target, i.domain);
    if i.domain.InternalTransfer? { EventLegsFit(t.operations[..k], target); }
  }

  /** A replaced transfer has one new header, for what was asked; other corrections have none. */
  lemma CorrectionHeader(t: Tables, device: DeviceId, i: CorrectionInput, blocked: bool, at: AccountId, from: AccountId)
    requires Inv(t) && Correct(i).WellFormed() && IsApplied(t, device, Correct(i), blocked) && StandsAt(t, i, at, from)
    ensures var u := Serial(t, device, Correct(i), blocked).0;
            if i.domain.InternalTransfer? && i.replacement.Some?
            then |u.transfers| == |t.transfers| + 1 && IsHeader(u.transfers[|t.transfers|], i, from)
            else u.transfers == t.transfers
  {
    var target := AppliedCorrection(t, device, i, blocked);
    TargetStands(t, i, target, at, from);
    FactsHaveHeader(i, EventOf(target).value);
  }

  /** The owner entries of an applied correction pair off with its movements; the first takes back the
      entry that stands for the target. */
  lemma CorrectionEntries(t: Tables, device: DeviceId, i: CorrectionInput, blocked: bool)
    requires Inv(t) && Correct(i).WellFormed() && IsApplied(t, device, Correct(i), blocked)
    requires !i.domain.OpeningBalance? && !i.domain.InternalTransfer?
    ensures var u := Serial(t, device, Correct(i), blocked).0;
            && |u.movements| == |t.movements| + (if i.replacement.Some? then 2 else 1)
            && |u.owners| == |t.owners| + (if i.replacement.Some? then 2 else 1)
            && var (movements, entries) := (u.movements[|t.movements|..], u.owners[|t.owners|..]);
               && (forall k | 0 <= k < |entries| :: Paired(movements[k], entries[k]))
               && (forall e | e in t.owners && e.id.operation == i.target && e.reversalOf.None? :: EntryTakesBack(entries[0], e))
               && (forall k | 1 <= k < |entries| :: entries[k].reversalOf.None? && entries[k].account == Some(movements[k].account))
  {
    var target := AppliedCorrection(t, device, i, blocked);
    var e := EventOf(target).value;
    var k := Found(t.operations, i.target);
    PrefixIsValid(t.operations, k);
    HeldByTheRow(t.operations, i.target);
    StandingEntry(t.operations[..k], target, i.domain);
    EntriesTakeBack(i, e);
    var (u, f) := (Serial(t, device, Correct(i), blocked).0, CorrectionFacts(i, e));
    assert u.movements[|t.movements|..] == f.movements && u.owners[|t.owners|..] == f.owners;
  }

  /* ---- The rows of an original ---- */

  function OriginalType(domain: Domain): MovementType {
    match domain
    case OpeningBalance => OpeningMovement
    case OwnerContribution => ContributionMovement
    case OwnerLoan => LoanMovement
    case OwnerReimbursement => ReimbursementMovement
    case OwnerPersonalWithdrawal => WithdrawalMovement
    case OwnerCapitalWithdrawal => WithdrawalMovement
    case InternalTransfer => TransferMovement
  }

  function OriginalEntryType(domain: Domain): OwnerEntryType {
    match domain
    case OwnerContribution => CapitalContribution
    case OwnerLoan => OwnerLoanToStore
    case OwnerReimbursement => ReimbursementEntry
    case OwnerPersonalWithdrawal => PersonalWithdrawal
    case OwnerCapitalWithdrawal => CapitalWithdrawal
    case _ => CorrectionEntryType
  }

  predicate OriginalMovementIsOf(m: Movement, i: OriginalInput) {
    && m.id.operation == i.operation && m.factOperation == FactOperationId(i.operation, m.id.role) && m.group == i.operation
    && m.period == i.period && m.occurredAt == i.occurredAt && m.movementType == OriginalType(i.domain) && m.reversalOf.None?
  }

  predicate OriginalEntryIsOf(e: OwnerEntry, i: OriginalInput) {
    && e.id.operation == i.operation && e.factOperation == FactOperationId(i.operation, e.id.role) && e.group == i.operation
    && e.period == i.period && e.occurredAt == i.occurredAt && e.entryType == OriginalEntryType(i.domain) && e.reversalOf.None?
  }

  lemma OriginalFactsAreOf(i: OriginalInput)
    ensures var f := OriginalFacts(i);
            && (forall m | m in f.movements :: OriginalMovementIsOf(m, i)) && (forall e | e in f.owners :: OriginalEntryIsOf(e, i))
            && (i.domain.InternalTransfer? ==>
                  |f.transfers| == 1
                  && var h := f.transfers[0];
                     && h.source == i.account && h.destination == i.destination && h.amount == i.amount && h.period == i.period
                     && h.transferAt == i.occurredAt && h.status == PostedTransfer && h.id.operation == i.operation)
            && (!i.domain.InternalTransfer? ==> f.transfers == [])
  {
  }

  /** Every row of an applied original carries what was asked; a transfer's header names its accounts. */
  lemma OriginalRowsAreItsOwn(t: Tables, device: DeviceId, i: OriginalInput, blocked: bool)
    requires IsApplied(t, device, Post(i), blocked)
    ensures var u := Serial(t, device, Post(i), blocked).0;
            && t.movements <= u.movements && t.owners <= u.owners && t.transfers <= u.transfers
            && u.payments == t.payments && u.expenses == t.expenses && u.accounts == t.accounts && u.conflicts == t.conflicts
            && (forall m | m in u.movements[|t.movements|..] :: OriginalMovementIsOf(m, i))
            && (forall e | e in u.owners[|t.owners|..] :: OriginalEntryIsOf(e, i))
            && |u.transfers| == |t.transfers| + (if i.domain.InternalTransfer? then 1 else 0)
            && (i.domain.InternalTransfer? ==>
                  var h := u.transfers[|t.transfers|];
                  && h.source == i.account && h.destination == i.destination && h.amount == i.amount && h.period == i.period
                  && h.transferAt == i.occurredAt && h.status == PostedTransfer && h.id.operation == i.operation)
            && u.periods == (if i.period in t.periods then t.periods else t.periods[i.period := Period(Open, 1, true)])
  {
    AppliedOriginal(t, device, i, blocked);
    OriginalFactsAreOf(i);
  }

  /** An opening's reference is its account, an owner command's movement and entry name each other, and the
      legs of a transfer name the header and each other's account. */
  lemma OriginalReferences(t: Tables, device: DeviceId, i: OriginalInput, blocked: bool)
    requires IsApplied(t, device, Post(i), blocked)
    ensures var u := Serial(t, device, Post(i), blocked).0;
            && |t.movements| <= |u.movements| && |t.owners| <= |u.owners| && |t.transfers| <= |u.transfers|
            && var (m, e, h) := (u.movements[|t.movements|..], u.owners[|t.owners|..], u.transfers[|t.transfers|..]);
               match i.domain
               case OpeningBalance => (forall x | x in m :: x.reference == ToOpeningBalance(i.account) && x.counterAccount.None?) && e == []
               case InternalTransfer =>
                 && |m| == 2 && |h| == 1 && e == []
                 && h[0].sourceMovement == m[0].id && h[0].destinationMovement == m[1].id
                 && (forall x | x in m :: x.reference == ToTransfer(h[0].id) && x.transferGroup == Some(h[0].id))
                 && m[0].counterAccount == Some(i.destination) && m[1].counterAccount == Some(i.account)
               case _ => |m| == |e| == 1 && Paired(m[0], e[0]) && e[0].account == Some(i.account)
  {
    AppliedOriginal(t, device, i, blocked);
    var (u, f) := (Serial(t, device, Post(i), blocked).0, OriginalFacts(i));
    assert u.movements[|t.movements|..] == f.movements && u.owners[|t.owners|..] == f.owners && u.transfers[|t.transfers|..] == f.transfers;
  }

  /* ---- The rows of a payment ---- */

  /** A payment adds one posted payment and the one fact that backs it, and they name each other. */
  lemma PaymentRowsAreItsOwn(t: Tables, device: DeviceId, i: PaymentInput, blocked: bool)
    requires IsApplied(t, device, Pay(i), blocked)
    ensures var u := Serial(t, device, Pay(i), blocked).0;
            && |u.payments| == |t.payments| + 1 && t.payments <= u.payments && t.movements <= u.movements && t.owners <= u.owners
            && u.transfers == t.transfers && u.expenses == t.expenses && u.accounts == t.accounts && u.conflicts == t.conflicts
            && u.periods == (if i.period in t.periods then t.periods else t.periods[i.period := Period(Open, 1, true)])
            && var (p, m, e) := (u.payments[|t.payments|], u.movements[|t.movements|..], u.owners[|t.owners|..]);
               && p.id.operation == i.operation && p.expense == i.expense && p.amount == i.amount && p.source == i.source
               && p.period == i.period && p.paymentAt == i.occurredAt && p.status == PostedPayment
               && (if i.source.FromAccount?
                   then |m| == 1 && e == [] && p.moneyMovement == Some(m[0].id) && p.ownerEntry.None? && m[0].reference == ToPayment(p.id)
                        && m[0].movementType == ExpensePaymentMovement && m[0].period == i.period && m[0].occurredAt == i.occurredAt
                        && m[0].id.operation == i.operation && m[0].group == i.operation && m[0].reversalOf.None?
                   else m == [] && |e| == 1 && p.ownerEntry == Some(e[0].id) && p.moneyMovement.None? && e[0].reference == ToPayment(p.id)
                        && e[0].entryType == OwnerPaidExpense && e[0].period == i.period && e[0].occurredAt == i.occurredAt
                        && e[0].id.operation == i.operation && e[0].group == i.operation && e[0].reversalOf.None? && e[0].account.None?)
  {
    AppliedPayment(t, device, i, blocked);
    var (u, f) := (Serial(t, device, Pay(i), blocked).0, PaymentFacts(i));
    assert u.movements[|t.movements|..] == f.movements && u.owners[|t.owners|..] == f.owners;
  }

  /* ---- The operation's own row ---- */

  function PeriodOf(command: Command): PeriodId {
    match command
    case Post(i) => i.period
    case Correct(i) => i.period
    case Close(i) => i.period
    case Pay(i) => i.period
  }

  /** A new command leaves one row with its device, its request and its outcome. An applied outcome reports
      the period, the corrected operation and exactly the facts added; a rejection adds nothing else. */
  lemma OperationIsRecorded(t: Tables, device: DeviceId, command: Command, blocked: bool)
    requires FindOperation(t.operations, command.Operation()).None?
    ensures var (u, answer) := Serial(t, device, command, blocked);
            && |u.operations| == |t.operations| + 1 && t.operations <= u.operations && answer.Stored?
            && var row := u.operations[|t.operations|];
               && row.operation == command.Operation() && row.status == answer.status
               && row.identity.device == device && row.identity.digest == command
               && match row.status
                  case Applied(response) =>
                    && response.period == PeriodOf(command)
                    && response.target == (if command.Correct? then Some(command.correction.target) else None)
                    && u.movements == t.movements + response.facts.movements && u.owners == t.owners + response.facts.owners
                    && u.transfers == t.transfers + response.facts.transfers
                  case Rejected(_) => u == t.(operations := u.operations)
                  case Processing => false
  {
    match Verdict(t, device, command, blocked)
    case Ok(effect) => VerdictIsApplied(t, device, command, blocked);
    case Err(failure) => NothingIsInstalled(t, device, command, failure);
  }

  lemma NothingIsInstalled(t: Tables, device: DeviceId, command: Command, failure: Failure)
    ensures var u := Install(t, RejectedEffect(device, command, failure)); u == t.(operations := u.operations)
  {
    assert t.movements + [] == t.movements && t.owners + [] == t.owners;
    assert t.transfers + [] == t.transfers && t.payments + [] == t.payments;
  }

  /** Two requests have the same identity exactly when device and request are the same. */
  lemma IdentityIsOneToOne(device: DeviceId, command: Command, otherDevice: DeviceId, other: Command)
    ensures IdentityOf(device, command) == IdentityOf(otherDevice, other) <==> device == otherDevice && command == other
  {
  }
}
