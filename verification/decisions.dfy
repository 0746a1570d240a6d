/** When each command is applied and when it is refused, and as what, in terms of the tables and the
    request alone. The reasons are given in the order in which they are looked for. */
module Decisions {
  import opened Wrappers
  import opened Ledger
  import opened History
  import opened Books
  import opened Invariant
  import opened Guarantees
  import opened Requested
  import opened WrittenRows

  /** A new command, run alone, is stored as refused. */
  predicate IsRefused(t: Tables, device: DeviceId, command: Command, blocked: bool, failure: Failure) {
    && FindOperation(t.operations, command.Operation()).None?
    && Serial(t, device, command, blocked).1 == Stored(Rejected(failure))
  }

  lemma AppliedMeansOk(t: Tables, device: DeviceId, command: Command, blocked: bool)
    requires FindOperation(t.operations, command.Operation()).None?
    ensures IsApplied(t, device, command, blocked) <==> Verdict(t, device, command, blocked).Ok?
    ensures forall f :: IsRefused(t, device, command, blocked, f) <==> Verdict(t, device, command, blocked) == Err(f)
  {
    if Verdict(t, device, command, blocked).Ok? { VerdictIsApplied(t, device, command, blocked); }
  }

  /* ---- The gates ---- */

  /** A month takes postings when it has no row yet, or a canonical one that is open. */
  predicate TakesPostings(t: Tables, p: PeriodId) {
    p in t.periods ==> t.periods[p].canonical && t.periods[p].status == Open
  }

  predicate Usable(t: Tables, a: AccountId) { a in t.accounts && t.accounts[a] }

  predicate AllUsable(t: Tables, wanted: seq<AccountId>) { forall k | 0 <= k < |wanted| :: Usable(t, wanted[k]) }

  /** The first account of the list that is not usable is missing. */
  predicate FirstIsMissing(t: Tables, wanted: seq<AccountId>) {
    exists k | 0 <= k < |wanted| :: wanted[k] !in t.accounts && AllUsable(t, wanted[..k])
  }

  /** The first account of the list that is not usable is there. */
  predicate FirstIsUnavailable(t: Tables, wanted: seq<AccountId>) {
    exists k | 0 <= k < |wanted| :: wanted[k] in t.accounts && !t.accounts[wanted[k]] && AllUsable(t, wanted[..k])
  }

  lemma {:induction false} AccountsDecide(t: Tables, wanted: seq<AccountId>)
    ensures CheckAccounts(t.accounts, wanted) == Ok(()) <==> AllUsable(t, wanted)
    ensures CheckAccounts(t.accounts, wanted) == Err(AccountNotFound) <==> FirstIsMissing(t, wanted)
    ensures CheckAccounts(t.accounts, wanted) == Err(AccountUnavailable) <==> FirstIsUnavailable(t, wanted)
    ensures var r := CheckAccounts(t.accounts, wanted); r.Ok? || r.error == AccountNotFound || r.error == AccountUnavailable
  {
    if wanted != [] {
      AccountsDecide(t, wanted[1..]);
      assert wanted[..0] == [];
      assert wanted == [wanted[0]] + wanted[1..];
      if Usable(t, wanted[0]) {
        UsableMoves(t, wanted[0], wanted[1..]);
        MissingMoves(t, wanted[0], wanted[1..]);
        UnavailableMoves(t, wanted[0], wanted[1..]);
      }
    }
  }

  lemma UsableMoves(t: Tables, first: AccountId, rest: seq<AccountId>)
    requires Usable(t, first)
    ensures AllUsable(t, [first] + rest) <==> AllUsable(t, rest)
    ensures forall k | 0 <= k <= |rest| :: AllUsable(t, ([first] + rest)[..k + 1]) <==> AllUsable(t, rest[..k])
  {
    forall some: seq<AccountId> ensures AllUsable(t, [first] + some) <==> AllUsable(t, some) {
      assert forall k | 0 <= k < |some| :: ([first] + some)[k + 1] == some[k];
    }
    forall k | 0 <= k <= |rest| ensures AllUsable(t, ([first] + rest)[..k + 1]) <==> AllUsable(t, rest[..k]) {
      assert ([first] + rest)[..k + 1] == [first] + rest[..k];
    }
  }

  lemma MissingMoves(t: Tables, first: AccountId, rest: seq<AccountId>)
    requires Usable(t, first)
    ensures FirstIsMissing(t, [first] + rest) <==> FirstIsMissing(t, rest)
  {
    var whole := [first] + rest;
    UsableMoves(t, first, rest);
    if FirstIsMissing(t, rest) {
      var k :| 0 <= k < |rest| && rest[k] !in t.accounts && AllUsable(t, rest[..k]);
      assert whole[k + 1] !in t.accounts && AllUsable(t, whole[..k + 1]);
    }
    if FirstIsMissing(t, whole) {
      var k :| 0 <= k < |whole| && whole[k] !in t.accounts && AllUsable(t, whole[..k]);
      assert rest[k - 1] !in t.accounts && AllUsable(t, rest[..k - 1]);
    }
  }

  lemma UnavailableMoves(t: Tables, first: AccountId, rest: seq<AccountId>)
    requires Usable(t, first)
    ensures FirstIsUnavailable(t, [first] + rest) <==> FirstIsUnavailable(t, rest)
  {
    var whole := [first] + rest;
    UsableMoves(t, first, rest);
    if FirstIsUnavailable(t, rest) {
      var k :| 0 <= k < |rest| && rest[k] in t.accounts && !t.accounts[rest[k]] && AllUsable(t, rest[..k]);
      assert whole[k + 1] in t.accounts && !t.accounts[whole[k + 1]] && AllUsable(t, whole[..k + 1]);
    }
    if FirstIsUnavailable(t, whole) {
      var k :| 0 <= k < |whole| && whole[k] in t.accounts && !t.accounts[whole[k]] && AllUsable(t, whole[..k]);
      assert rest[k - 1] in t.accounts && !t.accounts[rest[k - 1]] && AllUsable(t, rest[..k - 1]);
    }
  }

  /* ---- Payments ---- */

  predicate TakesPayments(t: Tables, e: ExpenseId) {
    e in t.expenses && t.expenses[e].status == PostedExpense && t.expenses[e].dueLater
  }

  /** What is still due on an expense. */
  function Due(t: Tables, e: ExpenseId): int
    requires e in t.expenses
  {
    t.expenses[e].amount - Sum(t.payments, PaidOn(e))
  }

  function PaysFrom(i: PaymentInput): seq<AccountId> { if i.source.FromAccount? then [i.source.account] else [] }

  /** The settlement of a payable expense, and what is looked at in it. */
  lemma PayableChecks(t: Tables, i: PaymentInput)
    requires Inv(t) && Pay(i).WellFormed() && TakesPayments(t, i.expense)
    ensures CheckBeforePayment(t, i)
         == if Due(t, i.expense) == 0 then Err(ExpenseAlreadySettled)
            else if i.amount > Due(t, i.expense) then Err(PaymentExceedsOutstanding)
            else match CheckAccounts(t.accounts, PaysFrom(i))
                 case Ok(_) => ReadSettlement(t.expenses, t.payments, i.expense)
                 case Err(f) => Err(f)
    ensures ReadSettlement(t.expenses, t.payments, i.expense).Ok? && Due(t, i.expense) >= 0
    ensures CheckAfterPayment(t, i, ReadSettlement(t.expenses, t.payments, i.expense).value).Ok?
  {
    SettlementIsConsistent(t, i.expense);
    AfterCheckNeverFires(t, i, ReadSettlement(t.expenses, t.payments, i.expense).value);
  }

  /** What is looked at once the month takes the payment. */
  lemma PaymentChecks(t: Tables, i: PaymentInput)
    requires Inv(t) && Pay(i).WellFormed()
    ensures var c := CheckBeforePayment(t, i);
            && (c.Ok? <==> TakesPayments(t, i.expense) && i.amount <= Due(t, i.expense) && AllUsable(t, PaysFrom(i)))
            && (c.Ok? ==> CheckAfterPayment(t, i, c.value).Ok?)
            && (c == Err(ExpenseNotFound) <==> i.expense !in t.expenses)
            && (c == Err(ExpenseNotSettlementEligible) <==> i.expense in t.expenses && !TakesPayments(t, i.expense))
            && (c == Err(ExpenseAlreadySettled) <==> TakesPayments(t, i.expense) && Due(t, i.expense) == 0)
            && (c == Err(PaymentExceedsOutstanding) <==> TakesPayments(t, i.expense) && 0 != Due(t, i.expense) < i.amount)
            && (c == Err(AccountNotFound)
                <==> TakesPayments(t, i.expense) && i.amount <= Due(t, i.expense) && i.source.FromAccount? && i.source.account !in t.accounts)
            && (c == Err(AccountUnavailable)
                <==> TakesPayments(t, i.expense) && i.amount <= Due(t, i.expense) && i.source.FromAccount?
                     && i.source.account in t.accounts && !t.accounts[i.source.account])
            && c != Err(PeriodIntegrityConflict) && c != Err(PeriodNotPostingEligible)
  {
    AccountsDecide(t, PaysFrom(i));
    if TakesPayments(t, i.expense) {
      PayableChecks(t, i);
      OneAccount(t, i);
    }
  }

  lemma OneAccount(t: Tables, i: PaymentInput)
    ensures FirstIsMissing(t, PaysFrom(i)) <==> i.source.FromAccount? && i.source.account !in t.accounts
    ensures FirstIsUnavailable(t, PaysFrom(i))
            <==> i.source.FromAccount? && i.source.account in t.accounts && !t.accounts[i.source.account]
  {
    assert PaysFrom(i)[..0] == [];
  }

  /** A payment is applied exactly when its month takes postings, its expense is posted and due later, it
      is no more than is due, and its account is usable; part payments are. */
  lemma PaymentDecides(t: Tables, device: DeviceId, i: PaymentInput)
    requires Inv(t) && Pay(i).WellFormed()
    ensures var v := PayVerdict(t, device, i);
            && (v.Ok? <==> TakesPostings(t, i.period) && TakesPayments(t, i.expense) && i.amount <= Due(t, i.expense) && AllUsable(t, PaysFrom(i)))
            && (v == Err(PeriodIntegrityConflict) <==> i.period in t.periods && !t.periods[i.period].canonical)
            && (v == Err(PeriodNotPostingEligible) <==> i.period in t.periods && t.periods[i.period].canonical && t.periods[i.period].status != Open)
            && (v == Err(ExpenseNotFound) <==> TakesPostings(t, i.period) && i.expense !in t.expenses)
            && (v == Err(ExpenseNotSettlementEligible)
                <==> TakesPostings(t, i.period) && i.expense in t.expenses && !TakesPayments(t, i.expense))
            && (v == Err(ExpenseAlreadySettled) <==> TakesPostings(t, i.period) && TakesPayments(t, i.expense) && Due(t, i.expense) == 0)
            && (v == Err(PaymentExceedsOutstanding)
                <==> TakesPostings(t, i.period) && TakesPayments(t, i.expense) && 0 != Due(t, i.expense) < i.amount)
            && (v == Err(AccountNotFound)
                <==> TakesPostings(t, i.period) && TakesPayments(t, i.expense) && i.amount <= Due(t, i.expense)
                     && i.source.FromAccount? && i.source.account !in t.accounts)
            && (v == Err(AccountUnavailable)
                <==> TakesPostings(t, i.period) && TakesPayments(t, i.expense) && i.amount <= Due(t, i.expense)
                     && i.source.FromAccount? && i.source.account in t.accounts && !t.accounts[i.source.account])
  {
    PaymentChecks(t, i);
    PaymentOrder(t, device, i);
  }

  lemma PaymentOrder(t: Tables, device: DeviceId, i: PaymentInput)
    requires CheckBeforePayment(t, i).Ok? ==> CheckAfterPayment(t, i, CheckBeforePayment(t, i).value).Ok?
    ensures var (v, c) := (PayVerdict(t, device, i), CheckBeforePayment(t, i));
            if i.period in t.periods && !t.periods[i.period].canonical then v == Err(PeriodIntegrityConflict)
            else if i.period in t.periods && t.periods[i.period].status != Open then v == Err(PeriodNotPostingEligible)
            else if c.Ok? then v.Ok? else v == Err(c.error)
  {
  }

  /* ---- Closing ---- */

  /** `blocked` says that something unfinished lies in the period. */
  lemma CloseDecides(t: Tables, device: DeviceId, i: CloseInput, blocked: bool)
    ensures var v := CloseVerdict(t, device, i, blocked);
            if i.period !in t.periods then v == Err(PeriodNotFound)
            else
              var p := t.periods[i.period];
              && (v.Ok? <==> p.canonical && p.version == i.expectedVersion && (p.status == Closed || (p.status == Open && !blocked)))
              && (v == Err(PeriodIntegrityConflict) <==> !p.canonical)
              && (v == Err(PeriodVersionConflict) <==> p.canonical && p.version != i.expectedVersion)
              && (v == Err(PeriodClosing) <==> p.canonical && p.version == i.expectedVersion && p.status == Closing)
              && (v == Err(PeriodCloseBlocked) <==> p.canonical && p.version == i.expectedVersion && p.status == Open && blocked)
  {
  }

  /** An applied close leaves everything but its period as it was. */
  lemma CloseDoesWhatIsAsked(t: Tables, device: DeviceId, i: CloseInput, blocked: bool)
    requires IsApplied(t, device, Close(i), blocked)
    ensures var u := Serial(t, device, Close(i), blocked).0;
            && i.period in t.periods && u == t.(operations := u.operations, periods := u.periods)
            && u.periods == (if t.periods[i.period].status == Open
                             then t.periods[i.period := Period(Closed, i.expectedVersion + 1, true)] else t.periods)
  {
    var period := CheckClose(t.periods, i, blocked).value;
    assert t.movements + [] == t.movements && t.owners + [] == t.owners;
    assert t.transfers + [] == t.transfers && t.payments + [] == t.payments;
  }

  /* ---- Originals ---- */

  function PostsOn(i: OriginalInput): seq<AccountId> {
    if i.domain == InternalTransfer then [i.account, i.destination] else [i.account]
  }

  lemma OriginalDecides(t: Tables, device: DeviceId, i: OriginalInput)
    ensures var v := PostVerdict(t, device, i);
            && (v.Ok? <==>
                  && TakesPostings(t, i.period) && AllUsable(t, PostsOn(i))
                  && (i.domain == InternalTransfer ==> i.account != i.destination)
                  && (i.domain == OwnerReimbursement ==> i.amount <= Sum(t.owners, Liability())))
            && (v == Err(PeriodIntegrityConflict) <==> i.period in t.periods && !t.periods[i.period].canonical)
            && (v == Err(PeriodNotPostingEligible) <==> i.period in t.periods && t.periods[i.period].canonical && t.periods[i.period].status != Open)
            && (v == Err(AccountNotFound) <==> TakesPostings(t, i.period) && FirstIsMissing(t, PostsOn(i)))
            && (v == Err(AccountUnavailable) <==> TakesPostings(t, i.period) && FirstIsUnavailable(t, PostsOn(i)))
            && (v == Err(TransferSameAccount)
                <==> TakesPostings(t, i.period) && AllUsable(t, PostsOn(i)) && i.domain == InternalTransfer && i.account == i.destination)
            && (v == Err(OwnerLiabilityExceeded)
                <==> TakesPostings(t, i.period) && AllUsable(t, PostsOn(i)) && i.domain == OwnerReimbursement
                     && i.amount > Sum(t.owners, Liability()))
  {
    AccountsDecide(t, OriginalAccounts(i));
  }

  /* ---- Corrections: the target ---- */

  predicate IsRowOf(t: Tables, operation: OperationId, row: OperationRow) { row in t.operations && row.operation == operation }

  /** An applied correction names the operation. */
  predicate IsSuperseded(t: Tables, operation: OperationId) {
    exists row | row in t.operations ::
      row.status.Applied? && row.identity.digest.Correct? && row.identity.digest.correction.target == operation
  }

  /** The row put an event of the domain into the books: an original, or a replacement. */
  predicate Fits(row: OperationRow, domain: Domain) {
    && row.status.Applied?
    && match row.identity.digest
       case Post(o) => o.domain == domain
       case Correct(c) => c.kind == ReplacementKind && c.domain == domain
       case _ => false
  }

  predicate IsReversal(row: OperationRow) {
    row.status.Applied? && row.identity.digest.Correct? && row.identity.digest.correction.kind == ReversalKind
  }

  /** An applied command of another kind or another domain. */
  predicate IsForeign(row: OperationRow, domain: Domain) {
    && row.status.Applied?
    && match row.identity.digest
       case Post(o) => o.domain != domain
       case Correct(c) => c.kind == ReplacementKind && c.domain != domain
       case _ => true
  }

  /** An opening balance of zero put nothing into the books. */
  predicate IsZeroOpening(row: OperationRow) {
    row.identity.digest.Post? && row.identity.digest.original.domain == OpeningBalance && row.identity.digest.original.amount == 0
  }

  lemma {:induction false} TargetsAreNamed(rows: seq<OperationRow>, operation: OperationId)
    requires ValidHistory(rows)
    ensures operation in Targets(rows)
            <==> exists row | row in rows :: row.status.Applied? && row.identity.digest.Correct? && row.identity.digest.correction.target == operation
  {
    if rows != [] {
      var (prefix, last) := (rows[..|rows| - 1], rows[|rows| - 1]);
      TargetsAreNamed(prefix, operation);
      assert rows == prefix + [last];
    }
  }

  lemma RowIsFound(t: Tables, row: OperationRow)
    requires Inv(t) && row in t.operations
    ensures FindOperation(t.operations, row.operation) == Some(row)
    ensures exists k :: 0 <= k < |t.operations| && t.operations[k] == row && RowOk(t.operations[..k], row)
  {
    var k :| 0 <= k < |t.operations| && t.operations[k] == row;
    FindInPrefix(t.operations, k);
    PrefixIsValid(t.operations, k);
  }

  lemma FittingIsCorrectable(history: seq<OperationRow>, row: OperationRow, domain: Domain)
    requires RowOk(history, row)
    ensures Fits(row, domain) <==> Correctable(row, domain)
  {
  }

  lemma KindDecides(history: seq<OperationRow>, row: OperationRow, i: CorrectionInput)
    requires RowOk(history, row) && row.operation == i.target
    ensures var k := ResolveTargetKind(Some(row), i.target, i.domain);
            && (Fits(row, i.domain) ==> k == Ok(KindOf(row)))
            && (IsForeign(row, i.domain) ==> k == Err(DomainMismatch))
            && (!row.status.Applied? || IsReversal(row) ==> k == Err(TargetNotActive))
  {
    FittingIsCorrectable(history, row, i.domain);
    if row.status.Applied? { KindIsResolved(history, row, i); }
  }

  lemma {:induction false} NotRecorded(rows: seq<OperationRow>, operation: OperationId)
    requires forall row | row in rows :: row.operation != operation
    ensures FindOperation(rows, operation).None?
  {
    if rows != [] { NotRecorded(rows[..|rows| - 1], operation); }
  }

  /** No recorded operation has the target's id. */
  lemma CorrectionWithoutTarget(t: Tables, device: DeviceId, i: CorrectionInput)
    requires forall row | row in t.operations :: row.operation != i.target
    ensures CorrectVerdict(t, device, i) == Err(if i.target == i.operation then TargetNotActive else TargetNotFound)
  {
    NotRecorded(t.operations, i.target);
  }

  /** What is read of a target that fits. */
  lemma FittingTargetLoads(t: Tables, i: CorrectionInput, row: OperationRow)
    requires Inv(t) && IsRowOf(t, i.target, row) && i.target != i.operation && Fits(row, i.domain)
    ensures ResolveTarget(t.operations, i) == Ok(KindOf(row))
    ensures i.target in Targets(t.operations) <==> IsSuperseded(t, i.target)
    ensures EventOf(row).None? <==> IsZeroOpening(row)
    ensures EventOf(row).None? ==> i.target !in Targets(t.operations)
    ensures LoadEvent(t, i.target, i.domain, KindOf(row))
         == if EventOf(row).Some? then Ok(EventOf(row).value) else Err(TargetIntegrityConflict)
    ensures EventOf(row).Some? ==> EventIn(EventOf(row).value, i.domain)
  {
    RowIsFound(t, row);
    var k :| 0 <= k < |t.operations| && t.operations[k] == row && RowOk(t.operations[..k], row);
    KindDecides(t.operations[..k], row, i);
    FittingIsCorrectable(t.operations[..k], row, i.domain);
    TargetsAreNamed(t.operations, i.target);
    LoaderAcceptsWriter(t, t.operations[..k], row, i.domain);
    if i.target in Targets(t.operations) { NothingToSupersede(t.operations, i.target); }
  }

  lemma LoadedTarget(t: Tables, device: DeviceId, i: CorrectionInput, kind: TargetKind, event: Option<Event>)
    requires ResolveTarget(t.operations, i) == Ok(kind)
    requires LoadEvent(t, i.target, i.domain, kind) == if event.Some? then Ok(event.value) else Err(TargetIntegrityConflict)
    ensures CorrectVerdict(t, device, i)
         == if i.target in Targets(t.operations) then Err(TargetNotActive)
            else if event.None? then Err(TargetIntegrityConflict)
            else Remaining(t, device, i, event.value)
  {
  }

  /** What the verdict goes on with when the target fits. */
  lemma FittingTarget(t: Tables, device: DeviceId, i: CorrectionInput, row: OperationRow)
    requires Inv(t) && IsRowOf(t, i.target, row) && i.target != i.operation && Fits(row, i.domain)
    ensures EventOf(row).Some? ==> EventIn(EventOf(row).value, i.domain)
    ensures EventOf(row).None? <==> IsZeroOpening(row)
    ensures IsZeroOpening(row) ==> !IsSuperseded(t, i.target)
    ensures CorrectVerdict(t, device, i)
         == if IsSuperseded(t, i.target) then Err(TargetNotActive)
            else if EventOf(row).None? then Err(TargetIntegrityConflict)
            else Remaining(t, device, i, EventOf(row).value)
  {
    FittingTargetLoads(t, i, row);
    LoadedTarget(t, device, i, KindOf(row), EventOf(row));
  }

  /** The verdict from the loaded event on. */
  function Remaining(t: Tables, device: DeviceId, i: CorrectionInput, event: Event): Result<Effect, Failure> {
    var _ :- CheckReplacement(i, event);
    var provision :- ResolvePosting(t.periods, i.period);
    var _ :- CheckAccounts(t.accounts, AffectedAccounts(i, event));
    var _ :- CheckProjectedLiability(t.owners, i, event);
    Ok(CorrectEffect(device, i, event, provision))
  }

  lemma RemainingNeverAbout(t: Tables, device: DeviceId, i: CorrectionInput, event: Event)
    requires Correct(i).WellFormed() && EventIn(event, i.domain)
    ensures var v := Remaining(t, device, i, event);
            v != Err(TargetNotFound) && v != Err(TargetNotActive) && v != Err(DomainMismatch) && v != Err(TargetIntegrityConflict)
  {
    AccountsDecide(t, AffectedAccounts(i, event));
  }

  /** Which targets are refused, and why. */
  lemma CorrectionTargets(t: Tables, device: DeviceId, i: CorrectionInput, row: OperationRow)
    requires Inv(t) && Correct(i).WellFormed() && IsRowOf(t, i.target, row)
    ensures var v := CorrectVerdict(t, device, i);
            && (v.Ok? ==> i.target != i.operation && Fits(row, i.domain) && !IsSuperseded(t, i.target) && !IsZeroOpening(row))
            && (v == Err(TargetNotActive)
                <==> i.target == i.operation || !row.status.Applied? || IsReversal(row) || (Fits(row, i.domain) && IsSuperseded(t, i.target)))
            && (v == Err(DomainMismatch) <==> i.target != i.operation && IsForeign(row, i.domain))
            && (v == Err(TargetIntegrityConflict) <==> i.target != i.operation && Fits(row, i.domain) && IsZeroOpening(row))
            && v != Err(TargetNotFound)
  {
    if i.target != i.operation {
      if Fits(row, i.domain) {
        FittingTarget(t, device, i, row);
        if !IsSuperseded(t, i.target) && !IsZeroOpening(row) { RemainingNeverAbout(t, device, i, EventOf(row).value); }
      } else {
        RowIsFound(t, row);
        var k :| 0 <= k < |t.operations| && t.operations[k] == row && RowOk(t.operations[..k], row);
        KindDecides(t.operations[..k], row, i);
      }
    }
  }

  /* ---- Corrections: the request ---- */

  /** What stands for the target: a movement, or the header of a transfer. */
  ghost predicate IsStanding(t: Tables, i: CorrectionInput, m: Movement, h: Transfer) {
    if i.domain == InternalTransfer then h in t.transfers && h.id.operation == i.target
    else m in t.movements && Stands(m, i.target)
  }

  /** The request asks for exactly what stands. */
  predicate ChangesNothing(i: CorrectionInput, m: Movement, h: Transfer) {
    && i.replacement.Some?
    && var r := i.replacement.value;
       match i.domain
       case OpeningBalance => r.amount == m.delta
       case InternalTransfer => r.amount == h.amount && TransferFrom(r, h.source) == h.source && r.destination == Some(h.destination)
       case _ => r.account == Some(m.account) && (r.amount == m.delta || r.amount == -m.delta)
  }

  /** The request asks for a transfer of an account to itself. */
  predicate GoesNowhere(i: CorrectionInput, h: Transfer) {
    i.domain == InternalTransfer && i.replacement.Some? && i.replacement.value.destination == Some(TransferFrom(i.replacement.value, h.source))
  }

  function Listed(a: Option<AccountId>): seq<AccountId> { if a.Some? then [a.value] else [] }

  /** The accounts of what stands and of what is asked for. */
  function Touches(i: CorrectionInput, m: Movement, h: Transfer): seq<AccountId> {
    if i.domain == InternalTransfer then
      [h.source, h.destination]
      + (if i.replacement.Some? then Listed(i.replacement.value.source) + Listed(i.replacement.value.destination) else [])
    else [m.account] + (if i.replacement.Some? then Listed(i.replacement.value.account) else [])
  }

  /** The store would owe the owner less than nothing. */
  predicate Overdraws(t: Tables, i: CorrectionInput) {
    && (i.domain == OwnerLoan || i.domain == OwnerReimbursement)
    && Sum(t.owners, Liability()) - Sum(t.owners, LiabilityStanding(i.target)) + ReplacementLiability(i) < 0
  }

  /** The event of the target, seen as what stands for it. */
  predicate IsEvent(e: Event, i: CorrectionInput, m: Movement, h: Transfer) {
    if i.domain == InternalTransfer then e.TransferEvent? && e.transfer == h else !e.TransferEvent? && e.movement == m
  }

  lemma StandingIsTheEvent(t: Tables, i: CorrectionInput, row: OperationRow, m: Movement, h: Transfer)
    requires Inv(t) && IsRowOf(t, i.target, row) && Fits(row, i.domain) && EventOf(row).Some? && IsStanding(t, i, m, h)
    ensures IsEvent(EventOf(row).value, i, m, h)
    ensures EventLiability(EventOf(row).value) == Sum(t.owners, LiabilityStanding(i.target))
  {
    RowIsFound(t, row);
    var k :| 0 <= k < |t.operations| && t.operations[k] == row && RowOk(t.operations[..k], row);
    FittingIsCorrectable(t.operations[..k], row, i.domain);
    TargetEffect(t, row, i.domain, 0);
    TargetMovements(t, i, row);
    HeldByTheRow(t.operations, i.target);
    EventLiesInDomain(row, i.domain);
    if i.domain == InternalTransfer { TransferRowShape(t.operations[..k], row); }
  }

  lemma ChangesDecide(i: CorrectionInput, e: Event, m: Movement, h: Transfer)
    requires Correct(i).WellFormed() && EventIn(e, i.domain) && IsEvent(e, i, m, h)
    ensures CheckReplacement(i, e)
         == if GoesNowhere(i, h) then Err(TransferSameAccount)
            else if ChangesNothing(i, m, h) then Err(NoOp) else Ok(())
  {
  }

  lemma TouchedAccounts(i: CorrectionInput, e: Event, m: Movement, h: Transfer)
    requires Correct(i).WellFormed() && EventIn(e, i.domain) && IsEvent(e, i, m, h)
    ensures AffectedAccounts(i, e) == Touches(i, m, h)
  {
  }

  lemma LiabilityDecides(t: Tables, i: CorrectionInput, e: Event)
    requires Correct(i).WellFormed() && EventIn(e, i.domain) && EventLiability(e) == Sum(t.owners, LiabilityStanding(i.target))
    ensures CheckProjectedLiability(t.owners, i, e) == if Overdraws(t, i) then Err(OwnerLiabilityExceeded) else Ok(())
  {
  }

  lemma PostingDecides(t: Tables, p: PeriodId)
    ensures var r := ResolvePosting(t.periods, p);
            && (r.Ok? <==> TakesPostings(t, p))
            && (r == Err(PeriodIntegrityConflict) <==> p in t.periods && !t.periods[p].canonical)
            && (r == Err(PeriodNotPostingEligible) <==> p in t.periods && t.periods[p].canonical && t.periods[p].status != Open)
  {
  }

  lemma RemainingDecides(t: Tables, device: DeviceId, i: CorrectionInput, e: Event, m: Movement, h: Transfer)
    requires Correct(i).WellFormed() && EventIn(e, i.domain) && IsEvent(e, i, m, h)
    requires EventLiability(e) == Sum(t.owners, LiabilityStanding(i.target))
    ensures var v := Remaining(t, device, i, e);
            if GoesNowhere(i, h) then v == Err(TransferSameAccount)
            else if ChangesNothing(i, m, h) then v == Err(NoOp)
            else if i.period in t.periods && !t.periods[i.period].canonical then v == Err(PeriodIntegrityConflict)
            else if i.period in t.periods && t.periods[i.period].status != Open then v == Err(PeriodNotPostingEligible)
            else if FirstIsMissing(t, Touches(i, m, h)) then v == Err(AccountNotFound)
            else if FirstIsUnavailable(t, Touches(i, m, h)) then v == Err(AccountUnavailable)
            else if Overdraws(t, i) then v == Err(OwnerLiabilityExceeded)
            else v.Ok?
  {
    ChangesDecide(i, e, m, h);
    PostingDecides(t, i.period);
    TouchedAccounts(i, e, m, h);
    AccountsDecide(t, Touches(i, m, h));
    LiabilityDecides(t, i, e);
  }

  /** A correction of an active target is applied exactly when it changes something, goes somewhere, its
      month takes postings, all accounts involved are usable and the owner is still owed nothing less than
      nothing; otherwise it is refused for the first of these that fails. */
  lemma CorrectionDecides(t: Tables, device: DeviceId, i: CorrectionInput, row: OperationRow, m: Movement, h: Transfer)
    requires Inv(t) && Correct(i).WellFormed() && IsRowOf(t, i.target, row) && i.target != i.operation
    requires Fits(row, i.domain) && !IsSuperseded(t, i.target) && !IsZeroOpening(row) && IsStanding(t, i, m, h)
    ensures var v := CorrectVerdict(t, device, i);
            if GoesNowhere(i, h) then v == Err(TransferSameAccount)
            else if ChangesNothing(i, m, h) then v == Err(NoOp)
            else if i.period in t.periods && !t.periods[i.period].canonical then v == Err(PeriodIntegrityConflict)
            else if i.period in t.periods && t.periods[i.period].status != Open then v == Err(PeriodNotPostingEligible)
            else if FirstIsMissing(t, Touches(i, m, h)) then v == Err(AccountNotFound)
            else if FirstIsUnavailable(t, Touches(i, m, h)) then v == Err(AccountUnavailable)
            else if Overdraws(t, i) then v == Err(OwnerLiabilityExceeded)
            else v.Ok?
  {
    FittingTarget(t, device, i, row);
    StandingIsTheEvent(t, i, row, m, h);
    RemainingDecides(t, device, i, EventOf(row).value, m, h);
  }

  lemma HeaderStands(t: Tables, i: CorrectionInput, row: OperationRow)
    requires Inv(t) && IsRowOf(t, i.target, row) && Fits(row, InternalTransfer)
    ensures exists h :: h in t.transfers && h.id.operation == i.target
  {
    RowIsFound(t, row);
    var k :| 0 <= k < |t.operations| && t.operations[k] == row && RowOk(t.operations[..k], row);
    FittingIsCorrectable(t.operations[..k], row, InternalTransfer);
    TransferRowShape(t.operations[..k], row);
    RowIsHeld(t.operations, i.target);
    var h := EventOf(row).value.transfer;
    assert h in FactsOfOperation(t.operations, i.target).transfers;
  }

  lemma MovementStands(t: Tables, i: CorrectionInput, row: OperationRow)
    requires Inv(t) && IsRowOf(t, i.target, row) && Fits(row, i.domain) && EventOf(row).Some?
    ensures exists m :: m in t.movements && Stands(m, i.target)
  {
    RowIsFound(t, row);
    var k :| 0 <= k < |t.operations| && t.operations[k] == row && RowOk(t.operations[..k], row);
    FittingIsCorrectable(t.operations[..k], row, i.domain);
    TargetMovements(t, i, row);
    var m := EventMovements(EventOf(row).value)[0];
    assert m in EventMovements(EventOf(row).value);
  }

  /** Such a target always has something standing for it. */
  lemma SomethingStands(t: Tables, i: CorrectionInput, row: OperationRow)
    requires Inv(t) && IsRowOf(t, i.target, row) && i.target != i.operation && Fits(row, i.domain) && !IsZeroOpening(row)
    ensures i.domain != InternalTransfer ==> exists m :: m in t.movements && Stands(m, i.target)
    ensures i.domain == InternalTransfer ==> exists h :: h in t.transfers && h.id.operation == i.target
  {
    FittingTargetLoads(t, i, row);
    if i.domain == InternalTransfer { HeaderStands(t, i, row); } else { MovementStands(t, i, row); }
  }
}
