/** The repositories' transactions as they run, statement by statement, on one store's tables:
    claim the operation, work inside a savepoint, then record the outcome.

    Every method is proved to leave behind and to answer exactly what `Ledger.Serial` says. */
module Store {
  import opened Wrappers
  import opened Ledger

  /** `Forbidden` is the exception raised for a store that is not active; it undoes the transaction. */
  datatype Reply = Forbidden | Answered(answer: Answer)

  function Claimed(device: DeviceId, command: Command): OperationRow {
    OperationRow(command.Operation(), IdentityOf(device, command), Processing)
  }

  /** Updates the processing row of one operation. */
  function SetStatus(rows: seq<OperationRow>, operation: OperationId, status: OperationStatus): seq<OperationRow> {
    if rows == [] then []
    else
      var last := rows[|rows| - 1];
      SetStatus(rows[..|rows| - 1], operation, status)
      + [if last.operation == operation && last.status.Processing? then last.(status := status) else last]
  }

  lemma {:induction false} SetStatusElsewhere(rows: seq<OperationRow>, operation: OperationId, status: OperationStatus)
    requires FindOperation(rows, operation).None?
    ensures SetStatus(rows, operation, status) == rows
  {
    if rows != [] { SetStatusElsewhere(rows[..|rows| - 1], operation, status); }
  }

  /** The claimed row of the running command hides nothing and supersedes nothing. */
  lemma ClaimedRowIsNeutral(rows: seq<OperationRow>, row: OperationRow, input: CorrectionInput)
    requires FindOperation(rows, row.operation).None? && row.operation == input.operation && row.status.Processing?
    ensures ResolveTargetKind(FindOperation(rows + [row], input.target), input.target, input.domain) == ResolveTarget(rows, input)
    ensures Targets(rows + [row]) == Targets(rows)
  {
    assert (rows + [row])[..|rows + [row]| - 1] == rows;
  }

  /** Re-reads the settlement of the paid expense and compares it with what it was before. */
  function CheckSettled(expenses: map<ExpenseId, Expense>, payments: seq<Payment>, input: PaymentInput, before: Settlement): Result<(), Failure> {
    var after :- ReadSettlement(expenses, payments, input.expense);
    CheckAfter(before, after, input.amount)
  }

  /** What a new command leaves behind and answers, by its verdict. */
  lemma SerialOfVerdict(t: Tables, device: DeviceId, command: Command, blocked: bool)
    requires FindOperation(t.operations, command.Operation()).None?
    ensures var verdict := Verdict(t, device, command, blocked);
            match verdict
            case Ok(effect) => Serial(t, device, command, blocked) == (Install(t, effect), Stored(effect.row.status))
            case Err(failure) =>
              var row := OperationRow(command.Operation(), IdentityOf(device, command), Rejected(failure));
              Serial(t, device, command, blocked) == (t.(operations := t.operations + [row]), Stored(Rejected(failure)))
  {
    match Verdict(t, device, command, blocked)
    case Ok(_) =>
    case Err(failure) => InstallRejection(t, device, command, failure);
  }

  lemma InstallRejection(t: Tables, device: DeviceId, command: Command, failure: Failure)
    ensures var row := OperationRow(command.Operation(), IdentityOf(device, command), Rejected(failure));
            Install(t, RejectedEffect(device, command, failure)) == t.(operations := t.operations + [row])
  {
    assert t.movements + [] == t.movements && t.owners + [] == t.owners;
    assert t.transfers + [] == t.transfers && t.payments + [] == t.payments;
  }

  /** `now` is `before` with the claimed row and everything that `effect` writes but the outcome. */
  predicate Written(before: Tables, now: Tables, device: DeviceId, command: Command, response: Response, effect: Effect) {
    && effect.row == AppliedRow(device, command, response)
    && now == Install(before, effect).(operations := before.operations + [Claimed(device, command)])
  }

  lemma WrittenCorrection(before: Tables, claimed: seq<OperationRow>, now: Tables, device: DeviceId, input: CorrectionInput, event: Event)
    requires claimed == before.operations + [Claimed(device, Command.Correct(input))] && ResolvePosting(before.periods, input.period).Ok?
    requires var (f, provision) := (CorrectionFacts(input, event), ResolvePosting(before.periods, input.period).value);
             now == before.(operations := claimed, movements := before.movements + f.movements, owners := before.owners + f.owners,
                            transfers := before.transfers + f.transfers,
                            periods := if provision.Some? then before.periods[input.period := Period(Open, 1, true)] else before.periods)
    ensures var (f, provision) := (CorrectionFacts(input, event), ResolvePosting(before.periods, input.period).value);
            Written(before, now, device, Command.Correct(input), Response(Some(input.target), input.period, f),
                    CorrectEffect(device, input, event, provision))
  {
    assert before.payments + [] == before.payments;
  }

  /** The tables as they were before the running command claimed its operation. */
  function Unclaimed(t: Tables): Tables
    requires t.operations != []
  {
    t.(operations := t.operations[..|t.operations| - 1])
  }

  class StoreDatabase {
    var active: bool
    var operations: seq<OperationRow>
    var conflicts: seq<Conflict>
    var movements: seq<Movement>
    var owners: seq<OwnerEntry>
    var transfers: seq<Transfer>
    var payments: seq<Payment>
    var periods: map<PeriodId, Period>
    var expenses: map<ExpenseId, Expense>
    var accounts: map<AccountId, bool>

    function Snapshot(): Tables
      reads this
    {
      Tables(operations, conflicts, movements, owners, transfers, payments, periods, expenses, accounts)
    }

    /* ---- The operation protocol ---- */

    method Restore(saved: Tables)
      modifies this
      ensures Snapshot() == saved && active == old(active)
    {
      operations, conflicts := saved.operations, saved.conflicts;
      movements, owners, transfers, payments := saved.movements, saved.owners, saved.transfers, saved.payments;
      periods, expenses, accounts := saved.periods, saved.expenses, saved.accounts;
    }

    method ResolveProcessedOperation(device: DeviceId, command: Command, row: OperationRow) returns (answer: Answer)
      modifies this`conflicts
      ensures answer == Resolve(row, device, command)
      ensures conflicts == if answer == Refused(OperationIdConflict)
                           then old(conflicts) + [Conflict(command.Operation(), IdentityOf(device, command))]
                           else old(conflicts)
    {
      if row.identity != IdentityOf(device, command) {
        conflicts := conflicts + [Conflict(command.Operation(), IdentityOf(device, command))];
        return Refused(OperationIdConflict);
      }
      if row.status.Applied? || row.status.Rejected? {
        return Stored(row.status);
      }
      return Refused(OperationInProgress);
    }

    /** Answers a recorded operation, or claims a new one. */
    method BeginMutation(device: DeviceId, command: Command) returns (reply: Option<Reply>)
      modifies this`operations, this`conflicts
      ensures FindOperation(old(operations), command.Operation()).Some? ==>
                reply.Some? && reply.value.Answered?
                && (Snapshot(), reply.value.answer) == Serial(old(Snapshot()), device, command, false)
      ensures FindOperation(old(operations), command.Operation()).None? ==>
                && conflicts == old(conflicts)
                && (if old(active) then reply.None? && operations == old(operations) + [Claimed(device, command)]
                    else reply == Some(Forbidden) && operations == old(operations))
    {
      var prior := FindOperation(operations, command.Operation());
      if prior.Some? {
        var answer := ResolveProcessedOperation(device, command, prior.value);
        return Some(Answered(answer));
      }
      if !active {
        return Some(Forbidden);
      }
      operations := operations + [Claimed(device, command)];
      return None;
    }

    /** Records the outcome on the claimed row. */
    method Complete(operation: OperationId, status: OperationStatus)
      requires operations != [] && operations[|operations| - 1].operation == operation
      requires operations[|operations| - 1].status.Processing?
      requires FindOperation(operations[..|operations| - 1], operation).None?
      modifies this`operations
      ensures operations == old(operations[..|operations| - 1]) + [old(operations[|operations| - 1]).(status := status)]
    {
      SetStatusElsewhere(operations[..|operations| - 1], operation, status);
      operations := SetStatus(operations, operation, status);
    }

    /** Records an applied outcome, or undoes the savepoint and records a rejection. `before` are the
        tables without the claimed row, and `verdict` is what the work inside the savepoint decided. */
    method Conclude(device: DeviceId, command: Command, saved: Tables, applied: Result<Response, Failure>,
                    ghost before: Tables, ghost verdict: Result<Effect, Failure>)
      returns (reply: Reply)
      requires saved == before.(operations := before.operations + [Claimed(device, command)])
      requires FindOperation(before.operations, command.Operation()).None?
      requires match applied
               case Err(f) => verdict == Err(f)
               case Ok(response) => verdict.Ok? && Written(before, Snapshot(), device, command, response, verdict.value)
      modifies this
      ensures active == old(active) && reply.Answered?
      ensures match verdict
              case Ok(effect) => Snapshot() == Install(before, effect) && reply.answer == Stored(effect.row.status)
              case Err(failure) =>
                && Snapshot() == Install(before, RejectedEffect(device, command, failure))
                && reply.answer == Stored(Rejected(failure))
    {
      if applied.Ok? {
        assert operations[..|operations| - 1] == before.operations;
        Complete(command.Operation(), Applied(applied.value));
        return Answered(Stored(Applied(applied.value)));
      } else {
        Restore(saved);
        assert operations[..|operations| - 1] == before.operations;
        Complete(command.Operation(), Rejected(applied.error));
        InstallRejection(before, device, command, applied.error);
        return Answered(Stored(Rejected(applied.error)));
      }
    }

    /* ---- Gates ---- */

    /** Inserts the month's row when there is none, then requires an open canonical row. */
    method ResolveForWrite(period: PeriodId) returns (resolved: Result<(), Failure>)
      modifies this`periods
      ensures resolved.Ok? <==> ResolvePosting(old(periods), period).Ok?
      ensures resolved.Err? ==> resolved.error == ResolvePosting(old(periods), period).error
      ensures periods == if period in old(periods) then old(periods) else old(periods)[period := Period(Open, 1, true)]
    {
      if period !in periods {
        periods := periods[period := Period(Open, 1, true)];
      }
      var row := periods[period];
      if !row.canonical {
        return Err(PeriodIntegrityConflict);
      }
      if row.status != Open {
        return Err(PeriodNotPostingEligible);
      }
      return Ok(());
    }

    /** Locks and validates the accounts one after the other. */
    method ValidateAccounts(wanted: seq<AccountId>) returns (checked: Result<(), Failure>)
      ensures checked == CheckAccounts(accounts, wanted)
    {
      var k := 0;
      while k < |wanted|
        invariant k <= |wanted| && CheckAccounts(accounts, wanted[k..]) == CheckAccounts(accounts, wanted)
      {
        if wanted[k] !in accounts {
          return Err(AccountNotFound);
        }
        if !accounts[wanted[k]] {
          return Err(AccountUnavailable);
        }
        assert wanted[k..][1..] == wanted[k + 1..];
        k := k + 1;
      }
      return Ok(());
    }

    /* ---- Corrections ---- */

    method InsertMovement(row: Movement) returns (inserted: Movement)
      modifies this`movements
      ensures inserted == row && movements == old(movements) + [row]
    {
      movements := movements + [row];
      return row;
    }

    method InsertOwnerEntry(row: OwnerEntry) returns (inserted: OwnerEntry)
      modifies this`owners
      ensures inserted == row && owners == old(owners) + [row]
    {
      owners := owners + [row];
      return row;
    }

    method InsertOpeningCorrection(input: CorrectionInput, target: Movement) returns (facts: Facts)
      modifies this`movements
      ensures facts == OpeningCorrection(input, target)
      ensures movements == old(movements) + facts.movements
    {
      var reversal := InsertMovement(
        CorrectionMovement(input, Reversal(Opening), target.account, -target.delta,
                           ToOpeningBalance(target.account), Some(target.id), None, None));
      var inserted := [reversal];
      if input.replacement.Some? {
        var replacement := InsertMovement(
          CorrectionMovement(input, Replacement(Opening), target.account, input.replacement.value.amount,
                             ToOpeningBalance(target.account), None, None, None));
        inserted := inserted + [replacement];
      }
      return Facts(inserted, [], []);
    }

    method InsertOwnerCorrection(input: CorrectionInput, domain: Domain, target: Movement, entry: OwnerEntry)
      returns (facts: Facts)
      modifies this`movements, this`owners
      ensures facts == OwnerCorrection(input, domain, target, entry)
      ensures movements == old(movements) + facts.movements && owners == old(owners) + facts.owners
    {
      var reversalMoneyId := FactId(input.operation, Reversal(OwnerMoney));
      var reversalOwnerId := FactId(input.operation, Reversal(OwnerEntryFact));
      var reversalMovement := InsertMovement(
        CorrectionMovement(input, Reversal(OwnerMoney), target.account, -target.delta,
                           ToOwnerEntry(reversalOwnerId), Some(target.id), None, None));
      var reversalOwner := InsertOwnerEntry(
        CorrectionOwnerEntry(input, Reversal(OwnerEntryFact), target.account, -entry.liabilityDelta,
                             -entry.equityDelta, reversalMoneyId, Some(entry.id)));
      var insertedMovements, insertedOwners := [reversalMovement], [reversalOwner];
      if input.replacement.Some? && input.replacement.value.account.Some? {
        var d := Describe(domain);
        var (account, magnitude) := (input.replacement.value.account.value, input.replacement.value.amount);
        var moneySign := if d.liabilityFactor == -1 || d.equityFactor == -1 then -1 else 1;
        var replacementMovement := InsertMovement(
          CorrectionMovement(input, Replacement(OwnerMoney), account, moneySign * magnitude,
                             ToOwnerEntry(FactId(input.operation, Replacement(OwnerEntryFact))), None, None, None));
        var replacementOwner := InsertOwnerEntry(
          CorrectionOwnerEntry(input, Replacement(OwnerEntryFact), account, d.liabilityFactor * magnitude,
                               d.equityFactor * magnitude, FactId(input.operation, Replacement(OwnerMoney)), None));
        insertedMovements, insertedOwners := insertedMovements + [replacementMovement], insertedOwners + [replacementOwner];
      }
      return Facts(insertedMovements, insertedOwners, []);
    }

    method InsertTransferCorrection(input: CorrectionInput, target: Transfer, source: Movement, destination: Movement)
      returns (facts: Facts)
      modifies this`movements, this`transfers
      ensures facts == TransferCorrection(input, target, source, destination)
      ensures movements == old(movements) + facts.movements && transfers == old(transfers) + facts.transfers
    {
      var reversalSource := InsertMovement(
        CorrectionMovement(input, Reversal(TransferSource), target.source, target.amount, ToTransfer(target.id),
                           Some(source.id), Some(target.id), Some(target.destination)));
      var reversalDestination := InsertMovement(
        CorrectionMovement(input, Reversal(TransferDestination), target.destination, -target.amount, ToTransfer(target.id),
                           Some(destination.id), Some(target.id), Some(target.source)));
      var inserted := [reversalSource, reversalDestination];
      var headers := [];
      if input.replacement.Some? && input.replacement.value.destination.Some? {
        var r := input.replacement.value;
        var (from, to) := (FinalSource(r, target), r.destination.value);
        var header := FactId(input.operation, Replacement(TransferHeader));
        var replacementSource := InsertMovement(
          CorrectionMovement(input, Replacement(TransferSource), from, -r.amount, ToTransfer(header), None, Some(header), Some(to)));
        var replacementDestination := InsertMovement(
          CorrectionMovement(input, Replacement(TransferDestination), to, r.amount, ToTransfer(header), None, Some(header), Some(from)));
        inserted := inserted + [replacementSource, replacementDestination];
        var replacement := Transfer(
          header, FactOperationId(input.operation, Replacement(TransferHeader)), from, to, r.amount, input.occurredAt,
          FactId(input.operation, Replacement(TransferSource)), FactId(input.operation, Replacement(TransferDestination)),
          input.period, PostedTransfer);
        transfers := transfers + [replacement];
        headers := [replacement];
      }
      return Facts(inserted, [], headers);
    }

    method InsertCorrectionFacts(input: CorrectionInput, event: Event) returns (facts: Facts)
      modifies this`movements, this`owners, this`transfers
      ensures facts == CorrectionFacts(input, event)
      ensures movements == old(movements) + facts.movements && owners == old(owners) + facts.owners
      ensures transfers == old(transfers) + facts.transfers
    {
      match event
      case OpeningEvent(_, movement) => facts := InsertOpeningCorrection(input, movement);
      case OwnerEvent(domain, _, movement, entry) => facts := InsertOwnerCorrection(input, domain, movement, entry);
      case TransferEvent(_, transfer, source, destination) =>
        facts := InsertTransferCorrection(input, transfer, source, destination);
    }

    /** Finds the active event behind the target, reading tables that hold the claimed row. */
    method LoadTarget(input: CorrectionInput) returns (loaded: Result<Event, Failure>)
      requires operations != [] && operations[|operations| - 1].status.Processing?
      requires operations[|operations| - 1].operation == input.operation
      requires FindOperation(operations[..|operations| - 1], input.operation).None?
      ensures var t := Unclaimed(Snapshot());
              loaded == match ResolveTarget(t.operations, input)
                        case Err(f) => Err(f)
                        case Ok(kind) => LoadActive(t, input, kind)
    {
      var row := operations[|operations| - 1];
      ClaimedRowIsNeutral(operations[..|operations| - 1], row, input);
      assert operations[..|operations| - 1] + [row] == operations;
      var kind :- ResolveTargetKind(FindOperation(operations, input.target), input.target, input.domain);
      if input.target in Targets(operations) {
        return Err(TargetNotActive);
      }
      var event :- LoadEvent(Unclaimed(Snapshot()), input.target, input.domain, kind);
      var _ :- CheckReplacement(input, event);
      return Ok(event);
    }

    /** Everything that may refuse a correction, in order; the month's row may be inserted meanwhile. */
    method CheckCorrection(device: DeviceId, input: CorrectionInput) returns (checked: Result<Event, Failure>)
      requires operations != [] && operations[|operations| - 1] == Claimed(device, Command.Correct(input))
      requires FindOperation(operations[..|operations| - 1], input.operation).None?
      modifies this`periods
      ensures var t := old(Unclaimed(Snapshot()));
              match checked
              case Err(f) => CorrectVerdict(t, device, input) == Err(f)
              case Ok(event) =>
                && ResolvePosting(t.periods, input.period).Ok?
                && var provision := ResolvePosting(t.periods, input.period).value;
                   && CorrectVerdict(t, device, input) == Ok(CorrectEffect(device, input, event, provision))
                   && periods == if provision.Some? then t.periods[input.period := Period(Open, 1, true)] else t.periods
    {
      var event :- LoadTarget(input);
      var _ :- ResolveForWrite(input.period);
      var _ :- ValidateAccounts(AffectedAccounts(input, event));
      var _ :- CheckProjectedLiability(owners, input, event);
      return Ok(event);
    }

    method ApplyCorrection(device: DeviceId, input: CorrectionInput) returns (applied: Result<Response, Failure>)
      requires operations != [] && operations[|operations| - 1] == Claimed(device, Command.Correct(input))
      requires FindOperation(operations[..|operations| - 1], input.operation).None?
      modifies this`movements, this`owners, this`transfers, this`periods
      ensures var verdict := CorrectVerdict(old(Unclaimed(Snapshot())), device, input);
              match applied
              case Err(f) => verdict == Err(f)
              case Ok(response) =>
                verdict.Ok? && Written(old(Unclaimed(Snapshot())), Snapshot(), device, Command.Correct(input), response, verdict.value)
    {
      var event :- CheckCorrection(device, input);
      assert old(operations) == old(operations)[..|old(operations)| - 1] + [Claimed(device, Command.Correct(input))];
      var facts := InsertCorrectionFacts(input, event);
      WrittenCorrection(old(Unclaimed(Snapshot())), old(operations), Snapshot(), device, input, event);
      return Ok(Response(Some(input.target), input.period, facts));
    }

    method CorrectEvent(device: DeviceId, input: CorrectionInput) returns (reply: Reply)
      requires Command.Correct(input).WellFormed()
      modifies this
      ensures active == old(active)
      ensures reply.Forbidden? <==> !active && FindOperation(old(operations), input.operation).None?
      ensures reply.Forbidden? ==> Snapshot() == old(Snapshot())
      ensures reply.Answered? ==> (Snapshot(), reply.answer) == Serial(old(Snapshot()), device, Command.Correct(input), false)
    {
      var command := Command.Correct(input);
      var begun := BeginMutation(device, command);
      if begun.Some? {
        return begun.value;
      }
      var saved := Snapshot();
      assert operations[..|operations| - 1] == old(operations);
      var applied := ApplyCorrection(device, input);
      reply := Conclude(device, command, saved, applied, old(Snapshot()), CorrectVerdict(old(Snapshot()), device, input));
    }

    /* ---- Closing a period ---- */

    /** Closes an open period; closing a closed one again changes nothing but is applied. */
    method ClosePeriod(device: DeviceId, input: CloseInput, blocked: bool) returns (reply: Reply)
      modifies this
      ensures active == old(active)
      ensures reply.Forbidden? <==> !active && FindOperation(old(operations), input.operation).None?
      ensures reply.Forbidden? ==> Snapshot() == old(Snapshot())
      ensures reply.Answered? ==> (Snapshot(), reply.answer) == Serial(old(Snapshot()), device, Command.Close(input), blocked)
    {
      var command := Command.Close(input);
      var begun := BeginMutation(device, command);
      if begun.Some? {
        return begun.value;
      }
      SerialOfVerdict(old(Snapshot()), device, command, blocked);
      assert operations[..|operations| - 1] == old(operations);
      var failure := None;
      if input.period !in periods {
        failure := Some(PeriodNotFound);
      } else if !periods[input.period].canonical {
        failure := Some(PeriodIntegrityConflict);
      } else if periods[input.period].version != input.expectedVersion {
        failure := Some(PeriodVersionConflict);
      } else if periods[input.period].status == Closing {
        failure := Some(PeriodClosing);
      } else if periods[input.period].status == Open {
        if blocked {
          failure := Some(PeriodCloseBlocked);
        } else {
          var current := periods[input.period];
          periods := periods[input.period := current.(status := Closed, version := current.version + 1)];
        }
      }
      if failure.Some? {
        Complete(input.operation, Rejected(failure.value));
        return Answered(Stored(Rejected(failure.value)));
      }
      var response := Response(None, input.period, NoFacts);
      Complete(input.operation, Applied(response));
      assert movements == old(movements) + [] && owners == old(owners) + [];
      assert transfers == old(transfers) + [] && payments == old(payments) + [];
      return Answered(Stored(Applied(response)));
    }

    /* ---- Paying an expense ---- */

    method PostPaymentFacts(input: PaymentInput) returns (facts: Facts)
      modifies this`movements, this`owners, this`payments
      ensures facts == PaymentFacts(input)
      ensures movements == old(movements) + facts.movements && owners == old(owners) + facts.owners
      ensures payments == old(payments) + [PostedPaymentRow(input)]
    {
      var header := FactId(input.operation, PaymentHeader);
      payments := payments + [Payment(header, input.expense, input.amount, input.source, input.period,
                                      input.occurredAt, DraftPayment, None, None)];
      facts := NoFacts;
      match input.source {
        case FromAccount(account) =>
          var movement := InsertMovement(
            Movement(FactId(input.operation, PaymentMoney), FactOperationId(input.operation, PaymentMoney), account,
                     input.period, ExpensePaymentMovement, -input.amount, ToPayment(header), input.operation, None, None,
                     input.occurredAt, None));
          facts := Facts([movement], [], []);
        case OwnerPocket =>
          var entry := InsertOwnerEntry(
            OwnerEntry(FactId(input.operation, PaymentOwner), FactOperationId(input.operation, PaymentOwner),
                       OwnerPaidExpense, input.amount, 0, None, input.period, ToPayment(header), input.operation,
                       input.occurredAt, None));
          facts := Facts([], [entry], []);
      }
      var last := |payments| - 1;
      payments := payments[last := payments[last].(
        status := PostedPayment,
        moneyMovement := if facts.movements != [] then Some(facts.movements[0].id) else None,
        ownerEntry := if facts.owners != [] then Some(facts.owners[0].id) else None)];
    }

    method InsertPayment(device: DeviceId, input: PaymentInput) returns (applied: Result<Response, Failure>)
      requires operations != [] && operations[|operations| - 1] == Claimed(device, Command.Pay(input))
      modifies this`movements, this`owners, this`payments, this`periods
      ensures var verdict := PayVerdict(old(Unclaimed(Snapshot())), device, input);
              match applied
              case Err(f) => verdict == Err(f)
              case Ok(response) =>
                verdict.Ok? && Written(old(Unclaimed(Snapshot())), Snapshot(), device, Command.Pay(input), response, verdict.value)
    {
      assert operations == operations[..|operations| - 1] + [Claimed(device, Command.Pay(input))];
      var _ :- ResolveForWrite(input.period);
      var expense :- LockExpense(expenses, input.expense);
      var before :- ReadSettlement(expenses, payments, input.expense);
      var _ :- CheckSettlement(expense, before, input.amount);
      if input.source.FromAccount? {
        var _ :- ValidateAccounts([input.source.account]);
      }
      var facts := PostPaymentFacts(input);
      var _ :- CheckSettled(expenses, payments, input, before);
      assert transfers == transfers + [];
      return Ok(Response(None, input.period, facts));
    }

    method PostPayment(device: DeviceId, input: PaymentInput) returns (reply: Reply)
      requires Command.Pay(input).WellFormed()
      modifies this
      ensures active == old(active)
      ensures reply.Forbidden? <==> !active && FindOperation(old(operations), input.operation).None?
      ensures reply.Forbidden? ==> Snapshot() == old(Snapshot())
      ensures reply.Answered? ==> (Snapshot(), reply.answer) == Serial(old(Snapshot()), device, Command.Pay(input), false)
    {
      var command := Command.Pay(input);
      var begun := BeginMutation(device, command);
      if begun.Some? {
        return begun.value;
      }
      var saved := Snapshot();
      assert operations[..|operations| - 1] == old(operations);
      var applied := InsertPayment(device, input);
      reply := Conclude(device, command, saved, applied, old(Snapshot()), PayVerdict(old(Snapshot()), device, input));
    }
  }
}
