/** What every history of committed operations keeps. A history is the sequence of operation rows
    in commit order; each row is judged against the rows before it. */
module History {
  import opened Wrappers
  import opened Ledger

  /* ---- Sums ---- */

  lemma {:induction false} SumAppend<T>(x: seq<T>, y: seq<T>, weight: T -> int)
    ensures Sum(x + y, weight) == Sum(x, weight) + Sum(y, weight)
  {
    if y == [] {
      assert x + y == x;
    } else {
      SumAppend(x, y[..|y| - 1], weight);
      assert (x + y)[..|x + y| - 1] == x + y[..|y| - 1];
    }
  }

  lemma SumOne<T>(a: T, weight: T -> int)
    ensures Sum([a], weight) == weight(a)
  {
    assert [a][..0] == [];
  }

  lemma SumTwo<T>(a: T, b: T, weight: T -> int)
    ensures Sum([a, b], weight) == weight(a) + weight(b)
  {
    SumAppend([a], [b], weight);
    SumOne(a, weight);
    SumOne(b, weight);
    assert [a] + [b] == [a, b];
  }

  lemma SumFour<T>(a: T, b: T, c: T, d: T, weight: T -> int)
    ensures Sum([a, b, c, d], weight) == weight(a) + weight(b) + weight(c) + weight(d)
  {
    SumAppend([a, b], [c, d], weight);
    SumTwo(a, b, weight);
    SumTwo(c, d, weight);
    assert [a, b] + [c, d] == [a, b, c, d];
  }

  /* ---- Rows and their facts ---- */

  function RowFacts(row: OperationRow): Facts {
    if row.status.Applied? then row.status.response.facts else NoFacts
  }

  function RowPayments(row: OperationRow): seq<Payment> {
    if row.status.Applied? && row.identity.digest.Pay? then [PostedPaymentRow(row.identity.digest.payment)] else []
  }

  function AllMovements(rows: seq<OperationRow>): seq<Movement> {
    if rows == [] then [] else AllMovements(rows[..|rows| - 1]) + RowFacts(rows[|rows| - 1]).movements
  }

  function AllOwners(rows: seq<OperationRow>): seq<OwnerEntry> {
    if rows == [] then [] else AllOwners(rows[..|rows| - 1]) + RowFacts(rows[|rows| - 1]).owners
  }

  function AllTransfers(rows: seq<OperationRow>): seq<Transfer> {
    if rows == [] then [] else AllTransfers(rows[..|rows| - 1]) + RowFacts(rows[|rows| - 1]).transfers
  }

  function AllPayments(rows: seq<OperationRow>): seq<Payment> {
    if rows == [] then [] else AllPayments(rows[..|rows| - 1]) + RowPayments(rows[|rows| - 1])
  }

  predicate IsAppliedCorrection(row: OperationRow) {
    row.status.Applied? && row.identity.digest.Correct?
  }

  /** The event a row stands for: what an original or a replacement put into the books. */
  function EventOf(row: OperationRow): Option<Event> {
    var f := RowFacts(row);
    match row.identity.action
    case OriginalAction(d) => EventAt(row.operation, d, f, 0)
    case CorrectionAction(ReplacementKind, d) => EventAt(row.operation, d, f, if d.InternalTransfer? then 2 else 1)
    case _ => None
  }

  function EventAt(operation: OperationId, domain: Domain, f: Facts, n: nat): Option<Event> {
    match domain
    case OpeningBalance =>
      if |f.movements| > n then Some(OpeningEvent(operation, f.movements[n])) else None
    case InternalTransfer =>
      if |f.movements| > n + 1 && f.transfers != []
      then Some(TransferEvent(operation, f.transfers[0], f.movements[n], f.movements[n + 1])) else None
    case _ =>
      if |f.movements| > n && |f.owners| > n then Some(OwnerEvent(domain, operation, f.movements[n], f.owners[n])) else None
  }

  predicate EventIn(event: Event, domain: Domain) {
    match event
    case OpeningEvent(_, _) => domain.OpeningBalance?
    case TransferEvent(_, _, _, _) => domain.InternalTransfer?
    case OwnerEvent(d, _, _, _) => d == domain && !domain.OpeningBalance? && !domain.InternalTransfer?
  }

  function KindOf(row: OperationRow): TargetKind {
    if row.identity.action.OriginalAction? then OriginalTarget else ReplacementTarget
  }

  /** The rows a correction in `domain` may name. */
  predicate Correctable(row: OperationRow, domain: Domain) {
    && row.status.Applied?
    && (row.identity.action == OriginalAction(domain) || row.identity.action == CorrectionAction(ReplacementKind, domain))
  }

  /** A row that may follow `history`. */
  predicate RowOk(history: seq<OperationRow>, row: OperationRow) {
    && FindOperation(history, row.operation).None?
    && row.identity == IdentityOf(row.identity.device, row.identity.digest)
    && row.identity.digest.Operation() == row.operation
    && row.identity.digest.WellFormed()
    && !row.status.Processing?
    && (row.status.Applied? ==> ResponseOk(history, row.identity.digest, row.status.response))
  }

  predicate ResponseOk(history: seq<OperationRow>, command: Command, response: Response) {
    match command
    case Post(i) =>
      && response == Response(None, i.period, OriginalFacts(i))
      && (i.domain.InternalTransfer? ==> i.account != i.destination)
    case Correct(i) =>
      var target := FindOperation(history, i.target);
      && i.target !in Targets(history)
      && target.Some?
      && Correctable(target.value, i.domain)
      && EventOf(target.value).Some?
      && CheckReplacement(i, EventOf(target.value).value).Ok?
      && response == Response(Some(i.target), i.period, CorrectionFacts(i, EventOf(target.value).value))
    case Close(i) => response == Response(None, i.period, NoFacts)
    case Pay(i) => response == Response(None, i.period, PaymentFacts(i))
  }

  predicate ValidHistory(rows: seq<OperationRow>) {
    rows == [] || (ValidHistory(rows[..|rows| - 1]) && RowOk(rows[..|rows| - 1], rows[|rows| - 1]))
  }

  /* ---- Lookups in a valid history ---- */

  lemma {:induction false} PrefixIsValid(rows: seq<OperationRow>, k: nat)
    requires ValidHistory(rows) && k <= |rows|
    ensures ValidHistory(rows[..k])
    ensures k < |rows| ==> RowOk(rows[..k], rows[k])
    decreases |rows|
  {
    var last := |rows| - 1;
    if k < last {
      PrefixIsValid(rows[..last], k);
      assert rows[..last][..k] == rows[..k];
    } else if k == |rows| {
      assert rows[..k] == rows;
    }
  }

  lemma {:induction false} Found(rows: seq<OperationRow>, operation: OperationId) returns (k: nat)
    requires FindOperation(rows, operation).Some?
    ensures k < |rows| && rows[k] == FindOperation(rows, operation).value && rows[k].operation == operation
  {
    var last := |rows| - 1;
    if rows[last].operation == operation {
      k := last;
    } else {
      k := Found(rows[..last], operation);
    }
  }

  lemma {:induction false} NotFound(rows: seq<OperationRow>, operation: OperationId, k: nat)
    requires FindOperation(rows, operation).None? && k < |rows|
    ensures rows[k].operation != operation
  {
    if k < |rows| - 1 {
      NotFound(rows[..|rows| - 1], operation, k);
    }
  }

  /** Each operation id has at most one committed row, and no committed row stays processing. */
  lemma {:induction false} OneRowPerOperation(rows: seq<OperationRow>, i: nat, j: nat)
    requires ValidHistory(rows) && i <= j < |rows|
    ensures !rows[j].status.Processing?
    ensures rows[i].operation == rows[j].operation ==> i == j
  {
    PrefixIsValid(rows, j);
    if i < j {
      NotFound(rows[..j], rows[j].operation, i);
    }
  }

  lemma {:induction false} FindInPrefix(rows: seq<OperationRow>, k: nat)
    requires ValidHistory(rows) && k < |rows|
    ensures FindOperation(rows, rows[k].operation) == Some(rows[k])
  {
    var j := |rows| - 1;
    if k < j {
      OneRowPerOperation(rows, k, j);
      FindInPrefix(rows[..j], k);
    }
  }

  /** Targets are rows of the history that a correction may name. */
  lemma {:induction false} TargetsAreRows(rows: seq<OperationRow>, t: OperationId)
    requires ValidHistory(rows) && t in Targets(rows)
    ensures FindOperation(rows, t).Some?
  {
    var prefix := rows[..|rows| - 1];
    if t in Targets(prefix) {
      TargetsAreRows(prefix, t);
      var k := Found(prefix, t);
      FindInPrefix(rows, k);
    } else {
      var k := Found(prefix, t);
      FindInPrefix(rows, k);
    }
  }

  /* ---- Facts carry the identity of the command that wrote them ---- */

  predicate Stamped(f: Facts, operation: OperationId, period: PeriodId) {
    && (forall m | m in f.movements :: m.id.operation == operation && m.group == operation && m.period == period)
    && (forall e | e in f.owners :: e.id.operation == operation && e.group == operation && e.period == period)
    && (forall t | t in f.transfers :: t.id.operation == operation && t.period == period)
  }

  lemma FactsAreStamped(history: seq<OperationRow>, row: OperationRow)
    requires RowOk(history, row)
    ensures Stamped(RowFacts(row), row.operation, if row.status.Applied? then row.status.response.period else PeriodId(0, 0))
  {
  }

  lemma {:induction false} ReadMovementAppend(x: seq<Movement>, y: seq<Movement>, id: FactId)
    ensures ReadMovement(x + y, id) == if ReadMovement(x, id).Some? then ReadMovement(x, id) else ReadMovement(y, id)
  {
    if x == [] {
      assert x + y == y;
    } else {
      ReadMovementAppend(x[1..], y, id);
      assert (x + y)[1..] == x[1..] + y;
    }
  }

  lemma {:induction false} ReadOwnerAppend(x: seq<OwnerEntry>, y: seq<OwnerEntry>, id: FactId)
    ensures ReadOwnerEntry(x + y, id) == if ReadOwnerEntry(x, id).Some? then ReadOwnerEntry(x, id) else ReadOwnerEntry(y, id)
  {
    if x == [] {
      assert x + y == y;
    } else {
      ReadOwnerAppend(x[1..], y, id);
      assert (x + y)[1..] == x[1..] + y;
    }
  }

  lemma {:induction false} ReadTransferAppend(x: seq<Transfer>, y: seq<Transfer>, id: FactId)
    ensures ReadTransfer(x + y, id) == if ReadTransfer(x, id).Some? then ReadTransfer(x, id) else ReadTransfer(y, id)
  {
    if x == [] {
      assert x + y == y;
    } else {
      ReadTransferAppend(x[1..], y, id);
      assert (x + y)[1..] == x[1..] + y;
    }
  }

  lemma {:induction false} ForeignMovement(rows: seq<Movement>, id: FactId)
    requires forall m | m in rows :: m.id.operation != id.operation
    ensures ReadMovement(rows, id).None?
  {
    if rows != [] { ForeignMovement(rows[1..], id); }
  }

  lemma {:induction false} ForeignOwner(rows: seq<OwnerEntry>, id: FactId)
    requires forall m | m in rows :: m.id.operation != id.operation
    ensures ReadOwnerEntry(rows, id).None?
  {
    if rows != [] { ForeignOwner(rows[1..], id); }
  }

  lemma {:induction false} ForeignTransfer(rows: seq<Transfer>, id: FactId)
    requires forall m | m in rows :: m.id.operation != id.operation
    ensures ReadTransfer(rows, id).None?
  {
    if rows != [] { ForeignTransfer(rows[1..], id); }
  }

  function FactsOfOperation(rows: seq<OperationRow>, operation: OperationId): Facts {
    match FindOperation(rows, operation)
    case None => NoFacts
    case Some(row) => RowFacts(row)
  }

  /** Reading a table by fact id reads the facts of the one row that wrote them. */
  lemma {:induction false} ReadsComeFromTheRow(rows: seq<OperationRow>, id: FactId)
    requires ValidHistory(rows)
    ensures ReadMovement(AllMovements(rows), id) == ReadMovement(FactsOfOperation(rows, id.operation).movements, id)
    ensures ReadOwnerEntry(AllOwners(rows), id) == ReadOwnerEntry(FactsOfOperation(rows, id.operation).owners, id)
    ensures ReadTransfer(AllTransfers(rows), id) == ReadTransfer(FactsOfOperation(rows, id.operation).transfers, id)
  {
    if rows != [] {
      var (prefix, last) := (rows[..|rows| - 1], rows[|rows| - 1]);
      ReadsComeFromTheRow(prefix, id);
      FactsAreStamped(prefix, last);
      ReadMovementAppend(AllMovements(prefix), RowFacts(last).movements, id);
      ReadOwnerAppend(AllOwners(prefix), RowFacts(last).owners, id);
      ReadTransferAppend(AllTransfers(prefix), RowFacts(last).transfers, id);
      if last.operation != id.operation {
        ForeignMovement(RowFacts(last).movements, id);
        ForeignOwner(RowFacts(last).owners, id);
        ForeignTransfer(RowFacts(last).transfers, id);
      }
    }
  }

  /* ---- Writers and loaders agree ---- */

  predicate FactsStored(t: Tables) {
    && t.movements == AllMovements(t.operations)
    && t.owners == AllOwners(t.operations)
    && t.transfers == AllTransfers(t.operations)
    && t.payments == AllPayments(t.operations)
  }

  lemma {:induction false} ReadMovementAt(rows: seq<Movement>, k: nat)
    requires k < |rows| && forall i | 0 <= i < k :: rows[i].id != rows[k].id
    ensures ReadMovement(rows, rows[k].id) == Some(rows[k])
  {
    if k > 0 { ReadMovementAt(rows[1..], k - 1); }
  }

  lemma {:induction false} ReadOwnerAt(rows: seq<OwnerEntry>, k: nat)
    requires k < |rows| && forall i | 0 <= i < k :: rows[i].id != rows[k].id
    ensures ReadOwnerEntry(rows, rows[k].id) == Some(rows[k])
  {
    if k > 0 { ReadOwnerAt(rows[1..], k - 1); }
  }

  /** A transfer header and its two legs as the loader wants them. */
  predicate TransferShape(operation: OperationId, kind: TargetKind, h: Transfer, s: Movement, d: Movement) {
    && h.status.PostedTransfer?
    && h.factOperation == FactOperationId(operation, RoleFor(kind, TransferHeader))
    && h.sourceMovement == s.id && h.destinationMovement == d.id
    && TransferLegMatches(s, operation, RoleFor(kind, TransferSource), kind, h, h.source, h.destination, -h.amount)
    && TransferLegMatches(d, operation, RoleFor(kind, TransferDestination), kind, h, h.destination, h.source, h.amount)
  }

  /** The movement of an opening balance as the loader wants it. */
  predicate OpeningShape(operation: OperationId, kind: TargetKind, m: Movement) {
    && m.id == FactId(operation, RoleFor(kind, Opening))
    && m.factOperation == FactOperationId(operation, RoleFor(kind, Opening))
    && m.group == operation && m.reversalOf.None? && m.delta != 0
    && m.movementType == (if kind.OriginalTarget? then OpeningMovement else CorrectionMovementType)
  }

  lemma OpeningRowShape(history: seq<OperationRow>, row: OperationRow)
    requires RowOk(history, row) && Correctable(row, OpeningBalance)
    ensures EventOf(row).None? <==> row.identity.digest.Post? && row.identity.digest.original.amount == 0
    ensures EventOf(row).None? ==> RowFacts(row).movements == [] && KindOf(row).OriginalTarget?
    ensures EventOf(row).Some? ==>
              var (movements, n) := (RowFacts(row).movements, if KindOf(row).OriginalTarget? then 0 else 1);
              && |movements| == n + 1 && EventOf(row).value == OpeningEvent(row.operation, movements[n])
              && OpeningShape(row.operation, KindOf(row), movements[n])
              && (n == 1 ==> movements[0].id.role.Reversal?)
  {
  }

  lemma LoadsOpening(t: Tables, history: seq<OperationRow>, row: OperationRow)
    requires ValidHistory(t.operations) && FactsStored(t)
    requires RowOk(history, row) && Correctable(row, OpeningBalance)
    requires FindOperation(t.operations, row.operation) == Some(row)
    ensures LoadOpening(t, row.operation, KindOf(row))
         == if EventOf(row).Some? then Ok(EventOf(row).value) else Err(TargetIntegrityConflict)
    ensures EventOf(row).None? <==> row.identity.digest.Post? && row.identity.digest.original.amount == 0
  {
    OpeningRowShape(history, row);
    ReadsComeFromTheRow(t.operations, FactId(row.operation, RoleFor(KindOf(row), Opening)));
    var movements := RowFacts(row).movements;
    if movements != [] { ReadMovementAt(movements, |movements| - 1); }
  }

  lemma OwnerDeltas(domain: Domain, amount: int, m: Movement, e: OwnerEntry)
    requires amount > 0
    requires m.delta == Describe(domain).MoneySign() * amount
    requires e.liabilityDelta == Describe(domain).liabilityFactor * amount
    requires e.equityDelta == Describe(domain).equityFactor * amount
    ensures OwnerDeltasMatch(Describe(domain), m, e)
  {
    assert Magnitude(m.delta) == amount;
  }

  /** A movement and its owner entry as the loader wants them. */
  predicate OwnerShape(operation: OperationId, domain: Domain, kind: TargetKind, m: Movement, e: OwnerEntry) {
    && m.factOperation == FactOperationId(operation, RoleFor(kind, OwnerMoney))
    && e.factOperation == FactOperationId(operation, RoleFor(kind, OwnerEntryFact))
    && m.group == operation && e.group == operation
    && m.reversalOf.None? && e.reversalOf.None?
    && Some(m.account) == e.account
    && m.period == e.period && m.occurredAt == e.occurredAt
    && m.reference == ToOwnerEntry(e.id) && e.reference == ToMoneyMovement(m.id)
    && m.movementType == (if kind.OriginalTarget? then Describe(domain).movementType else CorrectionMovementType)
    && Some(e.entryType) == (if kind.OriginalTarget? then Describe(domain).entryType else Some(CorrectionEntryType))
    && OwnerDeltasMatch(Describe(domain), m, e)
  }

  predicate OwnerFactsShape(f: Facts, operation: OperationId, domain: Domain, kind: TargetKind) {
    var n := if kind.OriginalTarget? then 0 else 1;
    && |f.movements| == |f.owners| == n + 1
    && OwnerShape(operation, domain, kind, f.movements[n], f.owners[n])
    && f.movements[n].id == FactId(operation, RoleFor(kind, OwnerMoney))
    && f.owners[n].id == FactId(operation, RoleFor(kind, OwnerEntryFact))
    && (n == 1 ==> f.movements[0].id.role.Reversal? && f.owners[0].id.role.Reversal?)
  }

  lemma OriginalOwnerFacts(i: OriginalInput)
    requires Post(i).WellFormed() && !i.domain.OpeningBalance? && !i.domain.InternalTransfer?
    ensures OwnerFactsShape(OriginalFacts(i), i.operation, i.domain, OriginalTarget)
  {
    var f := OriginalFacts(i);
    OwnerDeltas(i.domain, i.amount, f.movements[0], f.owners[0]);
  }

  lemma ReplacementOwnerFacts(i: CorrectionInput, m: Movement, e: OwnerEntry)
    requires Correct(i).WellFormed() && i.replacement.Some? && !i.domain.OpeningBalance? && !i.domain.InternalTransfer?
    ensures OwnerFactsShape(OwnerCorrection(i, i.domain, m, e), i.operation, i.domain, ReplacementTarget)
  {
    var f := OwnerCorrection(i, i.domain, m, e);
    OwnerDeltas(i.domain, i.replacement.value.amount, f.movements[1], f.owners[1]);
  }

  lemma EventLiesInDomain(row: OperationRow, domain: Domain)
    requires Correctable(row, domain) && EventOf(row).Some?
    ensures EventIn(EventOf(row).value, domain) && EventOf(row).value.operation == row.operation
  {
  }

  lemma OwnerRowShape(history: seq<OperationRow>, row: OperationRow, domain: Domain)
    requires !domain.OpeningBalance? && !domain.InternalTransfer?
    requires RowOk(history, row) && Correctable(row, domain)
    ensures OwnerFactsShape(RowFacts(row), row.operation, domain, KindOf(row))
  {
    match row.identity.digest {
      case Post(i) => OriginalOwnerFacts(i);
      case Correct(i) =>
        EventLiesInDomain(FindOperation(history, i.target).value, domain);
        var target := EventOf(FindOperation(history, i.target).value).value;
        ReplacementOwnerFacts(i, target.movement, target.entry);
    }
  }

  lemma OwnerFactsAreRead(t: Tables, row: OperationRow, domain: Domain, n: nat)
    requires ValidHistory(t.operations) && FactsStored(t) && FindOperation(t.operations, row.operation) == Some(row)
    requires OwnerFactsShape(RowFacts(row), row.operation, domain, KindOf(row)) && n == (if KindOf(row).OriginalTarget? then 0 else 1)
    ensures ReadMovement(t.movements, FactId(row.operation, RoleFor(KindOf(row), OwnerMoney))) == Some(RowFacts(row).movements[n])
    ensures ReadOwnerEntry(t.owners, FactId(row.operation, RoleFor(KindOf(row), OwnerEntryFact))) == Some(RowFacts(row).owners[n])
  {
    var (op, kind, f) := (row.operation, KindOf(row), RowFacts(row));
    ReadsComeFromTheRow(t.operations, FactId(op, RoleFor(kind, OwnerMoney)));
    ReadsComeFromTheRow(t.operations, FactId(op, RoleFor(kind, OwnerEntryFact)));
    ReadMovementAt(f.movements, n);
    ReadOwnerAt(f.owners, n);
  }

  lemma LoadsOwner(t: Tables, history: seq<OperationRow>, row: OperationRow, domain: Domain)
    requires ValidHistory(t.operations) && FactsStored(t)
    requires !domain.OpeningBalance? && !domain.InternalTransfer?
    requires RowOk(history, row) && Correctable(row, domain)
    requires FindOperation(t.operations, row.operation) == Some(row)
    ensures EventOf(row).Some? && EventOf(row).value.OwnerEvent? && EventIn(EventOf(row).value, domain)
    ensures LoadOwner(t, row.operation, domain, KindOf(row)) == Ok(EventOf(row).value)
  {
    var (op, kind, f) := (row.operation, KindOf(row), RowFacts(row));
    OwnerRowShape(history, row, domain);
    var n := if kind.OriginalTarget? then 0 else 1;
    assert EventOf(row) == Some(OwnerEvent(domain, op, f.movements[n], f.owners[n]));
    OwnerFactsAreRead(t, row, domain, n);
    ShapeLoads(t, op, domain, kind, f.movements[n], f.owners[n]);
  }

  lemma ShapeLoads(t: Tables, op: OperationId, domain: Domain, kind: TargetKind, m: Movement, e: OwnerEntry)
    requires OwnerShape(op, domain, kind, m, e)
    requires ReadMovement(t.movements, FactId(op, RoleFor(kind, OwnerMoney))) == Some(m)
    requires ReadOwnerEntry(t.owners, FactId(op, RoleFor(kind, OwnerEntryFact))) == Some(e)
    ensures LoadOwner(t, op, domain, kind) == Ok(OwnerEvent(domain, op, m, e))
  {
  }

  lemma TransferRowShape(history: seq<OperationRow>, row: OperationRow)
    requires RowOk(history, row) && Correctable(row, InternalTransfer)
    ensures EventOf(row).Some? && EventOf(row).value.TransferEvent? && EventOf(row).value.operation == row.operation
    ensures var e := EventOf(row).value;
            && TransferShape(row.operation, KindOf(row), e.transfer, e.source, e.destination)
            && e.transfer.id == FactId(row.operation, RoleFor(KindOf(row), TransferHeader))
            && e.source.id == FactId(row.operation, RoleFor(KindOf(row), TransferSource))
            && e.destination.id == FactId(row.operation, RoleFor(KindOf(row), TransferDestination))
            && RowFacts(row).transfers == [e.transfer]
            && RowFacts(row).movements[|RowFacts(row).movements| - 2..] == [e.source, e.destination]
            && (row.identity.digest.Correct? ==> |RowFacts(row).movements| == 4 && (forall k | 0 <= k < 2 :: RowFacts(row).movements[k].id.role.Reversal?))
            && (row.identity.digest.Post? ==> |RowFacts(row).movements| == 2)
  {
  }

  lemma TransferShapeLoads(t: Tables, op: OperationId, kind: TargetKind, h: Transfer, s: Movement, d: Movement)
    requires TransferShape(op, kind, h, s, d)
    requires ReadTransfer(t.transfers, FactId(op, RoleFor(kind, TransferHeader))) == Some(h)
    requires ReadMovement(t.movements, FactId(op, RoleFor(kind, TransferSource))) == Some(s)
    requires ReadMovement(t.movements, FactId(op, RoleFor(kind, TransferDestination))) == Some(d)
    ensures LoadTransfer(t, op, kind) == Ok(TransferEvent(op, h, s, d))
  {
  }

  /** The two legs of a transfer's event are the last two movements that its row wrote. */
  lemma LegsAreRead(movements: seq<Movement>, op: OperationId, kind: TargetKind, s: Movement, d: Movement)
    requires |movements| >= 2 && movements[|movements| - 2] == s && movements[|movements| - 1] == d
    requires s.id == FactId(op, RoleFor(kind, TransferSource)) && d.id == FactId(op, RoleFor(kind, TransferDestination))
    requires forall k | 0 <= k < |movements| - 2 :: movements[k].id.role.Reversal?
    ensures ReadMovement(movements, s.id) == Some(s) && ReadMovement(movements, d.id) == Some(d)
  {
    ReadMovementAt(movements, |movements| - 2);
    ReadMovementAt(movements, |movements| - 1);
  }

  lemma LoadsTransfer(t: Tables, history: seq<OperationRow>, row: OperationRow)
    requires ValidHistory(t.operations) && FactsStored(t)
    requires RowOk(history, row) && Correctable(row, InternalTransfer)
    requires FindOperation(t.operations, row.operation) == Some(row)
    ensures EventOf(row).Some? && EventOf(row).value.TransferEvent?
    ensures LoadTransfer(t, row.operation, KindOf(row)) == Ok(EventOf(row).value)
  {
    var (op, kind) := (row.operation, KindOf(row));
    TransferRowShape(history, row);
    ReadsComeFromTheRow(t.operations, FactId(op, RoleFor(kind, TransferHeader)));
    ReadsComeFromTheRow(t.operations, FactId(op, RoleFor(kind, TransferSource)));
    ReadsComeFromTheRow(t.operations, FactId(op, RoleFor(kind, TransferDestination)));
    var movements := RowFacts(row).movements;
    var e := EventOf(row).value;
    assert movements[|movements| - 2] == movements[|movements| - 2..][0] && movements[|movements| - 1] == movements[|movements| - 2..][1];
    LegsAreRead(movements, op, kind, e.source, e.destination);
    TransferShapeLoads(t, op, kind, e.transfer, e.source, e.destination);
  }

  /** The facts of an original, or of a replacement written for any earlier event, pass every
      loader check when they are targeted; only an opening balance of zero leaves nothing to load. */
  lemma LoaderAcceptsWriter(t: Tables, history: seq<OperationRow>, row: OperationRow, domain: Domain)
    requires ValidHistory(t.operations) && FactsStored(t)
    requires RowOk(history, row) && Correctable(row, domain)
    requires FindOperation(t.operations, row.operation) == Some(row)
    ensures LoadEvent(t, row.operation, domain, KindOf(row))
         == if EventOf(row).Some? then Ok(EventOf(row).value) else Err(TargetIntegrityConflict)
    ensures EventOf(row).Some? ==> EventIn(EventOf(row).value, domain)
    ensures EventOf(row).None? <==> row.identity.digest.Post? && domain.OpeningBalance? && row.identity.digest.original.amount == 0
  {
    match domain
    case OpeningBalance => LoadsOpening(t, history, row);
    case InternalTransfer => LoadsTransfer(t, history, row);
    case _ => LoadsOwner(t, history, row, domain);
  }
}
