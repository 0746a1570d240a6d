/** The stored response of a correction and the parser that reads it back, field by field, for a retry. */
module CorrectionResponse {
  import opened Wrappers
  import opened Ledger
  import opened History
  import opened Interleaving
  import opened Runs

  /* ---- Amounts as text ---- */

  function DigitText(n: nat): (s: string)
    ensures s != []
  {
    if n < 10 then [('0' as int + n) as char] else DigitText(n / 10) + [('0' as int + n % 10) as char]
  }

  function Text(n: int): string { if n < 0 then "-" + DigitText(-n) else DigitText(n) }

  /** `^[1-9]\d*$`. */
  predicate IsPositiveText(s: string) {
    s != [] && '1' <= s[0] <= '9' && forall k | 0 <= k < |s| :: '0' <= s[k] <= '9'
  }

  /** `^-?[1-9]\d*$`. */
  predicate IsNonZeroText(s: string) { IsPositiveText(if s != [] && s[0] == '-' then s[1..] else s) }

  /** `^-?(0|[1-9]\d*)$`. */
  predicate IsIntegerText(s: string) { s == "0" || s == "-0" || IsNonZeroText(s) }

  lemma {:induction false} DigitTextIsPositive(n: nat)
    requires n > 0
    ensures IsPositiveText(DigitText(n))
  {
    if n >= 10 { DigitTextIsPositive(n / 10); }
  }

  lemma TextShapes(n: int)
    ensures n > 0 ==> IsPositiveText(Text(n)) && Text(-n) == "-" + Text(n)
    ensures n != 0 ==> IsNonZeroText(Text(n)) && Text(n) != "0"
    ensures IsIntegerText(Text(n))
  {
    if n > 0 {
      DigitTextIsPositive(n);
    } else if n < 0 {
      DigitTextIsPositive(-n);
      assert Text(n)[1..] == DigitText(-n);
    } else {
      assert Text(n) == "0";
    }
  }

  /** The number that the decimal digits of a text spell. */
  function Number(s: string): int {
    if s == [] then 0 else Number(s[..|s| - 1]) * 10 + (s[|s| - 1] as int - '0' as int)
  }

  lemma {:induction false} NumberOfText(n: nat)
    ensures Number(DigitText(n)) == n
  {
    var s := DigitText(n);
    if n < 10 {
      assert s[..0] == [];
    } else {
      NumberOfText(n / 10);
      assert s[..|s| - 1] == DigitText(n / 10);
    }
  }

  /** Each amount has its own text, so the amount read back is the amount posted. */
  lemma TextIsOneToOne(m: int, n: int)
    requires Text(m) == Text(n)
    ensures m == n
  {
    FirstDigit(m);
    FirstDigit(n);
    if m < 0 {
      assert Text(m)[1..] == DigitText(-m) && Text(n)[1..] == DigitText(-n);
      NumberOfText(-m);
      NumberOfText(-n);
    } else {
      NumberOfText(m);
      NumberOfText(n);
    }
  }

  lemma FirstDigit(n: int)
    ensures Text(n)[0] == '-' <==> n < 0
  {
    if n > 0 { DigitTextIsPositive(n); }
  }

  /* ---- Stored values ---- */

  /** Everything that has the form of a UUID. */
  datatype Uuid =
    | OfFact(fact: FactId) | OfFactOperation(factOperation: FactOperationId) | OfOperation(operation: OperationId)
    | OfAccount(account: AccountId) | OfPeriod(period: PeriodId)

  datatype StoredMovement = StoredMovement(
    id: Uuid, account: Uuid, period: Uuid, amount: string, group: Uuid, operation: Uuid,
    occurredAt: Instant, createdAt: Instant, reversalOf: Option<Uuid>)

  datatype StoredEntry = StoredEntry(
    id: Uuid, liability: string, equity: string, account: Option<Uuid>, group: Uuid, operation: Uuid,
    occurredAt: Instant, createdAt: Instant, reversalOf: Option<Uuid>)

  datatype StoredTransfer = StoredTransfer(
    id: Uuid, displayNumber: string, source: Uuid, destination: Uuid, amount: string, transferAt: Instant,
    sourceMovement: Uuid, destinationMovement: Uuid, operation: Uuid,
    createdAt: Instant, updatedAt: Instant, version: string)

  datatype StoredResponse = StoredResponse(
    operation: Uuid, target: Uuid, domain: Domain, kind: Kind, postingDate: string, period: Uuid,
    movements: seq<StoredMovement>, owners: seq<StoredEntry>, transfer: Option<StoredTransfer>)

  /** What the database adds to the facts of a response. */
  datatype Stamp = Stamp(postingDate: string, createdAt: Instant, displayNumber: string)

  function UuidOf(id: Option<FactId>): Option<Uuid> { if id.Some? then Some(OfFact(id.value)) else None }

  function MovementView(m: Movement, stamp: Stamp): StoredMovement {
    StoredMovement(OfFact(m.id), OfAccount(m.account), OfPeriod(m.period), Text(m.delta), OfOperation(m.group),
                   OfFactOperation(m.factOperation), m.occurredAt, stamp.createdAt, UuidOf(m.reversalOf))
  }

  function EntryView(e: OwnerEntry, stamp: Stamp): StoredEntry {
    StoredEntry(OfFact(e.id), Text(e.liabilityDelta), Text(e.equityDelta),
                if e.account.Some? then Some(OfAccount(e.account.value)) else None, OfOperation(e.group),
                OfFactOperation(e.factOperation), e.occurredAt, stamp.createdAt, UuidOf(e.reversalOf))
  }

  function TransferView(t: Transfer, stamp: Stamp): StoredTransfer {
    StoredTransfer(OfFact(t.id), stamp.displayNumber, OfAccount(t.source), OfAccount(t.destination), Text(t.amount), t.transferAt,
                   OfFact(t.sourceMovement), OfFact(t.destinationMovement), OfFactOperation(t.factOperation),
                   stamp.createdAt, stamp.createdAt, "1")
  }

  /** The response of a correction. */
  function Build(i: CorrectionInput, f: Facts, stamp: Stamp): StoredResponse {
    StoredResponse(OfOperation(i.operation), OfOperation(i.target), i.domain, i.kind, stamp.postingDate, OfPeriod(i.period),
           seq(|f.movements|, k requires 0 <= k < |f.movements| => MovementView(f.movements[k], stamp)),
           seq(|f.owners|, k requires 0 <= k < |f.owners| => EntryView(f.owners[k], stamp)),
           if f.transfers == [] then None else Some(TransferView(f.transfers[0], stamp)))
  }

  /* ---- JSON ---- */

  datatype Name =
    | Id | AccountId | AccountingPeriodId | MovementType | EntryType | AmountDelta | LiabilityDelta | EquityDelta
    | MoneyAccountId | TransactionGroupId | OperationIdName | OccurredAt | CreatedAt | UpdatedAt | ReversalOfId
    | DisplayNumber | SourceAccountId | DestinationAccountId | AmountMinor | TransferAt | SourceMovementId
    | DestinationMovementId | StatusName | VersionName | TargetOperationId | DomainName | CorrectionKind
    | PostingDateName | Movements | OwnerEntries | ReplacementTransfer

  /** A stored JSON value; a text that has the form of a UUID or of an instant stands for it. */
  datatype Value =
    | Null | Str(text: string) | UuidText(id: Uuid) | TimeText(at: Instant)
    | List(items: seq<Value>) | Record(fields: map<Name, Value>)

  function Field(v: Value, name: Name): Option<Value> {
    if v.Record? && name in v.fields then Some(v.fields[name]) else None
  }

  function OrNull(id: Option<Uuid>): Value { if id.Some? then UuidText(id.value) else Null }

  function EncodeMovement(m: StoredMovement): Value {
    Record(map[Id := UuidText(m.id), AccountId := UuidText(m.account), AccountingPeriodId := UuidText(m.period),
               MovementType := Str("correction"), AmountDelta := Str(m.amount), TransactionGroupId := UuidText(m.group),
               OperationIdName := UuidText(m.operation), OccurredAt := TimeText(m.occurredAt),
               CreatedAt := TimeText(m.createdAt), ReversalOfId := OrNull(m.reversalOf)])
  }

  function EncodeEntry(e: StoredEntry): Value {
    Record(map[Id := UuidText(e.id), EntryType := Str("correction"), LiabilityDelta := Str(e.liability),
               EquityDelta := Str(e.equity), MoneyAccountId := OrNull(e.account), TransactionGroupId := UuidText(e.group),
               OperationIdName := UuidText(e.operation), OccurredAt := TimeText(e.occurredAt),
               CreatedAt := TimeText(e.createdAt), ReversalOfId := OrNull(e.reversalOf)])
  }

  function EncodeTransfer(t: StoredTransfer): Value {
    Record(map[Id := UuidText(t.id), DisplayNumber := Str(t.displayNumber), SourceAccountId := UuidText(t.source),
               DestinationAccountId := UuidText(t.destination), AmountMinor := Str(t.amount), TransferAt := TimeText(t.transferAt),
               SourceMovementId := UuidText(t.sourceMovement), DestinationMovementId := UuidText(t.destinationMovement),
               StatusName := Str("posted"), OperationIdName := UuidText(t.operation), CreatedAt := TimeText(t.createdAt),
               UpdatedAt := TimeText(t.updatedAt), VersionName := Str(t.version)])
  }

  function DomainText(domain: Domain): string {
    match domain
    case OpeningBalance => "opening_balance"
    case OwnerContribution => "owner_contribution"
    case OwnerLoan => "owner_loan"
    case OwnerReimbursement => "owner_reimbursement"
    case OwnerPersonalWithdrawal => "owner_personal_withdrawal"
    case OwnerCapitalWithdrawal => "owner_capital_withdrawal"
    case InternalTransfer => "internal_transfer"
  }

  function KindText(kind: Kind): string { if kind.ReversalKind? then "reversal" else "replacement" }

  function Encode(s: StoredResponse): Value {
    Record(map[OperationIdName := UuidText(s.operation), TargetOperationId := UuidText(s.target), DomainName := Str(DomainText(s.domain)),
               CorrectionKind := Str(KindText(s.kind)), PostingDateName := Str(s.postingDate),
               AccountingPeriodId := UuidText(s.period),
               Movements := List(seq(|s.movements|, k requires 0 <= k < |s.movements| => EncodeMovement(s.movements[k]))),
               OwnerEntries := List(seq(|s.owners|, k requires 0 <= k < |s.owners| => EncodeEntry(s.owners[k]))),
               ReplacementTransfer := if s.transfer.Some? then EncodeTransfer(s.transfer.value) else Null])
  }

  /* ---- The parser ---- */

  predicate IsUuid(v: Value, name: Name) { Field(v, name).Some? && Field(v, name).value.UuidText? }
  predicate IsNullOrUuid(v: Value, name: Name) { Field(v, name) == Some(Null) || IsUuid(v, name) }
  predicate IsTime(v: Value, name: Name) { Field(v, name).Some? && Field(v, name).value.TimeText? }
  predicate IsText(v: Value, name: Name) { Field(v, name).Some? && Field(v, name).value.Str? }

  function UuidAt(v: Value, name: Name): Uuid
    requires IsUuid(v, name)
  {
    Field(v, name).value.id
  }

  function MaybeUuidAt(v: Value, name: Name): Option<Uuid>
    requires IsNullOrUuid(v, name)
  {
    if Field(v, name) == Some(Null) then None else Some(UuidAt(v, name))
  }

  function TimeAt(v: Value, name: Name): Instant
    requires IsTime(v, name)
  {
    Field(v, name).value.at
  }

  function TextAt(v: Value, name: Name): string
    requires IsText(v, name)
  {
    Field(v, name).value.text
  }

  function ParseMovement(v: Value): Option<StoredMovement> {
    if IsUuid(v, Id) && IsUuid(v, AccountId) && IsUuid(v, AccountingPeriodId)
       && Field(v, MovementType) == Some(Str("correction"))
       && IsText(v, AmountDelta) && IsNonZeroText(TextAt(v, AmountDelta))
       && IsUuid(v, TransactionGroupId) && IsUuid(v, OperationIdName)
       && IsTime(v, OccurredAt) && IsTime(v, CreatedAt) && IsNullOrUuid(v, ReversalOfId)
    then Some(StoredMovement(UuidAt(v, Id), UuidAt(v, AccountId), UuidAt(v, AccountingPeriodId), TextAt(v, AmountDelta),
                             UuidAt(v, TransactionGroupId), UuidAt(v, OperationIdName), TimeAt(v, OccurredAt),
                             TimeAt(v, CreatedAt), MaybeUuidAt(v, ReversalOfId)))
    else None
  }

  function ParseEntry(v: Value): Option<StoredEntry> {
    if IsUuid(v, Id) && Field(v, EntryType) == Some(Str("correction"))
       && IsText(v, LiabilityDelta) && IsIntegerText(TextAt(v, LiabilityDelta))
       && IsText(v, EquityDelta) && IsIntegerText(TextAt(v, EquityDelta))
       && !(TextAt(v, LiabilityDelta) == "0" && TextAt(v, EquityDelta) == "0")
       && IsNullOrUuid(v, MoneyAccountId) && IsUuid(v, TransactionGroupId) && IsUuid(v, OperationIdName)
       && IsTime(v, OccurredAt) && IsTime(v, CreatedAt) && IsNullOrUuid(v, ReversalOfId)
    then Some(StoredEntry(UuidAt(v, Id), TextAt(v, LiabilityDelta), TextAt(v, EquityDelta), MaybeUuidAt(v, MoneyAccountId),
                          UuidAt(v, TransactionGroupId), UuidAt(v, OperationIdName), TimeAt(v, OccurredAt),
                          TimeAt(v, CreatedAt), MaybeUuidAt(v, ReversalOfId)))
    else None
  }

  function ParseTransfer(v: Value): Option<StoredTransfer> {
    if IsUuid(v, Id) && IsText(v, DisplayNumber) && TextAt(v, DisplayNumber) != ""
       && IsUuid(v, SourceAccountId) && IsUuid(v, DestinationAccountId)
       && UuidAt(v, SourceAccountId) != UuidAt(v, DestinationAccountId)
       && IsText(v, AmountMinor) && IsPositiveText(TextAt(v, AmountMinor)) && IsTime(v, TransferAt)
       && IsUuid(v, SourceMovementId) && IsUuid(v, DestinationMovementId)
       && UuidAt(v, SourceMovementId) != UuidAt(v, DestinationMovementId)
       && Field(v, StatusName) == Some(Str("posted")) && IsUuid(v, OperationIdName)
       && IsTime(v, CreatedAt) && IsTime(v, UpdatedAt) && IsText(v, VersionName) && IsPositiveText(TextAt(v, VersionName))
    then Some(StoredTransfer(UuidAt(v, Id), TextAt(v, DisplayNumber), UuidAt(v, SourceAccountId), UuidAt(v, DestinationAccountId),
                             TextAt(v, AmountMinor), TimeAt(v, TransferAt), UuidAt(v, SourceMovementId),
                             UuidAt(v, DestinationMovementId), UuidAt(v, OperationIdName), TimeAt(v, CreatedAt),
                             TimeAt(v, UpdatedAt), TextAt(v, VersionName)))
    else None
  }

  function ParseAll<T>(items: seq<Value>, parse: Value -> Option<T>): Option<seq<T>> {
    if items == [] then Some([])
    else
      match (parse(items[0]), ParseAll(items[1..], parse))
      case (Some(first), Some(rest)) => Some([first] + rest)
      case _ => None
  }

  function ParseDomain(text: string): Option<Domain> {
    if text == "opening_balance" then Some(OpeningBalance)
    else if text == "owner_contribution" then Some(OwnerContribution)
    else if text == "owner_loan" then Some(OwnerLoan)
    else if text == "owner_reimbursement" then Some(OwnerReimbursement)
    else if text == "owner_personal_withdrawal" then Some(OwnerPersonalWithdrawal)
    else if text == "owner_capital_withdrawal" then Some(OwnerCapitalWithdrawal)
    else if text == "internal_transfer" then Some(InternalTransfer)
    else None
  }

  function ParseKind(text: string): Option<Kind> {
    if text == "reversal" then Some(ReversalKind) else if text == "replacement" then Some(ReplacementKind) else None
  }

  predicate IsDigit(c: char) { '0' <= c <= '9' }

  /** `^\d{4}-\d{2}-\d{2}$`. */
  predicate IsBusinessDate(s: string) {
    |s| == 10 && forall k | 0 <= k < 10 :: if k == 4 || k == 7 then s[k] == '-' else IsDigit(s[k])
  }

  datatype Roles = Roles(movements: seq<Role>, owners: seq<Role>)

  function ExpectedRoles(domain: Domain, kind: Kind): Roles {
    match domain
    case OpeningBalance =>
      Roles(if kind.ReplacementKind? then [Reversal(Opening), Replacement(Opening)] else [Reversal(Opening)], [])
    case InternalTransfer =>
      Roles(if kind.ReplacementKind?
            then [Reversal(TransferSource), Reversal(TransferDestination), Replacement(TransferSource), Replacement(TransferDestination)]
            else [Reversal(TransferSource), Reversal(TransferDestination)], [])
    case _ =>
      Roles(if kind.ReplacementKind? then [Reversal(OwnerMoney), Replacement(OwnerMoney)] else [Reversal(OwnerMoney)],
            if kind.ReplacementKind? then [Reversal(OwnerEntryFact), Replacement(OwnerEntryFact)] else [Reversal(OwnerEntryFact)])
  }

  predicate MovementHasRole(s: StoredResponse, m: StoredMovement, role: Role) {
    && s.operation.OfOperation?
    && m.id == OfFact(FactId(s.operation.operation, role))
    && m.operation == OfFactOperation(FactOperationId(s.operation.operation, role))
    && m.group == s.operation && m.period == s.period
    && (role.Reversal? <==> m.reversalOf.Some?)
  }

  predicate EntryHasRole(s: StoredResponse, e: StoredEntry, role: Role) {
    && s.operation.OfOperation?
    && e.id == OfFact(FactId(s.operation.operation, role))
    && e.operation == OfFactOperation(FactOperationId(s.operation.operation, role))
    && e.group == s.operation
    && (role.Reversal? <==> e.reversalOf.Some?)
  }

  predicate IdentitiesMatch(s: StoredResponse, roles: Roles) {
    && |s.movements| == |roles.movements| && |s.owners| == |roles.owners|
    && (forall k | 0 <= k < |s.movements| :: MovementHasRole(s, s.movements[k], roles.movements[k]))
    && (forall k | 0 <= k < |s.owners| :: EntryHasRole(s, s.owners[k], roles.owners[k]))
  }

  predicate TransferMatches(s: StoredResponse) {
    if !s.domain.InternalTransfer? || !s.kind.ReplacementKind? then s.transfer.None?
    else
      && s.transfer.Some? && |s.movements| == 4 && s.operation.OfOperation?
      && var (t, from, to) := (s.transfer.value, s.movements[2], s.movements[3]);
         && t.id == OfFact(FactId(s.operation.operation, Replacement(TransferHeader)))
         && t.operation == OfFactOperation(FactOperationId(s.operation.operation, Replacement(TransferHeader)))
         && t.sourceMovement == from.id && t.destinationMovement == to.id
         && t.source == from.account && t.destination == to.account
         && from.amount == "-" + t.amount && to.amount == t.amount
         && from.occurredAt == t.transferAt && to.occurredAt == t.transferAt
  }

  function ParseMaybeTransfer(v: Value): Option<Option<StoredTransfer>> {
    match Field(v, ReplacementTransfer)
    case None => None
    case Some(Null) => Some(None)
    case Some(t) => if ParseTransfer(t).Some? then Some(ParseTransfer(t)) else None
  }

  predicate HasResponseForm(v: Value) {
    && IsUuid(v, OperationIdName) && IsUuid(v, TargetOperationId)
    && IsText(v, DomainName) && ParseDomain(TextAt(v, DomainName)).Some?
    && IsText(v, CorrectionKind) && ParseKind(TextAt(v, CorrectionKind)).Some?
    && IsText(v, PostingDateName) && IsBusinessDate(TextAt(v, PostingDateName))
    && IsUuid(v, AccountingPeriodId)
    && Field(v, Movements).Some? && Field(v, Movements).value.List?
    && Field(v, OwnerEntries).Some? && Field(v, OwnerEntries).value.List?
  }

  function Assemble(v: Value, movements: seq<StoredMovement>, owners: seq<StoredEntry>, transfer: Option<StoredTransfer>): StoredResponse
    requires HasResponseForm(v)
  {
    StoredResponse(UuidAt(v, OperationIdName), UuidAt(v, TargetOperationId), ParseDomain(TextAt(v, DomainName)).value,
                   ParseKind(TextAt(v, CorrectionKind)).value, TextAt(v, PostingDateName), UuidAt(v, AccountingPeriodId),
                   movements, owners, transfer)
  }

  function Parse(v: Value): Option<StoredResponse> {
    if !HasResponseForm(v) then None
    else
      match (ParseAll(Field(v, Movements).value.items, ParseMovement), ParseAll(Field(v, OwnerEntries).value.items, ParseEntry),
             ParseMaybeTransfer(v))
      case (Some(movements), Some(owners), Some(transfer)) =>
        var s := Assemble(v, movements, owners, transfer);
        if IdentitiesMatch(s, ExpectedRoles(s.domain, s.kind)) && TransferMatches(s) then Some(s) else None
      case _ => None
  }

  /* ---- Every field is read back ---- */

  predicate MovementIsValid(m: StoredMovement) { IsNonZeroText(m.amount) }

  predicate EntryIsValid(e: StoredEntry) {
    IsIntegerText(e.liability) && IsIntegerText(e.equity) && !(e.liability == "0" && e.equity == "0")
  }

  predicate TransferIsValid(t: StoredTransfer) {
    && t.displayNumber != "" && t.source != t.destination && IsPositiveText(t.amount)
    && t.sourceMovement != t.destinationMovement && IsPositiveText(t.version)
  }

  lemma MovementIsReadBack(m: StoredMovement)
    ensures ParseMovement(EncodeMovement(m)) == if MovementIsValid(m) then Some(m) else None
  {
  }

  lemma EntryIsReadBack(e: StoredEntry)
    ensures ParseEntry(EncodeEntry(e)) == if EntryIsValid(e) then Some(e) else None
  {
  }

  lemma TransferPartiesAreRead(t: StoredTransfer)
    ensures var v := EncodeTransfer(t);
            && Field(v, Id) == Some(UuidText(t.id)) && Field(v, DisplayNumber) == Some(Str(t.displayNumber))
            && Field(v, SourceAccountId) == Some(UuidText(t.source)) && Field(v, DestinationAccountId) == Some(UuidText(t.destination))
            && Field(v, AmountMinor) == Some(Str(t.amount)) && Field(v, TransferAt) == Some(TimeText(t.transferAt))
  {
  }

  lemma TransferKeysAreRead(t: StoredTransfer)
    ensures var v := EncodeTransfer(t);
            && Field(v, SourceMovementId) == Some(UuidText(t.sourceMovement))
            && Field(v, DestinationMovementId) == Some(UuidText(t.destinationMovement))
            && Field(v, StatusName) == Some(Str("posted")) && Field(v, OperationIdName) == Some(UuidText(t.operation))
            && Field(v, CreatedAt) == Some(TimeText(t.createdAt)) && Field(v, UpdatedAt) == Some(TimeText(t.updatedAt))
            && Field(v, VersionName) == Some(Str(t.version))
  {
  }

  lemma TransferIsReadBack(t: StoredTransfer)
    ensures ParseTransfer(EncodeTransfer(t)) == if TransferIsValid(t) then Some(t) else None
  {
    TransferPartiesAreRead(t);
    TransferKeysAreRead(t);
  }

  lemma {:induction false} AllAreReadBack<T>(items: seq<Value>, parse: Value -> Option<T>, values: seq<T>)
    requires |items| == |values| && forall k | 0 <= k < |items| :: parse(items[k]) == Some(values[k])
    ensures ParseAll(items, parse) == Some(values)
  {
    if items != [] {
      AllAreReadBack(items[1..], parse, values[1..]);
      assert values == [values[0]] + values[1..];
    }
  }

  lemma DomainIsReadBack(domain: Domain)
    ensures ParseDomain(DomainText(domain)) == Some(domain)
  {
  }

  lemma KindIsReadBack(kind: Kind)
    ensures ParseKind(KindText(kind)) == Some(kind)
  {
  }

  /** What the parser asks of a response. */
  predicate Acceptable(s: StoredResponse) {
    && IsBusinessDate(s.postingDate)
    && (forall k | 0 <= k < |s.movements| :: MovementIsValid(s.movements[k]))
    && (forall k | 0 <= k < |s.owners| :: EntryIsValid(s.owners[k]))
    && (s.transfer.Some? ==> TransferIsValid(s.transfer.value))
    && IdentitiesMatch(s, ExpectedRoles(s.domain, s.kind)) && TransferMatches(s)
  }

  lemma MovementsAreReadBack(s: StoredResponse)
    requires forall k | 0 <= k < |s.movements| :: MovementIsValid(s.movements[k])
    ensures ParseAll(Field(Encode(s), Movements).value.items, ParseMovement) == Some(s.movements)
  {
    var items := Field(Encode(s), Movements).value.items;
    forall k | 0 <= k < |items| ensures ParseMovement(items[k]) == Some(s.movements[k]) {
      MovementIsReadBack(s.movements[k]);
    }
    AllAreReadBack(items, ParseMovement, s.movements);
  }

  lemma EntriesAreReadBack(s: StoredResponse)
    requires forall k | 0 <= k < |s.owners| :: EntryIsValid(s.owners[k])
    ensures ParseAll(Field(Encode(s), OwnerEntries).value.items, ParseEntry) == Some(s.owners)
  {
    var items := Field(Encode(s), OwnerEntries).value.items;
    forall k | 0 <= k < |items| ensures ParseEntry(items[k]) == Some(s.owners[k]) {
      EntryIsReadBack(s.owners[k]);
    }
    AllAreReadBack(items, ParseEntry, s.owners);
  }

  lemma TransferPartIsReadBack(s: StoredResponse)
    requires s.transfer.Some? ==> TransferIsValid(s.transfer.value)
    ensures ParseMaybeTransfer(Encode(s)) == Some(s.transfer)
  {
    if s.transfer.Some? { TransferIsReadBack(s.transfer.value); }
  }

  lemma FormIsReadBack(s: StoredResponse)
    requires IsBusinessDate(s.postingDate)
    ensures HasResponseForm(Encode(s)) && Assemble(Encode(s), s.movements, s.owners, s.transfer) == s
  {
    DomainIsReadBack(s.domain);
    KindIsReadBack(s.kind);
  }

  lemma PartsAreRead(v: Value, s: StoredResponse)
    requires HasResponseForm(v) && Assemble(v, s.movements, s.owners, s.transfer) == s
    requires ParseAll(Field(v, Movements).value.items, ParseMovement) == Some(s.movements)
    requires ParseAll(Field(v, OwnerEntries).value.items, ParseEntry) == Some(s.owners)
    requires ParseMaybeTransfer(v) == Some(s.transfer)
    requires IdentitiesMatch(s, ExpectedRoles(s.domain, s.kind)) && TransferMatches(s)
    ensures Parse(v) == Some(s)
  {
  }

  /** A response is read back, unchanged in every field, if it is acceptable. */
  lemma AcceptableIsReadBack(s: StoredResponse)
    requires Acceptable(s)
    ensures Parse(Encode(s)) == Some(s)
  {
    FormIsReadBack(s);
    MovementsAreReadBack(s);
    EntriesAreReadBack(s);
    TransferPartIsReadBack(s);
    PartsAreRead(Encode(s), s);
  }

  /* ---- What is stored is accepted ---- */

  /** An event with something to reverse, as every correctable event has. */
  predicate Substantial(e: Event) {
    match e
    case OpeningEvent(_, m) => m.delta != 0
    case OwnerEvent(_, _, m, entry) => m.delta != 0 && (entry.liabilityDelta != 0 || entry.equityDelta != 0)
    case TransferEvent(_, t, s, d) => t.amount > 0
  }

  lemma EventsAreSubstantial(history: seq<OperationRow>, row: OperationRow, domain: Domain)
    requires RowOk(history, row) && Correctable(row, domain) && EventOf(row).Some?
    ensures Substantial(EventOf(row).value)
  {
    match domain
    case OpeningBalance => OpeningRowShape(history, row);
    case InternalTransfer =>
      if row.identity.digest.Correct? {
        EventLiesInDomain(FindOperation(history, row.identity.digest.correction.target).value, domain);
      }
    case _ => OwnersAreSubstantial(history, row, domain);
  }

  lemma OwnersAreSubstantial(history: seq<OperationRow>, row: OperationRow, domain: Domain)
    requires !domain.OpeningBalance? && !domain.InternalTransfer?
    requires RowOk(history, row) && Correctable(row, domain) && EventOf(row).Some?
    ensures Substantial(EventOf(row).value)
  {
    if row.identity.digest.Correct? {
      EventLiesInDomain(FindOperation(history, row.identity.digest.correction.target).value, domain);
    }
  }

  /** Facts that each change something. */
  predicate SubstantialFacts(f: Facts) {
    && (forall m | m in f.movements :: m.movementType.CorrectionMovementType? && m.delta != 0)
    && (forall e | e in f.owners :: e.entryType.CorrectionEntryType? && (e.liabilityDelta != 0 || e.equityDelta != 0))
  }

  lemma ViewsAreValid(i: CorrectionInput, f: Facts, stamp: Stamp)
    requires SubstantialFacts(f)
    ensures var s := Build(i, f, stamp);
            && (forall k | 0 <= k < |s.movements| :: MovementIsValid(s.movements[k]))
            && (forall k | 0 <= k < |s.owners| :: EntryIsValid(s.owners[k]))
  {
    forall k | 0 <= k < |f.movements| ensures MovementIsValid(MovementView(f.movements[k], stamp)) {
      assert f.movements[k] in f.movements;
      TextShapes(f.movements[k].delta);
    }
    forall k | 0 <= k < |f.owners| ensures EntryIsValid(EntryView(f.owners[k], stamp)) {
      assert f.owners[k] in f.owners;
      TextShapes(f.owners[k].liabilityDelta);
      TextShapes(f.owners[k].equityDelta);
    }
  }

  lemma CorrectionsAreSubstantial(i: CorrectionInput, e: Event)
    requires Correct(i).WellFormed() && EventIn(e, i.domain) && Substantial(e)
    ensures SubstantialFacts(CorrectionFacts(i, e))
  {
  }

  lemma MovementsHaveRoles(i: CorrectionInput, e: Event, stamp: Stamp)
    requires Correct(i).WellFormed() && EventIn(e, i.domain)
    ensures var (s, roles) := (Build(i, CorrectionFacts(i, e), stamp), ExpectedRoles(i.domain, i.kind).movements);
            |s.movements| == |roles| && forall k | 0 <= k < |roles| :: MovementHasRole(s, s.movements[k], roles[k])
  {
  }

  lemma EntriesHaveRoles(i: CorrectionInput, e: Event, stamp: Stamp)
    requires Correct(i).WellFormed() && EventIn(e, i.domain)
    ensures var (s, roles) := (Build(i, CorrectionFacts(i, e), stamp), ExpectedRoles(i.domain, i.kind).owners);
            |s.owners| == |roles| && forall k | 0 <= k < |roles| :: EntryHasRole(s, s.owners[k], roles[k])
  {
  }

  lemma RolesMatch(i: CorrectionInput, e: Event, stamp: Stamp)
    requires Correct(i).WellFormed() && EventIn(e, i.domain)
    ensures IdentitiesMatch(Build(i, CorrectionFacts(i, e), stamp), ExpectedRoles(i.domain, i.kind))
  {
    MovementsHaveRoles(i, e, stamp);
    EntriesHaveRoles(i, e, stamp);
  }

  lemma HeaderMatches(i: CorrectionInput, e: Event, stamp: Stamp)
    requires Correct(i).WellFormed() && EventIn(e, i.domain) && CheckReplacement(i, e).Ok? && stamp.displayNumber != ""
    ensures var s := Build(i, CorrectionFacts(i, e), stamp);
            TransferMatches(s) && (s.transfer.Some? ==> TransferIsValid(s.transfer.value))
  {
    if e.TransferEvent? && i.replacement.Some? {
      TextShapes(i.replacement.value.amount);
    }
  }

  /** The stored response of an applied correction. */
  function StoredOf(row: OperationRow, stamp: Stamp): StoredResponse
    requires IsAppliedCorrection(row)
  {
    Build(row.identity.digest.correction, row.status.response.facts, stamp)
  }

  lemma RowIsAccepted(history: seq<OperationRow>, row: OperationRow, stamp: Stamp)
    requires ValidHistory(history) && RowOk(history, row) && IsAppliedCorrection(row)
    requires IsBusinessDate(stamp.postingDate) && stamp.displayNumber != ""
    ensures Acceptable(StoredOf(row, stamp))
  {
    var i := row.identity.digest.correction;
    var target := FindOperation(history, i.target).value;
    var k := Found(history, i.target);
    PrefixIsValid(history, k);
    EventsAreSubstantial(history[..k], target, i.domain);
    EventLiesInDomain(target, i.domain);
    var event := EventOf(target).value;
    CorrectionsAreSubstantial(i, event);
    ViewsAreValid(i, CorrectionFacts(i, event), stamp);
    RolesMatch(i, event, stamp);
    HeaderMatches(i, event, stamp);
  }

  /** In every reachable state the stored response of every applied correction is parsed back unchanged,
      so a retry is answered with what was posted. */
  lemma StoredResponsesAreAccepted(db: Db, steps: seq<Step>, k: nat, stamp: Stamp)
    requires DbOk(db) && k < |Run(db, steps).tables.operations| && IsAppliedCorrection(Run(db, steps).tables.operations[k])
    requires IsBusinessDate(stamp.postingDate) && stamp.displayNumber != ""
    ensures var s := StoredOf(Run(db, steps).tables.operations[k], stamp); Parse(Encode(s)) == Some(s)
  {
    var rows := Run(db, steps).tables.operations;
    RunKeeps(db, steps);
    PrefixIsValid(rows, k);
    RowIsAccepted(rows[..k], rows[k], stamp);
    AcceptableIsReadBack(StoredOf(rows[k], stamp));
  }

  /** Each key a response names is the one its operation and its place in the response stand for, so a
      response accepted for one operation is never accepted for another. */
  lemma AcceptedBelongsToItsOperation(v: Value, other: Uuid)
    requires Parse(v).Some? && other != Parse(v).value.operation
    ensures Parse(Record(v.fields[OperationIdName := UuidText(other)])).None?
  {
    var (s, u) := (Parse(v).value, Record(v.fields[OperationIdName := UuidText(other)]));
    assert Field(u, Movements) == Field(v, Movements);
    var roles := ExpectedRoles(s.domain, s.kind);
    assert MovementHasRole(s, s.movements[0], roles.movements[0]);
    assert s.movements[0].group != other;
  }

  /* ---- What an accepted response says ---- */

  lemma {:induction false} DigitsAreCanonical(s: string)
    requires IsPositiveText(s)
    ensures Number(s) > 0 && DigitText(Number(s)) == s
  {
    var (front, last) := (s[..|s| - 1], s[|s| - 1]);
    if front == [] {
      assert s == [last] && Number(front) == 0;
    } else {
      DigitsAreCanonical(front);
      LastDigitOf(Number(front), last as int - '0' as int);
      assert s == front + [last];
    }
  }

  lemma LastDigitOf(tens: nat, ones: int)
    requires tens > 0 && 0 <= ones < 10
    ensures (tens * 10 + ones) / 10 == tens && (tens * 10 + ones) % 10 == ones && tens * 10 + ones >= 10
  {
  }

  /** The texts of numbers other than zero are exactly those of the pattern. */
  lemma NonZeroTexts(s: string)
    requires IsNonZeroText(s)
    ensures exists n :: n != 0 && s == Text(n)
  {
    if s[0] == '-' {
      DigitsAreCanonical(s[1..]);
      assert s == "-" + s[1..];
      assert s == Text(-Number(s[1..]));
    } else {
      DigitsAreCanonical(s);
      assert s == Text(Number(s));
    }
  }

  lemma PositiveTexts(s: string)
    requires IsPositiveText(s)
    ensures exists n :: n > 0 && s == Text(n)
  {
    DigitsAreCanonical(s);
    assert s == Text(Number(s));
  }

  /** An integer's text; zero may also be written with a sign. */
  predicate SpellsInteger(s: string, n: int) { s == Text(n) || (n == 0 && s == "-0") }

  lemma IntegerTexts(s: string)
    requires IsIntegerText(s)
    ensures exists n :: SpellsInteger(s, n)
  {
    if s == "0" || s == "-0" {
      assert Text(0) == "0";
      assert SpellsInteger(s, 0);
    } else {
      NonZeroTexts(s);
      var n :| n != 0 && s == Text(n);
      assert SpellsInteger(s, n);
    }
  }

  lemma {:induction false} ParsedItems<T>(items: seq<Value>, parse: Value -> Option<T>, k: nat)
    requires ParseAll(items, parse).Some? && k < |items|
    ensures |ParseAll(items, parse).value| == |items| && parse(items[k]) == Some(ParseAll(items, parse).value[k])
  {
    if k > 0 {
      ParsedItems(items[1..], parse, k - 1);
    } else if |items| > 1 {
      ParsedItems(items[1..], parse, 0);
    }
  }

  /** Every movement of an accepted response moves an amount that is not zero. */
  lemma AcceptedMovementsMove(v: Value, k: nat)
    requires Parse(v).Some? && k < |Parse(v).value.movements|
    ensures exists n :: n != 0 && Parse(v).value.movements[k].amount == Text(n)
  {
    var items := Field(v, Movements).value.items;
    if items == [] {
      assert false;
    } else {
      ParsedItems(items, ParseMovement, 0);
      ParsedItems(items, ParseMovement, k);
      NonZeroTexts(Parse(v).value.movements[k].amount);
    }
  }

  /** Every owner entry of an accepted response spells two integers, of which one is written other than 0. */
  lemma AcceptedEntriesChange(v: Value, k: nat)
    requires Parse(v).Some? && k < |Parse(v).value.owners|
    ensures var e := Parse(v).value.owners[k];
            && (exists n :: SpellsInteger(e.liability, n)) && (exists n :: SpellsInteger(e.equity, n))
            && !(e.liability == "0" && e.equity == "0")
  {
    var items := Field(v, OwnerEntries).value.items;
    if items == [] {
      assert false;
    } else {
      ParsedItems(items, ParseEntry, 0);
      ParsedItems(items, ParseEntry, k);
      IntegerTexts(Parse(v).value.owners[k].liability);
      IntegerTexts(Parse(v).value.owners[k].equity);
    }
  }

  /** An accepted replacement of a transfer moves one positive amount from its source to its destination,
      which differ, at its time; nothing else has a transfer. */
  lemma AcceptedTransferBalances(v: Value)
    requires Parse(v).Some?
    ensures var s := Parse(v).value;
            if s.domain == InternalTransfer && s.kind == ReplacementKind then
              && s.transfer.Some? && |s.movements| == 4
              && var (t, from, to) := (s.transfer.value, s.movements[2], s.movements[3]);
                 && (exists n :: n > 0 && t.amount == Text(n) && to.amount == Text(n) && from.amount == Text(-n))
                 && t.source == from.account && t.destination == to.account && t.source != t.destination
                 && t.sourceMovement == from.id && t.destinationMovement == to.id && t.sourceMovement != t.destinationMovement
                 && from.occurredAt == t.transferAt == to.occurredAt
            else s.transfer.None?
  {
    var s := Parse(v).value;
    if s.domain == InternalTransfer && s.kind == ReplacementKind {
      var t := s.transfer.value;
      PositiveTexts(t.amount);
      var n :| n > 0 && t.amount == Text(n);
      assert Text(-n) == "-" + Text(n);
    }
  }

  /** The keys of an accepted response, in their order: what is taken back first, then what replaces it. */
  lemma AcceptedKeys(v: Value, k: nat)
    requires Parse(v).Some? && k < |Parse(v).value.movements|
    ensures var s := Parse(v).value;
            && s.operation.OfOperation?
            && |s.movements| == (if s.domain == InternalTransfer then 2 else 1) * (if s.kind == ReplacementKind then 2 else 1)
            && var (m, takenBack) := (s.movements[k], if s.domain == InternalTransfer then k < 2 else k < 1);
               && m.id.OfFact? && m.id.fact.operation == s.operation.operation
               && (takenBack <==> m.id.fact.role.Reversal?) && (!takenBack <==> m.id.fact.role.Replacement?)
               && (takenBack <==> m.reversalOf.Some?)
               && m.operation == OfFactOperation(FactOperationId(s.operation.operation, m.id.fact.role))
               && m.group == s.operation && m.period == s.period
  {
    var s := Parse(v).value;
    assert MovementHasRole(s, s.movements[k], ExpectedRoles(s.domain, s.kind).movements[k]);
  }

  predicate NamesKind(text: string, kind: Kind) { text == if kind == ReversalKind then "reversal" else "replacement" }

  predicate NamesDomain(text: string, domain: Domain) {
    && (text == "opening_balance" <==> domain == OpeningBalance)
    && (text == "owner_contribution" <==> domain == OwnerContribution)
    && (text == "owner_loan" <==> domain == OwnerLoan)
    && (text == "owner_reimbursement" <==> domain == OwnerReimbursement)
    && (text == "owner_personal_withdrawal" <==> domain == OwnerPersonalWithdrawal)
    && (text == "owner_capital_withdrawal" <==> domain == OwnerCapitalWithdrawal)
    && (text == "internal_transfer" <==> domain == InternalTransfer)
  }

  lemma ParsedNames(text: string)
    ensures ParseKind(text).Some? ==> NamesKind(text, ParseKind(text).value)
    ensures ParseDomain(text).Some? ==> NamesDomain(text, ParseDomain(text).value)
  {
  }

  lemma ParsedFields(v: Value)
    requires Parse(v).Some?
    ensures IsText(v, CorrectionKind) && ParseKind(TextAt(v, CorrectionKind)) == Some(Parse(v).value.kind)
    ensures IsText(v, DomainName) && ParseDomain(TextAt(v, DomainName)) == Some(Parse(v).value.domain)
  {
  }

  /** The names by which an accepted response tells its domain and its kind. */
  lemma AcceptedNames(v: Value)
    requires Parse(v).Some?
    ensures IsText(v, CorrectionKind) && NamesKind(TextAt(v, CorrectionKind), Parse(v).value.kind)
    ensures IsText(v, DomainName) && NamesDomain(TextAt(v, DomainName), Parse(v).value.domain)
  {
    ParsedFields(v);
    ParsedNames(TextAt(v, CorrectionKind));
    ParsedNames(TextAt(v, DomainName));
  }

  /** An accepted response has a posting date of the form year, month, day, and keys of its own operation. */
  lemma AcceptedHeader(v: Value)
    requires Parse(v).Some?
    ensures var s := Parse(v).value;
            && s.operation.OfOperation? && |s.postingDate| == 10 && s.postingDate[4] == '-' && s.postingDate[7] == '-'
            && forall k | 0 <= k < 10 && k != 4 && k != 7 :: 48 <= s.postingDate[k] as int <= 57
  {
    var s := Parse(v).value;
    if |s.movements| > 0 { assert MovementHasRole(s, s.movements[0], ExpectedRoles(s.domain, s.kind).movements[0]); }
  }
}
