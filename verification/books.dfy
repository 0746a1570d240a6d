/** The append-only sums are the sums of the active events, and every correction history is a chain. */
module Books {
  import opened Ledger
  import opened History

  /* ---- Effects ---- */

  function LiveMoneyOn(account: AccountId): Movement -> int {
    (m: Movement) => if m.reversalOf.None? && m.account == account then m.delta else 0
  }

  function LiveLiability(): OwnerEntry -> int { (e: OwnerEntry) => if e.reversalOf.None? then e.liabilityDelta else 0 }
  function LiveEquity(): OwnerEntry -> int { (e: OwnerEntry) => if e.reversalOf.None? then e.equityDelta else 0 }

  /** All that a row wrote, and the part of it that is not a reversal: the row's own event. */
  function MoneyTotal(a: AccountId): OperationRow -> int { (r: OperationRow) => Sum(RowFacts(r).movements, MoneyOn(a)) }
  function MoneyEffect(a: AccountId): OperationRow -> int { (r: OperationRow) => Sum(RowFacts(r).movements, LiveMoneyOn(a)) }
  function LiabilityTotal(): OperationRow -> int { (r: OperationRow) => Sum(RowFacts(r).owners, Liability()) }
  function LiabilityEffect(): OperationRow -> int { (r: OperationRow) => Sum(RowFacts(r).owners, LiveLiability()) }
  function EquityTotal(): OperationRow -> int { (r: OperationRow) => Sum(RowFacts(r).owners, Equity()) }
  function EquityEffect(): OperationRow -> int { (r: OperationRow) => Sum(RowFacts(r).owners, LiveEquity()) }

  /** Sums `effect` over the rows that no applied correction has superseded. */
  function ActiveSum(rows: seq<OperationRow>, superseded: set<OperationId>, effect: OperationRow -> int): int {
    if rows == [] then 0
    else
      var last := rows[|rows| - 1];
      ActiveSum(rows[..|rows| - 1], superseded, effect) + (if last.operation in superseded then 0 else effect(last))
  }

  lemma {:induction false} AllMovementsSum(rows: seq<OperationRow>, a: AccountId)
    ensures Sum(AllMovements(rows), MoneyOn(a)) == Sum(rows, MoneyTotal(a))
  {
    if rows != [] {
      AllMovementsSum(rows[..|rows| - 1], a);
      SumAppend(AllMovements(rows[..|rows| - 1]), RowFacts(rows[|rows| - 1]).movements, MoneyOn(a));
    }
  }

  lemma {:induction false} AllOwnersSum(rows: seq<OperationRow>)
    ensures Sum(AllOwners(rows), Liability()) == Sum(rows, LiabilityTotal())
    ensures Sum(AllOwners(rows), Equity()) == Sum(rows, EquityTotal())
  {
    if rows != [] {
      AllOwnersSum(rows[..|rows| - 1]);
      SumAppend(AllOwners(rows[..|rows| - 1]), RowFacts(rows[|rows| - 1]).owners, Liability());
      SumAppend(AllOwners(rows[..|rows| - 1]), RowFacts(rows[|rows| - 1]).owners, Equity());
    }
  }

  /* ---- Superseding one row takes exactly its effect out of the active sum ---- */

  lemma {:induction false} SupersedeUnknown(rows: seq<OperationRow>, superseded: set<OperationId>, t: OperationId, effect: OperationRow -> int)
    requires FindOperation(rows, t).None?
    ensures ActiveSum(rows, superseded + {t}, effect) == ActiveSum(rows, superseded, effect)
  {
    if rows != [] { SupersedeUnknown(rows[..|rows| - 1], superseded, t, effect); }
  }

  lemma {:induction false} SupersedeOne(rows: seq<OperationRow>, superseded: set<OperationId>, t: OperationId, effect: OperationRow -> int)
    requires ValidHistory(rows) && FindOperation(rows, t).Some? && t !in superseded
    ensures ActiveSum(rows, superseded + {t}, effect)
         == ActiveSum(rows, superseded, effect) - effect(FindOperation(rows, t).value)
  {
    var (prefix, last) := (rows[..|rows| - 1], rows[|rows| - 1]);
    if last.operation == t {
      SupersedeUnknown(prefix, superseded, t, effect);
    } else {
      SupersedeOne(prefix, superseded, t, effect);
    }
  }

  /** `total` is `effect`, less the effect of the row that this one supersedes. */
  predicate Reverses(history: seq<OperationRow>, row: OperationRow, total: OperationRow -> int, effect: OperationRow -> int) {
    if IsAppliedCorrection(row) then
      var target := FindOperation(history, row.identity.digest.correction.target);
      target.Some? && total(row) == effect(row) - effect(target.value)
    else total(row) == effect(row)
  }

  lemma {:induction false} TotalsAreActiveSums(rows: seq<OperationRow>, total: OperationRow -> int, effect: OperationRow -> int)
    requires ValidHistory(rows)
    requires forall k | 0 <= k < |rows| :: Reverses(rows[..k], rows[k], total, effect)
    ensures Sum(rows, total) == ActiveSum(rows, Targets(rows), effect)
  {
    if rows != [] {
      var (prefix, last) := (rows[..|rows| - 1], rows[|rows| - 1]);
      forall k | 0 <= k < |prefix| ensures Reverses(prefix[..k], prefix[k], total, effect) {
        assert prefix[..k] == rows[..k];
      }
      TotalsAreActiveSums(prefix, total, effect);
      assert Reverses(rows[..|prefix|], rows[|prefix|], total, effect);
      if last.operation in Targets(prefix) { TargetsAreRows(prefix, last.operation); }
      if IsAppliedCorrection(last) {
        var t := last.identity.digest.correction.target;
        assert Targets(rows) == Targets(prefix) + {t};
        SupersedeOne(prefix, Targets(prefix), t, effect);
        assert ActiveSum(rows, Targets(rows), effect) == ActiveSum(prefix, Targets(rows), effect) + effect(last);
      } else {
        assert Targets(rows) == Targets(prefix);
      }
    }
  }

  /* ---- Each writer reverses its target exactly ---- */

  function EventMoney(e: Event, a: AccountId): int {
    match e
    case TransferEvent(_, _, s, d) => MoneyOn(a)(s) + MoneyOn(a)(d)
    case _ => MoneyOn(a)(e.movement)
  }

  function EventLiability(e: Event): int { if e.OwnerEvent? then e.entry.liabilityDelta else 0 }
  function EventEquity(e: Event): int { if e.OwnerEvent? then e.entry.equityDelta else 0 }

  predicate LegsMirrorHeader(e: Event) {
    e.TransferEvent? ==>
      && e.source.account == e.transfer.source && e.destination.account == e.transfer.destination
      && e.source.delta == -e.transfer.amount && e.destination.delta == e.transfer.amount
  }

  lemma CorrectionReversesEvent(i: CorrectionInput, e: Event, a: AccountId)
    requires LegsMirrorHeader(e)
    ensures var f := CorrectionFacts(i, e);
            && Sum(f.movements, MoneyOn(a)) == Sum(f.movements, LiveMoneyOn(a)) - EventMoney(e, a)
            && Sum(f.owners, Liability()) == Sum(f.owners, LiveLiability()) - EventLiability(e)
            && Sum(f.owners, Equity()) == Sum(f.owners, LiveEquity()) - EventEquity(e)
  {
    var f := CorrectionFacts(i, e);
    SmallMoneySums(f.movements, a);
    SmallOwnerSums(f.owners);
  }

  lemma SmallMoneySums(m: seq<Movement>, a: AccountId)
    ensures |m| == 1 ==> Sum(m, MoneyOn(a)) == MoneyOn(a)(m[0]) && Sum(m, LiveMoneyOn(a)) == LiveMoneyOn(a)(m[0])
    ensures |m| == 2 ==> Sum(m, MoneyOn(a)) == MoneyOn(a)(m[0]) + MoneyOn(a)(m[1])
                         && Sum(m, LiveMoneyOn(a)) == LiveMoneyOn(a)(m[0]) + LiveMoneyOn(a)(m[1])
    ensures |m| == 4 ==> Sum(m, MoneyOn(a)) == MoneyOn(a)(m[0]) + MoneyOn(a)(m[1]) + MoneyOn(a)(m[2]) + MoneyOn(a)(m[3])
                         && Sum(m, LiveMoneyOn(a)) == LiveMoneyOn(a)(m[0]) + LiveMoneyOn(a)(m[1]) + LiveMoneyOn(a)(m[2]) + LiveMoneyOn(a)(m[3])
  {
    if |m| == 1 {
      assert m == [m[0]];
      SumOne(m[0], MoneyOn(a)); SumOne(m[0], LiveMoneyOn(a));
    } else if |m| == 2 {
      assert m == [m[0], m[1]];
      SumTwo(m[0], m[1], MoneyOn(a)); SumTwo(m[0], m[1], LiveMoneyOn(a));
    } else if |m| == 4 {
      assert m == [m[0], m[1], m[2], m[3]];
      SumFour(m[0], m[1], m[2], m[3], MoneyOn(a)); SumFour(m[0], m[1], m[2], m[3], LiveMoneyOn(a));
    }
  }

  lemma SmallOwnerSums(e: seq<OwnerEntry>)
    ensures |e| == 1 ==> Sum(e, Liability()) == Liability()(e[0]) && Sum(e, LiveLiability()) == LiveLiability()(e[0])
                         && Sum(e, Equity()) == Equity()(e[0]) && Sum(e, LiveEquity()) == LiveEquity()(e[0])
    ensures |e| == 2 ==> Sum(e, Liability()) == Liability()(e[0]) + Liability()(e[1])
                         && Sum(e, LiveLiability()) == LiveLiability()(e[0]) + LiveLiability()(e[1])
                         && Sum(e, Equity()) == Equity()(e[0]) + Equity()(e[1])
                         && Sum(e, LiveEquity()) == LiveEquity()(e[0]) + LiveEquity()(e[1])
  {
    if |e| == 1 {
      assert e == [e[0]];
      SumOne(e[0], Liability()); SumOne(e[0], LiveLiability()); SumOne(e[0], Equity()); SumOne(e[0], LiveEquity());
    } else if |e| == 2 {
      assert e == [e[0], e[1]];
      SumTwo(e[0], e[1], Liability()); SumTwo(e[0], e[1], LiveLiability());
      SumTwo(e[0], e[1], Equity()); SumTwo(e[0], e[1], LiveEquity());
    }
  }

  predicate MoneyMatches(row: OperationRow, a: AccountId) {
    EventOf(row).Some? ==>
      LegsMirrorHeader(EventOf(row).value) && MoneyEffect(a)(row) == EventMoney(EventOf(row).value, a)
  }

  predicate OwnersMatch(row: OperationRow) {
    EventOf(row).Some? ==>
      && LiabilityEffect()(row) == EventLiability(EventOf(row).value)
      && EquityEffect()(row) == EventEquity(EventOf(row).value)
  }

  lemma OriginalEffect(history: seq<OperationRow>, row: OperationRow, a: AccountId)
    requires RowOk(history, row) && row.status.Applied? && row.identity.digest.Post?
    ensures MoneyMatches(row, a) && OwnersMatch(row)
  {
    SmallMoneySums(RowFacts(row).movements, a);
    SmallOwnerSums(RowFacts(row).owners);
  }

  lemma ReplacementMoney(history: seq<OperationRow>, row: OperationRow, a: AccountId)
    requires RowOk(history, row) && row.status.Applied? && row.identity.digest.Correct?
    ensures MoneyMatches(row, a)
  {
    var i := row.identity.digest.correction;
    SmallMoneySums(RowFacts(row).movements, a);
    EventLiesInDomain(FindOperation(history, i.target).value, i.domain);
  }

  lemma ReplacementOwners(history: seq<OperationRow>, row: OperationRow)
    requires RowOk(history, row) && row.status.Applied? && row.identity.digest.Correct?
    ensures OwnersMatch(row)
  {
    var i := row.identity.digest.correction;
    SmallOwnerSums(RowFacts(row).owners);
    EventLiesInDomain(FindOperation(history, i.target).value, i.domain);
  }

  /** The effect of a correctable row is the effect of the event it stands for. */
  lemma EffectIsEvent(history: seq<OperationRow>, row: OperationRow, domain: Domain, a: AccountId)
    requires RowOk(history, row) && Correctable(row, domain) && EventOf(row).Some?
    ensures LegsMirrorHeader(EventOf(row).value)
    ensures MoneyEffect(a)(row) == EventMoney(EventOf(row).value, a)
    ensures LiabilityEffect()(row) == EventLiability(EventOf(row).value)
    ensures EquityEffect()(row) == EventEquity(EventOf(row).value)
  {
    if row.identity.digest.Correct? {
      ReplacementMoney(history, row, a);
      ReplacementOwners(history, row);
    } else {
      OriginalEffect(history, row, a);
    }
  }

  lemma RowReverses(history: seq<OperationRow>, row: OperationRow, a: AccountId)
    requires ValidHistory(history) && RowOk(history, row)
    ensures Reverses(history, row, MoneyTotal(a), MoneyEffect(a))
    ensures Reverses(history, row, LiabilityTotal(), LiabilityEffect())
    ensures Reverses(history, row, EquityTotal(), EquityEffect())
  {
    if IsAppliedCorrection(row) {
      var i := row.identity.digest.correction;
      var target := FindOperation(history, i.target).value;
      var k := Found(history, i.target);
      PrefixIsValid(history, k);
      EffectIsEvent(history[..k], target, i.domain, a);
      CorrectionReversesEvent(i, EventOf(target).value, a);
    } else {
      SmallMoneySums(RowFacts(row).movements, a);
      SmallOwnerSums(RowFacts(row).owners);
    }
  }

  /** Whatever was posted, corrected and corrected again, the sum of every movement ever appended on
      an account is the sum of the movements of the events that are still active. */
  lemma BalancesAreActiveEvents(rows: seq<OperationRow>, a: AccountId)
    requires ValidHistory(rows)
    ensures Sum(AllMovements(rows), MoneyOn(a)) == ActiveSum(rows, Targets(rows), MoneyEffect(a))
  {
    AllMovementsSum(rows, a);
    forall k | 0 <= k < |rows| ensures Reverses(rows[..k], rows[k], MoneyTotal(a), MoneyEffect(a)) {
      PrefixIsValid(rows, k);
      RowReverses(rows[..k], rows[k], a);
    }
    TotalsAreActiveSums(rows, MoneyTotal(a), MoneyEffect(a));
  }

  lemma OwnerPositionIsActiveEvents(rows: seq<OperationRow>)
    requires ValidHistory(rows)
    ensures Sum(AllOwners(rows), Liability()) == ActiveSum(rows, Targets(rows), LiabilityEffect())
    ensures Sum(AllOwners(rows), Equity()) == ActiveSum(rows, Targets(rows), EquityEffect())
  {
    AllOwnersSum(rows);
    forall k | 0 <= k < |rows|
      ensures Reverses(rows[..k], rows[k], LiabilityTotal(), LiabilityEffect())
      ensures Reverses(rows[..k], rows[k], EquityTotal(), EquityEffect())
    {
      PrefixIsValid(rows, k);
      RowReverses(rows[..k], rows[k], 0);
    }
    TotalsAreActiveSums(rows, LiabilityTotal(), LiabilityEffect());
    TotalsAreActiveSums(rows, EquityTotal(), EquityEffect());
  }

  /** A transfer, its reversals and its replacements add nothing over all accounts together. */
  lemma TransfersAddZero(history: seq<OperationRow>, row: OperationRow)
    requires RowOk(history, row) && row.status.Applied?
    requires row.identity.action == OriginalAction(InternalTransfer) || (row.identity.action.CorrectionAction? && row.identity.action.domain.InternalTransfer?)
    ensures Sum(RowFacts(row).movements, AnyMoney()) == 0
  {
    var m := RowFacts(row).movements;
    if row.identity.digest.Correct? {
      EventLiesInDomain(FindOperation(history, row.identity.digest.correction.target).value, InternalTransfer);
    }
    if |m| == 2 {
      assert m == [m[0], m[1]];
      SumTwo(m[0], m[1], AnyMoney());
    } else {
      assert m == [m[0], m[1], m[2], m[3]];
      SumFour(m[0], m[1], m[2], m[3], AnyMoney());
    }
  }

  /* ---- Correction histories are chains ---- */

  /** The row that the applied correction at `j` supersedes. */
  predicate Supersedes(rows: seq<OperationRow>, j: nat, i: nat) {
    && i < j < |rows|
    && IsAppliedCorrection(rows[j])
    && rows[j].identity.digest.correction.target == rows[i].operation
  }

  lemma {:induction false} TargetOf(rows: seq<OperationRow>, j: nat) returns (i: nat)
    requires ValidHistory(rows) && j < |rows| && IsAppliedCorrection(rows[j])
    ensures Supersedes(rows, j, i)
    ensures Correctable(rows[i], rows[j].identity.digest.correction.domain)
  {
    PrefixIsValid(rows, j);
    i := Found(rows[..j], rows[j].identity.digest.correction.target);
  }

  lemma {:induction false} TargetIsRecorded(rows: seq<OperationRow>, j: nat)
    requires ValidHistory(rows) && j < |rows| && IsAppliedCorrection(rows[j])
    ensures rows[j].identity.digest.correction.target in Targets(rows)
  {
    if j < |rows| - 1 {
      TargetIsRecorded(rows[..|rows| - 1], j);
    } else {
      PrefixIsValid(rows, j);
    }
  }

  /** An operation is superseded at most once, even when several corrections name it. */
  lemma {:induction false} SupersededOnce(rows: seq<OperationRow>, i: nat, j: nat, k: nat)
    requires ValidHistory(rows) && Supersedes(rows, j, i) && Supersedes(rows, k, i)
    ensures j == k
  {
    var (first, second) := if j < k then (j, k) else (k, j);
    if first < second {
      PrefixIsValid(rows, second);
      TargetIsRecorded(rows[..second], first);
    }
  }

  /** A reversal stands for no event and is never superseded. */
  lemma {:induction false} ReversalIsNeverTarget(rows: seq<OperationRow>, j: nat, i: nat)
    requires ValidHistory(rows) && Supersedes(rows, j, i)
    ensures rows[i].identity.digest.Correct? ==> rows[i].identity.digest.correction.kind.ReplacementKind?
    ensures rows[i].status.Applied? && EventOf(rows[i]).Some?
  {
    var t := TargetOf(rows, j);
    OneRowPerOperation(rows, if t < i then t else i, if t < i then i else t);
    PrefixIsValid(rows, j);
    PrefixIsValid(rows, i);
    FindInPrefix(rows[..j], i);
  }

  /** Follows supersession back to the original event of a chain. */
  ghost function Root(rows: seq<OperationRow>, j: nat): nat
    requires ValidHistory(rows) && j < |rows|
    ensures Root(rows, j) <= j
  {
    if IsAppliedCorrection(rows[j]) then
      TargetExists(rows, j);
      var i :| Supersedes(rows, j, i);
      Root(rows, i)
    else j
  }

  lemma TargetExists(rows: seq<OperationRow>, j: nat)
    requires ValidHistory(rows) && j < |rows| && IsAppliedCorrection(rows[j])
    ensures exists i :: Supersedes(rows, j, i)
  {
    var i := TargetOf(rows, j);
  }

  ghost predicate Reaches(rows: seq<OperationRow>, i: nat, j: nat)
    decreases j
  {
    i == j || exists k | 0 <= k < j :: Supersedes(rows, j, k) && Reaches(rows, i, k)
  }

  /** Of two rows with the same origin, the later one descends from the earlier one. */
  lemma {:induction false} OneLine(rows: seq<OperationRow>, i: nat, j: nat)
    requires ValidHistory(rows) && i <= j < |rows| && Root(rows, i) == Root(rows, j)
    ensures Reaches(rows, i, j)
    decreases j, i
  {
    if i < j {
      if !IsAppliedCorrection(rows[j]) {
        assert false;
      }
      TargetExists(rows, j);
      var k :| Supersedes(rows, j, k) && Root(rows, j) == Root(rows, k);
      if i <= k {
        OneLine(rows, i, k);
      } else {
        OneLine(rows, k, i);
        var s := SupersederOnPath(rows, k, i);
        SupersededOnce(rows, k, s, j);
        assert false;
      }
    }
  }

  lemma {:induction false} SupersederOnPath(rows: seq<OperationRow>, i: nat, j: nat) returns (s: nat)
    requires i < j < |rows| && Reaches(rows, i, j)
    ensures s <= j && Supersedes(rows, s, i)
    decreases j
  {
    var k :| 0 <= k < j && Supersedes(rows, j, k) && Reaches(rows, i, k);
    if k == i {
      s := j;
    } else {
      ReachesIsOrdered(rows, i, k);
      s := SupersederOnPath(rows, i, k);
    }
  }

  lemma {:induction false} ReachesIsOrdered(rows: seq<OperationRow>, i: nat, j: nat)
    requires Reaches(rows, i, j)
    ensures i <= j
    decreases j
  {
    if i != j {
      var k :| 0 <= k < j && Supersedes(rows, j, k) && Reaches(rows, i, k);
      ReachesIsOrdered(rows, i, k);
    }
  }

  /** Every correction history is a finite chain with at most one end that is not superseded. */
  lemma OneActiveEnd(rows: seq<OperationRow>, i: nat, j: nat)
    requires ValidHistory(rows) && i < |rows| && j < |rows| && Root(rows, i) == Root(rows, j)
    requires rows[i].operation !in Targets(rows) && rows[j].operation !in Targets(rows)
    ensures i == j
  {
    if i != j {
      var (first, second) := if i < j then (i, j) else (j, i);
      OneLine(rows, first, second);
      var s := SupersederOnPath(rows, first, second);
      TargetIsRecorded(rows, s);
    }
  }
}
