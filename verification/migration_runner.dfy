/** Applying pending migrations, one transaction each, with a failure or a lost connection possible
    at any statement. */
module MigrationRunner {
  import opened Wrappers
  import opened SqlLexer
  import opened TransactionControl
  import opened ServerLexer
  import opened MigrationFiles
  import opened MigrationState

  datatype Command = Apply | Status | Verify

  const BOOTSTRAP_ONLY: set<string> := {
    "0001_rls_context_function_privileges.sql",
    "0002_migration_ownership_foundation.sql",
    "0003_authentication_api_schema.sql"}

  /** What goes wrong while one migration is applied. */
  datatype Fault = NoFault | RoleSwitchRefused | StatementFails(at: nat) | RoleNotRestored | InsertFails | CommitFails

  datatype RunError =
    | Unreadable(error: StateError) | FoundationPending | ProhibitedTransactionControl | ProhibitedRoleSwitch
    | MigrationFailed | MigrationsPending

  datatype Summary = Summary(applied: nat, pending: nat, executed: nat, baseline: nat)

  function ManifestSize(provenance: seq<ProvenanceRow>): nat {
    if provenance == [] then 0 else |provenance[0].manifest|
  }

  /** How many files the records account for. */
  function Count(executed: seq<Identity>, provenance: seq<ProvenanceRow>): nat {
    |executed| + ManifestSize(provenance)
  }

  ghost predicate IsPrefix(executed: seq<Identity>, provenance: seq<ProvenanceRow>, files: seq<MigrationFile>) {
    Count(executed, provenance) <= |files| && Recorded(executed, provenance, files, Count(executed, provenance))
  }

  lemma RecordedCounts(executed: seq<Identity>, provenance: seq<ProvenanceRow>, files: seq<MigrationFile>, n: nat)
    requires n <= |files| && Recorded(executed, provenance, files, n)
    ensures n == Count(executed, provenance)
  {
    if provenance == [] {
      assert |executed| == |multiset(executed)| == |multiset(Identities(files[..n]))| == n;
    } else {
      var k: nat :| 1 <= k <= n && BaselineCovers(executed, provenance[0], files, k, n);
      assert |executed| == |multiset(executed)| == |multiset(Identities(files[k..n]))| == n - k;
    }
  }

  lemma PrefixGrows(executed: seq<Identity>, provenance: seq<ProvenanceRow>, files: seq<MigrationFile>, m: nat)
    requires IsPrefix(executed, provenance, files) && Count(executed, provenance) <= m <= |files|
    ensures var n := Count(executed, provenance); IsPrefix(executed + Identities(files[n..m]), provenance, files)
  {
    var n := Count(executed, provenance);
    if provenance == [] {
      IdentitiesGrow(executed, files, 0, n, m);
    } else {
      var k: nat :| 1 <= k <= n && BaselineCovers(executed, provenance[0], files, k, n);
      IdentitiesGrow(executed, files, k, n, m);
      assert BaselineCovers(executed + Identities(files[n..m]), provenance[0], files, k, m);
    }
  }

  lemma IdentitiesGrow(executed: seq<Identity>, files: seq<MigrationFile>, k: nat, n: nat, m: nat)
    requires k <= n <= m <= |files| && multiset(executed) == multiset(Identities(files[k..n]))
    ensures multiset(executed + Identities(files[n..m])) == multiset(Identities(files[k..m]))
  {
    assert Identities(files[k..m]) == Identities(files[k..n]) + Identities(files[n..m]);
  }

  /** The statements a server reads in several scripts, one after the other. */
  function Script(server: Server, files: seq<MigrationFile>): seq<seq<Segment>> {
    if files == [] then [] else Script(server, files[..|files| - 1]) + Statements(server(files[|files| - 1].contents))
  }

  lemma TakesEffect(schema: seq<seq<Segment>>, statements: seq<seq<Segment>>, k: nat)
    requires k < |statements|
    ensures schema + statements[..k] + [statements[k]] == schema + statements[..k + 1]
  {
  }

  lemma OneMoreControls(statements: seq<seq<Segment>>, k: nat)
    requires k < |statements|
    ensures AnyControls(statements[..k + 1]) <==> AnyControls(statements[..k]) || ControlsTransaction(statements[k])
  {
    assert statements[..k + 1] == statements[..k] + [statements[k]];
  }

  lemma FewerControl(statements: seq<seq<Segment>>, k: nat)
    requires k <= |statements|
    ensures AnyControls(statements[..k]) ==> AnyControls(statements)
  {
    assert forall statement | statement in statements[..k] :: statement in statements;
  }

  lemma OneMore(server: Server, ledger: seq<Identity>, schema: seq<seq<Segment>>, files: seq<MigrationFile>, k: nat)
    requires k < |files|
    ensures ledger + Identities(files[..k]) + [IdentityOf(files[k])] == ledger + Identities(files[..k + 1])
    ensures schema + Script(server, files[..k]) + Statements(server(files[k].contents)) == schema + Script(server, files[..k + 1])
  {
    assert files[..k + 1][..k] == files[..k];
    assert Identities(files[..k + 1]) == Identities(files[..k]) + [IdentityOf(files[k])];
  }

  /** Nothing in the way of applying the pending files one after the other. */
  predicate Unobstructed(pending: seq<MigrationFile>, faults: nat -> Fault) {
    forall k | 0 <= k < |pending| :: NoTransactionControl(pending[k].contents) && faults(k).NoFault?
  }

  predicate NeedsBootstrap(pending: seq<MigrationFile>) {
    exists k | 0 <= k < |pending| :: pending[k].filename in BOOTSTRAP_ONLY
  }

  class MigrationDatabase {
    var ledger: seq<Identity>
    var provenance: seq<ProvenanceRow>
    var schema: seq<seq<Segment>>  // the statements that have taken effect

    var open: bool
    var committedLedger: seq<Identity>
    var committedSchema: seq<seq<Segment>>

    method Begin()
      requires !open
      modifies this`open, this`committedLedger, this`committedSchema
      ensures open && committedLedger == ledger && committedSchema == schema
    {
      open, committedLedger, committedSchema := true, ledger, schema;
    }

    /** Undoes what the transaction did, if it is still the runner's. */
    method Rollback()
      modifies this`open, this`ledger, this`schema
      ensures !open
      ensures old(open) ==> ledger == committedLedger && schema == committedSchema
      ensures !old(open) ==> ledger == old(ledger) && schema == old(schema)
    {
      if open {
        ledger, schema := committedLedger, committedSchema;
      }
      open := false;
    }

    /** Runs a script statement by statement as the server reads it, up to one that fails. A statement
        that controls the transaction ends the runner's. */
    method Execute(server: Server, script: string, fault: Fault) returns (done: bool)
      requires open
      modifies this`open, this`schema
      ensures done <==> !(fault.StatementFails? && fault.at < |Statements(server(script))|)
      ensures done ==> schema == old(schema) + Statements(server(script))
      ensures open <==> !AnyControls(Statements(server(script))[..if done then |Statements(server(script))| else fault.at])
      ensures NoTransactionControl(script) && Guards(server, script) ==> open
    {
      var statements := Statements(server(script));
      for k := 0 to |statements|
        invariant schema == old(schema) + statements[..k]
        invariant fault.StatementFails? ==> fault.at >= k
        invariant open <==> !AnyControls(statements[..k])
      {
        if fault == StatementFails(k) {
          FewerControl(statements, k);
          return false;
        }
        OneMoreControls(statements, k);
        if ControlsTransaction(statements[k]) {
          open := false;
        }
        TakesEffect(old(schema), statements, k);
        schema := schema + [statements[k]];
      }
      assert statements[..|statements|] == statements;
      return true;
    }

    /** A script that the filter guards cannot end the transaction, so it takes effect and is recorded, or
        neither. */
    method ApplyMigration(server: Server, migration: MigrationFile, fault: Fault) returns (applied: Result<(), RunError>)
      requires !open
      modifies this`ledger, this`schema, this`open, this`committedLedger, this`committedSchema
      ensures !open
      ensures applied.Ok? ==>
                && ledger == old(ledger) + [IdentityOf(migration)]
                && schema == old(schema) + Statements(server(migration.contents))
      ensures applied.Err? && Guards(server, migration.contents) ==> ledger == old(ledger) && schema == old(schema)
      ensures NoTransactionControl(migration.contents) && fault.NoFault? ==> applied.Ok?
      ensures !NoTransactionControl(migration.contents) ==> applied == Err(ProhibitedTransactionControl)
    {
      var valid := ValidateTransactionControl(migration.contents);
      if !valid {
        return Err(ProhibitedTransactionControl);
      }
      if fault.RoleSwitchRefused? {
        return Err(ProhibitedRoleSwitch);
      }
      Begin();
      var done := Execute(server, migration.contents, fault);
      if !done || fault.RoleNotRestored? {
        Rollback();
        return Err(MigrationFailed);
      }
      if fault.InsertFails? {
        Rollback();
        return Err(MigrationFailed);
      }
      ledger := ledger + [IdentityOf(migration)];
      if fault.CommitFails? {
        Rollback();
        return Err(MigrationFailed);
      }
      open := false;
      return Ok(());
    }

    method ReadState(files: seq<MigrationFile>, leq: (string, string) -> bool) returns (read: Result<State, RunError>)
      requires LocaleOrder(leq) && Sound(files)
      ensures read.Ok? <==> IsPrefix(ledger, provenance, files)
      ensures read.Ok? ==>
                && read.value.pending == files[Count(ledger, provenance)..] && read.value.executed == ledger
                && |read.value.effective| == Count(ledger, provenance)
    {
      ReadableIffPrefix(ledger, provenance, files);
      var state := ReadEffectiveMigrationState(ledger, provenance, files, leq);
      if state.Err? {
        return Err(Unreadable(state.error));
      }
      RecordedCounts(ledger, provenance, files, |state.value.effective|);
      return Ok(state.value);
    }

    /** The apply loop: it stops at the first migration that fails, with everything before it applied. */
    method ApplyAll(server: Server, pending: seq<MigrationFile>, faults: nat -> Fault) returns (applied: Result<(), RunError>, ghost m: nat)
      requires !open && forall k | 0 <= k < |pending| :: Guards(server, pending[k].contents)
      modifies this`ledger, this`schema, this`open, this`committedLedger, this`committedSchema
      ensures !open && m <= |pending|
      ensures ledger == old(ledger) + Identities(pending[..m]) && schema == old(schema) + Script(server, pending[..m])
      ensures applied.Ok? ==> m == |pending|
      ensures Unobstructed(pending, faults) ==> applied.Ok?
    {
      m := 0;
      for k := 0 to |pending|
        invariant !open && m == k
        invariant ledger == old(ledger) + Identities(pending[..k]) && schema == old(schema) + Script(server, pending[..k])
      {
        OneMore(server, old(ledger), old(schema), pending, k);
        var one := ApplyMigration(server, pending[k], faults(k));
        if one.Err? {
          return Err(one.error), m;
        }
        m := m + 1;
      }
      return Ok(()), m;
    }

    /** From any repository prefix a run ends at a repository prefix, wherever it stops, and has run
        the statements of exactly the `added` migrations, once and in order; an apply run that nothing
        obstructs ends with every file. */
    method Run(command: Command, server: Server, files: seq<MigrationFile>, leq: (string, string) -> bool, faults: nat -> Fault)
      returns (outcome: Result<Summary, RunError>, ghost added: seq<MigrationFile>)
      requires !open && LocaleOrder(leq) && Sound(files) && forall k | 0 <= k < |files| :: Guards(server, files[k].contents)
      modifies this`ledger, this`schema, this`open, this`committedLedger, this`committedSchema
      ensures !open
      ensures ledger == old(ledger) + Identities(added) && schema == old(schema) + Script(server, added)
      ensures !old(IsPrefix(ledger, provenance, files)) ==> outcome.Err? && added == []
      ensures old(IsPrefix(ledger, provenance, files)) ==>
                && IsPrefix(ledger, provenance, files)
                && added <= files[old(Count(ledger, provenance))..]
      ensures outcome.Ok? && command.Apply? ==> Count(ledger, provenance) == |files|
      ensures !command.Apply? ==> added == []
      ensures outcome.Ok? ==>
                outcome.value == Summary(Count(ledger, provenance), |files| - Count(ledger, provenance), |ledger|, ManifestSize(provenance))
      ensures old(IsPrefix(ledger, provenance, files)) && command.Apply? ==>
                var pending := files[old(Count(ledger, provenance))..];
                !NeedsBootstrap(pending) && Unobstructed(pending, faults) ==> outcome.Ok?
      ensures old(IsPrefix(ledger, provenance, files)) && NeedsBootstrap(files[old(Count(ledger, provenance))..]) ==>
                outcome == Err(FoundationPending) && added == []
      ensures command.Verify? ==>
                (outcome.Ok? <==> old(IsPrefix(ledger, provenance, files)) && old(Count(ledger, provenance)) == |files|)
    {
      added := [];
      assert ledger + Identities([]) == ledger && schema + Script(server, []) == schema;
      var read := ReadState(files, leq);
      if read.Err? {
        return Err(read.error), added;
      }
      var (state, pending) := (read.value, read.value.pending);
      if NeedsBootstrap(pending) {
        return Err(FoundationPending), added;
      }
      if command.Verify? && |pending| > 0 {
        return Err(MigrationsPending), added;
      }
      if !command.Apply? {
        return Ok(Summary(|state.effective|, |pending|, |state.executed|, ManifestSize(provenance))), added;
      }
      var applied, m := ApplyAll(server, pending, faults);
      added := pending[..m];
      AddedIsPrefix(old(ledger), provenance, files, m);
      if applied.Err? {
        return Err(applied.error), added;
      }
      return Ok(Summary(|state.effective| + |pending|, 0, |state.executed| + |pending|, ManifestSize(provenance))), added;
    }
  }

  lemma AddedIsPrefix(executed: seq<Identity>, provenance: seq<ProvenanceRow>, files: seq<MigrationFile>, m: nat)
    requires IsPrefix(executed, provenance, files) && Count(executed, provenance) + m <= |files|
    ensures IsPrefix(executed + Identities(files[Count(executed, provenance)..][..m]), provenance, files)
  {
    var n := Count(executed, provenance);
    assert files[n..][..m] == files[n..n + m];
    PrefixGrows(executed, provenance, files, n + m);
  }

  lemma ReadableIffPrefix(executed: seq<Identity>, provenance: seq<ProvenanceRow>, files: seq<MigrationFile>)
    ensures Readable(executed, provenance, files) <==> IsPrefix(executed, provenance, files)
  {
    forall n: nat | n <= |files| && Recorded(executed, provenance, files, n) ensures n == Count(executed, provenance) {
      RecordedCounts(executed, provenance, files, n);
    }
  }

  /** The migrations that only a bootstrap applies. */
  lemma BootstrapNames(name: string)
    ensures name in BOOTSTRAP_ONLY <==>
              || name == "0001_rls_context_function_privileges.sql"
              || name == "0002_migration_ownership_foundation.sql"
              || name == "0003_authentication_api_schema.sql"
  {
  }
}
