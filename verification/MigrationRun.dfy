/** Running a migration against an environment in which every call may fail. */
module MigrationRun {
  import opened Wrappers
  import opened Bytes
  import opened MigrationConfig
  import opened MigrationPlan
  import opened Preflights
  import opened Staging

  datatype Phase =
    | ConnectingSource | PreflightComplete | PhaseRejected | TargetTransactionStarted | TableCopyStarted
    | TableVerified | CommitStarted | PhaseIndeterminate | Committed | PhaseUnverified | PhaseRolledBack | PhaseVerified

  datatype State = Rejected | FailedRolledBack | CommitIndeterminate | CommittedUnverified | Verified

  datatype Report = Report(state: State, staging: Option<StagingPlan>, preflight: Preflight, tables: seq<Transfer>)

  datatype Commit = NotIssued | Failed | Succeeded

  /** What a scan of a table finds: a digest of its rows, and counts and digests column by column. */
  datatype Checks = Checks(table: string, columns: seq<ColumnCheck>)

  /**
   The world a run meets: which of its calls fail, what scans of the source snapshot, of the uncommitted target
   and of the committed target would find, how many rows the target says it holds, and what COPY reports.
   */
  datatype Environment = Environment(
    fails: nat -> bool, source: TablePlan -> Checks, written: TablePlan -> Checks, committed: TablePlan -> Checks,
    committedRows: TablePlan -> int, copied: TablePlan -> (nat, nat))

  /** A scan has one entry for each column of the plan. */
  ghost predicate Scans(scan: TablePlan -> Checks) {
    forall p: TablePlan :: |scan(p).columns| == |p.columns|
  }

  /** A plan that can be carried out: the target table and every target column have names. */
  predicate Named(p: TablePlan) {
    p.targetSchema.Some? && p.targetTable.Some? && forall i :: 0 <= i < |p.columns| ==> p.columns[i].targetName.Some?
  }

  /** The verification entries: each column's names beside what the source scan found in it. */
  function ColumnsOf(p: TablePlan, checks: seq<ColumnCheck>): seq<ColumnVerification>
    requires Named(p) && |checks| == |p.columns|
  {
    seq(|checks|, i requires 0 <= i < |checks| =>
          ColumnVerification(p.columns[i].sourceName, p.columns[i].targetName.value, checks[i]))
  }

  /**
   The transfer records the plan's names, its row count and what the source snapshot held, which a scan of the
   uncommitted target found as well.
   */
  ghost predicate Records(env: Environment, p: TablePlan, x: Transfer) {
    && Named(p) && TransferFor(x, p) && x.rows == p.rowCount
    && |env.source(p).columns| == |p.columns|
    && env.written(p) == env.source(p)
    && x.tableChecksum == env.source(p).table && x.columns == ColumnsOf(p, env.source(p).columns)
  }

  ghost predicate AllRecorded(env: Environment, plans: seq<TablePlan>, transfers: seq<Transfer>) {
    |transfers| == |plans| && forall i :: 0 <= i < |plans| ==> Records(env, plans[i], transfers[i])
  }

  /** A new connection to the target finds the rows and digests that the source snapshot had. */
  ghost predicate Matches(env: Environment, p: TablePlan) {
    env.committed(p) == env.source(p) && env.committedRows(p) == p.rowCount
  }

  ghost predicate AllMatch(env: Environment, plans: seq<TablePlan>) {
    forall i :: 0 <= i < |plans| ==> Matches(env, plans[i])
  }

  /** What a run without failures reports. */
  ghost function Outcome(env: Environment, preflight: Preflight): State {
    if !preflight.ready then Rejected
    else if AllMatch(env, SelectedTables(preflight.tables)) then Verified
    else CommittedUnverified
  }

  /** What the run keeps: a commit is issued only after its checkpoint is out, and success is only logged after it. */
  ghost predicate Ordered(log: seq<Phase>, commit: Commit) {
    && (commit != NotIssued ==> CommitStarted in log)
    && (Committed in log || PhaseUnverified in log || PhaseVerified in log ==> commit == Succeeded)
    && (PhaseIndeterminate in log ==> commit == Failed)
    && (PhaseRejected in log || PhaseRolledBack in log ==> commit == NotIssued)
  }

  ghost predicate NoFailure(env: Environment) {
    forall n: nat :: !env.fails(n)
  }

  /** COPY moves every row of the plans, unchanged. */
  ghost predicate Copies(env: Environment, plans: seq<TablePlan>) {
    forall i :: 0 <= i < |plans| ==>
      env.copied(plans[i]).0 == plans[i].rowCount && env.written(plans[i]) == env.source(plans[i])
  }

  /** No call fails, COPY is faithful, and there are enough numbers left for the checkpoints. */
  ghost predicate Smooth(env: Environment, plans: seq<TablePlan>, sequence: nat) {
    NoFailure(env) && Copies(env, plans) && sequence + 2 * |plans| + 2 <= MAX_U64
  }

  predicate TotalsFit(plans: seq<TablePlan>) {
    |plans| <= MAX_U64 && RowTotal(plans) <= MAX_U64 && ByteTotal(plans) <= MAX_U64
  }

  predicate EarlyPhase(p: Phase) {
    p.ConnectingSource? || p.PreflightComplete? || p.TargetTransactionStarted? || p.TableCopyStarted?
      || p.TableVerified?
  }

  /** Nothing later than the verification of a copied table was logged. */
  ghost predicate Early(log: seq<Phase>) {
    forall phase :: phase in log ==> EarlyPhase(phase)
  }

  ghost predicate AllNamed(plans: seq<TablePlan>) {
    forall i :: 0 <= i < |plans| ==> Named(plans[i])
  }

  class Migration {
    const env: Environment
    const hasProgressFile: bool
    var calls: nat
    var sequence: nat
    var log: seq<Phase>
    var commit: Commit

    constructor (env: Environment, hasProgressFile: bool)
      ensures this.env == env && commit == NotIssued && log == []
    {
      this.env, this.hasProgressFile := env, hasProgressFile;
      calls, sequence, log, commit := 0, 0, [], NotIssued;
    }

    /** A call that may fail. */
    method Call() returns (ok: bool)
      modifies `calls
      ensures NoFailure(env) ==> ok
    {
      ok := !env.fails(calls);
      calls := calls + 1;
    }

    /** Publishes a checkpoint: numbered within 64 bits, and written when there is a progress file. */
    method Publish(phase: Phase) returns (ok: bool)
      modifies `calls, `sequence, `log
      ensures log == old(log) + if ok then [phase] else []
      ensures sequence == old(sequence) + (if old(sequence) < MAX_U64 then 1 else 0)
      ensures ok ==> old(sequence) < MAX_U64
      ensures NoFailure(env) && old(sequence) < MAX_U64 ==> ok
    {
      if sequence >= MAX_U64 { return false; }
      sequence := sequence + 1;
      ok := true;
      if hasProgressFile { ok := Call(); }
      if ok { log := log + [phase]; }
    }

    /** A scan of a table, which may fail. */
    method Scan(scan: TablePlan -> Checks, p: TablePlan) returns (r: Option<Checks>)
      modifies `calls
      ensures r.Some? ==> r.value == scan(p)
      ensures NoFailure(env) ==> r.Some?
    {
      var ok := Call();
      r := if ok then Some(scan(p)) else None;
    }

    /** The body of the second loop of prepare_target: copies one table and compares the two sides. */
    method CopyTable(p: TablePlan) returns (r: Option<Transfer>)
      requires Named(p) && Scans(env.source) && Early(log)
      modifies `calls, `sequence, `log
      ensures r.Some? ==> Records(env, p, r.value)
      ensures sequence <= old(sequence) + 2
      ensures NoFailure(env) && Copies(env, [p]) && old(sequence) + 2 <= MAX_U64 ==> r.Some?
      ensures Early(log)
    {
      assert Copies(env, [p]) ==> env.copied([p][0]).0 == p.rowCount && env.written([p][0]) == env.source(p);
      var ok := Publish(TableCopyStarted);
      if !ok { return None; }
      ok := Call();
      if !ok { return None; }
      var (rows, bytes) := env.copied(p);
      if rows != p.rowCount { return None; }
      ok := Call();
      if !ok { return None; }
      var source := Scan(env.source, p);
      if source.None? { return None; }
      var target := Scan(env.written, p);
      if target.None? || source.value != target.value { return None; }
      var x := Transfer(
        SourceIdentity(p), TargetIdentity(p), rows, bytes, source.value.table, ColumnsOf(p, source.value.columns));
      ok := Publish(TableVerified);
      r := if ok then Some(x) else None;
    }

    /** prepare_target: creates every selected table, then copies and compares them one by one. */
    method PrepareTarget(plans: seq<TablePlan>) returns (r: Option<seq<Transfer>>)
      requires Scans(env.source) && AllNamed(plans) && Early(log)
      modifies `calls, `sequence, `log
      ensures r.Some? ==> AllRecorded(env, plans, r.value)
      ensures sequence <= old(sequence) + 2 * |plans|
      ensures NoFailure(env) && Copies(env, plans) && old(sequence) + 2 * |plans| <= MAX_U64 ==> r.Some?
      ensures Early(log)
    {
      for i := 0 to |plans|
        invariant log == old(log) && sequence == old(sequence)
      {
        var ok := Call();
        if !ok { return None; }
      }
      var transfers := [];
      for i := 0 to |plans|
        invariant AllRecorded(env, plans[..i], transfers)
        invariant Early(log) && sequence <= old(sequence) + 2 * i
      {
        assert Copies(env, plans) ==> Copies(env, [plans[i]]);
        var x := CopyTable(plans[i]);
        if x.None? { return None; }
        transfers := transfers + [x.value];
      }
      assert plans[..|plans|] == plans;
      r := Some(transfers);
    }

    /** verify_target: scans the committed tables again and compares with what was recorded. */
    method VerifyTarget(plans: seq<TablePlan>, expected: seq<Transfer>) returns (ok: bool)
      requires Scans(env.committed) && AllRecorded(env, plans, expected)
      modifies `calls
      ensures ok ==> AllMatch(env, plans)
      ensures NoFailure(env) && AllMatch(env, plans) ==> ok
    {
      if |plans| != |expected| { return false; }
      for i := 0 to |plans|
        invariant AllMatch(env, plans[..i])
      {
        var actual := Scan(env.committed, plans[i]);
        if actual.None? || actual.value.table != expected[i].tableChecksum { return false; }
        if |actual.value.columns| != |expected[i].columns| { return false; }
        var found, wanted := actual.value.columns, expected[i].columns;
        if exists k :: 0 <= k < |wanted| && found[k] != wanted[k].check { return false; }
        var counted := Call();
        if !counted || env.committedRows(plans[i]) < 0
          || env.committedRows(plans[i]) != expected[i].rows { return false; }
        MatchesRecord(env, plans[i], expected[i]);
      }
      assert plans[..|plans|] == plans;
      ok := true;
    }

    /** What a report of each state says about the run. */
    ghost predicate Truthful(r: Report)
      reads this
    {
      var plans := SelectedTables(r.preflight.tables);
      match r.state
      case Rejected => commit == NotIssued && !r.preflight.ready && r.tables == []
      case FailedRolledBack => commit == NotIssued && r.preflight.ready && r.tables == []
      case CommitIndeterminate => commit == Failed && r.preflight.ready && AllRecorded(env, plans, r.tables)
      case CommittedUnverified => commit == Succeeded && r.preflight.ready && AllRecorded(env, plans, r.tables)
      case Verified =>
        commit == Succeeded && r.preflight.ready && AllRecorded(env, plans, r.tables) && AllMatch(env, plans)
    }

    /** What follows a successful commit. */
    method VerifyCommitted(preflight: Preflight, staging: Option<StagingPlan>, transfers: seq<Transfer>)
      returns (r: Option<Report>)
      requires Scans(env.committed) && preflight.ready && AllRecorded(env, SelectedTables(preflight.tables), transfers)
      requires commit == Succeeded && Ordered(log, commit)
      modifies `calls, `sequence, `log
      ensures r.Some? ==> Truthful(r.value) && r.value.preflight == preflight && r.value.staging == staging
      ensures Ordered(log, commit)
      ensures NoFailure(env) ==> r.Some? && r.value.state == Outcome(env, preflight)
    {
      var _ := Publish(Committed);
      var verified := false;
      var connected := Call();
      if connected { verified := VerifyTarget(SelectedTables(preflight.tables), transfers); }
      var ok := Call();
      if !ok { return None; }
      var _ := Publish(if verified then PhaseVerified else PhaseUnverified);
      r := Some(Report(if verified then Verified else CommittedUnverified, staging, preflight, transfers));
    }

    /** What follows a successful preparation: the commit, and the verification over a new connection. */
    method CommitAndVerify(preflight: Preflight, staging: Option<StagingPlan>, transfers: seq<Transfer>)
      returns (r: Option<Report>)
      requires Scans(env.committed) && preflight.ready && AllRecorded(env, SelectedTables(preflight.tables), transfers)
      requires commit == NotIssued && Early(log)
      modifies `calls, `sequence, `log, `commit
      ensures r.Some? ==> Truthful(r.value) && r.value.preflight == preflight && r.value.staging == staging
      ensures Ordered(log, commit)
      ensures NoFailure(env) && old(sequence) < MAX_U64 ==>
        r.Some? && r.value.state == Outcome(env, preflight)
    {
      var ok := Publish(CommitStarted);
      if !ok { return None; }
      ok := Call();
      if !ok {
        commit := Failed;
        ok := Call();
        if !ok { return None; }
        var _ := Publish(PhaseIndeterminate);
        return Some(Report(CommitIndeterminate, staging, preflight, transfers));
      }
      commit := Succeeded;
      r := VerifyCommitted(preflight, staging, transfers);
    }

    /** From the source connection to the end of the preflight. */
    method Preflight(c: Config, inventory: Inventory, normalize: Normalize) returns (r: Option<Preflight>)
      requires Valid(c) && log == []
      modifies `calls, `sequence, `log
      ensures r.Some? ==> r.value == PreflightOf(c, inventory, normalize) && AllNamed(SelectedTables(r.value.tables))
      ensures Early(log) && sequence <= old(sequence) + 2
      ensures
        var plans := SelectedTables(PreflightOf(c, inventory, normalize).tables);
        NoFailure(env) && old(sequence) + 2 <= MAX_U64 && TotalsFit(plans) ==> r.Some?
    {
      var ok := Publish(ConnectingSource);
      if !ok { return None; }
      ok := Call();
      if !ok { return None; }
      ok := Call();
      if !ok { return None; }
      var preflight := BuildPreflight(c, inventory, normalize);
      var selected := SelectedTables(preflight.tables);
      if !TotalsFit(selected) { return None; }
      ok := Publish(PreflightComplete);
      if !ok { return None; }
      SelectedAreNamed(c, inventory, normalize);
      r := Some(preflight);
    }

    /** The target's connection and identity, its transaction, and the checkpoint that it has begun. */
    method OpenTarget() returns (ok: bool)
      modifies `calls, `sequence, `log
      ensures log == old(log) + if ok then [TargetTransactionStarted] else []
      ensures sequence <= old(sequence) + 1
      ensures NoFailure(env) && old(sequence) < MAX_U64 ==> ok
    {
      ok := Call();
      if ok { ok := Call(); }
      if ok { ok := Call(); }
      if ok { ok := Publish(TargetTransactionStarted); }
    }

    /** Everything after a ready preflight. */
    method RunTarget(preflight: Preflight, staging: Option<StagingPlan>) returns (r: Option<Report>)
      requires Scans(env.source) && Scans(env.committed) && AllNamed(SelectedTables(preflight.tables))
      requires preflight.ready && commit == NotIssued && Early(log)
      modifies `calls, `sequence, `log, `commit
      ensures r.Some? ==> Truthful(r.value) && r.value.preflight == preflight && r.value.staging == staging
      ensures Ordered(log, commit)
      ensures
        Smooth(env, SelectedTables(preflight.tables), old(sequence)) ==>
          r.Some? && r.value.state == Outcome(env, preflight)
    {
      var ok := OpenTarget();
      if !ok { return None; }
      var prepared := PrepareTarget(SelectedTables(preflight.tables));
      if prepared.Some? {
        r := CommitAndVerify(preflight, staging, prepared.value);
        return;
      }
      var _ := Call();
      ok := Call();
      if !ok { return None; }
      ok := Publish(PhaseRolledBack);
      r := if ok then Some(Report(FailedRolledBack, staging, preflight, [])) else None;
    }

    /** Everything after the preflight. */
    method RunAfterPreflight(preflight: Preflight, staging: Option<StagingPlan>) returns (r: Option<Report>)
      requires Scans(env.source) && Scans(env.committed) && AllNamed(SelectedTables(preflight.tables))
      requires commit == NotIssued && Early(log)
      modifies `calls, `sequence, `log, `commit
      ensures r.Some? ==> Truthful(r.value) && r.value.preflight == preflight && r.value.staging == staging
      ensures Ordered(log, commit)
      ensures Smooth(env, SelectedTables(preflight.tables), old(sequence)) ==>
        r.Some? && r.value.state == Outcome(env, preflight)
    {
      if preflight.ready {
        r := RunTarget(preflight, staging);
        return;
      }
      var ok := Call();
      if !ok { return None; }
      ok := Publish(PhaseRejected);
      r := if ok then Some(Report(Rejected, staging, preflight, [])) else None;
    }

    /** What is reported of a run over the expected preflight, whose checkpoints start after `start`. */
    ghost predicate Reported(expected: Preflight, staging: Option<StagingPlan>, start: nat, r: Option<Report>)
      reads this
    {
      && (r.Some? ==> Truthful(r.value) && r.value.preflight == expected && r.value.staging == staging)
      && Ordered(log, commit)
      && (Smooth(env, SelectedTables(expected.tables), start + 2) && TotalsFit(SelectedTables(expected.tables)) ==>
            r.Some? && r.value.state == Outcome(env, expected))
    }

    /** Everything after the attempt at a preflight. */
    method RunPreflighted(
        found: Option<Preflight>, ghost expected: Preflight, staging: Option<StagingPlan>, ghost start: nat)
      returns (r: Option<Report>)
      requires Scans(env.source) && Scans(env.committed) && commit == NotIssued && Early(log) && sequence <= start + 2
      requires found.Some? ==> found.value == expected && AllNamed(SelectedTables(expected.tables))
      requires NoFailure(env) && start + 2 <= MAX_U64 && TotalsFit(SelectedTables(expected.tables)) ==> found.Some?
      modifies `calls, `sequence, `log, `commit
      ensures Reported(expected, staging, start, r)
    {
      if found.None? { return None; }
      r := RunAfterPreflight(found.value, staging);
    }

    /** run_migration. */
    method RunMigration(c: Config, inventory: Inventory, normalize: Normalize, staging: Option<StagingPlan>)
      returns (r: Option<Report>)
      requires Valid(c) && Scans(env.source) && Scans(env.committed) && log == [] && commit == NotIssued
      modifies this
      ensures Reported(PreflightOf(c, inventory, normalize), staging, old(sequence), r)
    {
      var preflight := Preflight(c, inventory, normalize);
      r := RunPreflighted(preflight, PreflightOf(c, inventory, normalize), staging, old(sequence));
    }
  }

  function RowTotal(plans: seq<TablePlan>): nat {
    if plans == [] then 0 else plans[0].rowCount + RowTotal(plans[1..])
  }

  function ByteTotal(plans: seq<TablePlan>): nat {
    if plans == [] then 0 else plans[0].estimatedBytes + ByteTotal(plans[1..])
  }

  /** The columns of a plan made for a mapping are all named. */
  lemma PlanNamed(table: SourceTable, m: TableMapping, normalize: Normalize)
    ensures Named(SelectedPlan(table, m, normalize))
  {
    forall i | 0 <= i < |table.columns| ensures ColumnPlanAt(table, m, normalize, i).targetName.Some? {
      ClassifyRejects(table.columns[i], ColumnTarget(m, table.columns[i]), normalize);
    }
  }

  lemma SelectedIsNamed(c: Config, inventory: Inventory, normalize: Normalize, p: TablePlan)
    requires p in Tables(c, inventory, normalize) && Selected(p)
    ensures Named(p)
  {
    var names := TableNames(inventory.tables);
    var a, b := InventoryPlans(c, inventory.tables, normalize), MissingPlans(c.tables, names);
    assert p in multiset(a + b);
    MissingAreRejected(c.tables, names);
    var i :| 0 <= i < |a| && a[i] == p;
    var m := FindMapping(c.tables, inventory.tables[i].Name());
    PlanNamed(inventory.tables[i], m.value, normalize);
  }

  lemma SelectedAreNamed(c: Config, inventory: Inventory, normalize: Normalize)
    requires Valid(c)
    ensures AllNamed(SelectedTables(PreflightOf(c, inventory, normalize).tables))
  {
    var plans := SelectedTables(Tables(c, inventory, normalize));
    forall i | 0 <= i < |plans| ensures Named(plans[i]) {
      SelectedIsNamed(c, inventory, normalize, plans[i]);
    }
  }

  lemma MatchesRecord(env: Environment, p: TablePlan, x: Transfer)
    requires Records(env, p, x) && env.committed(p).table == x.tableChecksum
      && |env.committed(p).columns| == |x.columns|
    requires forall k :: 0 <= k < |x.columns| ==> env.committed(p).columns[k] == x.columns[k].check
    requires env.committedRows(p) == x.rows
    ensures Matches(env, p)
  {
    assert env.committed(p).columns == env.source(p).columns;
  }

  /** The transfers of a report line up with its plans, which is what releasing a staged run needs. */
  lemma RecordedLineUp(env: Environment, plans: seq<TablePlan>, transfers: seq<Transfer>)
    requires AllRecorded(env, SelectedTables(plans), transfers)
    ensures LinesUp(plans, transfers)
  {
  }

  /**
   A staged run that ends verified can be released exactly when no two source tables share a dotted name, and
   the release plan is then the plan the release configuration itself would have had.
   */
  lemma VerifiedRunReleases(
      id: string, c: Config, inventory: Inventory, normalize: Normalize, env: Environment, r: Report)
    requires Valid(c) && Valid(StageConfig(id, c)) && Distinct(TableNames(inventory.tables))
    requires r.preflight == PreflightOf(StageConfig(id, c), inventory, normalize) && r.preflight.ready
    requires AllRecorded(env, SelectedTables(r.preflight.tables), r.tables)
    ensures Releasable(TargetsOf(id, c.tables), r.preflight.tables, r.tables) <==> Distinct(Identities(c.tables))
    ensures Releasable(TargetsOf(id, c.tables), r.preflight.tables, r.tables) ==>
      Restored(TargetsOf(id, c.tables), r.preflight.tables, PreflightOf(c, inventory, normalize).tables, r.tables)
  {
    RecordedLineUp(env, r.preflight.tables, r.tables);
    ReleaseUndoesStaging(id, c, inventory, normalize, r.tables);
  }
}
