/** Staging a migration under prefixed table names, and the release plan that takes the prefix off again. */
module Staging {
  import opened Wrappers
  import opened MigrationConfig
  import opened MigrationPlan
  import opened Preflights

  // ---- Staging a configuration --------------------------------------------------------------------

  datatype StagingTarget = StagingTarget(
    sourceIdentity: string, stagingSchema: string, stagingTable: string, releaseSchema: string, releaseTable: string)

  datatype StagingPlan = StagingPlan(id: string, targets: seq<StagingTarget>)

  predicate StagingChar(c: char) {
    'a' <= c <= 'z' || '0' <= c <= '9' || c == '_'
  }

  predicate StagingId(id: string) {
    id != [] && Utf8Length(id) <= 24 && (forall i :: 0 <= i < |id| ==> StagingChar(id[i])) && 'a' <= id[0] <= 'z'
  }

  function StagedName(id: string, table: string): string {
    id + "__" + table
  }

  function StageMapping(id: string, m: TableMapping): TableMapping {
    m.(targetTable := StagedName(id, m.targetTable))
  }

  function StageMappings(id: string, tables: seq<TableMapping>): (r: seq<TableMapping>)
    ensures |r| == |tables|
  {
    seq(|tables|, i requires 0 <= i < |tables| => StageMapping(id, tables[i]))
  }

  function StageConfig(id: string, c: Config): Config {
    c.(tables := StageMappings(id, c.tables))
  }

  function TargetOf(id: string, m: TableMapping): StagingTarget {
    StagingTarget(Dotted(m.Source()), m.targetSchema, StagedName(id, m.targetTable), m.targetSchema, m.targetTable)
  }

  function TargetsOf(id: string, tables: seq<TableMapping>): (r: seq<StagingTarget>)
    ensures |r| == |tables|
  {
    seq(|tables|, i requires 0 <= i < |tables| => TargetOf(id, tables[i]))
  }

  predicate Fits(id: string, m: TableMapping) {
    Utf8Length(StagedName(id, m.targetTable)) <= 63
  }

  predicate AllFit(id: string, tables: seq<TableMapping>) {
    forall i :: 0 <= i < |tables| ==> Fits(id, tables[i])
  }

  /** build_staging_config. */
  method BuildStagingConfig(c: Config, id: string) returns (r: Option<(Config, StagingPlan)>)
    ensures r.Some? <==> StagingId(id) && AllFit(id, c.tables) && Valid(StageConfig(id, c))
    ensures r.Some? ==> r.value == (StageConfig(id, c), StagingPlan(id, TargetsOf(id, c.tables)))
  {
    if !StagingId(id) { return None; }
    var tables, targets := c.tables, [];
    for i := 0 to |tables|
      invariant |tables| == |c.tables| && |targets| == i
      invariant forall j :: 0 <= j < i ==> Fits(id, c.tables[j])
      invariant forall j :: 0 <= j < i ==>
        tables[j] == StageMapping(id, c.tables[j]) && targets[j] == TargetOf(id, c.tables[j])
      invariant forall j :: i <= j < |tables| ==> tables[j] == c.tables[j]
    {
      var table := tables[i];
      if !Fits(id, table) { return None; }
      targets := targets + [TargetOf(id, table)];
      tables := tables[i := StageMapping(id, table)];
    }
    assert tables == StageMappings(id, c.tables) && targets == TargetsOf(id, c.tables);
    var ok := Validate(c.(tables := tables));
    r := if ok then Some((c.(tables := tables), StagingPlan(id, targets))) else None;
  }

  // ---- Staging succeeds when the names fit --------------------------------------------------------

  lemma StagedNameIsInjective(id: string, a: string, b: string)
    requires StagedName(id, a) == StagedName(id, b)
    ensures a == b
  {
    assert StagedName(id, a)[|id| + 2..] == a && StagedName(id, b)[|id| + 2..] == b;
  }

  lemma StagedIdentifier(id: string, m: TableMapping)
    requires StagingId(id) && Fits(id, m) && Identifier(m.targetTable)
    ensures Identifier(StagedName(id, m.targetTable))
  {
    forall c | c in StagedName(id, m.targetTable) ensures !Control(c) {
      assert c in id || c == '_' || c in m.targetTable;
    }
  }

  lemma StagedTargetsDistinct(id: string, tables: seq<TableMapping>)
    requires Distinct(Targets(tables))
    ensures Distinct(Targets(StageMappings(id, tables)))
  {
    forall i, j | 0 <= i < j < |tables|
      ensures Targets(StageMappings(id, tables))[i] != Targets(StageMappings(id, tables))[j]
    {
      assert Targets(tables)[i] != Targets(tables)[j];
      if StagedName(id, tables[i].targetTable) == StagedName(id, tables[j].targetTable) {
        StagedNameIsInjective(id, tables[i].targetTable, tables[j].targetTable);
      }
    }
  }

  function StageOption(id: string, m: Option<TableMapping>): Option<TableMapping> {
    if m.Some? then Some(StageMapping(id, m.value)) else None
  }

  lemma {:induction false} StagedLookup(id: string, tables: seq<TableMapping>, source: Name)
    ensures FindMapping(StageMappings(id, tables), source) == StageOption(id, FindMapping(tables, source))
    decreases |tables|
  {
    if tables != [] {
      assert StageMappings(id, tables)[1..] == StageMappings(id, tables[1..]);
      StagedLookup(id, tables[1..], source);
    }
  }

  lemma StagedSources(id: string, tables: seq<TableMapping>)
    ensures Sources(StageMappings(id, tables)) == Sources(tables)
  {
  }

  lemma StagedGrantsValid(id: string, c: Config)
    requires ValidGrants(c)
    ensures ValidGrants(StageConfig(id, c))
  {
    forall i | 0 <= i < |c.grantMappings| ensures ValidGrant(c.grantMappings[i], StageConfig(id, c)) {
      var g := c.grantMappings[i];
      assert ValidGrant(g, c);
      StagedLookup(id, c.tables, (g.sourceSchema, g.sourceTable));
    }
  }

  lemma StagedTablesValid(id: string, c: Config)
    requires ValidTables(c) && StagingId(id) && AllFit(id, c.tables)
    ensures ValidTables(StageConfig(id, c))
  {
    StagedSources(id, c.tables);
    StagedTargetsDistinct(id, c.tables);
    forall i | 0 <= i < |c.tables| ensures ValidTable(StageMapping(id, c.tables[i]), c.sourceSchemas) {
      assert ValidTable(c.tables[i], c.sourceSchemas);
      StagedIdentifier(id, c.tables[i]);
    }
  }

  /** A valid configuration can be staged under an identifier exactly when every staged name fits 63 bytes. */
  lemma StagingSucceeds(id: string, c: Config)
    requires Valid(c) && StagingId(id)
    ensures AllFit(id, c.tables) <==> Valid(StageConfig(id, c))
  {
    if AllFit(id, c.tables) {
      StagedTablesValid(id, c);
      StagedGrantsValid(id, c);
    }
    if Valid(StageConfig(id, c)) {
      forall i | 0 <= i < |c.tables| ensures Fits(id, c.tables[i]) {
        assert ValidTable(StageConfig(id, c).tables[i], c.sourceSchemas);
      }
    }
  }

  // ---- The staged preflight -----------------------------------------------------------------------

  /** The same plan for the prefixed table. */
  function StagePlan(id: string, p: TablePlan): TablePlan {
    if p.targetTable.Some? then p.(targetTable := Some(StagedName(id, p.targetTable.value))) else p
  }

  function StagePlans(id: string, plans: seq<TablePlan>): (r: seq<TablePlan>)
    ensures |r| == |plans|
  {
    seq(|plans|, i requires 0 <= i < |plans| => StagePlan(id, plans[i]))
  }

  lemma StagedColumns(id: string, table: SourceTable, m: TableMapping, normalize: Normalize)
    ensures ColumnPlans(table, StageMapping(id, m), normalize) == ColumnPlans(table, m, normalize)
  {
    assert ColumnTargets(StageMapping(id, m), table.columns) == ColumnTargets(m, table.columns);
  }

  lemma StagedPlanOf(id: string, table: SourceTable, m: Option<TableMapping>, normalize: Normalize)
    ensures PlanOf(table, StageOption(id, m), normalize) == StagePlan(id, PlanOf(table, m, normalize))
  {
    if m.Some? { StagedColumns(id, table, m.value, normalize); }
  }

  lemma {:induction false} InsertStaged(id: string, p: TablePlan, s: seq<TablePlan>)
    ensures InsertPlan(StagePlan(id, p), StagePlans(id, s)) == StagePlans(id, InsertPlan(p, s))
    decreases |s|
  {
    if s != [] {
      StagedTail(id, s);
      InsertStaged(id, p, s[1..]);
      if NameBefore(s[0].Source(), p.Source()) {
        StagedCons(id, s[0], InsertPlan(p, s[1..]));
      } else {
        StagedCons(id, p, s);
      }
    }
  }

  lemma StagedTail(id: string, s: seq<TablePlan>)
    requires s != []
    ensures StagePlans(id, s)[0] == StagePlan(id, s[0]) && StagePlans(id, s)[1..] == StagePlans(id, s[1..])
    ensures StagePlan(id, s[0]).Source() == s[0].Source()
  {
  }

  lemma StagedCons(id: string, p: TablePlan, s: seq<TablePlan>)
    ensures StagePlans(id, [p] + s) == [StagePlan(id, p)] + StagePlans(id, s) && StagePlan(id, p).Source() == p.Source()
  {
  }

  /** Sorting does not look at the target names. */
  lemma {:induction false} SortStaged(id: string, s: seq<TablePlan>)
    ensures SortPlans(StagePlans(id, s)) == StagePlans(id, SortPlans(s))
    decreases |s|
  {
    if s != [] {
      assert StagePlans(id, s)[1..] == StagePlans(id, s[1..]);
      SortStaged(id, s[1..]);
      InsertStaged(id, s[0], SortPlans(s[1..]));
    }
  }

  lemma {:induction false} MissingStaged(id: string, mappings: seq<TableMapping>, names: seq<Name>)
    ensures MissingPlans(StageMappings(id, mappings), names) == StagePlans(id, MissingPlans(mappings, names))
    decreases |mappings|
  {
    if mappings != [] {
      assert StageMappings(id, mappings)[1..] == StageMappings(id, mappings[1..]);
      MissingStaged(id, mappings[1..], names);
    }
  }

  lemma InventoryStaged(id: string, c: Config, tables: seq<SourceTable>, normalize: Normalize)
    ensures InventoryPlans(StageConfig(id, c), tables, normalize)
      == StagePlans(id, InventoryPlans(c, tables, normalize))
  {
    forall i | 0 <= i < |tables|
      ensures InventoryPlans(StageConfig(id, c), tables, normalize)[i]
        == StagePlans(id, InventoryPlans(c, tables, normalize))[i]
    {
      StagedLookup(id, c.tables, tables[i].Name());
      StagedPlanOf(id, tables[i], FindMapping(c.tables, tables[i].Name()), normalize);
    }
  }

  lemma TablesStaged(id: string, c: Config, inventory: Inventory, normalize: Normalize)
    ensures Tables(StageConfig(id, c), inventory, normalize) == StagePlans(id, Tables(c, inventory, normalize))
  {
    var names := TableNames(inventory.tables);
    var a, b := InventoryPlans(c, inventory.tables, normalize), MissingPlans(c.tables, names);
    InventoryStaged(id, c, inventory.tables, normalize);
    MissingStaged(id, c.tables, names);
    SortBoth(id, a, b);
  }

  lemma SortBoth(id: string, a: seq<TablePlan>, b: seq<TablePlan>)
    ensures SortPlans(StagePlans(id, a) + StagePlans(id, b)) == StagePlans(id, SortPlans(a + b))
  {
    assert StagePlans(id, a) + StagePlans(id, b) == StagePlans(id, a + b);
    SortStaged(id, a + b);
  }

  lemma ErrorsStaged(id: string, c: Config, inventory: Inventory)
    ensures Errors(StageConfig(id, c), inventory) == Errors(c, inventory)
  {
    var names, staged := TableNames(inventory.tables), StageMappings(id, c.tables);
    forall e | e in TableErrors(c.tables, names) ensures e in TableErrors(staged, names) {
      var m :| m in c.tables && m.Source() !in names && e == NoSuchTable(m.Source());
      var i :| 0 <= i < |c.tables| && c.tables[i] == m;
      assert staged[i] in staged;
    }
    forall e | e in TableErrors(staged, names) ensures e in TableErrors(c.tables, names) {
      var m :| m in staged && m.Source() !in names && e == NoSuchTable(m.Source());
      var i :| 0 <= i < |c.tables| && staged[i] == m;
      assert c.tables[i] in c.tables;
    }
  }

  /**
   The staged and the release preflight agree on everything but the target names: the same tables in the same
   order with the prefix on, the same verdict, objects, roles and errors.
   */
  lemma StagedPreflight(id: string, c: Config, inventory: Inventory, normalize: Normalize)
    requires Valid(c) && Valid(StageConfig(id, c))
    ensures var r, s := PreflightOf(c, inventory, normalize), PreflightOf(StageConfig(id, c), inventory, normalize);
      && s.tables == StagePlans(id, r.tables) && s.ready == r.ready
      && s.objects == r.objects && s.roles == r.roles && s.errors == r.errors
  {
    TablesStaged(id, c, inventory, normalize);
    ErrorsStaged(id, c, inventory);
    var r, s := Tables(c, inventory, normalize), Tables(StageConfig(id, c), inventory, normalize);
    assert forall i :: 0 <= i < |r| ==>
      (Selected(s[i]) <==> Selected(r[i])) && (s[i].targetTable.Some? <==> r[i].targetTable.Some?);
  }

  // ---- The release plan ---------------------------------------------------------------------------

  function SourceIdentity(p: TablePlan): string {
    Dotted(p.Source())
  }

  function TargetIdentity(p: TablePlan): string
    requires p.targetSchema.Some? && p.targetTable.Some?
  {
    Dotted((p.targetSchema.value, p.targetTable.value))
  }

  function FindTarget(targets: seq<StagingTarget>, identity: string): (r: Option<StagingTarget>)
    ensures r.Some? ==> r.value in targets && r.value.sourceIdentity == identity
  {
    if targets == [] then None
    else if targets[0].sourceIdentity == identity then Some(targets[0])
    else FindTarget(targets[1..], identity)
  }

  /** The plan has a staging target and still points at it. */
  predicate Unstages(targets: seq<StagingTarget>, p: TablePlan) {
    var t := FindTarget(targets, SourceIdentity(p));
    Selected(p) ==>
      && t.Some? && p.targetSchema == Some(t.value.stagingSchema)
      && p.targetTable == Some(t.value.stagingTable)
  }

  function Unstage(targets: seq<StagingTarget>, p: TablePlan): TablePlan
    requires Unstages(targets, p)
  {
    if Selected(p) then
      var t := FindTarget(targets, SourceIdentity(p)).value;
      p.(targetSchema := Some(t.releaseSchema), targetTable := Some(t.releaseTable))
    else p
  }

  predicate UnstagesTransfer(targets: seq<StagingTarget>, x: Transfer) {
    var t := FindTarget(targets, x.sourceIdentity);
    t.Some? && x.targetIdentity == Dotted((t.value.stagingSchema, t.value.stagingTable))
  }

  function UnstageTransfer(targets: seq<StagingTarget>, x: Transfer): Transfer
    requires UnstagesTransfer(targets, x)
  {
    var t := FindTarget(targets, x.sourceIdentity).value;
    x.(targetIdentity := Dotted((t.releaseSchema, t.releaseTable)))
  }

  /** A report that release_plan accepts. */
  predicate Releasable(targets: seq<StagingTarget>, plans: seq<TablePlan>, transfers: seq<Transfer>) {
    && (forall i :: 0 <= i < |plans| ==> Unstages(targets, plans[i]))
    && |SelectedTables(plans)| == |targets| == |transfers|
    && (forall i :: 0 <= i < |transfers| ==> UnstagesTransfer(targets, transfers[i]))
  }

  /** release_plan: takes the selected plans and the transfers back to their release names, or fails. */
  method ReleasePlan(preflight: Preflight, staging: Option<StagingPlan>, transfers: seq<Transfer>)
    returns (r: Option<(Preflight, seq<Transfer>)>)
    ensures r.Some? <==> staging.Some? && Releasable(staging.value.targets, preflight.tables, transfers)
    ensures r.Some? ==> r.value.0 == preflight.(tables := r.value.0.tables) && |r.value.0.tables| == |preflight.tables|
    ensures r.Some? ==> forall i :: 0 <= i < |preflight.tables| ==>
      Unstages(staging.value.targets, preflight.tables[i])
      && r.value.0.tables[i] == Unstage(staging.value.targets, preflight.tables[i])
    ensures r.Some? ==> |r.value.1| == |transfers| && forall i :: 0 <= i < |transfers| ==>
      UnstagesTransfer(staging.value.targets, transfers[i])
      && r.value.1[i] == UnstageTransfer(staging.value.targets, transfers[i])
  {
    if staging.None? { return None; }
    var targets, plans, tables, seen := staging.value.targets, preflight.tables, preflight.tables, [];
    for i := 0 to |plans|
      invariant |tables| == |plans| && tables[i..] == plans[i..]
      invariant forall j :: 0 <= j < i ==> Unstages(targets, plans[j]) && tables[j] == Unstage(targets, plans[j])
      invariant |seen| + |SelectedTables(plans[i..])| == |SelectedTables(plans)|
    {
      assert plans[i..][0] == plans[i] && plans[i..][1..] == plans[i + 1..] && tables[i] == plans[i];
      if Selected(tables[i]) {
        var target := FindTarget(targets, SourceIdentity(tables[i]));
        if target.None? || tables[i].targetSchema != Some(target.value.stagingSchema)
           || tables[i].targetTable != Some(target.value.stagingTable)
        {
          return None;
        }
        seen := seen + [SourceIdentity(tables[i])];
        tables := tables[i := tables[i].(targetSchema := Some(target.value.releaseSchema),
                                         targetTable := Some(target.value.releaseTable))];
      }
    }
    if |seen| != |targets| || |seen| != |transfers| { return None; }
    var released := [];
    for i := 0 to |transfers|
      invariant |released| == i
      invariant forall j :: 0 <= j < i ==>
        UnstagesTransfer(targets, transfers[j]) && released[j] == UnstageTransfer(targets, transfers[j])
    {
      if !UnstagesTransfer(targets, transfers[i]) { return None; }
      released := released + [UnstageTransfer(targets, transfers[i])];
    }
    r := Some((preflight.(tables := tables), released));
  }

  // ---- Releasing what was staged ------------------------------------------------------------------

  function Identities(tables: seq<TableMapping>): (r: seq<string>)
    ensures |r| == |tables|
  {
    seq(|tables|, i requires 0 <= i < |tables| => Dotted(tables[i].Source()))
  }

  /** The lookup by identity stops at the first mapping with that identity. */
  lemma {:induction false} FindTargetIsFirst(id: string, tables: seq<TableMapping>, k: nat)
    requires k < |tables| && Identities(tables)[k] !in Identities(tables)[..k]
    ensures FindTarget(TargetsOf(id, tables), Identities(tables)[k]) == Some(TargetOf(id, tables[k]))
    decreases k
  {
    if k > 0 {
      assert TargetsOf(id, tables)[1..] == TargetsOf(id, tables[1..]);
      assert Identities(tables)[0] == Identities(tables)[..k][0];
      forall i | 0 <= i < k - 1 ensures Identities(tables[1..])[i] == Identities(tables)[..k][i + 1] {
      }
      FindTargetIsFirst(id, tables[1..], k - 1);
    }
  }

  /** The plan is the one made for this mapping. */
  predicate PlanFor(p: TablePlan, m: TableMapping) {
    p.Source() == m.Source() && p.targetSchema == Some(m.targetSchema) && p.targetTable == Some(m.targetTable)
  }

  lemma {:induction false} MissingAreRejected(mappings: seq<TableMapping>, names: seq<Name>)
    ensures forall p :: p in MissingPlans(mappings, names) ==> !Selected(p)
    decreases |mappings|
  {
    if mappings != [] { MissingAreRejected(mappings[1..], names); }
  }

  /** Every selected plan was made for a mapping of the configuration. */
  lemma PlanOrigin(c: Config, inventory: Inventory, normalize: Normalize, p: TablePlan) returns (k: nat)
    requires p in Tables(c, inventory, normalize) && Selected(p)
    ensures k < |c.tables| && PlanFor(p, c.tables[k])
  {
    var names := TableNames(inventory.tables);
    var a, b := InventoryPlans(c, inventory.tables, normalize), MissingPlans(c.tables, names);
    assert p in multiset(a + b);
    MissingAreRejected(c.tables, names);
    var i :| 0 <= i < |a| && a[i] == p;
    var m := FindMapping(c.tables, inventory.tables[i].Name());
    k :| 0 <= k < |c.tables| && c.tables[k] == m.value;
  }

  lemma {:induction false} FindIsUnique(tables: seq<TableMapping>, k: nat)
    requires Distinct(Sources(tables)) && k < |tables|
    ensures FindMapping(tables, tables[k].Source()) == Some(tables[k])
  {
    assert Sources(tables)[k] == tables[k].Source();
    var m := FindMapping(tables, tables[k].Source());
    var j :| 0 <= j < |tables| && tables[j] == m.value;
    assert Sources(tables)[j] == Sources(tables)[k];
    assert j == k;
  }

  lemma MappedPlan(table: SourceTable, m: TableMapping, normalize: Normalize)
    requires table.Name() == m.Source()
    ensures PlanFor(PlanOf(table, Some(m), normalize), m)
  {
  }

  lemma PresentTable(c: Config, inventory: Inventory, k: nat) returns (n: nat)
    requires k < |c.tables| && Errors(c, inventory) == {}
    ensures n < |inventory.tables| && inventory.tables[n].Name() == c.tables[k].Source()
  {
    var names, m := TableNames(inventory.tables), c.tables[k];
    assert m.Source() !in names ==> NoSuchTable(m.Source()) in TableErrors(c.tables, names);
    n :| 0 <= n < |names| && names[n] == m.Source();
  }

  /** When nothing is missing or rejected every mapping has its selected plan. */
  lemma PlanExists(c: Config, inventory: Inventory, normalize: Normalize, k: nat) returns (i: nat)
    requires Distinct(Sources(c.tables)) && k < |c.tables|
    requires Errors(c, inventory) == {} && AllSelected(Tables(c, inventory, normalize))
    ensures var plans := Tables(c, inventory, normalize);
      i < |plans| && Selected(plans[i]) && PlanFor(plans[i], c.tables[k])
  {
    var n := PresentTable(c, inventory, k);
    FindIsUnique(c.tables, k);
    MappedPlan(inventory.tables[n], c.tables[k], normalize);
    var plan := PlanOf(inventory.tables[n], Some(c.tables[k]), normalize);
    assert InventoryPlans(c, inventory.tables, normalize)[n] == plan;
    i := PlanSorted(InventoryPlans(c, inventory.tables, normalize),
        MissingPlans(c.tables, TableNames(inventory.tables)), n);
  }

  lemma PlanSorted(a: seq<TablePlan>, b: seq<TablePlan>, n: nat) returns (i: nat)
    requires n < |a|
    ensures i < |SortPlans(a + b)| && SortPlans(a + b)[i] == a[n]
  {
    assert (a + b)[n] in multiset(a + b);
    assert a[n] in multiset(SortPlans(a + b));
    i :| 0 <= i < |SortPlans(a + b)| && SortPlans(a + b)[i] == a[n];
  }

  /** The staged plan of a mapping with the only such identity is taken back to the release plan. */
  lemma UnstageRestores(id: string, tables: seq<TableMapping>, p: TablePlan, k: nat)
    requires Selected(p) && k < |tables| && PlanFor(p, tables[k]) && Distinct(Identities(tables))
    ensures Unstages(TargetsOf(id, tables), StagePlan(id, p))
    ensures Unstage(TargetsOf(id, tables), StagePlan(id, p)) == p
  {
    FindTargetIsFirst(id, tables, k);
  }

  lemma UnselectedStays(id: string, targets: seq<StagingTarget>, p: TablePlan)
    requires !Selected(p) && (p.targetTable.Some? ==> Selected(p))
    ensures Unstages(targets, StagePlan(id, p)) && Unstage(targets, StagePlan(id, p)) == p
  {
  }

  /** Two mappings with one identity: the plan of the later one no longer matches what the lookup finds. */
  lemma CollisionFails(id: string, tables: seq<TableMapping>, p: TablePlan, i: nat, j: nat)
    requires i < j < |tables| && Identities(tables)[i] == Identities(tables)[j]
    requires Identities(tables)[i] !in Identities(tables)[..i]
    requires Selected(p) && PlanFor(p, tables[j]) && Distinct(Targets(tables))
    ensures !Unstages(TargetsOf(id, tables), StagePlan(id, p))
  {
    FindTargetIsFirst(id, tables, i);
    assert Targets(tables)[i] != Targets(tables)[j];
    if StagedName(id, tables[i].targetTable) == StagedName(id, tables[j].targetTable) {
      StagedNameIsInjective(id, tables[i].targetTable, tables[j].targetTable);
    }
  }

  /** The first of the places a repeated element stands at. */
  lemma {:induction false} FirstRepeat<T>(s: seq<T>, j: nat) returns (i: nat)
    requires j < |s| && s[j] in s[..j]
    ensures i < j && s[i] == s[j] && s[i] !in s[..i]
    decreases j
  {
    i :| 0 <= i < j && s[i] == s[j];
    if s[i] in s[..i] { i := FirstRepeat(s, i); }
  }

  // ---- Counting -----------------------------------------------------------------------------------

  lemma {:induction false} SelectedAppend(a: seq<TablePlan>, b: seq<TablePlan>)
    ensures SelectedTables(a + b) == SelectedTables(a) + SelectedTables(b)
    decreases |a|
  {
    if a == [] {
      assert a + b == b;
    } else {
      assert (a + b)[1..] == a[1..] + b;
      SelectedAppend(a[1..], b);
    }
  }

  lemma {:induction false} SelectedInsert(p: TablePlan, s: seq<TablePlan>)
    ensures |SelectedTables(InsertPlan(p, s))| == |SelectedTables(s)| + if Selected(p) then 1 else 0
    decreases |s|
  {
    if s == [] || !NameBefore(s[0].Source(), p.Source()) {
      assert ([p] + s)[1..] == s;
    } else {
      SelectedInsert(p, s[1..]);
      assert ([s[0]] + InsertPlan(p, s[1..]))[1..] == InsertPlan(p, s[1..]);
    }
  }

  lemma {:induction false} SelectedSort(s: seq<TablePlan>)
    ensures |SelectedTables(SortPlans(s))| == |SelectedTables(s)|
    decreases |s|
  {
    if s != [] {
      SelectedSort(s[1..]);
      SelectedInsert(s[0], SortPlans(s[1..]));
    }
  }

  lemma {:induction false} NoneSelected(s: seq<TablePlan>)
    requires forall p :: p in s ==> !Selected(p)
    ensures SelectedTables(s) == []
    decreases |s|
  {
    if s != [] { NoneSelected(s[1..]); }
  }

  /** How many of the names are in the set. */
  function Hits(names: seq<Name>, wanted: set<Name>): nat {
    if names == [] then 0 else (if names[0] in wanted then 1 else 0) + Hits(names[1..], wanted)
  }

  lemma {:induction false} HitsWithout(names: seq<Name>, wanted: set<Name>, name: Name)
    requires name !in names
    ensures Hits(names, wanted - {name}) == Hits(names, wanted)
    decreases |names|
  {
    if names != [] { HitsWithout(names[1..], wanted, name); }
  }

  lemma {:induction false} HitsAll(names: seq<Name>, wanted: set<Name>)
    requires Distinct(names) && forall w :: w in wanted ==> w in names
    ensures Hits(names, wanted) == |wanted|
    decreases |names|
  {
    if names == [] {
      assert wanted == {};
    } else {
      var rest := wanted - {names[0]};
      HitsAll(names[1..], rest);
      HitsWithout(names[1..], wanted, names[0]);
    }
  }

  lemma {:induction false} DistinctSize<T>(s: seq<T>)
    requires Distinct(s)
    ensures |set x | x in s| == |s|
    decreases |s|
  {
    if s != [] {
      DistinctSize(s[1..]);
      assert (set x | x in s) == (set x | x in s[1..]) + {s[0]};
    }
  }

  lemma {:induction false} SelectedHits(c: Config, tables: seq<SourceTable>, normalize: Normalize, wanted: set<Name>)
    requires forall i :: 0 <= i < |tables| ==>
      (Selected(InventoryPlans(c, tables, normalize)[i]) <==> tables[i].Name() in wanted)
    ensures |SelectedTables(InventoryPlans(c, tables, normalize))| == Hits(TableNames(tables), wanted)
    decreases |tables|
  {
    if tables != [] {
      assert InventoryPlans(c, tables, normalize)[1..] == InventoryPlans(c, tables[1..], normalize);
      assert TableNames(tables)[1..] == TableNames(tables[1..]);
      SelectedHits(c, tables[1..], normalize, wanted);
    }
  }

  lemma InventorySelected(c: Config, inventory: Inventory, normalize: Normalize, i: nat)
    requires i < |inventory.tables| && AllSelected(Tables(c, inventory, normalize))
    ensures Selected(InventoryPlans(c, inventory.tables, normalize)[i]) <==>
      inventory.tables[i].Name() in Sources(c.tables)
  {
    var plans := InventoryPlans(c, inventory.tables, normalize);
    var n := PlanSorted(plans, MissingPlans(c.tables, TableNames(inventory.tables)), i);
    assert plans[i].targetTable.Some? <==> FindMapping(c.tables, inventory.tables[i].Name()).Some?;
    assert Tables(c, inventory, normalize)[n] == plans[i];
  }

  /** A ready preflight carries out one plan for each mapping. */
  lemma SelectedCount(c: Config, inventory: Inventory, normalize: Normalize)
    requires Distinct(Sources(c.tables)) && Distinct(TableNames(inventory.tables))
    requires Errors(c, inventory) == {} && AllSelected(Tables(c, inventory, normalize))
    ensures |SelectedTables(Tables(c, inventory, normalize))| == |c.tables|
  {
    var names := TableNames(inventory.tables);
    var a, b := InventoryPlans(c, inventory.tables, normalize), MissingPlans(c.tables, names);
    var wanted := set s | s in Sources(c.tables);
    SelectedSort(a + b);
    SelectedAppend(a, b);
    MissingAreRejected(c.tables, names);
    NoneSelected(b);
    forall i | 0 <= i < |inventory.tables| ensures Selected(a[i]) <==> inventory.tables[i].Name() in wanted {
      InventorySelected(c, inventory, normalize, i);
    }
    SelectedHits(c, inventory.tables, normalize, wanted);
    forall w | w in wanted ensures w in names {
      var k :| 0 <= k < |c.tables| && Sources(c.tables)[k] == w;
      var n := PresentTable(c, inventory, k);
      assert names[n] == w;
    }
    HitsAll(names, wanted);
    DistinctSize(Sources(c.tables));
  }

  // ---- The round trip -----------------------------------------------------------------------------

  lemma {:induction false} SelectedStaged(id: string, plans: seq<TablePlan>)
    ensures SelectedTables(StagePlans(id, plans)) == StagePlans(id, SelectedTables(plans))
    decreases |plans|
  {
    if plans != [] {
      assert StagePlans(id, plans)[1..] == StagePlans(id, plans[1..]);
      SelectedStaged(id, plans[1..]);
    }
  }

  predicate TransferFor(x: Transfer, p: TablePlan) {
    && p.targetSchema.Some? && p.targetTable.Some?
    && x.sourceIdentity == SourceIdentity(p) && x.targetIdentity == TargetIdentity(p)
  }

  /** One transfer for each plan carried out, in order. */
  predicate LinesUp(plans: seq<TablePlan>, transfers: seq<Transfer>) {
    && |transfers| == |SelectedTables(plans)|
    && forall i :: 0 <= i < |transfers| ==> TransferFor(transfers[i], SelectedTables(plans)[i])
  }

  /** The plan and its transfer go back to the release names. */
  lemma RestoresTransfer(id: string, tables: seq<TableMapping>, p: TablePlan, k: nat, x: Transfer)
    requires Selected(p) && k < |tables| && PlanFor(p, tables[k]) && Distinct(Identities(tables))
    requires TransferFor(x, StagePlan(id, p))
    ensures UnstagesTransfer(TargetsOf(id, tables), x)
    ensures UnstageTransfer(TargetsOf(id, tables), x) == x.(targetIdentity := TargetIdentity(p))
  {
    FindTargetIsFirst(id, tables, k);
  }

  predicate Restored(targets: seq<StagingTarget>, staged: seq<TablePlan>, release: seq<TablePlan>,
      transfers: seq<Transfer>)
    requires Releasable(targets, staged, transfers)
  {
    && |staged| == |release| && (forall i :: 0 <= i < |staged| ==> Unstage(targets, staged[i]) == release[i])
    && |transfers| == |SelectedTables(release)|
    && (forall i :: 0 <= i < |transfers| ==>
      var p := SelectedTables(release)[i];
      && p.targetSchema.Some? && p.targetTable.Some? && transfers[i].sourceIdentity == SourceIdentity(p)
      && UnstageTransfer(targets, transfers[i]) == transfers[i].(targetIdentity := TargetIdentity(p)))
  }

  lemma DistinctReleases(id: string, c: Config, inventory: Inventory, normalize: Normalize, transfers: seq<Transfer>)
    requires Distinct(Identities(c.tables)) && AllSelected(Tables(c, inventory, normalize))
    requires |SelectedTables(Tables(c, inventory, normalize))| == |c.tables|
    requires LinesUp(StagePlans(id, Tables(c, inventory, normalize)), transfers)
    ensures var plans := Tables(c, inventory, normalize);
      && Releasable(TargetsOf(id, c.tables), StagePlans(id, plans), transfers)
      && Restored(TargetsOf(id, c.tables), StagePlans(id, plans), plans, transfers)
  {
    var plans, targets := Tables(c, inventory, normalize), TargetsOf(id, c.tables);
    var selected, staged := SelectedTables(plans), StagePlans(id, plans);
    SelectedStaged(id, plans);
    forall i | 0 <= i < |plans| ensures Unstages(targets, staged[i]) && Unstage(targets, staged[i]) == plans[i] {
      if Selected(plans[i]) {
        var k := PlanOrigin(c, inventory, normalize, plans[i]);
        UnstageRestores(id, c.tables, plans[i], k);
      } else {
        UnselectedStays(id, targets, plans[i]);
      }
    }
    forall i | 0 <= i < |transfers|
      ensures UnstagesTransfer(targets, transfers[i]) && selected[i].targetSchema.Some?
      ensures UnstageTransfer(targets, transfers[i]) == transfers[i].(targetIdentity := TargetIdentity(selected[i]))
    {
      var k := PlanOrigin(c, inventory, normalize, selected[i]);
      assert TransferFor(transfers[i], StagePlan(id, selected[i]));
      RestoresTransfer(id, c.tables, selected[i], k, transfers[i]);
    }
  }

  lemma SharedIdentity(tables: seq<TableMapping>) returns (i: nat, j: nat)
    requires !Distinct(Identities(tables))
    ensures i < j < |tables| && Identities(tables)[i] == Identities(tables)[j]
    ensures Identities(tables)[i] !in Identities(tables)[..i]
  {
    var names := Identities(tables);
    var a;
    a, j :| 0 <= a < j < |names| && names[a] == names[j];
    assert names[..j][a] == names[j];
    i := FirstRepeat(names, j);
  }

  lemma CollisionRefuses(id: string, c: Config, inventory: Inventory, normalize: Normalize) returns (n: nat)
    requires !Distinct(Identities(c.tables)) && Distinct(Sources(c.tables)) && Distinct(Targets(c.tables))
    requires Errors(c, inventory) == {} && AllSelected(Tables(c, inventory, normalize))
    ensures n < |Tables(c, inventory, normalize)|
    ensures !Unstages(TargetsOf(id, c.tables), StagePlan(id, Tables(c, inventory, normalize)[n]))
  {
    var i, j := SharedIdentity(c.tables);
    n := PlanExists(c, inventory, normalize, j);
    CollisionFails(id, c.tables, Tables(c, inventory, normalize)[n], i, j);
  }

  lemma ReleasableIffDistinct(
      id: string, c: Config, inventory: Inventory, normalize: Normalize, plans: seq<TablePlan>, staged: seq<TablePlan>,
      transfers: seq<Transfer>)
    requires plans == Tables(c, inventory, normalize) && staged == StagePlans(id, plans) && LinesUp(staged, transfers)
    requires Errors(c, inventory) == {} && AllSelected(plans)
    requires Distinct(Sources(c.tables)) && Distinct(Targets(c.tables)) && Distinct(TableNames(inventory.tables))
    ensures Releasable(TargetsOf(id, c.tables), staged, transfers) <==> Distinct(Identities(c.tables))
    ensures Releasable(TargetsOf(id, c.tables), staged, transfers) ==>
      Restored(TargetsOf(id, c.tables), staged, plans, transfers)
  {
    if Distinct(Identities(c.tables)) {
      SelectedCount(c, inventory, normalize);
      DistinctReleases(id, c, inventory, normalize, transfers);
    } else {
      var n := CollisionRefuses(id, c, inventory, normalize);
      assert !Unstages(TargetsOf(id, c.tables), staged[n]);
    }
  }

  /**
   Releasing undoes staging. For a ready preflight and the transfers of its staged run, the release plan exists
   exactly when no two source tables share a dotted name, and then it is the release preflight's tables in the
   same order, with every transfer naming the release table.
   */
  lemma ReleaseUndoesStaging(id: string, c: Config, inventory: Inventory, normalize: Normalize,
      transfers: seq<Transfer>)
    requires Valid(c) && Valid(StageConfig(id, c)) && Distinct(TableNames(inventory.tables))
    requires PreflightOf(StageConfig(id, c), inventory, normalize).ready
    requires LinesUp(PreflightOf(StageConfig(id, c), inventory, normalize).tables, transfers)
    ensures var staged, release := PreflightOf(StageConfig(id, c), inventory, normalize),
      PreflightOf(c, inventory, normalize);
      && (Releasable(TargetsOf(id, c.tables), staged.tables, transfers) <==> Distinct(Identities(c.tables)))
      && (Releasable(TargetsOf(id, c.tables), staged.tables, transfers) ==>
            Restored(TargetsOf(id, c.tables), staged.tables, release.tables, transfers))
  {
    StagedPreflight(id, c, inventory, normalize);
    var plans := Tables(c, inventory, normalize);
    ReleasableIffDistinct(id, c, inventory, normalize, plans, StagePlans(id, plans), transfers);
  }

  lemma StagedGrant(id: string, c: Config, g: SourceGrant)
    requires Valid(c) && Valid(StageConfig(id, c))
    ensures GrantPlan(StageConfig(id, c), g) == GrantPlan(c, g) <==> FindGrant(c.grantMappings, g).None?
  {
    StagedLookup(id, c.tables, (g.schema, g.table));
    if FindGrant(c.grantMappings, g).Some? {
      assert |GrantPlan(StageConfig(id, c), g).targetIdentity.value| > |GrantPlan(c, g).targetIdentity.value|;
    }
  }

  /** Grants are not taken back: they still name the staged tables, unless no source grant is mapped at all. */
  lemma GrantsKeepStagedNames(id: string, c: Config, grants: seq<SourceGrant>)
    requires Valid(c) && Valid(StageConfig(id, c))
    ensures GrantPlans(StageConfig(id, c), grants) == GrantPlans(c, grants)
      <==> forall i :: 0 <= i < |grants| ==> FindGrant(c.grantMappings, grants[i]).None?
  {
    forall i | 0 <= i < |grants|
      ensures GrantPlans(StageConfig(id, c), grants)[i] == GrantPlans(c, grants)[i] <==>
        FindGrant(c.grantMappings, grants[i]).None?
    {
      StagedGrant(id, c, grants[i]);
    }
  }
}
