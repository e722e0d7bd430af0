/**
 A configuration that is valid and ready, can be staged and carried out, and cannot be released: its two source
 tables share a dotted name. Its one grant keeps the staged name.
 */
module StagingExample {
  import opened Wrappers
  import opened MigrationConfig
  import opened MigrationPlan
  import opened Preflights
  import opened Staging

  // ---- Short names ----------------------------------------------------------------------------------

  lemma {:induction false} ShortText(s: string)
    ensures Utf8Length(s) <= 4 * |s|
    decreases |s|
  {
    if s != "" { ShortText(s[1..]); }
  }

  predicate Plain(s: string) {
    0 < |s| <= 8 && forall i :: 0 <= i < |s| ==> 'a' <= s[i] <= 'z' || s[i] == '.'
  }

  lemma PlainIsIdentifier(s: string)
    requires Plain(s)
    ensures Identifier(s)
  {
    ShortText(s);
  }

  // ---- The configuration ------------------------------------------------------------------------------

  datatype Names = Names(a: Name, b: Name, schema: string, x: string, y: string, role: string, privilege: string)

  /** Two source tables with one dotted name, two targets, and a role with a privilege on the first table. */
  predicate Fitting(n: Names) {
    && Plain(n.a.0) && Plain(n.a.1) && Plain(n.b.0) && Plain(n.b.1) && n.a.0 != n.b.0 && Dotted(n.a) == Dotted(n.b)
    && Plain(n.schema) && Plain(n.x) && Plain(n.y) && n.x != n.y && Plain(n.role) && Privilege(n.privilege)
  }

  function MappingA(n: Names): TableMapping {
    TableMapping(n.a.0, n.a.1, n.schema, n.x, map[])
  }

  function MappingB(n: Names): TableMapping {
    TableMapping(n.b.0, n.b.1, n.schema, n.y, map[])
  }

  function Mapped(n: Names): GrantMapping {
    GrantMapping(n.role, n.a.0, n.a.1, None, n.privilege, n.role)
  }

  function ConfigOf(n: Names): Config {
    Config(1, 100000, "3", [n.a.0, n.b.0], [MappingA(n), MappingB(n)], map[n.role := n.role], [Mapped(n)])
  }

  /** A nullable integer column. */
  const COLUMN := SourceColumn("k", Int4, "integer", -1, true, None, None, false, false, None, None, None)

  /** A table with that column, nothing else on it and no rows in it. */
  function EmptyTable(name: Name): SourceTable {
    SourceTable(name.0, name.1, 0, 0, None, false, false, "default", false, 0, [COLUMN], [])
  }

  function GrantOf(n: Names): SourceGrant {
    SourceGrant(n.role, n.a.0, n.a.1, None, n.privilege)
  }

  function InventoryOf(n: Names): Inventory {
    Inventory([EmptyTable(n.a), EmptyTable(n.b)], [], [SourceRole(n.role, false)], [GrantOf(n)])
  }

  lemma MappingIsValid(t: TableMapping, schemas: seq<string>)
    requires Plain(t.sourceSchema) && Plain(t.sourceTable) && Plain(t.targetSchema) && Plain(t.targetTable)
    requires t.sourceSchema in schemas && t.columns == map[]
    ensures ValidTable(t, schemas)
  {
    PlainIsIdentifier(t.sourceSchema);
    PlainIsIdentifier(t.sourceTable);
    PlainIsIdentifier(t.targetSchema);
    PlainIsIdentifier(t.targetTable);
  }

  lemma TablesAreValid(n: Names)
    requires Fitting(n)
    ensures ValidTables(ConfigOf(n))
  {
    var c := ConfigOf(n);
    MappingIsValid(MappingA(n), c.sourceSchemas);
    MappingIsValid(MappingB(n), c.sourceSchemas);
  }

  lemma GrantIsValid(n: Names)
    requires Fitting(n)
    ensures ValidGrants(ConfigOf(n))
  {
    PlainIsIdentifier(n.role);
    PlainIsIdentifier(n.a.0);
    PlainIsIdentifier(n.a.1);
    var c := ConfigOf(n);
    assert Sources(c.tables)[0] == n.a;
    assert ValidGrant(Mapped(n), c);
  }

  lemma ConfigIsValid(n: Names)
    requires Fitting(n)
    ensures Valid(ConfigOf(n))
  {
    var c := ConfigOf(n);
    TablesAreValid(n);
    GrantIsValid(n);
    PlainIsIdentifier(n.role);
    PlainIsIdentifier(n.a.0);
    PlainIsIdentifier(n.b.0);
    ShortText(c.postgisVersion);
    assert ValidHeader(c);
  }

  // ---- It is ready ------------------------------------------------------------------------------------

  lemma EmptyIsSelected(name: Name, m: TableMapping, normalize: Normalize)
    requires m.columns == map[]
    ensures Selected(PlanOf(EmptyTable(name), Some(m), normalize))
  {
    SelectedIffMigratable(EmptyTable(name), m, normalize);
  }

  lemma NothingMissing(mappings: seq<TableMapping>, names: seq<Name>)
    requires forall i :: 0 <= i < |mappings| ==> mappings[i].Source() in names
    ensures MissingPlans(mappings, names) == []
  {
  }

  lemma NoErrors(n: Names)
    requires Fitting(n)
    ensures Errors(ConfigOf(n), InventoryOf(n)) == {}
  {
    var c, inventory := ConfigOf(n), InventoryOf(n);
    var names := TableNames(inventory.tables);
    assert names[0] == n.a && names[1] == n.b;
    assert FindGrant(c.grantMappings, GrantOf(n)) == Some(Mapped(n));
    assert inventory.grants[0] == GrantOf(n);
    assert Mapped(n) in SeenGrants(c.grantMappings, inventory.grants);
    assert inventory.roles[0].name == n.role;
  }

  lemma BothPlansSelected(n: Names, normalize: Normalize)
    requires Fitting(n)
    ensures var plans := InventoryPlans(ConfigOf(n), InventoryOf(n).tables, normalize);
      forall i :: 0 <= i < |plans| ==> Selected(plans[i])
  {
    var tables := ConfigOf(n).tables;
    FindIsUnique(tables, 0);
    FindIsUnique(tables, 1);
    EmptyIsSelected(n.a, MappingA(n), normalize);
    EmptyIsSelected(n.b, MappingB(n), normalize);
    assert EmptyTable(n.a).Name() == n.a && EmptyTable(n.b).Name() == n.b;
  }

  lemma SortedSelected(plans: seq<TablePlan>)
    requires forall i :: 0 <= i < |plans| ==> Selected(plans[i])
    ensures AllSelected(SortPlans(plans + []))
  {
    assert plans + [] == plans;
    var sorted := SortPlans(plans);
    forall i | 0 <= i < |sorted| ensures Selected(sorted[i]) {
      assert sorted[i] in multiset(sorted);
    }
  }

  lemma AllAreSelected(n: Names, normalize: Normalize)
    requires Fitting(n)
    ensures AllSelected(Tables(ConfigOf(n), InventoryOf(n), normalize))
  {
    var c, inventory := ConfigOf(n), InventoryOf(n);
    var names := TableNames(inventory.tables);
    assert names[0] == n.a && names[1] == n.b;
    NothingMissing(c.tables, names);
    BothPlansSelected(n, normalize);
    SortedSelected(InventoryPlans(c, inventory.tables, normalize));
  }

  // ---- And staged, and not released ---------------------------------------------------------------------

  /** Transfers as a run would record them. */
  function TransfersOf(plans: seq<TablePlan>): seq<Transfer>
    requires forall i :: 0 <= i < |plans| ==> plans[i].targetSchema.Some? && plans[i].targetTable.Some?
  {
    seq(|plans|, i requires 0 <= i < |plans| => Transfer(SourceIdentity(plans[i]), TargetIdentity(plans[i]), 0, 0,
        "", []))
  }

  lemma NamesFit(id: string, n: Names)
    requires Fitting(n) && StagingId(id) && |id| <= 4
    ensures AllFit(id, ConfigOf(n).tables)
  {
    ShortText(StagedName(id, n.x));
    ShortText(StagedName(id, n.y));
  }

  lemma StagedIsValid(id: string, n: Names)
    requires Fitting(n) && StagingId(id) && |id| <= 4
    ensures Valid(ConfigOf(n)) && Valid(StageConfig(id, ConfigOf(n)))
  {
    ConfigIsValid(n);
    NamesFit(id, n);
    StagingSucceeds(id, ConfigOf(n));
  }

  lemma StagedIsReady(id: string, n: Names, normalize: Normalize)
    requires Fitting(n) && StagingId(id) && |id| <= 4
    ensures Valid(ConfigOf(n)) && Valid(StageConfig(id, ConfigOf(n)))
    ensures PreflightOf(StageConfig(id, ConfigOf(n)), InventoryOf(n), normalize).ready
  {
    StagedIsValid(id, n);
    NoErrors(n);
    AllAreSelected(n, normalize);
    StagedPreflight(id, ConfigOf(n), InventoryOf(n), normalize);
  }

  lemma SelectedHaveTargets(c: Config, inventory: Inventory, normalize: Normalize)
    ensures forall p :: p in SelectedTables(Tables(c, inventory, normalize)) ==>
      p.targetSchema.Some? && p.targetTable.Some?
  {
    forall p | p in SelectedTables(Tables(c, inventory, normalize)) ensures p.targetSchema.Some?
      && p.targetTable.Some? {
      var k := PlanOrigin(c, inventory, normalize, p);
    }
  }

  lemma TransfersLineUp(plans: seq<TablePlan>)
    requires forall p :: p in SelectedTables(plans) ==> p.targetSchema.Some? && p.targetTable.Some?
    ensures LinesUp(plans, TransfersOf(SelectedTables(plans)))
  {
  }

  /** A ready staged run whose sources share a dotted name has transfers that line up, and no release plan. */
  lemma SharedNameIsNotReleased(id: string, c: Config, inventory: Inventory, normalize: Normalize)
    returns (transfers: seq<Transfer>)
    requires Valid(c) && Valid(StageConfig(id, c)) && Distinct(TableNames(inventory.tables))
    requires PreflightOf(StageConfig(id, c), inventory, normalize).ready && !Distinct(Identities(c.tables))
    ensures var plans := PreflightOf(StageConfig(id, c), inventory, normalize).tables;
      LinesUp(plans, transfers) && !Releasable(TargetsOf(id, c.tables), plans, transfers)
  {
    var plans := Tables(StageConfig(id, c), inventory, normalize);
    SelectedHaveTargets(StageConfig(id, c), inventory, normalize);
    transfers := TransfersOf(SelectedTables(plans));
    TransfersLineUp(plans);
    ReleaseUndoesStaging(id, c, inventory, normalize, transfers);
  }

  lemma NamesAreDistinct(n: Names)
    requires Fitting(n)
    ensures Distinct(TableNames(InventoryOf(n).tables)) && !Distinct(Identities(ConfigOf(n).tables))
  {
    assert TableNames(InventoryOf(n).tables)[0] == n.a && TableNames(InventoryOf(n).tables)[1] == n.b;
    assert Identities(ConfigOf(n).tables)[0] == Identities(ConfigOf(n).tables)[1];
  }

  /**
   Every such configuration: it is valid, its staged form is valid and ready, its transfers line up, and it has no
   release plan.
   */
  lemma CollidingIsNotReleased(id: string, n: Names, normalize: Normalize) returns (transfers: seq<Transfer>)
    requires Fitting(n) && StagingId(id) && |id| <= 4
    ensures Valid(ConfigOf(n)) && Valid(StageConfig(id, ConfigOf(n))) && Distinct(TableNames(InventoryOf(n).tables))
    ensures var staged := PreflightOf(StageConfig(id, ConfigOf(n)), InventoryOf(n), normalize);
      && staged.ready && LinesUp(staged.tables, transfers)
      && !Releasable(TargetsOf(id, ConfigOf(n).tables), staged.tables, transfers)
  {
    StagedIsReady(id, n, normalize);
    NamesAreDistinct(n);
    transfers := SharedNameIsNotReleased(id, ConfigOf(n), InventoryOf(n), normalize);
  }

  /** And its grant still names the staged table. */
  lemma GrantKeepsStagedName(id: string, n: Names)
    requires Fitting(n) && StagingId(id) && |id| <= 4
    ensures var c := ConfigOf(n);
      && Valid(c) && Valid(StageConfig(id, c))
      && GrantPlans(StageConfig(id, c), InventoryOf(n).grants) != GrantPlans(c, InventoryOf(n).grants)
  {
    StagedIsValid(id, n);
    var c, grants := ConfigOf(n), InventoryOf(n).grants;
    assert FindGrant(c.grantMappings, grants[0]).Some?;
    GrantsKeepStagedNames(id, c, grants);
  }

  predicate Example(n: Names, id: string) {
    n == Names(("a", "b.c"), ("a.b", "c"), "s", "x", "y", "r", "SELECT") && id == "i"
  }

  lemma ExampleFits(n: Names, id: string)
    requires Example(n, id)
    ensures Fitting(n) && StagingId(id)
  {
    assert Dotted(n.a) == "a.b.c" && Dotted(n.b) == "a.b.c";
    assert Upper(n.privilege) == "SELECT";
    ShortText(id);
  }

  /** Table `b.c` of schema `a` and table `c` of schema `a.b`, staged under `i`: ready, carried out, not released. */
  lemma ExampleIsNotReleased(n: Names, id: string, normalize: Normalize) returns (transfers: seq<Transfer>)
    requires Example(n, id)
    ensures Valid(ConfigOf(n)) && Valid(StageConfig(id, ConfigOf(n))) && Distinct(TableNames(InventoryOf(n).tables))
    ensures var staged := PreflightOf(StageConfig(id, ConfigOf(n)), InventoryOf(n), normalize);
      && staged.ready && LinesUp(staged.tables, transfers)
      && !Releasable(TargetsOf(id, ConfigOf(n).tables), staged.tables, transfers)
  {
    ExampleFits(n, id);
    transfers := CollidingIsNotReleased(id, n, normalize);
  }

  /** SELECT on the first of them, granted to `r`: the released report would still name `s.i__x`. */
  lemma ExampleKeepsStagedGrant(n: Names, id: string)
    requires Example(n, id)
    ensures Valid(ConfigOf(n)) && Valid(StageConfig(id, ConfigOf(n)))
    ensures GrantPlans(StageConfig(id, ConfigOf(n)), InventoryOf(n).grants)
      != GrantPlans(ConfigOf(n), InventoryOf(n).grants)
  {
    ExampleFits(n, id);
    GrantKeepsStagedName(id, n);
  }
}
