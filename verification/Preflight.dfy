/** The whole preflight report, and the order of its tables. */
module Preflights {
  import opened Wrappers
  import opened MigrationConfig
  import opened MigrationPlan
  import opened Sequences

  // ---- Sorting ------------------------------------------------------------------------------------

  predicate Before(a: string, b: string) {
    b != [] && (a == [] || a[0] < b[0] || (a[0] == b[0] && Before(a[1..], b[1..])))
  }

  predicate NameBefore(a: Name, b: Name) {
    Before(a.0, b.0) || (a.0 == b.0 && Before(a.1, b.1))
  }

  function InsertPlan(plan: TablePlan, s: seq<TablePlan>): (r: seq<TablePlan>)
    ensures multiset(r) == multiset{plan} + multiset(s)
  {
    if s == [] || !NameBefore(s[0].Source(), plan.Source()) then [plan] + s
    else
      assert s == [s[0]] + s[1..];
      [s[0]] + InsertPlan(plan, s[1..])
  }

  /** The stable sort by source schema and table. */
  function SortPlans(s: seq<TablePlan>): (r: seq<TablePlan>)
    ensures multiset(r) == multiset(s)
  {
    if s == [] then []
    else
      assert s == [s[0]] + s[1..];
      InsertPlan(s[0], SortPlans(s[1..]))
  }

  predicate SortedPlans(s: seq<TablePlan>) {
    forall i, j :: 0 <= i < j < |s| ==> !NameBefore(s[j].Source(), s[i].Source())
  }

  lemma {:induction false} BeforeIsStrict(a: string, b: string)
    requires Before(a, b)
    ensures !Before(b, a) && a != b
    decreases |a|
  {
    if a != [] && a[0] == b[0] { BeforeIsStrict(a[1..], b[1..]); }
  }

  lemma {:induction false} BeforeIsLinear(a: string, b: string)
    requires !Before(a, b) && !Before(b, a)
    ensures a == b
    decreases |a|
  {
    if a != [] && b != [] { BeforeIsLinear(a[1..], b[1..]); }
  }

  lemma {:induction false} NotBeforeIsTransitive(a: string, b: string, c: string)
    requires !Before(b, a) && !Before(c, b)
    ensures !Before(c, a)
    decreases |a|
  {
    if a != [] && b != [] && c != [] && a[0] == b[0] == c[0] { NotBeforeIsTransitive(a[1..], b[1..], c[1..]); }
  }

  lemma NameNotBeforeIsTransitive(a: Name, b: Name, c: Name)
    requires !NameBefore(b, a) && !NameBefore(c, b)
    ensures !NameBefore(c, a)
  {
    NotBeforeIsTransitive(a.0, b.0, c.0);
    if !Before(a.0, b.0) { BeforeIsLinear(a.0, b.0); }
    if !Before(b.0, c.0) { BeforeIsLinear(b.0, c.0); }
    if a.0 == c.0 {
      if Before(a.0, b.0) { BeforeIsStrict(a.0, b.0); }
      if Before(b.0, c.0) { BeforeIsStrict(b.0, c.0); }
      NotBeforeIsTransitive(a.1, b.1, c.1);
    }
  }

  lemma NameBeforeIsStrict(a: Name, b: Name)
    requires NameBefore(a, b)
    ensures !NameBefore(b, a)
  {
    if Before(a.0, b.0) { BeforeIsStrict(a.0, b.0); } else { BeforeIsStrict(a.1, b.1); }
  }

  lemma {:induction false} InsertKeepsSorted(plan: TablePlan, s: seq<TablePlan>)
    requires SortedPlans(s)
    ensures SortedPlans(InsertPlan(plan, s))
    decreases |s|
  {
    if s == [] {
    } else if !NameBefore(s[0].Source(), plan.Source()) {
      forall j | 0 <= j < |s| ensures !NameBefore(s[j].Source(), plan.Source()) {
        if j > 0 { NameNotBeforeIsTransitive(plan.Source(), s[0].Source(), s[j].Source()); }
      }
    } else {
      var rest := InsertPlan(plan, s[1..]);
      InsertKeepsSorted(plan, s[1..]);
      NameBeforeIsStrict(s[0].Source(), plan.Source());
      forall j | 0 <= j < |rest| ensures !NameBefore(rest[j].Source(), s[0].Source()) {
        assert rest[j] in multiset(rest);
        assert rest[j] == plan || rest[j] in s[1..];
      }
    }
  }

  lemma {:induction false} SortSorts(s: seq<TablePlan>)
    ensures SortedPlans(SortPlans(s))
    decreases |s|
  {
    if s != [] {
      SortSorts(s[1..]);
      InsertKeepsSorted(s[0], SortPlans(s[1..]));
    }
  }

  // ---- The report ---------------------------------------------------------------------------------

  function TableNames(tables: seq<SourceTable>): (r: seq<Name>)
    ensures |r| == |tables|
  {
    seq(|tables|, i requires 0 <= i < |tables| => tables[i].Name())
  }

  function InventoryPlans(c: Config, tables: seq<SourceTable>, normalize: Normalize): (r: seq<TablePlan>)
    ensures |r| == |tables|
  {
    seq(|tables|, i requires 0 <= i < |tables| => PlanOf(tables[i], FindMapping(c.tables, tables[i].Name()), normalize))
  }

  function MissingPlan(m: TableMapping): TablePlan {
    TablePlan(m.sourceSchema, m.sourceTable, Some(m.targetSchema), Some(m.targetTable), 0, 0, None,
              Disposition(Reject, MissingSourceTable), [], {MissingTable})
  }

  /** A rejected plan for every mapping whose source table is not among the names. */
  function MissingPlans(mappings: seq<TableMapping>, names: seq<Name>): seq<TablePlan> {
    if mappings == [] then []
    else (if mappings[0].Source() in names then [] else [MissingPlan(mappings[0])]) + MissingPlans(mappings[1..], names)
  }

  function TableErrors(mappings: seq<TableMapping>, names: seq<Name>): set<PreflightError> {
    set m | m in mappings && m.Source() !in names :: NoSuchTable(m.Source())
  }

  predicate Grants(m: GrantMapping, g: SourceGrant) {
    && m.sourceRole == g.grantee && m.sourceSchema == g.schema && m.sourceTable == g.table && m.sourceColumn == g.column
    && Upper(m.privilege) == Upper(g.privilege)
  }

  function FindGrant(mappings: seq<GrantMapping>, g: SourceGrant): (r: Option<GrantMapping>)
    ensures r.Some? ==> r.value in mappings && Grants(r.value, g)
  {
    if mappings == [] then None
    else if Grants(mappings[0], g) then Some(mappings[0])
    else FindGrant(mappings[1..], g)
  }

  function Dotted(parts: Name): string {
    parts.0 + "." + parts.1
  }

  function GrantIdentity(g: SourceGrant): string {
    g.grantee + ":" + g.privilege + ":" + Dotted((g.schema, g.table)) + if g.column.Some? then "." + g.column.value
      else ""
  }

  function GrantTarget(m: TableMapping, g: SourceGrant): string {
    Dotted(m.Target())
    + match g.column
      case None => ""
      case Some(column) => "." + if column in m.columns then m.columns[column] else column
  }

  function GrantPlan(c: Config, g: SourceGrant): ObjectPlan
    requires Valid(c)
  {
    match FindGrant(c.grantMappings, g)
    case None => ObjectPlan(GrantIdentity(g), Lower(g.privilege), None, Disposition(Reject, GrantNotCopied))
    case Some(m) =>
      assert ValidGrant(m, c);
      var table := FindMapping(c.tables, (g.schema, g.table)).value;
      ObjectPlan(GrantIdentity(g), Lower(g.privilege), Some(m.targetRole + ":" + GrantTarget(table, g)),
                 Disposition(MapTo, MappedGrant))
  }

  function GrantPlans(c: Config, grants: seq<SourceGrant>): (r: seq<ObjectPlan>)
    requires Valid(c)
    ensures |r| == |grants|
  {
    seq(|grants|, i requires 0 <= i < |grants| => GrantPlan(c, grants[i]))
  }

  function SeenGrants(mappings: seq<GrantMapping>, grants: seq<SourceGrant>): set<GrantMapping> {
    set g | g in grants && FindGrant(mappings, g).Some? :: FindGrant(mappings, g).value
  }

  function GrantErrors(mappings: seq<GrantMapping>, seen: set<GrantMapping>): set<PreflightError> {
    set m | m in mappings && m !in seen :: NoSuchGrant(m)
  }

  function RolePlan(mappings: map<string, string>, role: SourceRole): ObjectPlan {
    var kind := if role.login then "login_role" else "role";
    if role.name in mappings
    then ObjectPlan(role.name, kind, Some(mappings[role.name]), Disposition(MapTo, MappedRole))
    else ObjectPlan(role.name, kind, None, Disposition(Reject, RoleNotCopied))
  }

  function RolePlans(mappings: map<string, string>, roles: seq<SourceRole>): (r: seq<ObjectPlan>)
    ensures |r| == |roles|
  {
    seq(|roles|, i requires 0 <= i < |roles| => RolePlan(mappings, roles[i]))
  }

  function RoleNames(roles: seq<SourceRole>): set<string> {
    set r | r in roles :: r.name
  }

  function RoleErrors(mappings: map<string, string>, names: set<string>): set<PreflightError> {
    set name | name in mappings && name !in names :: NoSuchRole(name)
  }

  function ObjectPlans(objects: seq<SourceObject>): seq<(SourceObject, Disposition)> {
    seq(|objects|, i requires 0 <= i < |objects| => (objects[i], Disposition(Reject, ObjectNotCopied(objects[i].kind))))
  }

  predicate AllSelected(tables: seq<TablePlan>) {
    forall i :: 0 <= i < |tables| && tables[i].targetTable.Some? ==> Selected(tables[i])
  }

  function Tables(c: Config, inventory: Inventory, normalize: Normalize): seq<TablePlan> {
    SortPlans(InventoryPlans(c, inventory.tables, normalize) + MissingPlans(c.tables, TableNames(inventory.tables)))
  }

  function Errors(c: Config, inventory: Inventory): set<PreflightError> {
    TableErrors(c.tables, TableNames(inventory.tables))
    + GrantErrors(c.grantMappings, SeenGrants(c.grantMappings, inventory.grants))
    + RoleErrors(c.roleMappings, RoleNames(inventory.roles))
  }

  function PreflightOf(c: Config, inventory: Inventory, normalize: Normalize): Preflight
    requires Valid(c)
  {
    var tables, errors := Tables(c, inventory, normalize), Errors(c, inventory);
    Preflight(errors == {} && AllSelected(tables), tables, ObjectPlans(inventory.objects),
              RolePlans(c.roleMappings, inventory.roles), GrantPlans(c, inventory.grants), errors)
  }

  // ---- The loops that build it --------------------------------------------------------------------

  /** The set holds those of the first `i` names that are configured. */
  ghost predicate Seen(mappings: seq<TableMapping>, names: seq<Name>, i: nat, seen: set<Name>) {
    i <= |names| && forall m :: m in mappings ==> (m.Source() in seen <==> m.Source() in names[..i])
  }

  lemma SeenNext(mappings: seq<TableMapping>, names: seq<Name>, i: nat, seen: set<Name>)
    requires i < |names| && Seen(mappings, names, i, seen)
    ensures Seen(mappings, names, i + 1, if FindMapping(mappings, names[i]).Some? then seen + {names[i]} else seen)
  {
    assert names[..i + 1] == names[..i] + [names[i]];
    forall m | m in mappings ensures m.Source() in Sources(mappings) {
      var k :| 0 <= k < |mappings| && mappings[k] == m;
      assert Sources(mappings)[k] == m.Source();
    }
  }

  /** The first `i` tables have been planned. */
  ghost predicate PlannedUpTo(
      c: Config, tables: seq<SourceTable>, normalize: Normalize, i: nat, plans: seq<TablePlan>)
  {
    i <= |tables| && plans == InventoryPlans(c, tables, normalize)[..i]
  }

  lemma PlannedNone(c: Config, tables: seq<SourceTable>, normalize: Normalize)
    ensures PlannedUpTo(c, tables, normalize, 0, [])
  {
  }

  lemma PlannedNext(
      c: Config, tables: seq<SourceTable>, normalize: Normalize, i: nat, plans: seq<TablePlan>, plan: TablePlan)
    requires i < |tables| && PlannedUpTo(c, tables, normalize, i, plans)
    requires plan == PlanOf(tables[i], FindMapping(c.tables, tables[i].Name()), normalize)
    ensures PlannedUpTo(c, tables, normalize, i + 1, plans + [plan])
  {
    assert InventoryPlans(c, tables, normalize)[i] == plan;
  }

  lemma PlannedAll(c: Config, tables: seq<SourceTable>, normalize: Normalize, plans: seq<TablePlan>)
    requires PlannedUpTo(c, tables, normalize, |tables|, plans)
    ensures plans == InventoryPlans(c, tables, normalize)
  {
  }

  method PlanInventory(c: Config, tables: seq<SourceTable>, normalize: Normalize)
    returns (plans: seq<TablePlan>, seen: set<Name>)
    ensures plans == InventoryPlans(c, tables, normalize)
    ensures Seen(c.tables, TableNames(tables), |tables|, seen)
  {
    var names := TableNames(tables);
    plans, seen := [], {};
    PlannedNone(c, tables, normalize);
    for i := 0 to |tables|
      invariant PlannedUpTo(c, tables, normalize, i, plans)
      invariant Seen(c.tables, names, i, seen)
    {
      var mapping := FindMapping(c.tables, tables[i].Name());
      SeenNext(c.tables, names, i, seen);
      if mapping.Some? { seen := seen + {tables[i].Name()}; }
      var plan := BuildTablePlan(tables[i], mapping, normalize);
      PlannedNext(c, tables, normalize, i, plans, plan);
      plans := plans + [plan];
    }
    PlannedAll(c, tables, normalize, plans);
  }

  /** The first `i` mappings have been looked at. */
  ghost predicate MissingUpTo(
      mappings: seq<TableMapping>, names: seq<Name>, i: nat, plans: seq<TablePlan>, errors: set<PreflightError>)
  {
    i <= |mappings| && plans == MissingPlans(mappings[..i], names) && errors == TableErrors(mappings[..i], names)
  }

  lemma {:induction false} MissingAppend(a: seq<TableMapping>, m: TableMapping, names: seq<Name>)
    ensures MissingPlans(a + [m], names) == MissingPlans(a, names) + if m.Source() in names then []
      else [MissingPlan(m)]
    decreases |a|
  {
    if a == [] {
      assert a + [m] == [m];
    } else {
      assert (a + [m])[1..] == a[1..] + [m];
      MissingAppend(a[1..], m, names);
      Regroup(if a[0].Source() in names then [] else [MissingPlan(a[0])], MissingPlans(a[1..], names),
              if m.Source() in names then [] else [MissingPlan(m)]);
    }
  }

  lemma MissingNext(
      mappings: seq<TableMapping>, names: seq<Name>, i: nat, plans: seq<TablePlan>, errors: set<PreflightError>)
    requires i < |mappings| && MissingUpTo(mappings, names, i, plans, errors)
    ensures var m := mappings[i];
      if m.Source() in names then MissingUpTo(mappings, names, i + 1, plans, errors)
      else MissingUpTo(mappings, names, i + 1, plans + [MissingPlan(m)], errors + {NoSuchTable(m.Source())})
  {
    assert mappings[..i + 1] == mappings[..i] + [mappings[i]];
    MissingAppend(mappings[..i], mappings[i], names);
  }

  lemma MissingAll(mappings: seq<TableMapping>, names: seq<Name>, plans: seq<TablePlan>, errors: set<PreflightError>)
    requires MissingUpTo(mappings, names, |mappings|, plans, errors)
    ensures plans == MissingPlans(mappings, names) && errors == TableErrors(mappings, names)
  {
    assert mappings[..|mappings|] == mappings;
  }

  method PlanMissing(mappings: seq<TableMapping>, ghost names: seq<Name>, seen: set<Name>)
    returns (plans: seq<TablePlan>, errors: set<PreflightError>)
    requires Seen(mappings, names, |names|, seen)
    ensures plans == MissingPlans(mappings, names) && errors == TableErrors(mappings, names)
  {
    plans, errors := [], {};
    assert names[..|names|] == names;
    for i := 0 to |mappings|
      invariant MissingUpTo(mappings, names, i, plans, errors)
    {
      MissingNext(mappings, names, i, plans, errors);
      var m := mappings[i];
      if m.Source() !in seen {
        errors := errors + {NoSuchTable(m.Source())};
        plans := plans + [MissingPlan(m)];
      }
    }
    MissingAll(mappings, names, plans, errors);
  }

  ghost predicate GrantsSeen(mappings: seq<GrantMapping>, grants: seq<SourceGrant>, i: nat, seen: set<GrantMapping>) {
    i <= |grants| && seen == SeenGrants(mappings, grants[..i])
  }

  lemma NextGrantSeen(mappings: seq<GrantMapping>, grants: seq<SourceGrant>, i: nat, seen: set<GrantMapping>)
    requires i < |grants| && GrantsSeen(mappings, grants, i, seen)
    ensures var found := FindGrant(mappings, grants[i]);
      GrantsSeen(mappings, grants, i + 1, if found.Some? then seen + {found.value} else seen)
  {
    assert grants[..i + 1] == grants[..i] + [grants[i]];
  }

  lemma AllGrantsSeen(mappings: seq<GrantMapping>, grants: seq<SourceGrant>, seen: set<GrantMapping>)
    requires GrantsSeen(mappings, grants, |grants|, seen)
    ensures seen == SeenGrants(mappings, grants)
  {
    assert grants[..|grants|] == grants;
  }

  method PlanGrant(c: Config, grants: seq<SourceGrant>, i: nat) returns (plan: ObjectPlan)
    requires Valid(c) && i < |grants|
    ensures plan == GrantPlans(c, grants)[i]
  {
    plan := GrantPlan(c, grants[i]);
  }

  /** The loop over the source grants, which remembers the mappings it has used. */
  method PlanGrants(c: Config, grants: seq<SourceGrant>) returns (plans: seq<ObjectPlan>, seen: set<GrantMapping>)
    requires Valid(c)
    ensures plans == GrantPlans(c, grants) && seen == SeenGrants(c.grantMappings, grants)
  {
    plans, seen := [], {};
    ghost var all := GrantPlans(c, grants);
    for i := 0 to |grants|
      invariant plans == all[..i]
      invariant GrantsSeen(c.grantMappings, grants, i, seen)
    {
      var mapping := FindGrant(c.grantMappings, grants[i]);
      NextGrantSeen(c.grantMappings, grants, i, seen);
      if mapping.Some? { seen := seen + {mapping.value}; }
      var plan := PlanGrant(c, grants, i);
      plans := plans + [plan];
    }
    AllGrantsSeen(c.grantMappings, grants, seen);
  }

  method BuildGrants(c: Config, grants: seq<SourceGrant>) returns (plans: seq<ObjectPlan>, errors: set<PreflightError>)
    requires Valid(c)
    ensures plans == GrantPlans(c, grants)
    ensures errors == GrantErrors(c.grantMappings, SeenGrants(c.grantMappings, grants))
  {
    var seen;
    plans, seen := PlanGrants(c, grants);
    var mappings := c.grantMappings;
    errors := {};
    for i := 0 to |mappings|
      invariant errors == GrantErrors(mappings[..i], seen)
    {
      assert mappings[..i + 1] == mappings[..i] + [mappings[i]];
      if mappings[i] !in seen { errors := errors + {NoSuchGrant(mappings[i])}; }
    }
    assert mappings[..|mappings|] == mappings;
  }

  method BuildRoles(mappings: map<string, string>, roles: seq<SourceRole>)
    returns (plans: seq<ObjectPlan>, errors: set<PreflightError>)
    ensures plans == RolePlans(mappings, roles) && errors == RoleErrors(mappings, RoleNames(roles))
  {
    var seen := {};
    plans := [];
    for i := 0 to |roles|
      invariant plans == RolePlans(mappings, roles)[..i]
      invariant forall name :: name in mappings ==> (name in seen <==> name in RoleNames(roles[..i]))
    {
      assert roles[..i + 1] == roles[..i] + [roles[i]];
      if roles[i].name in mappings { seen := seen + {roles[i].name}; }
      plans := plans + [RolePlan(mappings, roles[i])];
    }
    assert roles[..|roles|] == roles;
    errors := set name | name in mappings && name !in seen :: NoSuchRole(name);
  }

  /** build_preflight. */
  method BuildPreflight(c: Config, inventory: Inventory, normalize: Normalize) returns (r: Preflight)
    requires Valid(c)
    ensures r == PreflightOf(c, inventory, normalize)
  {
    var plans, seen := PlanInventory(c, inventory.tables, normalize);
    var missing, tableErrors := PlanMissing(c.tables, TableNames(inventory.tables), seen);
    var tables := SortPlans(plans + missing);
    var grants, grantErrors := BuildGrants(c, inventory.grants);
    var roles, roleErrors := BuildRoles(c.roleMappings, inventory.roles);
    var errors := tableErrors + grantErrors + roleErrors;
    r := Preflight(errors == {} && AllSelected(tables), tables, ObjectPlans(inventory.objects), roles, grants, errors);
  }
}
