/** The preflight: what a configuration and a source inventory say about every table, column, role and grant. */
module MigrationPlan {
  import opened Wrappers
  import opened MigrationConfig

  // ---- Inventory ----------------------------------------------------------------------------------

  datatype PgType =
    | Int2 | Int4 | Int8 | Bool | Float4 | Float8 | Date | Timestamp | Varchar | Text | Bytea | Numeric | Geometry
    | Geography | OtherType(name: string)

  datatype SourceColumn = SourceColumn(
    name: string, typ: PgType, formattedType: string, typeModifier: int, nullable: bool, default: Option<string>,
    comment: Option<string>, identity: bool, generated: bool, geometryType: Option<string>, srid: Option<int>,
    dimensions: Option<int>)

  datatype ConstraintKind = Check | PrimaryKey | Unique | ForeignKey | Exclusion | NotNull | OtherConstraint

  datatype SourceConstraint = SourceConstraint(name: string, kind: ConstraintKind)

  datatype SourceTable = SourceTable(
    schema: string, name: string, rowCount: nat, estimatedBytes: nat, comment: Option<string>, rowSecurity: bool,
    forceRowSecurity: bool, replicaIdentity: string, partitioned: bool, triggers: nat, columns: seq<SourceColumn>,
    constraints: seq<SourceConstraint>)
  {
    function Name(): MigrationConfig.Name {
      (schema, name)
    }
  }

  datatype ObjectKind =
    Extension | View | MaterializedView | Sequence | ForeignTable | Index | Function | Trigger | OtherObject

  datatype SourceObject = SourceObject(schema: string, name: string, kind: ObjectKind)

  datatype SourceRole = SourceRole(name: string, login: bool)

  datatype SourceGrant = SourceGrant(
    grantee: string, schema: string, table: string, column: Option<string>, privilege: string)

  datatype Inventory = Inventory(
    tables: seq<SourceTable>, objects: seq<SourceObject>, roles: seq<SourceRole>, grants: seq<SourceGrant>)

  // ---- Plans --------------------------------------------------------------------------------------

  datatype Action = Migrate | MapTo | Reject

  datatype Reason =
    | ExactScalar | MicrosecondTimestamp | LengthRetained | TextToVarchar | ByteaToBlob | DecimalRetained | PointToWkb
    | CompleteMapping | MappedRole | MappedGrant
    | IdentityGeneration | GeneratedColumn | DefaultNotLiteral | UnboundedNumeric | OnlyPoints | GeometryName
    | GeographySemantics | UnsupportedType | DuplicateTarget | TableNotSelected | OutsideSelection | BlockingSemantics
    | MissingSourceTable | ObjectNotCopied(kind: ObjectKind) | RoleNotCopied | GrantNotCopied

  datatype Disposition = Disposition(action: Action, reason: Reason)

  datatype TargetType =
    | SmallInt | Integer | BigInt | Boolean | Real | Double | DateType | TimestampType(digits: Option<int>)
    | VarcharType(length: Option<int>) | Blob | Decimal(precision: int, scale: int)

  datatype ColumnPlan = ColumnPlan(
    sourceName: string, sourceType: string, targetName: Option<string>, targetType: Option<TargetType>, nullable: bool,
    default: Option<string>, comment: Option<string>, disposition: Disposition)

  datatype Blocker =
    | Partitioned | RowSecurity | Triggers(count: nat) | ReplicaIdentity(identity: string)
    | Constraint(kind: ConstraintKind, name: string) | Column(name: string, reason: Reason)
      | MissingColumn(name: string)
    | MissingTable

  /** Blockers are a sorted list without repeats in the original, and a set here. */
  datatype TablePlan = TablePlan(
    sourceSchema: string, sourceTable: string, targetSchema: Option<string>, targetTable: Option<string>,
    rowCount: nat, estimatedBytes: nat, comment: Option<string>, disposition: Disposition, columns: seq<ColumnPlan>,
    blockers: set<Blocker>)
  {
    function Source(): Name {
      (sourceSchema, sourceTable)
    }
  }

  datatype ObjectPlan = ObjectPlan(
    identity: string, kind: string, targetIdentity: Option<string>, disposition: Disposition)

  datatype PreflightError = NoSuchTable(table: Name) | NoSuchGrant(grant: GrantMapping) | NoSuchRole(role: string)

  datatype Preflight = Preflight(
    ready: bool, tables: seq<TablePlan>, objects: seq<(SourceObject, Disposition)>, roles: seq<ObjectPlan>,
    grants: seq<ObjectPlan>, errors: set<PreflightError>)

  datatype ColumnCheck = ColumnCheck(nulls: nat, checksum: string, spatial: Option<string>)

  datatype ColumnVerification = ColumnVerification(sourceName: string, targetName: string, check: ColumnCheck)

  /** What was copied and verified for one table. */
  datatype Transfer = Transfer(
    sourceIdentity: string, targetIdentity: string, rows: nat, wireBytes: nat, tableChecksum: string,
    columns: seq<ColumnVerification>)

  // ---- Columns ------------------------------------------------------------------------------------

  /** What the SQL parser makes of a default: its normal form when it is a literal, and nothing otherwise. */
  type Normalize = string -> Option<string>

  function LowerChar(c: char): char {
    if 'A' <= c <= 'Z' then (c as int + 32) as char else c
  }

  function Lower(s: string): string {
    seq(|s|, i requires 0 <= i < |s| => LowerChar(s[i]))
  }

  predicate GeometryTargetName(name: string) {
    Lower(name) in [
      "geom", "geometry", "the_geom", "wkb_geometry", "wkb_geom", "geom_wkb", "shape", "footprint", "way"]
  }

  function VarcharTarget(modifier: int): TargetType {
    VarcharType(if modifier > 4 then Some(modifier - 4) else None)
  }

  function TimestampTarget(modifier: int): TargetType {
    TimestampType(if 0 <= modifier <= 6 then Some(modifier) else None)
  }

  function DecimalTarget(modifier: int): Option<TargetType> {
    if modifier < 4 then None
    else
      var precision, scale := (modifier - 4) / 0x10000 % 0x10000, (modifier - 4) % 0x800;
      if 0 < precision <= 38 && scale <= precision then Some(Decimal(precision, scale)) else None
  }

  predicate PlainPoint(column: SourceColumn) {
    column.geometryType == Some("Point") && column.srid == Some(0) && column.dimensions == Some(2)
  }

  /** The target type of a supported source type, or why it has none. */
  function TypeTarget(column: SourceColumn, target: string): Result<(TargetType, Disposition), Reason> {
    match column.typ
    case Int2 => Ok((SmallInt, Disposition(Migrate, ExactScalar)))
    case Int4 => Ok((Integer, Disposition(Migrate, ExactScalar)))
    case Int8 => Ok((BigInt, Disposition(Migrate, ExactScalar)))
    case Bool => Ok((Boolean, Disposition(Migrate, ExactScalar)))
    case Float4 => Ok((Real, Disposition(Migrate, ExactScalar)))
    case Float8 => Ok((Double, Disposition(Migrate, ExactScalar)))
    case Date => Ok((DateType, Disposition(Migrate, ExactScalar)))
    case Timestamp => Ok((TimestampTarget(column.typeModifier), Disposition(Migrate, MicrosecondTimestamp)))
    case Varchar => Ok((VarcharTarget(column.typeModifier), Disposition(Migrate, LengthRetained)))
    case Text => Ok((VarcharType(None), Disposition(MapTo, TextToVarchar)))
    case Bytea => Ok((Blob, Disposition(MapTo, ByteaToBlob)))
    case Numeric => (
      match DecimalTarget(column.typeModifier)
      case Some(decimal) => Ok((decimal, Disposition(Migrate, DecimalRetained)))
      case None => Err(UnboundedNumeric))
    case Geometry =>
      if !PlainPoint(column) then Err(OnlyPoints)
      else if !GeometryTargetName(target) then Err(GeometryName)
      else Ok((Blob, Disposition(MapTo, PointToWkb)))
    case Geography => Err(GeographySemantics)
    case OtherType(_) => Err(UnsupportedType)
  }

  function RejectedColumn(column: SourceColumn, target: Option<string>, reason: Reason): ColumnPlan {
    ColumnPlan(column.name, column.formattedType, target, None, column.nullable, None, column.comment,
               Disposition(Reject, reason))
  }

  function ClassifyColumn(column: SourceColumn, target: string, normalize: Normalize): ColumnPlan {
    if column.identity then RejectedColumn(column, Some(target), IdentityGeneration)
    else if column.generated then RejectedColumn(column, Some(target), GeneratedColumn)
    else if column.default.Some? && normalize(column.default.value).None? then
      RejectedColumn(column, Some(target), DefaultNotLiteral)
    else
      match TypeTarget(column, target)
      case Err(reason) => RejectedColumn(column, Some(target), reason)
      case Ok(t) =>
        ColumnPlan(column.name, column.formattedType, Some(target), Some(t.0), column.nullable,
                   if column.default.Some? then normalize(column.default.value) else None, column.comment, t.1)
  }

  /** A column whose type, default and generation are all supported under its target name. */
  predicate Supported(column: SourceColumn, target: string, normalize: Normalize) {
    && !column.identity && !column.generated
    && (column.default.Some? ==> normalize(column.default.value).Some?)
    && TypeTarget(column, target).Ok?
  }

  lemma ClassifyRejects(column: SourceColumn, target: string, normalize: Normalize)
    ensures ClassifyColumn(column, target, normalize).disposition.action == Reject <==>
      !Supported(column, target, normalize)
    ensures ClassifyColumn(column, target, normalize).targetName == Some(target)
  {
  }

  // ---- Tables -------------------------------------------------------------------------------------

  function ColumnTarget(mapping: TableMapping, column: SourceColumn): string {
    if column.name in mapping.columns then mapping.columns[column.name] else column.name
  }

  function ColumnTargets(mapping: TableMapping, columns: seq<SourceColumn>): (r: seq<string>)
    ensures |r| == |columns|
  {
    seq(|columns|, i requires 0 <= i < |columns| => ColumnTarget(mapping, columns[i]))
  }

  /** The plan of column `i`: as classified, unless an earlier column has its target name. */
  function ColumnPlanAt(table: SourceTable, mapping: TableMapping, normalize: Normalize, i: nat): ColumnPlan
    requires i < |table.columns|
  {
    var plan := ClassifyColumn(table.columns[i], ColumnTarget(mapping, table.columns[i]), normalize);
    if ColumnTarget(mapping, table.columns[i]) in ColumnTargets(mapping, table.columns)[..i]
    then plan.(disposition := Disposition(Reject, DuplicateTarget), targetType := None)
    else plan
  }

  function ColumnPlans(table: SourceTable, mapping: TableMapping, normalize: Normalize): (r: seq<ColumnPlan>)
    ensures |r| == |table.columns|
  {
    seq(|table.columns|, i requires 0 <= i < |table.columns| => ColumnPlanAt(table, mapping, normalize, i))
  }

  function RejectedColumns(table: SourceTable, plans: seq<ColumnPlan>): set<Blocker>
    requires |plans| <= |table.columns|
  {
    set i | 0 <= i < |plans| && plans[i].disposition.action == Reject ::
      Column(table.columns[i].name, plans[i].disposition.reason)
  }

  function TableBlockers(table: SourceTable): set<Blocker> {
    (if table.partitioned then {Partitioned} else {})
    + (if table.rowSecurity || table.forceRowSecurity then {RowSecurity} else {})
    + (if table.triggers != 0 then {Triggers(table.triggers)} else {})
    + (if table.replicaIdentity !in ["default", "nothing"] then {ReplicaIdentity(table.replicaIdentity)} else {})
  }

  function ConstraintBlockers(constraints: seq<SourceConstraint>): set<Blocker> {
    set c | c in constraints && c.kind != NotNull :: Constraint(c.kind, c.name)
  }

  function ColumnNames(columns: seq<SourceColumn>): set<string> {
    set c | c in columns :: c.name
  }

  function MissingColumns(table: SourceTable, mapping: TableMapping): set<Blocker> {
    set name | name in mapping.columns && name !in ColumnNames(table.columns) :: MissingColumn(name)
  }

  function Blockers(table: SourceTable, mapping: TableMapping, normalize: Normalize): set<Blocker> {
    TableBlockers(table) + ConstraintBlockers(table.constraints)
    + RejectedColumns(table, ColumnPlans(table, mapping, normalize)) + MissingColumns(table, mapping)
  }

  function UnselectedPlan(table: SourceTable): TablePlan {
    TablePlan(table.schema, table.name, None, None, table.rowCount, table.estimatedBytes, table.comment,
              Disposition(Reject, OutsideSelection),
              seq(|table.columns|, i requires 0 <= i < |table.columns| =>
                    RejectedColumn(table.columns[i], None, TableNotSelected)),
              {})
  }

  function SelectedPlan(table: SourceTable, mapping: TableMapping, normalize: Normalize): TablePlan {
    var blockers := Blockers(table, mapping, normalize);
    TablePlan(table.schema, table.name, Some(mapping.targetSchema), Some(mapping.targetTable), table.rowCount,
              table.estimatedBytes, table.comment,
              if blockers == {} then Disposition(Migrate, CompleteMapping) else Disposition(Reject, BlockingSemantics),
              ColumnPlans(table, mapping, normalize), blockers)
  }

  function PlanOf(table: SourceTable, mapping: Option<TableMapping>, normalize: Normalize): TablePlan {
    match mapping
    case None => UnselectedPlan(table)
    case Some(m) => SelectedPlan(table, m, normalize)
  }

  /** One round of the loop over the columns. */
  method BuildColumn(table: SourceTable, mapping: TableMapping, normalize: Normalize, i: nat, used: set<string>)
    returns (plan: ColumnPlan)
    requires i < |table.columns| && forall name :: name in used <==> name in ColumnTargets(mapping, table.columns)[..i]
    ensures plan == ColumnPlans(table, mapping, normalize)[i]
  {
    var target := ColumnTarget(mapping, table.columns[i]);
    plan := ClassifyColumn(table.columns[i], target, normalize);
    if target in used {
      plan := plan.(disposition := Disposition(Reject, DuplicateTarget), targetType := None);
    }
  }

  /** The loop over the columns, which remembers the target names it has used. */
  method BuildColumns(table: SourceTable, mapping: TableMapping, normalize: Normalize)
    returns (columns: seq<ColumnPlan>, blockers: set<Blocker>)
    ensures columns == ColumnPlans(table, mapping, normalize)
    ensures blockers == RejectedColumns(table, columns)
  {
    columns, blockers := [], {};
    ghost var all := ColumnPlans(table, mapping, normalize);
    var used, targets := {}, ColumnTargets(mapping, table.columns);
    for i := 0 to |table.columns|
      invariant columns == all[..i]
      invariant forall name :: name in used <==> name in targets[..i]
      invariant blockers == RejectedColumns(table, columns)
    {
      var plan := BuildColumn(table, mapping, normalize, i, used);
      RejectedGrows(table, columns, plan);
      used := used + {targets[i]};
      if plan.disposition.action == Reject {
        blockers := blockers + {Column(table.columns[i].name, plan.disposition.reason)};
      }
      columns := columns + [plan];
    }
  }

  lemma RejectedGrows(table: SourceTable, plans: seq<ColumnPlan>, plan: ColumnPlan)
    requires |plans| < |table.columns|
    ensures RejectedColumns(table, plans + [plan]) == RejectedColumns(table, plans)
      + if plan.disposition.action == Reject then {Column(table.columns[|plans|].name, plan.disposition.reason)} else {}
  {
    var all, n := plans + [plan], |plans|;
    forall b | b in RejectedColumns(table, plans) ensures b in RejectedColumns(table, all) {
      var i :| 0 <= i < n && plans[i].disposition.action == Reject
        && b == Column(table.columns[i].name, plans[i].disposition.reason);
      assert all[i] == plans[i];
    }
    if plan.disposition.action == Reject { assert all[n] == plan; }
  }

  method BuildTableBlockers(table: SourceTable) returns (blockers: set<Blocker>)
    ensures blockers == TableBlockers(table)
  {
    blockers := {};
    if table.partitioned { blockers := blockers + {Partitioned}; }
    if table.rowSecurity || table.forceRowSecurity { blockers := blockers + {RowSecurity}; }
    if table.triggers != 0 { blockers := blockers + {Triggers(table.triggers)}; }
    if table.replicaIdentity != "default" && table.replicaIdentity != "nothing" {
      blockers := blockers + {ReplicaIdentity(table.replicaIdentity)};
    }
  }

  /** build_table_plan. */
  method BuildTablePlan(table: SourceTable, mapping: Option<TableMapping>, normalize: Normalize)
    returns (plan: TablePlan)
    ensures plan == PlanOf(table, mapping, normalize)
  {
    if mapping.None? { return UnselectedPlan(table); }
    var m := mapping.value;
    var blockers := BuildTableBlockers(table);
    var columns, rejected := BuildColumns(table, m, normalize);
    blockers := blockers + ConstraintBlockers(table.constraints) + rejected + MissingColumns(table, m);
    plan := TablePlan(
      table.schema, table.name, Some(m.targetSchema), Some(m.targetTable), table.rowCount, table.estimatedBytes,
      table.comment,
      if blockers == {} then Disposition(Migrate, CompleteMapping) else Disposition(Reject, BlockingSemantics),
      columns, blockers);
  }

  predicate Selected(plan: TablePlan) {
    plan.targetTable.Some? && plan.disposition.action != Reject && plan.blockers == {}
  }

  /** selected_tables: the plans that are carried out, in order. */
  function SelectedTables(plans: seq<TablePlan>): (r: seq<TablePlan>)
    ensures forall p :: p in r ==> p in plans && Selected(p)
  {
    if plans == [] then [] else (if Selected(plans[0]) then [plans[0]] else []) + SelectedTables(plans[1..])
  }

  /** A table that the target can hold: nothing on it or in it is unsupported. */
  ghost predicate Migratable(table: SourceTable, mapping: TableMapping, normalize: Normalize) {
    && !table.partitioned && !table.rowSecurity && !table.forceRowSecurity && table.triggers == 0
    && table.replicaIdentity in ["default", "nothing"]
    && (forall c :: c in table.constraints ==> c.kind == NotNull)
    && (forall c :: c in table.columns ==> Supported(c, ColumnTarget(mapping, c), normalize))
    && Distinct(ColumnTargets(mapping, table.columns))
    && mapping.columns.Keys <= ColumnNames(table.columns)
  }

  lemma ColumnPlansReject(table: SourceTable, mapping: TableMapping, normalize: Normalize)
    ensures RejectedColumns(table, ColumnPlans(table, mapping, normalize)) == {} <==>
      (&& (forall c :: c in table.columns ==> Supported(c, ColumnTarget(mapping, c), normalize))
       && Distinct(ColumnTargets(mapping, table.columns)))
  {
    var plans, targets := ColumnPlans(table, mapping, normalize), ColumnTargets(mapping, table.columns);
    forall i | 0 <= i < |plans|
      ensures plans[i].disposition.action == Reject <==>
        !Supported(table.columns[i], targets[i], normalize) || targets[i] in targets[..i]
    {
      ClassifyRejects(table.columns[i], targets[i], normalize);
    }
    forall i | 0 <= i < |plans| && plans[i].disposition.action == Reject ensures RejectedColumns(table, plans) != {} {
      assert Column(table.columns[i].name, plans[i].disposition.reason) in RejectedColumns(table, plans);
    }
    if RejectedColumns(table, plans) == {} {
      forall i, j | 0 <= i < j < |targets| ensures targets[i] != targets[j] {
        assert targets[i] == targets[..j][i];
      }
    } else {
      var b :| b in RejectedColumns(table, plans);
      var i :| 0 <= i < |plans| && plans[i].disposition.action == Reject
        && b == Column(table.columns[i].name, plans[i].disposition.reason);
    }
  }

  /** A mapped table is planned for migration exactly when the target can hold it. */
  lemma SelectedIffMigratable(table: SourceTable, mapping: TableMapping, normalize: Normalize)
    ensures Selected(SelectedPlan(table, mapping, normalize)) <==> Migratable(table, mapping, normalize)
  {
    ColumnPlansReject(table, mapping, normalize);
    assert ConstraintBlockers(table.constraints) == {} <==>
      forall c :: c in table.constraints ==> c.kind == NotNull by {
      forall c | c in table.constraints && c.kind != NotNull ensures ConstraintBlockers(table.constraints) != {} {
        assert Constraint(c.kind, c.name) in ConstraintBlockers(table.constraints);
      }
    }
    assert MissingColumns(table, mapping) == {} <==> mapping.columns.Keys <= ColumnNames(table.columns) by {
      forall name | name in mapping.columns
        && name !in ColumnNames(table.columns) ensures MissingColumns(table, mapping) != {} {
        assert MissingColumn(name) in MissingColumns(table, mapping);
      }
    }
  }
}
