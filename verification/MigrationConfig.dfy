/** The migration configuration and its validation. */
module MigrationConfig {
  import opened Wrappers

  const MAX_SCHEMAS := 64
  const MAX_TABLES := 1024
  const MAX_ROLE_MAPPINGS := 4096
  const MAX_GRANT_MAPPINGS := 65536
  const MAX_IDENTIFIER_BYTES := 63

  type Name = (string, string)

  datatype TableMapping = TableMapping(
    sourceSchema: string, sourceTable: string, targetSchema: string, targetTable: string, columns: map<string, string>)
  {
    function Source(): Name {
      (sourceSchema, sourceTable)
    }

    function Target(): Name {
      (targetSchema, targetTable)
    }
  }

  datatype GrantMapping = GrantMapping(
    sourceRole: string, sourceSchema: string, sourceTable: string, sourceColumn: Option<string>, privilege: string,
    targetRole: string)

  datatype Config = Config(
    formatVersion: nat, postgresVersion: nat, postgisVersion: string, sourceSchemas: seq<string>,
    tables: seq<TableMapping>, roleMappings: map<string, string>, grantMappings: seq<GrantMapping>)

  // ---- Text ---------------------------------------------------------------------------------------

  function Utf8Width(c: char): nat {
    if c as int < 0x80 then 1 else if c as int < 0x800 then 2 else if c as int < 0x10000 then 3 else 4
  }

  /** The length in bytes, which is what the limits are about. */
  function Utf8Length(s: string): nat {
    if s == [] then 0 else Utf8Width(s[0]) + Utf8Length(s[1..])
  }

  predicate Control(c: char) {
    c as int < 0x20 || 0x7f <= c as int <= 0x9f
  }

  predicate Identifier(s: string) {
    s != [] && Utf8Length(s) <= MAX_IDENTIFIER_BYTES && forall c :: c in s ==> !Control(c)
  }

  function UpperChar(c: char): char {
    if 'a' <= c <= 'z' then (c as int - 32) as char else c
  }

  function Upper(s: string): string {
    seq(|s|, i requires 0 <= i < |s| => UpperChar(s[i]))
  }

  predicate Privilege(s: string) {
    Upper(s) in ["SELECT", "INSERT", "UPDATE", "DELETE"]
  }

  predicate DottedNumber(s: string) {
    forall c :: c in s ==> '0' <= c <= '9' || c == '.'
  }

  // ---- What validation accepts --------------------------------------------------------------------

  predicate Distinct<T(==)>(s: seq<T>) {
    forall i, j :: 0 <= i < j < |s| ==> s[i] != s[j]
  }

  function Sources(tables: seq<TableMapping>): (r: seq<Name>)
    ensures |r| == |tables|
  {
    seq(|tables|, i requires 0 <= i < |tables| => tables[i].Source())
  }

  function Targets(tables: seq<TableMapping>): (r: seq<Name>)
    ensures |r| == |tables|
  {
    seq(|tables|, i requires 0 <= i < |tables| => tables[i].Target())
  }

  predicate OneToOne(columns: map<string, string>) {
    forall a, b :: a in columns && b in columns && a != b ==> columns[a] != columns[b]
  }

  predicate ValidColumns(columns: map<string, string>) {
    && (forall a :: a in columns ==> Identifier(a) && Identifier(columns[a]))
    && OneToOne(columns)
  }

  predicate ValidTable(t: TableMapping, schemas: seq<string>) {
    && Identifier(t.sourceSchema) && Identifier(t.sourceTable) && Identifier(t.targetSchema)
      && Identifier(t.targetTable)
    && t.sourceSchema in schemas
    && ValidColumns(t.columns)
  }

  predicate ValidRoles(roles: map<string, string>) {
    forall a :: a in roles ==> Identifier(a) && Identifier(roles[a])
  }

  predicate ValidGrant(g: GrantMapping, c: Config) {
    && Identifier(g.sourceRole) && Identifier(g.sourceSchema) && Identifier(g.sourceTable)
    && (g.sourceColumn.Some? ==> Identifier(g.sourceColumn.value))
    && Identifier(g.targetRole)
    && Privilege(g.privilege)
    && g.sourceRole in c.roleMappings && c.roleMappings[g.sourceRole] == g.targetRole
    && FindMapping(c.tables, (g.sourceSchema, g.sourceTable)).Some?
  }

  predicate ValidHeader(c: Config) {
    && c.formatVersion == 1 && c.postgresVersion >= 100000
    && 0 < |c.postgisVersion| && Utf8Length(c.postgisVersion) <= 64 && DottedNumber(c.postgisVersion)
    && 0 < |c.sourceSchemas| <= MAX_SCHEMAS && 0 < |c.tables| <= MAX_TABLES
    && |c.roleMappings| <= MAX_ROLE_MAPPINGS && |c.grantMappings| <= MAX_GRANT_MAPPINGS
  }

  predicate ValidTables(c: Config) {
    && (forall i :: 0 <= i < |c.tables| ==> ValidTable(c.tables[i], c.sourceSchemas))
    && Distinct(Sources(c.tables)) && Distinct(Targets(c.tables))
  }

  predicate ValidGrants(c: Config) {
    (forall i :: 0 <= i < |c.grantMappings| ==> ValidGrant(c.grantMappings[i], c)) && Distinct(c.grantMappings)
  }

  predicate Valid(c: Config) {
    && ValidHeader(c)
    && (forall i :: 0 <= i < |c.sourceSchemas| ==> Identifier(c.sourceSchemas[i])) && Distinct(c.sourceSchemas)
    && ValidTables(c) && ValidRoles(c.roleMappings) && ValidGrants(c)
  }

  /** table_mapping: the first mapping of this source table. */
  function FindMapping(tables: seq<TableMapping>, source: Name): (r: Option<TableMapping>)
    ensures r.None? <==> source !in Sources(tables)
    ensures r.Some? ==> r.value in tables && r.value.Source() == source
  {
    if tables == [] then None
    else if tables[0].Source() == source then
      assert Sources(tables)[0] == source;
      Some(tables[0])
    else
      var rest := FindMapping(tables[1..], source);
      assert Sources(tables) == [tables[0].Source()] + Sources(tables[1..]);
      rest
  }

  // ---- Validation ---------------------------------------------------------------------------------

  /** The first `i` keys were inserted into the set and none was there before. */
  ghost predicate Inserted<T(!new)>(s: seq<T>, i: nat, seen: set<T>) {
    i <= |s| && Distinct(s[..i]) && forall k :: k in seen <==> k in s[..i]
  }

  lemma InsertNext<T(!new)>(s: seq<T>, i: nat, seen: set<T>)
    requires i < |s| && Inserted(s, i, seen)
    ensures s[i] in seen ==> !Distinct(s)
    ensures s[i] !in seen ==> Inserted(s, i + 1, seen + {s[i]})
  {
    assert s[..i + 1] == s[..i] + [s[i]];
    if s[i] in seen {
      var j :| 0 <= j < i && s[..i][j] == s[i];
    }
  }

  lemma AllInserted<T(!new)>(s: seq<T>, seen: set<T>)
    requires Inserted(s, |s|, seen)
    ensures Distinct(s)
  {
    assert s[..|s|] == s;
  }

  /** The insertions of a list of keys into a set, stopping at the first one already present. */
  method AllDistinct(keys: seq<string>) returns (ok: bool)
    ensures ok <==> Distinct(keys)
  {
    var seen := {};
    for i := 0 to |keys|
      invariant Inserted(keys, i, seen)
    {
      InsertNext(keys, i, seen);
      if keys[i] in seen { return false; }
      seen := seen + {keys[i]};
    }
    AllInserted(keys, seen);
    ok := true;
  }

  /** The walk over a table's column mappings. */
  method ValidateColumns(columns: map<string, string>) returns (ok: bool)
    ensures ok <==> ValidColumns(columns)
  {
    var rest, targets := columns.Keys, {};
    while rest != {}
      invariant rest <= columns.Keys
      invariant forall a :: a in columns && a !in rest ==> Identifier(a) && Identifier(columns[a])
      invariant forall t :: t in targets <==> exists a :: a in columns && a !in rest && columns[a] == t
      invariant forall a, b :: a in columns && b in columns && a !in rest && b !in rest && a != b ==>
        columns[a] != columns[b]
      decreases |rest|
    {
      var a :| a in rest;
      if !Identifier(a) || !Identifier(columns[a]) || columns[a] in targets { return false; }
      rest, targets := rest - {a}, targets + {columns[a]};
    }
    ok := true;
  }

  /** The walk over the tables, with its two sets of names already seen. */
  method ValidateTables(c: Config) returns (ok: bool)
    ensures ok <==> ValidTables(c)
  {
    var sources, targets := {}, {};
    var from, to := Sources(c.tables), Targets(c.tables);
    for i := 0 to |c.tables|
      invariant forall j :: 0 <= j < i ==> ValidTable(c.tables[j], c.sourceSchemas)
      invariant Inserted(from, i, sources) && Inserted(to, i, targets)
    {
      InsertNext(from, i, sources);
      InsertNext(to, i, targets);
      var t := c.tables[i];
      if !Identifier(t.sourceSchema) || !Identifier(t.sourceTable) || !Identifier(t.targetSchema)
         || !Identifier(t.targetTable) || t.sourceSchema !in c.sourceSchemas
      {
        return false;
      }
      if t.Source() in sources || t.Target() in targets { return false; }
      var columns := ValidateColumns(t.columns);
      if !columns { return false; }
      sources, targets := sources + {t.Source()}, targets + {t.Target()};
    }
    AllInserted(from, sources);
    AllInserted(to, targets);
    ok := true;
  }

  method ValidateGrants(c: Config) returns (ok: bool)
    ensures ok <==> ValidGrants(c)
  {
    var grants := {};
    for i := 0 to |c.grantMappings|
      invariant forall j :: 0 <= j < i ==> ValidGrant(c.grantMappings[j], c)
      invariant Inserted(c.grantMappings, i, grants)
    {
      InsertNext(c.grantMappings, i, grants);
      var g := c.grantMappings[i];
      if !ValidGrant(g, c) || g in grants { return false; }
      grants := grants + {g};
    }
    AllInserted(c.grantMappings, grants);
    ok := true;
  }

  /** Validation accepts exactly the valid configurations. */
  method Validate(c: Config) returns (ok: bool)
    ensures ok <==> Valid(c)
  {
    if !ValidHeader(c) { return false; }
    for i := 0 to |c.sourceSchemas|
      invariant forall j :: 0 <= j < i ==> Identifier(c.sourceSchemas[j])
    {
      if !Identifier(c.sourceSchemas[i]) { return false; }
    }
    ok := AllDistinct(c.sourceSchemas);
    if !ok { return; }
    ok := ValidateTables(c);
    if !ok || !ValidRoles(c.roleMappings) { return false; }
    ok := ValidateGrants(c);
  }
}
