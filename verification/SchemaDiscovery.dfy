/** What one discovery reads: the exposed tables with their columns, and the bytes its revision is a hash of. */
module SchemaDiscovery {
  import opened Wrappers
  import opened Bytes
  import opened Sequences

  /** Bytes of a text, whose length is below the largest 64-bit number. */
  type Text = t: seq<byte> | |t| < MAX_U64

  datatype Row = Row(table: Text, column: Text, typ: Text, nullable: Text, default: Option<Text>)

  datatype Column = Column(name: Text, typ: Text, nullable: bool, default: Option<Text>)

  type Schema = map<Text, seq<Column>>

  /** YES in any letter case. */
  predicate Yes(s: Text) {
    |s| == 3 && s[0] in [89, 121] && s[1] in [69, 101] && s[2] in [83, 115]
  }

  function ColumnOf(row: Row): Column {
    Column(row.column, row.typ, Yes(row.nullable), row.default)
  }

  /** The rows of exposed tables, in order. */
  function Exposed(rows: seq<Row>, exposed: set<Text>): (r: seq<Row>)
    ensures |r| <= |rows|
  {
    if rows == [] then [] else (if rows[0].table in exposed then [rows[0]] else []) + Exposed(rows[1..], exposed)
  }

  function Tables(rows: seq<Row>): set<Text> {
    set row | row in rows :: row.table
  }

  function ColumnsOf(rows: seq<Row>, table: Text): seq<Column> {
    if rows == [] then []
    else (if rows[0].table == table then [ColumnOf(rows[0])] else []) + ColumnsOf(rows[1..], table)
  }

  /** Each table with its columns, in the order of the rows. */
  function SchemaOf(rows: seq<Row>): Schema {
    map table | table in Tables(rows) :: ColumnsOf(rows, table)
  }

  // ---- The revision -------------------------------------------------------------------------------

  /** A text is its length in eight bytes and itself. A missing value is the largest length alone. */
  function Field(value: Option<Text>): (r: seq<byte>)
    ensures |r| >= 8
  {
    match value
    case Some(text) => BigEndian(|text|, 8) + text
    case None => BigEndian(MAX_U64, 8)
  }

  function Fields(values: seq<Option<Text>>): seq<byte> {
    if values == [] then [] else Field(values[0]) + Fields(values[1..])
  }

  function Values(row: Row): seq<Option<Text>> {
    [Some(row.table), Some(row.column), Some(row.typ), Some(row.nullable), row.default]
  }

  function AllValues(rows: seq<Row>): seq<Option<Text>> {
    if rows == [] then [] else Values(rows[0]) + AllValues(rows[1..])
  }

  function Revision(rows: seq<Row>): seq<byte> {
    Fields(AllValues(rows))
  }

  function Length(value: Option<Text>): nat {
    if value.Some? then |value.value| else MAX_U64
  }

  function Body(value: Option<Text>): seq<byte> {
    if value.Some? then value.value else []
  }

  lemma FieldParts(value: Option<Text>, rest: seq<byte>)
    ensures var u := Field(value) + rest;
      && u[..8] == BigEndian(Length(value), 8) && u[8..8 + |Body(value)|] == Body(value)
        && u[8 + |Body(value)|..] == rest
  {
    Slices(BigEndian(Length(value), 8), Body(value), rest);
    assert BigEndian(Length(value), 8) + Body(value) == Field(value);
  }

  lemma Slices(length: seq<byte>, body: seq<byte>, rest: seq<byte>)
    requires |length| == 8
    ensures var u := (length + body) + rest; u[..8] == length && u[8..8 + |body|] == body && u[8 + |body|..] == rest
  {
  }

  lemma FieldIsPrefixFree(a: Option<Text>, b: Option<Text>, s: seq<byte>, t: seq<byte>)
    requires Field(a) + s == Field(b) + t
    ensures a == b && s == t
  {
    FieldParts(a, s);
    FieldParts(b, t);
    WordSizes();
    BigEndianIsInjective(Length(a), Length(b), 8);
  }

  lemma {:induction false} FieldsAreInjective(a: seq<Option<Text>>, b: seq<Option<Text>>)
    requires Fields(a) == Fields(b)
    ensures a == b
    decreases |a|
  {
    if a != [] && b != [] {
      FieldIsPrefixFree(a[0], b[0], Fields(a[1..]), Fields(b[1..]));
      FieldsAreInjective(a[1..], b[1..]);
    }
  }

  lemma {:induction false} AllValuesAreInjective(a: seq<Row>, b: seq<Row>)
    requires AllValues(a) == AllValues(b)
    ensures a == b
    decreases |a|
  {
    if a != [] && b != [] {
      var u := AllValues(a);
      assert u[..5] == Values(a[0]) && u[..5] == Values(b[0]);
      assert Values(a[0])[0].value == a[0].table && Values(a[0])[1].value == a[0].column
        && Values(a[0])[2].value == a[0].typ
        && Values(a[0])[3].value == a[0].nullable && Values(a[0])[4] == a[0].default;
      assert u[5..] == AllValues(a[1..]) && u[5..] == AllValues(b[1..]);
      AllValuesAreInjective(a[1..], b[1..]);
    }
  }

  /** Equal revision bytes come from equal rows. */
  lemma RevisionIsInjective(a: seq<Row>, b: seq<Row>)
    requires Revision(a) == Revision(b)
    ensures a == b
  {
    FieldsAreInjective(AllValues(a), AllValues(b));
    AllValuesAreInjective(a, b);
  }

  // ---- The loop over the rows ---------------------------------------------------------------------

  lemma {:induction false} ColumnsAppend(a: seq<Row>, row: Row, table: Text)
    ensures ColumnsOf(a + [row], table) == ColumnsOf(a, table) + if row.table == table then [ColumnOf(row)] else []
    decreases |a|
  {
    if a == [] {
      assert a + [row] == [row];
    } else {
      assert (a + [row])[1..] == a[1..] + [row];
      ColumnsAppend(a[1..], row, table);
      Regroup(if a[0].table == table then [ColumnOf(a[0])] else [], ColumnsOf(a[1..], table),
              if row.table == table then [ColumnOf(row)] else []);
    }
  }

  lemma {:induction false} NoColumns(rows: seq<Row>, table: Text)
    requires table !in Tables(rows)
    ensures ColumnsOf(rows, table) == []
    decreases |rows|
  {
    if rows != [] {
      assert rows[0] in rows;
      assert forall row :: row in rows[1..] ==> row in rows;
      NoColumns(rows[1..], table);
    }
  }

  /** One more row: its table is added when it is new, and its column goes to the end. */
  lemma SchemaGrows(a: seq<Row>, row: Row)
    ensures SchemaOf(a + [row]) == SchemaOf(a)[row.table := ColumnsOf(a, row.table) + [ColumnOf(row)]]
  {
    assert Tables(a + [row]) == Tables(a) + {row.table};
    forall table | table in Tables(a + [row]) ensures SchemaOf(a + [row])[table]
      == SchemaOf(a)[row.table := ColumnsOf(a, row.table) + [ColumnOf(row)]][table] {
      ColumnsAppend(a, row, table);
    }
  }

  lemma {:induction false} AllValuesAppend(a: seq<Row>, row: Row)
    ensures AllValues(a + [row]) == AllValues(a) + Values(row)
    decreases |a|
  {
    if a == [] {
      assert a + [row] == [row];
    } else {
      assert (a + [row])[1..] == a[1..] + [row];
      AllValuesAppend(a[1..], row);
      Regroup(Values(a[0]), AllValues(a[1..]), Values(row));
    }
  }

  lemma {:induction false} FieldsAppend(a: seq<Option<Text>>, b: seq<Option<Text>>)
    ensures Fields(a + b) == Fields(a) + Fields(b)
    decreases |a|
  {
    if a == [] {
      assert a + b == b;
    } else {
      assert (a + b)[1..] == a[1..] + b;
      FieldsAppend(a[1..], b);
      Regroup(Field(a[0]), Fields(a[1..]), Fields(b));
    }
  }

  lemma {:induction false} ExposedAppend(a: seq<Row>, row: Row, exposed: set<Text>)
    ensures Exposed(a + [row], exposed) == Exposed(a, exposed) + if row.table in exposed then [row] else []
    decreases |a|
  {
    if a == [] {
      assert a + [row] == [row];
    } else {
      assert (a + [row])[1..] == a[1..] + [row];
      ExposedAppend(a[1..], row, exposed);
      Regroup(if a[0].table in exposed then [a[0]] else [], Exposed(a[1..], exposed), if row.table in exposed then [row]
        else []);
    }
  }

  /** update_schema_revision: one more field. */
  method UpdateRevision(revision: seq<byte>, value: Option<Text>, ghost hashed: seq<Option<Text>>)
    returns (r: seq<byte>)
    requires revision == Fields(hashed)
    ensures r == Fields(hashed + [value])
  {
    r := revision + match value { case Some(text) => BigEndian(|text|, 8) + text case None => BigEndian(MAX_U64, 8) };
    FieldsAppend(hashed, [value]);
    assert [value][1..] == [];
  }

  /** One exposed row. */
  method AddRow(schema: Schema, revision: seq<byte>, row: Row, ghost rows: seq<Row>)
    returns (schema': Schema, revision': seq<byte>)
    requires schema == SchemaOf(rows) && revision == Revision(rows)
    ensures schema' == SchemaOf(rows + [row]) && revision' == Revision(rows + [row])
  {
    ghost var v := AllValues(rows);
    revision' := UpdateRevision(revision, Some(row.table), v);
    revision' := UpdateRevision(revision', Some(row.column), v + [Some(row.table)]);
    revision' := UpdateRevision(revision', Some(row.typ), v + [Some(row.table)] + [Some(row.column)]);
    revision' := UpdateRevision(revision', Some(row.nullable), v + [Some(row.table)] + [Some(row.column)]
      + [Some(row.typ)]);
    revision' := UpdateRevision(
      revision', row.default, v + [Some(row.table)] + [Some(row.column)] + [Some(row.typ)] + [Some(row.nullable)]);
    assert v + [Some(row.table)] + [Some(row.column)] + [Some(row.typ)] + [Some(row.nullable)] + [row.default]
      == v + Values(row);
    AllValuesAppend(rows, row);
    schema' := schema;
    if row.table !in schema' {
      NoColumns(rows, row.table);
      schema' := schema'[row.table := []];
    }
    schema' := schema'[row.table := schema'[row.table] + [ColumnOf(row)]];
    SchemaGrows(rows, row);
  }

  /** The body of discover_schema: fills the table map and feeds the revision. */
  method Discover(rows: seq<Row>, exposed: set<Text>) returns (schema: Schema, revision: seq<byte>)
    ensures schema == SchemaOf(Exposed(rows, exposed))
    ensures revision == Revision(Exposed(rows, exposed))
  {
    schema, revision := map[], [];
    ghost var kept := [];
    for i := 0 to |rows|
      invariant kept == Exposed(rows[..i], exposed)
      invariant schema == SchemaOf(kept) && revision == Revision(kept)
    {
      KeepNext(rows, i, exposed);
      if rows[i].table in exposed {
        schema, revision := AddRow(schema, revision, rows[i], kept);
        kept := kept + [rows[i]];
      }
    }
    assert rows[..|rows|] == rows;
  }

  lemma KeepNext(rows: seq<Row>, i: nat, exposed: set<Text>)
    requires i < |rows|
    ensures Exposed(rows[..i + 1], exposed) == Exposed(rows[..i], exposed) + if rows[i].table in exposed then [rows[i]]
      else []
  {
    assert rows[..i + 1] == rows[..i] + [rows[i]];
    ExposedAppend(rows[..i], rows[i], exposed);
  }
}
