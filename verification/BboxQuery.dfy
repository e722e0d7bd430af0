/**
 The SELECT rewrite: a query whose WHERE must make ST_Intersects(geometry column, probe) true gets
 a bounding-box candidate AND-ed in front of it. The rows it selects do not change.
 */
module BboxQuery {
  import opened Wrappers
  import opened Sql
  import opened BboxLayout

  // ---- Statements -------------------------------------------------------------------------------

  datatype Alias = Alias(name: Ident, columns: nat)

  /** Table-factor parts that make the rewriter keep its hands off. */
  datatype TableExtra = TableArguments | Hints | Version | Ordinality | Partitions | JsonPath | Sample | IndexHints

  datatype Factor = Table(name: seq<NamePart>, alias: Option<Alias>, extras: set<TableExtra>) | OtherFactor

  datatype From = From(relation: Factor, joins: nat)

  datatype Body =
    | Select(from: seq<From>, lateralViews: bool, prewhere: bool, selection: Option<Expr>, projection: nat)
    | OtherBody

  datatype Query = Query(hasWith: bool, body: Body, tail: nat)

  datatype Statement = QueryStatement(query: Query) | Explain(statement: Statement) | OtherStatement

  datatype Target = Target(table: string, qualifier: Ident, geometry: Ident, probe: Expr)

  const MAX_WKT_BYTES := 65536
  const MAX_NUMERIC_LITERAL_BYTES := 64

  // ---- Classifiers ------------------------------------------------------------------------------

  predicate Digits(s: string) {
    forall i :: 0 <= i < |s| ==> '0' <= s[i] <= '9'
  }

  function DigitsValue(s: string): nat
    requires Digits(s)
  {
    if s == "" then 0 else 10 * DigitsValue(s[..|s| - 1]) + (s[|s| - 1] as int - '0' as int)
  }

  /** `$n` with n a positive machine word; a leading plus is accepted by the integer parser. */
  predicate NumberedParameter(text: string) {
    && text != "" && text[0] == '$'
    && var digits := if 1 < |text| && text[1] == '+' then text[2..] else text[1..];
       Digits(digits) && 0 < DigitsValue(digits) < 0x1_0000_0000_0000_0000
  }

  /** `finite(text)` stands for "parses as a finite 64-bit float". */
  predicate StableNumeric(x: Expr, finite: string -> bool) {
    match x
    case Number(text, long) => !long && |text| <= MAX_NUMERIC_LITERAL_BYTES && finite(text)
    case Placeholder(text) => NumberedParameter(text)
    case Unary(sign, inner) => !sign.OtherSign? && StableNumeric(inner, finite)
    case Nested(inner) => StableNumeric(inner, finite)
    case Cast(inner, _) => StableNumeric(inner, finite)
    case _ => false
  }

  predicate StableString(x: Expr) {
    match x
    case Str(text) => |text| <= MAX_WKT_BYTES
    case Nested(inner) => StableString(inner)
    case Cast(inner, _) => StableString(inner)
    case _ => false
  }

  predicate StableBound(x: Expr) {
    match x
    case Placeholder(text) => NumberedParameter(text)
    case Nested(inner) => StableBound(inner)
    case Cast(inner, _) => StableBound(inner)
    case _ => false
  }

  predicate StableProbe(x: Expr, finite: string -> bool) {
    && x.Call?
    && PlainArguments(x)
    && if PlainlyNamed(x, MakeEnvelope) then |x.args| == 4 && forall i :: 0 <= i < 4 ==>
      StableNumeric(x.args[i], finite)
       else if PlainlyNamed(x, GeomFromText) then |x.args| == 1 && StableString(x.args[0])
       else PlainlyNamed(x, GeomFromWkb) && |x.args| == 1 && StableBound(x.args[0])
  }

  function GeometryColumn(x: Expr, qualifier: Ident): Option<Ident> {
    if x.Call? && PlainlyNamed(x, GeomFromWkb) && PlainArguments(x) && |x.args| == 1 then
      match x.args[0]
      case Identifier(column) => Some(column)
      case Compound(parts) =>
        if |parts| == 2 && IdentifiersMatch(parts[0], qualifier) then Some(parts[1]) else None
      case _ => None
    else None
  }

  /** The geometry column and the probe of a maintained intersection, in either argument order. */
  function MaintainedIntersection(call: Expr, qualifier: Ident, finite: string -> bool): Option<(Ident, Expr)>
    requires call.Call?
  {
    if PlainlyNamed(call, Intersects) && PlainArguments(call) && |call.args| == 2 then
      if GeometryColumn(call.args[0], qualifier).Some? && StableProbe(call.args[1], finite) then
        Some((GeometryColumn(call.args[0], qualifier).value, call.args[1]))
      else if GeometryColumn(call.args[1], qualifier).Some? && StableProbe(call.args[0], finite) then
        Some((GeometryColumn(call.args[1], qualifier).value, call.args[0]))
      else None
    else None
  }

  /** Intersections that are conjuncts of the WHERE, through AND and parentheses only. */
  function MandatoryPredicates(x: Expr, qualifier: Ident, finite: string -> bool): seq<(Ident, Expr)> {
    match x
    case Binary(left, op, right) =>
      if op.And? then MandatoryPredicates(left, qualifier, finite) + MandatoryPredicates(right, qualifier, finite)
      else []
    case Nested(inner) => MandatoryPredicates(inner, qualifier, finite)
    case Call(_, _, _) =>
      var found := MaintainedIntersection(x, qualifier, finite);
      if found.Some? then [found.value] else []
    case _ => []
  }

  /** The local table a possibly qualified name denotes. */
  function LocalTable(name: seq<NamePart>): Option<string> {
    if exists i :: 0 <= i < |name| && !name[i].Part? then None
    else
      var n := |name|;
      if n == 0 || n > 3 then None
      else if n >= 2 && Fold(name[n - 2].ident.value) != "main" && Fold(name[n - 2].ident.value) != "public" then None
      else if n == 3 && Fold(name[0].ident.value) != "quackgis" then None
      else Some(name[n - 1].ident.value)
  }

  function InnerQuery(statement: Statement): Option<Query> {
    match statement
    case QueryStatement(query) => Some(query)
    case Explain(QueryStatement(query)) => Some(query)
    case _ => None
  }

  /** A plain SELECT over one local table, which alone gives the query a row-by-row meaning here. */
  predicate SingleTable(query: Query) {
    && !query.hasWith
    && query.body.Select?
    && |query.body.from| == 1
    && query.body.from[0].joins == 0
    && !query.body.lateralViews && !query.body.prewhere
    && query.body.from[0].relation.Table?
    && query.body.from[0].relation.extras == {}
    && (query.body.from[0].relation.alias.Some? ==> query.body.from[0].relation.alias.value.columns == 0)
    && LocalTable(query.body.from[0].relation.name).Some?
  }

  function Qualifier(query: Query): Ident
    requires SingleTable(query)
  {
    var relation := query.body.from[0].relation;
    if relation.alias.Some? then relation.alias.value.name else relation.name[|relation.name| - 1].ident
  }

  function QueryTarget(statement: Statement, finite: string -> bool): Option<Target> {
    var inner := InnerQuery(statement);
    if inner.None? || !SingleTable(inner.value) || inner.value.body.selection.None? then None
    else
      var query := inner.value;
      var found := MandatoryPredicates(query.body.selection.value, Qualifier(query), finite);
      if |found| != 1 then None
      else Some(Target(LocalTable(query.body.from[0].relation.name).value, Qualifier(query), found[0].0, found[0].1))
  }

  // ---- The rewrite ------------------------------------------------------------------------------

  function Comparison(qualifier: Ident, column: Side, op: Operator, bound: Side, probe: Expr): Expr {
    Binary(Compound([qualifier, Ident(ReservedColumn(column), false)]),
           op,
           MakeCall(Accessor(bound), [MakeCall(Extent, [probe])]))
  }

  function Candidate(qualifier: Ident, probe: Expr): Expr {
    Binary(
      Binary(
        Binary(
          Comparison(qualifier, MaxX, GtEq, MinX, probe),
          And,
          Comparison(qualifier, MinX, LtEq, MaxX, probe)),
        And,
        Comparison(qualifier, MaxY, GtEq, MinY, probe)),
      And,
      Comparison(qualifier, MinY, LtEq, MaxY, probe))
  }

  function Inject(query: Query, target: Target): Query
    requires query.body.Select? && query.body.selection.Some?
  {
    query.(body := query.body.(selection :=
      Some(Binary(Candidate(target.qualifier, target.probe), And, query.body.selection.value))))
  }

  function InjectStatement(statement: Statement, target: Target): Statement
    requires InnerQuery(statement).Some?
    requires InnerQuery(statement).value.body.Select? && InnerQuery(statement).value.body.selection.Some?
  {
    match statement
    case QueryStatement(query) => QueryStatement(Inject(query, target))
    case Explain(QueryStatement(query)) => Explain(QueryStatement(Inject(query, target)))
  }

  /** What is sent to the engine for a parsed statement, given the target table's fields. */
  function PrepareQuery(statement: Statement, schemaOf: string -> seq<Field>, finite: string -> bool)
    : Result<Statement, LayoutError>
  {
    var target := QueryTarget(statement, finite);
    if target.None? then Ok(statement)
    else
      match InspectLayout(schemaOf(target.value.table))
      case Err(error) => Err(error)
      case Ok(None) => Ok(statement)
      case Ok(Some(layout)) =>
        if IdentifierMatches(target.value.geometry, layout.geometry)
        then Ok(InjectStatement(statement, target.value))
        else Ok(statement)
  }

  // ---- Meaning ------------------------------------------------------------------------------------

  function RowEnv(e: Engine, noise: Noise, qualifier: Ident, rows: seq<Row>, i: nat): Env
    requires i < |rows|
  {
    Env(e, noise, qualifier, rows[i], i)
  }

  /** Positions of the first `n` rows on which the WHERE is true. */
  function Selected(e: Engine, noise: Noise, qualifier: Ident, rows: seq<Row>, filter: Option<Expr>, n: nat): seq<nat>
    requires n <= |rows|
  {
    if n == 0 then []
    else
      var before := Selected(e, noise, qualifier, rows, filter, n - 1);
      if filter.None? || Eval(RowEnv(e, noise, qualifier, rows, n - 1), filter.value, []) == VBool(true)
      then before + [n - 1] else before
  }

  /** A single-table query is any function of the rest of the query and the selected rows. */
  function Answer<T>(e: Engine, noise: Noise, rowsOf: string -> seq<Row>, query: Query,
      finish: (Query, seq<nat>) -> T): T
    requires SingleTable(query)
  {
    var rows := rowsOf(LocalTable(query.body.from[0].relation.name).value);
    finish(query.(body := query.body.(selection := None)),
           Selected(e, noise, Qualifier(query), rows, query.body.selection, |rows|))
  }

  // ---- Proof --------------------------------------------------------------------------------------

  lemma {:induction false} StableNumericValue(x: Expr, finite: string -> bool, a: Env, b: Env, p: seq<nat>, q: seq<nat>)
    requires StableNumeric(x, finite) && a.engine == b.engine
    ensures Eval(a, x, p) == Eval(b, x, q)
  {
    match x
    case Number(_, _) =>
    case Placeholder(_) =>
    case Unary(_, inner) => StableNumericValue(inner, finite, a, b, p + [0], q + [0]);
    case Nested(inner) => StableNumericValue(inner, finite, a, b, p + [0], q + [0]);
    case Cast(inner, _) => StableNumericValue(inner, finite, a, b, p + [0], q + [0]);
  }

  lemma {:induction false} StableStringValue(x: Expr, a: Env, b: Env, p: seq<nat>, q: seq<nat>)
    requires StableString(x) && a.engine == b.engine
    ensures Eval(a, x, p) == Eval(b, x, q)
  {
    match x
    case Str(_) =>
    case Nested(inner) => StableStringValue(inner, a, b, p + [0], q + [0]);
    case Cast(inner, _) => StableStringValue(inner, a, b, p + [0], q + [0]);
  }

  lemma {:induction false} StableBoundValue(x: Expr, a: Env, b: Env, p: seq<nat>, q: seq<nat>)
    requires StableBound(x) && a.engine == b.engine
    ensures Eval(a, x, p) == Eval(b, x, q)
  {
    match x
    case Placeholder(_) =>
    case Nested(inner) => StableBoundValue(inner, a, b, p + [0], q + [0]);
    case Cast(inner, _) => StableBoundValue(inner, a, b, p + [0], q + [0]);
  }

  /**
   An accepted probe has one value: on every row, at every occurrence, whatever the volatile part
   of the engine does.
   */
  lemma ProbeIsStable(x: Expr, finite: string -> bool, a: Env, b: Env, p: seq<nat>, q: seq<nat>)
    requires StableProbe(x, finite) && a.engine == b.engine
    ensures Eval(a, x, p) == Eval(b, x, q)
  {
    var fn := if PlainlyNamed(x, MakeEnvelope) then MakeEnvelope
              else if PlainlyNamed(x, GeomFromText) then GeomFromText else GeomFromWkb;
    KnownByName(x, fn);
    forall i | 0 <= i < |x.args| ensures Eval(a, x.args[i], p + [i]) == Eval(b, x.args[i], q + [i]) {
      match fn
      case MakeEnvelope => StableNumericValue(x.args[i], finite, a, b, p + [i], q + [i]);
      case GeomFromText => StableStringValue(x.args[i], a, b, p + [i], q + [i]);
      case GeomFromWkb => StableBoundValue(x.args[i], a, b, p + [i], q + [i]);
    }
    assert seq(|x.args|, i requires 0 <= i < |x.args| => Eval(a, x.args[i], p + [i]))
        == seq(|x.args|, i requires 0 <= i < |x.args| => Eval(b, x.args[i], q + [i]));
  }

  /** The intersection `(column, probe)` is true on the row of `env`, in one of the argument orders. */
  ghost predicate IntersectionTrue(env: Env, column: Ident, probe: Expr) {
    exists g: seq<nat>, p: seq<nat> ::
      var geometry, value := env.engine.scalar(GeomFromWkb, [ColumnValue(env, column, g)]), Eval(env, probe, p);
      || env.engine.scalar(Intersects, [geometry, value]) == VBool(true)
      || env.engine.scalar(Intersects, [value, geometry]) == VBool(true)
  }

  lemma GeometryColumnMeaning(env: Env, x: Expr, at: seq<nat>)
    requires GeometryColumn(x, env.table).Some?
    ensures Eval(env, x, at) == env.engine.scalar(GeomFromWkb,
        [ColumnValue(env, GeometryColumn(x, env.table).value, at + [0])])
  {
    KnownByName(x, GeomFromWkb);
    assert seq(|x.args|, i requires 0 <= i < |x.args| => Eval(env, x.args[i], at + [i]))
        == [ColumnValue(env, GeometryColumn(x, env.table).value, at + [0])];
  }

  lemma IntersectionMeaning(env: Env, call: Expr, finite: string -> bool, at: seq<nat>)
    requires call.Call? && MaintainedIntersection(call, env.table, finite).Some?
    requires Eval(env, call, at) == VBool(true)
    ensures var found := MaintainedIntersection(call, env.table, finite).value;
      IntersectionTrue(env, found.0, found.1) && StableProbe(found.1, finite)
  {
    KnownByName(call, Intersects);
    var l, r := Eval(env, call.args[0], at + [0]), Eval(env, call.args[1], at + [1]);
    assert seq(|call.args|, i requires 0 <= i < |call.args| => Eval(env, call.args[i], at + [i])) == [l, r];
    assert env.engine.scalar(Intersects, [l, r]) == VBool(true);
    if GeometryColumn(call.args[0], env.table).Some? && StableProbe(call.args[1], finite) {
      GeometryColumnMeaning(env, call.args[0], at + [0]);
      var column := GeometryColumn(call.args[0], env.table).value;
      var g := (at + [0]) + [0];
      assert env.engine.scalar(Intersects, [env.engine.scalar(GeomFromWkb, [ColumnValue(env, column, g)]),
          Eval(env, call.args[1], at + [1])]) == VBool(true);
    } else {
      GeometryColumnMeaning(env, call.args[1], at + [1]);
      var column := GeometryColumn(call.args[1], env.table).value;
      var g := (at + [1]) + [0];
      assert env.engine.scalar(Intersects, [Eval(env, call.args[0], at + [0]),
          env.engine.scalar(GeomFromWkb, [ColumnValue(env, column, g)])]) == VBool(true);
    }
  }

  /** A WHERE that is true makes every collected intersection true. */
  lemma {:induction false} MandatoryPredicatesTrue(env: Env, x: Expr, finite: string -> bool, at: seq<nat>, k: nat)
    requires Eval(env, x, at) == VBool(true)
    requires k < |MandatoryPredicates(x, env.table, finite)|
    ensures var found := MandatoryPredicates(x, env.table, finite)[k];
      IntersectionTrue(env, found.0, found.1) && StableProbe(found.1, finite)
    decreases x
  {
    match x
    case Binary(left, op, right) =>
      var l := MandatoryPredicates(left, env.table, finite);
      if k < |l| {
        MandatoryPredicatesTrue(env, left, finite, at + [0], k);
      } else {
        MandatoryPredicatesTrue(env, right, finite, at + [1], k - |l|);
      }
    case Nested(inner) => MandatoryPredicatesTrue(env, inner, finite, at + [0], k);
    case Call(_, _, _) => IntersectionMeaning(env, x, finite, at);
    case _ =>
  }

  lemma ComparisonMeaning(env: Env, column: Side, op: Operator, bound: Side, probe: Expr, value: Val, at: seq<nat>)
    requires op.GtEq? || op.LtEq?
    requires ReservedColumn(column) in env.row
    requires forall p: seq<nat> :: Eval(env, probe, p) == value
    ensures Eval(env, Comparison(env.table, column, op, bound, probe), at)
         == Operate(op, env.row[ReservedColumn(column)], Bound(env.engine, bound, value))
  {
    ReservedNames();
    var extent := MakeCall(Extent, [probe]);
    EvalUnaryCall(env, Accessor(bound), extent, at + [1]);
    EvalUnaryCall(env, Extent, probe, (at + [1]) + [0]);
  }

  lemma BoundsTest(e: Engine, wkb: Val, value: Val)
    requires Spatial(e)
    ensures (&& Operate(GtEq, StoredBound(e, MaxX, wkb), Bound(e, MinX, value)) == VBool(true)
             && Operate(LtEq, StoredBound(e, MinX, wkb), Bound(e, MaxX, value)) == VBool(true)
             && Operate(GtEq, StoredBound(e, MaxY, wkb), Bound(e, MinY, value)) == VBool(true)
             && Operate(LtEq, StoredBound(e, MinY, wkb), Bound(e, MaxY, value)) == VBool(true))
       <==> Overlap(e, e.scalar(GeomFromWkb, [wkb]), value)
  {
    var g := e.scalar(GeomFromWkb, [wkb]);
    if wkb == VNull {
      assert VNull in [wkb] && VNull in [g] && VNull in [e.scalar(Extent, [g])];
      assert Bound(e, MinX, g) == VNull;
    }
  }

  /**
   On a row whose reserved columns are exact, the candidate is true exactly when the extents of the
   row's geometry and of the probe overlap.
   */
  lemma CandidateMeansOverlap(env: Env, layout: Layout, probe: Expr, value: Val, at: seq<nat>)
    requires Spatial(env.engine) && Exact(env.engine, layout, env.row)
    requires forall p: seq<nat> :: Eval(env, probe, p) == value
    ensures Eval(env, Candidate(env.table, probe), at) == VBool(true)
       <==> Overlap(env.engine, env.engine.scalar(GeomFromWkb, [env.row[Fold(layout.geometry)]]), value)
  {
    var q := env.table;
    var c1, c2 := Comparison(q, MaxX, GtEq, MinX, probe), Comparison(q, MinX, LtEq, MaxX, probe);
    var c3, c4 := Comparison(q, MaxY, GtEq, MinY, probe), Comparison(q, MinY, LtEq, MaxY, probe);
    EvalAnd(env, Binary(Binary(c1, And, c2), And, c3), c4, at);
    EvalAnd(env, Binary(c1, And, c2), c3, at + [0]);
    EvalAnd(env, c1, c2, (at + [0]) + [0]);
    ComparisonMeaning(env, MaxX, GtEq, MinX, probe, value, ((at + [0]) + [0]) + [0]);
    ComparisonMeaning(env, MinX, LtEq, MaxX, probe, value, ((at + [0]) + [0]) + [1]);
    ComparisonMeaning(env, MaxY, GtEq, MinY, probe, value, (at + [0]) + [1]);
    ComparisonMeaning(env, MinY, LtEq, MaxY, probe, value, at + [1]);
    BoundsTest(env.engine, env.row[Fold(layout.geometry)], value);
  }

  lemma IntersectionMeansOverlap(env: Env, layout: Layout, column: Ident, probe: Expr, value: Val)
    requires Spatial(env.engine) && Exact(env.engine, layout, env.row)
    requires IdentifierMatches(column, layout.geometry)
    requires forall p: seq<nat> :: Eval(env, probe, p) == value
    requires IntersectionTrue(env, column, probe)
    ensures Overlap(env.engine, env.engine.scalar(GeomFromWkb, [env.row[Fold(layout.geometry)]]), value)
  {
    assert Fold(column.value) == Fold(layout.geometry);
  }

  /** Row by row: the rewritten WHERE is true exactly when the original is. */
  lemma CandidateKeepsRow(env: Env, noise': Noise, layout: Layout, x: Expr, column: Ident, probe: Expr,
      finite: string -> bool)
    requires Spatial(env.engine) && Exact(env.engine, layout, env.row)
    requires MandatoryPredicates(x, env.table, finite) == [(column, probe)]
    requires IdentifierMatches(column, layout.geometry)
    requires Relocated(env.noise, noise', [1])
    ensures Eval(env.(noise := noise'), Binary(Candidate(env.table, probe), And, x), []) == VBool(true)
       <==> Eval(env, x, []) == VBool(true)
  {
    var env' := env.(noise := noise');
    EvalAnd(env', Candidate(env.table, probe), x, []);
    EvalRelocated(env, noise', [1], x, []);
    assert [] + [1] == [1] + [];
    assert Eval(env', x, [] + [1]) == Eval(env, x, []);
    if Eval(env, x, []) == VBool(true) {
      MandatoryPredicatesTrue(env', x, finite, [] + [1], 0);
      var value := Eval(env', probe, []);
      forall p: seq<nat> ensures Eval(env', probe, p) == value {
        ProbeIsStable(probe, finite, env', env', p, []);
      }
      IntersectionMeansOverlap(env', layout, column, probe, value);
      CandidateMeansOverlap(env', layout, probe, value, [] + [0]);
    }
  }

  lemma {:induction false} CandidateKeepsSelection(
      e: Engine, noise: Noise, noise': Noise, qualifier: Ident, rows: seq<Row>, n: nat,
      layout: Layout, x: Expr, column: Ident, probe: Expr, finite: string -> bool)
    requires n <= |rows|
    requires Spatial(e) && forall row :: row in rows ==> Exact(e, layout, row)
    requires MandatoryPredicates(x, qualifier, finite) == [(column, probe)]
    requires IdentifierMatches(column, layout.geometry)
    requires Relocated(noise, noise', [1])
    ensures Selected(e, noise', qualifier, rows, Some(Binary(Candidate(qualifier, probe), And, x)), n)
         == Selected(e, noise, qualifier, rows, Some(x), n)
  {
    if n > 0 {
      CandidateKeepsSelection(e, noise, noise', qualifier, rows, n - 1, layout, x, column, probe, finite);
      CandidateKeepsRow(RowEnv(e, noise, qualifier, rows, n - 1), noise', layout, x, column, probe, finite);
    }
  }

  /** Every table with a layout holds rows whose reserved columns are exact. */
  ghost predicate Maintained(e: Engine, schemaOf: string -> seq<Field>, rowsOf: string -> seq<Row>) {
    forall name: string, row: Row ::
      InspectLayout(schemaOf(name)).Ok? && InspectLayout(schemaOf(name)).value.Some? && row in rowsOf(name)
      ==> Exact(e, InspectLayout(schemaOf(name)).value.value, row)
  }

  /** The query has a target whose reserved columns are incomplete, of other types, or without just one geometry. */
  predicate BadTarget(query: Query, schemaOf: string -> seq<Field>, finite: string -> bool) {
    var target := QueryTarget(QueryStatement(query), finite);
    target.Some? && InspectLayout(schemaOf(target.value.table)).Err?
  }

  /** Another WHERE that selects the same rows gives the same answer. */
  lemma SameAnswer<T>(
      e: Engine, noise: Noise, noise': Noise, rowsOf: string -> seq<Row>, query: Query, filter: Option<Expr>,
      finish: (Query, seq<nat>) -> T)
    requires SingleTable(query)
    requires var rows := rowsOf(LocalTable(query.body.from[0].relation.name).value);
      Selected(e, noise', Qualifier(query), rows, filter, |rows|)
      == Selected(e, noise, Qualifier(query), rows, query.body.selection, |rows|)
    ensures var sent := query.(body := query.body.(selection := filter));
      && SingleTable(sent)
      && Answer(e, noise', rowsOf, sent, finish) == Answer(e, noise, rowsOf, query, finish)
  {
    var sent := query.(body := query.body.(selection := filter));
    assert sent.(body := sent.body.(selection := None)) == query.(body := query.body.(selection := None));
  }

  /**
   The rewrite preserves meaning: for every single-table query the engine is sent either the query
   itself or one that differs in the WHERE only, and every continuation of the query (projection,
   grouping, order, limit) gives the same answer. `noise'` is any behaviour of the engine that
   agrees with `noise` on the occurrences of the original WHERE; on the added ones it is free. The
   query is refused exactly when its target table has an inconsistent layout.
   */
  lemma RewritePreservesAnswer<T>(
      e: Engine, noise: Noise, noise': Noise, schemaOf: string -> seq<Field>, rowsOf: string -> seq<Row>,
      query: Query, finish: (Query, seq<nat>) -> T, finite: string -> bool)
    requires Spatial(e) && Maintained(e, schemaOf, rowsOf)
    requires SingleTable(query)
    requires Relocated(noise, noise', [1])
    ensures PrepareQuery(QueryStatement(query), schemaOf, finite).Err? <==> BadTarget(query, schemaOf, finite)
    ensures match PrepareQuery(QueryStatement(query), schemaOf, finite)
      case Err(_) => true
      case Ok(sent) =>
        && sent.QueryStatement? && SingleTable(sent.query)
        && (sent.query == query
            || Answer(e, noise', rowsOf, sent.query, finish) == Answer(e, noise, rowsOf, query, finish))
  {
    var statement := QueryStatement(query);
    match PrepareQuery(statement, schemaOf, finite)
    case Err(_) =>
    case Ok(sent) =>
      if sent != statement {
        var target := QueryTarget(statement, finite).value;
        var layout := InspectLayout(schemaOf(target.table)).value.value;
        var rows := rowsOf(target.table);
        var x := query.body.selection.value;
        var found := MandatoryPredicates(x, Qualifier(query), finite);
        assert found == [(target.geometry, target.probe)];
        CandidateKeepsSelection(e, noise, noise', Qualifier(query), rows, |rows|, layout, x,
                                target.geometry, target.probe, finite);
        var filter := Some(Binary(Candidate(Qualifier(query), target.probe), And, x));
        SameAnswer(e, noise, noise', rowsOf, query, filter, finish);
        assert sent.query == query.(body := query.body.(selection := filter));
      }
  }

  // ---- What the engine reads ----------------------------------------------------------------------

  /** The query that the engine parses from the text: the AND at the top of the WHERE is read from the left. */
  function ReadBack(query: Query): Query
    requires query.body.Select?
  {
    match query.body.selection
    case Some(Binary(c, And, x)) => query.(body := query.body.(selection := Some(Reparsed(c, x))))
    case _ => query
  }

  lemma {:induction false} ReadBackSelects(
      e: Engine, noise: Noise, noise': Noise, qualifier: Ident, rows: seq<Row>, c: Expr, x: Expr, n: nat)
    requires n <= |rows| && FoundAgain(noise, noise', x, [0], [1], [])
    ensures Selected(e, noise', qualifier, rows, Some(Reparsed(c, x)), n)
         == Selected(e, noise, qualifier, rows, Some(Binary(c, And, x)), n)
  {
    if n > 0 {
      ReadBackSelects(e, noise, noise', qualifier, rows, c, x, n - 1);
      AndSurvivesPrinting(RowEnv(e, noise, qualifier, rows, n - 1), noise', c, x);
    }
  }

  lemma SentIsInjected(query: Query, schemaOf: string -> seq<Field>, finite: string -> bool) returns (c: Expr)
    requires PrepareQuery(QueryStatement(query), schemaOf, finite).Ok?
    requires PrepareQuery(QueryStatement(query), schemaOf, finite).value != QueryStatement(query)
    ensures query.body.Select? && query.body.selection.Some?
    ensures PrepareQuery(QueryStatement(query), schemaOf, finite).value
      == QueryStatement(query.(body := query.body.(selection := Some(Binary(c, And, query.body.selection.value)))))
  {
    var target := QueryTarget(QueryStatement(query), finite).value;
    c := Candidate(target.qualifier, target.probe);
  }

  /**
   And it survives the text: the engine, which reads what is printed, answers as written. `noise''` is its
   behaviour on the WHERE as it is read, `noise'` the same on the WHERE as it was built.
   */
  lemma ReadBackPreservesAnswer<T>(
      e: Engine, noise: Noise, noise': Noise, noise'': Noise, schemaOf: string -> seq<Field>,
      rowsOf: string -> seq<Row>, query: Query, finish: (Query, seq<nat>) -> T, finite: string -> bool)
    requires Spatial(e) && Maintained(e, schemaOf, rowsOf)
    requires SingleTable(query)
    requires Relocated(noise, noise', [1])
    requires query.body.selection.Some? ==> FoundAgain(noise', noise'', query.body.selection.value, [0], [1], [])
    ensures match PrepareQuery(QueryStatement(query), schemaOf, finite)
      case Err(_) => BadTarget(query, schemaOf, finite)
      case Ok(sent) =>
        && sent.QueryStatement? && SingleTable(sent.query) && SingleTable(ReadBack(sent.query))
        && (sent.query == query
            || Answer(e, noise'', rowsOf, ReadBack(sent.query), finish) == Answer(e, noise, rowsOf, query, finish))
  {
    RewritePreservesAnswer(e, noise, noise', schemaOf, rowsOf, query, finish, finite);
    var prepared := PrepareQuery(QueryStatement(query), schemaOf, finite);
    if prepared.Ok? && prepared.value != QueryStatement(query) {
      var sent := prepared.value.query;
      var c := SentIsInjected(query, schemaOf, finite);
      var x := query.body.selection.value;
      var rows := rowsOf(LocalTable(sent.body.from[0].relation.name).value);
      ReadBackSelects(e, noise', noise'', Qualifier(sent), rows, c, x, |rows|);
      SameAnswer(e, noise', noise'', rowsOf, sent, Some(Reparsed(c, x)), finish);
    }
  }
}
