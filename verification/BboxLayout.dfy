/** The reserved bounding-box columns of a table and what they must hold. */
module BboxLayout {
  import opened Wrappers
  import opened Sql

  datatype Field = Field(name: string, float64: bool, nullable: bool, geometry: bool)

  datatype Layout = Layout(geometry: string)

  datatype LayoutError = PartialLayout | NotNullableDouble | NotOneGeometry

  datatype Side = MinX | MinY | MaxX | MaxY

  function ReservedColumn(side: Side): string {
    match side
    case MinX => "_qg_minx"
    case MinY => "_qg_miny"
    case MaxX => "_qg_maxx"
    case MaxY => "_qg_maxy"
  }

  const SIDES: seq<Side> := [MinX, MinY, MaxX, MaxY]

  function Accessor(side: Side): Fn {
    match side
    case MinX => XMin
    case MinY => YMin
    case MaxX => XMax
    case MaxY => YMax
  }

  predicate HasField(schema: seq<Field>, name: string) {
    exists i :: 0 <= i < |schema| && schema[i].name == name
  }

  /** The engine keeps column names unique ignoring case, and a DOUBLE column is not a geometry. */
  ghost predicate WellFormed(schema: seq<Field>) {
    && (forall i, j :: 0 <= i < |schema| && 0 <= j < |schema| && Fold(schema[i].name) == Fold(schema[j].name) ==>
      i == j)
    && (forall i :: 0 <= i < |schema| ==> !(schema[i].float64 && schema[i].geometry))
  }

  function GeometryFields(schema: seq<Field>): (r: seq<Field>)
    ensures forall f :: f in r <==> f in schema && f.geometry
  {
    if schema == [] then []
    else (if schema[0].geometry then [schema[0]] else []) + GeometryFields(schema[1..])
  }

  /** No layout, a usable layout naming the one geometry column, or an error. */
  function InspectLayout(schema: seq<Field>): (r: Result<Option<Layout>, LayoutError>) {
    if forall side: Side :: !HasField(schema, ReservedColumn(side)) then Ok(None)
    else if exists side: Side :: !HasField(schema, ReservedColumn(side)) then Err(PartialLayout)
    else if exists side: Side, i ::
        0 <= i < |schema| && schema[i].name == ReservedColumn(side) && !(schema[i].float64 && schema[i].nullable)
    then Err(NotNullableDouble)
    else if |GeometryFields(schema)| != 1 then Err(NotOneGeometry)
    else Ok(Some(Layout(GeometryFields(schema)[0].name)))
  }

  lemma ReservedNames()
    ensures forall a: Side, b: Side :: ReservedColumn(a) == ReservedColumn(b) ==> a == b
    ensures forall a: Side :: Fold(ReservedColumn(a)) == ReservedColumn(a)
  {
    forall a: Side, b: Side ensures ReservedColumn(a) == ReservedColumn(b) ==> a == b {
      assert |ReservedColumn(a)| == |ReservedColumn(b)| == 8;
      var x, y := ReservedColumn(a), ReservedColumn(b);
      assert x == y ==> x[5] == y[5] && x[7] == y[7];
    }
  }

  // ---- What the columns mean ----------------------------------------------------------------

  /** One bound of the extent of a geometry value. */
  function Bound(e: Engine, side: Side, geometry: Val): Val {
    e.scalar(Accessor(side), [e.scalar(Extent, [geometry])])
  }

  /** The value a reserved column must hold beside the stored geometry `wkb`. */
  function StoredBound(e: Engine, side: Side, wkb: Val): Val {
    if wkb == VNull then VNull else Bound(e, side, e.scalar(GeomFromWkb, [wkb]))
  }

  /** The four reserved columns of the row are the extent of its geometry, all NULL beside NULL. */
  ghost predicate Exact(e: Engine, layout: Layout, row: Row) {
    var g := Fold(layout.geometry);
    && g in row
    && forall side: Side :: ReservedColumn(side) in row && row[ReservedColumn(side)] == StoredBound(e, side, row[g])
  }

  ghost predicate HasExtent(e: Engine, geometry: Val) {
    forall side: Side :: Bound(e, side, geometry).VNum?
  }

  ghost predicate Overlap(e: Engine, g: Val, p: Val) {
    && HasExtent(e, g) && HasExtent(e, p)
    && Bound(e, MaxX, g).r >= Bound(e, MinX, p).r
    && Bound(e, MinX, g).r <= Bound(e, MaxX, p).r
    && Bound(e, MaxY, g).r >= Bound(e, MinY, p).r
    && Bound(e, MinY, g).r <= Bound(e, MaxY, p).r
  }

  /**
   What is assumed of the engine: two geometries that intersect have extents that overlap, and
   the spatial functions return NULL on a NULL argument.
   */
  ghost predicate Spatial(e: Engine) {
    && (forall g: Val, p: Val :: e.scalar(Intersects, [g, p]) == VBool(true) ==> Overlap(e, g, p))
    && (forall fn: Fn, vs: seq<Val> :: VNull in vs ==> e.scalar(fn, vs) == VNull)
  }

  /** The generated accessor: CASE WHEN x IS NULL THEN NULL ELSE bound of the extent of x END. */
  function AccessorExpr(side: Side, x: Expr): Expr {
    CaseNull(x, MakeCall(Accessor(side), [MakeCall(Extent, [MakeCall(GeomFromWkb, [x])])]))
  }

  lemma EvalMadeCall(env: Env, fn: Fn, args: seq<Expr>, at: seq<nat>)
    ensures Eval(env, MakeCall(fn, args), at)
         == env.engine.scalar(fn, seq(|args|, i requires 0 <= i < |args| => Eval(env, args[i], at + [i])))
  {
    KnownByName(MakeCall(fn, args), fn);
  }

  lemma EvalUnaryCall(env: Env, fn: Fn, x: Expr, at: seq<nat>)
    ensures Eval(env, MakeCall(fn, [x]), at) == env.engine.scalar(fn, [Eval(env, x, at + [0])])
  {
    EvalMadeCall(env, fn, [x], at);
    assert seq(|[x]|, i requires 0 <= i < |[x]| => Eval(env, [x][i], at + [i])) == [Eval(env, x, at + [0])];
  }

  /** The generated accessor computes the bound, provided `x` has one value wherever it occurs. */
  lemma AccessorExprMeaning(env: Env, side: Side, x: Expr, v: Val, at: seq<nat>)
    requires forall p: seq<nat> :: Eval(env, x, p) == v
    ensures Eval(env, AccessorExpr(side, x), at) == StoredBound(env.engine, side, v)
  {
    var wkb := MakeCall(GeomFromWkb, [x]);
    var extent := MakeCall(Extent, [wkb]);
    EvalUnaryCall(env, Accessor(side), extent, at + [1]);
    EvalUnaryCall(env, Extent, wkb, (at + [1]) + [0]);
    EvalUnaryCall(env, GeomFromWkb, x, ((at + [1]) + [0]) + [0]);
  }
}
