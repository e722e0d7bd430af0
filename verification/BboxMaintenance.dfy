/**
 COPY, UPDATE, DELETE and INSERT on a table with reserved bounding-box columns: each is rewritten or
 refused so that the columns of every row stay the extent of its geometry.
 */
module BboxMaintenance {
  import opened Wrappers
  import opened Sql
  import opened BboxLayout
  import BboxQuery

  /** `targets = value`; a tuple target has several, and then the value is a row of values. */
  datatype Assignment = Assignment(targets: seq<seq<NamePart>>, value: Expr)

  datatype UpdateError = NotIdentifiers | AssignsReserved | GeometryNotOnce | UnstableGeometry

  // ---- Names ------------------------------------------------------------------------------------

  predicate Named(target: seq<NamePart>) {
    target != [] && target[|target| - 1].Part?
  }

  /** The folded column a named target assigns. */
  function Column(target: seq<NamePart>): string
    requires Named(target)
  {
    Fold(target[|target| - 1].ident.value)
  }

  predicate IsReserved(column: string) {
    exists side: Side :: column == Fold(ReservedColumn(side))
  }

  predicate Touches(a: Assignment, column: string) {
    exists j :: 0 <= j < |a.targets| && Named(a.targets[j]) && Column(a.targets[j]) == column
  }

  predicate StableUpdate(x: Expr) {
    match x
    case Null => true
    case Placeholder(text) => |text| > 1 && text[0] == '$' && BboxQuery.Digits(text[1..])
    case Cast(inner, _) => StableUpdate(inner)
    case Nested(inner) => StableUpdate(inner)
    case _ => false
  }

  // ---- The UPDATE rewrite -------------------------------------------------------------------------

  ghost predicate AdmissibleTarget(layout: Layout, a: Assignment, target: seq<NamePart>) {
    && Named(target)
    && !IsReserved(Column(target))
    && (Column(target) == Fold(layout.geometry) ==> |a.targets| == 1 && StableUpdate(a.value))
  }

  ghost predicate AdmissibleAssignment(layout: Layout, a: Assignment) {
    forall j :: 0 <= j < |a.targets| ==> AdmissibleTarget(layout, a, a.targets[j])
  }

  predicate TouchesGeometry(layout: Layout, a: Assignment) {
    Touches(a, Fold(layout.geometry))
  }

  /** Only plain columns, none of them reserved, and the geometry at most once, alone, from a stable value. */
  ghost predicate Admissible(layout: Layout, assignments: seq<Assignment>) {
    && (forall i :: 0 <= i < |assignments| ==> AdmissibleAssignment(layout, assignments[i]))
    && (forall i, k :: 0 <= i < k < |assignments| && TouchesGeometry(layout, assignments[i])
         ==> !TouchesGeometry(layout, assignments[k]))
  }

  function Single(column: string, value: Expr): Assignment {
    Assignment([[Part(Ident(column, true))]], value)
  }

  function Generated(value: Expr): seq<Assignment> {
    ForSides(side => AccessorExpr(side, value))
  }

  /** The value of the last assignment to the geometry, if there is one. */
  function GeometryValue(layout: Layout, assignments: seq<Assignment>): (r: Option<Expr>)
    ensures r.Some? ==> (
      exists i :: 0 <= i < |assignments| && TouchesGeometry(layout, assignments[i]) && r.value == assignments[i].value)
    ensures r.None? ==> forall i :: 0 <= i < |assignments| ==> !TouchesGeometry(layout, assignments[i])
  {
    if assignments == [] then None
    else
      var last := assignments[|assignments| - 1];
      if TouchesGeometry(layout, last) then Some(last.value)
      else GeometryValue(layout, assignments[..|assignments| - 1])
  }

  /** The assignment list that is sent: as written, plus the bounds of the new geometry when it has one. */
  function SentUpdate(layout: Layout, assignments: seq<Assignment>): seq<Assignment> {
    var geometry := GeometryValue(layout, assignments);
    if geometry.Some? then assignments + Generated(geometry.value) else assignments
  }

  /** The inner loop: one assignment, given whether an earlier one assigned the geometry. */
  method InspectAssignment(layout: Layout, a: Assignment, taken: bool) returns (r: Result<bool, UpdateError>)
    ensures r.Ok? <==> AdmissibleAssignment(layout, a) && !(taken && TouchesGeometry(layout, a))
    ensures r.Ok? ==> r.value == TouchesGeometry(layout, a)
  {
    var touches := false;
    for j := 0 to |a.targets|
      invariant forall k :: 0 <= k < j ==> AdmissibleTarget(layout, a, a.targets[k])
      invariant touches <==> exists k :: 0 <= k < j && Column(a.targets[k]) == Fold(layout.geometry)
      invariant touches ==> !taken && j == 1 == |a.targets|
    {
      var target := a.targets[j];
      if !Named(target) { return Err(NotIdentifiers); }
      if IsReserved(Column(target)) { return Err(AssignsReserved); }
      if Column(target) == Fold(layout.geometry) {
        assert TouchesGeometry(layout, a);
        if |a.targets| != 1 || taken || touches { return Err(GeometryNotOnce); }
        if !StableUpdate(a.value) { return Err(UnstableGeometry); }
        touches := true;
      }
    }
    r := Ok(touches);
  }

  /** Refuses exactly the inadmissible lists and otherwise appends the generated assignments. */
  method RewriteUpdate(layout: Layout, assignments: seq<Assignment>)
    returns (r: Result<seq<Assignment>, UpdateError>)
    ensures r.Ok? <==> Admissible(layout, assignments)
    ensures r.Ok? ==> r.value == SentUpdate(layout, assignments)
  {
    var geometry := None;
    for i := 0 to |assignments|
      invariant Admissible(layout, assignments[..i])
      invariant geometry == GeometryValue(layout, assignments[..i])
    {
      var inspected := InspectAssignment(layout, assignments[i], geometry.Some?);
      if inspected.Err? { return Err(inspected.error); }
      if inspected.value { geometry := Some(assignments[i].value); }
      assert assignments[..i + 1] == assignments[..i] + [assignments[i]];
      assert assignments[..i + 1][..i] == assignments[..i];
    }
    assert assignments[..|assignments|] == assignments;
    if geometry.None? {
      r := Ok(assignments);
    } else {
      r := Ok(assignments + Generated(geometry.value));
    }
  }

  // ---- What an assignment list does to a row ------------------------------------------------------

  function TargetValue(env: Env, a: Assignment, i: nat, j: nat): Val {
    var value := Eval(env, a.value, [i]);
    if |a.targets| == 1 then value else env.noise(env.position, [i, j], [value])
  }

  function AssignTargets(env: Env, row: Row, a: Assignment, i: nat, n: nat): Row
    requires n <= |a.targets|
  {
    if n == 0 then row
    else
      var before := AssignTargets(env, row, a, i, n - 1);
      if Named(a.targets[n - 1]) then before[Column(a.targets[n - 1]) := TargetValue(env, a, i, n - 1)] else before
  }

  /** `base` after the first `n` assignments, every value computed on the row of `env`. */
  function Assign(env: Env, base: Row, assignments: seq<Assignment>, n: nat): Row
    requires n <= |assignments|
  {
    if n == 0 then base
    else
      var a := assignments[n - 1];
      AssignTargets(env, Assign(env, base, assignments, n - 1), a, n - 1, |a.targets|)
  }

  /** The two rows agree on a column. */
  ghost predicate SameAt(a: Row, b: Row, column: string) {
    (column in a <==> column in b) && (column in a ==> a[column] == b[column])
  }

  lemma {:induction false} TargetsUntouched(env: Env, row: Row, a: Assignment, i: nat, n: nat, column: string)
    requires n <= |a.targets| && !Touches(a, column)
    ensures SameAt(AssignTargets(env, row, a, i, n), row, column)
  {
    if n > 0 { TargetsUntouched(env, row, a, i, n - 1, column); }
  }

  /** A column none of the assignments from the m-th to the n-th names keeps its value. */
  lemma {:induction false} Untouched(env: Env, base: Row, assignments: seq<Assignment>, m: nat, n: nat, column: string)
    requires m <= n <= |assignments| && forall k :: m <= k < n ==> !Touches(assignments[k], column)
    ensures SameAt(Assign(env, base, assignments, n), Assign(env, base, assignments, m), column)
  {
    if m < n {
      Untouched(env, base, assignments, m, n - 1, column);
      var a := assignments[n - 1];
      TargetsUntouched(env, Assign(env, base, assignments, n - 1), a, n - 1, |a.targets|, column);
    }
  }

  /** A column named by one single-target assignment gets exactly that value. */
  lemma TouchedOnce(env: Env, base: Row, assignments: seq<Assignment>, n: nat, i: nat, column: string)
    requires i < n <= |assignments|
    requires |assignments[i].targets| == 1 && Touches(assignments[i], column)
    requires forall k :: i < k < n ==> !Touches(assignments[k], column)
    ensures column in Assign(env, base, assignments, n)
    ensures Assign(env, base, assignments, n)[column] == Eval(env, assignments[i].value, [i])
  {
    Untouched(env, base, assignments, i + 1, n, column);
    var a, row := assignments[i], Assign(env, base, assignments, i);
    assert AssignTargets(env, row, a, i, 1) == AssignTargets(env, row, a, i, 0)[column := TargetValue(env, a, i, 0)];
  }

  lemma {:induction false} AssignPrefix(env: Env, base: Row, before: seq<Assignment>, extra: seq<Assignment>, n: nat)
    requires n <= |before|
    ensures Assign(env, base, before + extra, n) == Assign(env, base, before, n)
  {
    if n > 0 { AssignPrefix(env, base, before, extra, n - 1); }
  }

  function SideIndex(side: Side): (i: nat)
    ensures i < 4
  {
    match side case MinX => 0 case MinY => 1 case MaxX => 2 case MaxY => 3
  }

  function ForSides(valueOf: Side -> Expr): (r: seq<Assignment>)
    ensures |r| == 4 && forall side: Side :: r[SideIndex(side)] == Single(ReservedColumn(side), valueOf(side))
  {
    [Single(ReservedColumn(MinX), valueOf(MinX)), Single(ReservedColumn(MinY), valueOf(MinY)),
     Single(ReservedColumn(MaxX), valueOf(MaxX)), Single(ReservedColumn(MaxY), valueOf(MaxY))]
  }

  lemma SingleTouches(column: string, value: Expr, other: string)
    ensures Touches(Single(column, value), other) <==> Fold(column) == other
  {
    if Fold(column) == other { assert Column(Single(column, value).targets[0]) == other; }
  }

  lemma SidesTouch(valueOf: Side -> Expr, k: nat, column: string)
    requires k < 4
    ensures Touches(ForSides(valueOf)[k], column) ==>
      exists side: Side :: SideIndex(side) == k && column == ReservedColumn(side)
  {
    ReservedNames();
    var side := if k == 0 then MinX else if k == 1 then MinY else if k == 2 then MaxX else MaxY;
    assert SideIndex(side) == k;
    SingleTouches(ReservedColumn(side), valueOf(side), column);
  }

  /** Appending the four reserved assignments sets those columns. */
  lemma AppendSides(env: Env, base: Row, before: seq<Assignment>, valueOf: Side -> Expr, side: Side)
    ensures var after := before + ForSides(valueOf);
      && ReservedColumn(side) in Assign(env, base, after, |after|)
      && Assign(env, base, after, |after|)[ReservedColumn(side)]
        == Eval(env, valueOf(side), [|before| + SideIndex(side)])
  {
    var after := before + ForSides(valueOf);
    ReservedNames();
    var i := |before| + SideIndex(side);
    assert after[i] == ForSides(valueOf)[SideIndex(side)];
    SingleTouches(ReservedColumn(side), valueOf(side), ReservedColumn(side));
    forall k | i < k < |after| ensures !Touches(after[k], ReservedColumn(side)) {
      LaterSides(before, valueOf, side, k);
    }
    TouchedOnce(env, base, after, |after|, i, ReservedColumn(side));
  }

  lemma LaterSides(before: seq<Assignment>, valueOf: Side -> Expr, side: Side, k: nat)
    requires |before| + SideIndex(side) < k < |before| + 4
    ensures !Touches((before + ForSides(valueOf))[k], ReservedColumn(side))
  {
    ReservedNames();
    assert (before + ForSides(valueOf))[k] == ForSides(valueOf)[k - |before|];
    SidesTouch(valueOf, k - |before|, ReservedColumn(side));
  }

  /** Appending the four reserved assignments changes no other column. */
  lemma AppendSidesElsewhere(env: Env, base: Row, before: seq<Assignment>, valueOf: Side -> Expr, column: string)
    requires !IsReserved(column)
    ensures var after := before + ForSides(valueOf);
      SameAt(Assign(env, base, after, |after|), Assign(env, base, before, |before|), column)
  {
    var after := before + ForSides(valueOf);
    ReservedNames();
    forall k | |before| <= k < |after| ensures !Touches(after[k], column) {
      assert after[k] == ForSides(valueOf)[k - |before|];
      SidesTouch(valueOf, k - |before|, column);
    }
    Untouched(env, base, after, |before|, |after|, column);
    AssignPrefix(env, base, before, ForSides(valueOf), |before|);
  }

  // ---- UPDATE keeps the columns exact ---------------------------------------------------------------

  lemma {:induction false} StableUpdateValue(x: Expr, env: Env, p: seq<nat>, q: seq<nat>)
    requires StableUpdate(x)
    ensures Eval(env, x, p) == Eval(env, x, q)
  {
    match x
    case Null =>
    case Placeholder(_) =>
    case Cast(inner, _) => StableUpdateValue(inner, env, p + [0], q + [0]);
    case Nested(inner) => StableUpdateValue(inner, env, p + [0], q + [0]);
  }

  lemma NoReserved(layout: Layout, assignments: seq<Assignment>, n: nat, side: Side)
    requires Admissible(layout, assignments) && n <= |assignments|
    ensures forall k :: 0 <= k < n ==> !Touches(assignments[k], ReservedColumn(side))
  {
    ReservedNames();
    forall k | 0 <= k < n ensures !Touches(assignments[k], ReservedColumn(side)) {
      assert AdmissibleAssignment(layout, assignments[k]);
      assert IsReserved(ReservedColumn(side));
    }
  }

  lemma GeometryUpdateKeepsExact(env: Env, layout: Layout, before: seq<Assignment>, i: nat)
    requires Admissible(layout, before)
    requires i < |before| && TouchesGeometry(layout, before[i])
    requires !IsReserved(Fold(layout.geometry))
    ensures var after := before + Generated(before[i].value);
      Exact(env.engine, layout, Assign(env, env.row, after, |after|))
  {
    var g, x := Fold(layout.geometry), before[i].value;
    var valueOf := side => AccessorExpr(side, x);
    var after := before + ForSides(valueOf);
    var sent := Assign(env, env.row, after, |after|);
    assert AdmissibleAssignment(layout, before[i]);
    assert |before[i].targets| == 1 && StableUpdate(x);
    forall k | i < k < |before| ensures !Touches(before[k], g) {
      assert !TouchesGeometry(layout, before[k]);
    }
    TouchedOnce(env, env.row, before, |before|, i, g);
    AppendSidesElsewhere(env, env.row, before, valueOf, g);
    var v := Eval(env, x, [i]);
    forall p: seq<nat> ensures Eval(env, x, p) == v { StableUpdateValue(x, env, p, [i]); }
    forall side: Side
      ensures ReservedColumn(side) in sent && sent[ReservedColumn(side)] == StoredBound(env.engine, side, sent[g])
    {
      AppendSides(env, env.row, before, valueOf, side);
      AccessorExprMeaning(env, side, x, v, [|before| + SideIndex(side)]);
    }
    assert Generated(x) == ForSides(valueOf);
  }

  lemma OtherUpdateKeepsExact(env: Env, layout: Layout, before: seq<Assignment>)
    requires Admissible(layout, before)
    requires forall i :: 0 <= i < |before| ==> !TouchesGeometry(layout, before[i])
    requires Exact(env.engine, layout, env.row)
    ensures Exact(env.engine, layout, Assign(env, env.row, before, |before|))
  {
    var g := Fold(layout.geometry);
    forall k | 0 <= k < |before| ensures !Touches(before[k], g) { assert !TouchesGeometry(layout, before[k]); }
    Untouched(env, env.row, before, 0, |before|, g);
    forall side: Side ensures SameAt(Assign(env, env.row, before, |before|), env.row, ReservedColumn(side)) {
      NoReserved(layout, before, |before|, side);
      Untouched(env, env.row, before, 0, |before|, ReservedColumn(side));
    }
  }

  /** An admitted UPDATE leaves the reserved columns of a row exact. */
  lemma UpdateKeepsExact(env: Env, layout: Layout, assignments: seq<Assignment>)
    requires Admissible(layout, assignments)
    requires Exact(env.engine, layout, env.row) && !IsReserved(Fold(layout.geometry))
    ensures var sent := SentUpdate(layout, assignments);
      Exact(env.engine, layout, Assign(env, env.row, sent, |sent|))
  {
    var geometry := GeometryValue(layout, assignments);
    if geometry.Some? {
      var i :| 0 <= i < |assignments| && TouchesGeometry(layout, assignments[i])
        && geometry.value == assignments[i].value;
      GeometryUpdateKeepsExact(env, layout, assignments, i);
    } else {
      OtherUpdateKeepsExact(env, layout, assignments);
    }
  }

  /** Apart from the reserved columns, the UPDATE that is sent does what the one written does. */
  lemma UpdateKeepsWrittenColumns(env: Env, layout: Layout, assignments: seq<Assignment>, column: string)
    requires !IsReserved(column)
    ensures var sent := SentUpdate(layout, assignments);
      SameAt(Assign(env, env.row, sent, |sent|), Assign(env, env.row, assignments, |assignments|), column)
  {
    var geometry := GeometryValue(layout, assignments);
    if geometry.Some? {
      AppendSidesElsewhere(env, env.row, assignments, side => AccessorExpr(side, geometry.value), column);
    }
  }

  // ---- COPY ---------------------------------------------------------------------------------------

  datatype CopyError = UnknownColumn | SuppliesReserved | BadLayout(error: LayoutError)

  function FindField(schema: seq<Field>, name: string): (r: Option<Field>)
    ensures r.Some? <==> HasField(schema, name)
    ensures r.Some? ==> r.value in schema && r.value.name == name
  {
    if schema == [] then None
    else if schema[0].name == name then Some(schema[0])
    else FindField(schema[1..], name)
  }

  /** The input fields of COPY t(columns): the target's own fields, by exact name. */
  function CopyFields(schema: seq<Field>, columns: seq<string>): (r: Option<seq<Field>>)
    ensures r.Some? <==> forall name :: name in columns ==> HasField(schema, name)
    ensures r.Some? ==> forall f :: f in r.value ==> f in schema
  {
    if columns == [] then Some([])
    else
      var first, rest := FindField(schema, columns[0]), CopyFields(schema, columns[1..]);
      if first.Some? && rest.Some? then Some([first.value] + rest.value) else None
  }

  function InputColumns(input: seq<Field>): (r: seq<Assignment>)
    ensures |r| == |input|
  {
    seq(|input|, i requires 0 <= i < |input| => Single(input[i].name, Identifier(Ident(input[i].name, true))))
  }

  /** The columns the publishing INSERT names, each with its value over the staged row. */
  function PublishProjection(schema: seq<Field>, input: seq<Field>): Result<seq<Assignment>, CopyError> {
    match InspectLayout(schema)
    case Err(error) => Err(BadLayout(error))
    case Ok(None) => Ok(InputColumns(input))
    case Ok(Some(layout)) =>
      if exists side: Side :: HasField(input, ReservedColumn(side)) then Err(SuppliesReserved)
      else
        var found := FindField(input, layout.geometry);
        if found.Some? && found.value.geometry
        then Ok(InputColumns(input) + ForSides(side => AccessorExpr(side, Identifier(Ident(layout.geometry, true)))))
        else Ok(InputColumns(input) + ForSides(side => Null))
  }

  function EmptyRow(schema: seq<Field>): Row {
    map f | f in schema :: Fold(f.name) := VNull
  }

  /** The row the publishing INSERT adds for the staged row of `env`; unnamed columns are NULL. */
  function PublishedRow(env: Env, schema: seq<Field>, projection: seq<Assignment>): Row {
    Assign(env, EmptyRow(schema), projection, |projection|)
  }

  /** The engine refuses an INSERT that names a column twice. */
  predicate DistinctColumns(input: seq<Field>) {
    forall i, j :: 0 <= i < j < |input| ==> Fold(input[i].name) != Fold(input[j].name)
  }

  predicate StagedRow(input: seq<Field>, row: Row) {
    forall f :: f in input ==> Fold(f.name) in row
  }

  lemma LayoutGeometry(schema: seq<Field>, layout: Layout)
    requires WellFormed(schema) && InspectLayout(schema) == Ok(Some(layout))
    ensures exists f :: f in schema && f.geometry && f.name == layout.geometry
    ensures !IsReserved(Fold(layout.geometry))
  {
    var f := GeometryFields(schema)[0];
    assert f in GeometryFields(schema);
    forall side: Side ensures Fold(layout.geometry) != Fold(ReservedColumn(side)) {
      assert HasField(schema, ReservedColumn(side));
    }
  }

  lemma InputTouches(input: seq<Field>, column: string, i: nat)
    requires i < |input|
    ensures Touches(InputColumns(input)[i], column) <==> Fold(input[i].name) == column
  {
    SingleTouches(input[i].name, Identifier(Ident(input[i].name, true)), column);
  }

  lemma CopyWithGeometry(env: Env, layout: Layout, base: Row, input: seq<Field>, i: nat)
    requires DistinctColumns(input) && StagedRow(input, env.row) && !IsReserved(Fold(layout.geometry))
    requires i < |input| && input[i].name == layout.geometry
    ensures var all := InputColumns(input)
      + ForSides(side => AccessorExpr(side, Identifier(Ident(layout.geometry, true))));
      Exact(env.engine, layout, Assign(env, base, all, |all|))
  {
    var g, before, x := Fold(layout.geometry), InputColumns(input), Identifier(Ident(layout.geometry, true));
    var valueOf := side => AccessorExpr(side, x);
    var all := before + ForSides(valueOf);
    var published := Assign(env, base, all, |all|);
    InputTouches(input, g, i);
    forall k | i < k < |before| ensures !Touches(before[k], g) { InputTouches(input, g, k); }
    TouchedOnce(env, base, before, |before|, i, g);
    AppendSidesElsewhere(env, base, before, valueOf, g);
    forall side: Side
      ensures ReservedColumn(side) in published
        && published[ReservedColumn(side)] == StoredBound(env.engine, side, published[g])
    {
      AppendSides(env, base, before, valueOf, side);
      AccessorExprMeaning(env, side, x, env.row[g], [|before| + SideIndex(side)]);
    }
  }

  lemma CopyWithoutGeometry(env: Env, layout: Layout, base: Row, input: seq<Field>)
    requires !IsReserved(Fold(layout.geometry))
    requires Fold(layout.geometry) in base && base[Fold(layout.geometry)] == VNull
    requires forall i :: 0 <= i < |input| ==> Fold(input[i].name) != Fold(layout.geometry)
    ensures var all := InputColumns(input) + ForSides(side => Null);
      Exact(env.engine, layout, Assign(env, base, all, |all|))
  {
    var g, before := Fold(layout.geometry), InputColumns(input);
    var valueOf := (side: Side) => Null;
    var all := before + ForSides(valueOf);
    var published := Assign(env, base, all, |all|);
    forall k | 0 <= k < |before| ensures !Touches(before[k], g) { InputTouches(input, g, k); }
    Untouched(env, base, before, 0, |before|, g);
    AppendSidesElsewhere(env, base, before, valueOf, g);
    forall side: Side ensures ReservedColumn(side) in published && published[ReservedColumn(side)] == VNull {
      AppendSides(env, base, before, valueOf, side);
    }
  }

  /** Every row COPY publishes has exact reserved columns. */
  lemma CopyKeepsExact(env: Env, schema: seq<Field>, layout: Layout, columns: seq<string>, input: seq<Field>)
    requires WellFormed(schema) && InspectLayout(schema) == Ok(Some(layout))
    requires CopyFields(schema, columns) == Some(input) && DistinctColumns(input) && StagedRow(input, env.row)
    requires PublishProjection(schema, input).Ok?
    ensures Exact(env.engine, layout, PublishedRow(env, schema, PublishProjection(schema, input).value))
  {
    LayoutGeometry(schema, layout);
    var found := FindField(input, layout.geometry);
    if found.Some? && found.value.geometry {
      var i :| 0 <= i < |input| && input[i] == found.value;
      CopyWithGeometry(env, layout, EmptyRow(schema), input, i);
    } else {
      forall i | 0 <= i < |input| ensures Fold(input[i].name) != Fold(layout.geometry) {
        OnlyGeometry(schema, layout, input[i]);
      }
      CopyWithoutGeometry(env, layout, EmptyRow(schema), input);
    }
  }

  lemma InputPublished(env: Env, base: Row, input: seq<Field>, i: nat)
    requires DistinctColumns(input) && StagedRow(input, env.row) && i < |input|
    ensures var c, row := Fold(input[i].name), Assign(env, base, InputColumns(input), |InputColumns(input)|);
      c in row && row[c] == env.row[c]
  {
    var c, before := Fold(input[i].name), InputColumns(input);
    InputTouches(input, c, i);
    forall k | i < k < |before| ensures !Touches(before[k], c) { InputTouches(input, c, k); }
    TouchedOnce(env, base, before, |before|, i, c);
  }

  lemma ProjectionShape(schema: seq<Field>, input: seq<Field>, projection: seq<Assignment>)
    returns (valueOf: Side -> Expr)
    requires PublishProjection(schema, input) == Ok(projection)
    ensures projection == InputColumns(input) || projection == InputColumns(input) + ForSides(valueOf)
  {
    var found := InspectLayout(schema);
    valueOf := side => Null;
    if found.value.Some? {
      var geometry := FindField(input, found.value.value.geometry);
      if geometry.Some? && geometry.value.geometry {
        valueOf := side => AccessorExpr(side, Identifier(Ident(found.value.value.geometry, true)));
      }
    }
  }

  /** Outside the reserved columns the published row is what the input columns make of it. */
  lemma PublishedElsewhere(env: Env, schema: seq<Field>, input: seq<Field>, projection: seq<Assignment>, column: string)
    requires PublishProjection(schema, input) == Ok(projection) && !IsReserved(column)
    ensures SameAt(PublishedRow(env, schema, projection), Assign(env, EmptyRow(schema), InputColumns(input), |input|),
        column)
  {
    var valueOf := ProjectionShape(schema, input, projection);
    ShapeElsewhere(env, EmptyRow(schema), InputColumns(input), projection, valueOf, column);
  }

  lemma ShapeElsewhere(
      env: Env, base: Row, before: seq<Assignment>, projection: seq<Assignment>, valueOf: Side -> Expr, column: string)
    requires !IsReserved(column) && (projection == before || projection == before + ForSides(valueOf))
    ensures SameAt(Assign(env, base, projection, |projection|), Assign(env, base, before, |before|), column)
  {
    AppendSidesElsewhere(env, base, before, valueOf, column);
  }

  /** COPY publishes every other column as it was staged. */
  lemma CopyPublishesInput(env: Env, schema: seq<Field>, input: seq<Field>, projection: seq<Assignment>, i: nat)
    requires DistinctColumns(input) && StagedRow(input, env.row) && PublishProjection(schema, input) == Ok(projection)
    requires i < |input| && !IsReserved(Fold(input[i].name))
    ensures var c, row := Fold(input[i].name), PublishedRow(env, schema, projection);
      c in row && row[c] == env.row[c]
  {
    InputPublished(env, EmptyRow(schema), input, i);
    PublishedElsewhere(env, schema, input, projection, Fold(input[i].name));
  }

  /** And a column that COPY does not name is NULL. */
  lemma CopyLeavesOthersNull(env: Env, schema: seq<Field>, input: seq<Field>, projection: seq<Assignment>, f: Field)
    requires PublishProjection(schema, input) == Ok(projection) && f in schema && !IsReserved(Fold(f.name))
    requires forall i :: 0 <= i < |input| ==> Fold(input[i].name) != Fold(f.name)
    ensures var row := PublishedRow(env, schema, projection);
      Fold(f.name) in row && row[Fold(f.name)] == VNull
  {
    var c, before := Fold(f.name), InputColumns(input);
    forall k | 0 <= k < |before| ensures !Touches(before[k], c) { InputTouches(input, c, k); }
    Untouched(env, EmptyRow(schema), before, 0, |before|, c);
    PublishedElsewhere(env, schema, input, projection, c);
  }

  lemma OnlyGeometry(schema: seq<Field>, layout: Layout, f: Field)
    requires WellFormed(schema) && InspectLayout(schema) == Ok(Some(layout)) && f in schema
    ensures Fold(f.name) == Fold(layout.geometry) ==> f.name == layout.geometry && f.geometry
  {
    LayoutGeometry(schema, layout);
  }

  // ---- Whole runs -----------------------------------------------------------------------------------

  datatype Operation =
    | Copy(columns: seq<string>, staged: seq<Row>)
    | Update(assignments: seq<Assignment>, filter: Option<Expr>)
    | Delete(filter: Option<Expr>)
    | Insert(added: seq<Row>)

  /** One statement on the table: the operation, the name it uses and the engine's volatile behaviour. */
  datatype Step = Step(operation: Operation, table: Ident, noise: Noise)

  predicate Hit(env: Env, filter: Option<Expr>) {
    filter.None? || Eval(env, filter.value, []) == VBool(true)
  }

  function CopyRows(e: Engine, step: Step, schema: seq<Field>, projection: seq<Assignment>,
      staged: seq<Row>): seq<Row> {
    seq(|staged|, i requires 0 <= i < |staged| =>
      PublishedRow(Env(e, step.noise, step.table, staged[i], i), schema, projection))
  }

  function UpdateRows(e: Engine, step: Step, rows: seq<Row>, sent: seq<Assignment>, filter: Option<Expr>): seq<Row> {
    seq(|rows|, i requires 0 <= i < |rows| =>
      var env := Env(e, step.noise, step.table, rows[i], i);
      if Hit(env, filter) then Assign(env, rows[i], sent, |sent|) else rows[i])
  }

  function DeleteRows(e: Engine, step: Step, rows: seq<Row>, filter: Option<Expr>, n: nat): seq<Row>
    requires n <= |rows|
  {
    if n == 0 then []
    else
      var kept := DeleteRows(e, step, rows, filter, n - 1);
      if Hit(Env(e, step.noise, step.table, rows[n - 1], n - 1), filter) then kept else kept + [rows[n - 1]]
  }

  /** The table after one statement; a refused statement changes nothing. */
  ghost function Perform(e: Engine, schema: seq<Field>, rows: seq<Row>, step: Step): seq<Row> {
    var layout := InspectLayout(schema);
    match step.operation
    case Copy(columns, staged) =>
      var input := CopyFields(schema, columns);
      if input.None? || !DistinctColumns(input.value) || PublishProjection(schema, input.value).Err?
         || exists row :: row in staged && !StagedRow(input.value, row)
      then rows
      else
        rows + CopyRows(e, step, schema, PublishProjection(schema, input.value).value, staged)
    case Update(assignments, filter) =>
      if layout.Err? || (layout.value.Some? && !Admissible(layout.value.value, assignments)) then rows
      else
        var sent := if layout.value.Some? then SentUpdate(layout.value.value, assignments) else assignments;
        UpdateRows(e, step, rows, sent, filter)
    case Delete(filter) => DeleteRows(e, step, rows, filter, |rows|)
    case Insert(added) => if layout == Ok(None) then rows + added else rows
  }

  ghost function Run(e: Engine, schema: seq<Field>, steps: seq<Step>): seq<Row> {
    if steps == [] then []
    else Perform(e, schema, Run(e, schema, steps[..|steps| - 1]), steps[|steps| - 1])
  }

  ghost predicate AllExact(e: Engine, layout: Layout, rows: seq<Row>) {
    forall i :: 0 <= i < |rows| ==> Exact(e, layout, rows[i])
  }

  lemma {:induction false} DeleteKeepsExact(e: Engine, layout: Layout, step: Step, rows: seq<Row>, filter: Option<Expr>,
      n: nat)
    requires n <= |rows| && AllExact(e, layout, rows)
    ensures AllExact(e, layout, DeleteRows(e, step, rows, filter, n))
  {
    if n > 0 { DeleteKeepsExact(e, layout, step, rows, filter, n - 1); }
  }

  lemma CopyRowsExact(e: Engine, schema: seq<Field>, layout: Layout, step: Step, columns: seq<string>, staged: seq<Row>)
    requires WellFormed(schema) && InspectLayout(schema) == Ok(Some(layout))
    requires CopyFields(schema, columns).Some? && DistinctColumns(CopyFields(schema, columns).value)
    requires forall row :: row in staged ==> StagedRow(CopyFields(schema, columns).value, row)
    requires PublishProjection(schema, CopyFields(schema, columns).value).Ok?
    ensures AllExact(e, layout,
        CopyRows(e, step, schema, PublishProjection(schema, CopyFields(schema, columns).value).value, staged))
  {
    forall i | 0 <= i < |staged|
      ensures Exact(e, layout, CopyRows(e, step, schema,
          PublishProjection(schema, CopyFields(schema, columns).value).value, staged)[i])
    {
      CopyKeepsExact(Env(e, step.noise, step.table, staged[i], i), schema, layout, columns,
          CopyFields(schema, columns).value);
    }
  }

  lemma UpdateRowsExact(e: Engine, layout: Layout, step: Step, rows: seq<Row>, assignments: seq<Assignment>,
      filter: Option<Expr>)
    requires Admissible(layout, assignments) && AllExact(e, layout, rows) && !IsReserved(Fold(layout.geometry))
    ensures AllExact(e, layout, UpdateRows(e, step, rows, SentUpdate(layout, assignments), filter))
  {
    forall i | 0 <= i < |rows|
      ensures Exact(e, layout, UpdateRows(e, step, rows, SentUpdate(layout, assignments), filter)[i])
    {
      UpdateKeepsExact(Env(e, step.noise, step.table, rows[i], i), layout, assignments);
    }
  }

  lemma PerformKeepsExact(e: Engine, schema: seq<Field>, layout: Layout, rows: seq<Row>, step: Step)
    requires WellFormed(schema) && InspectLayout(schema) == Ok(Some(layout)) && AllExact(e, layout, rows)
    ensures AllExact(e, layout, Perform(e, schema, rows, step))
  {
    LayoutGeometry(schema, layout);
    if Perform(e, schema, rows, step) != rows {
      match step.operation
      case Copy(columns, staged) => CopyRowsExact(e, schema, layout, step, columns, staged);
      case Update(assignments, filter) => UpdateRowsExact(e, layout, step, rows, assignments, filter);
      case Delete(filter) => DeleteKeepsExact(e, layout, step, rows, filter, |rows|);
      case Insert(_) =>
    }
  }

  /** Every run of COPY, UPDATE, DELETE and INSERT statements keeps the reserved columns exact. */
  lemma {:induction false} RunKeepsExact(e: Engine, schema: seq<Field>, layout: Layout, steps: seq<Step>)
    requires WellFormed(schema) && InspectLayout(schema) == Ok(Some(layout))
    ensures AllExact(e, layout, Run(e, schema, steps))
  {
    if steps != [] {
      RunKeepsExact(e, schema, layout, steps[..|steps| - 1]);
      PerformKeepsExact(e, schema, layout, Run(e, schema, steps[..|steps| - 1]), steps[|steps| - 1]);
    }
  }

  lemma HistoryMaintains(
      e: Engine, schemaOf: string -> seq<Field>, historyOf: string -> seq<Step>, rowsOf: string -> seq<Row>)
    requires forall name: string :: WellFormed(schemaOf(name))
    requires forall name: string :: rowsOf(name) == Run(e, schemaOf(name), historyOf(name))
    ensures BboxQuery.Maintained(e, schemaOf, rowsOf)
  {
    forall name: string, row: Row |
        InspectLayout(schemaOf(name)).Ok? && InspectLayout(schemaOf(name)).value.Some? && row in rowsOf(name)
      ensures Exact(e, InspectLayout(schemaOf(name)).value.value, row)
    {
      RunKeepsExact(e, schemaOf(name), InspectLayout(schemaOf(name)).value.value, historyOf(name));
    }
  }

  /**
   End to end: after any history of statements on every table, every single-table query still
   gets the answer it asks for, although the engine is sent the rewritten one.
   */
  lemma QueriesAnswerAsWritten<T>(
      e: Engine, schemaOf: string -> seq<Field>, historyOf: string -> seq<Step>,
      noise: Noise, noise': Noise, query: BboxQuery.Query, finish: (BboxQuery.Query, seq<nat>) -> T,
      finite: string -> bool)
    requires Spatial(e) && forall name: string :: WellFormed(schemaOf(name))
    requires BboxQuery.SingleTable(query) && Relocated(noise, noise', [1])
    ensures BboxQuery.PrepareQuery(BboxQuery.QueryStatement(query), schemaOf, finite).Err?
      <==> BboxQuery.BadTarget(query, schemaOf, finite)
    ensures match BboxQuery.PrepareQuery(BboxQuery.QueryStatement(query), schemaOf, finite)
      case Err(_) => true
      case Ok(sent) =>
        var rowsOf := (name: string) => Run(e, schemaOf(name), historyOf(name));
        && sent.QueryStatement? && BboxQuery.SingleTable(sent.query)
        && (sent.query == query
            || BboxQuery.Answer(e, noise', rowsOf, sent.query, finish)
              == BboxQuery.Answer(e, noise, rowsOf, query, finish))
  {
    var rowsOf := (name: string) => Run(e, schemaOf(name), historyOf(name));
    HistoryMaintains(e, schemaOf, historyOf, rowsOf);
    BboxQuery.RewritePreservesAnswer(e, noise, noise', schemaOf, rowsOf, query, finish, finite);
  }

  /** So it does when the engine reads the rewritten query from its text. */
  lemma QueriesAnswerAsRead<T>(
      e: Engine, schemaOf: string -> seq<Field>, historyOf: string -> seq<Step>,
      noise: Noise, noise': Noise, noise'': Noise, query: BboxQuery.Query,
      finish: (BboxQuery.Query, seq<nat>) -> T, finite: string -> bool)
    requires Spatial(e) && forall name: string :: WellFormed(schemaOf(name))
    requires BboxQuery.SingleTable(query) && Relocated(noise, noise', [1])
    requires query.body.selection.Some? ==> FoundAgain(noise', noise'', query.body.selection.value, [0], [1], [])
    ensures match BboxQuery.PrepareQuery(BboxQuery.QueryStatement(query), schemaOf, finite)
      case Err(_) => BboxQuery.BadTarget(query, schemaOf, finite)
      case Ok(sent) =>
        var rowsOf := (name: string) => Run(e, schemaOf(name), historyOf(name));
        && sent.QueryStatement? && BboxQuery.SingleTable(sent.query)
        && BboxQuery.SingleTable(BboxQuery.ReadBack(sent.query))
        && (sent.query == query
            || BboxQuery.Answer(e, noise'', rowsOf, BboxQuery.ReadBack(sent.query), finish)
              == BboxQuery.Answer(e, noise, rowsOf, query, finish))
  {
    var rowsOf := (name: string) => Run(e, schemaOf(name), historyOf(name));
    HistoryMaintains(e, schemaOf, historyOf, rowsOf);
    BboxQuery.ReadBackPreservesAnswer(e, noise, noise', noise'', schemaOf, rowsOf, query, finish, finite);
  }
}
