/**
 A small SQL expression language with three-valued evaluation: the part of the parser's
 syntax tree that the bounding-box rewrites inspect or generate. Everything else is an
 `Other` node whose value is arbitrary.
 */
module Sql {
  import opened Wrappers
  import opened Ascii

  datatype Ident = Ident(value: string, quoted: bool)

  datatype NamePart = Part(ident: Ident) | ComputedPart

  datatype Operator = And | Or | GtEq | LtEq | OtherOperator(symbol: string)

  datatype Sign = Plus | Minus | OtherSign

  /** What a call can carry besides its name and its unnamed arguments. */
  datatype Decoration =
    | OdbcSyntax | Parameters | Filter | NullTreatment | Over | WithinGroup
    | NoArgumentList | Distinct | Clauses | NamedArgument

  datatype Expr =
    | Identifier(ident: Ident)
    | Compound(parts: seq<Ident>)
    | Null
    | Number(text: string, long: bool)
    | Str(text: string)
    | Placeholder(text: string)
    | Nested(inner: Expr)
    | Cast(inner: Expr, dataType: string)
    | Unary(sign: Sign, inner: Expr)
    | Binary(left: Expr, op: Operator, right: Expr)
    | CaseNull(subject: Expr, otherwise: Expr) // CASE WHEN subject IS NULL THEN NULL ELSE otherwise END
    | Call(name: seq<NamePart>, args: seq<Expr>, decorations: set<Decoration>)
    | Other(children: seq<Expr>)

  // ---- Names -----------------------------------------------------------------------------

  /** ASCII lower case; two names are equal ignoring ASCII case when their folds are equal. */
  function Fold(s: string): (r: string)
    ensures |r| == |s|
  {
    seq(|s|, i requires 0 <= i < |s| => FoldChar(s[i]))
  }

  /** Two written identifiers denote the same name: exactly once either is quoted. */
  predicate IdentifiersMatch(left: Ident, right: Ident) {
    if left.quoted || right.quoted then left.value == right.value
    else Fold(left.value) == Fold(right.value)
  }

  predicate IdentifierMatches(ident: Ident, expected: string) {
    if ident.quoted then ident.value == expected else Fold(ident.value) == Fold(expected)
  }

  // ---- The spatial functions the rewrites know ---------------------------------------------

  datatype Fn = Intersects | GeomFromWkb | GeomFromText | MakeEnvelope | Extent | XMin | YMin | XMax | YMax

  function Spelling(fn: Fn): string {
    match fn
    case Intersects => "ST_Intersects"
    case GeomFromWkb => "ST_GeomFromWKB"
    case GeomFromText => "ST_GeomFromText"
    case MakeEnvelope => "ST_MakeEnvelope"
    case Extent => "ST_Extent"
    case XMin => "ST_XMin"
    case YMin => "ST_YMin"
    case XMax => "ST_XMax"
    case YMax => "ST_YMax"
  }

  const NAME_DECORATIONS: set<Decoration> := {OdbcSyntax, Parameters, Filter, NullTreatment, Over, WithinGroup}
  const ARGUMENT_DECORATIONS: set<Decoration> := {NoArgumentList, Distinct, Clauses, NamedArgument}

  /** The call is written as a single unquoted name, ignoring case, with nothing attached to it. */
  predicate PlainlyNamed(call: Expr, fn: Fn)
    requires call.Call?
  {
    && |call.name| == 1
    && call.name[0].Part?
    && !call.name[0].ident.quoted
    && Fold(call.name[0].ident.value) == Fold(Spelling(fn))
    && call.decorations !! NAME_DECORATIONS
  }

  predicate PlainArguments(call: Expr)
    requires call.Call?
  {
    call.decorations !! ARGUMENT_DECORATIONS
  }

  function MakeCall(fn: Fn, args: seq<Expr>): Expr {
    Call([Part(Ident(Spelling(fn), false))], args, {})
  }

  /** The known function a fully plain call denotes, when there is one. */
  function KnownFunction(call: Expr): Option<Fn>
    requires call.Call?
  {
    if !PlainArguments(call) then None
    else if PlainlyNamed(call, Intersects) then Some(Intersects)
    else if PlainlyNamed(call, GeomFromWkb) then Some(GeomFromWkb)
    else if PlainlyNamed(call, GeomFromText) then Some(GeomFromText)
    else if PlainlyNamed(call, MakeEnvelope) then Some(MakeEnvelope)
    else if PlainlyNamed(call, Extent) then Some(Extent)
    else if PlainlyNamed(call, XMin) then Some(XMin)
    else if PlainlyNamed(call, YMin) then Some(YMin)
    else if PlainlyNamed(call, XMax) then Some(XMax)
    else if PlainlyNamed(call, YMax) then Some(YMax)
    else None
  }

  lemma SpellingsDiffer(a: Fn, b: Fn)
    ensures Fold(Spelling(a)) == Fold(Spelling(b)) ==> a == b
  {
    var s, t := Fold(Spelling(a)), Fold(Spelling(b));
    if s == t {
      if |s| == 7 {
        assert s[3] == FoldChar(Spelling(a)[3]) && t[3] == FoldChar(Spelling(b)[3]);
        assert s[5] == FoldChar(Spelling(a)[5]) && t[5] == FoldChar(Spelling(b)[5]);
      } else if |s| == 15 {
        assert s[3] == FoldChar(Spelling(a)[3]) && t[3] == FoldChar(Spelling(b)[3]);
      }
    }
  }

  /** A plain call spelled like `fn` denotes `fn` and nothing else. */
  lemma KnownByName(call: Expr, fn: Fn)
    requires call.Call? && PlainArguments(call) && PlainlyNamed(call, fn)
    ensures KnownFunction(call) == Some(fn)
  {
    forall other: Fn ensures PlainlyNamed(call, other) ==> other == fn {
      SpellingsDiffer(other, fn);
    }
  }

  // ---- Values ----------------------------------------------------------------------------------

  datatype Val = VNull | VBool(b: bool) | VNum(r: real) | Opaque(id: nat)

  /** Column values under the folded column name: the engine resolves columns ignoring case. */
  type Row = map<string, Val>

  /**
   The deterministic part of the database engine. `scalar` gives the value of the known spatial
   functions; literals, parameters, casts and signs are functions of what is written.
   */
  datatype Engine = Engine(
    scalar: (Fn, seq<Val>) -> Val,
    number: string -> Val,
    text: string -> Val,
    parameter: string -> Val,
    cast: (string, Val) -> Val,
    signed: (Sign, Val) -> Val)

  /**
   Everything the model does not know: the value of one occurrence (its path in the tree) on one
   row (its position), given the operand values. Volatile functions live here.
   */
  type Noise = (nat, seq<nat>, seq<Val>) -> Val

  datatype Env = Env(engine: Engine, noise: Noise, table: Ident, row: Row, position: nat)

  function Operate(op: Operator, l: Val, r: Val): (v: Val)
    requires !op.OtherOperator?
  {
    match op
    case And =>
      if l == VBool(false) || r == VBool(false) then VBool(false)
      else if l == VBool(true) && r == VBool(true) then VBool(true)
      else VNull
    case Or =>
      if l == VBool(true) || r == VBool(true) then VBool(true)
      else if l == VBool(false) && r == VBool(false) then VBool(false)
      else VNull
    case GtEq => if l.VNum? && r.VNum? then VBool(l.r >= r.r) else VNull
    case LtEq => if l.VNum? && r.VNum? then VBool(l.r <= r.r) else VNull
  }

  function ColumnValue(env: Env, column: Ident, at: seq<nat>): Val {
    if Fold(column.value) in env.row then env.row[Fold(column.value)]
    else env.noise(env.position, at, [])
  }

  /** The value of expression `x` at occurrence `at` on the row of `env`. */
  function Eval(env: Env, x: Expr, at: seq<nat>): Val
    decreases x
  {
    match x
    case Identifier(ident) => ColumnValue(env, ident, at)
    case Compound(parts) =>
      if |parts| == 2 && IdentifiersMatch(parts[0], env.table) then ColumnValue(env, parts[1], at)
      else env.noise(env.position, at, [])
    case Null => VNull
    case Number(text, _) => env.engine.number(text)
    case Str(text) => env.engine.text(text)
    case Placeholder(text) => env.engine.parameter(text)
    case Nested(inner) => Eval(env, inner, at + [0])
    case Cast(inner, dataType) => env.engine.cast(dataType, Eval(env, inner, at + [0]))
    case Unary(sign, inner) => env.engine.signed(sign, Eval(env, inner, at + [0]))
    case Binary(left, op, right) =>
      var l, r := Eval(env, left, at + [0]), Eval(env, right, at + [1]);
      if op.OtherOperator? then env.noise(env.position, at, [l, r]) else Operate(op, l, r)
    case CaseNull(subject, otherwise) =>
      if Eval(env, subject, at + [0]) == VNull then VNull else Eval(env, otherwise, at + [1])
    case Call(_, args, _) =>
      var values := seq(|args|, i requires 0 <= i < |args| => Eval(env, args[i], at + [i]));
      var known := KnownFunction(x);
      if known.Some? then env.engine.scalar(known.value, values)
      else env.noise(env.position, at, values)
    case Other(children) =>
      env.noise(env.position, at, seq(|children|, i requires 0 <= i < |children| => Eval(env, children[i], at + [i])))
  }

  /** `noise'` gives below `prefix` what `noise` gives at the root. */
  ghost predicate Relocated(noise: Noise, noise': Noise, prefix: seq<nat>) {
    forall n: nat, at: seq<nat>, vs: seq<Val> {:trigger noise(n, at, vs)} ::
      noise'(n, prefix + at, vs) == noise(n, at, vs)
  }

  /** Moving an expression under another node does not change its value. */
  lemma {:induction false} EvalRelocated(env: Env, noise': Noise, prefix: seq<nat>, x: Expr, at: seq<nat>)
    requires Relocated(env.noise, noise', prefix)
    ensures Eval(env.(noise := noise'), x, prefix + at) == Eval(env, x, at)
    decreases x
  {
    var env' := env.(noise := noise');
    forall i: nat ensures (prefix + at) + [i] == prefix + (at + [i]) {}
    match x
    case Nested(inner) => EvalRelocated(env, noise', prefix, inner, at + [0]);
    case Cast(inner, _) => EvalRelocated(env, noise', prefix, inner, at + [0]);
    case Unary(_, inner) => EvalRelocated(env, noise', prefix, inner, at + [0]);
    case Binary(left, op, right) =>
      EvalRelocated(env, noise', prefix, left, at + [0]);
      EvalRelocated(env, noise', prefix, right, at + [1]);
      if op.OtherOperator? {
        assert env.noise(env.position, at, [Eval(env, left, at + [0]), Eval(env, right, at + [1])]) == Eval(env, x, at);
      }
    case CaseNull(subject, otherwise) =>
      EvalRelocated(env, noise', prefix, subject, at + [0]);
      EvalRelocated(env, noise', prefix, otherwise, at + [1]);
    case Call(_, args, _) =>
      var values := seq(|args|, i requires 0 <= i < |args| => Eval(env, args[i], at + [i]));
      var values' := seq(|args|, i requires 0 <= i < |args| => Eval(env', args[i], (prefix + at) + [i]));
      forall i | 0 <= i < |args| ensures values'[i] == values[i] {
        EvalRelocated(env, noise', prefix, args[i], at + [i]);
      }
      assert values' == values;
      assert noise'(env.position, prefix + at, values) == env.noise(env.position, at, values);
    case Other(children) =>
      var values := seq(|children|, i requires 0 <= i < |children| => Eval(env, children[i], at + [i]));
      var values' := seq(|children|, i requires 0 <= i < |children| => Eval(env', children[i], (prefix + at) + [i]));
      forall i | 0 <= i < |children| ensures values'[i] == values[i] {
        EvalRelocated(env, noise', prefix, children[i], at + [i]);
      }
      assert values' == values;
      assert noise'(env.position, prefix + at, values) == env.noise(env.position, at, values);
    case Identifier(_) => assert noise'(env.position, prefix + at, []) == env.noise(env.position, at, []);
    case Compound(_) => assert noise'(env.position, prefix + at, []) == env.noise(env.position, at, []);
    case _ =>
  }

  // ---- Printing and parsing again -----------------------------------------------------------------

  /** `x` has at `p`, under one behaviour of the engine, the occurrences it has at `q` under the other. */
  ghost predicate Moved(noise: Noise, p: seq<nat>, noise': Noise, q: seq<nat>) {
    forall n: nat, at: seq<nat>, vs: seq<Val> {:trigger noise(n, p + at, vs)} ::
      noise'(n, q + at, vs) == noise(n, p + at, vs)
  }

  lemma EvalMoved(env: Env, noise': Noise, x: Expr, p: seq<nat>, q: seq<nat>)
    requires Moved(env.noise, p, noise', q)
    ensures Eval(env.(noise := noise'), x, q) == Eval(env, x, p)
  {
    var root := (n: nat, at: seq<nat>, vs: seq<Val>) => env.noise(n, p + at, vs);
    var above := env.(noise := root);
    EvalRelocated(above, env.noise, p, x, []);
    EvalRelocated(above, noise', q, x, []);
    assert p + [] == p && q + [] == q && above.(noise := env.noise) == env;
  }

  /** AND printed without parentheses is read from the left: what `c AND x` becomes when `x` is itself an AND. */
  function Reparsed(c: Expr, x: Expr): Expr {
    match x
    case Binary(l, And, r) => Binary(Reparsed(c, l), And, r)
    case _ => Binary(c, And, x)
  }

  /** Every part of `c AND x`, with `c` at `p` and `x` at `from`, is found again where reading puts it, below `to`. */
  ghost predicate FoundAgain(noise: Noise, noise': Noise, x: Expr, p: seq<nat>, from: seq<nat>, to: seq<nat>) {
    match x
    case Binary(l, And, r) => FoundAgain(noise, noise', l, p, from + [0], to + [0])
      && Moved(noise, from + [1], noise', to + [1])
    case _ => Moved(noise, p, noise', to + [0]) && Moved(noise, from, noise', to + [1])
  }

  lemma EvalAnd(env: Env, l: Expr, r: Expr, at: seq<nat>)
    ensures Eval(env, Binary(l, And, r), at) == VBool(true)
       <==> Eval(env, l, at + [0]) == VBool(true) && Eval(env, r, at + [1]) == VBool(true)
  {
  }

  lemma EvalAndValue(env: Env, l: Expr, r: Expr, at: seq<nat>)
    ensures Eval(env, Binary(l, And, r), at) == Operate(And, Eval(env, l, at + [0]), Eval(env, r, at + [1]))
  {
  }

  lemma AndIsAssociative(a: Val, b: Val, c: Val)
    ensures Operate(And, Operate(And, a, b), c) == Operate(And, a, Operate(And, b, c))
  {
  }

  lemma {:induction false} ReparsedValue(
      env: Env, noise': Noise, c: Expr, x: Expr, p: seq<nat>, from: seq<nat>, to: seq<nat>)
    requires FoundAgain(env.noise, noise', x, p, from, to)
    ensures Eval(env.(noise := noise'), Reparsed(c, x), to) == Operate(And, Eval(env, c, p), Eval(env, x, from))
    decreases x
  {
    if x.Binary? && x.op == And {
      ReparsedValue(env, noise', c, x.left, p, from + [0], to + [0]);
      EvalMoved(env, noise', x.right, from + [1], to + [1]);
      ReparsedAnd(env, env.(noise := noise'), Reparsed(c, x.left), x.left, x.right, Eval(env, c, p), from, to);
    } else {
      EvalMoved(env, noise', c, p, to + [0]);
      EvalMoved(env, noise', x, from, to + [1]);
      EvalAndValue(env.(noise := noise'), c, x, to);
    }
  }

  lemma ReparsedAnd(env: Env, env': Env, y: Expr, l: Expr, r: Expr, c: Val, from: seq<nat>, to: seq<nat>)
    requires Eval(env', y, to + [0]) == Operate(And, c, Eval(env, l, from + [0]))
    requires Eval(env', r, to + [1]) == Eval(env, r, from + [1])
    ensures Eval(env', Binary(y, And, r), to) == Operate(And, c, Eval(env, Binary(l, And, r), from))
  {
    EvalAndValue(env', y, r, to);
    EvalAndValue(env, l, r, from);
    AndIsAssociative(c, Eval(env, l, from + [0]), Eval(env, r, from + [1]));
  }

  /** Three-valued AND does not mind: the condition that is read back has the value of the one that was built. */
  lemma AndSurvivesPrinting(env: Env, noise': Noise, c: Expr, x: Expr)
    requires FoundAgain(env.noise, noise', x, [0], [1], [])
    ensures Eval(env.(noise := noise'), Reparsed(c, x), []) == Eval(env, Binary(c, And, x), [])
  {
    ReparsedValue(env, noise', c, x, [0], [1], []);
    assert [] + [0] == [0] && [] + [1] == [1];
  }
}
