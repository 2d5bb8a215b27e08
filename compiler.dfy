/**
 * The decisions `Expression.compile_function` makes about a parsed formula:
 * which symbols are the variables, whether the component is 2D, the rotation
 * rewrite, the sorted parameter list that fixes the positional argument order
 * of every evaluator, and the table of one gradient evaluator per parameter.
 */
module ExpressionCompiler {
  import opened Wrappers
  import opened Names
  import opened Symbolic

  /** Python errors the constructor can raise. */
  datatype Error =
    | MissingVariable             // `x, = [...]` finds no symbol named "x"
    | PositionIndex               // `position[1]` or `format(*position)` runs out of items
    | PositionType                // `getattr(self, position)` with a non-string position
    | UnknownAttribute(name: string) // `getattr(self, name)` finds no parameter of that name
    | RepeatedKeyword(name: string)  // a call that passes the keyword `name` twice

  /** The `position` argument: `None`, a string, or a tuple or list of names. */
  datatype Position = NoPosition | PositionName(name: string) | PositionNames(names: seq<string>)

  /** `if position:` */
  predicate Truthy(p: Position)
  {
    match p
    case NoPosition => false
    case PositionName(s) => s != ""
    case PositionNames(ns) => ns != []
  }

  /** What `position[i]` and `*position` see: the characters of a string, the items of a tuple. */
  function Items(p: Position): seq<string>
  {
    match p
    case NoPosition => []
    case PositionName(s) => seq(|s|, i requires 0 <= i < |s| => [s[i]])
    case PositionNames(ns) => ns
  }

  const X := "x"
  const Y := "y"
  const RotationAngle := "rotation_angle"

  /** `variables`: the positional arguments that precede the parameters. */
  function Variables(is2D: bool): seq<string>
  {
    if is2D then [X, Y] else [X]
  }

  function Cos(e: Expr): Expr { Call("cos", e) }
  function Sin(e: Expr): Expr { Call("sin", e) }

  /** The formula substituted for `x`: about `centre`, or about the origin. */
  function RotX(centre: Option<(string, string)>): Expr
  {
    var theta := Sym(RotationAngle);
    match centre
    case Some((cx, cy)) =>
      Bin(Minus,
          Bin(Plus, Sym(cx), Bin(Times, Bin(Minus, Sym(X), Sym(cx)), Cos(theta))),
          Bin(Times, Bin(Minus, Sym(Y), Sym(cy)), Sin(theta)))
    case None =>
      Bin(Minus, Bin(Times, Sym(X), Cos(theta)), Bin(Times, Sym(Y), Sin(theta)))
  }

  /** The formula substituted for `y`. */
  function RotY(centre: Option<(string, string)>): Expr
  {
    var theta := Sym(RotationAngle);
    match centre
    case Some((cx, cy)) =>
      Bin(Plus,
          Bin(Plus, Sym(cy), Bin(Times, Bin(Minus, Sym(X), Sym(cx)), Sin(theta))),
          Bin(Times, Bin(Minus, Sym(Y), Sym(cy)), Cos(theta)))
    case None =>
      Bin(Plus, Bin(Times, Sym(X), Sin(theta)), Bin(Times, Sym(Y), Cos(theta)))
  }

  function CentreNames(centre: Option<(string, string)>): set<string>
  {
    match centre
    case Some((cx, cy)) => {cx, cy}
    case None => {}
  }

  /** The symbols both rotation formulas bring in. */
  function RotationSymbols(centre: Option<(string, string)>): set<string>
  {
    {X, Y, RotationAngle} + CentreNames(centre)
  }

  lemma RotSymbols(centre: Option<(string, string)>)
    ensures FreeSymbols(RotX(centre)) == RotationSymbols(centre)
    ensures FreeSymbols(RotY(centre)) == RotationSymbols(centre)
  {
    var theta := Sym(RotationAngle);
    var cos, sin := Cos(theta), Sin(theta);
    assert FreeSymbols(cos) == {RotationAngle} && FreeSymbols(sin) == {RotationAngle};
    match centre
    case Some((cx, cy)) =>
      var dx, dy := Bin(Minus, Sym(X), Sym(cx)), Bin(Minus, Sym(Y), Sym(cy));
      assert FreeSymbols(dx) == FreeSymbols(Sym(X)) + FreeSymbols(Sym(cx)) == {X, cx};
      assert FreeSymbols(dy) == FreeSymbols(Sym(Y)) + FreeSymbols(Sym(cy)) == {Y, cy};
      var a, b := Bin(Times, dx, cos), Bin(Times, dy, sin);
      var c, d := Bin(Times, dx, sin), Bin(Times, dy, cos);
      assert FreeSymbols(a) == {X, cx, RotationAngle} && FreeSymbols(c) == {X, cx, RotationAngle};
      assert FreeSymbols(b) == {Y, cy, RotationAngle} && FreeSymbols(d) == {Y, cy, RotationAngle};
      assert RotX(centre) == Bin(Minus, Bin(Plus, Sym(cx), a), b);
      assert RotY(centre) == Bin(Plus, Bin(Plus, Sym(cy), c), d);
      assert FreeSymbols(Bin(Plus, Sym(cx), a)) == {X, cx, RotationAngle};
      assert FreeSymbols(Bin(Plus, Sym(cy), c)) == {X, cx, cy, RotationAngle};
    case None =>
      var a, b := Bin(Times, Sym(X), cos), Bin(Times, Sym(Y), sin);
      var c, d := Bin(Times, Sym(X), sin), Bin(Times, Sym(Y), cos);
      assert FreeSymbols(a) == {X, RotationAngle} && FreeSymbols(c) == {X, RotationAngle};
      assert FreeSymbols(b) == {Y, RotationAngle} && FreeSymbols(d) == {Y, RotationAngle};
      assert RotX(centre) == Bin(Minus, a, b);
      assert RotY(centre) == Bin(Plus, c, d);
  }

  /** Rotating a 2D formula trades nothing away: both variables stay, the rotation symbols join. */
  lemma RotatedSymbols(e: Expr, centre: Option<(string, string)>)
    requires X in FreeSymbols(e) && Y in FreeSymbols(e)
    ensures FreeSymbols(Rotated(e, centre)) == (FreeSymbols(e) - {X, Y}) + RotationSymbols(centre)
  {
    var once := Subst(e, X, RotX(centre));
    RotSymbols(centre);
    SubstFreeSymbols(e, X, RotX(centre));
    assert FreeSymbols(once) == (FreeSymbols(e) - {X}) + RotationSymbols(centre);
    SubstFreeSymbols(once, Y, RotY(centre));
  }

  /**
   * `expr.subs({"x": rotx, "y": roty}, simultaneous=False)`: `x` is replaced
   * first, then every `y`, including those `rotx` brought in.
   */
  function Rotated(e: Expr, centre: Option<(string, string)>): Expr
  {
    Subst(Subst(e, X, RotX(centre)), Y, RotY(centre))
  }

  /** `if position:` picks the centre from the first two items, or rotates about the origin. */
  function RotationCentre(position: Position): (r: Result<Option<(string, string)>, Error>)
    ensures r.Failure? <==> Truthy(position) && |Items(position)| < 2
    ensures r.Success? && r.value.Some? ==>
              |Items(position)| >= 2 && r.value.value == (Items(position)[0], Items(position)[1])
    ensures r.Success? ==> (r.value.Some? <==> Truthy(position))
  {
    if !Truthy(position) then Success(None)
    else if |Items(position)| < 2 then Failure(PositionIndex)
    else Success(Some((Items(position)[0], Items(position)[1])))
  }

  /** The gradient table: `_f_grad_<p>` for each parameter `p`. */
  function GradTable(args: seq<string>, body: Expr, params: seq<string>, backend: Module,
                     diff: (Expr, string) -> Expr): map<string, Evaluator>
  {
    map p | p in Elements(params) :: Lambdify(args, diff(body, p), backend)
  }

  /** Everything `compile_function` derives from the formula. */
  datatype Compiled = Compiled(
    is2D: bool,
    body: Expr,                     // the formula after any rotation
    parameters: seq<string>,        // `_parameter_strings`
    evaluator: Evaluator,           // `_f`
    grads: map<string, Evaluator>)  // `_f_grad_<name>` by name

  function Compile(expression: Expr, addRotation: bool, position: Position, backend: Module,
                   diff: (Expr, string) -> Expr): (r: Result<Compiled, Error>)
    ensures X !in FreeSymbols(expression) ==> r == Failure(MissingVariable)
    ensures r.Failure? ==> X !in FreeSymbols(expression)
                           || (Y in FreeSymbols(expression) && addRotation && RotationCentre(position).Failure?)
    ensures r.Success? ==> r.value.is2D == (Y in FreeSymbols(expression))
    ensures r.Success? && r.value.is2D && addRotation ==>
              RotationCentre(position).Success? && r.value.body == Rotated(expression, RotationCentre(position).value)
    ensures r.Success? && !(r.value.is2D && addRotation) ==> r.value.body == expression
    ensures r.Success? ==>
      var c := r.value;
      && StrictlySorted(c.parameters)
      && Elements(c.parameters) == FreeSymbols(c.body) - Elements(Variables(c.is2D))
      && c.evaluator == Lambdify(Variables(c.is2D) + c.parameters, c.body, backend)
      && c.grads.Keys == Elements(c.parameters)
      && forall p :: p in c.grads ==> c.grads[p] == Lambdify(Variables(c.is2D) + c.parameters, diff(c.body, p), backend)
  {
    var names := FreeSymbols(expression);
    if X !in names then Failure(MissingVariable)
    else
      var is2D := Y in names;
      var body :- if is2D && addRotation then
                    var centre :- RotationCentre(position);
                    Success(Rotated(expression, centre))
                  else Success(expression);
      Success(Assemble(is2D, body, backend, diff))
  }

  /**
   * The attributes compiled from the formula after any rotation: the names
   * other than the variables, sorted, the evaluator over the variables and
   * those names, and one gradient evaluator per name.
   */
  function Assemble(is2D: bool, body: Expr, backend: Module, diff: (Expr, string) -> Expr): (c: Compiled)
    ensures c.is2D == is2D && c.body == body
    ensures StrictlySorted(c.parameters) && Elements(c.parameters) == FreeSymbols(body) - Elements(Variables(is2D))
    ensures c.evaluator == Lambdify(Variables(is2D) + c.parameters, body, backend)
    ensures c.grads.Keys == Elements(c.parameters)
    ensures forall p :: p in c.grads ==> c.grads[p] == Lambdify(Variables(is2D) + c.parameters, diff(body, p), backend)
  {
    var vars := Variables(is2D);
    var params := Sort(Without(SymbolList(body), Elements(vars)));
    var args := vars + params;
    Compiled(is2D, body, params, Lambdify(args, body, backend), GradTable(args, body, params, backend, diff))
  }

  /**
   * The parameters are the free symbols other than the variables; with a 2D
   * rotation they gain `rotation_angle` and the two centre names, and otherwise
   * the formula is left as it was.
   */
  lemma {:induction false} CompiledParameters(expression: Expr, addRotation: bool, position: Position,
                                             backend: Module, diff: (Expr, string) -> Expr)
    requires Compile(expression, addRotation, position, backend, diff).Success?
    ensures var c := Compile(expression, addRotation, position, backend, diff).value;
      if c.is2D && addRotation then
        var centre := RotationCentre(position).value;
        && c.body == Rotated(expression, centre)
        && Elements(c.parameters) == (FreeSymbols(expression) + {RotationAngle} + CentreNames(centre)) - {X, Y}
      else
        c.body == expression && Elements(c.parameters) == FreeSymbols(expression) - Elements(Variables(c.is2D))
  {
    var c := Compile(expression, addRotation, position, backend, diff).value;
    if c.is2D && addRotation {
      var centre := RotationCentre(position).value;
      assert c.body == Rotated(expression, centre);
      RotatedSymbols(expression, centre);
      assert Elements(Variables(c.is2D)) == {X, Y};
      RemovingVariablesAgain(FreeSymbols(expression), CentreNames(centre));
    }
  }

  /** The rotation brings back both variables, which the parameter list then drops again. */
  lemma RemovingVariablesAgain(free: set<string>, centre: set<string>)
    ensures ((free - {X, Y}) + ({X, Y, RotationAngle} + centre)) - {X, Y} == (free + {RotationAngle} + centre) - {X, Y}
  {
  }

  /** Neither variable is ever a parameter, and none has a gradient. */
  lemma VariablesAreNotParameters(expression: Expr, addRotation: bool, position: Position,
                                  backend: Module, diff: (Expr, string) -> Expr)
    requires Compile(expression, addRotation, position, backend, diff).Success?
    ensures var c := Compile(expression, addRotation, position, backend, diff).value;
      X !in c.parameters && Y !in c.parameters && X !in c.grads && Y !in c.grads
  {
    var c := Compile(expression, addRotation, position, backend, diff).value;
    assert X !in Elements(c.parameters) && Y !in Elements(c.parameters) by {
      if !c.is2D { CompiledParameters(expression, addRotation, position, backend, diff); }
    }
  }

  /**
   * The sort makes the order reliable: the parameter list is the only sorted,
   * duplicate-free listing of the parameter names, whatever order the engine
   * reports its free symbols in.
   */
  lemma ParameterOrderIsCanonical(expression: Expr, addRotation: bool, position: Position,
                                  backend: Module, diff: (Expr, string) -> Expr, names: seq<string>)
    requires Compile(expression, addRotation, position, backend, diff).Success?
    requires StrictlySorted(names)
    requires Elements(names) == Elements(Compile(expression, addRotation, position, backend, diff).value.parameters)
    ensures names == Compile(expression, addRotation, position, backend, diff).value.parameters
  {
    SortedUnique(names, Compile(expression, addRotation, position, backend, diff).value.parameters);
  }

  /** Every argument name of the compiled evaluators is different, and covers the formula. */
  lemma {:induction false} ArgumentsCoverBody(c: Compiled, expression: Expr, addRotation: bool, position: Position,
                                             backend: Module, diff: (Expr, string) -> Expr)
    requires Compile(expression, addRotation, position, backend, diff) == Success(c)
    ensures Distinct(Variables(c.is2D) + c.parameters)
    ensures FreeSymbols(c.body) <= Elements(Variables(c.is2D) + c.parameters)
  {
    VariablesAreNotParameters(expression, addRotation, position, backend, diff);
    SortedIsDistinct(c.parameters);
    DistinctConcat(Variables(c.is2D), c.parameters);
    ElementsConcat(Variables(c.is2D), c.parameters);
  }

  /** What `CompiledValid` asks of an object, stated of the compiled attributes themselves. */
  lemma CompiledWellFormed(c: Compiled, expression: Expr, addRotation: bool, position: Position,
                           backend: Module, diff: (Expr, string) -> Expr)
    requires Compile(expression, addRotation, position, backend, diff) == Success(c)
    ensures StrictlySorted(c.parameters)
    ensures c.evaluator.argNames == Variables(c.is2D) + c.parameters
    ensures Distinct(c.evaluator.argNames)
    ensures FreeSymbols(c.evaluator.body) <= Elements(c.evaluator.argNames)
    ensures forall p :: p in c.parameters ==> p in c.grads && c.grads[p].argNames == c.evaluator.argNames
  {
    ArgumentsCoverBody(c, expression, addRotation, position, backend, diff);
    forall p | p in c.parameters ensures p in c.grads && c.grads[p].argNames == c.evaluator.argNames {
      assert p in Elements(c.parameters);
    }
  }

  /**
   * `_f(x[, y], *values)` evaluates the formula with the variables bound to the
   * leading arguments and each parameter bound to the value in its sorted position.
   */
  lemma FunctionBindsInSortedOrder(c: Compiled, expression: Expr, addRotation: bool, position: Position,
                                   backend: Module, diff: (Expr, string) -> Expr,
                                   xs: seq<real>, values: seq<real>, env: Env, lib: Lib)
    requires Compile(expression, addRotation, position, backend, diff) == Success(c)
    requires |xs| == |Variables(c.is2D)| && |values| == |c.parameters|
    requires forall i :: 0 <= i < |xs| ==> env(Variables(c.is2D)[i]) == xs[i]
    requires forall i :: 0 <= i < |values| ==> env(c.parameters[i]) == values[i]
    ensures Apply(c.evaluator, xs + values, lib) == Eval(c.body, env, lib)
  {
    ArgumentsCoverBody(c, expression, addRotation, position, backend, diff);
    assert c.evaluator == Lambdify(Variables(c.is2D) + c.parameters, c.body, backend);
    BindsInOrder(c.evaluator, Variables(c.is2D), c.parameters, xs, values, env, lib);
  }

  /** Arguments given as the variables' values then the parameters' values bind every name to its value. */
  lemma BindsInOrder(ev: Evaluator, vars: seq<string>, params: seq<string>,
                     xs: seq<real>, values: seq<real>, env: Env, lib: Lib)
    requires ev.argNames == vars + params && Distinct(vars + params)
    requires FreeSymbols(ev.body) <= Elements(vars + params)
    requires |xs| == |vars| && |values| == |params|
    requires forall i :: 0 <= i < |xs| ==> env(vars[i]) == xs[i]
    requires forall i :: 0 <= i < |values| ==> env(params[i]) == values[i]
    ensures Apply(ev, xs + values, lib) == Eval(ev.body, env, lib)
  {
    var args := vars + params;
    forall i | 0 <= i < |xs + values| ensures env(args[i]) == (xs + values)[i] {
      if i >= |xs| { assert args[i] == params[i - |xs|]; }
    }
    ApplyBinds(ev, xs + values, env, lib);
  }

  /**
   * `_f_grad_<p>(x[, y], *values)` evaluates the engine's derivative of the
   * formula with respect to `p` in the same binding, provided the derivative
   * brings in no new symbol.
   */
  lemma GradientBindsInSortedOrder(c: Compiled, expression: Expr, addRotation: bool, position: Position,
                                   backend: Module, diff: (Expr, string) -> Expr, p: string,
                                   xs: seq<real>, values: seq<real>, env: Env, lib: Lib)
    requires Compile(expression, addRotation, position, backend, diff) == Success(c)
    requires p in c.parameters && FreeSymbols(diff(c.body, p)) <= FreeSymbols(c.body)
    requires |xs| == |Variables(c.is2D)| && |values| == |c.parameters|
    requires forall i :: 0 <= i < |xs| ==> env(Variables(c.is2D)[i]) == xs[i]
    requires forall i :: 0 <= i < |values| ==> env(c.parameters[i]) == values[i]
    ensures p in c.grads && Apply(c.grads[p], xs + values, lib) == Eval(diff(c.body, p), env, lib)
  {
    ArgumentsCoverBody(c, expression, addRotation, position, backend, diff);
    assert p in Elements(c.parameters);
    assert c.grads[p] == Lambdify(Variables(c.is2D) + c.parameters, diff(c.body, p), backend);
    BindsInOrder(c.grads[p], Variables(c.is2D), c.parameters, xs, values, env, lib);
  }

  /**
   * Because the substitution is sequential, the formula is evaluated with `y`
   * rotated first and `x` then rotated from the already rotated `y`.
   */
  lemma RotationIsSequential(e: Expr, centre: Option<(string, string)>, env: Env, lib: Lib)
    ensures var yRot := Eval(RotY(centre), env, lib);
            var env1 := Update(env, Y, yRot);
            Eval(Rotated(e, centre), env, lib) == Eval(e, Update(env1, X, Eval(RotX(centre), env1, lib)), lib)
  {
    EvalSubst(Subst(e, X, RotX(centre)), Y, RotY(centre), env, lib);
    var env1 := Update(env, Y, Eval(RotY(centre), env, lib));
    EvalSubst(e, X, RotX(centre), env1, lib);
  }

  lemma RotationFormulasAtZero(centre: Option<(string, string)>, env: Env, lib: Lib)
    requires env(RotationAngle) == 0.0
    requires lib.call("cos", 0.0) == 1.0 && lib.call("sin", 0.0) == 0.0
    ensures Eval(RotX(centre), env, lib) == env(X) && Eval(RotY(centre), env, lib) == env(Y)
  {
    match centre
    case Some((cx, cy)) => RotationAroundCentreAtZero(cx, cy, env, lib);
    case None => RotationAroundOriginAtZero(env, lib);
  }

  lemma RotationAroundCentreAtZero(cx: string, cy: string, env: Env, lib: Lib)
    requires env(RotationAngle) == 0.0
    requires lib.call("cos", 0.0) == 1.0 && lib.call("sin", 0.0) == 0.0
    ensures Eval(RotX(Some((cx, cy))), env, lib) == env(X) && Eval(RotY(Some((cx, cy))), env, lib) == env(Y)
  {
    var theta := Sym(RotationAngle);
    var cos, sin := Cos(theta), Sin(theta);
    assert Eval(theta, env, lib) == 0.0;
    assert Eval(cos, env, lib) == 1.0;
    assert Eval(sin, env, lib) == 0.0;
    var dx, dy := Bin(Minus, Sym(X), Sym(cx)), Bin(Minus, Sym(Y), Sym(cy));
    assert Eval(dx, env, lib) == env(X) - env(cx);
    assert Eval(dy, env, lib) == env(Y) - env(cy);
    var xc, xs := Bin(Plus, Sym(cx), Bin(Times, dx, cos)), Bin(Times, dy, sin);
    var yc, ys := Bin(Plus, Sym(cy), Bin(Times, dx, sin)), Bin(Times, dy, cos);
    assert RotX(Some((cx, cy))) == Bin(Minus, xc, xs);
    assert RotY(Some((cx, cy))) == Bin(Plus, yc, ys);
    assert Eval(Bin(Times, dx, cos), env, lib) == env(X) - env(cx);
    assert Eval(xc, env, lib) == env(X);
    assert Eval(xs, env, lib) == 0.0;
    assert Eval(Bin(Times, dx, sin), env, lib) == 0.0;
    assert Eval(yc, env, lib) == env(cy);
    assert Eval(ys, env, lib) == env(Y) - env(cy);
  }

  lemma RotationAroundOriginAtZero(env: Env, lib: Lib)
    requires env(RotationAngle) == 0.0
    requires lib.call("cos", 0.0) == 1.0 && lib.call("sin", 0.0) == 0.0
    ensures Eval(RotX(None), env, lib) == env(X) && Eval(RotY(None), env, lib) == env(Y)
  {
    var theta := Sym(RotationAngle);
    var cos, sin := Cos(theta), Sin(theta);
    assert Eval(cos, env, lib) == 1.0 && Eval(sin, env, lib) == 0.0;
    assert RotX(None) == Bin(Minus, Bin(Times, Sym(X), cos), Bin(Times, Sym(Y), sin));
    assert RotY(None) == Bin(Plus, Bin(Times, Sym(X), sin), Bin(Times, Sym(Y), cos));
    assert Eval(Bin(Times, Sym(X), cos), env, lib) == env(X);
    assert Eval(Bin(Times, Sym(Y), sin), env, lib) == 0.0;
    assert Eval(Bin(Times, Sym(X), sin), env, lib) == 0.0;
    assert Eval(Bin(Times, Sym(Y), cos), env, lib) == env(Y);
  }

  /** With `rotation_angle` at 0 the rotated formula has the unrotated formula's value. */
  lemma RotationByZeroIsIdentity(e: Expr, centre: Option<(string, string)>, env: Env, lib: Lib)
    requires env(RotationAngle) == 0.0
    requires lib.call("cos", 0.0) == 1.0 && lib.call("sin", 0.0) == 0.0
    ensures Eval(Rotated(e, centre), env, lib) == Eval(e, env, lib)
  {
    RotationIsSequential(e, centre, env, lib);
    var env1 := Update(env, Y, Eval(RotY(centre), env, lib));
    RotationFormulasAtZero(centre, env, lib);
    assert forall s :: env1(s) == env(s);
    EvalAgree(RotX(centre), env1, env, lib);
    var env2 := Update(env1, X, Eval(RotX(centre), env1, lib));
    assert forall s :: env2(s) == env(s);
    EvalAgree(e, env2, env, lib);
  }
}
