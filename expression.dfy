/**
 * The `Expression` component: a compiled formula bound to live parameter
 * objects. `New` is the constructor (`__init__`), which can raise;
 * `CompileFunction` is `compile_function`; `Function` and `Grad` are the
 * evaluators it installs, which read the current parameter values.
 */
module ExpressionComponent {
  import opened Wrappers
  import opened Names
  import opened Symbolic
  import opened ExpressionCompiler

  /** A parameter object of the component base class. */
  class Parameter {
    const name: string
    var value: real
    var mapValues: array?<real>  // `map["values"]`: one value per navigation pixel
    var mapIsSet: array?<bool>  // `map["is_set"]`

    constructor (name: string)
      ensures this.name == name && value == 0.0 && mapValues == null && mapIsSet == null
    {
      this.name := name;
      value := 0.0;
      mapValues := null;
      mapIsSet := null;
    }

    /** The per-pixel arrays are allocated, one entry per pixel. */
    ghost predicate HasMap(navSize: nat)
      reads this
    {
      mapValues != null && mapIsSet != null && mapValues.Length == navSize && mapIsSet.Length == navSize
    }
  }

  /** The current values of a list of parameters, in order. */
  function ValuesOf(ps: seq<Parameter>): (vs: seq<real>)
    reads ps
    ensures |vs| == |ps| && forall i :: 0 <= i < |ps| ==> vs[i] == ps[i].value
  {
    if ps == [] then [] else [ps[0].value] + ValuesOf(ps[1..])
  }

  /** The first position of `n` in `names`, as `getattr(self, n)` finds the parameter. */
  function IndexOfName(names: seq<string>, n: string): (r: Option<nat>)
    ensures r.None? <==> n !in names
    ensures r.Some? ==> r.value < |names| && names[r.value] == n && n !in names[..r.value]
  {
    if names == [] then None
    else if names[0] == n then Some(0)
    else match IndexOfName(names[1..], n)
         case None => None
         case Some(i) => assert names[1..][..i] == names[1..i + 1]; Some(i + 1)
  }

  /** A keyword argument's value. */
  datatype KwArg = Flag(flag: bool) | Number(number: real)

  /** Python's truth value of the argument. */
  predicate KwTruthy(a: KwArg)
  {
    match a
    case Flag(b) => b
    case Number(v) => v != 0.0
  }

  /** The value a parameter takes from the argument (`True` is 1). */
  function KwValue(a: KwArg): real
  {
    match a
    case Flag(b) => if b then 1.0 else 0.0
    case Number(v) => v
  }

  const AddRotationKey := "add_rotation"

  /** `kwargs.pop("add_rotation", False)`: the popped object, and what is left of `kwargs`. */
  function PopAddRotation(kwargs: map<string, KwArg>): (r: (KwArg, map<string, KwArg>))
    ensures AddRotationKey in kwargs ==> r.0 == kwargs[AddRotationKey]
    ensures AddRotationKey !in kwargs ==> r.0 == Flag(false)
    ensures r.1.Keys == kwargs.Keys - {AddRotationKey}
    ensures forall k :: k in r.1 ==> r.1[k] == kwargs[k]
  {
    (if AddRotationKey in kwargs then kwargs[AddRotationKey] else Flag(false), kwargs - {AddRotationKey})
  }

  /** A constructor argument recorded in the reconstruction whitelist as `('init', value)`. */
  datatype InitArg =
    | ExpressionArg(expression: Expr)
    | NameArg(text: string)
    | PositionArg(position: Position)
    | ModuleArg(backend: Module)
    | KeywordArg(arg: KwArg)

  /** The whitelist entries `__init__` writes; `add_rotation` is recorded as the object popped from `kwargs`. */
  function Whitelist(expression: Expr, name: string, position: Position, backend: Module,
                     is2D: bool, addRotation: KwArg): (w: map<string, InitArg>)
    ensures w.Keys == {"expression", "name", "position", "module"} + (if is2D then {AddRotationKey} else {})
    ensures w["expression"] == ExpressionArg(expression) && w["name"] == NameArg(name)
    ensures w["position"] == PositionArg(position) && w["module"] == ModuleArg(backend)
    ensures is2D ==> w[AddRotationKey] == KeywordArg(addRotation)
  {
    var base := map["expression" := ExpressionArg(expression), "name" := NameArg(name),
                    "position" := PositionArg(position), "module" := ModuleArg(backend)];
    if is2D then base[AddRotationKey := KeywordArg(addRotation)] else base
  }

  /** `getattr(self, n)` for a parameter name: its index, or the attribute error. */
  function ParameterNamed(params: seq<string>, n: string): (r: Result<nat, Error>)
    ensures r.Success? <==> n in params
    ensures r.Success? ==> r.value < |params| && params[r.value] == n
    ensures r.Failure? ==> r.error == UnknownAttribute(n)
  {
    match IndexOfName(params, n)
    case None => Failure(UnknownAttribute(n))
    case Some(i) => Success(i)
  }

  /**
   * The indices of the parameters the position handles bind to, looked up in
   * the order of `__init__`: nothing when `position` is falsy; in 1D
   * `getattr(self, position)`, which needs a string; in 2D
   * `getattr(self, position[0])` before `position[1]` is read.
   */
  function PositionBinding(position: Position, is2D: bool, params: seq<string>): (r: Result<seq<nat>, Error>)
    ensures !Truthy(position) ==> r == Success([])
    ensures Truthy(position) && !is2D ==>
      && (!position.PositionName? ==> r == Failure(PositionType))
      && (position.PositionName? && position.name !in params ==> r == Failure(UnknownAttribute(position.name)))
      && (r.Success? <==> position.PositionName? && position.name in params)
      && (r.Success? ==> |r.value| == 1 && r.value[0] < |params| && params[r.value[0]] == position.name)
    ensures Truthy(position) && is2D ==>
      var it := Items(position);
      && |it| >= 1
      && (it[0] !in params ==> r == Failure(UnknownAttribute(it[0])))
      && (it[0] in params && |it| < 2 ==> r == Failure(PositionIndex))
      && (it[0] in params && |it| >= 2 && it[1] !in params ==> r == Failure(UnknownAttribute(it[1])))
      && (r.Success? <==> |it| >= 2 && it[0] in params && it[1] in params)
      && (r.Success? ==> |r.value| == 2 && r.value[0] < |params| && r.value[1] < |params|
                         && params[r.value[0]] == it[0] && params[r.value[1]] == it[1])
  {
    if !Truthy(position) then Success([])
    else if is2D then
      var it := Items(position);
      var i :- ParameterNamed(params, it[0]);
      if |it| < 2 then Failure(PositionIndex)
      else
        var j :- ParameterNamed(params, it[1]);
        Success([i, j])
    else
      match position
      case PositionName(s) =>
        var i :- ParameterNamed(params, s);
        Success([i])
      case _ => Failure(PositionType)
  }

  /** The value each parameter starts with: the keyword argument of its name, else 0. */
  function InitialValue(kwargs: map<string, KwArg>, p: string): real
  {
    if p in kwargs then KwValue(kwargs[p]) else 0.0
  }

  class Expression {
    const expression: Expr                  // `_str_expression`, as parsed
    const addRotation: KwArg                // `_add_rotation`, the object popped from `kwargs`
    var is2D: bool                          // `_is2D`
    var f: Evaluator                        // `_f`
    var parameterStrings: seq<string>       // `_parameter_strings`
    var gradTable: map<string, Evaluator>   // `_f_grad_<name>`, one per name
    var parameters: seq<Parameter>          // `parameters`, in the order of `_parameter_strings`
    var whitelist: map<string, InitArg>     // `_whitelist`
    var name: string
    var handles: seq<Parameter>             // `_position`, or `_position_x` and `_position_y`

    /** The parameter objects match the compiled parameter list and the evaluators take them in that order. */
    ghost predicate Valid()
      reads this
    {
      && CompiledValid()
      && |parameters| == |parameterStrings|
      && (forall i :: 0 <= i < |parameters| ==> parameters[i].name == parameterStrings[i])
    }

    /** What `compile_function` leaves: sorted names, and evaluators taking the variables then those names. */
    ghost predicate CompiledValid()
      reads this
    {
      && StrictlySorted(parameterStrings)
      && f.argNames == Variables(is2D) + parameterStrings
      && Distinct(f.argNames)
      && FreeSymbols(f.body) <= Elements(f.argNames)
      && (forall p :: p in parameterStrings ==> p in gradTable && gradTable[p].argNames == f.argNames)
    }

    /** An object before `__init__` has run: only the two attributes set before compiling. */
    constructor Blank(expression: Expr, addRotation: KwArg)
      ensures this.expression == expression && this.addRotation == addRotation
      ensures gradTable == map[] && parameters == [] && parameterStrings == [] && handles == []
      ensures whitelist == map[] && !is2D
    {
      this.expression := expression;
      this.addRotation := addRotation;
      is2D := false;
      f := Lambdify([], Num(0.0), Numpy);
      parameterStrings := [];
      gradTable := map[];
      parameters := [];
      whitelist := map[];
      name := "";
      handles := [];
    }

    /** `compile_function`: on success every compiled attribute is replaced; `_is2D` is set before a rotation error. */
    method CompileFunction(backend: Module, position: Position, diff: (Expr, string) -> Expr) returns (err: Option<Error>)
      modifies this
      ensures var c := Compile(expression, KwTruthy(addRotation), position, backend, diff);
        && (c.Failure? <==> err.Some?)
        && (c.Failure? ==> err.value == c.error)
        && (c.Success? ==>
              && is2D == c.value.is2D && f == c.value.evaluator
              && parameterStrings == c.value.parameters
              && gradTable == old(gradTable) + c.value.grads)
        && (c.Failure? ==>
              && is2D == (if X in FreeSymbols(expression) then Y in FreeSymbols(expression) else old(is2D))
              && f == old(f) && parameterStrings == old(parameterStrings) && gradTable == old(gradTable))
      ensures parameters == old(parameters) && whitelist == old(whitelist) && name == old(name) && handles == old(handles)
    {
      var names := FreeSymbols(expression);
      if X !in names {
        return Some(MissingVariable);
      }
      is2D := Y in names;
      err := CompileBody(backend, position, diff);
    }

    /** `compile_function` once `_is2D` is set: the optional rotation, then the evaluators. */
    method CompileBody(backend: Module, position: Position, diff: (Expr, string) -> Expr) returns (err: Option<Error>)
      requires X in FreeSymbols(expression) && is2D == (Y in FreeSymbols(expression))
      modifies this
      ensures var c := Compile(expression, KwTruthy(addRotation), position, backend, diff);
        && (c.Failure? <==> err.Some?)
        && (c.Failure? ==> err.value == c.error)
        && (c.Success? ==>
              && f == c.value.evaluator
              && parameterStrings == c.value.parameters
              && gradTable == old(gradTable) + c.value.grads)
        && (c.Failure? ==> f == old(f) && parameterStrings == old(parameterStrings) && gradTable == old(gradTable))
      ensures is2D == old(is2D)
      ensures parameters == old(parameters) && whitelist == old(whitelist) && name == old(name) && handles == old(handles)
    {
      var body := expression;
      if is2D && KwTruthy(addRotation) {
        var centre := RotationCentre(position);
        if centre.Failure? {
          return Some(centre.error);
        }
        body := Rotated(expression, centre.value);
      }
      Install(body, backend, diff);
      assert Compile(expression, KwTruthy(addRotation), position, backend, diff) == Success(Assemble(is2D, body, backend, diff));
      err := None;
    }

    /** The evaluator `_f`, `_parameter_strings` and the gradient evaluators for a formula body. */
    method Install(body: Expr, backend: Module, diff: (Expr, string) -> Expr)
      modifies this
      ensures var c := Assemble(is2D, body, backend, diff);
        f == c.evaluator && parameterStrings == c.parameters && gradTable == old(gradTable) + c.grads
      ensures is2D == old(is2D)
      ensures parameters == old(parameters) && whitelist == old(whitelist) && name == old(name) && handles == old(handles)
    {
      var vars := Variables(is2D);
      var params := Sort(Without(SymbolList(body), Elements(vars)));
      var args := vars + params;
      f := Lambdify(args, body, backend);
      parameterStrings := params;
      InstallGrads(args, body, params, backend, diff);
    }

    /** The loop that sets `_f_grad_<name>` for each parameter name in turn. */
    method InstallGrads(args: seq<string>, body: Expr, params: seq<string>, backend: Module,
                        diff: (Expr, string) -> Expr)
      modifies this
      ensures gradTable == old(gradTable) + GradTable(args, body, params, backend, diff)
      ensures is2D == old(is2D)
      ensures f == old(f) && parameterStrings == old(parameterStrings) && parameters == old(parameters)
      ensures whitelist == old(whitelist) && name == old(name) && handles == old(handles)
    {
      var g0 := gradTable;
      var g := g0;
      for i := 0 to |params|
        invariant g.Keys == g0.Keys + Elements(params[..i])
        invariant forall p :: p in g ==>
                    g[p] == if p in Elements(params[..i]) then Lambdify(args, diff(body, p), backend) else g0[p]
      {
        g := g[params[i] := Lambdify(args, diff(body, params[i]), backend)];
        assert Elements(params[..i + 1]) == Elements(params[..i]) + {params[i]} by {
          assert params[..i + 1] == params[..i] + [params[i]];
          ElementsConcat(params[..i], [params[i]]);
        }
      }
      assert params[..|params|] == params;
      ghost var table := GradTable(args, body, params, backend, diff);
      assert g.Keys == (g0 + table).Keys;
      assert forall p :: p in g ==> g[p] == (g0 + table)[p];
      gradTable := g;
    }

    /** `Component.__init__(self, names)`: one fresh parameter per name, in order. */
    method CreateParameters()
      modifies this
      ensures |parameters| == |parameterStrings|
      ensures forall i :: 0 <= i < |parameters| ==>
                fresh(parameters[i]) && parameters[i].name == parameterStrings[i]
                && parameters[i].value == 0.0 && parameters[i].mapValues == null && parameters[i].mapIsSet == null
      ensures whitelist == map[]
      ensures is2D == old(is2D)
      ensures f == old(f) && parameterStrings == old(parameterStrings) && gradTable == old(gradTable)
      ensures name == old(name) && handles == old(handles)
    {
      var names := parameterStrings;
      var ps: seq<Parameter> := [];
      for i := 0 to |names|
        invariant |ps| == i
        invariant forall j :: 0 <= j < i ==>
                    fresh(ps[j]) && ps[j].name == names[j]
                    && ps[j].value == 0.0 && ps[j].mapValues == null && ps[j].mapIsSet == null
        invariant is2D == old(is2D)
        invariant f == old(f) && parameterStrings == names && gradTable == old(gradTable)
        invariant name == old(name) && handles == old(handles)
      {
        var p := new Parameter(names[i]);
        ps := ps + [p];
      }
      parameters := ps;
      whitelist := map[];
    }

    /** `function(x[, y])`: the compiled evaluator with the variables first, then the current values. */
    function Function(xs: seq<real>, lib: Lib): real
      reads this, parameters
      requires Valid() && |xs| == |Variables(is2D)|
    {
      Apply(f, xs + ValuesOf(parameters), lib)
    }

    /** `grad_<name>(x[, y])`: that parameter's gradient evaluator, called the same way. */
    function Grad(p: string, xs: seq<real>, lib: Lib): real
      reads this, parameters
      requires Valid() && p in parameterStrings && |xs| == |Variables(is2D)|
    {
      Apply(gradTable[p], xs + ValuesOf(parameters), lib)
    }

    /**
     * `function` evaluates the formula with the variables bound to `xs` and
     * each parameter's name bound to its current value.
     */
    lemma FunctionReadsCurrentValues(xs: seq<real>, env: Env, lib: Lib)
      requires Valid() && |xs| == |Variables(is2D)|
      requires forall i :: 0 <= i < |xs| ==> env(Variables(is2D)[i]) == xs[i]
      requires forall i :: 0 <= i < |parameters| ==> env(parameters[i].name) == parameters[i].value
      ensures Function(xs, lib) == Eval(f.body, env, lib)
    {
      var args := xs + ValuesOf(parameters);
      var v := |xs|;
      forall i | 0 <= i < |args| ensures env(f.argNames[i]) == args[i] {
        if i >= v {
          assert f.argNames[i] == parameterStrings[i - v] == parameters[i - v].name;
        }
      }
      ApplyBinds(f, args, env, lib);
    }

    /** Each `grad_<name>` evaluates its gradient formula in the same binding. */
    lemma GradReadsCurrentValues(p: string, xs: seq<real>, env: Env, lib: Lib)
      requires Valid() && p in parameterStrings && |xs| == |Variables(is2D)|
      requires FreeSymbols(gradTable[p].body) <= Elements(f.argNames)
      requires forall i :: 0 <= i < |xs| ==> env(Variables(is2D)[i]) == xs[i]
      requires forall i :: 0 <= i < |parameters| ==> env(parameters[i].name) == parameters[i].value
      ensures Grad(p, xs, lib) == Eval(gradTable[p].body, env, lib)
    {
      var args := xs + ValuesOf(parameters);
      var v := |xs|;
      forall i | 0 <= i < |args| ensures env(gradTable[p].argNames[i]) == args[i] {
        if i >= v {
          assert gradTable[p].argNames[i] == parameterStrings[i - v] == parameters[i - v].name;
        }
      }
      ApplyBinds(gradTable[p], args, env, lib);
    }

    /** The loop over the remaining keyword arguments: `setattr(getattr(self, name), "value", value)`. */
    method SetKeywords(kwargs: map<string, KwArg>) returns (unknown: Option<string>)
      requires Valid()
      modifies parameters
      ensures Valid()
      ensures unknown.None? <==> kwargs.Keys <= Elements(parameterStrings)
      ensures unknown.Some? ==> unknown.value in kwargs && unknown.value !in parameterStrings
      ensures unknown.None? ==> forall i :: 0 <= i < |parameters| ==>
                parameters[i].value == (if parameterStrings[i] in kwargs then KwValue(kwargs[parameterStrings[i]])
                                        else old(parameters[i].value))
      ensures forall i :: 0 <= i < |parameters| ==>
                parameters[i].mapValues == old(parameters[i].mapValues) && parameters[i].mapIsSet == old(parameters[i].mapIsSet)
    {
      SortedIsDistinct(parameterStrings);
      var keys := kwargs.Keys;
      while keys != {}
        invariant keys <= kwargs.Keys
        invariant forall k :: k in kwargs.Keys - keys ==> k in parameterStrings
        invariant forall i :: 0 <= i < |parameters| ==>
                    parameters[i].value == (if parameterStrings[i] in kwargs.Keys - keys then KwValue(kwargs[parameterStrings[i]])
                                            else old(parameters[i].value))
        invariant forall i :: 0 <= i < |parameters| ==>
                    parameters[i].mapValues == old(parameters[i].mapValues) && parameters[i].mapIsSet == old(parameters[i].mapIsSet)
        decreases keys
      {
        var k :| k in keys;
        var idx := IndexOfName(parameterStrings, k);
        if idx.None? {
          return Some(k);
        }
        parameters[idx.value].value := KwValue(kwargs[k]);
        keys := keys - {k};
      }
      return None;
    }

    /** `Expression(expression, name, position, module, **kwargs)`. */
    static method New(expression: Expr, name: string, position: Position, backend: Module,
                      kwargs: map<string, KwArg>, diff: (Expr, string) -> Expr)
      returns (r: Result<Expression, Error>)
      ensures var (addRotation, rest) := PopAddRotation(kwargs);
        var o := Prepared(expression, addRotation, position, backend, diff);
        && (o.Failure? ==> r == Failure(o.error))
        && (o.Success? && rest.Keys <= Elements(o.value.0.parameters) ==> r.Success?)
        && (o.Success? && r.Failure? ==>
              r.error.UnknownAttribute? && r.error.name in rest && r.error.name !in o.value.0.parameters)
        && (r.Success? ==>
              var e := r.value;
              && o.Success? && rest.Keys <= Elements(o.value.0.parameters) && fresh(e)
              && (forall i :: 0 <= i < |e.parameters| ==> fresh(e.parameters[i]))
              && e.Holds(expression, addRotation, o.value.0)
              && e.Initialised(name, position, backend, rest, o.value.1))
    {
      var (addRotation, rest) := PopAddRotation(kwargs);
      ghost var comp := Compile(expression, KwTruthy(addRotation), position, backend, diff);
      var e, err := NewCompiled(expression, addRotation, position, backend, diff);
      if err.Some? {
        return Failure(err.value);
      }
      ghost var c := comp.value;
      ghost var binding := PositionBinding(position, c.is2D, c.parameters);
      assert binding.Success? ==> Prepared(expression, addRotation, position, backend, diff) == Success((c, binding.value));
      err := e.Initialise(name, position, backend, rest);
      assert e.Holds(expression, addRotation, c);
      if err.Some? {
        return Failure(err.value);
      }
      return Success(e);
    }

    /** The object after `compile_function` has succeeded or raised. */
    static method NewCompiled(expression: Expr, addRotation: KwArg, position: Position, backend: Module,
                              diff: (Expr, string) -> Expr)
      returns (e: Expression, err: Option<Error>)
      ensures fresh(e)
      ensures var c := Compile(expression, KwTruthy(addRotation), position, backend, diff);
        && (c.Failure? <==> err.Some?)
        && (c.Failure? ==> err.value == c.error)
        && (c.Success? ==> e.Holds(expression, addRotation, c.value) && e.CompiledValid())
    {
      ghost var comp := Compile(expression, KwTruthy(addRotation), position, backend, diff);
      e := new Expression.Blank(expression, addRotation);
      err := e.CompileFunction(backend, position, diff);
      if err.None? {
        ghost var c := comp.value;
        assert e.gradTable == c.grads;
        assert e.Holds(expression, addRotation, c);
        HoldsIsValid(e, c, expression, addRotation, position, backend, diff);
      }
    }

    /** The rest of `__init__`: parameter objects, whitelist, name, position handles, keyword values. */
    method Initialise(name: string, position: Position, backend: Module, rest: map<string, KwArg>)
      returns (err: Option<Error>)
      requires CompiledValid()
      modifies this
      ensures is2D == old(is2D)
      ensures f == old(f) && parameterStrings == old(parameterStrings) && gradTable == old(gradTable)
      ensures var binding := PositionBinding(position, is2D, parameterStrings);
        && (binding.Failure? ==> err == Some(binding.error))
        && (binding.Success? && rest.Keys <= Elements(parameterStrings) ==> err.None?)
        && (binding.Success? && err.Some? ==>
              err.value.UnknownAttribute? && err.value.name in rest && err.value.name !in parameterStrings)
        && (err.None? ==>
              && binding.Success? && rest.Keys <= Elements(parameterStrings)
              && (forall i :: 0 <= i < |parameters| ==> fresh(parameters[i]))
              && Initialised(name, position, backend, rest, binding.value))
    {
      Populate(name, position, backend);
      err := BindPosition(position);
      if err.Some? {
        return;
      }
      ghost var idx := PositionBinding(position, is2D, parameterStrings).value;
      var unknown := SetKeywords(rest);
      if unknown.Some? {
        return Some(UnknownAttribute(unknown.value));
      }
      assert Initialised(name, position, backend, rest, idx);
      return None;
    }

    /** Looking up the position handles: `_position`, or `_position_x` and `_position_y`. */
    method BindPosition(position: Position) returns (err: Option<Error>)
      requires Valid()
      modifies this
      ensures is2D == old(is2D) && f == old(f) && parameterStrings == old(parameterStrings) && gradTable == old(gradTable)
      ensures parameters == old(parameters) && whitelist == old(whitelist) && name == old(name)
      ensures var binding := PositionBinding(position, is2D, parameterStrings);
        && (binding.Failure? <==> err.Some?)
        && (binding.Failure? ==> err.value == binding.error)
        && (binding.Success? ==>
              && |handles| == |binding.value|
              && forall i :: 0 <= i < |binding.value| ==> binding.value[i] < |parameters| && handles[i] == parameters[binding.value[i]])
    {
      var binding := PositionBinding(position, is2D, parameterStrings);
      if binding.Failure? {
        return Some(binding.error);
      }
      var idx := binding.value;
      var ps := parameters;
      handles := seq(|idx|, i requires 0 <= i < |idx| => ps[idx[i]]);
      return None;
    }

    /** Creating the parameters and recording the whitelist and the name. */
    method Populate(name: string, position: Position, backend: Module)
      requires CompiledValid()
      modifies this
      ensures Valid()
      ensures is2D == old(is2D) && f == old(f) && parameterStrings == old(parameterStrings) && gradTable == old(gradTable)
      ensures handles == old(handles) && this.name == name
      ensures whitelist == Whitelist(expression, name, position, backend, is2D, addRotation)
      ensures forall i :: 0 <= i < |parameters| ==>
                fresh(parameters[i]) && parameters[i].value == 0.0
                && parameters[i].mapValues == null && parameters[i].mapIsSet == null
    {
      CreateParameters();
      whitelist := Whitelist(expression, name, position, backend, is2D, addRotation);
      this.name := name;
    }

    /** The formula and the compiled attributes are those of `c`. */
    ghost predicate Holds(expression: Expr, addRotation: KwArg, c: Compiled)
      reads this
    {
      && this.expression == expression && this.addRotation == addRotation
      && is2D == c.is2D && f == c.evaluator && parameterStrings == c.parameters && gradTable == c.grads
    }

    /** The state `__init__` leaves behind, given the handle indices. */
    ghost predicate Initialised(name: string, position: Position, backend: Module,
                                rest: map<string, KwArg>, binding: seq<nat>)
      reads this, parameters
    {
      Configured(name, rest, binding) && whitelist == Whitelist(expression, name, position, backend, is2D, addRotation)
    }

    /** `Initialised` apart from the whitelist: the name, the handles and the initial values. */
    ghost predicate Configured(name: string, rest: map<string, KwArg>, binding: seq<nat>)
      reads this, parameters
    {
      && Valid()
      && this.name == name
      && |handles| == |binding|
      && (forall i :: 0 <= i < |binding| ==> binding[i] < |parameters| && handles[i] == parameters[binding[i]])
      && (forall i :: 0 <= i < |parameters| ==>
            parameters[i].mapValues == null && parameters[i].mapIsSet == null
            && parameters[i].value == InitialValue(rest, parameterStrings[i]))
    }
  }

  /** The part of construction that cannot fail on keyword arguments: the compiled formula and the handle indices. */
  function Prepared(expression: Expr, addRotation: KwArg, position: Position, backend: Module,
                    diff: (Expr, string) -> Expr): (r: Result<(Compiled, seq<nat>), Error>)
    ensures Compile(expression, KwTruthy(addRotation), position, backend, diff).Failure? ==>
              r == Failure(Compile(expression, KwTruthy(addRotation), position, backend, diff).error)
    ensures r.Success? <==>
              && Compile(expression, KwTruthy(addRotation), position, backend, diff).Success?
              && var c := Compile(expression, KwTruthy(addRotation), position, backend, diff).value;
                 PositionBinding(position, c.is2D, c.parameters).Success?
    ensures r.Success? ==> r.value.0 == Compile(expression, KwTruthy(addRotation), position, backend, diff).value
    ensures Compile(expression, KwTruthy(addRotation), position, backend, diff).Success? ==>
              var c := Compile(expression, KwTruthy(addRotation), position, backend, diff).value;
              var binding := PositionBinding(position, c.is2D, c.parameters);
              && (binding.Failure? ==> r == Failure(binding.error))
              && (binding.Success? ==> r == Success((c, binding.value)))
  {
    var c :- Compile(expression, KwTruthy(addRotation), position, backend, diff);
    var binding :- PositionBinding(position, c.is2D, c.parameters);
    Success((c, binding))
  }

  /** An object holding the attributes of a successful compilation meets `CompiledValid`. */
  lemma HoldsIsValid(e: Expression, c: Compiled, expression: Expr, addRotation: KwArg, position: Position,
                     backend: Module, diff: (Expr, string) -> Expr)
    requires Compile(expression, KwTruthy(addRotation), position, backend, diff) == Success(c)
    requires e.Holds(expression, addRotation, c)
    ensures e.CompiledValid()
  {
    CompiledWellFormed(c, expression, KwTruthy(addRotation), position, backend, diff);
  }
  /**
   * `Expression("x*y", name, position=("b",))`: the formula is 2D with no
   * parameter, and `getattr(self, "b")` raises before `position[1]` is read.
   */
  lemma FirstHandleIsLookedUpFirst(diff: (Expr, string) -> Expr)
    ensures Prepared(Bin(Times, Sym(X), Sym(Y)), Flag(false), PositionNames(["b"]), Numpy, diff)
            == Failure(UnknownAttribute("b"))
  {
    var e := Bin(Times, Sym(X), Sym(Y));
    assert FreeSymbols(e) == {X, Y};
    var c := Compile(e, false, PositionNames(["b"]), Numpy, diff).value;
    assert Elements(c.parameters) == {};
    assert "b" !in Elements(c.parameters);
  }
}
