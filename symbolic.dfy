/**
 * A small stand-in for the symbolic-algebra engine: expression trees, their
 * free symbols, syntactic substitution, evaluation in an environment, and the
 * positional binding that `lambdify` performs. Parsing, simplification and
 * differentiation themselves belong to the engine and are not modelled.
 */
module Symbolic {
  import opened Names

  datatype BinOp = Plus | Minus | Times | Divide

  datatype Expr =
    | Num(value: real)
    | Sym(name: string)
    | Neg(arg: Expr)
    | Bin(op: BinOp, left: Expr, right: Expr)
    | Pow(base: Expr, exponent: nat)
    | Call(fn: string, arg: Expr)

  /** `expr.free_symbols`, by name. */
  function FreeSymbols(e: Expr): set<string>
  {
    match e
    case Num(_) => {}
    case Sym(n) => {n}
    case Neg(a) => FreeSymbols(a)
    case Bin(_, l, r) => FreeSymbols(l) + FreeSymbols(r)
    case Pow(b, _) => FreeSymbols(b)
    case Call(_, a) => FreeSymbols(a)
  }

  /** The symbols of `e` in the order of a left-to-right walk, with repeats. */
  function SymbolList(e: Expr): (l: seq<string>)
    ensures Elements(l) == FreeSymbols(e)
  {
    match e
    case Num(_) => []
    case Sym(n) => [n]
    case Neg(a) => SymbolList(a)
    case Bin(_, l, r) => ElementsConcat(SymbolList(l), SymbolList(r)); SymbolList(l) + SymbolList(r)
    case Pow(b, _) => SymbolList(b)
    case Call(_, a) => SymbolList(a)
  }

  /** Replaces every occurrence of the symbol `v` by `r`. */
  function Subst(e: Expr, v: string, r: Expr): Expr
  {
    match e
    case Num(_) => e
    case Sym(n) => if n == v then r else e
    case Neg(a) => Neg(Subst(a, v, r))
    case Bin(op, a, b) => Bin(op, Subst(a, v, r), Subst(b, v, r))
    case Pow(b, k) => Pow(Subst(b, v, r), k)
    case Call(f, a) => Call(f, Subst(a, v, r))
  }

  /** Substitution removes `v` and brings in the symbols of `r` exactly when `v` occurred. */
  lemma {:induction false} SubstFreeSymbols(e: Expr, v: string, r: Expr)
    ensures FreeSymbols(Subst(e, v, r))
         == (FreeSymbols(e) - {v}) + (if v in FreeSymbols(e) then FreeSymbols(r) else {})
  {
    match e
    case Num(_) =>
    case Sym(n) =>
    case Neg(a) => SubstFreeSymbols(a, v, r);
    case Bin(_, a, b) => SubstFreeSymbols(a, v, r); SubstFreeSymbols(b, v, r);
    case Pow(b, _) => SubstFreeSymbols(b, v, r);
    case Call(_, a) => SubstFreeSymbols(a, v, r);
  }

  type Env = string -> real

  function Update(env: Env, v: string, value: real): Env
  {
    s => if s == v then value else env(s)
  }

  /** The numeric library behind division and named functions (cos, sin, exp, ...). */
  datatype Lib = Lib(divide: (real, real) -> real, call: (string, real) -> real)

  /** `b` to the power `k`. */
  function Power(b: real, k: nat): real
  {
    if k == 0 then 1.0 else b * Power(b, k - 1)
  }

  function Eval(e: Expr, env: Env, lib: Lib): real
  {
    match e
    case Num(c) => c
    case Sym(n) => env(n)
    case Neg(a) => -Eval(a, env, lib)
    case Bin(op, a, b) =>
      var x, y := Eval(a, env, lib), Eval(b, env, lib);
      (match op
       case Plus => x + y
       case Minus => x - y
       case Times => x * y
       case Divide => lib.divide(x, y))
    case Pow(b, k) => Power(Eval(b, env, lib), k)
    case Call(f, a) => lib.call(f, Eval(a, env, lib))
  }

  /** The value of an expression depends only on its free symbols. */
  lemma {:induction false} EvalAgree(e: Expr, env1: Env, env2: Env, lib: Lib)
    requires forall s :: s in FreeSymbols(e) ==> env1(s) == env2(s)
    ensures Eval(e, env1, lib) == Eval(e, env2, lib)
  {
    match e
    case Num(_) =>
    case Sym(n) =>
    case Neg(a) => EvalAgree(a, env1, env2, lib);
    case Bin(_, a, b) => EvalAgree(a, env1, env2, lib); EvalAgree(b, env1, env2, lib);
    case Pow(b, _) => EvalAgree(b, env1, env2, lib);
    case Call(_, a) => EvalAgree(a, env1, env2, lib);
  }

  /** Substituting `r` for `v` is evaluating with `v` bound to the value of `r`. */
  lemma {:induction false} EvalSubst(e: Expr, v: string, r: Expr, env: Env, lib: Lib)
    ensures Eval(Subst(e, v, r), env, lib) == Eval(e, Update(env, v, Eval(r, env, lib)), lib)
  {
    match e
    case Num(_) =>
    case Sym(n) =>
    case Neg(a) => EvalSubst(a, v, r, env, lib);
    case Bin(_, a, b) => EvalSubst(a, v, r, env, lib); EvalSubst(b, v, r, env, lib);
    case Pow(b, _) => EvalSubst(b, v, r, env, lib);
    case Call(_, a) => EvalSubst(a, v, r, env, lib);
  }

  /** What parsing `a*1` yields: the engine drops a factor of one. */
  function TimesEval(a: Expr, b: Expr): (r: Expr)
    ensures forall env, lib :: Eval(r, env, lib) == Eval(a, env, lib) * Eval(b, env, lib)
    ensures FreeSymbols(r) == FreeSymbols(a) + FreeSymbols(b)
  {
    if b == Num(1.0) then a else Bin(Times, a, b)
  }

  /** What parsing `b**k` yields: `b**0` becomes 1 and `b**1` becomes `b`. */
  function PowEval(b: Expr, k: nat): (r: Expr)
    ensures forall env, lib :: Eval(r, env, lib) == Power(Eval(b, env, lib), k)
    ensures FreeSymbols(r) == if k == 0 then {} else FreeSymbols(b)
  {
    if k == 0 then Num(1.0) else if k == 1 then b else Pow(b, k)
  }

  datatype Module = Numpy | Numexpr

  /** What `lambdify(args, body, modules=backend)` returns: a positional evaluator. */
  datatype Evaluator = Lambdify(argNames: seq<string>, body: Expr, backend: Module)

  /** The value of the first argument named `s`; 0 when there is none. */
  function Lookup(names: seq<string>, args: seq<real>, s: string): real
    requires |names| == |args|
  {
    if names == [] then 0.0
    else if names[0] == s then args[0]
    else Lookup(names[1..], args[1..], s)
  }

  function Bind(names: seq<string>, args: seq<real>): Env
    requires |names| == |args|
  {
    s => Lookup(names, args, s)
  }

  /** With distinct argument names, each name is bound to the argument in its position. */
  lemma {:induction false} LookupPosition(names: seq<string>, args: seq<real>, i: nat)
    requires |names| == |args| && i < |names|
    requires Distinct(names)
    ensures Lookup(names, args, names[i]) == args[i]
  {
    if i > 0 {
      assert names[0] != names[i];
      assert Distinct(names[1..]) by {
        forall a, b | 0 <= a < b < |names[1..]| ensures names[1..][a] != names[1..][b] {
          assert names[a + 1] != names[b + 1];
        }
      }
      LookupPosition(names[1..], args[1..], i - 1);
    }
  }

  /** Calling the evaluator positionally. */
  function Apply(ev: Evaluator, args: seq<real>, lib: Lib): real
    requires |args| == |ev.argNames|
  {
    Eval(ev.body, Bind(ev.argNames, args), lib)
  }

  /**
   * A call with distinct argument names and a body whose symbols are all
   * arguments evaluates the body with each name bound to its argument.
   */
  lemma ApplyBinds(ev: Evaluator, args: seq<real>, env: Env, lib: Lib)
    requires |args| == |ev.argNames| && Distinct(ev.argNames)
    requires FreeSymbols(ev.body) <= Elements(ev.argNames)
    requires forall i :: 0 <= i < |args| ==> env(ev.argNames[i]) == args[i]
    ensures Apply(ev, args, lib) == Eval(ev.body, env, lib)
  {
    forall s | s in FreeSymbols(ev.body) ensures Bind(ev.argNames, args)(s) == env(s) {
      var i :| 0 <= i < |ev.argNames| && ev.argNames[i] == s;
      LookupPosition(ev.argNames, args, i);
    }
    EvalAgree(ev.body, Bind(ev.argNames, args), env, lib);
  }
}
