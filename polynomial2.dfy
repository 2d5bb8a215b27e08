/**
 * The expanded-form `Polynomial2` component: an `Expression` whose formula is
 * `a<n>*x**<n>+...+a<0>*x**0`, the degrees zero-padded to the number of
 * digits of the order, with an estimate that writes a least-squares fit back
 * into the parameters, highest degree first onto the reversed parameter list.
 */
module Polynomial2Component {
  import opened Wrappers
  import opened Names
  import opened Text
  import opened Symbolic
  import opened ExpressionCompiler
  import opened ExpressionComponent
  import opened FitLayout
  import P = PolynomialComponent

  // ---- Names and formula text -------------------------------------------

  /** `len(list(str(order)))`: the width every degree is padded to. */
  function Width(order: nat): nat
  {
    |Decimal(order)|
  }

  /** The name of the coefficient of `x**k`: `"a"` and `str(k).zfill(width)`. */
  function ParameterName(k: nat, order: nat): string
  {
    "a" + ZFill(Decimal(k), Width(order))
  }

  /** `coeff_list`: the padded degrees from `order` down to 0. */
  function CoeffList(order: nat): (r: seq<string>)
    ensures |r| == order + 1
  {
    seq(order + 1, i requires 0 <= i <= order => ZFill(Decimal(order - i), Width(order)))
  }

  /** The terms `"a{c}*x**{o}"` of the formula, from degree `order` down to 0. */
  function Terms(order: nat): (r: seq<string>)
    ensures |r| == order + 1
  {
    var cs := CoeffList(order);
    seq(order + 1, i requires 0 <= i <= order => "a" + cs[i] + "*x**" + Decimal(order - i))
  }

  /** The formula text `"+".join(terms)`. */
  function FormulaText(order: nat): string
  {
    Join(Terms(order), '+')
  }

  /** The names in ascending degree: `a0..an`, padded. */
  function Ascending(order: nat): (r: seq<string>)
    ensures |r| == order + 1 && forall k :: 0 <= k <= order ==> r[k] == ParameterName(k, order)
  {
    seq(order + 1, k requires 0 <= k <= order => ParameterName(k, order))
  }

  lemma {:induction false} DecimalHasNoPlus(n: nat)
    ensures '+' !in Decimal(n)
    decreases n
  {
    if n >= 10 {
      DecimalHasNoPlus(n / 10);
    }
  }

  lemma TermHasNoPlus(order: nat, i: nat)
    requires i <= order
    ensures '+' !in Terms(order)[i]
  {
    var d := Decimal(order - i);
    var z := ZFill(d, Width(order));
    DecimalHasNoPlus(order - i);
    assert '+' !in z by {
      if |d| < Width(order) {
        assert z == Zeros(Width(order) - |d|) + d;
      }
    }
    assert Terms(order)[i] == "a" + z + "*x**" + d;
  }

  /**
   * Term `i` of the formula multiplies the parameter of degree `order - i` by
   * that power of `x`, and splitting the text at `+` gives the terms back.
   */
  lemma FormulaTerms(order: nat)
    ensures forall i :: 0 <= i <= order ==>
              Terms(order)[i] == ParameterName(order - i, order) + "*x**" + Decimal(order - i)
    ensures Split(FormulaText(order), '+') == Terms(order)
  {
    var ts := Terms(order);
    var cs := CoeffList(order);
    forall i | 0 <= i <= order
      ensures ts[i] == ParameterName(order - i, order) + "*x**" + Decimal(order - i)
    {
      assert cs[i] == ZFill(Decimal(order - i), Width(order));
      assert ts[i] == "a" + cs[i] + "*x**" + Decimal(order - i);
    }
    forall t | t in ts ensures '+' !in t {
      var i :| 0 <= i < |ts| && ts[i] == t;
      TermHasNoPlus(order, i);
    }
    SplitJoin(ts, '+');
  }

  /** Every name is `"a"` followed by the degree written on exactly `Width(order)` digits. */
  lemma NameDigits(k: nat, order: nat)
    requires k <= order
    ensures ParameterName(k, order) == "a" + FixedDigits(k, Width(order))
    ensures |ParameterName(k, order)| == 1 + Width(order)
  {
    DecimalMonotone(k, order);
    ZFillDecimal(k, Width(order));
  }

  /** The padding makes the names' string order the order of their degrees. */
  lemma NamesAscend(order: nat)
    ensures StrictlySorted(Ascending(order))
  {
    var w := Width(order);
    DecimalLength(order, w);
    forall i, j | 0 <= i < j < |Ascending(order)| ensures Less(Ascending(order)[i], Ascending(order)[j]) {
      NameDigits(i, order);
      NameDigits(j, order);
      FixedDigitsOrder(i, j, w);
      var s, t := Ascending(order)[i], Ascending(order)[j];
      assert s[0] == t[0] && s[1..] == FixedDigits(i, w) && t[1..] == FixedDigits(j, w);
    }
  }

  /** The names are distinct from the variables, which do not start with `a`. */
  lemma NamesAreNotVariables(order: nat)
    ensures X !in Ascending(order) && Y !in Ascending(order)
  {
    forall k | 0 <= k <= order ensures Ascending(order)[k] != X && Ascending(order)[k] != Y {
      assert Ascending(order)[k][0] == 'a';
    }
  }

  // ---- The parsed formula -----------------------------------------------

  /** Term `k` as the engine parses it: `a_k*x**k`, with `x**0` and `*1` simplified away. */
  function TermExpr(k: nat, order: nat): Expr
  {
    TimesEval(Sym(ParameterName(k, order)), PowEval(Sym(X), k))
  }

  /** The sum of the terms of degree `order` down to `j`, added left to right. */
  function Partial(order: nat, j: nat): Expr
    requires j <= order
    decreases order - j
  {
    if j == order then TermExpr(order, order) else Bin(Plus, Partial(order, j + 1), TermExpr(j, order))
  }

  /** The parsed formula. */
  function ExpandedForm(order: nat): Expr
  {
    Partial(order, 0)
  }

  lemma {:induction false} PartialSymbols(order: nat, j: nat)
    requires j <= order
    ensures FreeSymbols(Partial(order, j)) == Elements(Ascending(order)[j..]) + (if order >= 1 then {X} else {})
    decreases order - j
  {
    var a := Ascending(order);
    if j == order {
      assert a[j..] == [ParameterName(order, order)];
    } else {
      PartialSymbols(order, j + 1);
      var tail := a[j..];
      assert tail[0] == a[j] && tail[1..] == a[j + 1..];
      ElementsCons(tail);
    }
  }

  /** The parsed formula's symbols are `x`, unless the order is 0, and the coefficient names. */
  lemma ExpandedSymbols(order: nat)
    ensures FreeSymbols(ExpandedForm(order)) == Elements(Ascending(order)) + (if order >= 1 then {X} else {})
  {
    PartialSymbols(order, 0);
    assert Ascending(order)[0..] == Ascending(order);
  }

  /** The values of the coefficient names in an environment, in ascending degree. */
  function Coeffs(order: nat, env: Env): (a: seq<real>)
    ensures |a| == order + 1 && forall k :: 0 <= k <= order ==> a[k] == env(ParameterName(k, order))
  {
    seq(order + 1, k requires 0 <= k <= order => env(ParameterName(k, order)))
  }

  /** `Σ a[k]·x^k`, the lowest degree first. */
  function AscSum(a: seq<real>, x: real): real
  {
    if a == [] then 0.0 else AscSum(a[..|a| - 1], x) + a[|a| - 1] * Power(x, |a| - 1)
  }

  lemma {:induction false} PartialValue(order: nat, j: nat, env: Env, lib: Lib)
    requires j <= order
    ensures Eval(Partial(order, j), env, lib) + AscSum(Coeffs(order, env)[..j], env(X))
            == AscSum(Coeffs(order, env), env(X))
    decreases order - j
  {
    var a, x := Coeffs(order, env), env(X);
    var t := Eval(TermExpr(j, order), env, lib);
    assert t == a[j] * Power(x, j);
    var pre := a[..j + 1];
    assert pre[..j] == a[..j] && pre[j] == a[j];
    assert AscSum(pre, x) == AscSum(a[..j], x) + t;
    if j == order {
      assert pre == a;
    } else {
      PartialValue(order, j + 1, env, lib);
      assert Eval(Partial(order, j), env, lib) == Eval(Partial(order, j + 1), env, lib) + t;
    }
  }

  function Reverse(a: seq<real>): (r: seq<real>)
    ensures |r| == |a| && forall i :: 0 <= i < |a| ==> r[i] == a[|a| - 1 - i]
  {
    seq(|a|, i requires 0 <= i < |a| => a[|a| - 1 - i])
  }

  lemma {:induction false} AscSumIsReversedPowerSum(a: seq<real>, x: real)
    ensures AscSum(a, x) == P.PowerSum(Reverse(a), x)
    decreases |a|
  {
    if a != [] {
      var n := |a|;
      AscSumIsReversedPowerSum(a[..n - 1], x);
      assert Reverse(a)[1..] == Reverse(a[..n - 1]);
    }
  }

  /**
   * The parsed formula is `np.polyval` of the coefficient values reversed:
   * highest degree first, as the vector-form component holds them.
   */
  lemma ExpandedFormIsPolyVal(order: nat, env: Env, lib: Lib)
    ensures Eval(ExpandedForm(order), env, lib) == P.PolyVal(Reverse(Coeffs(order, env)), env(X))
  {
    PartialValue(order, 0, env, lib);
    P.HornerIsPowerSum(Reverse(Coeffs(order, env)), env(X));
    AscSumIsReversedPowerSum(Coeffs(order, env), env(X));
  }

  // ---- Compilation ------------------------------------------------------

  /** `Polynomial2(0)`: the formula `a0*x**0` parses without an `x`, and compiling it fails. */
  lemma OrderZeroHasNoVariable(addRotation: bool, position: Position, backend: Module,
                               diff: (Expr, string) -> Expr)
    ensures Compile(ExpandedForm(0), addRotation, position, backend, diff) == Failure(MissingVariable)
  {
    ExpandedSymbols(0);
  }

  /**
   * From order 1 on, compiling gives a 1D component whose sorted parameter
   * list is the names in ascending degree; with no position there are no
   * handles to bind.
   */
  lemma {:induction false} CompiledAscending(order: nat, addRotation: KwArg, backend: Module,
                                            diff: (Expr, string) -> Expr)
    requires order >= 1
    ensures var o := Prepared(ExpandedForm(order), addRotation, NoPosition, backend, diff);
      && o.Success? && !o.value.0.is2D && o.value.0.body == ExpandedForm(order)
      && o.value.0.parameters == Ascending(order) && o.value.1 == []
  {
    var e := ExpandedForm(order);
    ExpandedSymbols(order);
    NamesAreNotVariables(order);
    assert X in FreeSymbols(e) && Y !in FreeSymbols(e);
    var c := Compile(e, KwTruthy(addRotation), NoPosition, backend, diff);
    assert c.Success? && !c.value.is2D;
    NamesAscend(order);
    assert Elements(c.value.parameters) == Elements(Ascending(order));
    SortedUnique(c.value.parameters, Ascending(order));
  }

  /** For orders 0 to 9 the constant term is named `a0`; from 10 on the names are wider and `a0` is not one. */
  lemma A0NamesAParameterIffOrderBelowTen(order: nat)
    ensures "a0" in Ascending(order) <==> order < 10
  {
    if order < 10 {
      assert Ascending(order)[0] == "a0";
    } else {
      DecimalLength(order, 1);
      assert Width(order) >= 2;
      forall k | 0 <= k <= order ensures Ascending(order)[k] != "a0" {
        NameDigits(k, order);
      }
    }
  }

  /** The constant term's name, whatever the order: the first name in sorted order. */
  function LowestDegreeName(order: nat): (r: string)
    ensures r in Ascending(order) && r == Ascending(order)[0]
    ensures r == "a" + Zeros(Width(order))
  {
    NameDigits(0, order);
    FixedDigitsZero(Width(order));
    ParameterName(0, order)
  }

  // ---- The component ----------------------------------------------------

  /** The parameters' map arrays, as far as they exist. */
  ghost function MapArrays(ps: seq<Parameter>): set<object>
    reads ps
  {
    (set i | 0 <= i < |ps| && ps[i].mapValues != null :: ps[i].mapValues as object)
    + (set i | 0 <= i < |ps| && ps[i].mapIsSet != null :: ps[i].mapIsSet as object)
  }

  /** No parameter has its map arrays yet. */
  ghost predicate NoMaps(ps: seq<Parameter>)
    reads ps
  {
    forall i :: 0 <= i < |ps| ==> ps[i].mapValues == null && ps[i].mapIsSet == null
  }

  /** Every parameter has its own map arrays, one entry per pixel. */
  ghost predicate AllMaps(ps: seq<Parameter>, nav: nat)
    reads ps
  {
    && (forall i :: 0 <= i < |ps| ==> ps[i].HasMap(nav))
    && (forall i, j :: 0 <= i < j < |ps| ==> ps[i].mapValues != ps[j].mapValues && ps[i].mapIsSet != ps[j].mapIsSet)
  }

  /** Parameters whose names differ are different objects. */
  lemma DistinctParameters(e: Expression)
    requires e.Valid()
    ensures forall i, j :: 0 <= i < j < |e.parameters| ==> e.parameters[i] != e.parameters[j]
  {
    SortedIsDistinct(e.parameterStrings);
  }

  /*
   * A `Polynomial2` is an `Expression` object; its own methods below take
   * that object.
   */

  /** What construction leaves for an order: the parsed formula compiled with the names in ascending degree. */
  ghost predicate Built(e: Expression, order: nat)
    reads e
  {
    && order >= 1
    && e.Valid()
    && e.expression == ExpandedForm(order)
    && !e.is2D
    && e.f.body == ExpandedForm(order)
    && e.parameterStrings == Ascending(order)
  }

  function GetPolynomialOrder(e: Expression): int
    reads e
  {
    |e.parameters| - 1
  }

  /** The keywords that `Polynomial2.__init__` passes to `Expression.__init__` itself. */
  const FixedKeywords: set<string> := {"expression", "name", "autodoc"}

  /**
   * What `Expression.__init__` records for the forwarded `position`: the
   * keyword's own object, or the default `None`.
   */
  function ForwardedPosition(kwargs: map<string, KwArg>): (a: InitArg)
    ensures "position" in kwargs ==> a == KeywordArg(kwargs["position"])
    ensures "position" !in kwargs ==> a == PositionArg(NoPosition)
  {
    if "position" in kwargs then KeywordArg(kwargs["position"]) else PositionArg(NoPosition)
  }

  /**
   * `Polynomial2(order, module, **kwargs)`, which calls
   * `Expression.__init__(expression=..., name=..., module=..., autodoc=False, **kwargs)`.
   * A keyword of `kwargs` that this call already passes raises first. A
   * `position` keyword is bound to `Expression.__init__`'s own `position`:
   * the formula is 1D, so a truthy one reaches `getattr(self, position)`
   * with an object that is no string. Otherwise order 0 raises, and the
   * only error left is a keyword that names no coefficient.
   */
  method New(order: nat, backend: Module, kwargs: map<string, KwArg>, ordinal: nat -> string,
             diff: (Expr, string) -> Expr)
    returns (r: Result<Expression, Error>)
    // `order` and `module` are named parameters, so `**kwargs` never holds them
    requires "order" !in kwargs && "module" !in kwargs
    ensures kwargs.Keys * FixedKeywords != {} <==> r.Failure? && r.error.RepeatedKeyword?
    ensures r.Failure? && r.error.RepeatedKeyword? ==> r.error.name in kwargs && r.error.name in FixedKeywords
    ensures kwargs.Keys * FixedKeywords == {} ==>
      var rest := PopAddRotation(kwargs - {"position"}).1;
      var truthy := "position" in kwargs && KwTruthy(kwargs["position"]);
      && (order == 0 ==> r == Failure(MissingVariable))
      && (order >= 1 && truthy ==> r == Failure(PositionType))
      && (order >= 1 && !truthy ==> (r.Success? <==> rest.Keys <= Elements(Ascending(order))))
      && (order >= 1 && !truthy && r.Failure? ==>
            r.error.UnknownAttribute? && r.error.name in rest && r.error.name !in Ascending(order))
      && (r.Success? ==>
            && fresh(r.value)
            && Built(r.value, order)
            && GetPolynomialOrder(r.value) == order
            && r.value.Configured(ordinal(order) + " order Polynomial", rest, [])
            && r.value.whitelist
               == Whitelist(ExpandedForm(order), ordinal(order) + " order Polynomial", NoPosition, backend,
                            false, PopAddRotation(kwargs).0)["position" := ForwardedPosition(kwargs)])
  {
    var clash := kwargs.Keys * FixedKeywords;
    if clash != {} {
      var k :| k in clash;
      return Failure(RepeatedKeyword(k));
    }
    var others := kwargs - {"position"};
    assert PopAddRotation(others).0 == PopAddRotation(kwargs).0;
    r := NewForwarded(order, backend, "position" in kwargs && KwTruthy(kwargs["position"]), others,
                      ForwardedPosition(kwargs), ordinal(order) + " order Polynomial", diff);
  }

  /**
   * The call into `Expression.__init__` once the keywords are sorted out:
   * `others` is `kwargs` without `position`, `truthy` says whether that
   * position is truthy, and `recorded` is the whitelist entry it leaves.
   */
  method NewForwarded(order: nat, backend: Module, truthy: bool, others: map<string, KwArg>,
                      recorded: InitArg, name: string, diff: (Expr, string) -> Expr)
    returns (r: Result<Expression, Error>)
    ensures var rest := PopAddRotation(others).1;
      && (order == 0 ==> r == Failure(MissingVariable))
      && (order >= 1 && truthy ==> r == Failure(PositionType))
      && (order >= 1 && !truthy ==> (r.Success? <==> rest.Keys <= Elements(Ascending(order))))
      && (order >= 1 && !truthy && r.Failure? ==>
            r.error.UnknownAttribute? && r.error.name in rest && r.error.name !in Ascending(order))
      && (r.Success? ==>
            && fresh(r.value)
            && Built(r.value, order)
            && GetPolynomialOrder(r.value) == order
            && r.value.Configured(name, rest, [])
            && r.value.whitelist
               == Whitelist(ExpandedForm(order), name, NoPosition, backend, false, PopAddRotation(others).0)
                    ["position" := recorded])
  {
    if order == 0 {
      OrderZeroHasNoVariable(KwTruthy(PopAddRotation(others).0), NoPosition, backend, diff);
      r := Expression.New(ExpandedForm(order), name, NoPosition, backend, others, diff);
      return;
    }
    CompiledAscending(order, PopAddRotation(others).0, backend, diff);
    if truthy {
      return Failure(PositionType);
    }
    r := Expression.New(ExpandedForm(order), name, NoPosition, backend, others, diff);
    if r.Success? {
      RecordPosition(r.value, recorded, order, name, PopAddRotation(others).1);
    }
  }

  /** `_whitelist['position']` holds what was passed as `position`, which need not be a `Position`. */
  method RecordPosition(e: Expression, recorded: InitArg, ghost order: nat, ghost name: string,
                        ghost rest: map<string, KwArg>)
    requires Built(e, order) && e.Configured(name, rest, [])
    modifies e
    ensures Built(e, order) && e.Configured(name, rest, [])
    ensures e.whitelist == old(e.whitelist)["position" := recorded]
  {
    e.whitelist := e.whitelist["position" := recorded];
  }

  /**
   * `estimate_parameters`. With `onlyCurrent`, parameter `k` of the sorted
   * list receives fit coefficient `n - 1 - k` of the current pixel's window
   * (the reversed pairing). Otherwise `self.a0` is looked up, which raises
   * when no parameter has that name; the map arrays are created if `a0` has
   * none; each parameter's map receives, for every pixel, the corresponding
   * column of the stored fit, with every pixel marked set; and
   * `fetch_stored_values` loads the current pixel `index` into the values.
   * Of `Valid()` it needs only one name per parameter and distinct parameter
   * objects, which `DistinctParameters` derives from `Valid()`.
   */
  method EstimateParameters(e: Expression, fit: PolyFit, axis: seq<real>, scale: real, binned: bool,
                            i1: nat, i2: nat, onlyCurrent: bool, current: seq<real>, data: Matrix,
                            layout: Layout, nav: nat, index: nat)
    returns (r: Result<bool, Error>)
    requires |e.parameterStrings| == |e.parameters| && |e.parameters| >= 1
    requires forall i, j :: 0 <= i < j < |e.parameters| ==> e.parameters[i] != e.parameters[j]
    requires NoMaps(e.parameters) || AllMaps(e.parameters, nav)
    requires i1 <= i2 <= |axis| && |current| == |axis|
    requires DataShape(data, layout, nav, |axis|)
    requires index < nav
    requires binned ==> scale != 0.0
    modifies e.parameters, MapArrays(e.parameters)
    ensures var ps := old(e.parameters);
      onlyCurrent ==>
      && r == Success(true)
      && ValuesWritten(ps, fit(axis[i1..i2], current[i1..i2], |ps| - 1), binned, scale)
      && (forall k :: 0 <= k < |ps| ==>
            ps[k].mapValues == old(ps[k].mapValues) && ps[k].mapIsSet == old(ps[k].mapIsSet))
      && unchanged(MapArrays(ps))
    ensures var ps := old(e.parameters);
      !onlyCurrent && "a0" !in old(e.parameterStrings) ==>
      r == Failure(UnknownAttribute("a0")) && unchanged(ps) && unchanged(MapArrays(ps))
    ensures var ps := old(e.parameters);
      !onlyCurrent && "a0" in old(e.parameterStrings) ==>
      && r == Success(true)
      && AllMaps(ps, nav)
      && StoredFitWritten(ps, fit, axis, data, layout, nav, i1, i2, binned, scale)
      && forall k :: 0 <= k < |ps| ==>
           && ps[k].value == ps[k].mapValues[index]
           && (old(ps[k].mapValues) != null ==>
                 ps[k].mapValues == old(ps[k].mapValues) && ps[k].mapIsSet == old(ps[k].mapIsSet))
           && (old(ps[k].mapValues) == null ==> fresh(ps[k].mapValues) && fresh(ps[k].mapIsSet))
  {
    r := EstimateOn(e.parameters, e.parameterStrings, fit, axis, scale, binned, i1, i2, onlyCurrent, current,
                    data, layout, nav, index);
  }

  /** `EstimateParameters` on the parameter list `ps` and its names. */
  method EstimateOn(ps: seq<Parameter>, names: seq<string>, fit: PolyFit, axis: seq<real>, scale: real,
                    binned: bool, i1: nat, i2: nat, onlyCurrent: bool, current: seq<real>, data: Matrix,
                    layout: Layout, nav: nat, index: nat)
    returns (r: Result<bool, Error>)
    requires |names| == |ps| && |ps| >= 1 && index < nav
    requires forall i, j :: 0 <= i < j < |ps| ==> ps[i] != ps[j]
    requires NoMaps(ps) || AllMaps(ps, nav)
    requires i1 <= i2 <= |axis| && |current| == |axis|
    requires DataShape(data, layout, nav, |axis|)
    requires binned ==> scale != 0.0
    modifies ps, MapArrays(ps)
    ensures onlyCurrent ==>
      && r == Success(true)
      && ValuesWritten(ps, fit(axis[i1..i2], current[i1..i2], |ps| - 1), binned, scale)
      && (forall k :: 0 <= k < |ps| ==>
            ps[k].mapValues == old(ps[k].mapValues) && ps[k].mapIsSet == old(ps[k].mapIsSet))
      && unchanged(MapArrays(ps))
    ensures !onlyCurrent && "a0" !in names ==>
      r == Failure(UnknownAttribute("a0")) && unchanged(ps) && unchanged(MapArrays(ps))
    ensures !onlyCurrent && "a0" in names ==>
      && r == Success(true)
      && AllMaps(ps, nav)
      && StoredFitWritten(ps, fit, axis, data, layout, nav, i1, i2, binned, scale)
      && forall k :: 0 <= k < |ps| ==>
           && ps[k].value == ps[k].mapValues[index]
           && (old(ps[k].mapValues) != null ==>
                 ps[k].mapValues == old(ps[k].mapValues) && ps[k].mapIsSet == old(ps[k].mapIsSet))
           && (old(ps[k].mapValues) == null ==> fresh(ps[k].mapValues) && fresh(ps[k].mapIsSet))
  {
    if onlyCurrent {
      WriteValues(ps, fit(axis[i1..i2], current[i1..i2], |ps| - 1), binned, scale);
      r := Success(true);
    } else {
      r := StoreAndFetch(ps, names, fit, axis, data, layout, nav, i1, i2, binned, scale, index);
    }
  }

  /** The full-dataset branch: `EstimateMaps`, then `fetch_stored_values` at pixel `index`. */
  method StoreAndFetch(ps: seq<Parameter>, names: seq<string>, fit: PolyFit, axis: seq<real>, data: Matrix,
                       layout: Layout, nav: nat, i1: nat, i2: nat, binned: bool, scale: real, index: nat)
    returns (r: Result<bool, Error>)
    requires |names| == |ps| && |ps| >= 1 && index < nav
    requires i1 <= i2 <= |axis| && DataShape(data, layout, nav, |axis|)
    requires forall i, j :: 0 <= i < j < |ps| ==> ps[i] != ps[j]
    requires NoMaps(ps) || AllMaps(ps, nav)
    requires binned ==> scale != 0.0
    modifies ps, MapArrays(ps)
    ensures "a0" !in names ==> r == Failure(UnknownAttribute("a0")) && unchanged(ps) && unchanged(MapArrays(ps))
    ensures "a0" in names ==>
      && r == Success(true)
      && AllMaps(ps, nav)
      && StoredFitWritten(ps, fit, axis, data, layout, nav, i1, i2, binned, scale)
      && forall k :: 0 <= k < |ps| ==>
           && ps[k].value == ps[k].mapValues[index]
           && (old(ps[k].mapValues) != null ==>
                 ps[k].mapValues == old(ps[k].mapValues) && ps[k].mapIsSet == old(ps[k].mapIsSet))
           && (old(ps[k].mapValues) == null ==> fresh(ps[k].mapValues) && fresh(ps[k].mapIsSet))
  {
    var m := StoredMap(fit, axis, data, layout, nav, |axis|, i1, i2, |ps| - 1);
    r := EstimateMaps(ps, names, m, nav, binned, scale);
    if r.Success? {
      label stored:
      FetchStoredValues(ps, index);
      forall k | 0 <= k < |ps|
        ensures ColumnWritten(ps[k], m, |ps| - 1 - k, nav, binned, scale)
        ensures ps[k].HasMap(nav)
        ensures ps[k].value == ps[k].mapValues[index]
      {
        assert old@stored(ColumnWritten(ps[k], m, |ps| - 1 - k, nav, binned, scale));
        assert old@stored(ps[k].HasMap(nav));
        assert IsSetAt(ps[k], index);
      }
    }
  }

  /**
   * `fetch_stored_values()`: every parameter whose map is set at the current
   * pixel `index` takes the value stored there.
   */
  method FetchStoredValues(ps: seq<Parameter>, index: nat)
    requires forall i, j :: 0 <= i < j < |ps| ==> ps[i] != ps[j]
    modifies ps
    ensures forall k :: 0 <= k < |ps| ==>
              ps[k].mapValues == old(ps[k].mapValues) && ps[k].mapIsSet == old(ps[k].mapIsSet)
    ensures forall k :: 0 <= k < |ps| && IsSetAt(ps[k], index) ==> ps[k].value == ps[k].mapValues[index]
  {
    for j := 0 to |ps|
      invariant forall k :: 0 <= k < |ps| ==>
                  ps[k].mapValues == old(ps[k].mapValues) && ps[k].mapIsSet == old(ps[k].mapIsSet)
      invariant forall k :: 0 <= k < j && IsSetAt(ps[k], index) ==> ps[k].value == ps[k].mapValues[index]
    {
      var q := ps[j];
      if q.mapValues != null && q.mapIsSet != null && index < q.mapValues.Length && index < q.mapIsSet.Length
         && q.mapIsSet[index] {
        q.value := q.mapValues[index];
      }
    }
  }

  /** The parameter's map exists and is set at pixel `index`. */
  ghost predicate IsSetAt(q: Parameter, index: nat)
    reads q, q.mapValues, q.mapIsSet
  {
    q.mapValues != null && q.mapIsSet != null && index < q.mapValues.Length && index < q.mapIsSet.Length
    && q.mapIsSet[index]
  }

  /** Parameter `k` holds fit coefficient `n - 1 - k`: the fit paired with `parameters[::-1]`. */
  ghost predicate ValuesWritten(ps: seq<Parameter>, est: seq<real>, binned: bool, scale: real)
    requires binned ==> scale != 0.0
    reads ps
  {
    |est| == |ps| && forall k :: 0 <= k < |ps| ==> ps[k].value == P.Scaled(est[|ps| - 1 - k], binned, scale)
  }

  /** Every pixel of `q`'s map holds column `col` of the fit and is marked set. */
  ghost predicate ColumnWritten(q: Parameter, m: Matrix, col: nat, nav: nat, binned: bool, scale: real)
    requires binned ==> scale != 0.0
    reads q, q.mapValues, q.mapIsSet
  {
    q.mapValues != null && q.mapIsSet != null && ColumnIn(q.mapValues, q.mapIsSet, m, col, nav, binned, scale)
  }

  /** The value map `a` holds column `col` of `m`, scaled, and every pixel of `isSet` is set. */
  ghost predicate ColumnIn(a: array<real>, isSet: array<bool>, m: Matrix, col: nat, nav: nat, binned: bool, scale: real)
    requires binned ==> scale != 0.0
    reads a, isSet
  {
    && a.Length == nav && isSet.Length == nav && |m| == nav
    && forall p :: 0 <= p < nav ==> col < |m[p]| && a[p] == P.Scaled(m[p][col], binned, scale) && isSet[p]
  }

  /** Parameter `k`'s map holds column `n - 1 - k` of the fit. */
  ghost predicate MapsWritten(ps: seq<Parameter>, m: Matrix, nav: nat, binned: bool, scale: real)
    requires binned ==> scale != 0.0
    reads ps, MapArrays(ps)
  {
    forall k :: 0 <= k < |ps| ==> ColumnWritten(ps[k], m, |ps| - 1 - k, nav, binned, scale)
  }

  /** Parameter `k`'s map holds column `n - 1 - k` of the stored fit of the window `[i1:i2]`. */
  ghost predicate StoredFitWritten(ps: seq<Parameter>, fit: PolyFit, axis: seq<real>, data: Matrix, layout: Layout,
                                   nav: nat, i1: nat, i2: nat, binned: bool, scale: real)
    requires |ps| >= 1 && i1 <= i2 <= |axis| && DataShape(data, layout, nav, |axis|)
    requires binned ==> scale != 0.0
    reads ps, MapArrays(ps)
  {
    MapsWritten(ps, StoredMap(fit, axis, data, layout, nav, |axis|, i1, i2, |ps| - 1), nav, binned, scale)
  }

  /** The full-dataset branch after the fit: `self.a0`, `_create_arrays` if needed, the reversed enumeration. */
  method EstimateMaps(ps: seq<Parameter>, names: seq<string>, m: Matrix, nav: nat, binned: bool, scale: real)
    returns (r: Result<bool, Error>)
    requires |names| == |ps| && IsMatrix(m, nav, |ps|)
    requires forall i, j :: 0 <= i < j < |ps| ==> ps[i] != ps[j]
    requires NoMaps(ps) || AllMaps(ps, nav)
    requires binned ==> scale != 0.0
    modifies ps, MapArrays(ps)
    ensures "a0" !in names ==> r == Failure(UnknownAttribute("a0")) && unchanged(ps) && unchanged(MapArrays(ps))
    ensures "a0" in names ==>
      && r == Success(true)
      && AllMaps(ps, nav)
      && MapsWritten(ps, m, nav, binned, scale)
      && forall k :: 0 <= k < |ps| ==>
           && ps[k].value == old(ps[k].value)
           && (old(ps[k].mapValues) != null ==>
                 ps[k].mapValues == old(ps[k].mapValues) && ps[k].mapIsSet == old(ps[k].mapIsSet))
           && (old(ps[k].mapValues) == null ==> fresh(ps[k].mapValues) && fresh(ps[k].mapIsSet))
  {
    var a0 := IndexOfName(names, "a0");
    if a0.None? {
      return Failure(UnknownAttribute("a0"));
    }
    if ps[a0.value].mapValues == null {
      CreateArrays(ps, nav);
    }
    WriteMaps(ps, m, nav, binned, scale);
    return Success(true);
  }

  /** `for para, estim in zip(self.parameters[::-1], estimation): para.value = estim [/ scale]`. */
  method WriteValues(ps: seq<Parameter>, est: seq<real>, binned: bool, scale: real)
    requires |est| == |ps|
    requires forall i, j :: 0 <= i < j < |ps| ==> ps[i] != ps[j]
    requires binned ==> scale != 0.0
    modifies ps
    ensures ValuesWritten(ps, est, binned, scale)
    ensures forall k :: 0 <= k < |ps| ==> ps[k].mapValues == old(ps[k].mapValues) && ps[k].mapIsSet == old(ps[k].mapIsSet)
    ensures unchanged(MapArrays(ps))
  {
    var n := |ps|;
    for j := 0 to n
      invariant forall k :: 0 <= k < n && n - 1 - k < j ==> ps[k].value == P.Scaled(est[n - 1 - k], binned, scale)
      invariant forall k :: 0 <= k < n ==> ps[k].mapValues == old(ps[k].mapValues) && ps[k].mapIsSet == old(ps[k].mapIsSet)
    {
      ps[n - 1 - j].value := P.Scaled(est[j], binned, scale);
    }
  }

  /** `_create_arrays()`: fresh per-pixel arrays for every parameter, values 0 and nothing set. */
  method CreateArrays(ps: seq<Parameter>, nav: nat)
    requires forall i, j :: 0 <= i < j < |ps| ==> ps[i] != ps[j]
    modifies ps
    ensures AllMaps(ps, nav)
    ensures forall k :: 0 <= k < |ps| ==>
              && ps[k].value == old(ps[k].value) && fresh(ps[k].mapValues) && fresh(ps[k].mapIsSet)
              && (forall p :: 0 <= p < nav ==> ps[k].mapValues[p] == 0.0 && !ps[k].mapIsSet[p])
  {
    for i := 0 to |ps|
      invariant forall k :: 0 <= k < |ps| ==> ps[k].value == old(ps[k].value)
      invariant forall k :: 0 <= k < i ==>
                  && ps[k].HasMap(nav) && fresh(ps[k].mapValues) && fresh(ps[k].mapIsSet)
                  && (forall p :: 0 <= p < nav ==> ps[k].mapValues[p] == 0.0 && !ps[k].mapIsSet[p])
      invariant forall k, l :: 0 <= k < l < i ==> ps[k].mapValues != ps[l].mapValues && ps[k].mapIsSet != ps[l].mapIsSet
    {
      CreateArraysOf(ps[i], nav);
      assert forall k :: 0 <= k < i ==> ps[k].mapValues != ps[i].mapValues && ps[k].mapIsSet != ps[i].mapIsSet;
    }
  }

  /** One parameter's `_create_arrays`: a zeroed value map and an all-unset flag map. */
  method CreateArraysOf(q: Parameter, nav: nat)
    modifies q
    ensures q.value == old(q.value) && q.HasMap(nav) && fresh(q.mapValues) && fresh(q.mapIsSet)
    ensures forall p :: 0 <= p < nav ==> q.mapValues[p] == 0.0 && !q.mapIsSet[p]
  {
    q.mapValues := new real[nav](_ => 0.0);
    q.mapIsSet := new bool[nav](_ => false);
  }

  /** The reversed enumeration writing column `i` of the fit into the map of `parameters[::-1][i]`. */
  method WriteMaps(ps: seq<Parameter>, m: Matrix, nav: nat, binned: bool, scale: real)
    requires AllMaps(ps, nav) && IsMatrix(m, nav, |ps|)
    requires binned ==> scale != 0.0
    modifies MapArrays(ps)
    ensures AllMaps(ps, nav)
    ensures forall k :: 0 <= k < |ps| ==>
              ps[k].value == old(ps[k].value)
              && ps[k].mapValues == old(ps[k].mapValues) && ps[k].mapIsSet == old(ps[k].mapIsSet)
    ensures MapsWritten(ps, m, nav, binned, scale)
  {
    var n := |ps|;
    var vs := seq(n, k requires 0 <= k < n reads ps => ps[k].mapValues);
    var ss := seq(n, k requires 0 <= k < n reads ps => ps[k].mapIsSet);
    assert ArraySet(vs, ss) <= MapArrays(ps) by {
      forall o | o in ArraySet(vs, ss) ensures o in MapArrays(ps) {
        var k :| 0 <= k < n && (o == vs[k] || o == ss[k]);
      }
    }
    WriteColumns(vs, ss, m, nav, binned, scale);
    forall k | 0 <= k < n ensures ColumnWritten(ps[k], m, n - 1 - k, nav, binned, scale) {
      assert ps[k].mapValues == vs[k] && ps[k].mapIsSet == ss[k];
    }
  }

  /** The arrays of a list of maps. */
  ghost function ArraySet(vs: seq<array?<real>>, ss: seq<array?<bool>>): set<object>
    requires |vs| == |ss|
  {
    (set k | 0 <= k < |vs| && vs[k] != null :: vs[k] as object)
    + (set k | 0 <= k < |ss| && ss[k] != null :: ss[k] as object)
  }

  /** The loop of `WriteMaps` on the map arrays themselves: array `k` receives column `n - 1 - k`. */
  method WriteColumns(vs: seq<array?<real>>, ss: seq<array?<bool>>, m: Matrix, nav: nat, binned: bool, scale: real)
    requires |vs| == |ss| && IsMatrix(m, nav, |vs|)
    requires forall k :: 0 <= k < |vs| ==> vs[k] != null && ss[k] != null && vs[k].Length == nav && ss[k].Length == nav
    requires forall k, l :: 0 <= k < l < |vs| ==> vs[k] != vs[l] && ss[k] != ss[l]
    requires binned ==> scale != 0.0
    modifies ArraySet(vs, ss)
    ensures forall k :: 0 <= k < |vs| ==> ColumnIn(vs[k], ss[k], m, |vs| - 1 - k, nav, binned, scale)
  {
    var n := |vs|;
    for j := 0 to n
      invariant forall k :: n - j <= k < n ==> ColumnIn(vs[k], ss[k], m, n - 1 - k, nav, binned, scale)
    {
      var k := n - 1 - j;
      assert forall l :: n - j <= l < n ==> vs[l] != vs[k] && ss[l] != ss[k];
      assert vs[k] in ArraySet(vs, ss) && ss[k] in ArraySet(vs, ss);
      WriteColumnIn(vs[k], ss[k], m, j, nav, binned, scale);
    }
  }

  /** One step of the enumeration: `para.map['values'][:] = fit[..., i]` and `para.map['is_set'][:] = True`. */
  method WriteColumnIn(values: array<real>, isSet: array<bool>, m: Matrix, col: nat, nav: nat, binned: bool, scale: real)
    requires values.Length == nav && isSet.Length == nav
    requires |m| == nav && forall p :: 0 <= p < nav ==> col < |m[p]|
    requires binned ==> scale != 0.0
    modifies values, isSet
    ensures ColumnIn(values, isSet, m, col, nav, binned, scale)
  {
    P.StoreColumn(values, m, col, binned, scale);
    P.SetAll(isSet);
  }


  // ---- What the estimate means ------------------------------------------

  /**
   * A built component evaluates `np.polyval` of its parameter values taken
   * in reverse, that is highest degree first.
   */
  lemma FunctionIsPolyVal(e: Expression, order: nat, x: real, lib: Lib)
    requires Built(e, order)
    ensures e.Function([x], lib) == P.PolyVal(Reverse(ValuesOf(e.parameters)), x)
  {
    var args := [x] + ValuesOf(e.parameters);
    var env := Bind(e.f.argNames, args);
    assert Coeffs(order, env) == ValuesOf(e.parameters) by {
      forall k | 0 <= k <= order ensures Coeffs(order, env)[k] == ValuesOf(e.parameters)[k] {
        assert e.f.argNames[k + 1] == ParameterName(k, order);
        LookupPosition(e.f.argNames, args, k + 1);
      }
    }
    LookupPosition(e.f.argNames, args, 0);
    ExpandedFormIsPolyVal(order, env, lib);
  }

  /**
   * After the single-pixel estimate, whose reversed pairing gives parameter
   * `k` coefficient `n - 1 - k` of the fit, the component evaluates exactly
   * the fitted polynomial (scaled when binned).
   */
  lemma EstimateReproducesFit(e: Expression, order: nat, est: seq<real>, binned: bool, scale: real,
                              x: real, lib: Lib)
    requires Built(e, order) && |est| == order + 1
    requires binned ==> scale != 0.0
    requires forall k :: 0 <= k <= order ==>
               e.parameters[k].value == P.Scaled(est[order - k], binned, scale)
    ensures e.Function([x], lib) == P.PolyVal(P.ScaledAll(est, binned, scale), x)
  {
    FunctionIsPolyVal(e, order, x, lib);
    var vs := ValuesOf(e.parameters);
    var rv, se := Reverse(vs), P.ScaledAll(est, binned, scale);
    assert |rv| == |se| == order + 1;
    forall i | 0 <= i <= order ensures rv[i] == se[i] {
      assert rv[i] == vs[order - i] == e.parameters[order - i].value;
    }
    assert rv == se;
  }

  /**
   * After the full-dataset estimate and `fetch_stored_values` at pixel
   * `index`, the component evaluates the polynomial fitted there: row `index`
   * of the stored map (scaled when binned).
   */
  lemma FetchedEstimateReproducesStoredFit(e: Expression, order: nat, m: Matrix, nav: nat, index: nat,
                                           binned: bool, scale: real, x: real, lib: Lib)
    requires Built(e, order) && IsMatrix(m, nav, order + 1) && index < nav
    requires binned ==> scale != 0.0
    requires AllMaps(e.parameters, nav) && MapsWritten(e.parameters, m, nav, binned, scale)
    requires forall k :: 0 <= k < |e.parameters| ==> e.parameters[k].value == e.parameters[k].mapValues[index]
    ensures e.Function([x], lib) == P.PolyVal(P.ScaledAll(m[index], binned, scale), x)
  {
    assert |e.parameters| == |Ascending(order)| == order + 1;
    forall k | 0 <= k <= order
      ensures e.parameters[k].value == P.Scaled(m[index][order - k], binned, scale)
    {
      assert ColumnWritten(e.parameters[k], m, |e.parameters| - 1 - k, nav, binned, scale);
    }
    EstimateReproducesFit(e, order, m[index], binned, scale, x, lib);
  }

  /** From order 10 on, any full-dataset estimate on a built component raises at `self.a0`. */
  lemma FullEstimateFailsFromOrderTen(e: Expression, order: nat)
    requires Built(e, order) && order >= 10
    ensures "a0" !in e.parameterStrings
  {
    A0NamesAParameterIffOrderBelowTen(order);
  }
}
