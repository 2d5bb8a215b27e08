/**
 * The vector-form `Polynomial` component: one array-valued parameter
 * `coefficients`, highest degree first, evaluated by Horner's rule, with a
 * gradient per coefficient and an estimate written back from a least-squares
 * fit of a window of the signal.
 */
module PolynomialComponent {
  import opened Wrappers
  import opened FitLayout
  import S = Symbolic

  /** `np.polyval(c, x)`: Horner's rule, the last coefficient being the constant term. */
  function PolyVal(c: seq<real>, x: real): real
  {
    if c == [] then 0.0 else PolyVal(c[..|c| - 1], x) * x + c[|c| - 1]
  }

  /** The reading of the coefficients as a sum: `c[i]` multiplies `x^(|c| - 1 - i)`. */
  function PowerSum(c: seq<real>, x: real): real
  {
    if c == [] then 0.0 else c[0] * S.Power(x, |c| - 1) + PowerSum(c[1..], x)
  }

  lemma {:induction false} PowerSumSnoc(s: seq<real>, a: real, x: real)
    ensures PowerSum(s + [a], x) == PowerSum(s, x) * x + a
    decreases |s|
  {
    if s == [] {
      assert s + [a] == [a];
    } else {
      assert (s + [a])[0] == s[0] && (s + [a])[1..] == s[1..] + [a];
      PowerSumSnoc(s[1..], a, x);
      var p := S.Power(x, |s| - 1);
      assert S.Power(x, |s|) == x * p;
      assert s[0] * (x * p) == (s[0] * p) * x;
    }
  }

  /** Horner's rule computes the sum of the coefficients times descending powers. */
  lemma {:induction false} HornerIsPowerSum(c: seq<real>, x: real)
    ensures PolyVal(c, x) == PowerSum(c, x)
    decreases |c|
  {
    if c != [] {
      HornerIsPowerSum(c[..|c| - 1], x);
      PowerSumSnoc(c[..|c| - 1], c[|c| - 1], x);
      assert c[..|c| - 1] + [c[|c| - 1]] == c;
    }
  }

  /** The coefficients `[1, 2, 3]` define `x² + 2x + 3`. */
  lemma PolyValExample(x: real)
    ensures PolyVal([1.0, 2.0, 3.0], x) == x * x + 2.0 * x + 3.0
  {
    assert [1.0, 2.0, 3.0][..2] == [1.0, 2.0] && [1.0, 2.0][..1] == [1.0] && [1.0][..0] == [];
    assert PolyVal([1.0], x) == 1.0;
    assert PolyVal([1.0, 2.0], x) == x + 2.0;
  }

  /** Replacing coefficient `i` by `v` exchanges its term `c[i]·x^(|c| - 1 - i)` for `v·x^(|c| - 1 - i)`. */
  lemma PowerSumExchange(c: seq<real>, i: nat, v: real, x: real)
    requires i < |c|
    ensures PowerSum(c[i := v], x) + Term(c[i], x, |c| - 1 - i) == PowerSum(c, x) + Term(v, x, |c| - 1 - i)
  {
    var t := Terms(c, x);
    var d := c[i := v];
    PowerSumIsSum(c, x);
    PowerSumIsSum(d, x);
    forall k | 0 <= k < |c| ensures Terms(d, x)[k] == t[i := Term(v, x, |c| - 1 - i)][k] {
      assert |d| == |c|;
    }
    assert Terms(d, x) == t[i := Term(v, x, |c| - 1 - i)];
    SumUpdate(t, i, Term(v, x, |c| - 1 - i));
  }

  /** The term of coefficient `a` at exponent `e`. */
  function Term(a: real, x: real, e: nat): real
  {
    a * S.Power(x, e)
  }

  /** The terms of `PowerSum`: `c[k]·x^(n-1-k)` for each coefficient `k`. */
  function Terms(c: seq<real>, x: real): (t: seq<real>)
    ensures |t| == |c| && forall k :: 0 <= k < |c| ==> t[k] == Term(c[k], x, |c| - 1 - k)
  {
    seq(|c|, k requires 0 <= k < |c| => Term(c[k], x, |c| - 1 - k))
  }

  function Sum(s: seq<real>): real
  {
    if s == [] then 0.0 else s[0] + Sum(s[1..])
  }

  lemma {:induction false} PowerSumIsSum(c: seq<real>, x: real)
    ensures PowerSum(c, x) == Sum(Terms(c, x))
    decreases |c|
  {
    if c != [] {
      PowerSumIsSum(c[1..], x);
      forall k | 0 <= k < |c| - 1 ensures Terms(c, x)[1..][k] == Terms(c[1..], x)[k] {
        assert c[1..][k] == c[k + 1] && |c[1..]| - 1 - k == |c| - 1 - (k + 1);
      }
      assert Terms(c, x)[1..] == Terms(c[1..], x);
      assert Terms(c, x)[0] == Term(c[0], x, |c| - 1);
    }
  }

  /** Exchanging entry `i` for `u` in a sum. */
  lemma {:induction false} SumUpdate(s: seq<real>, i: nat, u: real)
    requires i < |s|
    ensures Sum(s[i := u]) + s[i] == Sum(s) + u
    decreases |s|
  {
    if i == 0 {
      assert s[i := u][1..] == s[1..];
    } else {
      assert s[i := u][1..] == s[1..][i - 1 := u];
      SumUpdate(s[1..], i - 1, u);
    }
  }

  /** `a + u·x^e == b + v·x^e` rearranged as `a == b + (v - u)·x^e`. */
  lemma MoveTerm(a: real, b: real, u: real, v: real, x: real, e: nat)
    requires a + Term(u, x, e) == b + Term(v, x, e)
    ensures a == b + (v - u) * S.Power(x, e)
  {
    var q := S.Power(x, e);
    assert (v - u) * q == v * q - u * q;
  }

  lemma PolyValUpdate(c: seq<real>, i: nat, v: real, x: real)
    requires i < |c|
    ensures PolyVal(c[i := v], x) == PolyVal(c, x) + (v - c[i]) * S.Power(x, |c| - 1 - i)
  {
    PolyValExchange(c, i, v, x);
    MoveTerm(PolyVal(c[i := v], x), PolyVal(c, x), c[i], v, x, |c| - 1 - i);
  }

  lemma PolyValExchange(c: seq<real>, i: nat, v: real, x: real)
    requires i < |c|
    ensures PolyVal(c[i := v], x) + Term(c[i], x, |c| - 1 - i) == PolyVal(c, x) + Term(v, x, |c| - 1 - i)
  {
    HornerIsPowerSum(c, x);
    HornerIsPowerSum(c[i := v], x);
    PowerSumExchange(c, i, v, x);
  }

  /**
   * `values[i] = 1` followed by `np.polyval(values, x)`: setting coefficient
   * `i` to 1 adds `(1 - c[i])·x^(n-1-i)` to the expanded sum.
   */
  function WithOne(c: seq<real>, i: nat, x: real): (v: real)
    requires i < |c|
    ensures v == PowerSum(c, x) + (1.0 - c[i]) * S.Power(x, |c| - 1 - i)
  {
    PolyValUpdate(c, i, 1.0, x);
    HornerIsPowerSum(c, x);
    PolyVal(c[i := 1.0], x)
  }

  /** Python's reading of `values[index]` on a list of length `n`: negative indices count from the end. */
  function PyIndex(index: int, n: nat): (r: Option<nat>)
    ensures r.None? <==> !(-(n as int) <= index < n)
    ensures r.Some? ==> r.value < n && r.value == (if index < 0 then n + index else index)
  {
    if 0 <= index < n then Some(index) else if -(n as int) <= index < 0 then Some(n + index) else None
  }

  /** `x` scaled as `estimate_parameters` writes it: divided by `axis.scale` iff the signal is binned. */
  function Scaled(v: real, binned: bool, scale: real): real
    requires binned ==> scale != 0.0
  {
    if binned then v / scale else v
  }

  function ScaledAll(v: seq<real>, binned: bool, scale: real): (r: seq<real>)
    requires binned ==> scale != 0.0
    ensures |r| == |v| && forall i :: 0 <= i < |v| ==> r[i] == Scaled(v[i], binned, scale)
  {
    seq(|v|, i requires 0 <= i < |v| => Scaled(v[i], binned, scale))
  }

  class Polynomial {
    /** `_whitelist['order']`: the order the component was built with. */
    const order: nat
    /** `coefficients._number_of_elements`. */
    const numberOfElements: nat
    /** `coefficients.value`. */
    var coefficients: seq<real>
    /** `coefficients.map['values']`, one row per navigation pixel, once created. */
    var coefficientsMap: array2?<real>
    /** `coefficients.map['is_set']`. */
    var coefficientsIsSet: array?<bool>

    /** The coefficients hold one value per element. */
    ghost predicate Valid()
      reads this
    {
      numberOfElements == order + 1 && |coefficients| == numberOfElements
    }

    /** The per-pixel map, if created, has one row of `numberOfElements` values per pixel. */
    ghost predicate MapFits(nav: nat)
      reads this
    {
      coefficientsMap != null ==>
        coefficientsMap.Length0 == nav && coefficientsMap.Length1 == numberOfElements
        && coefficientsIsSet != null && coefficientsIsSet.Length == nav
    }

    constructor (order: nat)
      ensures Valid()
      ensures this.order == order && numberOfElements == order + 1
      ensures |coefficients| == order + 1 && forall i :: 0 <= i <= order ==> coefficients[i] == 0.0
      ensures GetPolynomialOrder() == order
      ensures coefficientsMap == null && coefficientsIsSet == null
    {
      this.order := order;
      numberOfElements := order + 1;
      coefficients := seq(order + 1, _ => 0.0);
      coefficientsMap := null;
      coefficientsIsSet := null;
    }

    function GetPolynomialOrder(): int
      reads this
    {
      |coefficients| - 1
    }

    /** The component's value at `x`. */
    function Function(x: real): (r: real)
      reads this
      ensures r == PowerSum(coefficients, x)
    {
      HornerIsPowerSum(coefficients, x);
      PolyVal(coefficients, x)
    }

    /**
     * `grad_one_coefficient(x, index)`, as written: the value of a copy of the
     * coefficients whose entry `index` is set to 1, the others kept. It is the
     * component's value moved by `(1 - c)·x^k`, `c` the replaced coefficient
     * and `k` its degree; an index out of range is an `IndexError`.
     */
    function GradOneCoefficient(x: real, index: int): (r: Option<real>)
      reads this
      ensures r.None? <==> !(-|coefficients| <= index < |coefficients|)
      ensures r.Some? ==>
        var i := PyIndex(index, |coefficients|).value;
        r.value == Function(x) + (1.0 - coefficients[i]) * S.Power(x, |coefficients| - 1 - i)
    {
      var p := PyIndex(index, |coefficients|);
      if p.None? then None
      else
        Some(WithOne(coefficients, p.value, x))
    }

    /** `grad_coefficients(x)`: one row per element, row `i` the gradient of coefficient `i`. */
    function GradCoefficients(x: real): (r: Option<seq<real>>)
      reads this
      ensures r.None? <==> numberOfElements > |coefficients|
      ensures r.Some? ==> |r.value| == numberOfElements
      ensures r.Some? ==> forall i :: 0 <= i < numberOfElements ==>
                GradOneCoefficient(x, i) == Some(r.value[i])
    {
      if numberOfElements <= |coefficients| then
        var c := coefficients;
        Some(seq(numberOfElements, i requires 0 <= i < numberOfElements => PolyVal(c[i := 1.0], x)))
      else None
    }

    /**
     * `estimate_parameters`. With `onlyCurrent` the coefficients become the
     * fit of the current pixel's window `current[i1..i2]`; otherwise every
     * pixel's fit is written into the map, created if absent, as
     * `StoredMap` lays it out, every pixel is marked set, and
     * `fetch_stored_values` loads the row of the current pixel `index`.
     */
    method EstimateParameters(fit: PolyFit, axis: seq<real>, scale: real, binned: bool, i1: nat, i2: nat,
                              onlyCurrent: bool, current: seq<real>, data: Matrix, layout: Layout, nav: nat,
                              index: nat)
      returns (ok: bool)
      requires Valid() && MapFits(nav)
      requires i1 <= i2 <= |axis| && |current| == |axis|
      requires DataShape(data, layout, nav, |axis|)
      requires index < nav
      requires binned ==> scale != 0.0
      modifies this, coefficientsMap, coefficientsIsSet
      ensures ok
      ensures Valid() && MapFits(nav)
      ensures onlyCurrent ==>
        && coefficients == ScaledAll(fit(axis[i1..i2], current[i1..i2], order), binned, scale)
        && coefficientsMap == old(coefficientsMap) && coefficientsIsSet == old(coefficientsIsSet)
        && (coefficientsMap != null ==> unchanged(coefficientsMap, coefficientsIsSet))
      ensures !onlyCurrent ==>
        var m := StoredMap(fit, axis, data, layout, nav, |axis|, i1, i2, order);
        && coefficientsMap != null
        && (old(coefficientsMap) == null ==> fresh(coefficientsMap) && fresh(coefficientsIsSet))
        && (old(coefficientsMap) != null ==>
              coefficientsMap == old(coefficientsMap) && coefficientsIsSet == old(coefficientsIsSet))
        && (forall p, k :: 0 <= p < nav && 0 <= k < numberOfElements ==>
              coefficientsMap[p, k] == Scaled(m[p][k], binned, scale))
        && (forall p :: 0 <= p < nav ==> coefficientsIsSet[p])
        && (forall k :: 0 <= k < numberOfElements ==> coefficients[k] == Scaled(m[index][k], binned, scale))
    {
      if onlyCurrent {
        coefficients := ScaledAll(fit(axis[i1..i2], current[i1..i2], order), binned, scale);
        return true;
      }
      if coefficientsMap == null {
        coefficientsMap := new real[nav, numberOfElements];
        coefficientsIsSet := new bool[nav];
      }
      var m := StoredMap(fit, axis, data, layout, nav, |axis|, i1, i2, order);
      StoreRows(coefficientsMap, m, binned, scale);
      SetAll(coefficientsIsSet);
      FetchStoredValues(index);
      return true;
    }

    /**
     * `fetch_stored_values()` for the coefficients: when the current pixel
     * `index` is set, `coefficients.value` becomes its row of the map.
     */
    method FetchStoredValues(index: nat)
      requires Valid() && coefficientsMap != null && coefficientsIsSet != null
      requires index < coefficientsMap.Length0 && index < coefficientsIsSet.Length
      requires coefficientsMap.Length1 == numberOfElements
      modifies this
      ensures Valid()
      ensures coefficientsMap == old(coefficientsMap) && coefficientsIsSet == old(coefficientsIsSet)
      ensures coefficientsIsSet[index] ==>
                forall k :: 0 <= k < numberOfElements ==> coefficients[k] == coefficientsMap[index, k]
    {
      if coefficientsIsSet[index] {
        var a := coefficientsMap;
        coefficients := seq(numberOfElements, k requires 0 <= k < numberOfElements reads a => a[index, k]);
      }
    }
  }

  /** `map['values'][:] = m`, then `/= scale` when binned. */
  method StoreRows(a: array2<real>, m: Matrix, binned: bool, scale: real)
    requires IsMatrix(m, a.Length0, a.Length1)
    requires binned ==> scale != 0.0
    modifies a
    ensures forall p, k :: 0 <= p < a.Length0 && 0 <= k < a.Length1 ==> a[p, k] == Scaled(m[p][k], binned, scale)
  {
    for p := 0 to a.Length0
      invariant forall p', k :: 0 <= p' < p && 0 <= k < a.Length1 ==> a[p', k] == Scaled(m[p'][k], binned, scale)
    {
      for k := 0 to a.Length1
        invariant forall p', k' :: 0 <= p' < p && 0 <= k' < a.Length1 ==> a[p', k'] == Scaled(m[p'][k'], binned, scale)
        invariant forall k' :: 0 <= k' < k ==> a[p, k'] == Scaled(m[p][k'], binned, scale)
      {
        a[p, k] := Scaled(m[p][k], binned, scale);
      }
    }
  }

  /** `map['values'][:] = fit[..., col]`, divided by `scale` when binned. */
  method StoreColumn(a: array<real>, m: Matrix, col: nat, binned: bool, scale: real)
    requires forall p :: 0 <= p < |m| ==> col < |m[p]|
    requires |m| == a.Length
    requires binned ==> scale != 0.0
    modifies a
    ensures forall p :: 0 <= p < a.Length ==> a[p] == Scaled(m[p][col], binned, scale)
  {
    for p := 0 to a.Length
      invariant forall p' :: 0 <= p' < p ==> a[p'] == Scaled(m[p'][col], binned, scale)
    {
      a[p] := Scaled(m[p][col], binned, scale);
    }
  }

  /** `map['is_set'][:] = True`. */
  method SetAll(a: array<bool>)
    modifies a
    ensures forall p :: 0 <= p < a.Length ==> a[p]
  {
    for p := 0 to a.Length
      invariant forall p' :: 0 <= p' < p ==> a[p']
    {
      a[p] := true;
    }
  }

  /**
   * The gradient of the component with respect to coefficient `i`: the value
   * of the one-hot coefficients that are 1 at `i` and 0 elsewhere.
   */
  function CoefficientGradient(n: nat, i: nat, x: real): (r: real)
    requires i < n
    ensures r == S.Power(x, n - 1 - i)
  {
    var z := seq(n, _ => 0.0);
    PolyValUpdate(z, i, 1.0, x);
    ZeroPolyVal(n, x);
    assert z[i := 1.0] == seq(n, j => if j == i then 1.0 else 0.0);
    PolyVal(seq(n, j => if j == i then 1.0 else 0.0), x)
  }

  lemma {:induction false} ZeroPolyVal(n: nat, x: real)
    ensures PolyVal(seq(n, _ => 0.0), x) == 0.0
  {
    if n > 0 {
      assert seq(n, _ => 0.0)[..n - 1] == seq(n - 1, _ => 0.0);
      ZeroPolyVal(n - 1, x);
    }
  }

  /**
   * The component is linear in each coefficient: moving coefficient `i` by
   * `h` moves its value by exactly `h` times `CoefficientGradient`, which is
   * therefore the partial derivative.
   */
  lemma CoefficientGradientIsDerivative(c: seq<real>, i: nat, h: real, x: real)
    requires i < |c|
    ensures PolyVal(c[i := c[i] + h], x) == PolyVal(c, x) + h * CoefficientGradient(|c|, i, x)
  {
    PolyValUpdate(c, i, c[i] + h, x);
  }

  /**
   * With coefficients `[1, 0]` (the polynomial `x`) at `x = 2`, the gradient
   * with respect to the constant term is 1, but `grad_one_coefficient`
   * returns the value of `x + 1`, which is 3.
   */
  lemma GradOneCoefficientKeepsOtherCoefficients(p: Polynomial)
    requires p.coefficients == [1.0, 0.0]
    ensures p.GradOneCoefficient(2.0, 1) == Some(3.0)
    ensures CoefficientGradient(2, 1, 2.0) == 1.0
  {
    assert p.coefficients[1 := 1.0] == [1.0, 1.0];
    assert [1.0, 1.0][..1] == [1.0] && [1.0][..0] == [];
    assert PolyVal([1.0, 1.0], 2.0) == 3.0;
  }
}
