# Polynomial and Expression components, modelled in Dafny

This project models three model components of the hyperspy/exspy curve-fitting library:

- **`Expression` (`hyperspy/_components/expression.py`).** It compiles a symbolic formula into a component.
  - `compile_function` finds the variable `x` and decides whether the component is 2D by whether a `y` is present.
  - When asked, it rotates a 2D formula about the origin or about a named centre.
  - It takes the remaining free symbols, sorted by name, as the parameter list. That order is the positional argument order of the compiled evaluator and of every gradient evaluator.
  - It installs one gradient evaluator per parameter.
  - `__init__` then creates the parameter objects and records the reconstruction whitelist.
  - It also binds the position handles and writes the keyword arguments into the parameters of those names.
- **`Polynomial`, the vector form (`hyperspy/_components/polynomial.py`).** It holds one array-valued parameter `coefficients`, highest degree first.
  - The component is evaluated with `np.polyval`, that is by Horner's rule.
  - It has a per-coefficient gradient and a stack of those gradients.
  - `estimate_parameters` writes a least-squares fit either into the current values or into the per-pixel map.
- **`Polynomial2`, the expanded form (same file).** It is an `Expression` over the generated formula `a<n>*x**<n>+...+a<0>*x**0`.
  - Each degree `k` in a name is zero-padded to the number of digits of the order.
  - Its estimate writes the fit onto the parameter list reversed (`parameters[::-1]`).

## Model structure

| file | module | what it holds |
|---|---|---|
| `wrappers.dfy` | `Wrappers` | `Option` and `Result`; a `Failure` is a Python exception. |
| `names.dfy` | `Names` | Python's `<` on `str` (`Less`), and the sorted, duplicate-free listing that `list.sort` gives for a list of distinct symbols. |
| `text.dfy` | `Text` | `str(n)`, `str.zfill`, `str.join` and `str.split`. |
| `symbolic.dfy` | `Symbolic` | A small expression tree standing in for the symbolic engine. |
| `compiler.dfy` | `ExpressionCompiler` | What `compile_function` decides, as one pure function `Compile`, and the lemmas about it. |
| `expression.dfy` | `ExpressionComponent` | The `Expression` object as a class whose methods update its fields. |
| `fitlayout.dfy` | `FitLayout` | The transpose, column-wise fit and row-major reshape of the full-dataset estimate. |
| `polynomial.dfy` | `PolynomialComponent` | The vector-form class `Polynomial`. |
| `polynomial2.dfy` | `Polynomial2Component` | The generated names and formula, and the expanded-form estimate. |

The expression tree in `symbolic.dfy` provides four pieces:

- free symbols (`expr.free_symbols`);
- syntactic substitution;
- evaluation in an environment;
- the positional binding that `lambdify` performs.

Differentiation is a parameter `diff`, the least-squares solver `np.polyfit` is a parameter `fit` of type `PolyFit`, and values are Dafny `real`s.

The navigation space is flattened to one index of `nav` pixels, as `signal.unfolded()` does. The unfolded data is therefore a `nav × len` matrix when the signal axis is last, and a `len × nav` matrix when it is first.

`Polynomial2` would be a subclass of `Expression`. Here it is the `Expression` object that `Polynomial2Component.New` builds, and its own methods take that object.

Where the code and its description disagree, the model follows the code:

- **Rotation is sequential.** The rotation uses `subs(..., simultaneous=False)`, so `x` is replaced first and then every `y`, including those the `x` formula brought in. See `RotationIsSequential`.
- **The gradient keeps the other coefficients.** `grad_one_coefficient` sets one coefficient to 1 and keeps the others. It is not a one-hot evaluation. See Findings.
- **The names are zero-padded.** The expanded-form names are padded (`a00`…`a10` for order 10), not `a0..an`. See Findings.
- **Signal first is not transposed back.** With the signal axis first, the fit is reshaped without being transposed back. See Findings.
- **Order 0 raises.** `Polynomial2(0)` builds the formula `a0*x**0`, which the engine simplifies to `a0`. The formula then has no `x`, and construction raises at the unpacking of `x`. See `OrderZeroHasNoVariable`.

## Model

| member | source | states |
|---|---|---|
| ExpressionCompiler.Compile | hyperspy/_components/expression.py:118-190 | Fails with the missing-variable error when no free symbol is `x`. Fails otherwise only for a 2D rotation whose truthy position has fewer than two items. The component is 2D iff `y` is free. The body is rotated exactly when 2D and `add_rotation` hold, and is otherwise the formula. The parameters are sorted, duplicate-free and equal to the body's free symbols minus the variables. The evaluator takes the variables then the parameters. There is exactly one gradient evaluator per parameter, built the same way from `diff`. |
| ExpressionCompiler.RotationCentre | hyperspy/_components/expression.py:129-144 | Fails iff the position is truthy with fewer than two items. Otherwise it gives the centre made of the first two items iff the position is truthy, and the origin otherwise. |
| ExpressionCompiler.Assemble | hyperspy/_components/expression.py:152-190 | Gives the same parameter, evaluator and gradient-table properties as `Compile`, for a given body and 2D flag. |
| ExpressionCompiler.RotSymbols | hyperspy/_components/expression.py:129-143 | Both rotation formulas bring in exactly `x`, `y`, `rotation_angle` and the centre names. |
| ExpressionCompiler.RotatedSymbols | hyperspy/_components/expression.py:129-144 | The rotated 2D formula's free symbols are the original ones minus `x` and `y`, plus the rotation symbols. |
| ExpressionCompiler.CompiledParameters | hyperspy/_components/expression.py:129-157 | With a 2D rotation, the parameters are the formula's symbols plus `rotation_angle` plus the two centre names, minus `x` and `y`. Otherwise the formula is unchanged, and in 1D `add_rotation` has no effect on the parameters. |
| ExpressionCompiler.VariablesAreNotParameters | hyperspy/_components/expression.py:153-190 | Neither `x` nor `y` is ever a parameter or has a gradient evaluator. |
| ExpressionCompiler.ParameterOrderIsCanonical | hyperspy/_components/expression.py:154-157 | Any sorted, duplicate-free listing of the parameter names is the compiled list. The order does not depend on how the engine enumerates its symbols. |
| ExpressionCompiler.ArgumentsCoverBody | hyperspy/_components/expression.py:153-161 | The evaluator's argument names are distinct and cover every free symbol of the body. |
| ExpressionCompiler.CompiledWellFormed | hyperspy/_components/expression.py:153-190 | The compiled attributes meet the component's invariant. The names are sorted, and every gradient evaluator takes the same arguments as `_f`. |
| ExpressionCompiler.BindsInOrder | hyperspy/_components/expression.py:14-27 | Arguments given as the variables' values followed by the parameters' values bind every name to its value. |
| ExpressionCompiler.FunctionBindsInSortedOrder | hyperspy/_components/expression.py:159-167 | `_f(x[, y], *values)` evaluates the body with each parameter bound to the value in its sorted position. |
| ExpressionCompiler.GradientBindsInSortedOrder | hyperspy/_components/expression.py:171-190 | `_f_grad_<p>` evaluates the derivative in the same binding, provided the derivative brings in no new symbol. |
| ExpressionCompiler.RotationIsSequential | hyperspy/_components/expression.py:144 | The rotated formula is evaluated with `y` rotated first and `x` then rotated from the already rotated `y`. |
| ExpressionCompiler.RotationFormulasAtZero | hyperspy/_components/expression.py:129-143 | At angle 0 both rotation formulas give back `x` and `y`. |
| ExpressionCompiler.RotationAroundCentreAtZero | hyperspy/_components/expression.py:130-138 | At angle 0 the formulas about a centre give back `x` and `y`. |
| ExpressionCompiler.RotationAroundOriginAtZero | hyperspy/_components/expression.py:139-143 | At angle 0 the formulas about the origin give back `x` and `y`. |
| ExpressionCompiler.RotationByZeroIsIdentity | hyperspy/_components/expression.py:129-144 | With `rotation_angle` 0, the rotated formula has the unrotated formula's value. |
| ExpressionComponent.ValuesOf | hyperspy/_components/expression.py:17 | `[p.value for p in self.parameters]`: the current values, in parameter order. |
| ExpressionComponent.IndexOfName | hyperspy/_components/expression.py:105-112 | `getattr` finds a parameter iff its name is in the list, at its first occurrence. |
| ExpressionComponent.PopAddRotation | hyperspy/_components/expression.py:90 | The popped object is the `add_rotation` keyword's own value when it is given, and `False` otherwise. The remaining keywords are all the others, unchanged. |
| ExpressionComponent.Whitelist | hyperspy/_components/expression.py:95-100 | Always records `expression`, `name`, `position` and `module` with their values. Records `add_rotation` iff the component is 2D, and then with the popped object itself, not its truth value. |
| ExpressionComponent.ParameterNamed | hyperspy/_components/expression.py:105-108 | `getattr(self, n)` on a parameter name. It succeeds iff `n` is a parameter, and gives that parameter's index. Otherwise it raises `AttributeError(n)`. |
| ExpressionComponent.PositionBinding | hyperspy/_components/expression.py:103-108 | A falsy position binds nothing. In 1D a non-string raises, a string that is no parameter raises with its name, and a parameter's name binds that one parameter. In 2D `position[0]` is looked up first and raises with its name if absent. Only then does a one-item position raise at `position[1]`, and then a missing second name raises with that name. It succeeds iff both names are parameters, binding them in that order. |
| ExpressionComponent.Prepared | hyperspy/_components/expression.py:90-108 | The part of construction that cannot fail on keywords. It fails with the compilation's error, else with the position's error, and succeeds iff both succeed. |
| ExpressionComponent.FirstHandleIsLookedUpFirst | hyperspy/_components/expression.py:103-108 | For `x*y` with the one-item position `("b",)`, construction raises `AttributeError("b")` and not `IndexError`: `position[0]` is looked up before `position[1]` is read. |
| ExpressionComponent.Expression.Blank | hyperspy/_components/expression.py:90-91 | Before compiling, the object holds only the formula and the rotation flag. |
| ExpressionComponent.Expression.CompileFunction | hyperspy/_components/expression.py:118-190 | Fails iff `Compile` fails, with its error. On success `_is2D`, `_f`, `_parameter_strings` and the gradient table are those of `Compile`. On failure `_is2D` is already set once `x` was found. Nothing else changes. |
| ExpressionComponent.Expression.CompileBody | hyperspy/_components/expression.py:129-190 | Once `_is2D` is set, it rotates if asked and installs the evaluators. Its result matches `Compile`. |
| ExpressionComponent.Expression.Install | hyperspy/_components/expression.py:152-190 | Sets `_f`, `_parameter_strings` and the gradient table to those of `Assemble`. |
| ExpressionComponent.Expression.InstallGrads | hyperspy/_components/expression.py:171-190 | The loop adds exactly one gradient evaluator per parameter name and changes nothing else. |
| ExpressionComponent.Expression.CreateParameters | hyperspy/_components/expression.py:94 | Creates one fresh parameter per name, in order, each with value 0 and no map. |
| ExpressionComponent.Expression.FunctionReadsCurrentValues | hyperspy/_components/expression.py:163-167 | `function(x[, y])` evaluates the formula with the variables bound to their arguments and each parameter name bound to its current value. |
| ExpressionComponent.Expression.GradReadsCurrentValues | hyperspy/_components/expression.py:14-27 | `grad_<name>` evaluates its gradient formula in the same binding. |
| ExpressionComponent.Expression.SetKeywords | hyperspy/_components/expression.py:110-112 | Succeeds iff every keyword names a parameter. A failure reports a keyword that names none. On success each named parameter holds its keyword's value and every other one keeps its value. The maps are never touched. |
| ExpressionComponent.Expression.BindPosition | hyperspy/_components/expression.py:102-108 | Fails iff `PositionBinding` fails. On success the handles are the parameter objects of those names. |
| ExpressionComponent.Expression.Populate | hyperspy/_components/expression.py:94-101 | Creates the parameters and the whitelist, sets the name, and establishes the object invariant. |
| ExpressionComponent.Expression.Initialise | hyperspy/_components/expression.py:94-112 | The rest of `__init__`. A position error comes first. A keyword error happens iff some keyword names no parameter. On success the object is in the initialised state: the whitelist, the handles, and the keyword values or 0. |
| ExpressionComponent.Expression.NewCompiled | hyperspy/_components/expression.py:90-92 | A fresh object that fails iff `Compile` fails. On success it holds `Compile`'s attributes and meets the compiled invariant. |
| ExpressionComponent.Expression.New | hyperspy/_components/expression.py:35-112 | The constructor raises the compilation or position error when `Prepared` fails. Otherwise it raises iff some keyword other than `add_rotation` names no parameter. On success it returns a fresh object holding the compiled attributes, initialised. |
| ExpressionComponent.HoldsIsValid | hyperspy/_components/expression.py:153-190 | An object holding a successful compilation's attributes meets the compiled invariant. |
| Names.Sort | hyperspy/_components/expression.py:154-157 | The sorted, duplicate-free list of a list's names. |
| Names.SortedUnique | hyperspy/_components/expression.py:157 | A set of names has exactly one strictly sorted listing. |
| Names.Without | hyperspy/_components/expression.py:154-156 | The names of a list minus the variables. |
| Names.Insert | hyperspy/_components/expression.py:157 | Insertion keeps a list strictly sorted and adds exactly the one name. |
| Symbolic.SymbolList | hyperspy/_components/expression.py:154-156 | Enumerating a formula's symbols in any order gives exactly its free symbols. |
| Symbolic.SubstFreeSymbols | hyperspy/_components/expression.py:144 | Substitution removes `v` and brings in the replacement's symbols exactly when `v` occurred. |
| Symbolic.EvalSubst | hyperspy/_components/expression.py:144 | Substituting `r` for `v` is evaluating with `v` bound to the value of `r`. |
| Symbolic.EvalAgree | hyperspy/_components/expression.py:160-161 | A formula's value depends only on its free symbols. |
| Symbolic.LookupPosition | hyperspy/_components/expression.py:160-161 | With distinct argument names, a positional call binds each name to the argument in its position. |
| Symbolic.ApplyBinds | hyperspy/_components/expression.py:160-161 | A `lambdify` evaluator whose arguments cover its body evaluates the body in any environment agreeing on the arguments. |
| Symbolic.TimesEval | hyperspy/_components/polynomial.py:181-182 | The parsed `a*1` has the value and the symbols of the product. |
| Symbolic.PowEval | hyperspy/_components/polynomial.py:181-182 | The parsed `x**k` has the value of the power, and no symbol when `k` is 0. |
| Text.Decimal | hyperspy/_components/polynomial.py:179 | `str(n)` has at least one digit. |
| Text.ZFill | hyperspy/_components/polynomial.py:179 | `zfill(w)` pads with zeros on the left to width `w`, and leaves a string of `w` or more characters unchanged. |
| Text.DecimalLength | hyperspy/_components/polynomial.py:179 | `str(n)` has at most `w` digits exactly when `n < 10^w`. |
| Text.ZFillDecimal | hyperspy/_components/polynomial.py:179 | Zero-filling `str(k)` to `w` writes `k` on exactly `w` digits. |
| Text.FixedDigitsOrder | hyperspy/_components/polynomial.py:179-180 | Fixed-width digit strings sort as the numbers they write. |
| Text.SplitJoin | hyperspy/_components/polynomial.py:181-182 | Splitting what `"+".join` produced gives the parts back, when no part holds `+`. |
| PolynomialComponent.Polynomial.constructor | hyperspy/_components/polynomial.py:44-58 | `order + 1` elements and `order + 1` coefficients, all zero. `get_polynomial_order()` returns `order`. There is no map yet. |
| PolynomialComponent.Polynomial.Function | hyperspy/_components/polynomial.py:60-64 | The value is the sum of each coefficient times the power of `x` of its degree, the first coefficient having the highest degree. |
| PolynomialComponent.HornerIsPowerSum | hyperspy/_components/polynomial.py:63-64 | Horner's rule (`np.polyval`) equals that sum of coefficients times descending powers. |
| PolynomialComponent.PolyValExample | hyperspy/_components/polynomial.py:34-35 | The coefficients `[1, 2, 3]` define `x² + 2x + 3`. |
| PolynomialComponent.PyIndex | hyperspy/_components/polynomial.py:69 | `values[index]` exists iff `-n <= index < n`, counting negative indices from the end. |
| PolynomialComponent.PowerSumExchange | hyperspy/_components/polynomial.py:68-70 | Replacing coefficient `i` exchanges its term for the new coefficient's term. |
| PolynomialComponent.PolyValUpdate | hyperspy/_components/polynomial.py:68-70 | Replacing coefficient `i` by `v` moves the value by `(v - c[i])·x^(n-1-i)`. |
| PolynomialComponent.WithOne | hyperspy/_components/polynomial.py:68-70 | The value of the copy with entry `i` set to 1 is the value plus `(1 - c[i])·x^(n-1-i)`. |
| PolynomialComponent.Polynomial.GradOneCoefficient | hyperspy/_components/polynomial.py:66-70 | An index outside `[-n, n)` is an `IndexError`. Otherwise the result is the component's value plus `(1 - c)·x^k`, where `c` is the replaced coefficient and `k` its degree. The stored coefficients are not changed. |
| PolynomialComponent.Polynomial.GradCoefficients | hyperspy/_components/polynomial.py:72-74 | Fails iff `_number_of_elements` exceeds the coefficients. Otherwise it has exactly `_number_of_elements` rows, and row `i` is `grad_one_coefficient(x, i)`. |
| PolynomialComponent.ScaledAll | hyperspy/_components/polynomial.py:111-114 | Every coefficient is divided by `axis.scale` iff binned. |
| PolynomialComponent.Polynomial.EstimateParameters | hyperspy/_components/polynomial.py:104-136 | Always returns `True`. With `only_current`, the coefficients become the fit of the window, scaled, and the map is untouched. Otherwise the map is created if absent, and entry `(p, k)` holds entry `(p, k)` of `StoredMap`, scaled. Every `is_set` flag is set. The coefficients are then row `index` of that map: the current pixel's stored fit. |
| PolynomialComponent.Polynomial.FetchStoredValues | hyperspy/_components/polynomial.py:135 | When the map is set at pixel `index`, the coefficients become that row of the map. The map itself is unchanged. |
| PolynomialComponent.StoreRows | hyperspy/_components/polynomial.py:131-133 | Every map entry holds the matching fit entry, scaled. |
| PolynomialComponent.StoreColumn | hyperspy/_components/polynomial.py:244-251 | Every pixel's map entry holds column `col` of the fit, scaled. |
| PolynomialComponent.SetAll | hyperspy/_components/polynomial.py:134 | Every `is_set` flag is true. |
| PolynomialComponent.CoefficientGradient | hyperspy/_components/polynomial.py:66-67 | The gradient of one coefficient, evaluated as a one-hot `polyval`, is `x^(n-1-i)`. |
| PolynomialComponent.CoefficientGradientIsDerivative | hyperspy/_components/polynomial.py:66-67 | Moving coefficient `i` by `h` moves the value by exactly `h` times `CoefficientGradient`, so it is the partial derivative. |
| PolynomialComponent.GradOneCoefficientKeepsOtherCoefficients | hyperspy/_components/polynomial.py:66-70 | For coefficients `[1, 0]` at `x = 2`, `grad_one_coefficient(x, 1)` is 3, where the gradient is 1. |
| FitLayout.Column | hyperspy/_components/polynomial.py:125 | Column `j` of a matrix. |
| FitLayout.Transpose | hyperspy/_components/polynomial.py:124 | `m.T` has entry `(j, i)` equal to `m[i][j]`. |
| FitLayout.FitColumns | hyperspy/_components/polynomial.py:125-126 | `np.polyfit` with a 2-D argument returns a `(deg+1) × cols` matrix. Its column `p` is the fit of column `p`. |
| FitLayout.Reshape | hyperspy/_components/polynomial.py:130-131 | `reshape` reads the matrix row-major: entry `(i, j)` is entry `i·cols2 + j` of the original. |
| FitLayout.EntryRowMajor | hyperspy/_components/polynomial.py:130-131 | Row-major position `i·cols + j` is `m[i][j]`. |
| FitLayout.EntryInRange | hyperspy/_components/polynomial.py:130-131 | Every row-major position below `rows·cols` lies in the matrix. |
| FitLayout.Spectrum | hyperspy/_components/polynomial.py:121-124 | Pixel `p`'s spectrum has `len` channels in either layout. |
| FitLayout.WindowFit | hyperspy/_components/polynomial.py:121-126 | The fit of the window with the spectrum in the first axis: entry `(k, p)` is coefficient `k` of pixel `p`'s windowed spectrum. |
| FitLayout.StoredMap | hyperspy/_components/polynomial.py:121-131 | The `nav × (deg+1)` matrix the code stores. |
| FitLayout.SignalLastStoresEachPixelsFit | hyperspy/_components/polynomial.py:123-131 | With the signal axis last, row `p` of the stored map is pixel `p`'s fit. |
| FitLayout.SignalFirstStoresReinterpretedFit | hyperspy/_components/polynomial.py:123-131 | With the signal axis first, entry `(p, k)` is coefficient `q / nav` of pixel `q % nav`, where `q = p·(deg+1) + k`. |
| FitLayout.SourceOf | hyperspy/_components/polynomial.py:130-131 | The row and column that entry `(p, k)` of the reshape comes from, both in range. |
| FitLayout.ReshapedEntry | hyperspy/_components/polynomial.py:130-131 | Reading a `(deg+1) × nav` matrix as `nav × (deg+1)` takes entry `(p, k)` from `SourceOf(p, k)`. |
| FitLayout.WindowFitAt | hyperspy/_components/polynomial.py:125-126 | With the signal axis first, entry `(r, c)` of the fit is coefficient `r` of pixel `c`. |
| FitLayout.IntendedMap | hyperspy/_components/polynomial.py:122-128 | The map the comments describe: the fit transposed to `nav × (deg+1)` in both layouts. |
| FitLayout.IntendedStoresEachPixelsFit | hyperspy/_components/polynomial.py:122-128 | In either layout, row `p` of the intended map is pixel `p`'s fit. |
| FitLayout.StoredIsIntendedWhenSignalLast | hyperspy/_components/polynomial.py:123-131 | With the signal axis last, the stored map is the intended one. |
| FitLayout.StoredIsIntendedWhenSinglePixel | hyperspy/_components/polynomial.py:123-131 | With one pixel, the signal-first stored map is the intended one. |
| FitLayout.SignalFirstScrambles | hyperspy/_components/polynomial.py:123-131 | Two pixels, signal first, a line fit: the stored row of pixel 0 is `[1, 2]` where its fit is `[1, 10]`. |
| Polynomial2Component.CoeffList | hyperspy/_components/polynomial.py:179-180 | One padded degree per degree, `order + 1` of them. |
| Polynomial2Component.Terms | hyperspy/_components/polynomial.py:181-182 | One term per degree, `order + 1` of them. |
| Polynomial2Component.Ascending | hyperspy/_components/polynomial.py:179-180 | Entry `k` is the name of the coefficient of `x**k`. |
| Polynomial2Component.FormulaTerms | hyperspy/_components/polynomial.py:179-182 | Term `i` is the name of degree `order - i`, then `*x**`, then that degree. Splitting the formula at `+` gives the terms back. |
| Polynomial2Component.NameDigits | hyperspy/_components/polynomial.py:179-180 | Every name is `a` followed by its degree on exactly `len(str(order))` digits, so all names have equal length. |
| Polynomial2Component.NamesAscend | hyperspy/_components/polynomial.py:179-182 | Sorted by Python's string order, the names are in ascending degree. |
| Polynomial2Component.NamesAreNotVariables | hyperspy/_components/polynomial.py:181 | No name is `x` or `y`. |
| Polynomial2Component.TermHasNoPlus | hyperspy/_components/polynomial.py:181-182 | No term contains `+`. |
| Polynomial2Component.ExpandedSymbols | hyperspy/_components/polynomial.py:181-182 | The parsed formula's symbols are the names, plus `x` iff the order is at least 1. |
| Polynomial2Component.Coeffs | hyperspy/_components/polynomial.py:181-182 | The names' values, in ascending degree. |
| Polynomial2Component.Reverse | hyperspy/_components/polynomial.py:220 | `parameters[::-1]`: entry `i` is entry `n - 1 - i`. |
| Polynomial2Component.AscSumIsReversedPowerSum | hyperspy/_components/polynomial.py:220-224 | The ascending-degree sum equals the descending-degree sum of the reversed list. |
| Polynomial2Component.ExpandedFormIsPolyVal | hyperspy/_components/polynomial.py:181-182 | The parsed formula is `np.polyval` of the coefficient values reversed. |
| Polynomial2Component.OrderZeroHasNoVariable | hyperspy/_components/polynomial.py:179-185 | For order 0, compiling fails with the missing-variable error. |
| Polynomial2Component.CompiledAscending | hyperspy/_components/polynomial.py:184-185 | From order 1 on, compilation gives a 1D component whose parameter list is the names in ascending degree, with no handles. |
| Polynomial2Component.A0NamesAParameterIffOrderBelowTen | hyperspy/_components/polynomial.py:179-180 | `a0` is a parameter name iff the order is below 10. |
| Polynomial2Component.LowestDegreeName | hyperspy/_components/polynomial.py:227 | The constant term's name for any order: `a` followed by `len(str(order))` zeros. It is the first parameter. |
| Polynomial2Component.DistinctParameters | hyperspy/_components/polynomial.py:184-185 | Distinct names make distinct parameter objects. |
| Polynomial2Component.New | hyperspy/_components/polynomial.py:172-188 | `__init__` passes `expression`, `name` and `autodoc` itself, so a keyword among them is a repeated-keyword error, checked first. A `position` keyword binds `Expression`'s own `position`: when truthy it is the 1D position error from order 1 on. Order 0 is the missing-variable error. Otherwise it succeeds iff every remaining keyword except `add_rotation` names a coefficient, and a failure names one that does not. On success the object is built, `get_polynomial_order` is `order`, the name is "`<ordinal>` order Polynomial", and the whitelist records the forwarded `position` object. |
| Polynomial2Component.ForwardedPosition | hyperspy/_components/expression.py:35 | The `position` that `Expression.__init__` receives: the keyword's object when passed, `None` otherwise. |
| Polynomial2Component.NewForwarded | hyperspy/_components/polynomial.py:185-186 | The `super().__init__` call once `position` has been taken out of the keywords: the same outcomes as `New`, stated over the remaining keywords. |
| Polynomial2Component.RecordPosition | hyperspy/_components/expression.py:97 | The whitelist's `position` entry becomes the forwarded object. Nothing else about the built component changes. |
| Polynomial2Component.EstimateParameters | hyperspy/_components/polynomial.py:211-253 | With `only_current`, parameter `k` receives fit coefficient `n-1-k`, scaled, and the maps are kept. Otherwise, without a parameter `a0` it raises and changes nothing. With one, every parameter's map exists (created if `a0` had none), column `n-1-k` of the stored fit lands in parameter `k`'s map, scaled, and every pixel is set. Every value is then its map's entry at the current pixel `index`. On the single-pixel path and the raising path the map arrays' contents are unchanged. |
| Polynomial2Component.EstimateMaps | hyperspy/_components/polynomial.py:227-251 | The full-dataset branch after the fit. It raises at `self.a0` iff there is no `a0`, changing neither the parameters nor their map arrays. Otherwise it writes every column as above. |
| Polynomial2Component.EstimateOn | hyperspy/_components/polynomial.py:211-253 | `estimate_parameters` on the parameter list and its names: the same three outcomes as `EstimateParameters`, including the unchanged map arrays. |
| Polynomial2Component.StoreAndFetch | hyperspy/_components/polynomial.py:227-252 | `EstimateMaps` followed by `fetch_stored_values`: the same maps, and each value is its map's entry at pixel `index`. When `a0` is missing it raises, and the parameters and map arrays are unchanged. |
| Polynomial2Component.FetchStoredValues | hyperspy/_components/polynomial.py:252 | Every parameter whose map is set at pixel `index` takes the value stored there. No map is changed. |
| Polynomial2Component.FetchedEstimateReproducesStoredFit | hyperspy/_components/polynomial.py:242-252 | After the full-dataset estimate and the fetch, the component evaluates the polynomial stored at pixel `index`, scaled when binned. |
| Polynomial2Component.WriteValues | hyperspy/_components/polynomial.py:219-224 | The zip with `parameters[::-1]`: parameter `k` holds coefficient `n-1-k`, scaled. |
| Polynomial2Component.CreateArrays | hyperspy/_components/polynomial.py:227-228 | Every parameter gets fresh, distinct maps of `nav` entries, with value 0 and not set, and keeps its value. |
| Polynomial2Component.CreateArraysOf | hyperspy/_components/polynomial.py:228 | One parameter's fresh zero map and unset flags. |
| Polynomial2Component.WriteMaps | hyperspy/_components/polynomial.py:244-251 | The reversed enumeration: parameter `k`'s map holds column `n-1-k`, scaled, and every pixel is set. The values and the map objects are unchanged. |
| Polynomial2Component.WriteColumns | hyperspy/_components/polynomial.py:244-251 | Map array `k` receives column `n-1-k`. |
| Polynomial2Component.WriteColumnIn | hyperspy/_components/polynomial.py:246-247 | One step: column `col` of the fit, scaled, and all pixels set. |
| Polynomial2Component.FunctionIsPolyVal | hyperspy/_components/polynomial.py:181-188 | A built component evaluates `np.polyval` of its parameter values reversed, highest degree first. |
| Polynomial2Component.EstimateReproducesFit | hyperspy/_components/polynomial.py:215-225 | After the single-pixel estimate, the component evaluates exactly the fitted polynomial, scaled when binned. |
| Polynomial2Component.FullEstimateFailsFromOrderTen | hyperspy/_components/polynomial.py:227 | From order 10 on, a built component has no parameter `a0`, so the full estimate raises. |

## Left out

- The signal, its axes and the navigation shape are inputs in this model:
  - `signal.axes_manager` and `value_range_to_indices` are not modelled; the window bounds `i1`, `i2` are given.
  - `signal()` is given as the spectrum `current`.
  - `signal.data` is given as an unfolded matrix `data` with its `Layout`.
  - A navigation space of several dimensions is flattened to one index. The row-major reshape to `nav_shape + (n+1,)` is then the same as the single-index reshape.
- `np.polyfit` is the `fit` parameter, of which only the output length is known. The least-squares numerics, rank warnings and floating point are not modelled; values are reals.
- Parsing, simplification and differentiation by the symbolic engine are not modelled:
  - The formula string is not parsed; the expression tree is given.
  - `Polynomial2Component.ExpandedForm` is the tree that the generated text is taken to parse to; this correspondence is not proved.
  - `diff` is a parameter, and nothing is claimed about derivatives it returns.
  - `evalf` and the replacement of every symbol by a real symbol are taken as identities (expression.py:145-151).
- Names are modelled one per symbol. A formula with two distinct symbols both named `x`, which the unpacking of `x` would also reject, is not modelled.
- `lambdify` backends (numpy, numexpr) are a tag. The evaluators are modelled by their positional binding only.
- Python exception types (`ValueError`, `IndexError`, `TypeError`, `AttributeError`) are modelled as the `Error` constructors.
- `Component.__init__` is reduced to creating one parameter per name (`CreateParameters`). The base-class attributes, `_estimate_parameters` and the `binned` property are not modelled; `binned` and `axis.scale` are inputs.
- `fetch_stored_values` is modelled as loading each map's entry at the current pixel into the value when that entry is set (`FetchStoredValues`). The current pixel is the input `index`, standing for `axes_manager.indices`. For an unset pixel the model keeps the value; what `Parameter.fetch` does there is not part of this model.
- In a 2D rotation about a centre, the centre items are taken to be identifiers. The source formats each item into the formula text and parses it, so an item such as `'0'` would become a number rather than a parameter; that case is not modelled.
- `_create_arrays` is modelled as allocating fresh arrays of `nav` entries.
- The `function` and `grad_<name>` attributes are modelled as the functions `Expression.Function` and `Expression.Grad` reading the installed evaluators. They are not closures stored by `setattr`.
- `Polynomial.coefficients.grad` is the function `GradCoefficients`, not a stored attribute.
- `ExpressionComponent.Expression.InstallGrads` builds the gradient table in a local map and assigns it once after the loop; the loop body is the same for every name.
- `ExpressionComponent.Expression.SetKeywords`: `kwargs.items()` follows insertion order, which a `map` does not keep. The loop picks any remaining key. The state after success does not depend on the order, but which unknown keyword is reported on failure is not fixed.
- `ExpressionComponent.Expression.SetKeywords` and `BindPosition` treat a keyword or position naming no parameter as an unknown attribute. `getattr` on some other attribute of the object (`name`, `active`, ...) is not modelled.
- Keyword values are booleans or numbers (`KwArg`). Arrays and other Python objects are not modelled.
- `Polynomial2Component.EstimateParameters` requires that either no parameter has a map or all have maps of `nav` entries. A state where only some parameters have maps is not modelled.
- `PolynomialComponent.Polynomial.EstimateParameters` requires an existing map to have the shape `nav × (order+1)`. It also requires the coefficients to have `order + 1` entries, so `get_polynomial_order()` is `order`.
- `PolynomialComponent.Polynomial.EstimateParameters` and `Polynomial2Component.EstimateParameters` require `axis.scale != 0` when binned. numpy would instead store infinities.
- `only_current is True` is modelled as a boolean. A truthy non-boolean value, which the code sends to the full-dataset branch, is not modelled.
- `ExpressionComponent.Expression.GradReadsCurrentValues` and `ExpressionCompiler.GradientBindsInSortedOrder` hold only when the derivative brings in no symbol the evaluator does not bind.
- The order's `ordinal` text is a parameter of `Polynomial2Component.New`.
- `PolynomialComponent.Polynomial.constructor`: `order` is a `nat`, so negative orders are not modelled. In the source, `Polynomial(order=-1)` has no coefficients and evaluates to 0 (polynomial.py:52-53), and an order of -2 or below makes `np.zeros` raise `ValueError`.
- `Polynomial2Component.New`: `order` is a `nat`, so negative orders are not modelled. In the source, `Polynomial2(order=-1)` builds an empty formula, which the symbolic parser rejects.
- `Polynomial2Component.New` requires that the keywords hold neither `order` nor `module`. These are named parameters of `__init__`, so the keywords can never hold them.
- `Polynomial2Component.RecordPosition` writes the whitelist's `position` entry after `Expression.New` returns. The source writes it inside `__init__` (expression.py:97); the resulting state is the same.
- `Polynomial2Component.New`: a `position` keyword is a `KwArg`, so a string or tuple position passed to `Polynomial2` is not modelled. Only its truth value decides the outcome.
- `Polynomial2Component.EstimateParameters` requires one name per parameter and distinct parameter objects rather than all of `Expression.Valid()`. `DistinctParameters` shows that every valid object meets this requirement.
- Not modelled: the deprecation warnings, `__repr__`, `function_nd` (numpy broadcasting over the map), the `autodoc` docstring with its LaTeX rendering, and `hyperspy/signals/__init__.py`, which holds only imports.

## Findings

| source | as written | input that shows it | evidently intended | confidence | as-written member | corrected member |
|---|---|---|---|---|---|---|
| hyperspy/_components/polynomial.py:66-70 | `grad_one_coefficient` sets entry `index` to 1 in a copy of the current coefficients and keeps the others. The result is the value of a different polynomial, not the gradient. | coefficients `[1, 0]`, `x = 2`, `index = 1` give 3. The gradient with respect to the constant term is 1. | The gradient of coefficient `i`, that is `polyval` of the one-hot vector, which is `x^(n-1-i)`. This is what the docstring says. | not executed | PolynomialComponent.GradOneCoefficientKeepsOtherCoefficients | PolynomialComponent.CoefficientGradientIsDerivative |
| hyperspy/_components/polynomial.py:127-131 | With the signal axis first (`index_in_array == 0`), the `(n+1) × nav` fit is reshaped to `nav × (n+1)` without a transpose. The same happens at lines 238-242 for `Polynomial2`. | two pixels with one channel each, `data = [[1, 2]]` (signal first), and a line fit whose coefficients are `[y, 10y]`. Pixel 0's stored row is `[1, 2]`, but its fit is `[1, 10]`. | Pixel `p`'s row holds pixel `p`'s fit in either layout, as the comment "Transpose back if needed" suggests. | not executed | FitLayout.SignalFirstScrambles | FitLayout.IntendedStoresEachPixelsFit |
| hyperspy/_components/polynomial.py:227 | The full-dataset estimate of `Polynomial2` reads `self.a0`. From order 10 on the names are zero-padded (`a00`, ..., `a10`), so no parameter is named `a0` and the lookup raises. | `Polynomial2(order=10)`, then `estimate_parameters(..., only_current=False)`. | Look up the constant term's parameter by its padded name, or use the first parameter; either exists for every order. | not executed | Polynomial2Component.FullEstimateFailsFromOrderTen | Polynomial2Component.LowestDegreeName |

The class members `PolynomialComponent.Polynomial.GradOneCoefficient`, `FitLayout.StoredMap` and `Polynomial2Component.EstimateMaps` keep the code's behaviour as written. The corrected members stand beside them:

- `CoefficientGradient` is the gradient.
- `IntendedMap` is the layout the comments describe. It agrees with `StoredMap` with the signal axis last (`StoredIsIntendedWhenSignalLast`) and with a single pixel (`StoredIsIntendedWhenSinglePixel`).
- `LowestDegreeName` is a parameter name for every order.
