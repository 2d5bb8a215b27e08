/**
 * Where a least-squares fit over the whole dataset lands. With the signal
 * unfolded to one navigation index, the data is a `nav × len` matrix when the
 * signal axis is last and a `len × nav` matrix when it is first; `np.polyfit`
 * fits every column of its 2-D argument and returns the coefficients of
 * column `p` in column `p` of a `(deg+1) × nav` matrix, highest degree first.
 */
module FitLayout {

  /** `np.polyfit(xs, ys, deg)` on one column: `deg + 1` coefficients, highest degree first. */
  type PolyFit = fit: (seq<real>, seq<real>, nat) -> seq<real> | forall xs, ys, deg: nat :: |fit(xs, ys, deg)| == deg + 1
    witness ZeroFit

  function ZeroFit(xs: seq<real>, ys: seq<real>, deg: nat): (r: seq<real>)
    ensures |r| == deg + 1
  {
    seq(deg + 1, _ => 0.0)
  }

  type Matrix = seq<seq<real>>

  predicate IsMatrix(m: Matrix, rows: nat, cols: nat)
  {
    |m| == rows && forall i :: 0 <= i < rows ==> |m[i]| == cols
  }

  /** Column `j` of a matrix. */
  function Column(m: Matrix, j: nat): (c: seq<real>)
    requires forall i :: 0 <= i < |m| ==> j < |m[i]|
    ensures |c| == |m| && forall i :: 0 <= i < |m| ==> c[i] == m[i][j]
  {
    seq(|m|, i requires 0 <= i < |m| => m[i][j])
  }

  /** `m.T` */
  function Transpose(m: Matrix, rows: nat, cols: nat): (t: Matrix)
    requires IsMatrix(m, rows, cols)
    ensures IsMatrix(t, cols, rows)
    ensures forall j, i :: 0 <= j < cols && 0 <= i < rows ==> t[j][i] == m[i][j]
  {
    seq(cols, j requires 0 <= j < cols => Column(m, j))
  }

  /** `np.polyfit(xs, window, deg)` with a 2-D `window`: one fit per column, coefficient `k` in row `k`. */
  function FitColumns(fit: PolyFit, xs: seq<real>, window: Matrix, rows: nat, cols: nat, deg: nat): (r: Matrix)
    requires IsMatrix(window, rows, cols)
    ensures IsMatrix(r, deg + 1, cols)
    ensures forall k, p :: 0 <= k <= deg && 0 <= p < cols ==> r[k][p] == fit(xs, Column(window, p), deg)[k]
  {
    seq(deg + 1, k requires 0 <= k <= deg => seq(cols, p requires 0 <= p < cols => fit(xs, Column(window, p), deg)[k]))
  }

  /** Entry `q` of a matrix with `cols` columns read row-major (0 past the end). */
  function Entry(m: Matrix, cols: nat, q: nat): real
  {
    if cols > 0 && q / cols < |m| && q % cols < |m[q / cols]| then m[q / cols][q % cols] else 0.0
  }

  /** `m.reshape(rows2, cols2)` for a `rows × cols` matrix: entry `(i, j)` is entry `i·cols2 + j` of `m` read row-major. */
  function Reshape(m: Matrix, rows: nat, cols: nat, rows2: nat, cols2: nat): (r: Matrix)
    requires IsMatrix(m, rows, cols) && rows * cols == rows2 * cols2
    ensures IsMatrix(r, rows2, cols2)
    ensures forall i, j :: 0 <= i < rows2 && 0 <= j < cols2 ==> r[i][j] == Entry(m, cols, i * cols2 + j)
  {
    seq(rows2, i requires 0 <= i < rows2 => seq(cols2, j requires 0 <= j < cols2 => Entry(m, cols, i * cols2 + j)))
  }

  lemma MulLe(a: int, b: int, c: int)
    requires a <= b && c >= 0
    ensures a * c <= b * c
  {
    var e := b - a;
    assert b * c == a * c + e * c;
  }

  /** Euclidean division is unique. */
  lemma DivModUnique(q: int, c: int, d: int, m: int)
    requires c > 0 && 0 <= m < c && q == d * c + m
    ensures q / c == d && q % c == m
  {
    var d2, m2 := q / c, q % c;
    assert q == d2 * c + m2 && 0 <= m2 < c;
    assert (d2 + 1) * c == d2 * c + c && (d + 1) * c == d * c + c;
    if d2 < d {
      MulLe(d2 + 1, d, c);
    } else if d < d2 {
      MulLe(d + 1, d2, c);
    }
  }

  /** Reading entry `i·cols + j` row-major gives back `m[i][j]`. */
  lemma EntryRowMajor(m: Matrix, rows: nat, cols: nat, i: nat, j: nat)
    requires IsMatrix(m, rows, cols) && i < rows && j < cols
    ensures Entry(m, cols, i * cols + j) == m[i][j]
  {
    DivModUnique(i * cols + j, cols, i, j);
  }

  /** Any entry before `rows·cols` lies in the matrix, at row `q / cols` and column `q % cols`. */
  lemma EntryInRange(m: Matrix, rows: nat, cols: nat, q: nat)
    requires IsMatrix(m, rows, cols) && q < rows * cols
    ensures cols > 0 && q / cols < rows && q % cols < cols
    ensures Entry(m, cols, q) == m[q / cols][q % cols]
  {
    DivBound(q, rows, cols);
  }

  /** A position before `rows·cols` lies in row `q / cols < rows`. */
  lemma DivBound(q: nat, rows: nat, cols: nat)
    requires q < rows * cols
    ensures cols > 0 && q / cols < rows && q % cols < cols
  {
    assert cols != 0;
    var d := q / cols;
    assert q == d * cols + q % cols;
    if d >= rows {
      MulLe(rows, d, cols);
    }
  }

  /** Entry `(i, j)` of an `n × c` shape comes before `n·c` in row-major order. */
  lemma RowMajorBound(i: nat, j: nat, n: nat, c: nat)
    requires i < n && j < c
    ensures i * c + j < n * c
  {
    assert (i + 1) * c == i * c + c;
    MulLe(i + 1, n, c);
  }

  /** Where the signal axis sits in the unfolded data: `axis.index_in_array == 0` or `> 0`. */
  datatype Layout = SignalFirst | SignalLast

  /** The unfolded data has `nav` pixels of `len` channels each, in the given layout. */
  predicate DataShape(data: Matrix, layout: Layout, nav: nat, len: nat)
  {
    if layout.SignalLast? then IsMatrix(data, nav, len) else IsMatrix(data, len, nav)
  }

  /** The spectrum of pixel `p`. */
  function Spectrum(data: Matrix, layout: Layout, nav: nat, len: nat, p: nat): (s: seq<real>)
    requires DataShape(data, layout, nav, len) && p < nav
    ensures |s| == len
  {
    if layout.SignalLast? then data[p] else Column(data, p)
  }

  /** `dc` with the spectrum along the first axis, sliced to the window, and the `(deg+1) × nav` fit of it. */
  function WindowFit(fit: PolyFit, axis: seq<real>, data: Matrix, layout: Layout, nav: nat, len: nat,
                     i1: nat, i2: nat, deg: nat): (cmaps: Matrix)
    requires DataShape(data, layout, nav, len) && |axis| == len && i1 <= i2 <= len
    ensures IsMatrix(cmaps, deg + 1, nav)
    ensures forall k, p :: 0 <= k <= deg && 0 <= p < nav ==>
              cmaps[k][p] == fit(axis[i1..i2], Spectrum(data, layout, nav, len, p)[i1..i2], deg)[k]
  {
    var dc := if layout.SignalLast? then Transpose(data, nav, len) else data;
    var window := dc[i1..i2];
    assert IsMatrix(window, i2 - i1, nav);
    var cmaps := FitColumns(fit, axis[i1..i2], window, i2 - i1, nav, deg);
    assert forall p :: 0 <= p < nav ==> Column(window, p) == Spectrum(data, layout, nav, len, p)[i1..i2] by {
      forall p | 0 <= p < nav ensures Column(window, p) == Spectrum(data, layout, nav, len, p)[i1..i2] {
        assert forall r :: 0 <= r < i2 - i1 ==> Column(window, p)[r] == Spectrum(data, layout, nav, len, p)[i1 + r];
      }
    }
    cmaps
  }

  /**
   * The `nav × (deg+1)` map `estimate_parameters` stores, as written: the fit
   * is transposed back only for the signal-last layout and then reshaped
   * row-major in both.
   */
  function StoredMap(fit: PolyFit, axis: seq<real>, data: Matrix, layout: Layout, nav: nat, len: nat,
                     i1: nat, i2: nat, deg: nat): (m: Matrix)
    requires DataShape(data, layout, nav, len) && |axis| == len && i1 <= i2 <= len
    ensures IsMatrix(m, nav, deg + 1)
  {
    var cmaps := WindowFit(fit, axis, data, layout, nav, len, i1, i2, deg);
    if layout.SignalLast? then Reshape(Transpose(cmaps, deg + 1, nav), nav, deg + 1, nav, deg + 1)
    else Reshape(cmaps, deg + 1, nav, nav, deg + 1)
  }

  /** With the signal axis last, row `p` of the stored map is pixel `p`'s fit. */
  lemma SignalLastStoresEachPixelsFit(fit: PolyFit, axis: seq<real>, data: Matrix, nav: nat, len: nat,
                                      i1: nat, i2: nat, deg: nat, p: nat, k: nat)
    requires DataShape(data, SignalLast, nav, len) && |axis| == len && i1 <= i2 <= len
    requires p < nav && k <= deg
    ensures StoredMap(fit, axis, data, SignalLast, nav, len, i1, i2, deg)[p][k] == fit(axis[i1..i2], data[p][i1..i2], deg)[k]
  {
    var cmaps := WindowFit(fit, axis, data, SignalLast, nav, len, i1, i2, deg);
    var t := Transpose(cmaps, deg + 1, nav);
    var stored := StoredMap(fit, axis, data, SignalLast, nav, len, i1, i2, deg);
    assert stored == Reshape(t, nav, deg + 1, nav, deg + 1);
    EntryRowMajor(t, nav, deg + 1, p, k);
    assert stored[p][k] == t[p][k] == cmaps[k][p];
    assert Spectrum(data, SignalLast, nav, len, p) == data[p];
  }

  /**
   * With the signal axis first, entry `(p, k)` of the stored map is entry
   * `q = p·(deg+1) + k` of the fit read row-major: coefficient `q / nav` of
   * pixel `q % nav`.
   */
  lemma SignalFirstStoresReinterpretedFit(fit: PolyFit, axis: seq<real>, data: Matrix, nav: nat, len: nat,
                                          i1: nat, i2: nat, deg: nat, p: nat, k: nat)
    requires DataShape(data, SignalFirst, nav, len) && |axis| == len && i1 <= i2 <= len
    requires p < nav && k <= deg
    ensures var (r, c) := SourceOf(p, k, nav, deg);
      StoredMap(fit, axis, data, SignalFirst, nav, len, i1, i2, deg)[p][k]
        == fit(axis[i1..i2], Column(data, c)[i1..i2], deg)[r]
  {
    var cmaps := WindowFit(fit, axis, data, SignalFirst, nav, len, i1, i2, deg);
    var r, c := ReshapedEntry(cmaps, nav, deg, p, k);
    WindowFitAt(fit, axis, data, nav, len, i1, i2, deg, r, c);
  }

  /**
   * Where entry `(p, k)` of a `nav × (deg+1)` reading of a `(deg+1) × nav`
   * matrix comes from: position `p·(deg+1) + k` row-major, that is row
   * `q / nav` and column `q % nav`, both in range.
   */
  function SourceOf(p: nat, k: nat, nav: nat, deg: nat): (rc: (nat, nat))
    requires p < nav && k <= deg
    ensures rc.0 == (p * (deg + 1) + k) / nav && rc.1 == (p * (deg + 1) + k) % nav
    ensures rc.0 <= deg && rc.1 < nav
  {
    RowMajorBound(p, k, nav, deg + 1);
    assert nav * (deg + 1) == (deg + 1) * nav;
    DivBound(p * (deg + 1) + k, deg + 1, nav);
    ((p * (deg + 1) + k) / nav, (p * (deg + 1) + k) % nav)
  }

  /** Reading a `(deg+1) × nav` matrix as `nav × (deg+1)`: entry `(p, k)` is entry `p·(deg+1) + k` row-major. */
  lemma ReshapedEntry(cmaps: Matrix, nav: nat, deg: nat, p: nat, k: nat) returns (r: nat, c: nat)
    requires IsMatrix(cmaps, deg + 1, nav) && p < nav && k <= deg
    ensures (r, c) == SourceOf(p, k, nav, deg)
    ensures Reshape(cmaps, deg + 1, nav, nav, deg + 1)[p][k] == cmaps[r][c]
  {
    r, c := SourceOf(p, k, nav, deg).0, SourceOf(p, k, nav, deg).1;
    RowMajorBound(p, k, nav, deg + 1);
    assert nav * (deg + 1) == (deg + 1) * nav;
    EntryInRange(cmaps, deg + 1, nav, p * (deg + 1) + k);
  }

  /** Entry `(r, c)` of the signal-first window fit is coefficient `r` of pixel `c`. */
  lemma WindowFitAt(fit: PolyFit, axis: seq<real>, data: Matrix, nav: nat, len: nat,
                    i1: nat, i2: nat, deg: nat, r: nat, c: nat)
    requires DataShape(data, SignalFirst, nav, len) && |axis| == len && i1 <= i2 <= len
    requires r <= deg && c < nav
    ensures WindowFit(fit, axis, data, SignalFirst, nav, len, i1, i2, deg)[r][c]
              == fit(axis[i1..i2], Column(data, c)[i1..i2], deg)[r]
  {
    assert Spectrum(data, SignalFirst, nav, len, c) == Column(data, c);
  }

  /** The map the comments describe: the fit transposed to `nav × (deg+1)` in both layouts. */
  function IntendedMap(fit: PolyFit, axis: seq<real>, data: Matrix, layout: Layout, nav: nat, len: nat,
                       i1: nat, i2: nat, deg: nat): (m: Matrix)
    requires DataShape(data, layout, nav, len) && |axis| == len && i1 <= i2 <= len
    ensures IsMatrix(m, nav, deg + 1)
  {
    Transpose(WindowFit(fit, axis, data, layout, nav, len, i1, i2, deg), deg + 1, nav)
  }

  /** In either layout, row `p` of the intended map is pixel `p`'s fit. */
  lemma IntendedStoresEachPixelsFit(fit: PolyFit, axis: seq<real>, data: Matrix, layout: Layout, nav: nat, len: nat,
                                    i1: nat, i2: nat, deg: nat, p: nat, k: nat)
    requires DataShape(data, layout, nav, len) && |axis| == len && i1 <= i2 <= len
    requires p < nav && k <= deg
    ensures IntendedMap(fit, axis, data, layout, nav, len, i1, i2, deg)[p][k]
              == fit(axis[i1..i2], Spectrum(data, layout, nav, len, p)[i1..i2], deg)[k]
  {
  }

  /** The two agree whenever the signal axis is last. */
  lemma StoredIsIntendedWhenSignalLast(fit: PolyFit, axis: seq<real>, data: Matrix, nav: nat, len: nat,
                                       i1: nat, i2: nat, deg: nat)
    requires DataShape(data, SignalLast, nav, len) && |axis| == len && i1 <= i2 <= len
    ensures StoredMap(fit, axis, data, SignalLast, nav, len, i1, i2, deg)
              == IntendedMap(fit, axis, data, SignalLast, nav, len, i1, i2, deg)
  {
    var s := StoredMap(fit, axis, data, SignalLast, nav, len, i1, i2, deg);
    var t := IntendedMap(fit, axis, data, SignalLast, nav, len, i1, i2, deg);
    forall p | 0 <= p < nav ensures s[p] == t[p] {
      forall k | 0 <= k <= deg ensures s[p][k] == t[p][k] {
        SignalLastStoresEachPixelsFit(fit, axis, data, nav, len, i1, i2, deg, p, k);
        IntendedStoresEachPixelsFit(fit, axis, data, SignalLast, nav, len, i1, i2, deg, p, k);
        assert Spectrum(data, SignalLast, nav, len, p) == data[p];
      }
    }
  }

  /** With a single pixel the row-major reinterpretation is a transpose, so the signal-first layout is stored as intended. */
  lemma StoredIsIntendedWhenSinglePixel(fit: PolyFit, axis: seq<real>, data: Matrix, len: nat,
                                        i1: nat, i2: nat, deg: nat)
    requires DataShape(data, SignalFirst, 1, len) && |axis| == len && i1 <= i2 <= len
    ensures StoredMap(fit, axis, data, SignalFirst, 1, len, i1, i2, deg)
              == IntendedMap(fit, axis, data, SignalFirst, 1, len, i1, i2, deg)
  {
    var cmaps := WindowFit(fit, axis, data, SignalFirst, 1, len, i1, i2, deg);
    var s := StoredMap(fit, axis, data, SignalFirst, 1, len, i1, i2, deg);
    var t := IntendedMap(fit, axis, data, SignalFirst, 1, len, i1, i2, deg);
    assert s[0] == t[0] by {
      forall k | 0 <= k <= deg ensures s[0][k] == t[0][k] {
        EntryRowMajor(cmaps, deg + 1, 1, k, 0);
      }
    }
  }

  /** A fit whose coefficients are the first sample and ten times it. */
  function ScaledFirst(xs: seq<real>, ys: seq<real>, deg: nat): (r: seq<real>)
    ensures |r| == deg + 1
  {
    seq(deg + 1, k => if |ys| == 0 then 0.0 else if k == 0 then ys[0] else 10.0 * ys[0])
  }

  /**
   * Two pixels, one channel, a straight-line fit, the signal axis first: the
   * stored row of pixel 0 is `[1, 2]`, its coefficient 0 and pixel 1's
   * coefficient 0, where its own fit is `[1, 10]`.
   */
  lemma SignalFirstScrambles()
    ensures forall xs, ys, deg: nat :: |ScaledFirst(xs, ys, deg)| == deg + 1
    ensures var data := [[1.0, 2.0]];
      && StoredMap(ScaledFirst, [0.0], data, SignalFirst, 2, 1, 0, 1, 1)[0] == [1.0, 2.0]
      && IntendedMap(ScaledFirst, [0.0], data, SignalFirst, 2, 1, 0, 1, 1)[0] == [1.0, 10.0]
  {
    assert forall xs, ys, deg: nat :: |ScaledFirst(xs, ys, deg)| == deg + 1;
    var data := [[1.0, 2.0]];
    assert Column(data, 0)[0..1] == [1.0];
    assert Column(data, 1)[0..1] == [2.0];
    SignalFirstStoresReinterpretedFit(ScaledFirst, [0.0], data, 2, 1, 0, 1, 1, 0, 0);
    SignalFirstStoresReinterpretedFit(ScaledFirst, [0.0], data, 2, 1, 0, 1, 1, 0, 1);
    IntendedStoresEachPixelsFit(ScaledFirst, [0.0], data, SignalFirst, 2, 1, 0, 1, 1, 0, 0);
    IntendedStoresEachPixelsFit(ScaledFirst, [0.0], data, SignalFirst, 2, 1, 0, 1, 1, 0, 1);
  }
}
