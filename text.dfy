/**
 * The string operations used to build the expanded polynomial: Python's
 * `str(n)` for a non-negative integer, `str.zfill`, `str.join` and, as the
 * partner of `join`, `str.split`.
 */
module Text {
  import opened Names

  function Digit(d: nat): char
    requires d < 10
  {
    ('0' as int + d) as char
  }

  /** Python's `str(n)` for `n >= 0`: decimal digits, no leading zero. */
  function Decimal(n: nat): (s: string)
    ensures 1 <= |s|
    decreases n
  {
    if n < 10 then [Digit(n)] else Decimal(n / 10) + [Digit(n % 10)]
  }

  function Pow10(w: nat): nat
  {
    if w == 0 then 1 else 10 * Pow10(w - 1)
  }

  /** `str(n)` has at most `w` digits exactly when `n < 10^w`. */
  lemma {:induction false} DecimalLength(n: nat, w: nat)
    requires 1 <= w
    ensures |Decimal(n)| <= w <==> n < Pow10(w)
    decreases n
  {
    if n >= 10 {
      if w == 1 {
        assert Pow10(1) == 10;
        assert |Decimal(n)| == |Decimal(n / 10)| + 1;
      } else {
        DecimalLength(n / 10, w - 1);
      }
    } else {
      assert Pow10(w) >= 10 by { PowAtLeastTen(w); }
    }
  }

  lemma {:induction false} PowAtLeastTen(w: nat)
    requires 1 <= w
    ensures Pow10(w) >= 10
  {
    if w > 1 { PowAtLeastTen(w - 1); }
  }

  lemma {:induction false} DecimalMonotone(k: nat, n: nat)
    requires k <= n
    ensures |Decimal(k)| <= |Decimal(n)|
    decreases n
  {
    if k >= 10 {
      DecimalMonotone(k / 10, n / 10);
    }
  }

  function Zeros(k: nat): (s: string)
    ensures |s| == k && forall i :: 0 <= i < k ==> s[i] == '0'
  {
    seq(k, _ => '0')
  }

  /** Python's `s.zfill(w)` for a string without a sign. */
  function ZFill(s: string, w: nat): (r: string)
    ensures |s| < w ==> |r| == w && r[w - |s|..] == s
    ensures |s| < w ==> forall i :: 0 <= i < w - |s| ==> r[i] == '0'
    ensures w <= |s| ==> r == s
  {
    if |s| < w then Zeros(w - |s|) + s else s
  }

  /** The last `w` decimal digits of `k`, zero-padded. */
  function FixedDigits(k: nat, w: nat): (s: string)
    ensures |s| == w
  {
    if w == 0 then [] else FixedDigits(k / 10, w - 1) + [Digit(k % 10)]
  }

  lemma {:induction false} FixedDigitsZero(w: nat)
    ensures FixedDigits(0, w) == Zeros(w)
  {
    if w > 0 {
      FixedDigitsZero(w - 1);
      assert Zeros(w) == Zeros(w - 1) + ['0'];
    }
  }

  /** Zero-filling `str(k)` to `w` characters writes `k` on exactly `w` digits. */
  lemma {:induction false} ZFillDecimal(k: nat, w: nat)
    requires |Decimal(k)| <= w
    ensures ZFill(Decimal(k), w) == FixedDigits(k, w)
    decreases k
  {
    if k < 10 {
      FixedDigitsZero(w - 1);
      assert ZFill(Decimal(k), w) == Zeros(w - 1) + [Digit(k)];
    } else {
      var d := Decimal(k / 10);
      ZFillDecimal(k / 10, w - 1);
      if |d| + 1 < w {
        assert Zeros(w - |d| - 1) + (d + [Digit(k % 10)]) == (Zeros(w - 1 - |d|) + d) + [Digit(k % 10)];
      }
    }
  }

  /** Fixed-width digit strings sort as the numbers they write. */
  lemma {:induction false} FixedDigitsOrder(i: nat, j: nat, w: nat)
    requires i < Pow10(w) && j < Pow10(w)
    ensures Less(FixedDigits(i, w), FixedDigits(j, w)) <==> i < j
    ensures FixedDigits(i, w) == FixedDigits(j, w) <==> i == j
  {
    if w == 0 {
      LessIrreflexive([]);
    } else {
      FixedDigitsOrder(i / 10, j / 10, w - 1);
      LessSnoc(FixedDigits(i / 10, w - 1), FixedDigits(j / 10, w - 1), Digit(i % 10), Digit(j % 10));
      assert i == 10 * (i / 10) + i % 10;
      assert j == 10 * (j / 10) + j % 10;
      var s, t := FixedDigits(i, w), FixedDigits(j, w);
      if s == t {
        assert s[..w - 1] == FixedDigits(i / 10, w - 1) && t[..w - 1] == FixedDigits(j / 10, w - 1);
        assert s[w - 1] == Digit(i % 10) && t[w - 1] == Digit(j % 10);
      }
    }
  }

  /** Python's `sep.join(parts)`. */
  function Join(parts: seq<string>, sep: char): string
  {
    if |parts| == 0 then ""
    else if |parts| == 1 then parts[0]
    else parts[0] + [sep] + Join(parts[1..], sep)
  }

  function IndexOf(s: string, c: char): (i: nat)
    requires c in s
    ensures i < |s| && s[i] == c && c !in s[..i]
  {
    if s[0] == c then 0 else 1 + IndexOf(s[1..], c)
  }

  /** Python's `s.split(sep)`, which keeps empty pieces. */
  function Split(s: string, sep: char): (r: seq<string>)
    ensures |r| >= 1
    decreases |s|
  {
    if sep !in s then [s]
    else
      var i := IndexOf(s, sep);
      [s[..i]] + Split(s[i + 1..], sep)
  }

  lemma {:induction false} IndexOfAfter(head: string, sep: char, rest: string)
    requires sep !in head
    ensures sep in head + [sep] + rest && IndexOf(head + [sep] + rest, sep) == |head|
  {
    var s := head + [sep] + rest;
    assert s[|head|] == sep;
    if |head| > 0 {
      assert head[0] != sep;
      assert s[1..] == head[1..] + [sep] + rest;
      assert sep !in head[1..] by { forall k | 0 <= k < |head[1..]| ensures head[1..][k] != sep { assert head[1..][k] == head[k + 1]; } }
      IndexOfAfter(head[1..], sep, rest);
    }
  }

  lemma SplitAfter(head: string, sep: char, rest: string)
    requires sep !in head
    ensures Split(head + [sep] + rest, sep) == [head] + Split(rest, sep)
  {
    var s := head + [sep] + rest;
    IndexOfAfter(head, sep, rest);
    assert s[..|head|] == head;
    assert s[|head| + 1..] == rest;
  }

  /** Splitting what `join` produced gives the parts back, when no part holds the separator. */
  lemma {:induction false} SplitJoin(parts: seq<string>, sep: char)
    requires |parts| >= 1
    requires forall p :: p in parts ==> sep !in p
    ensures Split(Join(parts, sep), sep) == parts
  {
    assert sep !in parts[0] by { assert parts[0] in parts; }
    if |parts| > 1 {
      SplitAfter(parts[0], sep, Join(parts[1..], sep));
      SplitJoin(parts[1..], sep);
      assert parts == [parts[0]] + parts[1..];
    }
  }
}
