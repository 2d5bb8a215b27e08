/**
 * Names of symbols and their order. Python compares strings lexicographically
 * by code point; `Less` is that comparison, and `Sort` turns a list of names
 * into the sorted, duplicate-free list that `list.sort` produces on a list
 * drawn from a set.
 */
module Names {

  /** Python's `a < b` on `str`. */
  predicate Less(a: string, b: string)
    decreases |a|
  {
    |b| > 0 && (|a| == 0 || (if a[0] == b[0] then Less(a[1..], b[1..]) else a[0] < b[0]))
  }

  lemma {:induction false} LessIrreflexive(a: string)
    ensures !Less(a, a)
    decreases |a|
  {
    if |a| > 0 {
      LessIrreflexive(a[1..]);
    }
  }

  lemma {:induction false} LessTransitive(a: string, b: string, c: string)
    requires Less(a, b) && Less(b, c)
    ensures Less(a, c)
    decreases |a|
  {
    if |a| > 0 && a[0] == b[0] && b[0] == c[0] {
      LessTransitive(a[1..], b[1..], c[1..]);
    }
  }

  lemma {:induction false} LessTotal(a: string, b: string)
    ensures a == b || Less(a, b) || Less(b, a)
    decreases |a|
  {
    if |a| > 0 && |b| > 0 && a[0] == b[0] {
      LessTotal(a[1..], b[1..]);
      if a[1..] == b[1..] {
        assert a == [a[0]] + a[1..] && b == [b[0]] + b[1..];
      }
    }
  }

  lemma LessAsymmetric(a: string, b: string)
    requires Less(a, b)
    ensures !Less(b, a)
  {
    if Less(b, a) {
      LessTransitive(a, b, a);
      LessIrreflexive(a);
    }
  }

  /** Appending one character to two names of equal length: the names decide, then the characters. */
  lemma {:induction false} LessSnoc(s: string, t: string, c: char, d: char)
    requires |s| == |t|
    ensures Less(s + [c], t + [d]) <==> Less(s, t) || (s == t && c < d)
    decreases |s|
  {
    if |s| == 0 {
      assert s == t;
      assert (s + [c])[0] == c && (t + [d])[0] == d;
    } else {
      assert (s + [c])[0] == s[0] && (t + [d])[0] == t[0];
      assert (s + [c])[1..] == s[1..] + [c] && (t + [d])[1..] == t[1..] + [d];
      LessSnoc(s[1..], t[1..], c, d);
      if s[0] == t[0] && s[1..] == t[1..] {
        assert s == [s[0]] + s[1..] && t == [t[0]] + t[1..];
      }
      if s == t {
        LessIrreflexive(s);
      }
    }
  }

  function Elements(s: seq<string>): set<string>
  {
    set n | n in s
  }

  lemma ElementsConcat(a: seq<string>, b: seq<string>)
    ensures Elements(a + b) == Elements(a) + Elements(b)
  {
    forall n | n in Elements(a + b) ensures n in Elements(a) + Elements(b) {
      var i :| 0 <= i < |a + b| && (a + b)[i] == n;
      if i < |a| { assert a[i] == n; } else { assert b[i - |a|] == n; }
    }
  }

  lemma ElementsCons(s: seq<string>)
    requires |s| > 0
    ensures Elements(s) == {s[0]} + Elements(s[1..])
  {
    assert s == [s[0]] + s[1..];
    ElementsConcat([s[0]], s[1..]);
  }

  predicate StrictlySorted(s: seq<string>)
  {
    forall i, j :: 0 <= i < j < |s| ==> Less(s[i], s[j])
  }

  predicate Distinct(s: seq<string>)
  {
    forall i, j :: 0 <= i < j < |s| ==> s[i] != s[j]
  }

  lemma SortedIsDistinct(s: seq<string>)
    requires StrictlySorted(s)
    ensures Distinct(s)
  {
    forall i, j | 0 <= i < j < |s| ensures s[i] != s[j] {
      LessIrreflexive(s[i]);
    }
  }

  lemma DistinctConcat(a: seq<string>, b: seq<string>)
    requires Distinct(a) && Distinct(b)
    requires forall n :: n in a ==> n !in b
    ensures Distinct(a + b)
  {
    forall i, j | 0 <= i < j < |a + b| ensures (a + b)[i] != (a + b)[j] {
      if j < |a| {
        assert (a + b)[i] == a[i] && (a + b)[j] == a[j];
      } else if i < |a| {
        assert (a + b)[i] == a[i] && (a + b)[j] == b[j - |a|];
        assert a[i] in a && b[j - |a|] in b;
      } else {
        assert (a + b)[i] == b[i - |a|] && (a + b)[j] == b[j - |a|];
      }
    }
  }

  /** Inserts `n` into a sorted list, keeping it sorted and dropping a duplicate. */
  function Insert(s: seq<string>, n: string): (r: seq<string>)
    requires StrictlySorted(s)
    ensures StrictlySorted(r)
    ensures Elements(r) == Elements(s) + {n}
  {
    if s == [] then [n]
    else if n == s[0] then s
    else if Less(n, s[0]) then
      assert forall j :: 0 < j < |s| ==> Less(n, s[j]) by {
        forall j | 0 < j < |s| ensures Less(n, s[j]) { LessTransitive(n, s[0], s[j]); }
      }
      [n] + s
    else
      LessTotal(n, s[0]);
      var t := Insert(s[1..], n);
      InsertAfterHead(s, n, t);
      [s[0]] + t
  }

  /** Keeping the head of `s` in front of the insertion into its tail. */
  lemma InsertAfterHead(s: seq<string>, n: string, t: seq<string>)
    requires StrictlySorted(s) && s != [] && Less(s[0], n)
    requires StrictlySorted(t) && Elements(t) == Elements(s[1..]) + {n}
    ensures StrictlySorted([s[0]] + t)
    ensures Elements([s[0]] + t) == Elements(s) + {n}
  {
    ElementsCons(s);
    forall k | 0 <= k < |t| ensures Less(s[0], t[k]) {
      assert t[k] in Elements(t);
      if t[k] != n {
        var i :| 0 <= i < |s[1..]| && s[1..][i] == t[k];
        assert s[i + 1] == t[k];
      }
    }
    ElementsConcat([s[0]], t);
  }

  /** The sorted, duplicate-free list of the names in `l`. */
  function Sort(l: seq<string>): (r: seq<string>)
    ensures StrictlySorted(r)
    ensures Elements(r) == Elements(l)
  {
    if l == [] then []
    else
      assert Elements(l) == Elements(l[..|l| - 1]) + {l[|l| - 1]} by {
        assert l == l[..|l| - 1] + [l[|l| - 1]];
      }
      Insert(Sort(l[..|l| - 1]), l[|l| - 1])
  }

  /** A set of names has exactly one sorted, duplicate-free listing. */
  lemma {:induction false} SortedUnique(s: seq<string>, t: seq<string>)
    requires StrictlySorted(s) && StrictlySorted(t)
    requires Elements(s) == Elements(t)
    ensures s == t
    decreases |s|
  {
    assert s != [] ==> s[0] in Elements(s);
    assert t != [] ==> t[0] in Elements(t);
    if s != [] && t != [] {
      assert s[0] in Elements(t) && t[0] in Elements(s);
      if s[0] != t[0] {
        var i :| 0 <= i < |t| && t[i] == s[0];
        var j :| 0 <= j < |s| && s[j] == t[0];
        assert Less(t[0], s[0]);
        assert Less(s[0], t[0]);
        LessAsymmetric(s[0], t[0]);
      }
      SortedIsDistinct(s);
      SortedIsDistinct(t);
      assert Elements(s[1..]) == Elements(s) - {s[0]} by { assert s == [s[0]] + s[1..]; }
      assert Elements(t[1..]) == Elements(t) - {t[0]} by { assert t == [t[0]] + t[1..]; }
      SortedUnique(s[1..], t[1..]);
      assert s == [s[0]] + s[1..] && t == [t[0]] + t[1..];
    }
  }

  /** The names of `l` that are not in `drop`, in order. */
  function Without(l: seq<string>, drop: set<string>): (r: seq<string>)
    ensures Elements(r) == Elements(l) - drop
  {
    if l == [] then []
    else
      assert Elements(l) == {l[0]} + Elements(l[1..]) by { assert l == [l[0]] + l[1..]; }
      ElementsConcat(if l[0] in drop then [] else [l[0]], Without(l[1..], drop));
      (if l[0] in drop then [] else [l[0]]) + Without(l[1..], drop)
  }
}
