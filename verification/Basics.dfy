/** Stock types and facts about labels, finite sums and finite sets. */
module Basics {
  datatype Option<+T> = None | Some(value: T)

  type Time = real

  // --- label order -------------------------------------------------------------

  /** The strict order in which Python sorts host labels: by code point, prefixes first. */
  predicate Below(a: string, b: string) {
    if b == "" then false
    else if a == "" then true
    else a[0] < b[0] || (a[0] == b[0] && Below(a[1..], b[1..]))
  }

  /** The first place where the labels differ decides, and a proper prefix comes first. */
  lemma {:induction false} BelowExact(a: string, b: string)
    ensures Below(a, b) <==> exists n :: DecidesAt(a, b, n)
  {
    if a == "" || b == "" || a[0] != b[0] {
      assert a[..0] == b[..0];
      assert (a == "" && b != "") || (a != "" && b != "" && a[0] < b[0]) ==> DecidesAt(a, b, 0);
      forall n | DecidesAt(a, b, n) ensures n <= 0 { SameHead(a, b, n); }
    } else {
      BelowExact(a[1..], b[1..]);
      assert a == [a[0]] + a[1..] && b == [b[0]] + b[1..];
      forall n | DecidesAt(a[1..], b[1..], n) ensures DecidesAt(a, b, n + 1) {
        assert a[..n + 1] == [a[0]] + a[1..][..n] && b[..n + 1] == [b[0]] + b[1..][..n];
      }
      forall n | DecidesAt(a, b, n) ensures DecidesAt(a[1..], b[1..], n - 1) {
        assert n > 0;
        assert a[1..][..n - 1] == a[..n][1..] && b[1..][..n - 1] == b[..n][1..];
      }
    }
  }

  lemma SameHead(a: string, b: string, n: nat)
    requires n <= |a| && n <= |b| && a[..n] == b[..n]
    ensures n == 0 || a[0] == b[0]
  {
    if n > 0 { assert a[..n][0] == a[0] && b[..n][0] == b[0]; }
  }

  predicate DecidesAt(a: string, b: string, n: int) {
    0 <= n <= |a| && n < |b| && a[..n] == b[..n] && (n == |a| || a[n] < b[n])
  }

  lemma {:induction false} BelowTotal(a: string, b: string)
    ensures a == b || Below(a, b) || Below(b, a)
  {
    if a == "" || b == "" {
    } else if a[0] == b[0] {
      BelowTotal(a[1..], b[1..]);
      assert a == [a[0]] + a[1..] && b == [b[0]] + b[1..];
    }
  }

  lemma {:induction false} BelowAsymmetric(a: string, b: string)
    requires Below(a, b)
    ensures !Below(b, a)
  {
    if a != "" && a[0] == b[0] {
      BelowAsymmetric(a[1..], b[1..]);
    }
  }

  lemma {:induction false} BelowTransitive(a: string, b: string, c: string)
    requires Below(a, b) && Below(b, c)
    ensures Below(a, c)
  {
    if a != "" && a[0] == b[0] == c[0] {
      BelowTransitive(a[1..], b[1..], c[1..]);
    }
  }

  /** Sorted, without repetition. */
  ghost predicate Ascending(labels: seq<string>) {
    forall i, j :: 0 <= i < j < |labels| ==> Below(labels[i], labels[j])
  }

  ghost predicate Smallest(labels: set<string>, x: string) {
    x in labels && forall y :: y in labels && y != x ==> Below(x, y)
  }

  method FindSmallest(labels: set<string>) returns (x: string)
    requires labels != {}
    ensures Smallest(labels, x)
  {
    x :| x in labels;
    var rest := labels - {x};
    while rest != {}
      invariant rest <= labels && x in labels - rest
      invariant Smallest(labels - rest, x)
      decreases rest
    {
      var y :| y in rest;
      BelowTotal(x, y);
      if Below(y, x) {
        forall z | z in labels - rest && z != x ensures Below(y, z) { BelowTransitive(y, x, z); }
        x := y;
      }
      rest := rest - {y};
    }
    assert labels - rest == labels;
  }

  /** The labels of a set in sorted order. */
  method SortedLabels(labels: set<string>) returns (sorted: seq<string>)
    ensures Ascending(sorted) && forall x :: x in sorted <==> x in labels
  {
    sorted := [];
    var rest := labels;
    while rest != {}
      invariant rest <= labels && Ascending(sorted)
      invariant forall x :: x in sorted <==> x in labels - rest
      invariant forall x, y :: x in sorted && y in rest ==> Below(x, y)
      decreases rest
    {
      var x := FindSmallest(rest);
      sorted := sorted + [x];
      rest := rest - {x};
    }
  }

  // --- sums over finite sets ---------------------------------------------------

  ghost function Sum<T>(f: map<T, int>, s: set<T>): int
    requires s <= f.Keys
  {
    if s == {} then 0 else var x :| x in s; f[x] + Sum(f, s - {x})
  }

  lemma {:induction false} SumSplit<T>(f: map<T, int>, s: set<T>, x: T)
    requires s <= f.Keys && x in s
    ensures Sum(f, s) == f[x] + Sum(f, s - {x})
    decreases s
  {
    var y :| y in s && Sum(f, s) == f[y] + Sum(f, s - {y});
    if y != x {
      SumSplit(f, s - {y}, x);
      SumSplit(f, s - {x}, y);
      assert s - {y} - {x} == s - {x} - {y};
    }
  }

  lemma {:induction false} SumDifference<T>(f: map<T, int>, g: map<T, int>, d: map<T, int>, s: set<T>)
    requires s <= f.Keys && s <= g.Keys && s <= d.Keys
    requires forall x :: x in s ==> d[x] == f[x] - g[x]
    ensures Sum(d, s) == Sum(f, s) - Sum(g, s)
    decreases s
  {
    if s != {} {
      var x :| x in s;
      SumSplit(f, s, x);
      SumSplit(g, s, x);
      SumSplit(d, s, x);
      SumDifference(f, g, d, s - {x});
    }
  }

  // --- cardinalities -----------------------------------------------------------

  ghost function Image<K, V>(keys: set<K>, f: map<K, V>): set<V>
    requires keys <= f.Keys
  {
    set k | k in keys :: f[k]
  }

  /** Distinct keys with distinct images are as many as their images. */
  lemma {:induction false} ImageSize<K, V>(keys: set<K>, f: map<K, V>)
    requires keys <= f.Keys
    requires forall a, b :: a in keys && b in keys && f[a] == f[b] ==> a == b
    ensures |Image(keys, f)| == |keys|
    decreases keys
  {
    if keys != {} {
      var k :| k in keys;
      ImageSize(keys - {k}, f);
      assert Image(keys, f) == Image(keys - {k}, f) + {f[k]};
    }
  }

  lemma {:induction false} BoundedSize(s: set<nat>, n: nat)
    requires forall i :: i in s ==> i < n
    ensures |s| <= n
    decreases n
  {
    if n > 0 {
      BoundedSize(s - {n - 1}, n - 1);
    }
  }

  lemma {:induction false} RangeSize(s: set<nat>, n: nat)
    requires forall i: nat :: i < n ==> i in s
    ensures n <= |s|
    decreases n
  {
    if n > 0 {
      RangeSize(s - {n - 1}, n - 1);
    }
  }
}
