/**
 * `sort_values(..., ascending=False)` on a frame whose sort column is a
 * float. pandas' default sort is not stable, so nothing is promised about
 * the order of ties: the contracts state only that the result is a
 * permutation of the input and that it is descending.
 */
module Sorting {

  import opened Numbers

  ghost predicate SortedDesc<T>(s: seq<T>, key: T -> Num) {
    forall i, j :: 0 <= i < j < |s| ==> AtLeast(key(s[i]), key(s[j]))
  }

  ghost predicate Distinct<T>(s: seq<T>) {
    forall i, j :: 0 <= i < j < |s| ==> s[i] != s[j]
  }

  function Insert<T>(x: T, s: seq<T>, key: T -> Num): (r: seq<T>)
    ensures multiset(r) == multiset(s) + multiset{x}
  {
    if s == [] then [x]
    else if AtLeast(key(x), key(s[0])) then [x] + s
    else
      assert s == [s[0]] + s[1..];
      [s[0]] + Insert(x, s[1..], key)
  }

  lemma {:induction false} InsertSorted<T>(x: T, s: seq<T>, key: T -> Num)
    requires SortedDesc(s, key)
    ensures SortedDesc(Insert(x, s, key), key)
  {
    if s == [] {
    } else if AtLeast(key(x), key(s[0])) {
      forall k | 0 < k < |s| ensures AtLeast(key(x), key(s[k])) {
        AtLeastTransitive(key(x), key(s[0]), key(s[k]));
      }
    } else {
      var rest := Insert(x, s[1..], key);
      InsertSorted(x, s[1..], key);
      AtLeastTotal(key(x), key(s[0]));
      forall y | y in rest ensures AtLeast(key(s[0]), key(y)) {
        assert y in multiset(rest);
        assert y == x || y in multiset(s[1..]);
      }
    }
  }

  lemma ConsDistinct<T>(y: T, t: seq<T>)
    requires y !in t && Distinct(t)
    ensures Distinct([y] + t)
  {
    var r := [y] + t;
    forall i, j | 0 <= i < j < |r| ensures r[i] != r[j] {
      assert r[j] == t[j - 1];
      if i > 0 {
        assert r[i] == t[i - 1];
      }
    }
  }

  lemma {:induction false} InsertDistinct<T>(x: T, s: seq<T>, key: T -> Num)
    requires x !in s && Distinct(s)
    ensures Distinct(Insert(x, s, key))
  {
    if s == [] {
      assert Insert(x, s, key) == [x];
    } else if AtLeast(key(x), key(s[0])) {
      assert Insert(x, s, key) == [x] + s;
      ConsDistinct(x, s);
    } else {
      var rest := Insert(x, s[1..], key);
      assert Distinct(s[1..]) by {
        forall i, j | 0 <= i < j < |s[1..]| ensures s[1..][i] != s[1..][j] {
          assert s[1..][i] == s[i + 1] && s[1..][j] == s[j + 1];
        }
      }
      assert x !in s[1..];
      InsertDistinct(x, s[1..], key);
      assert s[0] !in rest by {
        forall k | 0 <= k < |s[1..]| ensures s[1..][k] != s[0] {
          assert s[1..][k] == s[k + 1];
        }
        assert s[0] !in multiset(s[1..]);
        assert s[0] in s;
        assert s[0] != x;
        assert multiset(rest) == multiset(s[1..]) + multiset{x};
        assert s[0] !in multiset(rest);
      }
      assert Insert(x, s, key) == [s[0]] + rest;
      ConsDistinct(s[0], rest);
    }
  }

  /** Insertion sort, descending by key. */
  function SortDesc<T>(s: seq<T>, key: T -> Num): (r: seq<T>)
    ensures multiset(r) == multiset(s)
    ensures |r| == |s|
    ensures SortedDesc(r, key)
    ensures Distinct(s) ==> Distinct(r)
  {
    if s == [] then []
    else
      assert s == [s[0]] + s[1..];
      var rest := SortDesc(s[1..], key);
      InsertSorted(s[0], rest, key);
      assert Distinct(s) ==> Distinct(Insert(s[0], rest, key)) by {
        if Distinct(s) {
          assert s[0] !in multiset(s[1..]);
          InsertDistinct(s[0], rest, key);
        }
      }
      Insert(s[0], rest, key)
  }

  /**
   * The sum of `val` over a sequence; a pandas column `.sum()` of derived real
   * values (the shares). The integer counts use Regional.Sum and
   * Grouping.Total instead, which take a field rather than a function value.
   */
  function SumOf<T>(s: seq<T>, val: T -> real): real {
    if s == [] then 0.0 else val(s[0]) + SumOf(s[1..], val)
  }

  lemma {:induction false} SumOfConcat<T>(a: seq<T>, b: seq<T>, val: T -> real)
    ensures SumOf(a + b, val) == SumOf(a, val) + SumOf(b, val)
  {
    if a == [] {
      assert a + b == b;
    } else {
      assert (a + b)[1..] == a[1..] + b;
      SumOfConcat(a[1..], b, val);
    }
  }

  lemma SumOfRemove<T>(b: seq<T>, i: int, val: T -> real)
    requires 0 <= i < |b|
    ensures SumOf(b, val) == val(b[i]) + SumOf(b[..i] + b[i + 1..], val)
  {
    assert b == (b[..i] + [b[i]]) + b[i + 1..];
    SumOfConcat(b[..i] + [b[i]], b[i + 1..], val);
    SumOfConcat(b[..i], [b[i]], val);
    SumOfConcat(b[..i], b[i + 1..], val);
    assert [b[i]][1..] == [];
  }

  lemma MultisetRemove<T>(b: seq<T>, i: int)
    requires 0 <= i < |b|
    ensures multiset(b[..i] + b[i + 1..]) == multiset(b) - multiset{b[i]}
  {
    assert b == b[..i] + [b[i]] + b[i + 1..];
  }

  /** A column sum does not depend on the row order. */
  lemma {:induction false} SumOfPermutation<T>(a: seq<T>, b: seq<T>, val: T -> real)
    requires multiset(a) == multiset(b)
    ensures SumOf(a, val) == SumOf(b, val)
    decreases |a|
  {
    if a == [] {
      assert |b| == |multiset(b)| == 0;
    } else {
      var x := a[0];
      assert x in multiset(b);
      var i :| 0 <= i < |b| && b[i] == x;
      MultisetRemove(b, i);
      assert a == [x] + a[1..];
      assert multiset(a[1..]) == multiset(a) - multiset{x};
      SumOfPermutation(a[1..], b[..i] + b[i + 1..], val);
      SumOfRemove(b, i, val);
    }
  }

  lemma {:induction false} TwiceIn<T>(s: seq<T>, x: T)
    requires multiset(s)[x] >= 2
    ensures exists i, j :: 0 <= i < j < |s| && s[i] == x && s[j] == x
  {
    assert s == [s[0]] + s[1..];
    if s[0] == x {
      assert x in multiset(s[1..]);
      var k :| 0 <= k < |s[1..]| && s[1..][k] == x;
      assert s[k + 1] == x;
    } else {
      TwiceIn(s[1..], x);
      var i, j :| 0 <= i < j < |s[1..]| && s[1..][i] == x && s[1..][j] == x;
      assert s[i + 1] == x && s[j + 1] == x;
    }
  }

  /** Reordering rows cannot make two of them share a label. */
  lemma LabelsStayDistinct<T, K>(a: seq<T>, b: seq<T>, tag: T -> K)
    requires multiset(a) == multiset(b)
    requires forall i, j :: 0 <= i < j < |a| ==> tag(a[i]) != tag(a[j])
    ensures forall i, j :: 0 <= i < j < |b| ==> tag(b[i]) != tag(b[j])
  {
    forall i, j | 0 <= i < j < |b| ensures tag(b[i]) != tag(b[j]) {
      if b[i] == b[j] {
        assert b == b[..j] + [b[j]] + b[j + 1..];
        assert b[i] in multiset(b[..j]);
        assert multiset(b)[b[i]] >= 2;
        TwiceIn(a, b[i]);
      } else {
        assert b[i] in multiset(a) && b[j] in multiset(a);
        var i' :| 0 <= i' < |a| && a[i'] == b[i];
        var j' :| 0 <= j' < |a| && a[j'] == b[j];
        assert i' != j';
        if i' > j' {
          assert tag(a[j']) != tag(a[i']);
        }
      }
    }
  }

  lemma SameElements<T>(a: seq<T>, b: seq<T>)
    requires multiset(a) == multiset(b)
    ensures forall x :: x in a <==> x in b
  {
    forall x ensures x in a <==> x in b {
      assert x in a <==> x in multiset(a);
      assert x in b <==> x in multiset(b);
    }
  }
}
