/**
 * Python's ordering of `str` values, which `sorted` uses: lexicographic on
 * code points, a proper prefix coming first. Here a character stands for
 * one code point.
 */
module TextOrder {

  predicate Less(a: string, b: string)
    decreases |a|
  {
    if |a| == 0 then |b| > 0
    else if |b| == 0 then false
    else if a[0] != b[0] then a[0] < b[0]
    else Less(a[1..], b[1..])
  }

  lemma {:induction false} LessIrreflexive(a: string)
    ensures !Less(a, a)
    decreases |a|
  {
    if |a| > 0 {
      LessIrreflexive(a[1..]);
    }
  }

  lemma {:induction false} LessTransitive(a: string, b: string, c: string)
    requires Less(a, b) && Less(b, c)
    ensures Less(a, c)
    decreases |a|
  {
    if |a| > 0 && a[0] == b[0] && b[0] == c[0] {
      LessTransitive(a[1..], b[1..], c[1..]);
    }
  }

  /** Any two different strings are ordered one way or the other. */
  lemma {:induction false} LessTotal(a: string, b: string)
    ensures a == b || Less(a, b) || Less(b, a)
    decreases |a|
  {
    if |a| > 0 && |b| > 0 && a[0] == b[0] {
      LessTotal(a[1..], b[1..]);
      if a[1..] == b[1..] {
        assert a == [a[0]] + a[1..] && b == [b[0]] + b[1..];
      }
    }
  }

  lemma LessAsymmetric(a: string, b: string)
    requires Less(a, b)
    ensures !Less(b, a)
  {
    if Less(b, a) {
      LessTransitive(a, b, a);
      LessIrreflexive(a);
    }
  }

  ghost predicate StrictlyAscending(s: seq<string>) {
    forall i, j :: 0 <= i < j < |s| ==> Less(s[i], s[j])
  }

  /** The elements of s other than x, in order; `set(...) - {x}` before sorting. */
  function Without(s: seq<string>, x: string): (r: seq<string>)
    ensures forall y :: y in r <==> y in s && y != x
  {
    if s == [] then []
    else
      assert s == [s[0]] + s[1..];
      (if s[0] == x then [] else [s[0]]) + Without(s[1..], x)
  }

  /** Adds x to an ascending list without duplicates, keeping it so. */
  function InsertUnique(x: string, s: seq<string>): (r: seq<string>)
    ensures forall y :: y in r <==> y == x || y in s
  {
    if s == [] then [x]
    else if x == s[0] then s
    else if Less(x, s[0]) then [x] + s
    else
      assert s == [s[0]] + s[1..];
      [s[0]] + InsertUnique(x, s[1..])
  }

  lemma {:induction false} InsertUniqueAscending(x: string, s: seq<string>)
    requires StrictlyAscending(s)
    ensures StrictlyAscending(InsertUnique(x, s))
  {
    if s == [] || x == s[0] {
    } else if Less(x, s[0]) {
      var r := [x] + s;
      forall i, j | 0 <= i < j < |r| ensures Less(r[i], r[j]) {
        if i == 0 && j > 1 {
          LessTransitive(x, s[0], s[j - 1]);
        }
      }
    } else {
      var tail := s[1..];
      assert StrictlyAscending(tail) by {
        forall i, j | 0 <= i < j < |tail| ensures Less(tail[i], tail[j]) {
          assert tail[i] == s[i + 1] && tail[j] == s[j + 1];
        }
      }
      InsertUniqueAscending(x, tail);
      var rest := InsertUnique(x, tail);
      LessTotal(x, s[0]);
      forall y | y in rest ensures Less(s[0], y) {
        if y != x {
          var k :| 0 <= k < |tail| && tail[k] == y;
          assert s[k + 1] == y;
        }
      }
      var r := [s[0]] + rest;
      assert InsertUnique(x, s) == r;
      forall i, j | 0 <= i < j < |r| ensures Less(r[i], r[j]) {
        if i == 0 {
          assert r[j] == rest[j - 1];
          assert r[j] in rest;
        } else {
          assert r[i] == rest[i - 1] && r[j] == rest[j - 1];
        }
      }
    }
  }

  /** `sorted(set(s))`: the distinct elements of s in ascending order. */
  function SortedUnique(s: seq<string>): (r: seq<string>)
    ensures forall y :: y in r <==> y in s
    ensures StrictlyAscending(r)
  {
    if s == [] then []
    else
      assert s == [s[0]] + s[1..];
      var rest := SortedUnique(s[1..]);
      InsertUniqueAscending(s[0], rest);
      InsertUnique(s[0], rest)
  }

  /**
   * Two strictly ascending lists with the same elements are equal: the
   * sorted list of a set does not depend on how it was computed.
   */
  lemma {:induction false} AscendingUnique(a: seq<string>, b: seq<string>)
    requires StrictlyAscending(a) && StrictlyAscending(b)
    requires forall y :: y in a <==> y in b
    ensures a == b
    decreases |a|
  {
    if a != [] {
      assert a[0] in b;
    }
    if b != [] {
      assert b[0] in a;
    }
    if a != [] && b != [] {
      AscendingHead(a, b);
      AscendingHead(b, a);
      assert a[0] == b[0] by {
        LessTotal(a[0], b[0]);
        if Less(a[0], b[0]) {
          LessAsymmetric(a[0], b[0]);
        }
      }
      var ta, tb := a[1..], b[1..];
      assert StrictlyAscending(ta) by {
        forall i, j | 0 <= i < j < |ta| ensures Less(ta[i], ta[j]) {
          assert ta[i] == a[i + 1] && ta[j] == a[j + 1];
        }
      }
      assert StrictlyAscending(tb) by {
        forall i, j | 0 <= i < j < |tb| ensures Less(tb[i], tb[j]) {
          assert tb[i] == b[i + 1] && tb[j] == b[j + 1];
        }
      }
      forall y ensures y in ta <==> y in tb {
        AscendingTail(a, y);
        AscendingTail(b, y);
      }
      AscendingUnique(ta, tb);
      assert a == [a[0]] + ta && b == [b[0]] + tb;
    }
  }

  /** The head of an ascending list is not above any element of a list with the same elements. */
  lemma AscendingHead(a: seq<string>, b: seq<string>)
    requires a != [] && b != [] && StrictlyAscending(a)
    requires forall y :: y in a <==> y in b
    ensures a[0] == b[0] || Less(a[0], b[0])
  {
    assert b[0] in b;
    var k :| 0 <= k < |a| && a[k] == b[0];
    if k > 0 {
      assert Less(a[0], a[k]);
    }
  }

  /** In an ascending list the tail holds exactly the elements other than the head. */
  lemma AscendingTail(a: seq<string>, y: string)
    requires a != [] && StrictlyAscending(a)
    ensures y in a[1..] <==> y in a && y != a[0]
  {
    if y in a[1..] {
      var k :| 0 <= k < |a[1..]| && a[1..][k] == y;
      assert Less(a[0], a[k + 1]);
      if y == a[0] {
        LessIrreflexive(y);
      }
    }
    if y in a && y != a[0] {
      var k :| 0 <= k < |a| && a[k] == y;
      assert a[1..][k - 1] == y;
    }
  }
}
