/** Orders and sorting. The dashboard sorts with `Array.prototype.sort`, which is
    stable: with a comparator (`localeCompare`) the order is a caller-supplied total
    preorder `le`; without one it is the code-unit order `CodeUnitLe`. */
module Ordering {

  /** Every two elements are comparable and comparison is transitive; distinct
      elements may compare equal (as under locale collation). */
  ghost predicate TotalPreorder<T(!new)>(le: (T, T) -> bool)
  {
    && (forall a, b :: le(a, b) || le(b, a))
    && (forall a, b, c :: le(a, b) && le(b, c) ==> le(a, c))
  }

  ghost predicate Antisymmetric<T(!new)>(le: (T, T) -> bool)
  {
    forall a, b :: le(a, b) && le(b, a) ==> a == b
  }

  predicate SortedBy<T>(s: seq<T>, le: (T, T) -> bool)
  {
    forall i, j :: 0 <= i < j < |s| ==> le(s[i], s[j])
  }

  predicate Distinct<T(==)>(s: seq<T>)
  {
    forall i, j :: 0 <= i < j < |s| ==> s[i] != s[j]
  }

  /** Inserts `x` before the first element it does not exceed, so that an element
      inserted later never overtakes an equal one already placed. */
  function Insert<T(!new)>(x: T, s: seq<T>, le: (T, T) -> bool): (r: seq<T>)
    ensures |r| == |s| + 1
    ensures multiset(r) == multiset(s) + multiset{x}
  {
    if s == [] then [x]
    else if le(x, s[0]) then [x] + s
    else
      assert s == [s[0]] + s[1..];
      [s[0]] + Insert(x, s[1..], le)
  }

  /** An element of a sequence other than `x` that turns up in `Insert(x, s, le)`
      was already an element of `s`. */
  lemma InsertFrom<T(!new)>(x: T, s: seq<T>, le: (T, T) -> bool, k: int)
    requires 0 <= k < |Insert(x, s, le)| && Insert(x, s, le)[k] != x
    ensures Insert(x, s, le)[k] in s
  {
    var r := Insert(x, s, le);
    assert r[k] in multiset(r);
    assert r[k] in multiset(s);
  }

  lemma {:induction false} InsertSorted<T(!new)>(x: T, s: seq<T>, le: (T, T) -> bool)
    requires TotalPreorder(le) && SortedBy(s, le)
    ensures SortedBy(Insert(x, s, le), le)
  {
    var r := Insert(x, s, le);
    if s == [] {
    } else if le(x, s[0]) {
      forall i, j | 0 <= i < j < |r| ensures le(r[i], r[j]) {
        if i == 0 && j > 1 {
          assert le(x, s[0]) && le(s[0], s[j - 1]);
        }
      }
    } else {
      var t := Insert(x, s[1..], le);
      assert r == [s[0]] + t;
      InsertSorted(x, s[1..], le);
      assert le(s[0], x);
      forall k | 0 <= k < |t| ensures le(s[0], t[k]) {
        if t[k] != x {
          InsertFrom(x, s[1..], le, k);
        }
      }
      forall i, j | 0 <= i < j < |r| ensures le(r[i], r[j]) {
        if i > 0 {
          assert r[i] == t[i - 1] && r[j] == t[j - 1];
        }
      }
    }
  }

  lemma {:induction false} InsertDistinct<T(!new)>(x: T, s: seq<T>, le: (T, T) -> bool)
    requires Distinct(s) && x !in s
    ensures Distinct(Insert(x, s, le))
  {
    var r := Insert(x, s, le);
    if s != [] && !le(x, s[0]) {
      var t := Insert(x, s[1..], le);
      assert r == [s[0]] + t;
      InsertDistinct(x, s[1..], le);
      forall k | 0 <= k < |t| ensures t[k] != s[0] {
        if t[k] != x {
          InsertFrom(x, s[1..], le, k);
        }
      }
      forall i, j | 0 <= i < j < |r| ensures r[i] != r[j] {
        if i > 0 {
          assert r[i] == t[i - 1] && r[j] == t[j - 1];
        }
      }
    }
  }

  /** Stable insertion sort: the result is a permutation of `s`. */
  function SortBy<T(!new)>(s: seq<T>, le: (T, T) -> bool): (r: seq<T>)
    ensures |r| == |s|
    ensures multiset(r) == multiset(s)
  {
    if s == [] then []
    else
      assert s == [s[0]] + s[1..];
      Insert(s[0], SortBy(s[1..], le), le)
  }

  /** Under a total preorder the sort's result is sorted. */
  lemma {:induction false} SortBySorted<T(!new)>(s: seq<T>, le: (T, T) -> bool)
    requires TotalPreorder(le)
    ensures SortedBy(SortBy(s, le), le)
  {
    if s != [] {
      SortBySorted(s[1..], le);
      InsertSorted(s[0], SortBy(s[1..], le), le);
    }
  }

  /** Sorting a sequence without duplicates leaves none. */
  lemma {:induction false} SortByDistinct<T(!new)>(s: seq<T>, le: (T, T) -> bool)
    requires Distinct(s)
    ensures Distinct(SortBy(s, le))
  {
    if s != [] {
      var t := SortBy(s[1..], le);
      SortByDistinct(s[1..], le);
      assert s[0] !in s[1..];
      assert s[0] !in multiset(t);
      InsertDistinct(s[0], t, le);
    }
  }

  /** Compares records by a string key, as `(a, b) => a.key.localeCompare(b.key)` does. */
  function On<T>(le: (string, string) -> bool, key: T -> string): (T, T) -> bool
  {
    (a: T, b: T) => le(key(a), key(b))
  }

  lemma OnTotalPreorder<T(!new)>(le: (string, string) -> bool, key: T -> string)
    requires TotalPreorder(le)
    ensures TotalPreorder(On(le, key))
  {
    var o := On(le, key);
    forall a: T, b: T ensures o(a, b) || o(b, a) {
      assert le(key(a), key(b)) || le(key(b), key(a));
    }
    forall a: T, b: T, c: T | o(a, b) && o(b, c) ensures o(a, c) {
      assert le(key(a), key(b)) && le(key(b), key(c));
    }
  }

  /** The order of the default `Array.prototype.sort`: lexicographic by character. */
  predicate CodeUnitLe(a: string, b: string)
  {
    if a == [] then true
    else if b == [] then false
    else if a[0] != b[0] then a[0] < b[0]
    else CodeUnitLe(a[1..], b[1..])
  }

  lemma {:induction false} CodeUnitTotal(a: string, b: string)
    ensures CodeUnitLe(a, b) || CodeUnitLe(b, a)
  {
    if a != [] && b != [] && a[0] == b[0] {
      CodeUnitTotal(a[1..], b[1..]);
    }
  }

  lemma {:induction false} CodeUnitTransitive(a: string, b: string, c: string)
    requires CodeUnitLe(a, b) && CodeUnitLe(b, c)
    ensures CodeUnitLe(a, c)
  {
    if a != [] && b != [] && c != [] && a[0] == b[0] && b[0] == c[0] {
      CodeUnitTransitive(a[1..], b[1..], c[1..]);
    }
  }

  lemma {:induction false} CodeUnitAntisymmetric(a: string, b: string)
    requires CodeUnitLe(a, b) && CodeUnitLe(b, a)
    ensures a == b
  {
    if a != [] && b != [] {
      CodeUnitAntisymmetric(a[1..], b[1..]);
      assert a == [a[0]] + a[1..] && b == [b[0]] + b[1..];
    }
  }

  /** The code-unit order is a total order. */
  lemma CodeUnitTotalOrder()
    ensures TotalPreorder(CodeUnitLe)
    ensures Antisymmetric(CodeUnitLe)
  {
    forall a, b ensures CodeUnitLe(a, b) || CodeUnitLe(b, a) {
      CodeUnitTotal(a, b);
    }
    forall a, b, c | CodeUnitLe(a, b) && CodeUnitLe(b, c) ensures CodeUnitLe(a, c) {
      CodeUnitTransitive(a, b, c);
    }
    forall a, b | CodeUnitLe(a, b) && CodeUnitLe(b, a) ensures a == b {
      CodeUnitAntisymmetric(a, b);
    }
  }

  /** A non-empty finite set has a least element under a total preorder. */
  lemma {:induction false} LeastExists<T(!new)>(s: set<T>, le: (T, T) -> bool)
    requires TotalPreorder(le) && s != {}
    ensures exists m :: m in s && IsLeast(m, s, le)
    decreases |s|
  {
    var x :| x in s;
    var rest := s - {x};
    if rest == {} {
      assert s == {x};
      assert le(x, x);
      assert IsLeast(x, s, le);
    } else {
      LeastExists(rest, le);
      var m :| m in rest && IsLeast(m, rest, le);
      assert s == rest + {x};
      LeastInsert(rest, x, m, le);
    }
  }

  ghost predicate IsLeast<T>(m: T, s: set<T>, le: (T, T) -> bool)
  {
    forall y :: y in s ==> le(m, y)
  }

  lemma LeastInsert<T(!new)>(s: set<T>, x: T, m: T, le: (T, T) -> bool)
    requires TotalPreorder(le) && m in s && IsLeast(m, s, le)
    ensures exists n :: n in s + {x} && IsLeast(n, s + {x}, le)
  {
    if le(m, x) {
      assert IsLeast(m, s + {x}, le);
    } else {
      assert le(x, m) && le(x, x);
      forall y | y in s + {x} ensures le(x, y) {
        if y in s {
          assert le(x, m) && le(m, y);
        }
      }
      assert IsLeast(x, s + {x}, le);
    }
  }

  /** The elements of `s` in ascending code-unit order, each once: what
      `Array.from(set).sort()` yields, whatever order the set was filled in. */
  ghost function SortedElements(s: set<string>): (r: seq<string>)
    ensures SortedBy(r, CodeUnitLe) && Distinct(r)
    ensures forall x :: x in r <==> x in s
    decreases |s|
  {
    if s == {} then []
    else
      CodeUnitTotalOrder();
      LeastExists(s, CodeUnitLe);
      var m :| m in s && IsLeast(m, s, CodeUnitLe);
      var t := SortedElements(s - {m});
      LeastFirst(m, t);
      [m] + t
  }

  lemma LeastFirst(m: string, t: seq<string>)
    requires SortedBy(t, CodeUnitLe) && Distinct(t)
    requires forall y :: y in t ==> y != m && CodeUnitLe(m, y)
    ensures SortedBy([m] + t, CodeUnitLe) && Distinct([m] + t)
  {
    var r := [m] + t;
    forall i, j | 0 <= i < j < |r| ensures CodeUnitLe(r[i], r[j]) && r[i] != r[j] {
      if i == 0 {
        assert r[j] == t[j - 1];
        assert r[j] in t;
      } else {
        assert r[i] == t[i - 1] && r[j] == t[j - 1];
      }
    }
  }

  /** Two sorted sequences without duplicates that hold the same strings are equal. */
  lemma {:induction false} SortedUnique(a: seq<string>, b: seq<string>)
    requires SortedBy(a, CodeUnitLe) && Distinct(a)
    requires SortedBy(b, CodeUnitLe) && Distinct(b)
    requires forall x :: x in a <==> x in b
    ensures a == b
    decreases |a| + |b|, if a == [] then 1 else 0
  {
    if a != [] {
      assert a[0] in a;
      assert b != [] && b[0] in b;
      var j :| 0 <= j < |b| && b[j] == a[0];
      var i :| 0 <= i < |a| && a[i] == b[0];
      CodeUnitTotal(a[0], a[0]);
      assert CodeUnitLe(a[0], b[0]) by {
        if i > 0 {
          assert CodeUnitLe(a[0], a[i]);
        }
      }
      assert CodeUnitLe(b[0], a[0]) by {
        if j > 0 {
          assert CodeUnitLe(b[0], b[j]);
        }
      }
      CodeUnitAntisymmetric(a[0], b[0]);
      forall x ensures x in a[1..] <==> x in b[1..] {
        if x in a[1..] {
          var k :| 1 <= k < |a| && a[k] == x;
          assert x in b && x != b[0];
        }
        if x in b[1..] {
          var k :| 1 <= k < |b| && b[k] == x;
          assert x in a && x != a[0];
        }
      }
      SortedUnique(a[1..], b[1..]);
      assert a == [a[0]] + a[1..] && b == [b[0]] + b[1..];
    } else if b != [] {
      SortedUnique(b, a);
    }
  }
}
