/** Python's `sorted(set(...))`: insertion into a strictly increasing sequence, and the fact that
    such a sequence is determined by the set of its elements. */
module Sorting {

  ghost predicate StrictTotal<T(!new)>(lt: (T, T) -> bool) {
    && (forall x :: !lt(x, x))
    && (forall x, y, z :: lt(x, y) && lt(y, z) ==> lt(x, z))
    && (forall x, y :: x == y || lt(x, y) || lt(y, x))
  }

  ghost predicate Increasing<T>(lt: (T, T) -> bool, s: seq<T>) {
    forall i, j :: 0 <= i < j < |s| ==> lt(s[i], s[j])
  }

  function Insert<T(==)>(lt: (T, T) -> bool, x: T, s: seq<T>): seq<T> {
    if s == [] then [x]
    else if x == s[0] then s
    else if lt(x, s[0]) then [x] + s
    else [s[0]] + Insert(lt, x, s[1..])
  }

  function SortUnique<T(==)>(lt: (T, T) -> bool, s: seq<T>): seq<T> {
    if s == [] then [] else Insert(lt, s[0], SortUnique(lt, s[1..]))
  }

  lemma {:induction false} InsertKeepsOrder<T(!new)>(lt: (T, T) -> bool, x: T, s: seq<T>)
    requires StrictTotal(lt) && Increasing(lt, s)
    ensures Increasing(lt, Insert(lt, x, s))
    ensures forall y :: y in Insert(lt, x, s) <==> y == x || y in s
  {
    if s == [] || x == s[0] {
    } else if lt(x, s[0]) {
      var r := [x] + s;
      forall i, j | 0 <= i < j < |r| ensures lt(r[i], r[j]) {
        if i == 0 && j > 1 { assert lt(s[0], s[j - 1]); }
      }
    } else {
      InsertKeepsOrder(lt, x, s[1..]);
      var t := Insert(lt, x, s[1..]);
      var r := [s[0]] + t;
      forall i, j | 0 <= i < j < |r| ensures lt(r[i], r[j]) {
        if i == 0 {
          var y := t[j - 1];
          assert y in t;
          if y != x {
            var k :| 0 <= k < |s[1..]| && s[1..][k] == y;
            assert lt(s[0], s[k + 1]);
          }
        }
      }
      assert s == [s[0]] + s[1..];
    }
  }

  lemma {:induction false} SortUniqueOk<T(!new)>(lt: (T, T) -> bool, s: seq<T>)
    requires StrictTotal(lt)
    ensures Increasing(lt, SortUnique(lt, s))
    ensures forall y :: y in SortUnique(lt, s) <==> y in s
  {
    if s != [] {
      SortUniqueOk(lt, s[1..]);
      InsertKeepsOrder(lt, s[0], SortUnique(lt, s[1..]));
      assert s == [s[0]] + s[1..];
    }
  }

  lemma SplitLast<T>(s: seq<T>)
    requires s != []
    ensures s[..|s| - 1] + [s[|s| - 1]] == s
  {}

  lemma SplitAt<T>(s: seq<T>, k: nat)
    requires k <= |s|
    ensures s[..k] + s[k..] == s
  {}

  lemma NonEmptyHasElement<T>(s: seq<T>)
    ensures s == [] || exists y :: y in s
  {
    if s != [] { assert s[0] in s; }
  }

  /** Two increasing sequences over the same elements are the same sequence. */
  lemma {:induction false} IncreasingUnique<T(!new)>(lt: (T, T) -> bool, a: seq<T>, b: seq<T>)
    requires StrictTotal(lt) && Increasing(lt, a) && Increasing(lt, b)
    requires forall y :: y in a <==> y in b
    ensures a == b
  {
    if a == [] {
      NonEmptyHasElement(b);
    } else {
      assert a[0] in b && b != [] && b[0] in a;
      var i :| 0 <= i < |b| && b[i] == a[0];
      var j :| 0 <= j < |a| && a[j] == b[0];
      assert lt(b[0], b[i]) || i == 0;
      assert lt(a[0], a[j]) || j == 0;
      forall y ensures y in a[1..] <==> y in b[1..] {
        if y in a[1..] { var k :| 0 <= k < |a[1..]| && a[1..][k] == y; assert lt(a[0], a[k + 1]); assert y in b; }
        if y in b[1..] { var k :| 0 <= k < |b[1..]| && b[1..][k] == y; assert lt(b[0], b[k + 1]); assert y in a; }
      }
      IncreasingUnique(lt, a[1..], b[1..]);
      assert a == [a[0]] + a[1..] && b == [b[0]] + b[1..];
    }
  }

  /** Sorting an already increasing sequence changes nothing. */
  lemma SortUniqueFixed<T(!new)>(lt: (T, T) -> bool, s: seq<T>)
    requires StrictTotal(lt) && Increasing(lt, s)
    ensures SortUnique(lt, s) == s
  {
    SortUniqueOk(lt, s);
    IncreasingUnique(lt, SortUnique(lt, s), s);
  }

  ghost predicate Ascending<V>(key: V -> nat, s: seq<V>) {
    forall i, j :: 0 <= i < j < |s| ==> key(s[i]) < key(s[j])
  }

  /** Two ascending sequences with the same elements are equal. */
  lemma {:induction false} AscendingUnique<V(!new)>(key: V -> nat, a: seq<V>, b: seq<V>)
    requires Ascending(key, a) && Ascending(key, b) && forall x :: x in a <==> x in b
    ensures a == b
  {
    if a == [] || b == [] {
      NonEmptyHasElement(a);
      NonEmptyHasElement(b);
    } else {
      var (m, n) := (|a| - 1, |b| - 1);
      assert a[m] in b && b[n] in a;
      var i :| 0 <= i < |b| && b[i] == a[m];
      var j :| 0 <= j < |a| && a[j] == b[n];
      assert key(b[i]) < key(b[n]) || i == n;
      assert key(a[j]) < key(a[m]) || j == m;
      assert a[m] == b[n];
      AscendingFront(key, a);
      AscendingFront(key, b);
      forall x ensures x in a[..m] <==> x in b[..n] {
        assert x in a[..m] <==> x in a && x != a[m];
        assert x in b[..n] <==> x in b && x != b[n];
      }
      AscendingUnique(key, a[..m], b[..n]);
      assert a == a[..m] + [a[m]] && b == b[..n] + [b[n]];
    }
  }

  lemma AscendingFront<V(!new)>(key: V -> nat, a: seq<V>)
    requires Ascending(key, a) && a != []
    ensures Ascending(key, a[..|a| - 1])
    ensures forall x :: x in a[..|a| - 1] <==> x in a && x != a[|a| - 1]
  {
    var m := |a| - 1;
    forall x ensures x in a[..m] <==> x in a && x != a[m] {
      if x in a[..m] { var i :| 0 <= i < m && a[..m][i] == x; assert key(a[i]) < key(a[m]); }
      if x in a && x != a[m] { var i :| 0 <= i < |a| && a[i] == x; assert a[..m][i] == x; }
    }
  }

  /** The elements of a set, in any order. */
  method ListOf<T(==)>(s: set<T>) returns (l: seq<T>)
    ensures forall x :: x in l <==> x in s
  {
    l := [];
    var todo := s;
    while todo != {}
      invariant todo <= s && forall x :: x in l <==> x in s && x !in todo
      decreases todo
    {
      var x :| x in todo;
      l, todo := l + [x], todo - {x};
    }
  }
}
