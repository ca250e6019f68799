/** Strict weak orders and sorting, as Go's sort package asks of Less and promises in return. */
module Sorting {

  ghost predicate StrictWeakOrder<T(!new)>(less: (T, T) -> bool) {
    && (forall a :: !less(a, a))
    && (forall a, b, c :: less(a, b) && less(b, c) ==> less(a, c))
    && (forall a, b, c :: Tied(less, a, b) && Tied(less, b, c) ==> Tied(less, a, c))
  }

  /** Neither comes before the other. */
  ghost predicate Tied<T>(less: (T, T) -> bool, a: T, b: T) { !less(a, b) && !less(b, a) }

  ghost predicate SortedBy<T>(s: seq<T>, less: (T, T) -> bool) {
    forall i, j :: 0 <= i < j < |s| ==> !less(s[j], s[i])
  }

  /** What is not before b, and b not before c, is not before c. */
  lemma NotLessTransitive<T(!new)>(less: (T, T) -> bool, a: T, b: T, c: T)
    requires StrictWeakOrder(less) && !less(a, b) && !less(b, c)
    ensures !less(a, c)
  {
    if !less(b, a) && !less(c, b) {
      assert Tied(less, a, b) && Tied(less, b, c);
      assert Tied(less, a, c);
    }
  }

  lemma NotBothLess<T(!new)>(less: (T, T) -> bool, a: T, b: T)
    requires StrictWeakOrder(less) && less(a, b)
    ensures !less(b, a)
  {
  }

  /** Checking neighbours is enough: this is where transitivity of ties is needed. */
  lemma {:induction false} NeighboursSorted<T(!new)>(s: seq<T>, less: (T, T) -> bool)
    requires StrictWeakOrder(less)
    requires forall i :: 0 < i < |s| ==> !less(s[i], s[i - 1])
    ensures SortedBy(s, less)
  {
    if |s| > 1 {
      var n := |s| - 1;
      NeighboursSorted(s[..n], less);
      forall i | 0 <= i < n ensures !less(s[n], s[i]) {
        if i < n - 1 {
          assert !less(s[..n][n - 1], s[..n][i]);
          NotLessTransitive(less, s[n], s[n - 1], s[i]);
        }
      }
    }
  }

  lemma InsertedSorted<T>(s: seq<T>, x: T, i: nat, less: (T, T) -> bool)
    requires SortedBy(s, less) && i <= |s|
    requires forall j :: 0 <= j < i ==> !less(x, s[j])
    requires forall j :: i <= j < |s| ==> !less(s[j], x)
    ensures SortedBy(s[..i] + [x] + s[i..], less)
  {
    var r := s[..i] + [x] + s[i..];
    forall a, b | 0 <= a < b < |r| ensures !less(r[b], r[a]) {
      assert r[a] == if a < i then s[a] else if a == i then x else s[a - 1];
      assert r[b] == if b < i then s[b] else if b == i then x else s[b - 1];
    }
  }

  method Insert<T(!new, ==)>(s: seq<T>, x: T, less: (T, T) -> bool) returns (r: seq<T>)
    requires StrictWeakOrder(less) && SortedBy(s, less)
    ensures SortedBy(r, less) && multiset(r) == multiset(s) + multiset{x}
  {
    var i := |s|;
    while i > 0 && less(x, s[i - 1])
      invariant 0 <= i <= |s|
      invariant forall j :: i <= j < |s| ==> !less(s[j], x)
    {
      i := i - 1;
      NotBothLess(less, x, s[i]);
    }
    forall j | 0 <= j < i ensures !less(x, s[j]) {
      if j < i - 1 { NotLessTransitive(less, x, s[i - 1], s[j]); }
    }
    InsertedSorted(s, x, i, less);
    assert s == s[..i] + s[i..];
    r := s[..i] + [x] + s[i..];
  }

  method Sort<T(!new, ==)>(s: seq<T>, less: (T, T) -> bool) returns (r: seq<T>)
    requires StrictWeakOrder(less)
    ensures SortedBy(r, less) && multiset(r) == multiset(s)
  {
    r := [];
    for i := 0 to |s|
      invariant SortedBy(r, less) && multiset(r) == multiset(s[..i])
    {
      r := Insert(r, s[i], less);
      assert s[..i + 1] == s[..i] + [s[i]];
    }
    assert s[..|s|] == s;
  }

  // ---------- Orders from keys ----------

  function ByInt<T>(key: T -> int): (T, T) -> bool { (a: T, b: T) => key(a) < key(b) }

  function ByString<T>(key: T -> string): (T, T) -> bool { (a: T, b: T) => StringLess(key(a), key(b)) }

  lemma ByIntIsOrder<T(!new)>(key: T -> int)
    ensures StrictWeakOrder(ByInt(key))
  {
  }

  /** Decide by the first order; what it ties, by the second. */
  function Then<T>(first: (T, T) -> bool, second: (T, T) -> bool): (T, T) -> bool {
    (a: T, b: T) => first(a, b) || (!first(b, a) && second(a, b))
  }

  lemma ThenTransitive<T(!new)>(first: (T, T) -> bool, second: (T, T) -> bool, a: T, b: T, c: T)
    requires StrictWeakOrder(first) && StrictWeakOrder(second)
    requires Then(first, second)(a, b) && Then(first, second)(b, c)
    ensures Then(first, second)(a, c)
  {
    if !first(a, b) && !first(b, c) {
      assert Tied(first, a, b) && Tied(first, b, c);
      assert Tied(first, a, c);
    } else if !first(a, b) {
      if !first(a, c) { NotLessTransitive(first, b, a, c); }
    } else if !first(b, c) {
      if !first(a, c) { NotLessTransitive(first, a, c, b); }
    }
  }

  lemma ThenIsOrder<T(!new)>(first: (T, T) -> bool, second: (T, T) -> bool)
    requires StrictWeakOrder(first) && StrictWeakOrder(second)
    ensures StrictWeakOrder(Then(first, second))
  {
    var both := Then(first, second);
    forall a, b, c | both(a, b) && both(b, c) ensures both(a, c) {
      ThenTransitive(first, second, a, b, c);
    }
    forall a, b, c | Tied(both, a, b) && Tied(both, b, c) ensures Tied(both, a, c) {
      assert Tied(first, a, b) && Tied(first, b, c);
      assert Tied(first, a, c);
      assert Tied(second, a, b) && Tied(second, b, c);
      assert Tied(second, a, c);
    }
  }

  lemma SameOrder<T(!new)>(less: (T, T) -> bool, order: (T, T) -> bool)
    requires StrictWeakOrder(order)
    requires forall a, b :: less(a, b) == order(a, b)
    ensures StrictWeakOrder(less)
  {
    forall a, b, c | Tied(less, a, b) && Tied(less, b, c) ensures Tied(less, a, c) {
      assert Tied(order, a, b) && Tied(order, b, c);
      assert Tied(order, a, c);
    }
  }

  /** A strict weak order among the values that satisfy the condition. */
  ghost predicate StrictWeakOrderOn<T(!new)>(less: (T, T) -> bool, on: T -> bool) {
    && (forall a :: on(a) ==> !less(a, a))
    && (forall a, b, c :: on(a) && on(b) && on(c) && less(a, b) && less(b, c) ==> less(a, c))
    && (forall a, b, c :: on(a) && on(b) && on(c) && Tied(less, a, b) && Tied(less, b, c) ==> Tied(less, a, c))
  }

  lemma OrderOn<T(!new)>(less: (T, T) -> bool, order: (T, T) -> bool, on: T -> bool)
    requires StrictWeakOrder(order)
    requires forall a, b :: on(a) && on(b) ==> less(a, b) == order(a, b)
    ensures StrictWeakOrderOn(less, on)
  {
    forall a, b, c | on(a) && on(b) && on(c) && Tied(less, a, b) && Tied(less, b, c) ensures Tied(less, a, c) {
      assert Tied(order, a, b) && Tied(order, b, c);
      assert Tied(order, a, c);
    }
  }

  /** The order of Go strings. */
  predicate StringLess(a: string, b: string) {
    if b == [] then false
    else if a == [] then true
    else a[0] < b[0] || (a[0] == b[0] && StringLess(a[1..], b[1..]))
  }

  /** The strings agree up to i, and there a is less. */
  predicate LessAt(a: string, b: string, i: nat) {
    i < |a| && i < |b| && a[i] < b[i] && forall j :: 0 <= j < i ==> a[j] == b[j]
  }

  predicate Begins(a: string, b: string) {
    |a| < |b| && forall j :: 0 <= j < |a| ==> a[j] == b[j]
  }

  /** One string begins the other, or the first difference decides. */
  lemma {:induction false} StringLessIff(a: string, b: string)
    ensures StringLess(a, b) <==> Begins(a, b) || exists i: nat :: LessAt(a, b, i)
  {
    if a != [] && b != [] {
      StringLessIff(a[1..], b[1..]);
      if a[0] == b[0] {
        forall i: nat ensures LessAt(a[1..], b[1..], i) <==> LessAt(a, b, i + 1) { AtNext(a, b, i); }
        if i: nat :| LessAt(a, b, i) { assert LessAt(a[1..], b[1..], i - 1); }
        if i: nat :| LessAt(a[1..], b[1..], i) { assert LessAt(a, b, i + 1); }
        BeginsNext(a, b);
      } else if a[0] < b[0] {
        assert LessAt(a, b, 0);
      }
    }
  }

  lemma AtNext(a: string, b: string, i: nat)
    requires a != [] && b != [] && a[0] == b[0]
    ensures LessAt(a[1..], b[1..], i) <==> LessAt(a, b, i + 1)
  {
    if LessAt(a, b, i + 1) {
      forall j | 0 <= j < i ensures a[1..][j] == b[1..][j] { assert a[j + 1] == b[j + 1]; }
    }
  }

  lemma BeginsNext(a: string, b: string)
    requires a != [] && b != [] && a[0] == b[0]
    ensures Begins(a[1..], b[1..]) <==> Begins(a, b)
  {
    if Begins(a, b) {
      forall j | 0 <= j < |a| - 1 ensures a[1..][j] == b[1..][j] { assert a[j + 1] == b[j + 1]; }
    }
  }

  lemma {:induction false} StringLessTransitive(a: string, b: string, c: string)
    requires StringLess(a, b) && StringLess(b, c)
    ensures StringLess(a, c)
  {
    if a != [] && a[0] == b[0] && b[0] == c[0] {
      StringLessTransitive(a[1..], b[1..], c[1..]);
    }
  }

  lemma {:induction false} StringLessTotal(a: string, b: string)
    ensures !(StringLess(a, b) && StringLess(b, a))
    ensures StringLess(a, b) || StringLess(b, a) || a == b
    ensures !StringLess(a, a)
  {
    if a != [] {
      StringLessTotal(a[1..], a[1..]);
      if b != [] {
        StringLessTotal(a[1..], b[1..]);
        assert a == [a[0]] + a[1..] && b == [b[0]] + b[1..];
      }
    }
  }

  lemma ByStringIsOrder<T(!new)>(key: T -> string)
    ensures StrictWeakOrder(ByString(key))
  {
    var less := ByString(key);
    forall a: T ensures !less(a, a) { StringLessTotal(key(a), key(a)); }
    forall a: T, b: T, c: T | less(a, b) && less(b, c) ensures less(a, c) {
      StringLessTransitive(key(a), key(b), key(c));
    }
    forall a: T, b: T, c: T | Tied(less, a, b) && Tied(less, b, c) ensures Tied(less, a, c) {
      StringLessTotal(key(a), key(b));
      StringLessTotal(key(b), key(c));
    }
  }
}
