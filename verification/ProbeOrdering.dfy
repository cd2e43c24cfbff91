/**
  Python's comparison of strings and of tuples of strings, and sorted(set(...)).
*/
module ProbeOrdering {

  // a < b for strings, compared code point by code point.
  predicate StringLess(a: string, b: string) {
    if b == [] then false
    else if a == [] then true
    else a[0] < b[0] || (a[0] == b[0] && StringLess(a[1..], b[1..]))
  }

  // a < b for tuples of strings.
  predicate TupleLess(a: seq<string>, b: seq<string>) {
    if b == [] then false
    else if a == [] then true
    else StringLess(a[0], b[0]) || (a[0] == b[0] && TupleLess(a[1..], b[1..]))
  }

  ghost predicate StrictOrder<T(!new)>(less: (T, T) -> bool) {
    && (forall x, y :: less(x, y) || less(y, x) || x == y)
    && (forall x, y :: less(x, y) ==> !less(y, x) && x != y)
  }

  lemma {:induction false} StringTotal(a: string, b: string)
    ensures StringLess(a, b) || StringLess(b, a) || a == b
    ensures StringLess(a, b) ==> !StringLess(b, a) && a != b
  {
    if a != [] && b != [] {
      StringTotal(a[1..], b[1..]);
      assert a == [a[0]] + a[1..] && b == [b[0]] + b[1..];
    }
  }

  lemma {:induction false} TupleTotal(a: seq<string>, b: seq<string>)
    ensures TupleLess(a, b) || TupleLess(b, a) || a == b
    ensures TupleLess(a, b) ==> !TupleLess(b, a) && a != b
  {
    if a != [] && b != [] {
      StringTotal(a[0], b[0]);
      TupleTotal(a[1..], b[1..]);
      assert a == [a[0]] + a[1..] && b == [b[0]] + b[1..];
    }
  }

  lemma {:induction false} BothAreOrders()
    ensures StrictOrder(StringLess) && StrictOrder(TupleLess)
  {
    forall a, b ensures StringLess(a, b) || StringLess(b, a) || a == b
                ensures StringLess(a, b) ==> !StringLess(b, a) && a != b {
      StringTotal(a, b);
    }
    forall a, b ensures TupleLess(a, b) || TupleLess(b, a) || a == b
                ensures TupleLess(a, b) ==> !TupleLess(b, a) && a != b {
      TupleTotal(a, b);
    }
  }

  predicate Increasing<T>(less: (T, T) -> bool, xs: seq<T>) {
    forall k :: 0 < k < |xs| ==> less(xs[k - 1], xs[k])
  }

  function Insert<T(==)>(less: (T, T) -> bool, x: T, xs: seq<T>): seq<T> {
    if xs == [] then [x]
    else if x == xs[0] then xs
    else if less(x, xs[0]) then [x] + xs
    else [xs[0]] + Insert(less, x, xs[1..])
  }

  // sorted(set(xs))
  function SortedSet<T(==)>(less: (T, T) -> bool, xs: seq<T>): seq<T> {
    if xs == [] then [] else Insert(less, xs[0], SortedSet(less, xs[1..]))
  }

  lemma {:induction false} InsertIncreases<T(!new)>(less: (T, T) -> bool, x: T, xs: seq<T>)
    requires StrictOrder(less) && Increasing(less, xs)
    ensures Increasing(less, Insert(less, x, xs))
    ensures Insert(less, x, xs) != []
    ensures Insert(less, x, xs)[0] == x || (xs != [] && Insert(less, x, xs)[0] == xs[0])
    ensures forall y :: y in Insert(less, x, xs) <==> y == x || y in xs
  {
    if xs != [] && x != xs[0] && !less(x, xs[0]) {
      var rest := xs[1..];
      assert xs == [xs[0]] + rest;
      InsertIncreases(less, x, rest);
      var r := Insert(less, x, rest);
      assert less(xs[0], x);
      forall k | 0 < k < |r| + 1 ensures less(([xs[0]] + r)[k - 1], ([xs[0]] + r)[k]) {
        if k == 1 {
          assert rest != [] ==> rest[0] == xs[1];
        } else {
          assert ([xs[0]] + r)[k - 1] == r[k - 2] && ([xs[0]] + r)[k] == r[k - 1];
        }
      }
    }
  }

  lemma {:induction false} SortedSetIncreases<T(!new)>(less: (T, T) -> bool, xs: seq<T>)
    requires StrictOrder(less)
    ensures Increasing(less, SortedSet(less, xs))
    ensures forall y :: y in SortedSet(less, xs) <==> y in xs
  {
    if xs != [] {
      SortedSetIncreases(less, xs[1..]);
      InsertIncreases(less, xs[0], SortedSet(less, xs[1..]));
      assert xs == [xs[0]] + xs[1..];
    }
  }

  /** xs == sorted(set(xs)) holds exactly for the strictly increasing lists. */
  lemma {:induction false} SortedSetFixpoint<T(!new)>(less: (T, T) -> bool, xs: seq<T>)
    requires StrictOrder(less)
    ensures SortedSet(less, xs) == xs <==> Increasing(less, xs)
  {
    SortedSetIncreases(less, xs);
    if Increasing(less, xs) && xs != [] {
      forall k | 0 < k < |xs[1..]| ensures less(xs[1..][k - 1], xs[1..][k]) {
        assert less(xs[k], xs[k + 1]);
      }
      SortedSetFixpoint(less, xs[1..]);
      assert |xs| > 1 ==> less(xs[0], xs[1]);
    }
  }

  lemma {:induction false} StringTransitive(a: string, b: string, c: string)
    requires StringLess(a, b) && StringLess(b, c)
    ensures StringLess(a, c)
  {
    if a != [] && a[0] == b[0] == c[0] {
      StringTransitive(a[1..], b[1..], c[1..]);
    }
  }

  /** A strictly increasing list of strings has no duplicates. */
  lemma {:induction false} IncreasingStrings(xs: seq<string>, j: nat, k: nat)
    requires Increasing(StringLess, xs) && j < k < |xs|
    ensures StringLess(xs[j], xs[k]) && xs[j] != xs[k]
    decreases k - j
  {
    if k > j + 1 {
      IncreasingStrings(xs, j, k - 1);
      StringTransitive(xs[j], xs[k - 1], xs[k]);
    }
    StringTotal(xs[j], xs[k]);
  }
}
