/** Sorting by a total order, as Go's sort package does it for us: the result is sorted, a
    permutation, and therefore the only such sequence. */
module Sorting {

  ghost predicate TotalPreorder<T(!new)>(le: (T, T) -> bool) {
    && (forall a, b :: le(a, b) || le(b, a))
    && (forall a, b, c :: le(a, b) && le(b, c) ==> le(a, c))
  }

  ghost predicate TotalOrder<T(!new)>(le: (T, T) -> bool) {
    && TotalPreorder(le)
    && (forall a, b :: le(a, b) && le(b, a) ==> a == b)
  }

  ghost predicate SortedBy<T>(le: (T, T) -> bool, xs: seq<T>) {
    forall i, j | 0 <= i < j < |xs| :: le(xs[i], xs[j])
  }

  function Insert<T>(le: (T, T) -> bool, x: T, xs: seq<T>): seq<T> {
    if xs == [] || le(x, xs[0]) then [x] + xs else [xs[0]] + Insert(le, x, xs[1..])
  }

  function Sort<T>(le: (T, T) -> bool, xs: seq<T>): seq<T> {
    if xs == [] then [] else Insert(le, xs[0], Sort(le, xs[1..]))
  }

  lemma {:induction false} InsertPermutes<T>(le: (T, T) -> bool, x: T, xs: seq<T>)
    ensures multiset(Insert(le, x, xs)) == multiset{x} + multiset(xs)
  {
    if xs != [] && !le(x, xs[0]) {
      InsertPermutes(le, x, xs[1..]);
      assert xs == [xs[0]] + xs[1..];
    }
  }

  lemma {:induction false} InsertMembers<T>(le: (T, T) -> bool, x: T, xs: seq<T>)
    ensures forall y | y in Insert(le, x, xs) :: y == x || y in xs
  {
    if xs != [] && !le(x, xs[0]) {
      InsertMembers(le, x, xs[1..]);
    }
  }

  lemma ConsSorted<T>(le: (T, T) -> bool, x: T, xs: seq<T>)
    requires SortedBy(le, xs) && forall y | y in xs :: le(x, y)
    ensures SortedBy(le, [x] + xs)
  {
  }

  lemma {:induction false} InsertSorts<T(!new)>(le: (T, T) -> bool, x: T, xs: seq<T>)
    requires TotalPreorder(le) && SortedBy(le, xs)
    ensures SortedBy(le, Insert(le, x, xs))
  {
    if xs == [] {
    } else if le(x, xs[0]) {
      assert forall y | y in xs :: le(xs[0], y) && le(x, y);
      ConsSorted(le, x, xs);
    } else {
      InsertSorts(le, x, xs[1..]);
      InsertMembers(le, x, xs[1..]);
      ConsSorted(le, xs[0], Insert(le, x, xs[1..]));
    }
  }

  lemma {:induction false} SortSorts<T(!new)>(le: (T, T) -> bool, xs: seq<T>)
    requires TotalPreorder(le)
    ensures SortedBy(le, Sort(le, xs))
    ensures multiset(Sort(le, xs)) == multiset(xs)
    ensures |Sort(le, xs)| == |xs|
  {
    if xs != [] {
      SortSorts(le, xs[1..]);
      InsertPermutes(le, xs[0], Sort(le, xs[1..]));
      InsertSorts(le, xs[0], Sort(le, xs[1..]));
      assert xs == [xs[0]] + xs[1..];
    }
    assert |multiset(Sort(le, xs))| == |multiset(xs)|;
  }

  lemma SortedHeadIsLeast<T(!new)>(le: (T, T) -> bool, xs: seq<T>, y: T)
    requires TotalOrder(le) && SortedBy(le, xs) && y in multiset(xs)
    ensures le(xs[0], y)
  {
    var i :| 0 <= i < |xs| && xs[i] == y;
  }

  lemma MultisetOfTail<T>(xs: seq<T>)
    requires xs != []
    ensures xs[0] in multiset(xs) && multiset(xs[1..]) == multiset(xs) - multiset{xs[0]}
  {
    assert xs == [xs[0]] + xs[1..];
  }

  lemma {:induction false} SortedIsUnique<T(!new)>(le: (T, T) -> bool, xs: seq<T>, ys: seq<T>)
    requires TotalOrder(le) && SortedBy(le, xs) && SortedBy(le, ys) && multiset(xs) == multiset(ys)
    ensures xs == ys
  {
    assert |multiset(xs)| == |multiset(ys)|;
    if xs != [] {
      SortedHeadIsLeast(le, xs, ys[0]);
      SortedHeadIsLeast(le, ys, xs[0]);
      MultisetOfTail(xs);
      MultisetOfTail(ys);
      SortedIsUnique(le, xs[1..], ys[1..]);
      assert xs == [xs[0]] + xs[1..] && ys == [ys[0]] + ys[1..];
    }
  }

  /** Sorting forgets exactly the order of its input. */
  lemma SortIsCanonical<T(!new)>(le: (T, T) -> bool, xs: seq<T>, ys: seq<T>)
    requires TotalOrder(le)
    ensures Sort(le, xs) == Sort(le, ys) <==> multiset(xs) == multiset(ys)
  {
    SortSorts(le, xs);
    SortSorts(le, ys);
    if multiset(xs) == multiset(ys) {
      SortedIsUnique(le, Sort(le, xs), Sort(le, ys));
    }
  }

  /** Go's order on strings: by their first differing unit, a prefix first. */
  predicate StringLe(a: string, b: string) {
    a == [] || (b != [] && (a[0] < b[0] || (a[0] == b[0] && StringLe(a[1..], b[1..]))))
  }

  lemma StringLeIsTotalOrder()
    ensures TotalOrder(StringLe)
  {
    forall a, b
      ensures StringLe(a, b) || StringLe(b, a)
      ensures StringLe(a, b) && StringLe(b, a) ==> a == b
    {
      StringLePair(a, b);
    }
    forall a, b, c | StringLe(a, b) && StringLe(b, c)
      ensures StringLe(a, c)
    {
      StringLeTransitive(a, b, c);
    }
  }

  lemma {:induction false} StringLePair(a: string, b: string)
    ensures StringLe(a, b) || StringLe(b, a)
    ensures StringLe(a, b) && StringLe(b, a) ==> a == b
  {
    if a != [] && b != [] {
      StringLePair(a[1..], b[1..]);
      assert a == [a[0]] + a[1..] && b == [b[0]] + b[1..];
    }
  }

  lemma {:induction false} StringLeTransitive(a: string, b: string, c: string)
    requires StringLe(a, b) && StringLe(b, c)
    ensures StringLe(a, c)
  {
    if a != [] {
      if a[0] == b[0] && b[0] == c[0] {
        StringLeTransitive(a[1..], b[1..], c[1..]);
      }
    }
  }

  lemma StringLeTail(c: char, a: string, b: string)
    ensures StringLe([c] + a, [c] + b) == StringLe(a, b)
  {
    assert ([c] + a)[1..] == a && ([c] + b)[1..] == b;
  }

  /** A common beginning does not matter. */
  lemma {:induction false} StringLeSkips(common: string, a: string, b: string)
    ensures StringLe(common + a, common + b) == StringLe(a, b)
  {
    if common == [] {
      assert common + a == a && common + b == b;
    } else {
      StringLeSkips(common[1..], a, b);
      ConsFirst(common, a);
      ConsFirst(common, b);
      StringLeTail(common[0], common[1..] + a, common[1..] + b);
    }
  }

  lemma ConsFirst(s: string, rest: string)
    requires s != []
    ensures s + rest == [s[0]] + (s[1..] + rest)
  {
  }

  /** The order looks at the first differing character, and puts a prefix before what it is a prefix of. */
  lemma StringLeIsLexicographic(common: string, c: char, x: string, d: char, y: string)
    requires c < d
    ensures StringLe(common + ([c] + x), common + ([d] + y)) && !StringLe(common + ([d] + y), common + ([c] + x))
    ensures StringLe(common, common + x)
  {
    StringLeSkips(common, [c] + x, [d] + y);
    StringLeSkips(common, [d] + y, [c] + x);
    StringLeSkips(common, [], x);
    assert common + [] == common;
  }

  predicate IntLe(a: int, b: int) {
    a <= b
  }
}
