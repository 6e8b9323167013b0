/** Sorting as Go's sort package promises it, and the order on strings. */
module Sorting {

  function Insert<T>(x: T, s: seq<T>, less: (T, T) -> bool): seq<T> {
    if s == [] then [x]
    else if less(s[0], x) then [s[0]] + Insert(x, s[1..], less)
    else [x] + s
  }

  /** sort.SliceStable: elements that compare equal keep their order. */
  function Sort<T>(s: seq<T>, less: (T, T) -> bool): seq<T> {
    if s == [] then [] else Insert(s[0], Sort(s[1..], less), less)
  }

  ghost predicate SortedBy<T>(s: seq<T>, less: (T, T) -> bool) {
    forall i, j :: 0 <= i < j < |s| ==> !less(s[j], s[i])
  }

  /** A strict weak order: what a comparison has to be for sorting to make sense. */
  ghost predicate Ordering<T(!new)>(less: (T, T) -> bool) {
    (forall x, y :: less(x, y) ==> !less(y, x)) &&
    (forall x, y, z :: less(x, y) && !less(z, y) ==> less(x, z))
  }

  lemma {:induction false} InsertPermutes<T>(x: T, s: seq<T>, less: (T, T) -> bool)
    ensures multiset(Insert(x, s, less)) == multiset{x} + multiset(s)
  {
    if s != [] && less(s[0], x) {
      InsertPermutes(x, s[1..], less);
      assert s == [s[0]] + s[1..];
    }
  }

  lemma {:induction false} SortPermutes<T>(s: seq<T>, less: (T, T) -> bool)
    ensures multiset(Sort(s, less)) == multiset(s)
  {
    if s == [] {
    } else {
      SortPermutes(s[1..], less);
      InsertPermutes(s[0], Sort(s[1..], less), less);
      assert s == [s[0]] + s[1..];
    }
  }

  lemma {:induction false} InsertSorts<T(!new)>(x: T, s: seq<T>, less: (T, T) -> bool)
    requires Ordering(less) && SortedBy(s, less)
    ensures SortedBy(Insert(x, s, less), less)
  {
    if s != [] && less(s[0], x) {
      var rest := Insert(x, s[1..], less);
      InsertSorts(x, s[1..], less);
      InsertPermutes(x, s[1..], less);
      forall y | y in rest
        ensures !less(y, s[0])
      {
        assert y in multiset(rest);
        if y in s[1..] {
          var i :| 1 <= i < |s| && s[i] == y;
        }
      }
      forall j | 0 <= j < |rest|
        ensures !less(rest[j], s[0])
      {
        assert rest[j] in rest;
      }
    } else if s != [] {
      forall j | 0 <= j < |s|
        ensures !less(s[j], x)
      {
        assert j == 0 || !less(s[j], s[0]);
      }
    }
  }

  lemma {:induction false} SortSorts<T(!new)>(s: seq<T>, less: (T, T) -> bool)
    requires Ordering(less)
    ensures SortedBy(Sort(s, less), less)
  {
    if s == [] {
    } else {
      SortSorts(s[1..], less);
      InsertSorts(s[0], Sort(s[1..], less), less);
    }
  }

  function ByRank<T>(rank: T -> int): (T, T) -> bool {
    (a, b) => rank(a) < rank(b)
  }

  /** The elements of one rank, in order. */
  function OfRank<T>(s: seq<T>, rank: T -> int, r: int): seq<T> {
    if s == [] then []
    else if rank(s[0]) == r then [s[0]] + OfRank(s[1..], rank, r)
    else OfRank(s[1..], rank, r)
  }

  lemma {:induction false} InsertIsStable<T>(x: T, s: seq<T>, rank: T -> int, r: int)
    ensures OfRank(Insert(x, s, ByRank(rank)), rank, r) == OfRank([x] + s, rank, r)
  {
    var less := ByRank(rank);
    assert ([x] + s)[1..] == s;
    if s != [] && less(s[0], x) {
      InsertIsStable(x, s[1..], rank, r);
      assert Insert(x, s, less)[1..] == Insert(x, s[1..], less);
      assert ([x] + s[1..])[1..] == s[1..];
    } else if s == [] {
      assert [x] + s == [x];
    }
  }

  /** Sorting by rank keeps the elements of each rank in their order. */
  lemma {:induction false} SortIsStable<T>(s: seq<T>, rank: T -> int, r: int)
    ensures OfRank(Sort(s, ByRank(rank)), rank, r) == OfRank(s, rank, r)
  {
    if s == [] {
    } else {
      var less := ByRank(rank);
      var rest := Sort(s[1..], less);
      SortIsStable(s[1..], rank, r);
      InsertIsStable(s[0], rest, rank, r);
      assert ([s[0]] + rest)[1..] == rest;
    }
  }

  /** Elements that are never tied. */
  ghost predicate Untied<T>(s: seq<T>, less: (T, T) -> bool) {
    forall x, y :: x in s && y in s && x != y ==> less(x, y) || less(y, x)
  }

  lemma SortedHead<T(!new)>(s: seq<T>, t: seq<T>, less: (T, T) -> bool)
    requires s != [] && multiset(s) == multiset(t)
    requires SortedBy(s, less) && SortedBy(t, less) && Untied(s, less)
    ensures t != [] && s[0] == t[0]
  {
    assert |multiset(s)| == |multiset(t)|;
    assert s[0] in multiset(t) && t[0] in multiset(s);
    var i :| 0 <= i < |t| && t[i] == s[0];
    var j :| 0 <= j < |s| && s[j] == t[0];
    assert i == 0 || !less(t[i], t[0]);
    assert j == 0 || !less(s[j], s[0]);
  }

  lemma BagOfTail<T>(s: seq<T>)
    requires s != []
    ensures multiset(s[1..]) == multiset(s) - multiset{s[0]}
  {
    assert s == [s[0]] + s[1..];
  }

  /** Without ties there is one sorted order, so any sorting algorithm gives it. */
  lemma {:induction false} SortedIsUnique<T(!new)>(s: seq<T>, t: seq<T>, less: (T, T) -> bool)
    requires multiset(s) == multiset(t)
    requires SortedBy(s, less) && SortedBy(t, less) && Untied(s, less)
    ensures s == t
  {
    if s == [] {
      assert |multiset(t)| == 0;
    } else {
      SortedHead(s, t, less);
      BagOfTail(s);
      BagOfTail(t);
      SortedIsUnique(s[1..], t[1..], less);
      assert s == [s[0]] + s[1..] && t == [t[0]] + t[1..];
    }
  }

  // ----- strings -----

  /** Go's `<` on strings. */
  predicate Before(a: string, b: string) {
    if b == "" then false
    else if a == "" then true
    else if a[0] != b[0] then a[0] < b[0]
    else Before(a[1..], b[1..])
  }

  lemma {:induction false} BeforeOrders(a: string, b: string, c: string)
    ensures Before(a, b) ==> !Before(b, a)
    ensures Before(a, b) && !Before(c, b) ==> Before(a, c)
    decreases |a| + |b| + |c|
  {
    if a == "" {
    } else {
      BeforeOrders(a[1..], if b != "" then b[1..] else b, if c != "" then c[1..] else c);
    }
  }

  lemma {:induction false} BeforeTotal(a: string, b: string)
    ensures a == b || Before(a, b) || Before(b, a)
    decreases |a|
  {
    if a != "" && b != "" && a[0] == b[0] {
      BeforeTotal(a[1..], b[1..]);
      assert a == [a[0]] + a[1..] && b == [b[0]] + b[1..];
    }
  }

  const BEFORE: (string, string) -> bool := (a, b) => Before(a, b)

  lemma BeforeIsOrdering()
    ensures Ordering(BEFORE)
  {
    forall a, b, c {
      BeforeOrders(a, b, c);
    }
  }

  /** sort.Strings: any two permutations sort to the same list. */
  lemma SortStringsIgnoresOrder(s: seq<string>, t: seq<string>)
    requires multiset(s) == multiset(t)
    ensures Sort(s, BEFORE) == Sort(t, BEFORE)
  {
    BeforeIsOrdering();
    SortPermutes(s, BEFORE);
    SortPermutes(t, BEFORE);
    SortSorts(s, BEFORE);
    SortSorts(t, BEFORE);
    forall a, b {
      BeforeTotal(a, b);
    }
    SortedIsUnique(Sort(s, BEFORE), Sort(t, BEFORE), BEFORE);
  }

  /** What that order is: a proper prefix comes first, else the first difference decides. */
  lemma {:induction false} BeforeIff(a: string, b: string)
    ensures Before(a, b) <==>
            exists i :: 0 <= i <= |a| && i < |b| && a[..i] == b[..i] && (i == |a| || a[i] < b[i])
    decreases |a|
  {
    if b == "" || a == "" {
      assert a == "" && b != "" ==> a[..0] == b[..0];
    } else if a[0] != b[0] {
      assert a[..0] == b[..0];
      forall i | 0 < i <= |a| && i < |b|
        ensures a[..i] != b[..i]
      {
        assert a[..i][0] != b[..i][0];
      }
    } else {
      BeforeIff(a[1..], b[1..]);
      forall i | 1 <= i <= |a| && i < |b|
        ensures a[..i] == b[..i] <==> a[1..][..i - 1] == b[1..][..i - 1]
      {
        assert a[..i] == [a[0]] + a[1..][..i - 1] && b[..i] == [b[0]] + b[1..][..i - 1];
      }
      if i :| 0 <= i <= |a| && i < |b| && a[..i] == b[..i] && (i == |a| || a[i] < b[i]) {
        assert i > 0;
        assert a[1..][..i - 1] == b[1..][..i - 1];
      }
      if j :| 0 <= j <= |a[1..]| && j < |b[1..]| && a[1..][..j] == b[1..][..j] &&
              (j == |a[1..]| || a[1..][j] < b[1..][j]) {
        assert a[..j + 1] == b[..j + 1];
      }
    }
  }
}
