/** sort.SliceStable as a stable insertion sort, and why a strict order leaves it no choice. */
module Sorting {

  /** `less` is a strict weak order, which is what Go's sort asks of its callers. */
  ghost predicate WeakOrder<T(!new)>(less: (T, T) -> bool) {
    && (forall x, y :: less(x, y) ==> !less(y, x))
    && (forall x, y, z :: !less(y, x) && !less(z, y) ==> !less(z, x))
  }

  ghost predicate Sorted<T>(less: (T, T) -> bool, s: seq<T>) {
    forall i, j :: 0 <= i < j < |s| ==> !less(s[j], s[i])
  }

  /** No two elements of `s` are tied unless they are equal. */
  ghost predicate Strict<T>(less: (T, T) -> bool, s: seq<T>) {
    forall x, y :: x in s && y in s && x != y ==> less(x, y) || less(y, x)
  }

  function Insert<T>(less: (T, T) -> bool, s: seq<T>, x: T): seq<T> {
    if s == [] || !less(x, s[|s|-1]) then s + [x]
    else Insert(less, s[..|s|-1], x) + [s[|s|-1]]
  }

  function Sort<T>(less: (T, T) -> bool, s: seq<T>): seq<T> {
    if s == [] then [] else Insert(less, Sort(less, s[..|s|-1]), s[|s|-1])
  }

  lemma {:induction false} InsertSorted<T(!new)>(less: (T, T) -> bool, s: seq<T>, x: T)
    requires WeakOrder(less) && Sorted(less, s)
    ensures Sorted(less, Insert(less, s, x))
    ensures multiset(Insert(less, s, x)) == multiset(s) + multiset{x}
  {
    if s == [] || !less(x, s[|s|-1]) {
    } else {
      var n := |s| - 1;
      var front := Insert(less, s[..n], x);
      InsertSorted(less, s[..n], x);
      assert s == s[..n] + [s[n]];
      forall i | 0 <= i < |front| ensures !less(s[n], front[i]) {
        assert front[i] in multiset(front);
        if front[i] != x {
          assert front[i] in multiset(s[..n]);
          assert front[i] in s[..n];
        }
      }
    }
  }

  lemma {:induction false} SortSorts<T(!new)>(less: (T, T) -> bool, s: seq<T>)
    requires WeakOrder(less)
    ensures Sorted(less, Sort(less, s)) && multiset(Sort(less, s)) == multiset(s)
  {
    if s != [] {
      var n := |s| - 1;
      SortSorts(less, s[..n]);
      InsertSorted(less, Sort(less, s[..n]), s[n]);
      assert s == s[..n] + [s[n]];
    }
  }

  /** Two sorted arrangements of the same elements are the same list, if no two elements tie. */
  lemma {:induction false} SortedUnique<T>(less: (T, T) -> bool, a: seq<T>, b: seq<T>)
    requires Sorted(less, a) && Sorted(less, b) && Strict(less, a)
    requires multiset(a) == multiset(b)
    ensures a == b
  {
    assert |a| == |multiset(a)| == |multiset(b)| == |b|;
    if a != [] {
      assert a[0] in b by { assert a[0] in multiset(b); }
      assert b[0] in a by { assert b[0] in multiset(a); }
      TailsMatch(a, b);
      forall x, y | x in a[1..] && y in a[1..] && x != y ensures less(x, y) || less(y, x) {
        assert x in a && y in a;
      }
      SortedUnique(less, a[1..], b[1..]);
      assert a == [a[0]] + a[1..] && b == [b[0]] + b[1..];
    }
  }

  lemma TailsMatch<T>(a: seq<T>, b: seq<T>)
    requires a != [] && b != [] && a[0] == b[0] && multiset(a) == multiset(b)
    ensures multiset(a[1..]) == multiset(b[1..])
  {
    assert a == [a[0]] + a[1..] && b == [b[0]] + b[1..];
    assert multiset(a[1..]) == multiset(a) - multiset{a[0]};
    assert multiset(b[1..]) == multiset(b) - multiset{b[0]};
  }

  /** So the input order cannot show in the result. */
  lemma SortForgetsOrder<T(!new)>(less: (T, T) -> bool, a: seq<T>, b: seq<T>)
    requires WeakOrder(less) && Strict(less, a) && multiset(a) == multiset(b)
    ensures Sort(less, a) == Sort(less, b)
  {
    SortSorts(less, a);
    SortSorts(less, b);
    forall x, y | x in Sort(less, a) && y in Sort(less, a) && x != y ensures less(x, y) || less(y, x) {
      assert x in multiset(Sort(less, a)) && y in multiset(Sort(less, a));
      assert x in multiset(a) && y in multiset(a);
    }
    SortedUnique(less, Sort(less, a), Sort(less, b));
  }

  // ----- stability ----------------------------------------------------------------------------

  /** The elements that tie with `x`, in the order in which they stand. */
  function Ties<T>(less: (T, T) -> bool, s: seq<T>, x: T): seq<T> {
    if s == [] then [] else
      Ties(less, s[..|s|-1], x) +
      (if !less(s[|s|-1], x) && !less(x, s[|s|-1]) then [s[|s|-1]] else [])
  }

  lemma {:induction false} InsertStable<T(!new)>(less: (T, T) -> bool, s: seq<T>, e: T, x: T)
    requires WeakOrder(less)
    ensures Ties(less, Insert(less, s, e), x) == Ties(less, s + [e], x)
  {
    assert (s + [e])[..|s|] == s;
    if s != [] && less(e, s[|s|-1]) {
      var n := |s| - 1;
      InsertStable(less, s[..n], e, x);
      assert (s[..n] + [e])[..n] == s[..n];
    }
  }

  /** The sort is stable: elements that tie keep their order. */
  lemma {:induction false} SortStable<T(!new)>(less: (T, T) -> bool, s: seq<T>, x: T)
    requires WeakOrder(less)
    ensures Ties(less, Sort(less, s), x) == Ties(less, s, x)
  {
    if s != [] {
      var n := |s| - 1;
      SortStable(less, s[..n], x);
      InsertStable(less, Sort(less, s[..n]), s[n], x);
      var sorted := Sort(less, s[..n]);
      assert (sorted + [s[n]])[..|sorted|] == sorted;
    }
  }

  // ----- permutations under a map ---------------------------------------------------------

  function Mapped<T, U>(f: T -> U, s: seq<T>): seq<U> {
    seq(|s|, i requires 0 <= i < |s| => f(s[i]))
  }

  function Without<T>(s: seq<T>, j: nat): seq<T>
    requires j < |s|
  {
    s[..j] + s[j+1..]
  }

  lemma WithoutOne<T>(s: seq<T>, j: nat)
    requires j < |s|
    ensures multiset(s) == multiset(Without(s, j)) + multiset{s[j]}
  {
    assert s == s[..j] + [s[j]] + s[j+1..];
  }

  lemma MappedWithout<T, U>(f: T -> U, s: seq<T>, j: nat)
    requires j < |s|
    ensures multiset(Mapped(f, s)) == multiset(Mapped(f, Without(s, j))) + multiset{f(s[j])}
  {
    WithoutOne(Mapped(f, s), j);
    assert Mapped(f, Without(s, j)) == Without(Mapped(f, s), j);
  }

  lemma MatchIn<T>(a: seq<T>, b: seq<T>) returns (j: nat)
    requires a != [] && multiset(a) == multiset(b)
    ensures j < |b| && b[j] == a[0] && multiset(Without(a, 0)) == multiset(Without(b, j))
  {
    assert a[0] in multiset(b);
    j :| j < |b| && b[j] == a[0];
    WithoutOne(a, 0);
    WithoutOne(b, j);
    assert multiset(Without(a, 0)) == multiset(a) - multiset{a[0]};
    assert multiset(Without(b, j)) == multiset(b) - multiset{a[0]};
  }

  lemma {:induction false} MappedPermutes<T, U>(f: T -> U, a: seq<T>, b: seq<T>)
    requires multiset(a) == multiset(b)
    ensures multiset(Mapped(f, a)) == multiset(Mapped(f, b))
    decreases |a|
  {
    assert |a| == |multiset(a)| == |multiset(b)| == |b|;
    if a != [] {
      var j := MatchIn(a, b);
      MappedPermutes(f, Without(a, 0), Without(b, j));
      MappedWithout(f, a, 0);
      MappedWithout(f, b, j);
    }
  }
}
