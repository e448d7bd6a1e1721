/** Sets of strings listed in order, as mapKeys and sort.Strings do with the keys of a Go map. */
module SortedSets {
  import opened Text
  import Sorting

  function ByText(): (string, string) -> bool { (a: string, b: string) => Less(a, b) }

  lemma ByTextIsStrict(s: seq<string>)
    ensures Sorting.WeakOrder(ByText()) && Sorting.Strict(ByText(), s)
  {
    forall x, y ensures ByText()(x, y) ==> !ByText()(y, x) { LessTotal(x, y); }
    forall x, y, z | !ByText()(y, x) && !ByText()(z, y) ensures !ByText()(z, x) {
      LessTotal(x, y);
      LessTotal(y, z);
      if Less(z, x) && Less(x, y) { LessTransitive(z, x, y); }
    }
    forall x, y | x in s && y in s && x != y ensures ByText()(x, y) || ByText()(y, x) { LessTotal(x, y); }
  }

  ghost function AnyOrder(s: set<string>): seq<string>
    decreases |s|
  {
    if s == {} then [] else
      var x :| x in s;
      [x] + AnyOrder(s - {x})
  }

  lemma {:induction false} AnyOrderHas(s: set<string>)
    ensures multiset(AnyOrder(s)) == multiset(s)
    decreases |s|
  {
    if s != {} {
      var x := AnyOrder(s)[0];
      AnyOrderHas(s - {x});
      assert AnyOrder(s) == [x] + AnyOrder(s - {x});
      assert multiset(s) == multiset(s - {x}) + multiset{x};
    }
  }

  ghost function Listed(s: set<string>): seq<string> { Sorting.Sort(ByText(), AnyOrder(s)) }

  lemma ListedIs(s: set<string>)
    ensures multiset(Listed(s)) == multiset(s) && |Listed(s)| == |s|
    ensures forall x :: x in Listed(s) <==> x in s
  {
    AnyOrderHas(s);
    ByTextIsStrict(AnyOrder(s));
    Sorting.SortSorts(ByText(), AnyOrder(s));
    assert |Listed(s)| == |multiset(Listed(s))| == |multiset(s)| == |s|;
    forall x ensures x in Listed(s) <==> x in s { assert x in Listed(s) <==> x in multiset(Listed(s)); }
  }

  /** The order in which the set is walked cannot show. */
  method ToSorted(s: set<string>) returns (out: seq<string>)
    ensures out == Listed(s)
  {
    var walked: seq<string> := [];
    var unseen := s;
    while unseen != {}
      invariant unseen <= s
      invariant multiset(walked) + multiset(unseen) == multiset(s)
      decreases |unseen|
    {
      var x :| x in unseen;
      unseen := unseen - {x};
      walked := walked + [x];
    }
    AnyOrderHas(s);
    ByTextIsStrict(walked);
    Sorting.SortForgetsOrder(ByText(), walked, AnyOrder(s));
    out := Sorting.Sort(ByText(), walked);
  }
}
