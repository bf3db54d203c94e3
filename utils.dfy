/**
 * IsTheSameArray (package pkg), which the tests use to compare lists of
 * secret names regardless of order.
 */
module Utils {

  /**
   * What IsTheSameArray decides: equal lengths, and every element of `b`
   * occurs in `a`. Only membership is checked, not multiplicity.
   */
  predicate SameArray(a: seq<string>, b: seq<string>)
  {
    |a| == |b| && forall x :: x in b ==> x in a
  }

  /**
   * IsTheSameArray: compare the lengths, collect the elements of `a` in a
   * map, then look every element of `b` up in it.
   */
  method IsTheSameArray(a: seq<string>, b: seq<string>) returns (same: bool)
    ensures same == SameArray(a, b)
    ensures |a| != |b| ==> !same
    ensures (exists x :: x in b && x !in a) ==> !same
  {
    if |a| != |b| {
      return false;
    }
    var tmp: map<string, string> := map[];
    for i := 0 to |a|
      invariant forall x :: x in tmp <==> x in a[..i]
    {
      tmp := tmp[a[i] := a[i]];
    }
    assert a[..|a|] == a;
    for i := 0 to |b|
      invariant forall j :: 0 <= j < i ==> b[j] in a
    {
      if b[i] !in tmp {
        return false;
      }
    }
    return true;
  }

  /** Two orderings of the same elements are the same (any permutation). */
  lemma {:induction false} PermutationIsSame(a: seq<string>, b: seq<string>)
    requires multiset(a) == multiset(b)
    ensures SameArray(a, b)
  {
    assert |a| == |multiset(a)| == |multiset(b)| == |b|;
    forall x | x in b
      ensures x in a
    {
      assert x in multiset(b);
    }
  }

  /**
   * It is not multiset equality, and not symmetric: ["x", "y"] is the same
   * as ["x", "x"], but not the other way round.
   */
  lemma DuplicatesAreOnlyCheckedForMembership()
    ensures SameArray(["x", "y"], ["x", "x"])
    ensures multiset(["x", "y"]) != multiset(["x", "x"])
    ensures !SameArray(["x", "x"], ["x", "y"])
  {
    assert "y" in ["x", "y"];
    assert "y" !in ["x", "x"];
    assert multiset(["x", "x"])["y"] == 0;
  }
}
