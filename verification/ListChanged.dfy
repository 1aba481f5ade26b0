// Comparing two device lists: the nested search, and when it decides that the lists
// hold the same devices.
module ListChanged {
  import opened Prelude

  // `equal` has an entry of `list2` for `x`.
  predicate Found<T(!new)>(x: T, list2: seq<T>, equal: (T, T) -> bool) {
    exists j :: 0 <= j < |list2| && equal(x, list2[j])
  }

  method ListChanged<T(!new)>(list1: seq<T>, list2: seq<T>, equal: (T, T) -> bool) returns (changed: bool)
    ensures !changed <==> |list1| == |list2| && forall i :: 0 <= i < |list1| ==> Found(list1[i], list2, equal)
  {
    if |list1| != |list2| { return true; }
    var i := 0;
    while i < |list1|
      invariant 0 <= i <= |list1|
      invariant forall k :: 0 <= k < i ==> Found(list1[k], list2, equal)
    {
      var found := false;
      var j := 0;
      while j < |list2|
        invariant 0 <= j <= |list2|
        invariant found ==> Found(list1[i], list2, equal)
        invariant !found ==> forall k :: 0 <= k < j ==> !equal(list1[i], list2[k])
      {
        if equal(list1[i], list2[j]) { found := true; }
        j := j + 1;
      }
      if !found { return true; }
      i := i + 1;
    }
    return false;
  }

  // The value the method returns.
  predicate Unchanged<T(!new)>(list1: seq<T>, list2: seq<T>, equal: (T, T) -> bool) {
    |list1| == |list2| && forall i :: 0 <= i < |list1| ==> Found(list1[i], list2, equal)
  }

  ghost predicate Equivalence<T(!new)>(equal: (T, T) -> bool) {
    && (forall x :: equal(x, x))
    && (forall x, y :: equal(x, y) ==> equal(y, x))
    && (forall x, y, z :: equal(x, y) && equal(y, z) ==> equal(x, z))
  }

  predicate NoTwins<T(!new)>(list: seq<T>, equal: (T, T) -> bool) {
    forall i, j :: 0 <= i < j < |list| ==> !equal(list[i], list[j])
  }

  // `p` rearranges 0..n: every index once.
  predicate Injective(p: seq<nat>, n: nat) {
    && (forall i :: 0 <= i < |p| ==> p[i] < n)
    && (forall i, j :: 0 <= i < j < |p| ==> p[i] != p[j])
  }

  predicate Rearranges(p: seq<nat>, n: nat) {
    |p| == n && Injective(p, n) && forall k :: 0 <= k < n ==> k in p
  }

  ghost predicate PermutationUpTo<T(!new)>(list1: seq<T>, list2: seq<T>, equal: (T, T) -> bool) {
    exists p: seq<nat> :: MatchesVia(list1, list2, equal, p)
  }

  function Elements(p: seq<nat>): (s: set<nat>)
    ensures forall x :: x in s <==> x in p
    ensures (forall i, j :: 0 <= i < j < |p| ==> p[i] != p[j]) ==> |s| == |p|
  {
    if p == [] then {}
    else
      var n := |p| - 1;
      assert p == p[..n] + [p[n]];
      Elements(p[..n]) + {p[n]}
  }

  function Below(n: nat): (s: set<nat>)
    ensures forall x: nat :: x in s <==> x < n
    ensures |s| == n
  {
    if n == 0 then {} else Below(n - 1) + {n - 1}
  }

  // Pigeonhole: n distinct indices below n are all of them.
  lemma Pigeonhole(p: seq<nat>, n: nat)
    requires |p| == n && Injective(p, n)
    ensures Rearranges(p, n)
  {
    SubsetOfSameSize(Elements(p), Below(n));
    forall k | 0 <= k < n ensures k in p {
      assert k in Below(n);
    }
  }

  // Where each entry of the first list was found.
  ghost function Matches<T(!new)>(list1: seq<T>, list2: seq<T>, equal: (T, T) -> bool): (p: seq<nat>)
    requires forall i :: 0 <= i < |list1| ==> Found(list1[i], list2, equal)
    ensures |p| == |list1|
    ensures forall i :: 0 <= i < |p| ==> p[i] < |list2| && equal(list1[i], list2[p[i]])
  {
    if list1 == [] then []
    else
      var n := |list1| - 1;
      assert Found(list1[n], list2, equal);
      var j: nat :| j < |list2| && equal(list1[n], list2[j]);
      Matches(list1[..n], list2, equal) + [j]
  }

  lemma SameMatch<T(!new)>(x: T, y: T, z: T, equal: (T, T) -> bool)
    requires Equivalence(equal) && equal(x, y) && equal(z, y)
    ensures equal(x, z)
  {
    assert equal(y, z);
  }

  // For an equivalence and a first list without twins, equal lengths and one-way
  // inclusion are enough: the lists are rearrangements of each other.
  lemma UnchangedIffPermutation<T(!new)>(list1: seq<T>, list2: seq<T>, equal: (T, T) -> bool)
    requires Equivalence(equal) && NoTwins(list1, equal)
    ensures Unchanged(list1, list2, equal) <==> PermutationUpTo(list1, list2, equal)
  {
    if Unchanged(list1, list2, equal) {
      var p := Matches(list1, list2, equal);
      forall i, j | 0 <= i < j < |p| ensures p[i] != p[j] {
        if p[i] == p[j] {
          SameMatch(list1[i], list2[p[i]], list1[j], equal);
        }
      }
      Pigeonhole(p, |list1|);
      assert MatchesVia(list1, list2, equal, p);
    }
    if PermutationUpTo(list1, list2, equal) {
      var p: seq<nat> :| MatchesVia(list1, list2, equal, p);
      forall i | 0 <= i < |list1| ensures Found(list1[i], list2, equal) {
        assert equal(list1[i], list2[p[i]]);
      }
    }
  }

  predicate MatchesVia<T(!new)>(list1: seq<T>, list2: seq<T>, equal: (T, T) -> bool, p: seq<nat>) {
    && |list1| == |list2| && Rearranges(p, |list1|)
    && forall i :: 0 <= i < |p| ==> equal(list1[i], list2[p[i]])
  }

  lemma FoundBackwards<T(!new)>(list1: seq<T>, list2: seq<T>, equal: (T, T) -> bool, p: seq<nat>, k: nat)
    requires Equivalence(equal) && MatchesVia(list1, list2, equal, p) && k < |list2|
    ensures Found(list2[k], list1, equal)
  {
    assert k in p;
    var i :| 0 <= i < |p| && p[i] == k;
    assert equal(list2[k], list1[i]);
  }

  lemma TwinsBackwards<T(!new)>(list1: seq<T>, list2: seq<T>, equal: (T, T) -> bool, p: seq<nat>, k: nat, l: nat)
    requires Equivalence(equal) && MatchesVia(list1, list2, equal, p) && k < |list2| && l < |list2| && k != l
    requires equal(list2[k], list2[l])
    ensures !NoTwins(list1, equal)
  {
    assert k in p && l in p;
    var i :| 0 <= i < |p| && p[i] == k;
    var j :| 0 <= j < |p| && p[j] == l;
    SameMatch(list1[i], list2[l], list1[j], equal);
    SameMatch(list1[j], list2[l], list1[i], equal);
  }

  // Hence the comparison does not depend on the order of its arguments.
  lemma UnchangedIsSymmetric<T(!new)>(list1: seq<T>, list2: seq<T>, equal: (T, T) -> bool)
    requires Equivalence(equal) && NoTwins(list1, equal) && Unchanged(list1, list2, equal)
    ensures Unchanged(list2, list1, equal) && NoTwins(list2, equal)
  {
    UnchangedIffPermutation(list1, list2, equal);
    var p: seq<nat> :| MatchesVia(list1, list2, equal, p);
    forall k | 0 <= k < |list2| ensures Found(list2[k], list1, equal) {
      FoundBackwards(list1, list2, equal, p, k);
    }
    forall k, l | 0 <= k < l < |list2| ensures !equal(list2[k], list2[l]) {
      if equal(list2[k], list2[l]) {
        TwinsBackwards(list1, list2, equal, p, k, l);
      }
    }
  }

  // ----- Twins -----

  // Distinct indices stay as many when moved by distinct steps.
  lemma {:induction false} ImageSize(p: seq<nat>, n: nat, from: set<nat>, to: set<nat>)
    requires Injective(p, n)
    requires forall k :: k in from ==> k < |p| && p[k] in to
    ensures |from| <= |to|
    decreases |from|
  {
    if k: nat :| k in from {
      forall i | i in from - {k} ensures i < |p| && p[i] in to - {p[k]} {
        assert p[i] != p[k];
      }
      ImageSize(p, n, from - {k}, to - {p[k]});
    } else {
      assert from == {};
    }
  }

  // Where a list holds entries equal to x.
  function Class<T(!new)>(list: seq<T>, x: T, equal: (T, T) -> bool): (s: set<nat>)
    ensures forall k: nat :: k in s <==> k < |list| && equal(list[k], x)
  {
    set k: nat | k < |list| && equal(list[k], x)
  }

  // A permutation maps each class of entries to the same class.
  lemma ClassesMatch<T(!new)>(list1: seq<T>, list2: seq<T>, x: T, equal: (T, T) -> bool)
    requires Equivalence(equal) && PermutationUpTo(list1, list2, equal)
    ensures |Class(list1, x, equal)| <= |Class(list2, x, equal)|
  {
    var p: seq<nat> :| MatchesVia(list1, list2, equal, p);
    forall k | k in Class(list1, x, equal) ensures k < |p| && p[k] in Class(list2, x, equal) {
      assert equal(list2[p[k]], list1[k]);
    }
    ImageSize(p, |list1|, Class(list1, x, equal), Class(list2, x, equal));
  }

  // With twins in the first list a real change goes unnoticed: one of them is replaced
  // by something else, and the other still finds a match for both. If it is by something
  // new, the comparison the other way round sees it.
  lemma TwinsHideAChange<T(!new)>(list: seq<T>, i: nat, j: nat, y: T, equal: (T, T) -> bool)
    requires Equivalence(equal) && i < j < |list| && equal(list[i], list[j]) && !equal(list[i], y)
    ensures Unchanged(list, list[j := y], equal) && !PermutationUpTo(list, list[j := y], equal)
    ensures (forall k :: 0 <= k < |list| ==> !equal(y, list[k])) ==> !Unchanged(list[j := y], list, equal)
  {
    var list2 := list[j := y];
    TwinsFindEachOther(list, i, j, y, equal);
    assert list2[j] == y;
    if PermutationUpTo(list, list2, equal) {
      ClassesMatch(list, list2, list[i], equal);
      ClassShrinks(list, j, list[i], y, equal);
    }
  }

  lemma TwinsFindEachOther<T(!new)>(list: seq<T>, i: nat, j: nat, y: T, equal: (T, T) -> bool)
    requires Equivalence(equal) && i < j < |list| && equal(list[i], list[j])
    ensures Unchanged(list, list[j := y], equal)
  {
    var list2 := list[j := y];
    forall k | 0 <= k < |list| ensures Found(list[k], list2, equal) {
      assert equal(list[k], list2[if k == j then i else k]);
    }
  }

  lemma ClassShrinks<T(!new)>(list: seq<T>, j: nat, x: T, y: T, equal: (T, T) -> bool)
    requires Equivalence(equal) && j < |list| && equal(x, list[j]) && !equal(x, y)
    ensures |Class(list[j := y], x, equal)| < |Class(list, x, equal)|
  {
    assert equal(list[j], x) && !equal(y, x);
    assert Class(list[j := y], x, equal) == Class(list, x, equal) - {j};
  }

  // The answer is right for this first list, whatever the second one is.
  ghost predicate RightForAll<T(!new)>(list1: seq<T>, equal: (T, T) -> bool) {
    forall list2: seq<T> :: Unchanged(list1, list2, equal) <==> PermutationUpTo(list1, list2, equal)
  }

  lemma AllEqualIsRight<T(!new)>(list1: seq<T>, list2: seq<T>, equal: (T, T) -> bool)
    requires forall x, y :: equal(x, y)
    ensures Unchanged(list1, list2, equal) <==> PermutationUpTo(list1, list2, equal)
  {
    if |list1| == |list2| {
      var p: seq<nat> := seq(|list1|, k => k);
      Pigeonhole(p, |list1|);
      assert MatchesVia(list1, list2, equal, p);
      forall i | 0 <= i < |list1| ensures Found(list1[i], list2, equal) {
        assert equal(list1[i], list2[i]);
      }
    }
  }

  // The comparison answers rightly about every second list exactly when the first has no
  // twins (or when all devices count as equal).
  lemma RightExactlyWithoutTwins<T(!new)>(list1: seq<T>, equal: (T, T) -> bool)
    requires Equivalence(equal)
    ensures RightForAll(list1, equal) <==> NoTwins(list1, equal) || forall x, y :: equal(x, y)
  {
    if NoTwins(list1, equal) {
      forall list2: seq<T> ensures Unchanged(list1, list2, equal) <==> PermutationUpTo(list1, list2, equal) {
        UnchangedIffPermutation(list1, list2, equal);
      }
    } else if forall x, y :: equal(x, y) {
      forall list2: seq<T> ensures Unchanged(list1, list2, equal) <==> PermutationUpTo(list1, list2, equal) {
        AllEqualIsRight(list1, list2, equal);
      }
    } else {
      var i: nat, j: nat :| i < j < |list1| && equal(list1[i], list1[j]);
      var x, y :| !equal(x, y);
      var other := if equal(list1[i], x) then y else x;
      assert equal(list1[i], x) ==> equal(x, list1[i]);
      TwinsHideAChange(list1, i, j, other, equal);
    }
  }
}
