// Finite sets and the lists that enumerate them.
module Sets {

  lemma SubsetSize<T>(a: set<T>, b: set<T>)
    requires a <= b
    ensures |a| <= |b|
  {
    assert b == a + (b - a);
  }

  lemma OnlyMember<T(!new)>(s: set<T>, k: T)
    requires |s| == 1 && k in s
    ensures forall o :: o in s ==> o == k
  {
    assert |s - {k}| == 0;
    assert forall o :: o in s && o != k ==> o in s - {k};
  }

  /** A list that names every member of a set once is as long as the set is large. */
  lemma {:induction false} ListingSize<T(!new)>(s: seq<T>, keys: set<T>)
    requires (forall k :: k in s <==> k in keys) && forall i, j :: 0 <= i < j < |s| ==> s[i] != s[j]
    ensures |s| == |keys|
    decreases |s|
  {
    if s != [] {
      var n := |s| - 1;
      assert forall k :: k in keys - {s[n]} ==> k in s && k in s[..n];
      ListingSize(s[..n], keys - {s[n]});
    }
  }

  /** Takes the last element of one list out of another that has it too. */
  lemma DropShared<T>(cs: seq<T>, ds: seq<T>) returns (i: nat)
    requires ds != [] && multiset(ds) <= multiset(cs)
    ensures i < |cs| && cs[i] == ds[|ds| - 1]
    ensures multiset(ds[..|ds| - 1]) <= multiset(cs[..i] + cs[i + 1..])
  {
    var c, front := ds[|ds| - 1], ds[..|ds| - 1];
    assert ds == front + [c];
    assert c in multiset(cs);
    i :| 0 <= i < |cs| && cs[i] == c;
    assert cs == cs[..i] + [cs[i]] + cs[i + 1..];
    assert multiset(cs[..i] + cs[i + 1..]) == multiset(cs) - multiset{c};
  }
}
