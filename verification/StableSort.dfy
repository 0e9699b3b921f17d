// A stable sort, larger elements first, as sort.SliceStable does it.
module StableSort {
  import opened Text

  function Insert<T>(k: T, sorted: seq<T>, size: T -> nat): seq<T> {
    if sorted == [] then [k]
    else if size(sorted[|sorted| - 1]) >= size(k) then sorted + [k]
    else Insert(k, sorted[..|sorted| - 1], size) + [sorted[|sorted| - 1]]
  }

  function Sorted<T>(keys: seq<T>, size: T -> nat): seq<T> {
    if keys == [] then [] else Insert(keys[|keys| - 1], Sorted(keys[..|keys| - 1], size), size)
  }

  ghost predicate Descending<T>(keys: seq<T>, size: T -> nat) {
    forall i, j :: 0 <= i < j < |keys| ==> size(keys[i]) >= size(keys[j])
  }

  ghost predicate Distinct<T>(keys: seq<T>) {
    forall i, j :: 0 <= i < j < |keys| ==> keys[i] != keys[j]
  }

  lemma AppendLaws<T>(s: seq<T>, x: T, size: T -> nat)
    ensures Descending(s, size) && (forall k :: k in s ==> size(k) >= size(x)) ==> Descending(s + [x], size)
    ensures Distinct(s) && x !in s ==> Distinct(s + [x])
  {
    assert forall i :: 0 <= i < |s| ==> s[i] in s && (s + [x])[i] == s[i];
  }

  lemma {:induction false} InsertAdds<T>(k: T, sorted: seq<T>, size: T -> nat)
    ensures multiset(Insert(k, sorted, size)) == multiset(sorted) + multiset{k}
    decreases |sorted|
  {
    if sorted != [] {
      FrontAndLast(sorted);
      InsertAdds(k, sorted[..|sorted| - 1], size);
    } else {
      assert Insert(k, sorted, size) == sorted + [k];
    }
  }

  lemma InsertMembers<T>(k: T, sorted: seq<T>, size: T -> nat)
    ensures forall x :: x in Insert(k, sorted, size) ==> x == k || x in sorted
  {
    InsertAdds(k, sorted, size);
    forall x | x in Insert(k, sorted, size) ensures x == k || x in sorted {
      assert x in multiset(Insert(k, sorted, size));
    }
  }

  /** Inserting keeps the order and adds one occurrence of the element. */
  lemma {:induction false} InsertLaws<T>(k: T, sorted: seq<T>, size: T -> nat)
    requires Descending(sorted, size)
    ensures Descending(Insert(k, sorted, size), size)
    ensures multiset(Insert(k, sorted, size)) == multiset(sorted) + multiset{k}
    decreases |sorted|
  {
    InsertAdds(k, sorted, size);
    if sorted != [] {
      var front, last := sorted[..|sorted| - 1], sorted[|sorted| - 1];
      if size(last) >= size(k) {
        AppendLaws(sorted, k, size);
      } else {
        InsertLaws(k, front, size);
        InsertMembers(k, front, size);
        AppendLaws(Insert(k, front, size), last, size);
      }
    }
  }

  /** Sorting gives a descending permutation. */
  lemma {:induction false} SortedLaws<T>(keys: seq<T>, size: T -> nat)
    ensures Descending(Sorted(keys, size), size)
    ensures multiset(Sorted(keys, size)) == multiset(keys)
    decreases |keys|
  {
    if keys != [] {
      SortedLaws(keys[..|keys| - 1], size);
      InsertLaws(keys[|keys| - 1], Sorted(keys[..|keys| - 1], size), size);
      FrontAndLast(keys);
    }
  }

  /** Elements of the same size keep their order. */
  function OfSize<T>(keys: seq<T>, size: T -> nat, n: nat): seq<T> {
    if keys == [] then []
    else OfSize(keys[..|keys| - 1], size, n) + (if size(keys[|keys| - 1]) == n then [keys[|keys| - 1]] else [])
  }

  lemma {:induction false} InsertIsStable<T>(k: T, sorted: seq<T>, size: T -> nat, n: nat)
    requires Descending(sorted, size)
    ensures OfSize(Insert(k, sorted, size), size, n) == OfSize(sorted, size, n) + (if size(k) == n then [k] else [])
    decreases |sorted|
  {
    if sorted != [] && size(sorted[|sorted| - 1]) < size(k) {
      var front, last := sorted[..|sorted| - 1], sorted[|sorted| - 1];
      InsertIsStable(k, front, size, n);
      if size(last) == n {
        assert OfSize(front, size, n) + [] == OfSize(front, size, n);
      }
    } else if sorted == [] {
      assert [] + [k] == [k];
    }
  }

  lemma {:induction false} SortIsStable<T>(keys: seq<T>, size: T -> nat, n: nat)
    ensures OfSize(Sorted(keys, size), size, n) == OfSize(keys, size, n)
    decreases |keys|
  {
    if keys != [] {
      SortIsStable(keys[..|keys| - 1], size, n);
      SortedLaws(keys[..|keys| - 1], size);
      InsertIsStable(keys[|keys| - 1], Sorted(keys[..|keys| - 1], size), size, n);
    }
  }

  /** Being without repetition depends on how often elements occur only. */
  lemma DistinctByCount<T>(a: seq<T>, b: seq<T>)
    requires Distinct(a) && multiset(a) == multiset(b)
    ensures Distinct(b) && forall x :: x in a <==> x in b
  {
    forall x ensures x in a <==> x in b {
      assert x in a <==> x in multiset(a);
      assert x in b <==> x in multiset(b);
    }
    forall i, j | 0 <= i < j < |b| ensures b[i] != b[j] {
      CountsOnce(a, b[i]);
      if b[i] == b[j] {
        CountsTwice(b, i, j);
      }
    }
  }

  lemma {:induction false} CountsOnce<T>(a: seq<T>, x: T)
    requires Distinct(a)
    ensures multiset(a)[x] <= 1
    decreases |a|
  {
    if a != [] {
      var front, last := a[..|a| - 1], a[|a| - 1];
      CountsOnce(front, x);
      FrontAndLast(a);
      if last == x {
        assert x !in front;
        assert x !in multiset(front);
      }
    }
  }

  lemma CountsTwice<T>(b: seq<T>, i: nat, j: nat)
    requires i < j < |b| && b[i] == b[j]
    ensures multiset(b)[b[i]] >= 2
  {
    assert b == b[..i] + [b[i]] + b[i + 1..j] + [b[j]] + b[j + 1..];
  }

  /** The first n elements, or all of them. */
  function Top<T>(order: seq<T>, n: nat): seq<T> {
    if |order| > n then order[..n] else order
  }

}
