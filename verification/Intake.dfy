// Taking in a list item by item: a cap, no key twice, a refusal or a clamped
// item, and a record of everything dropped. Steps and services of a checkup plan
// are taken in like this (checkup_policy.go).
module Intake {
  import opened Text

  datatype Why = Duplicate | EmptyArgv | ShellArgv | BinaryDenied | NoPost | BadKey | ImageDenied

  /** A recorded drop: one item, everything from an index on, or the image. */
  datatype Drop = OneDropped(index: nat, why: Why) | CapReached(index: nat) | Clamped(index: nat) | ImageDefaulted | NoImage | NilPlan

  /** What is done with each item: its key, why it is refused before and after the
      test for a duplicate, what it becomes, the key of that, and what is noted. */
  datatype Rules<!T> = Rules(
    cap: nat, key: (T, nat) -> string, early: T -> Option<Why>, late: T -> Option<Why>,
    keep: (T, nat) -> T, keyOf: T -> string, notes: (T, nat) -> seq<Drop>)

  /** The kept items, the index each came from, and the recorded drops. */
  datatype Taken<T> = Taken(kept: seq<T>, sources: seq<nat>, drops: seq<Drop>, capped: bool)

  ghost predicate HasKey<T>(kept: seq<T>, rules: Rules<T>, key: string) {
    exists i :: 0 <= i < |kept| && rules.keyOf(kept[i]) == key
  }

  ghost predicate Accepted<T>(rules: Rules<T>, x: T) {
    rules.early(x).None? && rules.late(x).None?
  }

  ghost function TakeOne<T>(r: Taken<T>, x: T, index: nat, rules: Rules<T>): Taken<T> {
    if r.capped then r
    else if |r.kept| >= rules.cap then r.(drops := r.drops + [CapReached(index)], capped := true)
    else if rules.early(x).Some? then r.(drops := r.drops + [OneDropped(index, rules.early(x).value)])
    else if HasKey(r.kept, rules, rules.key(x, index)) then r.(drops := r.drops + [OneDropped(index, Duplicate)])
    else if rules.late(x).Some? then r.(drops := r.drops + [OneDropped(index, rules.late(x).value)])
    else Taken(r.kept + [rules.keep(x, index)], r.sources + [index], r.drops + rules.notes(x, index), false)
  }

  ghost function TakeIn<T>(raw: seq<T>, rules: Rules<T>): Taken<T> {
    if raw == [] then Taken([], [], [], false)
    else TakeOne(TakeIn(raw[..|raw| - 1], rules), raw[|raw| - 1], |raw| - 1, rules)
  }

  lemma TakeInSnoc<T>(raw: seq<T>, x: T, rules: Rules<T>)
    ensures TakeIn(raw + [x], rules) == TakeOne(TakeIn(raw, rules), x, |raw|, rules)
  {
    assert (raw + [x])[..|raw|] == raw;
  }

  /** Once the cap is reached, the rest of the list changes nothing. */
  lemma {:induction false} CappedStays<T>(raw: seq<T>, n: nat, rules: Rules<T>)
    requires n <= |raw| && TakeIn(raw[..n], rules).capped
    ensures TakeIn(raw, rules) == TakeIn(raw[..n], rules)
    decreases |raw|
  {
    if n == |raw| {
      TakeAll(raw);
    } else {
      assert raw[..|raw| - 1][..n] == raw[..n];
      CappedStays(raw[..|raw| - 1], n, rules);
    }
  }

  // ----- What comes out -----

  /** Everything kept is legal and has the key it was taken in under. */
  ghost predicate Sound<T(!new)>(rules: Rules<T>, legal: T -> bool) {
    forall x, i: nat :: Accepted(rules, x) ==> legal(rules.keep(x, i)) && rules.keyOf(rules.keep(x, i)) == rules.key(x, i)
  }

  ghost predicate Envelope<T>(kept: seq<T>, rules: Rules<T>, legal: T -> bool) {
    && |kept| <= rules.cap
    && (forall k :: 0 <= k < |kept| ==> legal(kept[k]))
    && (forall i, j :: 0 <= i < j < |kept| ==> rules.keyOf(kept[i]) != rules.keyOf(kept[j]))
  }

  ghost predicate CapBy(drops: seq<Drop>, i: int) {
    exists c: nat :: c <= i && CapReached(c) in drops
  }

  /** Every item before the point reached is kept or recorded as dropped. */
  ghost predicate Accounted<T>(r: Taken<T>, n: nat) {
    forall i :: 0 <= i < n ==> i in r.sources || (exists w :: OneDropped(i, w) in r.drops) || CapBy(r.drops, i)
  }

  ghost predicate SourceFits<T>(r: Taken<T>, raw: seq<T>, rules: Rules<T>, k: nat)
    requires k < |r.kept| && |r.sources| == |r.kept|
  {
    && r.sources[k] < |raw| && Accepted(rules, raw[r.sources[k]])
    && r.kept[k] == rules.keep(raw[r.sources[k]], r.sources[k])
  }

  ghost predicate FromRaw<T>(r: Taken<T>, raw: seq<T>, rules: Rules<T>) {
    |r.sources| == |r.kept| && forall k :: 0 <= k < |r.kept| ==> SourceFits(r, raw, rules, k)
  }

  ghost predicate Fits<T>(r: Taken<T>, raw: seq<T>, rules: Rules<T>, legal: T -> bool) {
    && Envelope(r.kept, rules, legal) && FromRaw(r, raw, rules) && Accounted(r, |raw|)
    && (r.capped ==> CapBy(r.drops, |raw|) && |r.kept| == rules.cap)
  }

  lemma TakeFits<T(!new)>(r: Taken<T>, raw: seq<T>, x: T, rules: Rules<T>, legal: T -> bool)
    requires Fits(r, raw, rules, legal) && Sound(rules, legal)
    ensures Fits(TakeOne(r, x, |raw|, rules), raw + [x], rules, legal)
  {
    var all, t := raw + [x], TakeOne(r, x, |raw|, rules);
    assert all[|raw|] == x;
    forall k | 0 <= k < |t.kept| ensures SourceFits(t, all, rules, k) {
      if k < |r.kept| {
        assert SourceFits(r, raw, rules, k);
        assert all[r.sources[k]] == raw[r.sources[k]];
      }
    }
  }

  /** Whatever the list, what is kept fits the envelope, each item is what one raw
      item became, and every missing one has a recorded drop. */
  lemma {:induction false} TakenFits<T(!new)>(raw: seq<T>, rules: Rules<T>, legal: T -> bool)
    requires Sound(rules, legal)
    ensures Fits(TakeIn(raw, rules), raw, rules, legal)
    decreases |raw|
  {
    if raw != [] {
      TakenFits(raw[..|raw| - 1], rules, legal);
      TakeFits(TakeIn(raw[..|raw| - 1], rules), raw[..|raw| - 1], raw[|raw| - 1], rules, legal);
      FrontAndLast(raw);
    }
  }

  // ----- A second pass -----

  ghost predicate Fixed<T>(x: T, index: nat, rules: Rules<T>) {
    Accepted(rules, x) && rules.keep(x, index) == x
  }

  ghost predicate AllFixed<T>(xs: seq<T>, rules: Rules<T>) {
    forall k :: 0 <= k < |xs| ==> Fixed(xs[k], k, rules)
  }

  /** An item that was kept goes by its own key when it comes again. */
  ghost predicate KeyStays<T(!new)>(rules: Rules<T>, legal: T -> bool) {
    forall x, i: nat :: legal(x) ==> rules.key(x, i) == rules.keyOf(x)
  }

  lemma GrownEqual<T>(a: seq<T>, front: seq<T>, x: T, y: T)
    ensures a + [x] == front + [y] <==> a == front && x == y
    ensures |a| <= |front| ==> a != front + [y]
  {
    if a + [x] == front + [y] {
      assert |a| == |front|;
      assert (a + [x])[..|a|] == a && (front + [y])[..|front|] == front;
      assert (a + [x])[|a|] == x;
    }
  }

  ghost predicate WholeExactly<T>(xs: seq<T>, rules: Rules<T>) {
    var r := TakeIn(xs, rules);
    |r.kept| <= |xs| && !r.capped && (r.kept == xs <==> AllFixed(xs, rules))
  }

  lemma WholeSnoc<T(!new)>(front: seq<T>, x: T, rules: Rules<T>)
    requires WholeExactly(front, rules) && |front| < rules.cap
    requires rules.key(x, |front|) == rules.keyOf(x)
    requires forall k :: 0 <= k < |front| ==> rules.keyOf(front[k]) != rules.keyOf(x)
    ensures WholeExactly(front + [x], rules)
  {
    var r := TakeIn(front, rules);
    TakeInSnoc(front, x, rules);
    GrownEqual(r.kept, front, rules.keep(x, |front|), x);
    var all := front + [x];
    assert all[|front|] == x && forall k :: 0 <= k < |front| ==> all[k] == front[k];
    assert AllFixed(all, rules) <==> AllFixed(front, rules) && Fixed(x, |front|, rules);
    if r.kept == front {
      assert !HasKey(r.kept, rules, rules.key(x, |front|));
    }
  }

  /** A list within the envelope is kept as a whole exactly when every item is
      kept as it is. */
  lemma {:induction false} KeptAsWhole<T(!new)>(xs: seq<T>, rules: Rules<T>, legal: T -> bool)
    requires Envelope(xs, rules, legal) && KeyStays(rules, legal)
    ensures WholeExactly(xs, rules)
    decreases |xs|
  {
    if xs != [] {
      KeptAsWhole(xs[..|xs| - 1], rules, legal);
      WholeSnoc(xs[..|xs| - 1], xs[|xs| - 1], rules);
      FrontAndLast(xs);
    }
  }
}
