// Taking known secrets out of an agent's output (agents_launch.go).
module Redaction {
  import opened Text

  const STARS: string := "***"

  /** bytes.ReplaceAll(s, p, "***"): leftmost occurrences that do not overlap. */
  function ReplaceAll(s: string, p: string): string
    requires p != ""
    decreases |s|
  {
    var i := Index(s, p);
    if i < 0 then s else s[..i] + (STARS + ReplaceAll(s[i + |p|..], p))
  }

  /** Secrets shorter than eight characters are left alone. */
  predicate LongEnough(secret: string) {
    |TrimSpace(secret)| >= 8
  }

  function Redacted(raw: string, secrets: seq<string>): string {
    if secrets == [] then raw
    else
      var out, s := Redacted(raw, secrets[..|secrets| - 1]), secrets[|secrets| - 1];
      if LongEnough(s) then ReplaceAll(out, TrimSpace(s)) else out
  }

  /** environment holds the values of the service's own secrets. */
  method RedactJobOutput(raw: string, secrets: seq<string>, environment: seq<string>) returns (out: string)
    ensures out == Redacted(raw, secrets + environment)
  {
    out := raw;
    for i := 0 to |secrets|
      invariant out == Redacted(raw, secrets[..i])
    {
      TakeSnoc(secrets, i);
      var s := TrimSpace(secrets[i]);
      if |s| < 8 {
        continue;
      }
      out := ReplaceAll(out, s);
    }
    TakeAll(secrets);
    assert secrets + environment[..0] == secrets;
    for i := 0 to |environment|
      invariant out == Redacted(raw, secrets + environment[..i])
    {
      TakeSnoc(environment, i);
      assert secrets + (environment[..i] + [environment[i]]) == secrets + environment[..i] + [environment[i]];
      var v := TrimSpace(environment[i]);
      if |v| >= 8 {
        out := ReplaceAll(out, v);
      }
    }
    TakeAll(environment);
  }

  // ----- No secret is left -----

  /** A text that three stars cannot be part of, not even with one of its ends. */
  ghost predicate StarSafe(q: string) {
    q != "" && q[0] != '*' && q[|q| - 1] != '*' && !Contains(q, STARS)
  }

  lemma StarFreeIsSafe(q: string)
    requires q != "" && '*' !in q
    ensures StarSafe(q)
  {
    OccurrenceStarts(q, STARS);
    assert forall i :: 0 <= i < |q| ==> q[i] in q;
  }

  /** Around three stars, a safe text occurs only to the left or to the right. */
  lemma EitherSide(a: string, b: string, q: string)
    requires StarSafe(q)
    ensures Contains(a + (STARS + b), q) ==> Contains(a, q) || Contains(b, q)
  {
    var s := a + (STARS + b);
    Spelled(s, q);
    forall j | OccursAt(s, q, j) ensures OccursAt(a, q, j) || OccursAt(b, q, j - |a| - 3) {
      if j + |q| <= |a| {
        assert a[j..j + |q|] == s[j..j + |q|];
      } else if j >= |a| + 3 {
        assert b[j - |a| - 3..j - |a| - 3 + |q|] == s[j..j + |q|];
      } else {
        Straddles(a, b, q, j);
        assert false;
      }
    }
  }

  lemma Straddles(a: string, b: string, q: string, j: nat)
    requires var s := a + (STARS + b); OccursAt(s, q, j) && q != ""
    requires j < |a| + 3 && j + |q| > |a|
    ensures !StarSafe(q)
  {
    var s := a + (STARS + b);
    Spelled(s, q);
    assert s[j + 0] == q[0];
    assert s[j + (|q| - 1)] == q[|q| - 1];
    assert s[|a|] == s[|a| + 1] == s[|a| + 2] == '*';
    if j < |a| && j + |q| >= |a| + 3 {
      var k := |a| - j;
      assert q[k..k + 3] == s[|a|..|a| + 3] == STARS;
      assert OccursAt(q, STARS, k);
    }
  }

  lemma SliceOfSlice<T>(s: seq<T>, lo: nat, hi: nat, a: nat, b: nat)
    requires lo <= hi <= |s| && a <= b <= hi - lo
    ensures s[lo..hi][a..b] == s[lo + a..lo + b]
  {
    var l, r := s[lo..hi][a..b], s[lo + a..lo + b];
    forall k | 0 <= k < b - a ensures l[k] == r[k] {
      assert l[k] == s[lo..hi][a + k] == s[lo + (a + k)];
      assert r[k] == s[lo + a + k];
    }
  }

  lemma ContainsPart(s: string, lo: nat, hi: nat, q: string)
    requires lo <= hi <= |s|
    ensures Contains(s[lo..hi], q) ==> Contains(s, q)
  {
    if Contains(s[lo..hi], q) {
      var j :| OccursAt(s[lo..hi], q, j);
      SliceOfSlice(s, lo, hi, j, j + |q|);
      assert OccursAt(s, q, lo + j);
    }
  }

  /** Replacing anything by stars does not create a safe text. */
  lemma {:induction false} ReplaceCreatesNothing(s: string, p: string, q: string)
    requires p != "" && StarSafe(q) && !Contains(s, q)
    ensures !Contains(ReplaceAll(s, p), q)
    decreases |s|
  {
    var i := Index(s, p);
    if i >= 0 {
      ContainsPart(s, 0, i, q);
      ContainsPart(s, i + |p|, |s|, q);
      assert s[0..i] == s[..i] && s[i + |p|..|s|] == s[i + |p|..];
      ReplaceCreatesNothing(s[i + |p|..], p, q);
      EitherSide(s[..i], ReplaceAll(s[i + |p|..], p), q);
    }
  }

  lemma NoneBeforeFirst(s: string, p: string)
    requires p != "" && Index(s, p) >= 0
    ensures !Contains(s[..Index(s, p)], p)
  {
    var i := Index(s, p);
    forall j | OccursAt(s[..i], p, j) ensures OccursAt(s, p, j) {
      assert s[..i][j..j + |p|] == s[j..j + |p|];
    }
  }

  lemma {:induction false} ReplaceRemoves(s: string, p: string)
    requires StarSafe(p)
    ensures !Contains(ReplaceAll(s, p), p)
    decreases |s|
  {
    var i := Index(s, p);
    if i >= 0 {
      NoneBeforeFirst(s, p);
      ReplaceRemoves(s[i + |p|..], p);
      EitherSide(s[..i], ReplaceAll(s[i + |p|..], p), p);
    }
  }

  /** Whatever the number and the order of the secrets, none that is long enough
      and that stars cannot be part of occurs anywhere in the output. */
  lemma {:induction false} NoSecretLeft(raw: string, secrets: seq<string>)
    ensures forall k :: 0 <= k < |secrets| && LongEnough(secrets[k]) && StarSafe(TrimSpace(secrets[k])) ==>
              !Contains(Redacted(raw, secrets), TrimSpace(secrets[k]))
    decreases |secrets|
  {
    if secrets != [] {
      var front, last := secrets[..|secrets| - 1], secrets[|secrets| - 1];
      NoSecretLeft(raw, front);
      forall k | 0 <= k < |secrets| && LongEnough(secrets[k]) && StarSafe(TrimSpace(secrets[k]))
        ensures !Contains(Redacted(raw, secrets), TrimSpace(secrets[k]))
      {
        var q := TrimSpace(secrets[k]);
        if k == |secrets| - 1 {
          ReplaceRemoves(Redacted(raw, front), q);
        } else {
          assert front[k] == secrets[k];
          if LongEnough(last) {
            ReplaceCreatesNothing(Redacted(raw, front), TrimSpace(last), q);
          }
        }
      }
    }
  }

  // ----- Exactly which secrets are safe -----

  function Run(x: char, n: nat): (m: string)
    ensures |m| == n && AllAre(m, x)
  {
    seq(n, _ => x)
  }

  predicate AllAre(m: string, x: char) {
    forall i :: 0 <= i < |m| ==> m[i] == x
  }

  /** A letter that is neither a star nor the last one of a. */
  function OtherLetter(a: string): (x: char)
    ensures x in {'a', 'b'} && (a != "" ==> a[|a| - 1] != x)
  {
    if a != "" && a[|a| - 1] == 'a' then 'b' else 'a'
  }

  /** A text that stars can be part of: its stars, and what is around them. */
  predicate Starred(q: string, a: string, stars: string, b: string) {
    && q == a + (stars + b)
    && (stars == STARS || (stars == "*" && (a == "" || b == "")))
  }

  lemma UnsafeIsStarred(q: string) returns (a: string, stars: string, b: string)
    requires q != "" && !StarSafe(q)
    ensures Starred(q, a, stars, b)
  {
    if q[0] == '*' {
      a, stars, b := "", "*", q[1..];
    } else if q[|q| - 1] == '*' {
      a, stars, b := q[..|q| - 1], "*", "";
    } else {
      var k :| OccursAt(q, STARS, k);
      a, stars, b := q[..k], STARS, q[k + 3..];
    }
  }

  lemma NotInDisguise(q: string, a: string, stars: string, b: string, x: char, m: string)
    requires Starred(q, a, stars, b) && x != '*' && AllAre(m, x)
    ensures !Contains(a + (m + b), q)
  {
    var raw := a + (m + b);
    assert q[|a|] == '*';
    forall j | 0 <= j && j + |q| <= |raw| ensures !OccursAt(raw, q, j) {
      assert raw[j..j + |q|][|a|] == raw[j + |a|] == m[j] == x;
    }
  }

  lemma FirstRun(a: string, b: string, x: char, m: string)
    requires |m| > |a| && AllAre(m, x) && (a != "" ==> a[|a| - 1] != x)
    ensures Index(a + (m + b), m) == |a|
  {
    var raw := a + (m + b);
    assert raw[|a|..|a| + |m|] == m;
    assert OccursAt(raw, m, |a|);
    forall j | 0 <= j < |a| ensures !OccursAt(raw, m, j) {
      assert raw[j..j + |m|][|a| - 1 - j] == raw[|a| - 1] == a[|a| - 1];
      assert m[|a| - 1 - j] == x;
    }
  }

  lemma {:induction false} NoneToReplace(s: string, p: string)
    requires p != "" && !Contains(s, p)
    ensures ReplaceAll(s, p) == s
  {
  }

  lemma {:induction false} ShortHasNone(s: string, p: string)
    requires |s| < |p|
    ensures ReplaceAll(s, p) == s
  {
  }

  lemma AroundMiddle(a: string, m: string, b: string, raw: string)
    requires raw == a + (m + b)
    ensures raw[..|a|] == a && raw[|a| + |m|..] == b
  {
  }

  lemma {:induction false} ReplaceFirst(s: string, p: string, a: string, b: string)
    requires p != "" && Index(s, p) == |a| && s[..|a|] == a && s[|a| + |p|..] == b && ReplaceAll(b, p) == b
    ensures ReplaceAll(s, p) == a + (STARS + b)
  {
  }

  lemma {:induction false} RunReplaced(a: string, b: string, x: char, m: string, raw: string)
    requires |m| > |a| && |m| > |b| && AllAre(m, x) && (a != "" ==> a[|a| - 1] != x) && raw == a + (m + b)
    ensures ReplaceAll(raw, m) == a + (STARS + b)
  {
    FirstRun(a, b, x, m);
    ShortHasNone(b, m);
    AroundMiddle(a, m, b, raw);
    ReplaceFirst(raw, m, a, b);
  }

  lemma StarsRestore(q: string, a: string, stars: string, b: string)
    requires Starred(q, a, stars, b)
    ensures Contains(a + (STARS + b), q)
  {
    var out := a + (STARS + b);
    var i := if stars == "*" && a == "" then 2 else 0;
    assert out[i..i + |q|] == q;
    assert OccursAt(out, q, i);
  }

  lemma {:induction false} RedactedByTwo(raw: string, q: string, x: string)
    requires Trimmed(q) && Trimmed(x) && |q| >= 8 && |x| >= 8
    ensures Redacted(raw, [q, x]) == ReplaceAll(ReplaceAll(raw, q), x)
  {
    TrimmedIsFixed(q);
    TrimmedIsFixed(x);
    assert [q, x][..1] == [q] && [q][..0] == [];
    assert Redacted(raw, [q]) == ReplaceAll(raw, q);
  }

  /** With a second secret around, an unsafe one is put together again: in place
      of its stars stands the other, which then becomes stars. */
  lemma {:induction false} UnsafeReturns(q: string) returns (raw: string, secrets: seq<string>)
    requires Trimmed(q) && |q| >= 8 && !StarSafe(q)
    ensures q in secrets && Contains(Redacted(raw, secrets), q)
  {
    var a, stars, b := UnsafeIsStarred(q);
    var m := Run(OtherLetter(a), |q|);
    raw, secrets := a + (m + b), [q, m];
    Disguised(q, a, stars, b, OtherLetter(a), m, raw);
    RedactedByTwo(raw, q, m);
    assert secrets[0] == q;
  }

  lemma {:induction false} Disguised(q: string, a: string, stars: string, b: string, x: char, m: string, raw: string)
    requires Starred(q, a, stars, b) && |m| == |q| && AllAre(m, x) && x != '*' && (a != "" ==> a[|a| - 1] != x)
    requires raw == a + (m + b)
    ensures Contains(ReplaceAll(ReplaceAll(raw, q), m), q)
  {
    NotInDisguise(q, a, stars, b, x, m);
    NoneToReplace(raw, q);
    RunReplaced(a, b, x, m, raw);
    StarsRestore(q, a, stars, b);
  }

  ghost predicate AlwaysGone(q: string) {
    forall raw, secrets :: q in secrets ==> !Contains(Redacted(raw, secrets), q)
  }

  /** A secret is gone from every output, whatever the text and the other secrets,
      exactly when it neither starts nor ends with a star nor holds three in a row. */
  lemma {:induction false} StarSafeExactly(q: string)
    requires Trimmed(q) && |q| >= 8
    ensures StarSafe(q) <==> AlwaysGone(q)
  {
    TrimmedIsFixed(q);
    if StarSafe(q) {
      forall raw, secrets | q in secrets ensures !Contains(Redacted(raw, secrets), q) {
        NoSecretLeft(raw, secrets);
        var k :| 0 <= k < |secrets| && secrets[k] == q;
      }
    } else {
      var text, others := UnsafeReturns(q);
      assert !AlwaysGone(q);
    }
  }

  /** A text in which no long enough secret occurs comes out as it went in. */
  lemma {:induction false} CleanTextIsKept(raw: string, secrets: seq<string>)
    requires forall k :: 0 <= k < |secrets| && LongEnough(secrets[k]) ==> !Contains(raw, TrimSpace(secrets[k]))
    ensures Redacted(raw, secrets) == raw
    decreases |secrets|
  {
    if secrets != [] {
      var front, last := secrets[..|secrets| - 1], secrets[|secrets| - 1];
      assert forall k :: 0 <= k < |front| ==> front[k] == secrets[k];
      CleanTextIsKept(raw, front);
      if LongEnough(last) {
        NoneToReplace(raw, TrimSpace(last));
      }
    }
  }

  /** Around the first occurrence of the only secret nothing changes but it. */
  lemma {:induction false} OnlyTheSecretGoes(a: string, secret: string, b: string)
    requires Trimmed(secret) && |secret| >= 8
    requires Index(a + (secret + b), secret) == |a| && !Contains(b, secret)
    ensures Redacted(a + (secret + b), [secret]) == a + (STARS + b)
  {
    var raw := a + (secret + b);
    TrimmedIsFixed(secret);
    assert [secret][..0] == [];
    AroundMiddle(a, secret, b, raw);
    NoneToReplace(b, secret);
    ReplaceFirst(raw, secret, a, b);
  }
}
