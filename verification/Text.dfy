// Optional values and the string operations the Go standard library supplies.
// Strings are sequences of characters; letter case is folded for ASCII only.
module Text {

  datatype Option<+T> = None | Some(value: T)

  lemma TakeSnoc<T>(s: seq<T>, i: nat)
    requires i < |s|
    ensures s[..i + 1] == s[..i] + [s[i]]
  {
  }

  lemma TakeAll<T>(s: seq<T>)
    ensures s[..|s|] == s
  {
  }

  lemma FrontAndLast<T>(s: seq<T>)
    requires s != []
    ensures s == s[..|s| - 1] + [s[|s| - 1]]
  {
  }

  /** Unicode's White_Space characters, as unicode.IsSpace has them. */
  predicate IsSpace(c: char) {
    || '\t' <= c <= '\r' || c == ' ' || c == '\U{0085}' || c == '\U{00A0}' || c == '\U{1680}'
    || '\U{2000}' <= c <= '\U{200A}' || c == '\U{2028}' || c == '\U{2029}' || c == '\U{202F}'
    || c == '\U{205F}' || c == '\U{3000}'
  }

  predicate Trimmed(s: string) {
    s == "" || (!IsSpace(s[0]) && !IsSpace(s[|s| - 1]))
  }

  function TrimLeft(s: string): string {
    if s != "" && IsSpace(s[0]) then TrimLeft(s[1..]) else s
  }

  function TrimRight(s: string): string {
    if s != "" && IsSpace(s[|s| - 1]) then TrimRight(s[..|s| - 1]) else s
  }

  function TrimSpace(s: string): string {
    TrimRight(TrimLeft(s))
  }

  lemma {:induction false} TrimLeftIs(s: string) returns (k: nat)
    ensures k <= |s| && TrimLeft(s) == s[k..]
    ensures forall i :: 0 <= i < k ==> IsSpace(s[i])
    ensures k < |s| ==> !IsSpace(s[k])
    decreases |s|
  {
    if s != "" && IsSpace(s[0]) {
      var j := TrimLeftIs(s[1..]);
      k := j + 1;
      assert s[1..][j..] == s[k..];
      assert forall i :: 0 < i < k ==> s[i] == s[1..][i - 1];
    } else {
      k := 0;
      assert s[0..] == s;
    }
  }

  lemma {:induction false} TrimRightIs(s: string)
    ensures TrimRight(s) != "" ==> !IsSpace(TrimRight(s)[|TrimRight(s)| - 1])
    ensures TrimRight(s) <= s
    ensures forall i :: |TrimRight(s)| <= i < |s| ==> IsSpace(s[i])
    decreases |s|
  {
    if s != "" && IsSpace(s[|s| - 1]) {
      TrimRightIs(s[..|s| - 1]);
    }
  }

  lemma TrimmedIsFixed(s: string)
    requires Trimmed(s)
    ensures TrimSpace(s) == s
  {
  }

  /** Trimming takes white space off both ends and nothing else. */
  lemma TrimSpaceLaws(s: string)
    ensures Trimmed(TrimSpace(s))
    ensures Trimmed(s) ==> TrimSpace(s) == s
    ensures TrimSpace(TrimSpace(s)) == TrimSpace(s)
  {
    var k := TrimLeftIs(s);
    TrimRightIs(TrimLeft(s));
    var t := TrimSpace(s);
    assert t != "" ==> t[0] == TrimLeft(s)[0] == s[k];
    TrimmedIsFixed(t);
    if Trimmed(s) {
      TrimmedIsFixed(s);
    }
  }

  function LowerChar(c: char): char {
    if 'A' <= c <= 'Z' then c + ' ' else c
  }

  function ToLower(s: string): (r: string)
    ensures |r| == |s| && forall i :: 0 <= i < |s| ==> r[i] == LowerChar(s[i])
  {
    seq(|s|, i requires 0 <= i < |s| => LowerChar(s[i]))
  }

  predicate EqualFold(a: string, b: string) {
    ToLower(a) == ToLower(b)
  }

  predicate HasPrefix(s: string, p: string) {
    p <= s
  }

  predicate HasSuffix(s: string, p: string) {
    |p| <= |s| && s[|s| - |p|..] == p
  }

  function TrimPrefix(s: string, p: string): string {
    if p <= s then s[|p|..] else s
  }

  predicate OccursAt<T(==)>(s: seq<T>, p: seq<T>, i: int) {
    0 <= i && i + |p| <= |s| && s[i..i + |p|] == p
  }

  /** An occurrence spells the pattern out. */
  lemma Spelled<T>(s: seq<T>, p: seq<T>)
    ensures forall i, k :: OccursAt(s, p, i) && 0 <= k < |p| ==> s[i + k] == p[k]
  {
    forall i, k | OccursAt(s, p, i) && 0 <= k < |p| ensures s[i + k] == p[k] {
      assert s[i..i + |p|][k] == p[k];
    }
  }

  lemma OccurrenceStarts<T>(s: seq<T>, p: seq<T>)
    requires p != []
    ensures forall i :: OccursAt(s, p, i) ==> i < |s| && s[i] == p[0]
  {
    forall i | OccursAt(s, p, i) ensures s[i] == p[0] {
      assert s[i..i + |p|][0] == p[0];
    }
  }

  ghost predicate Contains<T>(s: seq<T>, p: seq<T>) {
    exists i :: OccursAt(s, p, i)
  }

  lemma OccursBehind<T>(a: seq<T>, b: seq<T>, m: seq<T>)
    ensures forall i :: i >= |a| ==> (OccursAt(a + b, m, i) <==> OccursAt(b, m, i - |a|))
  {
    forall i | i >= |a| ensures OccursAt(a + b, m, i) <==> OccursAt(b, m, i - |a|) {
      if i + |m| <= |a + b| {
        assert (a + b)[i..i + |m|] == b[i - |a|..i - |a| + |m|];
      }
    }
  }

  /** strings.Index: the first occurrence, or -1. */
  function IndexFrom<T(==)>(s: seq<T>, p: seq<T>, from: nat): (r: int)
    requires from <= |s|
    ensures r == -1 || (from <= r && OccursAt(s, p, r))
    ensures forall i :: from <= i && OccursAt(s, p, i) ==> 0 <= r <= i
    decreases |s| - from
  {
    if OccursAt(s, p, from) then from
    else if from == |s| then -1
    else IndexFrom(s, p, from + 1)
  }

  function Index<T(==)>(s: seq<T>, p: seq<T>): (r: int)
    ensures r == -1 || OccursAt(s, p, r)
    ensures forall i :: OccursAt(s, p, i) ==> 0 <= r <= i
  {
    IndexFrom(s, p, 0)
  }
}
