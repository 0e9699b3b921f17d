// The fenced summary in a pull request's description (pr_summary.go). The hash
// of the text outside the fence is a parameter: any non-empty string without
// white space or '<' for each text.
module PRSummary {
  import opened Text

  const START: string := "<!-- opa-summary:start -->"
  const END: string := "<!-- opa-summary:end -->"
  const HASH_PREFIX: string := "<!-- opa-summary:outside-hash:"
  const HASH_END: string := " -->"

  datatype Fence = Fence(outside: string, priorHash: string, hadFence: bool)

  /** splitPRBodyFence */
  function SplitBody(body: string): Fence {
    var start, end := Index(body, START), Index(body, END);
    if start < 0 || end < 0 || end < start then Fence(body, "", false)
    else
      var block := body[start..end + |END|];
      Fence(TrimSpace(body[..start] + body[end + |END|..]), HashIn(block), true)
  }

  /** The hash a fence carries, if any. */
  function HashIn(block: string): string {
    var i := Index(block, HASH_PREFIX);
    if i < 0 then ""
    else
      var rest := block[i + |HASH_PREFIX|..];
      var j := Index(rest, HASH_END);
      if j > 0 then TrimSpace(rest[..j]) else ""
  }

  /** splicePRBodyFence */
  function Splice(outside: string, fenced: string): string {
    var t := TrimSpace(outside);
    if t == "" then fenced else t + "\n\n" + fenced
  }

  /** The lines of a fence before the narrative, and after it. */
  function Opening(hash: string): string {
    START + "\n" + HASH_PREFIX + hash + " -->\n"
  }

  function Fenced(hash: string, inner: string): string {
    Opening(hash) + inner + "\n" + END
  }

  function Inner(narrative: string): string {
    if TrimSpace(narrative) == "" then "_OPA Review summary unavailable._" else TrimSpace(narrative)
  }

  /** hashOutsideBody */
  function HashOutside(hash: string -> string, s: string): string {
    hash(TrimSpace(s))
  }

  datatype Upsert = HumanEdit | Updated(body: string)

  /** upsertPRSummary: what happens to the body that was read. */
  function UpsertSummary(body: string, narrative: string, hash: string -> string): Upsert {
    var f := SplitBody(body);
    if f.hadFence && f.priorHash != "" && HashOutside(hash, f.outside) != f.priorHash then HumanEdit
    else Updated(Splice(f.outside, Fenced(HashOutside(hash, f.outside), Inner(narrative))))
  }

  // ----- Where the markers are -----

  ghost predicate IsHash(h: string) {
    h != "" && forall i :: 0 <= i < |h| ==> h[i] != '<' && !IsSpace(h[i])
  }

  ghost predicate Unmarked(s: string) {
    !Contains(s, START) && !Contains(s, END)
  }

  /** Only the first character of a marker is an angle bracket, and no marker
      has a line break. */
  lemma MarkerShape(m: string)
    requires m in [START, END, HASH_PREFIX]
    ensures |m| >= 24 && m[0] == '<' && forall k :: 0 < k < |m| ==> m[k] != '<' && m[k] != '\n'
  {
  }

  lemma MarkersDiffer()
    ensures START[17] == 's' && END[17] == 'e' && HASH_PREFIX[17] == 'o'
    ensures |START| == 26 && |END| == 24 && |HASH_PREFIX| == 30
  {
  }

  predicate Breaks(rest: string) {
    rest != "" && (rest[0] == '<' || rest[0] == '\n')
  }

  /** A marker does not reach over the start of another one or of a line. */
  lemma MarkerWithin(pre: string, rest: string, m: string)
    requires m in [START, END, HASH_PREFIX] && Breaks(rest)
    ensures forall i :: OccursAt(pre + rest, m, i) && i < |pre| ==> OccursAt(pre, m, i)
  {
    MarkerShape(m);
    var s := pre + rest;
    Spelled(s, m);
    forall i | OccursAt(s, m, i) && i < |pre| ensures OccursAt(pre, m, i) {
      var k := |pre| - i;
      assert s[i + k] == rest[0];
      assert i + |m| <= |pre|;
      assert pre[i..i + |m|] == s[i..i + |m|];
    }
  }

  /** The first marker of a kind that the text before does not contain. */
  lemma FirstAfter(pre: string, rest: string, m: string)
    requires m in [START, END, HASH_PREFIX] && Breaks(rest) && !Contains(pre, m)
    ensures Index(pre + rest, m) == if Index(rest, m) < 0 then -1 else |pre| + Index(rest, m)
  {
    MarkerWithin(pre, rest, m);
    OccursBehind(pre, rest, m);
    var i, j := Index(pre + rest, m), Index(rest, m);
    if i >= 0 {
      assert OccursAt(rest, m, i - |pre|);
    }
    if j >= 0 {
      assert OccursAt(pre + rest, m, |pre| + j);
    }
  }

  /** The lines between a fence's start and its narrative hold no end marker. */
  lemma OpeningHasNoEnd(hash: string)
    requires IsHash(hash)
    ensures !Contains(START + "\n", END) && !Contains(HASH_PREFIX + hash + " -->", END)
    ensures !Contains(START + "\n", HASH_PREFIX)
  {
    MarkersDiffer();
    LoneBracket(START, "\n", END);
    LoneBracket(START, "\n", HASH_PREFIX);
    LoneBracket(HASH_PREFIX, hash + " -->", END);
    assert HASH_PREFIX + (hash + " -->") == HASH_PREFIX + hash + " -->";
  }

  /** A text with one angle bracket, its first character, starts one marker only. */
  lemma LoneBracket(m: string, tail: string, other: string)
    requires m in [START, END, HASH_PREFIX] && other in [START, END, HASH_PREFIX] && m[17] != other[17]
    requires forall i :: 0 <= i < |tail| ==> tail[i] != '<'
    ensures !Contains(m + tail, other)
  {
    MarkerShape(m);
    MarkerShape(other);
    var s := m + tail;
    Spelled(s, other);
    forall i | 0 < i < |s| ensures s[i] != '<' {
      if i < |m| {
        assert s[i] == m[i];
      } else {
        assert s[i] == tail[i - |m|];
      }
    }
    forall i | OccursAt(s, other, i) ensures i == 0 && s[17] == other[17] {
      assert s[i + 0] == '<';
      assert s[i + 17] == other[17];
    }
    assert s[17] == m[17];
  }

  lemma FenceIs(hash: string, inner: string, post: string) returns (a: string, b: string, c: string, d: string)
    ensures a == START + "\n" && b == HASH_PREFIX + hash + " -->" && c == "\n" + inner && d == "\n" + (END + post)
    ensures Fenced(hash, inner) + post == a + (b + (c + d))
    ensures |Opening(hash)| + |inner| + 1 + |END| == |Fenced(hash, inner)|
    ensures |a| + |b| + |c| + 1 == |Opening(hash)| + |inner| + 1
  {
    a, b, c, d := START + "\n", HASH_PREFIX + hash + " -->", "\n" + inner, "\n" + (END + post);
    assert Opening(hash) == a + b + "\n";
    assert Fenced(hash, inner) + post == a + b + "\n" + inner + "\n" + END + post;
  }

  lemma NoEndAfterBreak(inner: string)
    requires !Contains(inner, END)
    ensures !Contains("\n" + inner, END)
  {
    MarkerShape(END);
    var s := "\n" + inner;
    Spelled(s, END);
    OccursBehind("\n", inner, END);
    forall i | OccursAt(s, END, i) ensures OccursAt(inner, END, i - 1) {
      assert s[i + 0] == '<';
      assert i != 0;
    }
  }

  lemma EndAtLast(post: string)
    ensures Index("\n" + (END + post), END) == 1
  {
    MarkerShape(END);
    var s := "\n" + (END + post);
    MarkerWithin("\n", END + post, END);
    assert s[1..1 + |END|] == END;
    assert OccursAt(s, END, 1);
  }

  /** The first end marker of a fence is its last line, if the narrative has none. */
  lemma EndOfFence(hash: string, inner: string, post: string)
    requires IsHash(hash) && !Contains(inner, END)
    ensures Index(Fenced(hash, inner) + post, END) == |Opening(hash)| + |inner| + 1
  {
    var a, b, c, d := FenceIs(hash, inner, post);
    OpeningHasNoEnd(hash);
    NoEndAfterBreak(inner);
    EndAtLast(post);
    FirstAfter(c, d, END);
    assert (c + d)[0] == '\n';
    FirstAfter(b, c + d, END);
    assert (b + (c + d))[0] == '<';
    FirstAfter(a, b + (c + d), END);
  }

  lemma HashLineAt(hash: string, tail: string)
    requires IsHash(hash)
    ensures Index(START + "\n" + (HASH_PREFIX + hash + " -->" + tail), HASH_PREFIX) == |START| + 1
  {
    var front, back := START + "\n", HASH_PREFIX + hash + " -->" + tail;
    OpeningHasNoEnd(hash);
    assert back[..|HASH_PREFIX|] == HASH_PREFIX && back[0] == '<';
    assert OccursAt(back, HASH_PREFIX, 0);
    FirstAfter(front, back, HASH_PREFIX);
  }

  lemma HashEndsAt(hash: string, tail: string)
    requires IsHash(hash)
    ensures var rest := hash + (HASH_END + tail); Index(rest, HASH_END) == |hash| && TrimSpace(rest[..|hash|]) == hash
  {
    var rest := hash + (HASH_END + tail);
    assert rest[|hash|..|hash| + 4] == HASH_END;
    assert OccursAt(rest, HASH_END, |hash|);
    Spelled(rest, HASH_END);
    assert forall i :: 0 <= i < |hash| ==> rest[i] == hash[i];
    forall i | OccursAt(rest, HASH_END, i) ensures i >= |hash| {
      assert rest[i + 0] == ' ';
    }
    TrimmedIsFixed(hash);
    assert rest[..|hash|] == hash;
  }

  /** The hash in a fence reads back. */
  lemma HashOfFence(hash: string, tail: string, block: string)
    requires IsHash(hash) && block == START + "\n" + (HASH_PREFIX + hash + " -->" + tail)
    ensures var i := Index(block, HASH_PREFIX);
            && i == |START| + 1
            && var rest := block[i + |HASH_PREFIX|..]; Index(rest, HASH_END) == |hash| && TrimSpace(rest[..|hash|]) == hash
  {
    HashLineAt(hash, tail);
    HashEndsAt(hash, tail);
    assert block[|START| + 1 + |HASH_PREFIX|..] == hash + (HASH_END + tail);
  }

  lemma FenceBounds(pre: string, hash: string, inner: string, post: string)
    requires IsHash(hash) && Unmarked(pre) && !Contains(inner, END)
    ensures Index(pre + (Fenced(hash, inner) + post), START) == |pre|
    ensures Index(pre + (Fenced(hash, inner) + post), END) + |END| == |pre| + |Fenced(hash, inner)|
  {
    var tail := Fenced(hash, inner) + post;
    var a, b, c, d := FenceIs(hash, inner, post);
    assert tail[..|START|] == START && tail[0] == '<';
    assert OccursAt(tail, START, 0);
    FirstAfter(pre, tail, START);
    EndOfFence(hash, inner, post);
    FirstAfter(pre, tail, END);
  }

  lemma FenceText(hash: string, inner: string)
    ensures Fenced(hash, inner) == START + "\n" + (HASH_PREFIX + hash + " -->" + ("\n" + inner + "\n" + END))
  {
  }

  lemma ThreeParts(pre: string, fence: string, post: string, body: string)
    requires body == pre + (fence + post)
    ensures body[..|pre|] == pre && body[|pre| + |fence|..] == post && body[|pre|..|pre| + |fence|] == fence
  {
  }

  lemma {:induction false} SplitAtBounds(pre: string, fence: string, post: string, body: string)
    requires body == pre + (fence + post)
    requires Index(body, START) == |pre| <= Index(body, END) && Index(body, END) + |END| == |pre| + |fence|
    ensures SplitBody(body) == Fence(TrimSpace(pre + post), HashIn(fence), true)
  {
    ThreeParts(pre, fence, post, body);
  }

  /** Splitting a body with a fence in it gives back the text around the fence
      and the hash in it, whenever no marker stands before the fence and no end
      marker in the narrative. */
  lemma SplitOfFenced(pre: string, hash: string, inner: string, post: string)
    requires IsHash(hash) && Unmarked(pre) && !Contains(inner, END)
    ensures SplitBody(pre + (Fenced(hash, inner) + post)) == Fence(TrimSpace(pre + post), hash, true)
  {
    FenceBounds(pre, hash, inner, post);
    SplitAtBounds(pre, Fenced(hash, inner), post, pre + (Fenced(hash, inner) + post));
    FenceText(hash, inner);
    HashOfFence(hash, "\n" + inner + "\n" + END, Fenced(hash, inner));
  }

  // ----- Upserts -----

  ghost predicate GoodHash(hash: string -> string) {
    forall s :: IsHash(hash(s))
  }

  lemma BlankInner(narrative: string)
    requires !Contains(TrimSpace(narrative), END)
    ensures !Contains(Inner(narrative), END)
  {
    var d := "_OPA Review summary unavailable._";
    BracketAt(d, END);
    assert forall i :: 0 <= i < |d| ==> d[i] != '<';
  }

  lemma BracketAt(s: string, m: string)
    requires m in [START, END, HASH_PREFIX]
    ensures forall i :: OccursAt(s, m, i) ==> i < |s| && s[i] == '<'
  {
    OccurrenceStarts(s, m);
  }

  /** What an upsert writes splits into the trimmed outside text and its hash:
      the next upsert finds no human edit and the same text outside. */
  lemma {:induction false} SpliceThenSplit(outside: string, narrative: string, hash: string -> string)
    requires GoodHash(hash) && Unmarked(TrimSpace(outside)) && !Contains(TrimSpace(narrative), END)
    ensures SplitBody(Splice(outside, Fenced(HashOutside(hash, outside), Inner(narrative)))) ==
            Fence(TrimSpace(outside), HashOutside(hash, outside), true)
  {
    var t, h, inner := TrimSpace(outside), HashOutside(hash, outside), Inner(narrative);
    BlankInner(narrative);
    TrimSpaceLaws(outside);
    var pre := if t == "" then "" else t + "\n\n";
    PadUnmarked(t);
    SplitOfFenced(pre, h, inner, "");
    assert Fenced(h, inner) + "" == Fenced(h, inner);
    assert Splice(outside, Fenced(h, inner)) == pre + (Fenced(h, inner) + "");
    assert pre + "" == pre;
    TrimPadding(t);
  }

  lemma PadUnmarked(t: string)
    requires Unmarked(t)
    ensures Unmarked(t + "\n\n") && Unmarked("")
  {
    MarkerShape(START);
    MarkerShape(END);
    MarkerWithin(t, "\n\n", START);
    MarkerWithin(t, "\n\n", END);
    OccursBehind(t, "\n\n", START);
    OccursBehind(t, "\n\n", END);
  }

  lemma TrimPadding(t: string)
    requires Trimmed(t)
    ensures TrimSpace(t) == t && (t != "" ==> TrimSpace(t + "\n\n") == t)
  {
    TrimmedIsFixed(t);
    if t != "" {
      var p := t + "\n\n";
      assert p[0] == t[0];
      assert p[..|p| - 1] == t + "\n" && (t + "\n")[..|t|] == t;
      assert TrimRight(p) == TrimRight(t + "\n") == TrimRight(t) == t;
    }
  }

  /** Trimming leaves an end marker at the end of a text in place. */
  lemma TrimKeepsLastMarker(x: string)
    requires HasSuffix(x, END)
    ensures Contains(TrimSpace(x), END)
  {
    MarkersDiffer();
    var k := TrimLeftIs(x);
    var at := |x| - |END|;
    assert x[at] == x[at..][0] == '<';
    assert x[|x| - 1] == x[at..][|END| - 1] == '>';
    assert k <= at;
    var left := TrimLeft(x);
    assert left[|left| - 1] == x[|x| - 1];
    assert TrimRight(left) == left;
    assert left[at - k..at - k + |END|] == x[at..];
    assert OccursAt(left, END, at - k);
  }

  /** The fence is opening + rest; an end marker in the narrative stands in rest. */
  lemma EarlyEndInFence(inner: string)
    requires Contains(inner, END)
    ensures var rest := inner + "\n" + END;
            0 <= Index(rest, END) && Index(rest, END) + |END| <= |inner|
    ensures HasSuffix(inner + "\n" + END, END)
  {
    var rest := inner + "\n" + END;
    var q :| OccursAt(inner, END, q);
    assert rest[q..q + |END|] == inner[q..q + |END|];
    assert OccursAt(rest, END, q);
  }

  lemma EarlyEnd(pre: string, hash: string, inner: string) returns (e: nat)
    requires Unmarked(pre) && Contains(inner, END)
    ensures var body := pre + Fenced(hash, inner);
            && Index(body, START) == |pre| <= e == Index(body, END)
            && e + |END| <= |body| - |END|
  {
    var fence, open := Fenced(hash, inner), Opening(hash);
    EarlyEndInFence(inner);
    FirstAfter(pre, fence, START);
    OccursBehind(open, inner + "\n" + END, END);
    assert fence == open + (inner + "\n" + END);
    assert OccursAt(fence, END, |open| + Index(inner + "\n" + END, END));
    FirstAfter(pre, fence, END);
    e := Index(pre + fence, END);
  }

  lemma SuffixOfTail(b: string, m: string, from: nat)
    requires HasSuffix(b, m) && from + |m| <= |b|
    ensures HasSuffix(b[from..], m)
  {
    assert b[from..][|b| - from - |m|..] == b[|b| - |m|..];
  }

  lemma SuffixOfConcat(a: string, b: string, m: string)
    requires HasSuffix(b, m)
    ensures HasSuffix(a + b, m)
  {
    assert (a + b)[|a + b| - |m|..] == b[|b| - |m|..];
  }

  lemma {:induction false} LeakedText(body: string, start: nat, e: nat)
    requires HasSuffix(body, END) && start <= e && e + |END| <= |body| - |END|
    requires Index(body, START) == start && Index(body, END) == e
    ensures Contains(SplitBody(body).outside, END)
  {
    SuffixOfTail(body, END, e + |END|);
    SuffixOfConcat(body[..start], body[e + |END|..], END);
    TrimKeepsLastMarker(body[..start] + body[e + |END|..]);
    OutsideIs(body, start, e, body[..start] + body[e + |END|..]);
  }

  lemma {:induction false} OutsideIs(body: string, start: nat, e: nat, around: string)
    requires Index(body, START) == start <= e == Index(body, END) && e + |END| <= |body|
    requires around == body[..start] + body[e + |END|..]
    ensures SplitBody(body).outside == TrimSpace(around)
  {
  }

  /** With an end marker in the narrative, text of the fence leaks out. */
  lemma {:induction false} EndMarkerLeaks(outside: string, hash: string, inner: string)
    requires Unmarked(TrimSpace(outside)) && Contains(inner, END)
    ensures SplitBody(Splice(outside, Fenced(hash, inner))).outside != TrimSpace(outside)
  {
    var t := TrimSpace(outside);
    var pre := Padded(t);
    PadUnmarked(t);
    FenceLeaks(pre, hash, inner);
    SpliceIs(outside, Fenced(hash, inner));
  }

  function Padded(t: string): string {
    if t == "" then "" else t + "\n\n"
  }

  lemma FenceLeaks(pre: string, hash: string, inner: string)
    requires Unmarked(pre) && Contains(inner, END)
    ensures Contains(SplitBody(pre + Fenced(hash, inner)).outside, END)
  {
    var e := EarlyEnd(pre, hash, inner);
    LeakedText(pre + Fenced(hash, inner), |pre|, e);
  }

  lemma SpliceIs(outside: string, fenced: string)
    ensures Splice(outside, fenced) == Padded(TrimSpace(outside)) + fenced
  {
    assert "" + fenced == fenced;
  }

  // A text outside that holds a lone marker.

  /** A marker in a text stays the first of its kind when a line or a fence follows. */
  lemma FirstStays(t: string, rest: string, m: string)
    requires m in [START, END, HASH_PREFIX] && Breaks(rest) && Contains(t, m)
    ensures Index(t + rest, m) == Index(t, m) && 0 <= Index(t, m) < |t|
  {
    MarkerWithin(t, rest, m);
    MarkerShape(m);
    var j :| OccursAt(t, m, j);
    var i := Index(t, m);
    assert (t + rest)[i..i + |m|] == t[i..i + |m|];
    assert OccursAt(t + rest, m, i);
  }

  /** An end marker with no start marker before it. */
  ghost predicate EndsEarly(s: string) {
    Contains(s, END) && (Contains(s, START) ==> Index(s, END) < Index(s, START))
  }

  lemma SpliceMarked(outside: string, fenced: string)
    requires !Unmarked(TrimSpace(outside))
    ensures TrimSpace(outside) != "" && Splice(outside, fenced) == TrimSpace(outside) + ("\n\n" + fenced)
  {
    if TrimSpace(outside) == "" {
      MarkerShape(START);
      MarkerShape(END);
    }
  }

  /** After an early end marker no fence is ever found: the whole body counts as
      outside, and the next upsert adds another fence to it. */
  lemma EarlyEndHidesFence(t: string, rest: string)
    requires EndsEarly(t) && Breaks(rest)
    ensures EndsEarly(t + rest) && SplitBody(t + rest) == Fence(t + rest, "", false)
  {
    FirstStays(t, rest, END);
    var i := Index(t, END);
    assert OccursAt(t + rest, END, i);
    if Contains(t, START) {
      FirstStays(t, rest, START);
    } else {
      FirstAfter(t, rest, START);
    }
    if Contains(t + rest, START) {
      var j :| OccursAt(t + rest, START, j);
    }
  }

  /** A lone start marker takes everything behind it for the fence's. */
  lemma {:induction false} LoneStartSwallows(t: string, hash: string, inner: string)
    requires Contains(t, START) && !Contains(t, END) && IsHash(hash)
    ensures SplitBody(t + ("\n\n" + Fenced(hash, inner))).outside != t
  {
    var fence := Fenced(hash, inner);
    var rest := "\n\n" + fence;
    var body := t + rest;
    FirstStays(t, rest, START);
    FirstAfter(t, rest, END);
    FenceEnds(hash, inner);
    FenceBehind(fence);
    SuffixOfConcat("\n\n", fence, END);
    SuffixOfConcat(t, rest, END);
    Swallowed(t, body, Index(t, START), Index(body, END));
  }

  lemma {:induction false} Swallowed(t: string, body: string, start: nat, e: nat)
    requires Index(body, START) == start < |t| <= e == Index(body, END) && HasSuffix(body, END) && !Contains(t, END)
    ensures SplitBody(body).outside != t
  {
    if e + |END| == |body| {
      TrimShorter(body[..start] + body[e + |END|..]);
    } else {
      SuffixAway(body, e);
      LeakedText(body, start, e);
    }
  }

  lemma TrimShorter(s: string)
    ensures |TrimSpace(s)| <= |s|
  {
    var k := TrimLeftIs(s);
    TrimRightIs(TrimLeft(s));
  }

  lemma FenceEnds(hash: string, inner: string)
    ensures HasSuffix(Fenced(hash, inner), END) && |Fenced(hash, inner)| >= |END|
  {
    var fence := Fenced(hash, inner);
    assert fence[|fence| - |END|..] == END;
  }

  lemma FenceBehind(fence: string)
    requires HasSuffix(fence, END) && |fence| >= |END|
    ensures Index("\n\n" + fence, END) >= 0
  {
    var s := "\n\n" + fence;
    assert s[2..] == fence;
    assert s[|s| - |END|..|s|] == fence[|fence| - |END|..] == END;
    assert OccursAt(s, END, |s| - |END|);
  }

  /** Two end markers do not overlap. */
  lemma SuffixAway(body: string, e: nat)
    requires HasSuffix(body, END) && OccursAt(body, END, e) && e + |END| != |body|
    ensures e + |END| <= |body| - |END|
  {
    MarkerShape(END);
    Spelled(body, END);
    forall at | e < at < e + |END| && at + |END| <= |body| ensures !OccursAt(body, END, at) {
      assert body[e + (at - e)] == END[at - e] != '<';
      assert body[at..at + |END|][0] == body[at];
    }
    assert OccursAt(body, END, |body| - |END|);
  }

  lemma {:induction false} LoneMarkerFails(outside: string, hash: string, inner: string)
    requires !SplitBody(TrimSpace(outside)).hadFence && !Unmarked(TrimSpace(outside)) && IsHash(hash)
    ensures SplitBody(Splice(outside, Fenced(hash, inner))).outside != TrimSpace(outside)
  {
    var t := TrimSpace(outside);
    SpliceMarked(outside, Fenced(hash, inner));
    if Contains(t, END) {
      assert Index(t, END) >= 0;
      EarlyEndHidesFence(t, "\n\n" + Fenced(hash, inner));
    } else {
      LoneStartSwallows(t, hash, inner);
    }
  }

  /** For a text outside without a complete fence of its own: it survives a write
      and the next split exactly when it holds no lone marker either and the
      narrative holds no end marker. */
  lemma OutsideSurvivesExactly(outside: string, narrative: string, hash: string -> string)
    requires GoodHash(hash) && !SplitBody(TrimSpace(outside)).hadFence
    ensures SplitBody(Splice(outside, Fenced(HashOutside(hash, outside), Inner(narrative)))).outside == TrimSpace(outside)
            <==> Unmarked(TrimSpace(outside)) && !Contains(TrimSpace(narrative), END)
  {
    if !Unmarked(TrimSpace(outside)) {
      LoneMarkerFails(outside, HashOutside(hash, outside), Inner(narrative));
    } else if Contains(TrimSpace(narrative), END) {
      assert TrimSpace(narrative) != "";
      EndMarkerLeaks(outside, HashOutside(hash, outside), Inner(narrative));
    } else {
      SpliceThenSplit(outside, narrative, hash);
    }
  }

  /** With an early end marker outside, every upsert adds one more fence. */
  lemma {:induction false} EarlyEndPilesUp(body: string, narrative: string, hash: string -> string)
    requires Current(body, hash) && EndsEarly(TrimSpace(SplitBody(body).outside))
    ensures var u := UpsertSummary(body, narrative, hash);
            var t := TrimSpace(SplitBody(body).outside);
            && u.Updated? && u.body == t + ("\n\n" + Fenced(HashOutside(hash, t), Inner(narrative)))
            && SplitBody(u.body) == Fence(u.body, "", false) && Current(u.body, hash)
            && TrimSpace(u.body) == u.body && EndsEarly(u.body)
  {
    var outside := SplitBody(body).outside;
    var t := TrimSpace(outside);
    TrimSpaceLaws(outside);
    var fence := Fenced(HashOutside(hash, t), Inner(narrative));
    SpliceMarked(outside, fence);
    EarlyEndHidesFence(t, "\n\n" + fence);
    FenceEnds(HashOutside(hash, t), Inner(narrative));
    WholeIsTrimmed(t, fence);
  }

  lemma WholeIsTrimmed(t: string, fence: string)
    requires t != "" && Trimmed(t) && HasSuffix(fence, END) && |fence| >= |END|
    ensures TrimSpace(t + ("\n\n" + fence)) == t + ("\n\n" + fence)
  {
    var b := t + ("\n\n" + fence);
    MarkersDiffer();
    assert b[0] == t[0];
    assert b[|b| - 1] == fence[|fence| - 1] == fence[|fence| - |END|..][|END| - 1] == '>';
    TrimmedIsFixed(b);
  }

  /** One step of a run: a narrative is upserted into the body as it stands. */
  function RunUpserts(body: string, narratives: seq<string>, hash: string -> string): Upsert {
    if narratives == [] then Updated(body)
    else
      match RunUpserts(body, narratives[..|narratives| - 1], hash)
      case HumanEdit => HumanEdit
      case Updated(b) => UpsertSummary(b, narratives[|narratives| - 1], hash)
  }

  /** A body the tool may write to: no fence with another hash. */
  predicate Current(body: string, hash: string -> string) {
    var f := SplitBody(body);
    f.hadFence && f.priorHash != "" ==> HashOutside(hash, f.outside) == f.priorHash
  }

  /** Any number of upserts keeps the text outside the fence as it was, trimmed,
      and never mistakes the tool's own output for a human edit. */
  lemma {:induction false} UpsertsKeepOutside(body: string, narratives: seq<string>, hash: string -> string)
    requires GoodHash(hash) && Current(body, hash) && Unmarked(TrimSpace(SplitBody(body).outside)) && narratives != []
    requires forall i :: 0 <= i < |narratives| ==> !Contains(TrimSpace(narratives[i]), END)
    ensures var u := RunUpserts(body, narratives, hash);
            && u.Updated? && Current(u.body, hash)
            && SplitBody(u.body) == Fence(TrimSpace(SplitBody(body).outside), HashOutside(hash, SplitBody(body).outside), true)
    decreases |narratives|
  {
    var front, n := narratives[..|narratives| - 1], narratives[|narratives| - 1];
    var outside := SplitBody(body).outside;
    TrimSpaceLaws(outside);
    SpliceThenSplit(outside, n, hash);
    if front == [] {
      assert RunUpserts(body, front, hash) == Updated(body);
    } else {
      UpsertsKeepOutside(body, front, hash);
      SpliceThenSplit(TrimSpace(outside), n, hash);
    }
  }

  /** After a human edit around the fence, the upsert refuses exactly when the
      hash of the trimmed text outside has changed. */
  lemma {:induction false} RefusesEditsExactly(pre: string, written: string, inner: string, post: string, narrative: string, hash: string -> string)
    requires GoodHash(hash) && Unmarked(pre) && !Contains(inner, END)
    ensures UpsertSummary(pre + (Fenced(HashOutside(hash, written), inner) + post), narrative, hash).HumanEdit? <==>
            HashOutside(hash, pre + post) != HashOutside(hash, written)
  {
    SplitOfFenced(pre, HashOutside(hash, written), inner, post);
    TrimSpaceLaws(pre + post);
  }

  /** What an upsert writes: the text outside, then a fence that shows the narrative
      and carries the hash of that text. */
  lemma {:induction false} UpsertShowsNarrative(body: string, narrative: string, hash: string -> string)
    requires Current(body, hash)
    ensures var u, t := UpsertSummary(body, narrative, hash), TrimSpace(SplitBody(body).outside);
            && u.Updated?
            && u.body == (if t == "" then "" else t + "\n\n") +
                         (START + "\n" + HASH_PREFIX + hash(t) + " -->\n"
                          + (if TrimSpace(narrative) == "" then "_OPA Review summary unavailable._" else TrimSpace(narrative))
                          + "\n" + END)
  {
    var t := TrimSpace(SplitBody(body).outside);
    SpliceIs(SplitBody(body).outside, Fenced(hash(t), Inner(narrative)));
  }
}
