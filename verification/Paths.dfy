// Slash-separated paths, as filepath.Base and filepath.Clean treat them.
module Paths {
  import opened Text
  import opened TextLines

  function LastSlash(s: string): (r: int)
    ensures -1 <= r < |s|
  {
    if s == "" then -1 else if s[|s| - 1] == '/' then |s| - 1 else LastSlash(s[..|s| - 1])
  }

  function TrimSlashes(s: string): string {
    if s != "" && s[|s| - 1] == '/' then TrimSlashes(s[..|s| - 1]) else s
  }

  /** filepath.Base */
  function Base(path: string): string {
    if path == "" then "."
    else
      var s := TrimSlashes(path);
      if s == "" then "/" else s[LastSlash(s) + 1..]
  }

  // ----- filepath.Clean -----

  function Step(acc: seq<string>, part: string, rooted: bool): seq<string> {
    if part == "" || part == "." then acc
    else if part != ".." then acc + [part]
    else if acc != [] && acc[|acc| - 1] != ".." then acc[..|acc| - 1]
    else if rooted then acc
    else acc + [part]
  }

  function Resolve(parts: seq<string>, rooted: bool): seq<string> {
    if parts == [] then [] else Step(Resolve(parts[..|parts| - 1], rooted), parts[|parts| - 1], rooted)
  }

  function Join(parts: seq<string>): string {
    if parts == [] then ""
    else if |parts| == 1 then parts[0]
    else parts[0] + ['/'] + Join(parts[1..])
  }

  predicate IsAbs(path: string) {
    path != "" && path[0] == '/'
  }

  function Clean(path: string): string {
    var parts := Resolve(Split(path, '/'), IsAbs(path));
    if IsAbs(path) then ['/'] + Join(parts)
    else if parts == [] then "."
    else Join(parts)
  }

  /** A path that leaves the directory it is relative to. */
  predicate Escapes(cleaned: string) {
    IsAbs(cleaned) || cleaned == ".." || HasPrefix(cleaned, "../")
  }

  // ----- Clean is a projection -----

  ghost predicate NormalForm(ps: seq<string>, rooted: bool) {
    forall i :: 0 <= i < |ps| ==>
      && ps[i] != "" && ps[i] != "." && '/' !in ps[i]
      && (ps[i] == ".." ==> !rooted && forall j :: 0 <= j < i ==> ps[j] == "..")
  }

  lemma {:induction false} ResolvesToNormalForm(parts: seq<string>, rooted: bool)
    requires forall i :: 0 <= i < |parts| ==> '/' !in parts[i]
    ensures NormalForm(Resolve(parts, rooted), rooted)
    decreases |parts|
  {
    if parts != [] {
      ResolvesToNormalForm(parts[..|parts| - 1], rooted);
    }
  }

  lemma {:induction false} NormalFormIsResolved(ps: seq<string>, rooted: bool)
    requires NormalForm(ps, rooted)
    ensures Resolve(ps, rooted) == ps
    decreases |ps|
  {
    if ps != [] {
      NormalFormIsResolved(ps[..|ps| - 1], rooted);
    }
  }

  lemma {:induction false} LeadingEmptyPart(ps: seq<string>, rooted: bool)
    ensures Resolve([""] + ps, rooted) == Resolve(ps, rooted)
    decreases |ps|
  {
    if ps == [] {
      assert ([""] + ps)[..0] == [];
    } else {
      LeadingEmptyPart(ps[..|ps| - 1], rooted);
      assert ([""] + ps)[..|ps|] == [""] + ps[..|ps| - 1];
    }
  }

  lemma {:induction false} SplitOfJoin(ps: seq<string>)
    requires ps != [] && forall i :: 0 <= i < |ps| ==> '/' !in ps[i]
    ensures Split(Join(ps), '/') == ps
    decreases |ps|
  {
    SplitOfOnePart(ps[0], '/');
    if |ps| > 1 {
      SplitOfJoin(ps[1..]);
      SplitAt(ps[0], '/', Join(ps[1..]));
    }
  }

  lemma SplitThree(a: string, b: string, c: string)
    requires '/' !in a && '/' !in b && '/' !in c
    ensures Split(a + ['/'] + (b + ['/'] + c), '/') == [a, b, c]
  {
    SplitOfOnePart(a, '/');
    SplitOfOnePart(b, '/');
    SplitOfOnePart(c, '/');
    SplitAt(a, '/', b + ['/'] + c);
    SplitAt(b, '/', c);
  }

  lemma ResolveSnoc(parts: seq<string>, p: string, rooted: bool)
    ensures Resolve(parts + [p], rooted) == Step(Resolve(parts, rooted), p, rooted)
  {
    assert (parts + [p])[..|parts|] == parts;
  }

  lemma ResolveThree(a: string, b: string)
    requires a != "" && a != "." && a != ".." && b != "" && b != "." && b != ".."
    ensures Resolve([a, "..", b], false) == [b]
  {
    ResolveSnoc([], a, false);
    ResolveSnoc([] + [a], "..", false);
    ResolveSnoc([] + [a] + [".."], b, false);
    assert [] + [a] + [".."] + [b] == [a, "..", b];
  }

  lemma CleanedIsFixed(ps: seq<string>, rooted: bool)
    requires NormalForm(ps, rooted)
    ensures rooted ==> Clean(['/'] + Join(ps)) == ['/'] + Join(ps)
    ensures !rooted && ps != [] ==> Clean(Join(ps)) == Join(ps)
  {
    NormalFormIsResolved(ps, rooted);
    if ps == [] {
      CleanSlash();
    } else {
      SplitOfJoin(ps);
      SlashFirst(Join(ps));
      LeadingEmptyPart(ps, rooted);
    }
  }

  lemma SlashFirst(s: string)
    ensures Split(['/'] + s, '/') == [""] + Split(s, '/')
  {
    SplitAt("", '/', s);
    assert "" + ['/'] + s == ['/'] + s;
  }

  lemma CleanSlash()
    ensures Clean(['/'] + Join([])) == ['/'] + Join([])
  {
    SlashFirst("");
    LeadingEmptyPart([""], true);
    LeadingEmptyPart([], true);
    assert [""] + [] == [""] && ['/'] + "" == ['/'];
  }

  /** Cleaning a path twice is cleaning it once. */
  lemma CleanTwice(path: string)
    ensures Clean(Clean(path)) == Clean(path)
  {
    SplitDraws(path, '/');
    var parts := Split(path, '/');
    forall i | 0 <= i < |parts| ensures '/' !in parts[i] {
      assert DrawnFrom(parts[i], path, '/');
    }
    var ps := Resolve(parts, IsAbs(path));
    ResolvesToNormalForm(parts, IsAbs(path));
    if !IsAbs(path) && ps == [] {
      CleanDot();
    } else {
      CleanedIsFixed(ps, IsAbs(path));
    }
  }

  lemma CleanDot()
    ensures Clean(".") == "."
  {
    SplitOfOnePart(".", '/');
    assert ["."][..0] == [];
  }

  // ----- Clean never lengthens a path -----

  function Size(parts: seq<string>): nat {
    if parts == [] then 0 else Size(parts[..|parts| - 1]) + |parts[|parts| - 1]| + 1
  }

  lemma {:induction false} SizeConcat(a: seq<string>, b: seq<string>)
    ensures Size(a + b) == Size(a) + Size(b)
    decreases |b|
  {
    if b == [] {
      assert a + b == a;
    } else {
      SizeConcat(a, b[..|b| - 1]);
      assert (a + b)[..|a + b| - 1] == a + b[..|b| - 1];
    }
  }

  lemma {:induction false} SizeOfSplit(s: string, sep: char)
    ensures Size(Split(s, sep)) == |s| + 1
    decreases |s|
  {
    if s == "" {
    } else {
      SizeOfSplit(s[1..], sep);
      var r := Split(s[1..], sep);
      if s[0] == sep {
        SizeConcat([""], r);
      } else {
        SizeConcat([r[0]], r[1..]);
        SizeConcat([[s[0]] + r[0]], r[1..]);
        assert [r[0]] + r[1..] == r;
      }
    }
  }

  lemma {:induction false} ResolveShrinks(parts: seq<string>, rooted: bool)
    ensures Size(Resolve(parts, rooted)) <= Size(parts)
    decreases |parts|
  {
    if parts != [] {
      var acc, p := Resolve(parts[..|parts| - 1], rooted), parts[|parts| - 1];
      ResolveShrinks(parts[..|parts| - 1], rooted);
      SizeConcat(acc, [p]);
    }
  }

  lemma {:induction false} SizeOfJoin(ps: seq<string>)
    requires ps != []
    ensures |Join(ps)| + 1 == Size(ps)
    decreases |ps|
  {
    if |ps| == 1 {
      assert ps == [ps[0]];
    } else {
      SizeOfJoin(ps[1..]);
      SizeConcat([ps[0]], ps[1..]);
      assert [ps[0]] + ps[1..] == ps;
    }
  }

  lemma CleanIsNoLonger(path: string)
    requires path != ""
    ensures 0 < |Clean(path)| <= |path|
  {
    var parts := Split(path, '/');
    var ps := Resolve(parts, IsAbs(path));
    SplitDraws(path, '/');
    forall i | 0 <= i < |parts| ensures '/' !in parts[i] {
      assert DrawnFrom(parts[i], path, '/');
    }
    ResolvesToNormalForm(parts, IsAbs(path));
    SizeOfSplit(path, '/');
    if IsAbs(path) {
      var rest := Split(path[1..], '/');
      assert parts == [""] + rest;
      LeadingEmptyPart(rest, true);
      SizeOfSplit(path[1..], '/');
      ResolveShrinks(rest, true);
    } else {
      ResolveShrinks(parts, false);
    }
    if ps != [] {
      SizeOfJoin(ps);
    }
  }

  /** Cleaning what is left of a cleaned path after trimming gives the cleaned
      path back only if there was nothing to trim. */
  lemma CleanTrimmed(cleaned: string)
    requires cleaned != "" && Clean(cleaned) == cleaned
    ensures TrimSpace(cleaned) != "" && Clean(TrimSpace(cleaned)) == cleaned <==> Trimmed(cleaned)
  {
    var k := TrimLeftIs(cleaned);
    TrimRightIs(TrimLeft(cleaned));
    TrimSpaceLaws(cleaned);
    if Trimmed(cleaned) {
      TrimmedIsFixed(cleaned);
    } else if TrimSpace(cleaned) != "" {
      CleanIsNoLonger(TrimSpace(cleaned));
      assert |TrimSpace(cleaned)| <= |cleaned|;
      assert |TrimSpace(cleaned)| == |cleaned| ==> TrimSpace(cleaned) == cleaned;
    }
  }

  // ----- Clean keeps the meaning -----

  /** A place: how many directories above the start, then which names below. */
  datatype Place = Place(ups: nat, names: seq<string>)

  /** Going one segment further; above the root there is only the root. */
  function Go(at: Place, part: string, rooted: bool): Place {
    if part in {"", "."} then at
    else if part != ".." then at.(names := at.names + [part])
    else if at.names != [] then at.(names := at.names[..|at.names| - 1])
    else if rooted then at
    else at.(ups := at.ups + 1)
  }

  /** Where a path leads, segment by segment. */
  function Walk(parts: seq<string>, rooted: bool): Place {
    if parts == [] then Place(0, []) else Go(Walk(parts[..|parts| - 1], rooted), parts[|parts| - 1], rooted)
  }

  function Dots(n: nat): seq<string> {
    seq(n, _ => "..")
  }

  ghost predicate NoDots(names: seq<string>) {
    forall i :: 0 <= i < |names| ==> names[i] !in {"", ".", ".."}
  }

  lemma {:induction false} GoIsStep(at: Place, acc: seq<string>, part: string, rooted: bool)
    requires acc == Dots(at.ups) + at.names && NoDots(at.names) && (rooted ==> at.ups == 0)
    ensures var next := Go(at, part, rooted);
            Step(acc, part, rooted) == Dots(next.ups) + next.names && NoDots(next.names) && (rooted ==> next.ups == 0)
  {
    if at.names == [] {
      assert acc == Dots(at.ups);
      assert Dots(at.ups) + [".."] == Dots(at.ups + 1) + [];
    } else {
      assert acc[|acc| - 1] == at.names[|at.names| - 1];
    }
  }

  lemma {:induction false} WalkIsResolved(parts: seq<string>, rooted: bool)
    ensures var at := Walk(parts, rooted);
            Resolve(parts, rooted) == Dots(at.ups) + at.names && NoDots(at.names) && (rooted ==> at.ups == 0)
    decreases |parts|
  {
    if parts != [] {
      var front := parts[..|parts| - 1];
      WalkIsResolved(front, rooted);
      GoIsStep(Walk(front, rooted), Resolve(front, rooted), parts[|parts| - 1], rooted);
    }
  }

  lemma {:induction false} WalkOfDots(ups: nat)
    ensures Walk(Dots(ups), false) == Place(ups, [])
  {
    if ups > 0 {
      WalkOfDots(ups - 1);
      assert Dots(ups)[..ups - 1] == Dots(ups - 1);
    }
  }

  lemma {:induction false} WalkOfPlace(ups: nat, names: seq<string>, rooted: bool)
    requires NoDots(names) && (rooted ==> ups == 0)
    ensures Walk(Dots(ups) + names, rooted) == Place(ups, names)
    decreases |names|
  {
    var parts := Dots(ups) + names;
    if names == [] {
      assert parts == Dots(ups);
      WalkOfDots(ups);
    } else {
      var front := names[..|names| - 1];
      WalkOfPlace(ups, front, rooted);
      assert parts[..|parts| - 1] == Dots(ups) + front;
      assert Go(Place(ups, front), parts[|parts| - 1], rooted).names == names;
    }
  }

  /** A cleaned path leads to the same place as the path. */
  lemma {:induction false} CleanLeadsToTheSamePlace(path: string)
    ensures IsAbs(Clean(path)) <==> IsAbs(path)
    ensures Walk(Split(Clean(path), '/'), IsAbs(path)) == Walk(Split(path, '/'), IsAbs(path))
  {
    var rooted := IsAbs(path);
    var parts := Split(path, '/');
    var at := Walk(parts, rooted);
    SplitDraws(path, '/');
    forall i | 0 <= i < |parts| ensures '/' !in parts[i] {
      assert DrawnFrom(parts[i], path, '/');
    }
    ResolvesToNormalForm(parts, rooted);
    WalkIsResolved(parts, rooted);
    WalkOfPlace(at.ups, at.names, rooted);
    CleanedSplits(Resolve(parts, rooted), rooted);
  }

  /** The segments of a cleaned path, an empty one in front of a rooted one. */
  lemma {:induction false} CleanedSplits(ps: seq<string>, rooted: bool)
    requires NormalForm(ps, rooted)
    ensures rooted ==> IsAbs(['/'] + Join(ps)) && Walk(Split(['/'] + Join(ps), '/'), true) == Walk(ps, true)
    ensures !rooted && ps != [] ==> !IsAbs(Join(ps)) && Walk(Split(Join(ps), '/'), false) == Walk(ps, false)
    ensures !rooted && ps == [] ==> !IsAbs(".") && Walk(Split(".", '/'), false) == Walk(ps, false)
  {
    SlashFirst(Join(ps));
    WalkFromEmpty(ps, true);
    if ps != [] {
      SplitOfJoin(ps);
      JoinStarts(ps);
    } else {
      WalkOfNothing();
    }
  }

  lemma {:induction false} WalkOfNothing()
    ensures Walk(Split(".", '/'), false) == Place(0, []) && Walk([], true) == Walk([], false) == Place(0, [])
    ensures Join([]) == "" && Walk([""] + Split("", '/'), true) == Place(0, [])
  {
    SplitOfOnePart(".", '/');
    assert ["."][..0] == [] && [""][..0] == [];
    assert [""] + [""] == ["", ""] && ["", ""][..1] == [""];
  }

  lemma JoinStarts(ps: seq<string>)
    requires ps != [] && ps[0] != ""
    ensures ps[0] <= Join(ps) && (|ps| > 1 ==> |Join(ps)| > |ps[0]| && Join(ps)[|ps[0]|] == '/')
    ensures |ps| == 1 ==> Join(ps) == ps[0]
    ensures '/' !in ps[0] ==> !IsAbs(Join(ps))
  {
    assert ps[0][0] in ps[0];
  }

  lemma {:induction false} WalkFromEmpty(ps: seq<string>, rooted: bool)
    ensures Walk([""] + ps, rooted) == Walk(ps, rooted)
    decreases |ps|
  {
    if ps == [] {
      assert [""] + [] == [""] && [""][..0] == [];
    } else {
      WalkFromEmpty(ps[..|ps| - 1], rooted);
      assert ([""] + ps)[..|ps|] == [""] + ps[..|ps| - 1];
    }
  }

  /** A relative path escapes exactly when it leads above where it starts. */
  lemma {:induction false} EscapesExactly(path: string)
    requires !IsAbs(path)
    ensures Escapes(Clean(path)) <==> Walk(Split(path, '/'), false).ups > 0
  {
    var parts := Split(path, '/');
    var at, ps := Walk(parts, false), Resolve(parts, false);
    SplitDraws(path, '/');
    forall i | 0 <= i < |parts| ensures '/' !in parts[i] {
      assert DrawnFrom(parts[i], path, '/');
    }
    ResolvesToNormalForm(parts, false);
    WalkIsResolved(parts, false);
    if ps != [] {
      JoinStarts(ps);
      assert at.ups > 0 <==> ps[0] == "..";
      FirstDecides(ps);
    }
  }

  lemma {:induction false} FirstDecides(ps: seq<string>)
    requires ps != [] && ps[0] != "" && '/' !in ps[0]
    requires |ps| == 1 ==> Join(ps) == ps[0]
    requires ps[0] <= Join(ps) && (|ps| > 1 ==> |Join(ps)| > |ps[0]| && Join(ps)[|ps[0]|] == '/')
    ensures Join(ps) == ".." || HasPrefix(Join(ps), "../") <==> ps[0] == ".."
  {
    var s := Join(ps);
    assert forall i :: 0 <= i < |ps[0]| ==> ps[0][i] in ps[0] && s[i] == ps[0][i];
    if ps[0] == ".." && |ps| > 1 {
      assert s[..3] == "../";
    }
    if HasPrefix(s, "../") {
      assert s[0] == '.' && s[1] == '.' && s[2] == '/';
    }
  }

  // ----- Segments -----

  /** The last segment that is not empty, if there is one. */
  function LastNamed(segments: seq<string>): string {
    if segments == [] then ""
    else if segments[|segments| - 1] != "" then segments[|segments| - 1]
    else LastNamed(segments[..|segments| - 1])
  }

  /** The first segment ends at the first slash. */
  lemma {:induction false} FirstSegment(p: string)
    ensures var seg := Split(p, '/')[0];
            && seg <= p && '/' !in seg && (|seg| < |p| ==> p[|seg|] == '/')
    decreases |p|
  {
    if p != "" && p[0] != '/' {
      FirstSegment(p[1..]);
      var rest := Split(p[1..], '/')[0];
      assert Split(p, '/')[0] == [p[0]] + rest;
      assert p == [p[0]] + p[1..];
    }
  }

  lemma {:induction false} LastSlashLaws(s: string)
    ensures LastSlash(s) >= 0 ==> s[LastSlash(s)] == '/'
    ensures forall i :: LastSlash(s) < i < |s| ==> s[i] != '/'
    decreases |s|
  {
    if s != "" && s[|s| - 1] != '/' {
      LastSlashLaws(s[..|s| - 1]);
    }
  }

  lemma LastNamedSnoc(segments: seq<string>, last: string)
    ensures LastNamed(segments + [last]) == if last == "" then LastNamed(segments) else last
  {
    assert (segments + [last])[..|segments|] == segments;
  }

  lemma {:induction false} LastPartNamed(front: string, last: string)
    requires last != "" && '/' !in last
    ensures LastNamed(Split(front + ['/'] + last, '/')) == last && LastNamed(Split(last, '/')) == last
  {
    SplitOfOnePart(last, '/');
    SplitAt(front, '/', last);
    LastNamedSnoc(Split(front, '/'), last);
    LastNamedSnoc([], last);
    assert [] + [last] == [last];
  }

  lemma {:induction false} NoSlashAfter(s: string)
    requires s != "" && s[|s| - 1] != '/'
    ensures s[LastSlash(s) + 1..] != "" && '/' !in s[LastSlash(s) + 1..]
    ensures LastSlash(s) >= 0 ==> s == s[..LastSlash(s)] + ['/'] + s[LastSlash(s) + 1..]
  {
    LastSlashLaws(s);
  }

  lemma {:induction false} LastSegmentOf(s: string)
    requires s != "" && s[|s| - 1] != '/'
    ensures LastNamed(Split(s, '/')) == s[LastSlash(s) + 1..]
  {
    var k, last := LastSlash(s), s[LastSlash(s) + 1..];
    NoSlashAfter(s);
    if k < 0 {
      LastPartNamed("", last);
    } else {
      LastPartNamed(s[..k], last);
    }
  }

  lemma {:induction false} LastSegmentIs(p: string)
    ensures LastNamed(Split(p, '/')) ==
            var s := TrimSlashes(p); if s == "" then "" else s[LastSlash(s) + 1..]
    decreases |p|
  {
    if p == "" {
      assert LastNamed([""]) == LastNamed([""][..0]);
    } else if p[|p| - 1] == '/' {
      var q := p[..|p| - 1];
      LastSegmentIs(q);
      SplitAt(q, '/', "");
      assert p == q + ['/'] + "";
      LastNamedSnoc(Split(q, '/'), "");
    } else {
      LastSegmentOf(p);
    }
  }

  lemma {:induction false} BaseIsLast(path: string, name: string)
    requires name != "" && name[0] != '.' && name[0] != '/'
    ensures Base(path) == name <==> LastNamed(Split(path, '/')) == name
  {
    LastSegmentIs(path);
  }

  /** Some segment that is neither the first nor the last one. */
  predicate HasInner(segments: seq<string>, name: string) {
    exists k :: 1 <= k < |segments| - 1 && segments[k] == name
  }

  predicate SegmentEnds(p: string, n: nat) {
    n <= |p| && (forall i :: 0 <= i < n ==> p[i] != '/') && (n < |p| ==> p[n] == '/')
  }

  lemma SegmentEndsOnce(p: string, m: nat, n: nat)
    requires SegmentEnds(p, m) && SegmentEnds(p, n)
    ensures m == n
  {
  }

  /** A path is its first segment, or that, a slash and the segments of the rest. */
  lemma {:induction false} SplitAtFirst(path: string)
    ensures var seg := Split(path, '/')[0];
            |seg| < |path| ==> path == seg + ['/'] + path[|seg| + 1..] && Split(path, '/') == [seg] + Split(path[|seg| + 1..], '/')
    ensures var seg := Split(path, '/')[0];
            && '/' !in seg && seg <= path && (|seg| == |path| ==> Split(path, '/') == [path])
  {
    var seg := Split(path, '/')[0];
    FirstSegment(path);
    SplitOfOnePart(seg, '/');
    if |seg| < |path| {
      assert path == seg + ['/'] + path[|seg| + 1..];
      SplitAt(seg, '/', path[|seg| + 1..]);
    } else {
      assert seg == path;
    }
  }

  lemma {:induction false} NameThenSlash(rest: string, name: string)
    requires '/' !in name
    ensures HasPrefix(rest, name + "/") <==> |Split(rest, '/')| > 1 && Split(rest, '/')[0] == name
  {
    var first := Split(rest, '/')[0];
    SplitAtFirst(rest);
    FirstSegment(rest);
    assert forall i :: 0 <= i < |first| ==> first[i] in first && rest[i] == first[i];
    assert forall i :: 0 <= i < |name| ==> name[i] in name;
    if HasPrefix(rest, name + "/") {
      assert forall i :: 0 <= i <= |name| ==> rest[i] == (name + "/")[i];
      SegmentEndsOnce(rest, |first|, |name|);
    }
  }

  /** A name between two slashes comes no earlier than where the first segment
      ends, and there exactly when it is the second one and not the last. */
  lemma {:induction false} SecondSegmentIs(seg: string, rest: string, name: string)
    requires '/' !in seg && '/' !in name
    ensures forall i :: OccursAt(seg + ['/'] + rest, "/" + name + "/", i) ==> i >= |seg|
    ensures OccursAt(seg + ['/'] + rest, "/" + name + "/", |seg|) <==>
              |Split(rest, '/')| > 1 && Split(rest, '/')[0] == name
  {
    var path, word := seg + ['/'] + rest, "/" + name + "/";
    OccurrenceStarts(path, word);
    assert forall i :: 0 <= i < |seg| ==> path[i] == seg[i] && seg[i] in seg;
    NameThenSlash(rest, name);
    assert path[|seg|..] == ['/'] + rest;
    assert word == ['/'] + (name + "/");
    if OccursAt(path, word, |seg|) {
      assert rest[..|name| + 1] == path[|seg| + 1..|seg| + |word|] == path[|seg|..|seg| + |word|][1..];
      assert word[1..] == name + "/";
    }
    if HasPrefix(rest, name + "/") {
      assert path[|seg|..|seg| + |word|] == ['/'] + rest[..|name| + 1];
    }
  }

  /** A name between two slashes occurs in a path exactly when it is a segment
      with others before and behind it. */
  lemma {:induction false} BetweenSlashesExactly(path: string, name: string)
    requires '/' !in name
    ensures Contains(path, "/" + name + "/") <==> HasInner(Split(path, '/'), name)
    decreases |path|
  {
    var seg, word := Split(path, '/')[0], "/" + name + "/";
    SplitAtFirst(path);
    if |seg| == |path| {
      OccurrenceStarts(path, word);
      assert forall i :: 0 <= i < |path| ==> path[i] in path;
    } else {
      var rest := path[|seg| + 1..];
      SecondSegmentIs(seg, rest, name);
      OccursBehind(seg + ['/'], rest, word);
      InnerCons(seg, Split(rest, '/'), name);
      BetweenSlashesExactly(rest, name);
      if Contains(rest, word) {
        var i :| OccursAt(rest, word, i);
        assert OccursAt(path, word, i + |seg| + 1);
      }
    }
  }

  lemma InnerCons(first: string, rest: seq<string>, name: string)
    requires rest != []
    ensures HasInner([first] + rest, name) <==> (|rest| > 1 && rest[0] == name) || HasInner(rest, name)
  {
    if HasInner(rest, name) {
      var k :| 1 <= k < |rest| - 1 && rest[k] == name;
      assert ([first] + rest)[k + 1] == name;
    }
    if |rest| > 1 {
      assert ([first] + rest)[1] == rest[0];
    }
  }
}
