// Laws of the diff parsers: concatenation, rendering and parsing back, the two
// parsers agreeing on paths, and no text lost between chunks.
module DiffLaws {
  import opened Text
  import opened TextLines
  import opened CloudDiff

  // ----- Concatenation -----

  lemma {:induction false} BlocksConcat(a: seq<string>, b: seq<string>)
    requires b != [] && IsHeader(b[0])
    ensures Blocks(a + b) == Blocks(a) + Blocks(b)
    ensures Blocks(b) != []
    decreases |b|
  {
    var front, l := b[..|b| - 1], b[|b| - 1];
    DropLast(b);
    if front == [] {
      BlocksSnoc(a, l);
      BlocksSnoc([], l);
      EmptyLeft([l]);
    } else {
      BlocksConcat(a, front);
      ConcatSnoc(a, front, l);
      BlocksSnoc(a + front, l);
      BlocksSnoc(front, l);
      LastOfConcat(Blocks(a), Blocks(front));
    }
  }

  lemma DropLast<T>(s: seq<T>)
    requires s != []
    ensures s == s[..|s| - 1] + [s[|s| - 1]]
    ensures |s| > 1 ==> s[..|s| - 1][0] == s[0]
  {
  }

  lemma EmptyLeft<T>(s: seq<T>)
    ensures [] + s == s
  {
  }

  lemma ConcatSnoc<T>(a: seq<T>, b: seq<T>, x: T)
    ensures a + (b + [x]) == (a + b) + [x]
  {
  }

  lemma LastOfConcat<T>(a: seq<T>, b: seq<T>)
    requires b != []
    ensures (a + b)[|a + b| - 1] == b[|b| - 1] && (a + b)[..|a + b| - 1] == a + b[..|b| - 1]
    ensures forall x: T :: a + b[..|b| - 1] + [x] == a + (b[..|b| - 1] + [x])
    ensures forall x: T :: (a + b) + [x] == a + (b + [x])
  {
  }

  lemma ChangesSnoc(bs: seq<Block>, b: Block)
    ensures ChangesOf(bs + [b]) == ChangesOf(bs) + if BlockChange(b).path == "" then [] else [BlockChange(b)]
  {
    LastOfConcat(bs, [b]);
    assert [b][..0] == [] && bs + [] == bs;
  }

  lemma {:induction false} ChangesConcat(a: seq<Block>, b: seq<Block>)
    ensures ChangesOf(a + b) == ChangesOf(a) + ChangesOf(b)
    decreases |b|
  {
    if b == [] {
      NothingAdded(a);
    } else {
      var front, last := b[..|b| - 1], b[|b| - 1];
      ChangesConcat(a, front);
      FrontAndLast(b);
      ChangesSnoc(front, last);
      ConcatSnoc(a, front, last);
      ChangesSnoc(a + front, last);
    }
  }

  /** The empty last line of a newline-terminated diff changes nothing. */
  lemma {:induction false} EmptyLineAddsNothing(ls: seq<string>)
    ensures ChangesOf(Blocks(ls + [""])) == ChangesOf(Blocks(ls))
  {
    BlocksSnoc(ls, "");
    var bs := Blocks(ls);
    if bs != [] {
      var b := bs[|bs| - 1];
      var grown := b.(body := b.body + [""]);
      AbsorbedLine(b, "");
      AbsorbsOne(BlockChange(b), "", BlockChange(b), BlockChange(grown));
      DropLast(bs);
      ChangesSnoc(bs[..|bs| - 1], b);
      ChangesSnoc(bs[..|bs| - 1], grown);
    }
  }

  lemma HeaderStartsFirstLine(d: string)
    requires HasPrefix(d, HEADER)
    ensures IsHeader(Lines(d)[0])
  {
    FirstLineHasPrefix(HEADER, d);
  }

  lemma {:induction false} FirstLineHasPrefix(p: string, d: string)
    requires p <= d && OneLine(p)
    ensures p <= Lines(d)[0]
    decreases |p|
  {
    if p != "" {
      assert p[0] in p && p[0] == d[0];
      assert forall c :: c in p[1..] ==> c in p;
      FirstLineHasPrefix(p[1..], d[1..]);
      assert p == [p[0]] + p[1..];
    }
  }

  /** Two diffs one after the other parse to the changes of the one and then
      those of the other, when the second starts with a header at the start of a
      line, that is, when the first one is empty or ends in a newline. */
  lemma ParseOfConcat(first: string, second: string)
    requires first == "" || first[|first| - 1] == '\n'
    requires HasPrefix(second, HEADER)
    ensures Changes(first + second) == Changes(first) + Changes(second)
  {
    HeaderStartsFirstLine(second);
    var b := Lines(second);
    if first == "" {
      EmptyLeft(second);
      assert Blocks([""]) == [] by { BlocksSnoc([], ""); EmptyLeft([""]); }
    } else {
      var e := first[..|first| - 1];
      DropLast(first);
      assert first == e + NL;
      LinesAtBreak(e, second);
      LinesAtBreak(e, "");
      assert e + NL + "" == first;
      EmptyLineAddsNothing(Lines(e));
      BlocksConcat(Lines(e), b);
      ChangesConcat(Blocks(Lines(e)), Blocks(b));
    }
  }

  // ----- The two parsers -----

  function Paths(cs: seq<Change>): (r: seq<string>)
    ensures |r| == |cs| && forall i :: 0 <= i < |cs| ==> r[i] == cs[i].path
  {
    seq(|cs|, i requires 0 <= i < |cs| => cs[i].path)
  }

  function Ids(us: seq<FileUnit>): (r: seq<string>)
    ensures |r| == |us| && forall i :: 0 <= i < |us| ==> r[i] == us[i].id
  {
    seq(|us|, i requires 0 <= i < |us| => us[i].id)
  }

  lemma {:induction false} SamePaths(bs: seq<Block>)
    ensures Paths(ChangesOf(bs)) == Ids(UnitsOf(bs))
    decreases |bs|
  {
    if bs != [] {
      SamePaths(bs[..|bs| - 1]);
    }
  }

  /** The gate's parser and the review's parser see the same files in the same
      order; the review has one unit more for a preamble, if there is one. */
  lemma ParsersAgree(diff: string)
    ensures var units := Files(diff);
            var extra := if IsBlank(diff) || IsHeader(Lines(diff)[0]) then 0 else 1;
            && extra <= |units|
            && Paths(Changes(diff)) == Ids(units)[extra..]
  {
    SamePaths(Blocks(Lines(diff)));
    if IsBlank(diff) {
      BlankHasNoHeader(diff);
      HeaderlessHasNoBlocks(Lines(diff));
    } else {
      var p, u := PreambleUnits(Lines(diff)), UnitsOf(Blocks(Lines(diff)));
      assert (p + u)[|p|..] == u;
      assert Ids(p + u)[|p|..] == Ids(u);
    }
  }

  function Chunks(us: seq<FileUnit>): string {
    if us == [] then "" else Chunks(us[..|us| - 1]) + us[|us| - 1].diff
  }

  lemma {:induction false} ChunksConcat(a: seq<FileUnit>, b: seq<FileUnit>)
    ensures Chunks(a + b) == Chunks(a) + Chunks(b)
    decreases |b|
  {
    if b == [] {
      assert a + b == a;
    } else {
      LastOfConcat(a, b);
      ChunksConcat(a, b[..|b| - 1]);
    }
  }

  /** Every block's text, whether or not the block is kept. */
  function BlockText(bs: seq<Block>): string {
    if bs == [] then "" else BlockText(bs[..|bs| - 1]) + BlockUnit(bs[|bs| - 1]).diff
  }

  lemma Assoc<T>(a: seq<T>, b: seq<T>, c: seq<T>)
    ensures (a + b) + c == a + (b + c)
  {
  }

  lemma TextOfSnoc(pre: string, bs: seq<Block>, l: string)
    ensures pre + BlockText(bs) + l + NL == pre + BlockText(bs + [Block(l, [])])
    ensures bs != [] ==>
              var grown := bs[..|bs| - 1] + [bs[|bs| - 1].(body := bs[|bs| - 1].body + [l])];
              pre + BlockText(bs) + l + NL == pre + BlockText(grown)
  {
    Assoc(pre + BlockText(bs), l, NL);
    Assoc(pre, BlockText(bs), l + NL);
    FreshUnit(l);
    if bs != [] {
      var front, b := bs[..|bs| - 1], bs[|bs| - 1];
      var grown := b.(body := b.body + [l]);
      UnitGrows(b, l);
      Assoc(BlockUnit(b).diff, l, NL);
      Assoc(BlockText(front), BlockUnit(b).diff, l + NL);
    }
  }

  lemma {:induction false} LinesAreBlocks(ls: seq<string>)
    ensures Unlines(ls) == Unlines(Preamble(ls)) + BlockText(Blocks(ls))
    decreases |ls|
  {
    if ls != [] {
      var front, l := ls[..|ls| - 1], ls[|ls| - 1];
      DropLast(ls);
      LinesAreBlocks(front);
      LinesAreBlocksSnoc(front, l);
    }
  }

  lemma {:induction false} LinesAreBlocksSnoc(front: seq<string>, l: string)
    requires Unlines(front) == Unlines(Preamble(front)) + BlockText(Blocks(front))
    ensures Unlines(front + [l]) == Unlines(Preamble(front + [l])) + BlockText(Blocks(front + [l]))
  {
    UnlinesSnoc(front, l);
    BlocksSnoc(front, l);
    PreambleSnoc(front, l);
    TextOfSnoc(Unlines(Preamble(front)), Blocks(front), l);
    if Blocks(front) == [] && !IsHeader(l) {
      UnlinesSnoc(Preamble(front), l);
    }
  }

  ghost predicate AllKept(bs: seq<Block>) {
    forall i :: 0 <= i < |bs| ==> BlockPath(bs[i]) != ""
  }

  lemma {:induction false} ChunksSnoc(bs: seq<Block>, b: Block)
    ensures Chunks(UnitsOf(bs + [b])) == Chunks(UnitsOf(bs)) + if BlockPath(b) == "" then "" else BlockUnit(b).diff
  {
    var us := UnitsOf(bs);
    if BlockPath(b) == "" {
      NothingAdded(us);
      NothingAdded(Chunks(us));
    } else {
    }
  }

  lemma NothingAdded<T>(s: seq<T>)
    ensures s + [] == s
  {
  }

  lemma {:induction false} KeptText(bs: seq<Block>)
    ensures AllKept(bs) ==> Chunks(UnitsOf(bs)) == BlockText(bs)
    ensures |Chunks(UnitsOf(bs))| <= |BlockText(bs)|
    ensures !AllKept(bs) ==> |Chunks(UnitsOf(bs))| < |BlockText(bs)|
    decreases |bs|
  {
    if bs != [] {
      var front, b := bs[..|bs| - 1], bs[|bs| - 1];
      KeptText(front);
      DropLast(bs);
      ChunksSnoc(front, b);
      KeptSnoc(front, b);
    }
  }

  lemma KeptSnoc(bs: seq<Block>, b: Block)
    ensures AllKept(bs + [b]) <==> AllKept(bs) && BlockPath(b) != ""
  {
    assert (bs + [b])[|bs|] == b;
    assert forall i :: 0 <= i < |bs| ==> (bs + [b])[i] == bs[i];
  }

  /** The chunks of a diff, put end to end, are the whole diff and a newline
      exactly when a path can be read off every header block. */
  lemma {:induction false} ChunksCoverDiff(diff: string)
    requires !IsBlank(diff)
    ensures Chunks(Files(diff)) == diff + NL <==> AllKept(Blocks(Lines(diff)))
  {
    var ls := Lines(diff);
    var bs := Blocks(ls);
    UnlinesOfLines(diff);
    LinesAreBlocks(ls);
    KeptText(bs);
    ChunksConcat(PreambleUnits(ls), UnitsOf(bs));
  }

  // ----- What later lines of a block say -----

  predicate NamesMode(ls: seq<string>) {
    exists i :: 0 <= i < |ls| && ModeOf(ls[i]).Some?
  }

  predicate NamesPath(ls: seq<string>) {
    exists i :: 0 <= i < |ls| && NamedPath(ls[i]).Some?
  }

  lemma FrontOfSum(a: seq<string>, b: seq<string>)
    requires b != []
    ensures (a + b)[..|a + b| - 1] == a + b[..|b| - 1] && (a + b)[|a + b| - 1] == b[|b| - 1]
  {
  }

  lemma {:induction false} CountOfSum(a: seq<string>, b: seq<string>, p: string -> bool)
    ensures Count(a + b, p) == Count(a, p) + Count(b, p)
    decreases |b|
  {
    if b == [] {
      assert a + b == a;
    } else {
      FrontOfSum(a, b);
      CountOfSum(a, b[..|b| - 1], p);
    }
  }

  lemma {:induction false} LaterMode(a: seq<string>, b: seq<string>)
    ensures LastMode(a + b) == if NamesMode(b) then LastMode(b) else LastMode(a)
    decreases |b|
  {
    if b == [] {
      assert a + b == a;
    } else {
      var front := b[..|b| - 1];
      FrontOfSum(a, b);
      LaterMode(a, front);
      if NamesMode(front) {
        var i :| 0 <= i < |front| && ModeOf(front[i]).Some?;
        assert ModeOf(b[i]).Some?;
      }
    }
  }

  lemma {:induction false} LaterPath(start: string, a: seq<string>, b: seq<string>)
    ensures LastPath(start, a + b) == if NamesPath(b) then LastPath(start, b) else LastPath(start, a)
    decreases |b|
  {
    if b == [] {
      assert a + b == a;
    } else {
      var front := b[..|b| - 1];
      FrontOfSum(a, b);
      LaterPath(start, a, front);
      if NamesPath(front) {
        var i :| 0 <= i < |front| && NamedPath(front[i]).Some?;
        assert NamedPath(b[i]).Some?;
      }
    }
  }

  lemma {:induction false} SubmoduleInSum(a: seq<string>, b: seq<string>)
    ensures NamesSubmodule(a + b) <==> NamesSubmodule(a) || NamesSubmodule(b)
  {
    if NamesSubmodule(a + b) {
      var i :| 0 <= i < |a + b| && ModeOf((a + b)[i]) == Some("160000");
      assert i >= |a| ==> (a + b)[i] == b[i - |a|];
    }
    if NamesSubmodule(b) {
      var i :| 0 <= i < |b| && ModeOf(b[i]) == Some("160000");
      assert (a + b)[|a| + i] == b[i];
    }
    if NamesSubmodule(a) {
      var i :| 0 <= i < |a| && ModeOf(a[i]) == Some("160000");
      assert (a + b)[i] == a[i];
    }
  }

  /** Lines added to a block: their counts add, the mode and the path they name
      replace earlier ones, and a submodule named once is never taken back. */
  lemma {:induction false} LaterLinesWin(header: string, a: seq<string>, b: seq<string>)
    ensures var was, now := BlockChange(Block(header, a)), BlockChange(Block(header, a + b));
            && now.added == was.added + Count(b, IsAdded) && now.removed == was.removed + Count(b, IsRemoved)
            && (now.newMode == if NamesMode(b) then LastMode(b) else was.newMode)
            && (now.path == if NamesPath(b) then LastPath("", b) else was.path)
            && (now.isSubmodule <==> was.isSubmodule || NamesSubmodule(b))
  {
    CountOfSum(a, b, IsAdded);
    CountOfSum(a, b, IsRemoved);
    LaterMode(a, b);
    LaterPath(HeaderPath(header), a, b);
    SubmoduleInSum(a, b);
    if NamesPath(b) {
      SameLastPath(HeaderPath(header), "", b);
    }
  }

  lemma {:induction false} SameLastPath(start: string, other: string, b: seq<string>)
    requires NamesPath(b)
    ensures LastPath(start, b) == LastPath(other, b)
    decreases |b|
  {
    var front, last := b[..|b| - 1], b[|b| - 1];
    if NamedPath(last).None? {
      var i :| 0 <= i < |b| && NamedPath(b[i]).Some?;
      assert front[i] == b[i];
      SameLastPath(start, other, front);
    }
  }
}
