// Writing a diff and reading it back.
module DiffRender {
  import opened Text
  import opened TextLines
  import opened CloudDiff
  import opened DiffLaws

  datatype HunkLine = Context(text: string) | Add(text: string) | Remove(text: string)

  datatype Fate = Kept | Created | Deleted

  /** One file's part of a diff: what became of it, its mode where git shows one,
      and its hunks, which a change of mode, a binary or an empty file lacks. */
  datatype FileDiff = FileDiff(path: string, fate: Fate, mode: Option<string>, hunks: Option<seq<HunkLine>>)

  // ----- Rendering -----

  function RenderLine(h: HunkLine): string {
    match h
    case Context(t) => " " + t
    case Add(t) => "+" + t
    case Remove(t) => "-" + t
  }

  function RenderHunks(hs: seq<HunkLine>): seq<string> {
    if hs == [] then [] else RenderHunks(hs[..|hs| - 1]) + [RenderLine(hs[|hs| - 1])]
  }

  function HeaderOf(path: string): string {
    "diff --git a/" + path + " b/" + path
  }

  function ModeWord(fate: Fate): string {
    match fate
    case Kept => "new mode "
    case Created => "new file mode "
    case Deleted => "deleted file mode "
  }

  function ModeLines(f: FileDiff): seq<string> {
    if f.mode.Some? then [ModeWord(f.fate) + f.mode.value] else []
  }

  /** git ends the name of a file with a space in it by a tab. */
  function Marked(path: string): string {
    if ' ' in path then path + "\t" else path
  }

  function OldName(f: FileDiff): string {
    "--- " + if f.fate.Created? then "/dev/null" else "a/" + Marked(f.path)
  }

  function NewName(f: FileDiff): string {
    "+++ " + if f.fate.Deleted? then "/dev/null" else "b/" + Marked(f.path)
  }

  function Top(f: FileDiff): seq<string> {
    ModeLines(f) + [OldName(f)] + [NewName(f)] + ["@@"]
  }

  function Body(f: FileDiff): seq<string> {
    if f.hunks.None? then ModeLines(f) else Top(f) + RenderHunks(f.hunks.value)
  }

  function BlockOf(f: FileDiff): Block {
    Block(HeaderOf(f.path), Body(f))
  }

  function Render(fs: seq<FileDiff>): seq<string> {
    if fs == [] then []
    else Render(fs[..|fs| - 1]) + ([HeaderOf(fs[|fs| - 1].path)] + Body(fs[|fs| - 1]))
  }

  // ----- What the parser should read back -----

  function CountOf(hs: seq<HunkLine>, p: HunkLine -> bool): nat {
    if hs == [] then 0 else CountOf(hs[..|hs| - 1], p) + (if p(hs[|hs| - 1]) then 1 else 0)
  }

  predicate AddsLine(h: HunkLine) {
    h.Add?
  }

  predicate RemovesLine(h: HunkLine) {
    h.Remove?
  }

  /** The mode a file has afterwards, where git shows one. */
  function ModeBits(f: FileDiff): string {
    if f.mode.Some? && !f.fate.Deleted? then f.mode.value else ""
  }

  function Hunks(f: FileDiff): seq<HunkLine> {
    if f.hunks.None? then [] else f.hunks.value
  }

  function Meaning(f: FileDiff): Change {
    Change(f.path, CountOf(Hunks(f), AddsLine), CountOf(Hunks(f), RemovesLine), ModeBits(f), ModeBits(f) == "160000")
  }

  /** A path relative to the repository that git does not put in quotes. */
  predicate PlainPath(p: string) {
    p != "" && p[0] != '/' && forall c :: c in p ==> ' ' <= c <= '~' && c != '"' && c != '\\'
  }

  predicate WellFormed(f: FileDiff) {
    && PlainPath(f.path)
    && (f.mode.Some? ==> OneLine(f.mode.value) && Trimmed(f.mode.value))
    && (forall i :: 0 <= i < |Hunks(f)| ==> OneLine(Hunks(f)[i].text) && (f.fate.Deleted? ==> Hunks(f)[i].Remove?))
  }

  /** A line the parser takes for a file line of the diff's own. */
  predicate Misread(h: HunkLine) {
    (h.Add? && HasPrefix(h.text, "++")) || (h.Remove? && HasPrefix(h.text, "--"))
  }

  predicate Faithful(f: FileDiff) {
    IsWord(f.path) && NoneMisread(Hunks(f))
  }

  // ----- One line -----

  lemma ReadHunkLine(h: HunkLine)
    ensures var l := RenderLine(h);
            && !IsHeader(l) && ModeOf(l).None? && (!Misread(h) ==> NamedPath(l).None?)
            && (IsAdded(l) <==> h.Add? && !Misread(h)) && (IsRemoved(l) <==> h.Remove? && !Misread(h))
  {
    var l := RenderLine(h);
    assert l[1..] == h.text;
    FirstChars(l);
    assert HasPrefix(l, "+++") <==> h.Add? && HasPrefix(h.text, "++");
    assert HasPrefix(l, "---") <==> h.Remove? && HasPrefix(h.text, "--");
    assert HasPrefix(l, "+++ b/") ==> HasPrefix(l, "+++");
  }

  lemma FirstChars(l: string)
    ensures IsHeader(l) ==> l[0] == 'd' && l[1] == 'i'
    ensures HasPrefix(l, "new mode ") || HasPrefix(l, "new file mode ") ==> l[0] == 'n'
    ensures HasPrefix(l, "+++ b/") ==> l[0] == '+'
  {
    assert HEADER[0] == 'd' && HEADER[1] == 'i';
  }

  /** A line that only says something about the mode, or nothing. */
  predicate Silent(l: string) {
    !IsHeader(l) && NamedPath(l).None? && !IsAdded(l) && !IsRemoved(l)
  }

  lemma ReadMode(fate: Fate, bits: string)
    requires Trimmed(bits)
    ensures var l := ModeWord(fate) + bits;
            Silent(l) && ModeOf(l) == if fate.Deleted? then None else Some(bits)
  {
    var l := ModeWord(fate) + bits;
    TrimmedIsFixed(bits);
    FirstChars(l);
    assert l[0] == ModeWord(fate)[0] && l[1] == ModeWord(fate)[1];
    assert "new mode "[4] == 'm' && "new file mode "[4] == 'f';
    assert l[|ModeWord(fate)|..] == bits;
  }

  lemma ReadFileLines(f: FileDiff)
    requires WellFormed(f)
    ensures Silent(OldName(f)) && ModeOf(OldName(f)).None?
    ensures var l := NewName(f);
            && !IsHeader(l) && ModeOf(l).None? && !IsAdded(l) && !IsRemoved(l)
            && NamedPath(l) == if f.fate.Deleted? then None else Some(Marked(f.path))
    ensures Silent("@@") && ModeOf("@@").None?
  {
    FirstChars(OldName(f));
    FirstChars(NewName(f));
    FirstChars("@@");
    assert OldName(f)[..3] == "---";
    assert NewName(f)[..3] == "+++";
    if f.fate.Deleted? {
      assert NewName(f)[4] == '/';
    } else {
      assert NewName(f)[..6] == "+++ b/" && NewName(f)[6..] == Marked(f.path);
      assert Marked(f.path)[0] == f.path[0] != '/';
    }
  }

  lemma ReadHeader(path: string)
    ensures IsHeader(HeaderOf(path))
    ensures IsWord(path) ==> HeaderPath(HeaderOf(path)) == path
  {
    var h := HeaderOf(path);
    assert h[..11] == HEADER;
    if IsWord(path) {
      HeaderWords(path, h);
      assert ("b/" + path)[2..] == path;
    }
  }

  lemma {:induction false} TwoWordsMore(d: string, g: string, rest: string, three: string, all: string)
    requires IsWord(d) && IsWord(g)
    requires three == g + (" " + rest) && all == d + (" " + three)
    ensures Fields(all) == [d, g] + Fields(rest)
  {
    FieldsStep(g, rest);
    FieldsStep(d, three);
  }

  lemma WordsOfHeader(d: string, g: string, a: string, b: string, two: string, three: string, all: string)
    requires IsWord(d) && IsWord(g) && IsWord(a) && IsWord(b)
    requires two == a + (" " + b) && three == g + (" " + two) && all == d + (" " + three)
    ensures Fields(all) == [d, g, a, b]
  {
    FieldsOfTwo(a, b);
    TwoWordsMore(d, g, two, three, all);
  }

  lemma HeaderWords(path: string, h: string)
    requires IsWord(path) && h == HeaderOf(path)
    ensures Fields(h) == ["diff", "--git", "a/" + path, "b/" + path]
  {
    var two, three := SpellHeader(path);
    WordsOfHeader("diff", "--git", "a/" + path, "b/" + path, two, three, h);
  }

  lemma SpellHeader(path: string) returns (two: string, three: string)
    ensures two == ("a/" + path) + (" " + ("b/" + path))
    ensures three == "--git" + (" " + two)
    ensures HeaderOf(path) == "diff" + (" " + three)
  {
    two := ("a/" + path) + (" " + ("b/" + path));
    three := "--git" + (" " + two);
    assert "diff --git a/" == "diff" + (" " + ("--git" + (" " + "a/")));
    assert " b/" == " " + "b/";
  }

  // ----- One file -----

  predicate NoneMisread(hs: seq<HunkLine>) {
    forall i :: 0 <= i < |hs| ==> !Misread(hs[i])
  }

  function Longer(b: Block, ls: seq<string>): Block {
    b.(body := b.body + ls)
  }

  lemma {:induction false} LongerSnoc(b: Block, ls: seq<string>, l: string)
    ensures Longer(b, ls + [l]) == Longer(Longer(b, ls), [l])
    ensures Absorbs(BlockChange(Longer(b, ls)), l, BlockChange(Longer(b, ls + [l])))
  {
    ConcatSnoc(b.body, ls, l);
    AbsorbedLine(Longer(b, ls), l);
  }

  ghost predicate ReadBack(c: Change, d: Change, hs: seq<HunkLine>) {
    var adds, removes := CountOf(hs, AddsLine), CountOf(hs, RemovesLine);
    && d.newMode == c.newMode && d.isSubmodule == c.isSubmodule
    && d.added <= c.added + adds && d.removed <= c.removed + removes
    && (NoneMisread(hs) ==> d == c.(added := c.added + adds, removed := c.removed + removes))
    && (!NoneMisread(hs) ==> d.added + d.removed < c.added + adds + c.removed + removes)
  }

  lemma NoneMisreadSnoc(hs: seq<HunkLine>)
    requires hs != []
    ensures NoneMisread(hs) <==> NoneMisread(hs[..|hs| - 1]) && !Misread(hs[|hs| - 1])
  {
    var front := hs[..|hs| - 1];
    assert forall i :: 0 <= i < |front| ==> front[i] == hs[i];
  }

  lemma {:induction false} HunksRead(b: Block, hs: seq<HunkLine>)
    ensures ReadBack(BlockChange(b), BlockChange(Longer(b, RenderHunks(hs))), hs)
    decreases |hs|
  {
    if hs == [] {
      NothingAdded(b.body);
    } else {
      var front, h := hs[..|hs| - 1], hs[|hs| - 1];
      HunksRead(b, front);
      LongerSnoc(b, RenderHunks(front), RenderLine(h));
      ReadHunkLine(h);
      NoneMisreadSnoc(hs);
    }
  }

  lemma {:induction false} ModeRead(f: FileDiff)
    requires WellFormed(f)
    ensures BlockChange(Block(HeaderOf(f.path), ModeLines(f))) ==
            Change(HeaderPath(HeaderOf(f.path)), 0, 0, ModeBits(f), ModeBits(f) == "160000")
  {
    var b := Block(HeaderOf(f.path), []);
    if f.mode.Some? {
      ReadMode(f.fate, f.mode.value);
      LongerSnoc(b, [], ModeWord(f.fate) + f.mode.value);
      EmptyLeft([ModeWord(f.fate) + f.mode.value]);
    }
  }

  lemma FileLinesRead(f: FileDiff)
    requires WellFormed(f)
    ensures var b := BlockChange(Block(HeaderOf(f.path), ModeLines(f)));
            BlockChange(Block(HeaderOf(f.path), Top(f))) == if f.fate.Deleted? then b else b.(path := Marked(f.path))
  {
    ReadFileLines(f);
    var b := Block(HeaderOf(f.path), ModeLines(f));
    ModeRead(f);
    var one := Block(b.header, b.body + [OldName(f)]);
    var two := Block(b.header, one.body + [NewName(f)]);
    AbsorbedLine(b, OldName(f));
    AbsorbedLine(one, NewName(f));
    AbsorbedLine(two, "@@");
  }

  /** Of a plain path, white space is only ever a space. */
  lemma PlainWord(path: string)
    requires PlainPath(path)
    ensures IsWord(path) <==> ' ' !in path
    ensures OneLine(path)
  {
    forall i | 0 <= i < |path| ensures IsSpace(path[i]) ==> path[i] == ' ' {
      assert path[i] in path;
    }
  }

  lemma {:induction false} FieldsAreWords(s: string)
    ensures forall w :: w in Fields(s) ==> IsWord(w)
    decreases |s|
  {
    var t := s[TrimLeftLength(s)..];
    if t != "" {
      FieldsAreWords(t[WordEnd(t)..]);
      assert IsWord(t[..WordEnd(t)]);
    }
  }

  lemma PartOfWord(w: string, p: string)
    requires IsWord(w)
    ensures TrimPrefix(w, p) == "" || IsWord(TrimPrefix(w, p))
  {
  }

  lemma HeaderPathHasNoSpace(l: string)
    ensures HeaderPath(l) == "" || IsWord(HeaderPath(l))
  {
    var parts := Fields(l);
    FieldsAreWords(l);
    if |parts| >= 4 {
      PartOfWord(parts[3], "b/");
    } else if |parts| >= 3 {
      PartOfWord(parts[2], "a/");
    } else {
      assert IsWord("(unknown)");
    }
  }

  lemma OwnNameExactly(f: FileDiff)
    requires WellFormed(f)
    ensures HeaderPath(HeaderOf(f.path)) == f.path <==> IsWord(f.path)
    ensures Marked(f.path) == f.path <==> IsWord(f.path)
  {
    ReadHeader(f.path);
    HeaderPathHasNoSpace(HeaderOf(f.path));
    PlainWord(f.path);
  }

  lemma FileRead(f: FileDiff)
    requires WellFormed(f)
    ensures BlockChange(BlockOf(f)) == Meaning(f) <==> Faithful(f)
  {
    OwnNameExactly(f);
    if f.hunks.None? {
      ModeRead(f);
      assert CountOf([], AddsLine) == CountOf([], RemovesLine) == 0;
    } else {
      ModeRead(f);
      FileLinesRead(f);
      HunksRead(Block(HeaderOf(f.path), Top(f)), f.hunks.value);
    }
  }

  // ----- The whole diff -----

  ghost predicate NoHeader(ls: seq<string>) {
    forall i :: 0 <= i < |ls| ==> !IsHeader(ls[i]) && OneLine(ls[i])
  }

  lemma {:induction false} HunksHaveNoHeader(hs: seq<HunkLine>)
    requires forall i :: 0 <= i < |hs| ==> OneLine(hs[i].text)
    ensures NoHeader(RenderHunks(hs))
    decreases |hs|
  {
    if hs != [] {
      HunksHaveNoHeader(hs[..|hs| - 1]);
      ReadHunkLine(hs[|hs| - 1]);
      assert OneLine(RenderLine(hs[|hs| - 1]));
    }
  }

  lemma FileLinesHaveNoHeader(f: FileDiff)
    requires WellFormed(f)
    ensures OneLine(HeaderOf(f.path))
    ensures NoHeader([OldName(f)]) && NoHeader([NewName(f)]) && NoHeader(["@@"])
  {
    ReadFileLines(f);
    PlainWord(f.path);
  }

  lemma BodyHasNoHeader(f: FileDiff)
    requires WellFormed(f)
    ensures NoHeader(Body(f)) && OneLine(HeaderOf(f.path))
  {
    var modes := ModeLines(f);
    if f.mode.Some? {
      ReadMode(f.fate, f.mode.value);
    }
    FileLinesHaveNoHeader(f);
    if f.hunks.Some? {
      assert Hunks(f) == f.hunks.value;
      HunksHaveNoHeader(f.hunks.value);
    }
  }

  lemma LoneBlockSnoc(h: string, ls: seq<string>, l: string)
    requires Blocks([h] + ls) == [Block(h, ls)] && !IsHeader(l)
    ensures Blocks([h] + (ls + [l])) == [Block(h, ls + [l])]
  {
    ConcatSnoc([h], ls, l);
    BlocksSnoc([h] + ls, l);
  }

  lemma {:induction false} LoneBlock(h: string, ls: seq<string>)
    requires IsHeader(h) && NoHeader(ls)
    ensures Blocks([h] + ls) == [Block(h, ls)]
    decreases |ls|
  {
    if ls == [] {
      BlocksSnoc([], h);
      EmptyLeft([h]);
      NothingAdded([h]);
    } else {
      DropLast(ls);
      LoneBlock(h, ls[..|ls| - 1]);
      LoneBlockSnoc(h, ls[..|ls| - 1], ls[|ls| - 1]);
    }
  }

  function BlocksOf(fs: seq<FileDiff>): seq<Block> {
    if fs == [] then [] else BlocksOf(fs[..|fs| - 1]) + [BlockOf(fs[|fs| - 1])]
  }

  ghost predicate AllWellFormed(fs: seq<FileDiff>) {
    forall i :: 0 <= i < |fs| ==> WellFormed(fs[i])
  }

  ghost predicate AllOneLine(ls: seq<string>) {
    forall i :: 0 <= i < |ls| ==> OneLine(ls[i])
  }

  lemma OneLinesConcat(a: seq<string>, h: string, b: seq<string>)
    requires AllOneLine(a) && OneLine(h) && NoHeader(b)
    ensures AllOneLine(a + ([h] + b))
  {
  }

  lemma BlocksOneMore(front: seq<string>, h: string, body: seq<string>)
    requires IsHeader(h) && NoHeader(body)
    ensures Blocks(front + ([h] + body)) == Blocks(front) + [Block(h, body)]
  {
    LoneBlock(h, body);
    BlocksConcat(front, [h] + body);
  }

  lemma {:induction false} RenderedBlocks(fs: seq<FileDiff>)
    requires AllWellFormed(fs)
    ensures Blocks(Render(fs)) == BlocksOf(fs) && AllOneLine(Render(fs))
    decreases |fs|
  {
    if fs != [] {
      var front, f := Render(fs[..|fs| - 1]), fs[|fs| - 1];
      RenderedBlocks(fs[..|fs| - 1]);
      ReadHeader(f.path);
      BodyHasNoHeader(f);
      BlocksOneMore(front, HeaderOf(f.path), Body(f));
      OneLinesConcat(front, HeaderOf(f.path), Body(f));
    }
  }

  function Meanings(fs: seq<FileDiff>): seq<Change> {
    if fs == [] then [] else Meanings(fs[..|fs| - 1]) + [Meaning(fs[|fs| - 1])]
  }

  ghost predicate AllFaithful(fs: seq<FileDiff>) {
    forall i :: 0 <= i < |fs| ==> Faithful(fs[i])
  }

  lemma AllFaithfulSnoc(fs: seq<FileDiff>)
    requires fs != []
    ensures AllFaithful(fs) <==> AllFaithful(fs[..|fs| - 1]) && Faithful(fs[|fs| - 1])
  {
    var front := fs[..|fs| - 1];
    assert forall i :: 0 <= i < |front| ==> front[i] == fs[i];
  }

  lemma {:induction false} BlocksRead(fs: seq<FileDiff>)
    requires AllWellFormed(fs)
    ensures |ChangesOf(BlocksOf(fs))| <= |Meanings(fs)| == |fs|
    ensures ChangesOf(BlocksOf(fs)) == Meanings(fs) <==> AllFaithful(fs)
    decreases |fs|
  {
    if fs != [] {
      var f := fs[|fs| - 1];
      BlocksRead(fs[..|fs| - 1]);
      FileRead(f);
      AllFaithfulSnoc(fs);
      var front := ChangesOf(BlocksOf(fs[..|fs| - 1]));
      ChangesSnoc(BlocksOf(fs[..|fs| - 1]), BlockOf(f));
      if BlockPath(BlockOf(f)) != "" && |front| == |fs| - 1 {
        SnocEqual(front, Meanings(fs[..|fs| - 1]), BlockChange(BlockOf(f)), Meaning(f));
      }
    }
  }

  lemma SnocEqual<T>(a: seq<T>, b: seq<T>, x: T, y: T)
    requires |a| == |b|
    ensures a + [x] == b + [y] <==> a == b && x == y
  {
    if a + [x] == b + [y] {
      assert (a + [x])[|a|] == (b + [y])[|b|];
      assert (a + [x])[..|a|] == a && (b + [y])[..|b|] == b;
    }
  }

  /** Rendering a list of file diffs, deleted, binary and mode-only ones among
      them, and parsing the text gives the list back, one change a file in order,
      exactly when every path is one word, no added text starts with "++" and no
      removed text with "--". */
  lemma {:induction false} RenderThenParse(fs: seq<FileDiff>)
    requires AllWellFormed(fs)
    ensures Changes(Unlines(Render(fs))) == Meanings(fs) <==> AllFaithful(fs)
  {
    RenderedBlocks(fs);
    LinesOfUnlines(Render(fs));
    EmptyLineAddsNothing(Render(fs));
    BlocksRead(fs);
  }

  // ----- The path a file is read under -----

  /** The path an added line takes over, if its text looks like a file line. */
  function Overwrites(h: HunkLine): Option<string> {
    if h.Add? && HasPrefix(h.text, "++ b/") && h.text[5..] != "" && h.text[5..] != "/dev/null"
    then Some(h.text[5..]) else None
  }

  function LastOverwrite(hs: seq<HunkLine>): Option<string> {
    if hs == [] then None
    else if Overwrites(hs[|hs| - 1]).Some? then Overwrites(hs[|hs| - 1])
    else LastOverwrite(hs[..|hs| - 1])
  }

  /** The name comes from the header alone. */
  predicate HeaderOnly(f: FileDiff) {
    f.hunks.None? || f.fate.Deleted?
  }

  function PathRead(f: FileDiff): string {
    if HeaderOnly(f) then HeaderPath(HeaderOf(f.path))
    else if LastOverwrite(Hunks(f)).Some? then LastOverwrite(Hunks(f)).value
    else Marked(f.path)
  }

  lemma HunkLineNames(h: HunkLine)
    ensures NamedPath(RenderLine(h)) == Overwrites(h)
  {
    var l := RenderLine(h);
    FirstChars(l);
    if HasPrefix(l, "+++ b/") {
      assert l[1..] == h.text && l[1..6] == "++ b/" && l[6..] == h.text[5..];
      assert h.text[..5] == "++ b/";
    }
    assert h.Add? && HasPrefix(h.text, "++ b/") ==> l == "+++ b/" + h.text[5..];
  }

  lemma {:induction false} HunksName(start: string, ls: seq<string>, hs: seq<HunkLine>)
    ensures LastPath(start, ls + RenderHunks(hs)) ==
            if LastOverwrite(hs).Some? then LastOverwrite(hs).value else LastPath(start, ls)
    decreases |hs|
  {
    if hs == [] {
      NothingAdded(ls);
    } else {
      var front, h := hs[..|hs| - 1], hs[|hs| - 1];
      HunksName(start, ls, front);
      HunkLineNames(h);
      ConcatSnoc(ls, RenderHunks(front), RenderLine(h));
      var all := ls + RenderHunks(hs);
      assert all[|all| - 1] == RenderLine(h) && all[..|all| - 1] == ls + RenderHunks(front);
    }
  }

  lemma {:induction false} RemovedNamesNothing(hs: seq<HunkLine>)
    requires forall i :: 0 <= i < |hs| ==> hs[i].Remove?
    ensures LastOverwrite(hs).None?
    decreases |hs|
  {
    if hs != [] {
      RemovedNamesNothing(hs[..|hs| - 1]);
    }
  }

  lemma BlockNames(f: FileDiff)
    requires WellFormed(f)
    ensures BlockPath(BlockOf(f)) == PathRead(f)
  {
    ModeRead(f);
    if f.hunks.Some? {
      FileLinesRead(f);
      HunksName(HeaderPath(HeaderOf(f.path)), Top(f), Hunks(f));
      if f.fate.Deleted? {
        RemovedNamesNothing(Hunks(f));
      }
    }
  }

  /** The gate will judge the file under its own path: no added line takes the
      name over, and where only the header names it, it is one word. */
  predicate ReadRight(f: FileDiff) {
    && Trimmed(f.path)
    && if HeaderOnly(f) then IsWord(f.path)
       else LastOverwrite(Hunks(f)).None? || TrimSpace(LastOverwrite(Hunks(f)).value) == f.path
  }

  lemma MarkTrims(path: string)
    requires PlainPath(path)
    ensures TrimSpace(Marked(path)) == path <==> Trimmed(path)
  {
    TrimSpaceLaws(Marked(path));
    TrimSpaceLaws(path);
    if ' ' in path && Trimmed(path) {
      var m := path + "\t";
      assert TrimLeft(m) == m;
      assert m[..|m| - 1] == path;
      assert TrimRight(m) == TrimRight(path) == path;
    }
  }

  lemma ReadUnderItsPathExactly(f: FileDiff)
    requires WellFormed(f)
    ensures TrimSpace(BlockPath(BlockOf(f))) == f.path <==> ReadRight(f)
  {
    BlockNames(f);
    MarkTrims(f.path);
    if HeaderOnly(f) {
      ReadHeader(f.path);
      HeaderPathHasNoSpace(HeaderOf(f.path));
      TrimmedIsFixed(HeaderPath(HeaderOf(f.path)));
    } else if LastOverwrite(Hunks(f)).Some? {
      TrimSpaceLaws(LastOverwrite(Hunks(f)).value);
    }
  }

  /** An added line can rename its file for the parsers. */
  lemma AddedLineRenames(path: string, other: string)
    requires PlainPath(path) && OneLine(other) && other != "" && other != "/dev/null"
    ensures BlockPath(BlockOf(FileDiff(path, Kept, None, Some([Add("++ b/" + other)])))) == other
  {
    var h := Add("++ b/" + other);
    var f := FileDiff(path, Kept, None, Some([h]));
    assert h.text[5..] == other;
    assert [h][..0] == [];
    BlockNames(f);
  }

  /** A deleted file whose name has two words is read under the second one. */
  lemma DeletionIsRenamed(first: string, second: string, removed: seq<HunkLine>)
    requires IsWord(first) && IsWord(second) && PlainPath(first + (" " + second)) && !HasPrefix(second, "b/")
    requires forall i :: 0 <= i < |removed| ==> removed[i].Remove? && OneLine(removed[i].text)
    ensures BlockPath(BlockOf(FileDiff(first + (" " + second), Deleted, None, Some(removed)))) == second
  {
    var path := first + (" " + second);
    var f := FileDiff(path, Deleted, None, Some(removed));
    BlockNames(f);
    assert HeaderOf(path) == "diff --git a/" + path + " " + ("b/" + path);
    WordsOfSplitHeader(first, second, "b/" + path, HeaderOf(path));
  }

  lemma FourWords(d: string, g: string, a: string, b: string, last: string, two: string, three: string, all: string)
    requires IsWord(d) && IsWord(g) && IsWord(a) && IsWord(b)
    requires two == a + (" " + (b + (" " + last))) && three == g + (" " + two) && all == d + (" " + three)
    ensures Fields(all) == [d, g] + ([a, b] + Fields(last))
  {
    TwoWordsMore(a, b, last, b + (" " + last), two);
    TwoWordsMore(d, g, two, three, all);
  }

  lemma SpellSplitHeader(first: string, second: string, last: string, h: string) returns (two: string, three: string)
    requires h == "diff --git a/" + (first + (" " + second)) + " " + last
    ensures two == ("a/" + first) + (" " + (second + (" " + last)))
    ensures three == "--git" + (" " + two) && h == "diff" + (" " + three)
  {
    two := ("a/" + first) + (" " + (second + (" " + last)));
    three := "--git" + (" " + two);
    assert "diff --git a/" == "diff" + (" " + ("--git" + (" " + "a/")));
  }

  lemma {:induction false} WordsOfSplitHeader(first: string, second: string, last: string, h: string)
    requires IsWord(first) && IsWord(second) && !HasPrefix(second, "b/")
    requires h == "diff --git a/" + (first + (" " + second)) + " " + last
    ensures HeaderPath(h) == second
  {
    var two, three := SpellSplitHeader(first, second, last, h);
    assert IsWord("a/" + first);
    FourWords("diff", "--git", "a/" + first, second, last, two, three, h);
    assert Fields(h)[3] == second;
  }
}
