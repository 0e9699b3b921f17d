// Reading a unified diff: the changes the patch gate judges and the per-file
// chunks the review splits (agents_authz.go, scm_ai_review.go).
module CloudDiff {
  import opened Text
  import opened TextLines

  const HEADER: string := "diff --git "

  datatype Change = Change(path: string, added: nat, removed: nat, newMode: string, isSubmodule: bool)

  datatype FileUnit = FileUnit(id: string, diff: string)

  // ----- What one line says -----

  predicate IsHeader(l: string) {
    HasPrefix(l, HEADER)
  }

  function HeaderPath(l: string): string {
    var parts := Fields(l);
    if |parts| >= 4 then TrimPrefix(parts[3], "b/")
    else if |parts| >= 3 then TrimPrefix(parts[2], "a/")
    else "(unknown)"
  }

  function NamedPath(l: string): Option<string> {
    var p := TrimPrefix(l, "+++ b/");
    if HasPrefix(l, "+++ b/") && p != "" && p != "/dev/null" then Some(p) else None
  }

  function ModeOf(l: string): Option<string> {
    if HasPrefix(l, "new mode ") then Some(TrimSpace(TrimPrefix(l, "new mode ")))
    else if HasPrefix(l, "new file mode ") then Some(TrimSpace(TrimPrefix(l, "new file mode ")))
    else None
  }

  predicate IsAdded(l: string) {
    HasPrefix(l, "+") && !HasPrefix(l, "+++")
  }

  predicate IsRemoved(l: string) {
    HasPrefix(l, "-") && !HasPrefix(l, "---")
  }

  // ----- What a diff means -----

  /** A header line and the lines up to the next one. */
  datatype Block = Block(header: string, body: seq<string>)

  function Blocks(ls: seq<string>): seq<Block> {
    if ls == [] then []
    else
      var l, r := ls[|ls| - 1], Blocks(ls[..|ls| - 1]);
      if IsHeader(l) then r + [Block(l, [])]
      else if r == [] then []
      else r[..|r| - 1] + [r[|r| - 1].(body := r[|r| - 1].body + [l])]
  }

  function Preamble(ls: seq<string>): seq<string> {
    if ls == [] || IsHeader(ls[0]) then [] else [ls[0]] + Preamble(ls[1..])
  }

  function Count(ls: seq<string>, p: string -> bool): nat {
    if ls == [] then 0 else Count(ls[..|ls| - 1], p) + (if p(ls[|ls| - 1]) then 1 else 0)
  }

  /** The last path a body names, or the one given. */
  function LastPath(start: string, ls: seq<string>): string {
    if ls == [] then start
    else if NamedPath(ls[|ls| - 1]).Some? then NamedPath(ls[|ls| - 1]).value
    else LastPath(start, ls[..|ls| - 1])
  }

  function LastMode(ls: seq<string>): string {
    if ls == [] then ""
    else if ModeOf(ls[|ls| - 1]).Some? then ModeOf(ls[|ls| - 1]).value
    else LastMode(ls[..|ls| - 1])
  }

  predicate NamesSubmodule(ls: seq<string>) {
    exists i :: 0 <= i < |ls| && ModeOf(ls[i]) == Some("160000")
  }

  function BlockPath(b: Block): string {
    LastPath(HeaderPath(b.header), b.body)
  }

  function BlockChange(b: Block): Change {
    Change(BlockPath(b), Count(b.body, IsAdded), Count(b.body, IsRemoved), LastMode(b.body), NamesSubmodule(b.body))
  }

  /** A block is dropped when no path can be read off it. */
  function ChangesOf(bs: seq<Block>): seq<Change> {
    if bs == [] then []
    else
      var b := bs[|bs| - 1];
      ChangesOf(bs[..|bs| - 1]) + (if BlockPath(b) == "" then [] else [BlockChange(b)])
  }

  function BlockUnit(b: Block): FileUnit {
    FileUnit(BlockPath(b), Unlines([b.header] + b.body))
  }

  function UnitsOf(bs: seq<Block>): seq<FileUnit> {
    if bs == [] then []
    else
      var b := bs[|bs| - 1];
      UnitsOf(bs[..|bs| - 1]) + (if BlockPath(b) == "" then [] else [BlockUnit(b)])
  }

  function PreambleUnits(ls: seq<string>): seq<FileUnit> {
    var p := Preamble(ls);
    if p == [] then [] else [FileUnit(LastPath("(diff)", p), Unlines(p))]
  }

  /** Blank diffs are turned away before they are split. */
  predicate IsBlank(diff: string) {
    TrimSpace(diff) == ""
  }

  function Changes(diff: string): seq<Change> {
    ChangesOf(Blocks(Lines(diff)))
  }

  function Files(diff: string): seq<FileUnit> {
    if IsBlank(diff) then [] else PreambleUnits(Lines(diff)) + UnitsOf(Blocks(Lines(diff)))
  }

  // ----- The parsers -----

  lemma HeaderHasLetter(l: string)
    ensures IsHeader(l) ==> 'd' in l
  {
    assert HEADER[0] == 'd';
    assert IsHeader(l) ==> l[0] == 'd';
  }

  lemma BlankHasNoHeader(diff: string)
    requires IsBlank(diff)
    ensures forall i :: 0 <= i < |Lines(diff)| ==> !IsHeader(Lines(diff)[i])
  {
    var k := TrimLeftIs(diff);
    TrimRightIs(TrimLeft(diff));
    assert diff[..k] + TrimLeft(diff) == diff;
    assert forall c :: c in diff ==> IsSpace(c);
    SplitDraws(diff, '\n');
    forall i | 0 <= i < |Lines(diff)| ensures !IsHeader(Lines(diff)[i]) {
      HeaderHasLetter(Lines(diff)[i]);
    }
  }

  lemma {:induction false} HeaderlessHasNoBlocks(ls: seq<string>)
    requires forall i :: 0 <= i < |ls| ==> !IsHeader(ls[i])
    ensures Blocks(ls) == []
    decreases |ls|
  {
    if ls != [] {
      HeaderlessHasNoBlocks(ls[..|ls| - 1]);
    }
  }

  lemma {:induction false} PreambleSnoc(ls: seq<string>, l: string)
    ensures Preamble(ls + [l]) ==
            if Blocks(ls) == [] && !IsHeader(l) then Preamble(ls) + [l] else Preamble(ls)
    ensures Blocks(ls) == [] ==> Preamble(ls) == ls
    decreases |ls|
  {
    if ls != [] {
      BlocksOfTail(ls);
      PreambleSnoc(ls[1..], l);
      assert (ls + [l])[1..] == ls[1..] + [l];
    }
  }

  lemma {:induction false} BlocksOfTail(ls: seq<string>)
    requires ls != []
    ensures Blocks(ls) == [] <==> !IsHeader(ls[0]) && Blocks(ls[1..]) == []
    decreases |ls|
  {
    var n := |ls| - 1;
    if n > 0 {
      BlocksOfTail(ls[..n]);
      assert ls[..n][1..] == ls[1..][..n - 1];
    }
  }

  lemma BlocksSnoc(ls: seq<string>, l: string)
    ensures var r := Blocks(ls);
            Blocks(ls + [l]) == if IsHeader(l) then r + [Block(l, [])]
                                else if r == [] then []
                                else r[..|r| - 1] + [r[|r| - 1].(body := r[|r| - 1].body + [l])]
  {
    assert (ls + [l])[..|ls|] == ls;
  }

  /** How far the loop of parseCloudDiffChanges has come. */
  ghost predicate Scanned(ls: seq<string>, out: seq<Change>, cur: Option<Change>) {
    var bs := Blocks(ls);
    if bs == [] then out == [] && cur.None?
    else out == ChangesOf(bs[..|bs| - 1]) && cur == Some(BlockChange(bs[|bs| - 1]))
  }

  /** What one more line does to the change being read. */
  predicate Absorbs(c: Change, l: string, d: Change) {
    && d.path == (if NamedPath(l).Some? then NamedPath(l).value else c.path)
    && d.added == c.added + (if IsAdded(l) then 1 else 0)
    && d.removed == c.removed + (if IsRemoved(l) then 1 else 0)
    && d.newMode == (if ModeOf(l).Some? then ModeOf(l).value else c.newMode)
    && (d.isSubmodule <==> c.isSubmodule || ModeOf(l) == Some("160000"))
  }

  lemma AbsorbsOne(c: Change, l: string, d: Change, e: Change)
    requires Absorbs(c, l, d) && Absorbs(c, l, e)
    ensures d == e
  {
  }

  lemma AbsorbedLine(b: Block, l: string)
    ensures Absorbs(BlockChange(b), l, BlockChange(b.(body := b.body + [l])))
  {
    var ls := b.body + [l];
    assert ls[..|ls| - 1] == b.body && ls[|ls| - 1] == l;
    if NamesSubmodule(b.body) {
      var i :| 0 <= i < |b.body| && ModeOf(b.body[i]) == Some("160000");
      assert ls[i] == b.body[i];
    }
  }

  lemma {:induction false} ScanBody(ls: seq<string>, l: string, out: seq<Change>, c: Change, d: Change)
    requires Scanned(ls, out, Some(c)) && !IsHeader(l) && Absorbs(c, l, d)
    ensures Scanned(ls + [l], out, Some(d))
  {
    BlocksSnoc(ls, l);
    var bs := Blocks(ls);
    var b := bs[|bs| - 1].(body := bs[|bs| - 1].body + [l]);
    AbsorbedLine(bs[|bs| - 1], l);
    AbsorbsOne(c, l, d, BlockChange(b));
    assert Blocks(ls + [l])[..|bs| - 1] == bs[..|bs| - 1];
  }

  method ReadLine(was: Change, line: string) returns (c: Change)
    ensures Absorbs(was, line, c)
  {
    c := was;
    if ModeOf(line).Some? {
      c := c.(newMode := ModeOf(line).value);
      if c.newMode == "160000" {
        c := c.(isSubmodule := true);
      }
    }
    if NamedPath(line).Some? {
      c := c.(path := NamedPath(line).value);
    }
    if IsAdded(line) {
      c := c.(added := c.added + 1);
    }
    if IsRemoved(line) {
      c := c.(removed := c.removed + 1);
    }
  }

  /** One turn of the loop: a header flushes the change being read, and lines
      before the first header are passed over. */
  method ScanOneLine(ghost ls: seq<string>, out: seq<Change>, cur: Option<Change>, line: string)
      returns (next: seq<Change>, now: Option<Change>)
    requires Scanned(ls, out, cur)
    ensures Scanned(ls + [line], next, now)
  {
    next, now := out, cur;
    if IsHeader(line) {
      if cur.Some? && cur.value.path != "" {
        next := out + [cur.value];
      }
      now := Some(Change(HeaderPath(line), 0, 0, "", false));
    } else if cur.None? {
      BlocksSnoc(ls, line);
    } else {
      var c := ReadLine(cur.value, line);
      ScanBody(ls, line, out, cur.value, c);
      now := Some(c);
    }
  }

  method ScanLines(lines: seq<string>) returns (out: seq<Change>)
    ensures out == ChangesOf(Blocks(lines))
  {
    out := [];
    var cur: Option<Change> := None;
    ghost var done: seq<string> := [];
    for i := 0 to |lines|
      invariant done == lines[..i] && Scanned(done, out, cur)
    {
      out, cur := ScanOneLine(done, out, cur, lines[i]);
      done := done + [lines[i]];
      TakeSnoc(lines, i);
    }
    TakeAll(lines);
    if cur.Some? && cur.value.path != "" {
      out := out + [cur.value];
    }
  }

  method ParseCloudDiffChanges(diff: string) returns (out: seq<Change>)
    ensures out == Changes(diff)
  {
    if TrimSpace(diff) == "" {
      BlankHasNoHeader(diff);
      HeaderlessHasNoBlocks(Lines(diff));
      return [];
    }
    out := ScanLines(Lines(diff));
  }

  lemma {:induction false} LastPathNonempty(start: string, ls: seq<string>)
    requires start != ""
    ensures LastPath(start, ls) != ""
    decreases |ls|
  {
    if ls != [] {
      LastPathNonempty(start, ls[..|ls| - 1]);
    }
  }

  /** How far the loop of parseDiffFiles has come. */
  ghost predicate Filed(ls: seq<string>, out: seq<FileUnit>, cur: Option<FileUnit>) {
    var bs := Blocks(ls);
    if ls == [] then out == [] && cur.None?
    else if bs == [] then out == [] && cur == Some(FileUnit(LastPath("(diff)", ls), Unlines(ls)))
    else out == PreambleUnits(ls) + UnitsOf(bs[..|bs| - 1]) && cur == Some(BlockUnit(bs[|bs| - 1]))
  }

  /** A lone preamble is the unit being read; after a header it is the first one. */
  lemma PreambleFirst(ls: seq<string>, l: string)
    ensures Blocks(ls) == [] ==> PreambleUnits(ls) == if ls == [] then [] else [FileUnit(LastPath("(diff)", ls), Unlines(ls))]
    ensures Blocks(ls) != [] || IsHeader(l) ==> PreambleUnits(ls + [l]) == PreambleUnits(ls)
    ensures forall u :: u in PreambleUnits(ls) ==> u.id != ""
  {
    PreambleSnoc(ls, l);
    LastPathNonempty("(diff)", Preamble(ls));
  }

  /** What one more line does to the unit being read; lines before the first
      header start a synthetic unit. */
  function Extended(was: Option<FileUnit>, l: string): FileUnit {
    var w := if was.None? then FileUnit("(diff)", "") else was.value;
    FileUnit(if NamedPath(l).Some? then NamedPath(l).value else w.id, w.diff + l + NL)
  }

  lemma UnitGrows(b: Block, l: string)
    ensures BlockUnit(b.(body := b.body + [l])) == Extended(Some(BlockUnit(b)), l)
  {
    assert [b.header] + (b.body + [l]) == [b.header] + b.body + [l];
    UnlinesSnoc([b.header] + b.body, l);
  }

  lemma FileBody(ls: seq<string>, l: string, out: seq<FileUnit>, cur: Option<FileUnit>, d: FileUnit)
    requires Filed(ls, out, cur) && !IsHeader(l) && d == Extended(cur, l)
    ensures Filed(ls + [l], out, Some(d))
  {
    PreambleFirst(ls, l);
    BlocksSnoc(ls, l);
    var bs := Blocks(ls);
    if bs == [] {
      UnlinesSnoc(ls, l);
    } else {
      UnitGrows(bs[|bs| - 1], l);
      assert Blocks(ls + [l])[..|bs| - 1] == bs[..|bs| - 1];
    }
  }

  lemma FiledWhole(ls: seq<string>, out: seq<FileUnit>, cur: Option<FileUnit>)
    requires Filed(ls, out, cur)
    ensures cur.Some? <==> ls != []
    ensures PreambleUnits(ls) + UnitsOf(Blocks(ls)) == if cur.Some? && cur.value.id != "" then out + [cur.value] else out
  {
    PreambleFirst(ls, HEADER);
    var bs := Blocks(ls);
    if bs != [] {
      assert bs == bs[..|bs| - 1] + [bs[|bs| - 1]];
    }
  }

  lemma FreshUnit(l: string)
    ensures BlockUnit(Block(l, [])) == FileUnit(HeaderPath(l), l + NL)
  {
    UnlinesCons(l, []);
    assert [l] + [] == [l];
  }

  lemma FileHeader(ls: seq<string>, l: string, out: seq<FileUnit>, cur: Option<FileUnit>, next: seq<FileUnit>)
    requires Filed(ls, out, cur) && IsHeader(l)
    requires next == if cur.Some? && cur.value.id != "" then out + [cur.value] else out
    ensures Filed(ls + [l], next, Some(FileUnit(HeaderPath(l), l + NL)))
  {
    PreambleFirst(ls, l);
    FreshUnit(l);
    FiledWhole(ls, out, cur);
    var bs, after := Blocks(ls), Blocks(ls + [l]);
    BlocksSnoc(ls, l);
    assert after[..|after| - 1] == bs && after[|after| - 1] == Block(l, []);
  }

  method ReadFileLine(was: Option<FileUnit>, line: string) returns (c: FileUnit)
    ensures c == Extended(was, line)
  {
    c := if was.None? then FileUnit("(diff)", "") else was.value;
    c := c.(diff := c.diff + line + NL);
    if NamedPath(line).Some? {
      c := c.(id := NamedPath(line).value);
    }
  }

  /** One turn of the loop: a header flushes the unit being read. */
  method FileOneLine(ghost ls: seq<string>, out: seq<FileUnit>, cur: Option<FileUnit>, line: string)
      returns (next: seq<FileUnit>, now: Option<FileUnit>)
    requires Filed(ls, out, cur)
    ensures Filed(ls + [line], next, now)
  {
    next := out;
    if IsHeader(line) {
      if cur.Some? && cur.value.id != "" {
        next := out + [cur.value];
      }
      FileHeader(ls, line, out, cur, next);
      now := Some(FileUnit(HeaderPath(line), line + NL));
    } else {
      var c := ReadFileLine(cur, line);
      FileBody(ls, line, out, cur, c);
      now := Some(c);
    }
  }

  method FileLines(lines: seq<string>) returns (out: seq<FileUnit>)
    ensures out == PreambleUnits(lines) + UnitsOf(Blocks(lines))
  {
    out := [];
    var cur: Option<FileUnit> := None;
    ghost var done: seq<string> := [];
    for i := 0 to |lines|
      invariant done == lines[..i] && Filed(done, out, cur)
    {
      out, cur := FileOneLine(done, out, cur, lines[i]);
      done := done + [lines[i]];
      TakeSnoc(lines, i);
    }
    TakeAll(lines);
    FiledWhole(lines, out, cur);
    if cur.Some? && cur.value.id != "" {
      out := out + [cur.value];
    }
  }

  method ParseDiffFiles(diff: string) returns (out: seq<FileUnit>)
    ensures out == Files(diff)
  {
    if TrimSpace(diff) == "" {
      return [];
    }
    out := FileLines(Lines(diff));
  }
}
