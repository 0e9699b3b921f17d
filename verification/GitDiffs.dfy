// What git shows of a working tree, and what the patch gate makes of it: the
// text of gitUnifiedDiff for any base, index and tree (agents_authz.go).
module GitDiffs {
  import opened Text
  import opened TextLines
  import opened CloudDiff
  import opened DiffLaws
  import opened DiffRender
  import opened PatchGate
  import opened FileTrees
  import opened Sets

  // ----- Trees as git records them -----

  datatype Blob = Blob(link: bool, content: string, exec: bool)

  predicate Executable(f: File) {
    f.Regular? && (f.mode / 64) % 2 == 1
  }

  function Recorded(f: File): Blob {
    match f
    case Regular(content, mode) => Blob(false, content, Executable(f))
    case Special(target) => Blob(true, target, false)
  }

  function GitMode(f: File): string {
    if f.Special? then "120000" else if Executable(f) then "100755" else "100644"
  }

  /** git records of the permissions whether the owner may execute the file. */
  lemma OwnerDecides(content: string, owner: nat, group: nat, others: nat)
    requires owner < 8 && group < 8 && others < 8
    ensures GitMode(Regular(content, 64 * owner + 8 * group + others)) == if owner % 2 == 1 then "100755" else "100644"
  {
    assert (64 * owner + 8 * group + others) / 64 == owner;
  }

  predicate ChangedPath(a: Tree, b: Tree, p: string) {
    (p in a) != (p in b) || (p in a && p in b && Recorded(a[p]) != Recorded(b[p]))
  }

  function ChangedPaths(a: Tree, b: Tree): set<string> {
    set p | p in a.Keys + b.Keys && ChangedPath(a, b, p)
  }

  /** The part of the working tree that git tracks. */
  function TrackedPart(work: Tree, index: Tree): Tree {
    map p | p in work && p in index :: work[p]
  }

  /** Everything gitUnifiedDiff lists: the tracked changes, the staged ones and
      the untracked files. */
  function ListedPaths(head: Tree, index: Tree, work: Tree): set<string> {
    ChangedPaths(head, TrackedPart(work, index)) + ChangedPaths(head, index) + (work.Keys - index.Keys)
  }

  lemma ChangesAreListed(head: Tree, index: Tree, work: Tree)
    ensures ChangedPaths(head, work) <= ListedPaths(head, index, work)
  {
  }

  // ----- The text -----

  /** Untracked files are shown as new files of at most fifty empty lines. The
      text of a path that git quotes is left open. */
  datatype Entry =
    | Tracked(f: FileDiff)
    | Untracked(path: string, mode: string, lines: nat)
    | Quoted(path: string, header: string, body: seq<string>)

  function PathOf(e: Entry): string {
    match e
    case Tracked(f) => f.path
    case Untracked(path, _, _) => path
    case Quoted(path, _, _) => path
  }

  /** git status puts a path with a space in quotes. */
  function StatusPath(path: string): string {
    if ' ' in path then "\"" + path + "\"" else path
  }

  function EntryBlock(e: Entry): Block {
    match e
    case Tracked(f) => BlockOf(f)
    case Untracked(path, mode, lines) =>
      Block(HeaderOf(StatusPath(path)), ["new file mode " + mode] + ["+++ b/" + StatusPath(path)] + seq(lines, _ => "+"))
    case Quoted(_, header, body) => Block(header, body)
  }

  predicate Formed(e: Entry) {
    match e
    case Tracked(f) => WellFormed(f)
    case Untracked(path, mode, lines) => PlainPath(path) && mode in {"100644", "100755"} && lines <= 50
    case Quoted(path, header, body) =>
      !PlainPath(path) && IsHeader(header) && OneLine(header)
      && forall i :: 0 <= i < |body| ==> !IsHeader(body[i]) && OneLine(body[i])
  }

  function EntryLines(e: Entry): seq<string> {
    (if e.Untracked? then [""] else []) + ([EntryBlock(e).header] + EntryBlock(e).body)
  }

  function ListingLines(es: seq<Entry>): seq<string> {
    if es == [] then [] else ListingLines(es[..|es| - 1]) + EntryLines(es[|es| - 1])
  }

  function ListingText(es: seq<Entry>): string {
    Unlines(ListingLines(es))
  }

  function BlocksIn(es: seq<Entry>): (bs: seq<Block>)
    ensures |bs| == |es| && forall i :: 0 <= i < |es| ==> bs[i] == EntryBlock(es[i])
  {
    seq(|es|, i requires 0 <= i < |es| => EntryBlock(es[i]))
  }

  predicate AllFormed(es: seq<Entry>) {
    forall i :: 0 <= i < |es| ==> Formed(es[i])
  }

  // ----- Reading the text -----

  lemma StatusLine(path: string)
    requires PlainPath(path)
    ensures OneLine(StatusPath(path)) && OneLine(HeaderOf(StatusPath(path)))
  {
    PlainWord(path);
  }

  lemma UntrackedLines(path: string, mode: string, lines: nat)
    requires Formed(Untracked(path, mode, lines))
    ensures NoHeader(["new file mode " + mode]) && NoHeader(["+++ b/" + StatusPath(path)]) && NoHeader(["+"])
  {
    StatusLine(path);
    FirstChars("new file mode " + mode);
    FirstChars("+++ b/" + StatusPath(path));
    FirstChars("+");
    assert ("new file mode " + mode)[0] == 'n';
    assert ("+++ b/" + StatusPath(path))[0] == '+';
  }

  lemma EntryText(e: Entry)
    requires Formed(e)
    ensures var b := EntryBlock(e); NoHeader(b.body) && OneLine(b.header) && IsHeader(b.header)
  {
    match e
    case Tracked(f) =>
      BodyHasNoHeader(f);
      ReadHeader(f.path);
    case Untracked(path, mode, lines) =>
      StatusLine(path);
      ReadHeader(StatusPath(path));
      UntrackedLines(path, mode, lines);
    case Quoted(_, _, _) =>
  }

  function ChangeIn(b: Block): seq<Change> {
    if BlockPath(b) == "" then [] else [BlockChange(b)]
  }

  lemma {:induction false} BlockReadNext(front: seq<string>, b: Block)
    requires IsHeader(b.header) && OneLine(b.header) && NoHeader(b.body) && AllOneLine(front)
    ensures AllOneLine(front + ([b.header] + b.body))
    ensures ChangesOf(Blocks(front + ([b.header] + b.body))) == ChangesOf(Blocks(front)) + ChangeIn(b)
  {
    BlocksOneMore(front, b.header, b.body);
    OneLinesConcat(front, b.header, b.body);
    ChangesSnoc(Blocks(front), b);
  }

  lemma {:induction false} EntryReadNext(front: seq<string>, e: Entry)
    requires Formed(e) && AllOneLine(front)
    ensures AllOneLine(front + EntryLines(e))
    ensures ChangesOf(Blocks(front + EntryLines(e))) == ChangesOf(Blocks(front)) + ChangeIn(EntryBlock(e))
  {
    var b := EntryBlock(e);
    EntryText(e);
    if e.Untracked? {
      EmptyLineAddsNothing(front);
      BlockReadNext(front + [""], b);
      Assoc(front, [""], [b.header] + b.body);
    } else {
      BlockReadNext(front, b);
      EmptyLeft([b.header] + b.body);
    }
  }

  lemma BlocksInSnoc(es: seq<Entry>)
    requires es != []
    ensures BlocksIn(es) == BlocksIn(es[..|es| - 1]) + [EntryBlock(es[|es| - 1])]
  {
  }

  lemma {:induction false} ListingLinesRead(es: seq<Entry>)
    requires AllFormed(es)
    ensures AllOneLine(ListingLines(es))
    ensures ChangesOf(Blocks(ListingLines(es))) == ChangesOf(BlocksIn(es))
    decreases |es|
  {
    if es != [] {
      var front, e := es[..|es| - 1], es[|es| - 1];
      ListingLinesRead(front);
      EntryReadNext(ListingLines(front), e);
      BlocksInSnoc(es);
      ChangesSnoc(BlocksIn(front), EntryBlock(e));
    }
  }

  /** The parser sees one block for each entry. */
  lemma ListingRead(es: seq<Entry>)
    requires AllFormed(es)
    ensures Changes(ListingText(es)) == ChangesOf(BlocksIn(es))
  {
    ListingLinesRead(es);
    LinesOfUnlines(ListingLines(es));
    EmptyLineAddsNothing(ListingLines(es));
  }

  lemma {:induction false} PlusLinesNameNothing(start: string, ls: seq<string>, n: nat)
    ensures LastPath(start, ls + seq(n, _ => "+")) == LastPath(start, ls)
    decreases n
  {
    var all := ls + seq(n, _ => "+");
    if n == 0 {
      assert all == ls;
    } else {
      PlusLinesNameNothing(start, ls, n - 1);
      assert all[..|all| - 1] == ls + seq(n - 1, _ => "+");
      assert all[|all| - 1] == "+" && NamedPath("+").None?;
    }
  }

  lemma UntrackedNames(path: string, mode: string, lines: nat)
    requires Formed(Untracked(path, mode, lines))
    ensures BlockPath(EntryBlock(Untracked(path, mode, lines))) == StatusPath(path)
  {
    var q := StatusPath(path);
    var ls := ["new file mode " + mode] + ["+++ b/" + q];
    var b := EntryBlock(Untracked(path, mode, lines));
    assert b.body == ls + seq(lines, _ => "+");
    PlusLinesNameNothing(HeaderPath(b.header), ls, lines);
    assert ls[|ls| - 1] == "+++ b/" + q && ("+++ b/" + q)[6..] == q && q[0] != '/';
  }

  /** The gate judges the entry under its own path. */
  predicate SeenRight(e: Entry)
    requires !e.Quoted?
  {
    match e
    case Tracked(f) => ReadRight(f)
    case Untracked(path, _, _) => IsWord(path)
  }

  lemma {:induction false} SeenUnderItsPathExactly(e: Entry)
    requires Formed(e) && !e.Quoted?
    ensures TrimSpace(BlockPath(EntryBlock(e))) == PathOf(e) <==> SeenRight(e)
  {
    match e
    case Tracked(f) => ReadUnderItsPathExactly(f);
    case Untracked(path, mode, lines) =>
      UntrackedNames(path, mode, lines);
      PlainWord(path);
      TrimmedIsFixed(StatusPath(path));
  }

  // ----- What git may show -----

  /** git chooses the hunks; an added line is a line of the new file. */
  predicate AddsItsLines(hs: seq<HunkLine>, f: File) {
    forall i :: 0 <= i < |hs| && hs[i].Add? ==> hs[i].text in Lines(Recorded(f).content)
  }

  predicate FileShown(f: FileDiff, a: Tree, b: Tree) {
    && f.path in ChangedPaths(a, b)
    && (f.fate.Deleted? <==> f.path !in b)
    && (f.fate.Created? <==> f.path !in a)
    && (f.path in b ==> AddsItsLines(Hunks(f), b[f.path]))
    && (f.fate.Created? ==> f.mode == Some(GitMode(b[f.path])))
    && (f.fate.Kept? ==>
          f.mode == if GitMode(a[f.path]) == GitMode(b[f.path]) then None else Some(GitMode(b[f.path])))
  }

  predicate AnyExecBit(f: File) {
    f.Regular? && ((f.mode / 64) % 2 == 1 || (f.mode / 8) % 2 == 1 || f.mode % 2 == 1)
  }

  function Min(a: nat, b: nat): nat {
    if a < b then a else b
  }

  /** gitUnifiedDiff's stand-in for an untracked file. The name git status gives
      for one with a space is not found again. */
  predicate StandIn(path: string, mode: string, lines: nat, f: File) {
    if ' ' in path then mode == "100644" && lines == 1
    else f.Regular? ==> mode == (if AnyExecBit(f) then "100755" else "100644") && lines == Min(|Lines(f.content)|, 50)
  }

  predicate EntryShown(e: Entry, head: Tree, index: Tree, work: Tree) {
    && Formed(e)
    && match e
       case Tracked(f) => FileShown(f, head, TrackedPart(work, index)) || FileShown(f, head, index)
       case Untracked(path, mode, lines) => path in work && path !in index && StandIn(path, mode, lines, work[path])
       case Quoted(path, _, _) => path in ListedPaths(head, index, work)
  }

  ghost predicate HasEntry(es: seq<Entry>, p: string) {
    exists i :: 0 <= i < |es| && PathOf(es[i]) == p
  }

  lemma HasEntryConcat(a: seq<Entry>, b: seq<Entry>)
    ensures forall p :: HasEntry(a, p) || HasEntry(b, p) ==> HasEntry(a + b, p)
  {
    forall p | HasEntry(a, p) || HasEntry(b, p) ensures HasEntry(a + b, p) {
      if i :| 0 <= i < |a| && PathOf(a[i]) == p {
        assert (a + b)[i] == a[i];
      } else {
        var j :| 0 <= j < |b| && PathOf(b[j]) == p;
        assert (a + b)[|a| + j] == b[j];
      }
    }
  }

  lemma HasEntrySnoc(es: seq<Entry>, e: Entry)
    ensures HasEntry(es + [e], PathOf(e))
    ensures forall p :: HasEntry(es, p) ==> HasEntry(es + [e], p)
  {
    HasEntryConcat(es, [e]);
    assert (es + [e])[|es|] == e;
  }

  ghost predicate Shows(es: seq<Entry>, head: Tree, index: Tree, work: Tree) {
    && (forall i :: 0 <= i < |es| ==> EntryShown(es[i], head, index, work))
    && (forall p :: p in ListedPaths(head, index, work) ==> HasEntry(es, p))
  }

  method ShowQuoted(path: string) returns (e: Entry)
    requires !PlainPath(path)
    ensures Formed(e) && e.Quoted? && e.path == path
  {
    var header: string := *;
    var body: seq<string> := *;
    e := Quoted(path, header, body);
    if !Formed(e) {
      assert IsHeader(HEADER);
      e := Quoted(path, HEADER, []);
    }
  }

  /** One file of a git diff from a to b; the hunks may be any. */
  method ShowFile(path: string, a: Tree, b: Tree) returns (e: Entry)
    requires path in ChangedPaths(a, b)
    ensures Formed(e) && PathOf(e) == path && !e.Untracked? && (e.Tracked? ==> FileShown(e.f, a, b))
  {
    if !PlainPath(path) {
      e := ShowQuoted(path);
      return;
    }
    var fate := if path !in b then Deleted else if path !in a then Created else Kept;
    var mode :=
      if path !in b then None
      else if path in a && GitMode(a[path]) == GitMode(b[path]) then None
      else Some(GitMode(b[path]));
    var hunks: Option<seq<HunkLine>> := *;
    var f := FileDiff(path, fate, mode, hunks);
    if !WellFormed(f) || (path in b && !AddsItsLines(Hunks(f), b[path])) {
      f := FileDiff(path, fate, mode, None);
    }
    e := Tracked(f);
  }

  method ShowUntracked(path: string, work: Tree) returns (e: Entry)
    requires path in work
    ensures Formed(e) && PathOf(e) == path && !e.Tracked?
    ensures e.Untracked? ==> StandIn(path, e.mode, e.lines, work[path])
  {
    if !PlainPath(path) {
      e := ShowQuoted(path);
      return;
    }
    if ' ' in path {
      return Untracked(path, "100644", 1);
    }
    match work[path] {
      case Regular(content, _) =>
        e := Untracked(path, if AnyExecBit(work[path]) then "100755" else "100644", Min(|Lines(content)|, 50));
      case Special(_) =>
        var exec: bool, lines: nat := *, *;
        e := Untracked(path, if exec then "100755" else "100644", Min(lines, 50));
    }
  }

  predicate ChangeShown(e: Entry, a: Tree, b: Tree) {
    Formed(e) && PathOf(e) in ChangedPaths(a, b) && !e.Untracked? && (e.Tracked? ==> FileShown(e.f, a, b))
  }

  predicate StandInShown(e: Entry, index: Tree, work: Tree) {
    && Formed(e) && PathOf(e) in work && PathOf(e) !in index && !e.Tracked?
    && (e.Untracked? ==> StandIn(e.path, e.mode, e.lines, work[e.path]))
  }

  method ShowChanges(a: Tree, b: Tree) returns (es: seq<Entry>)
    ensures forall i :: 0 <= i < |es| ==> ChangeShown(es[i], a, b)
    ensures forall p :: p in ChangedPaths(a, b) ==> HasEntry(es, p)
  {
    es := [];
    var todo := ChangedPaths(a, b);
    while todo != {}
      invariant todo <= ChangedPaths(a, b)
      invariant forall i :: 0 <= i < |es| ==> ChangeShown(es[i], a, b)
      invariant forall p :: p in ChangedPaths(a, b) && p !in todo ==> HasEntry(es, p)
      decreases |todo|
    {
      var p :| p in todo;
      var e := ShowFile(p, a, b);
      HasEntrySnoc(es, e);
      es := es + [e];
      todo := todo - {p};
    }
  }

  method ShowAllUntracked(index: Tree, work: Tree) returns (es: seq<Entry>)
    ensures forall i :: 0 <= i < |es| ==> StandInShown(es[i], index, work)
    ensures forall p :: p in work && p !in index ==> HasEntry(es, p)
  {
    es := [];
    var todo := work.Keys - index.Keys;
    while todo != {}
      invariant todo <= work.Keys - index.Keys
      invariant forall i :: 0 <= i < |es| ==> StandInShown(es[i], index, work)
      invariant forall p :: p in work && p !in index && p !in todo ==> HasEntry(es, p)
      decreases |todo|
    {
      var p :| p in todo;
      var e := ShowUntracked(p, work);
      HasEntrySnoc(es, e);
      es := es + [e];
      todo := todo - {p};
    }
  }

  /** git diff HEAD, then git diff --cached, then the untracked files. */
  method GitUnifiedDiff(head: Tree, index: Tree, work: Tree) returns (es: seq<Entry>)
    ensures Shows(es, head, index, work)
  {
    var changed := ShowChanges(head, TrackedPart(work, index));
    var cached := ShowChanges(head, index);
    var others := ShowAllUntracked(index, work);
    es := changed + cached + others;
    HasEntryConcat(changed, cached);
    HasEntryConcat(changed + cached, others);
    forall i | 0 <= i < |changed| ensures EntryShown(changed[i], head, index, work) {
      assert ChangeShown(changed[i], head, TrackedPart(work, index));
    }
    forall i | 0 <= i < |cached| ensures EntryShown(cached[i], head, index, work) {
      assert ChangeShown(cached[i], head, index);
    }
    forall i | 0 <= i < |others| ensures EntryShown(others[i], head, index, work) {
      assert StandInShown(others[i], index, work);
    }
  }

  // ----- What an accepted listing says about the tree -----

  /** Every entry will be judged under its own path. */
  predicate AllSeen(es: seq<Entry>) {
    forall i :: 0 <= i < |es| ==> !es[i].Quoted? && SeenRight(es[i])
  }

  predicate Allowed(p: string, allow: set<string>) {
    DeniedPath(p).None? && (allow != {} ==> p in allow)
  }

  lemma {:induction false} ChangeOfBlock(bs: seq<Block>, i: nat)
    requires i < |bs| && BlockPath(bs[i]) != ""
    ensures BlockChange(bs[i]) in ChangesOf(bs)
    decreases |bs|
  {
    if i < |bs| - 1 {
      ChangeOfBlock(bs[..|bs| - 1], i);
    }
  }

  lemma SeenIsCounted(es: seq<Entry>, i: nat)
    requires AllFormed(es) && i < |es| && !es[i].Quoted? && SeenRight(es[i])
    ensures PathOf(es[i]) in TouchedPaths(Changes(ListingText(es)))
    ensures exists c :: c in Changes(ListingText(es)) && Counted(c) && TrimSpace(c.path) == PathOf(es[i])
  {
    var b := EntryBlock(es[i]);
    SeenUnderItsPathExactly(es[i]);
    assert PlainPath(PathOf(es[i]));
    assert PathOf(es[i])[0] != '/';
    ListingRead(es);
    ChangeOfBlock(BlocksIn(es), i);
    var cs := Changes(ListingText(es));
    var j :| 0 <= j < |cs| && cs[j] == BlockChange(b);
    assert Counted(cs[j]);
  }

  /** An entry read under its own path is of a path the gate allows. */
  lemma AcceptedEntry(es: seq<Entry>, i: nat, allow: set<string>, caps: Caps)
    requires AllFormed(es) && Accepts(Changes(ListingText(es)), allow, caps)
    requires i < |es| && !es[i].Quoted? && SeenRight(es[i])
    ensures Allowed(PathOf(es[i]), allow)
  {
    SeenIsCounted(es, i);
    var cs := Changes(ListingText(es));
    var c :| c in cs && Counted(c) && TrimSpace(c.path) == PathOf(es[i]);
    var j :| 0 <= j < |cs| && cs[j] == c;
    assert Landable(cs[j], allow);
  }

  lemma ShownIsFormed(es: seq<Entry>, head: Tree, index: Tree, work: Tree)
    requires Shows(es, head, index, work)
    ensures AllFormed(es)
  {
    forall i | 0 <= i < |es| ensures Formed(es[i]) {
      assert EntryShown(es[i], head, index, work);
    }
  }

  /** Every changed path has an entry, and where that is read under the path, the
      gate has allowed it. */
  lemma GatedPath(es: seq<Entry>, head: Tree, index: Tree, work: Tree, allow: set<string>, caps: Caps, p: string) returns (i: nat)
    requires Shows(es, head, index, work) && Accepts(Changes(ListingText(es)), allow, caps)
    requires p in ChangedPaths(head, work)
    ensures i < |es| && PathOf(es[i]) == p
    ensures !es[i].Quoted? && SeenRight(es[i]) ==> Allowed(p, allow) && p in TouchedPaths(Changes(ListingText(es)))
  {
    ChangesAreListed(head, index, work);
    ShownIsFormed(es, head, index, work);
    i :| 0 <= i < |es| && PathOf(es[i]) == p;
    if !es[i].Quoted? && SeenRight(es[i]) {
      AcceptedEntry(es, i, allow, caps);
      SeenIsCounted(es, i);
    }
  }

  /** When every entry is read under its own path, an accepted tree differs from
      the base in at most MaxFiles paths, all of them allowed. */
  lemma GatedTree(es: seq<Entry>, head: Tree, index: Tree, work: Tree, allow: set<string>, caps: Caps)
    requires Shows(es, head, index, work) && Accepts(Changes(ListingText(es)), allow, caps) && AllSeen(es)
    ensures |ChangedPaths(head, work)| <= caps.maxFiles
    ensures forall p :: p in ChangedPaths(head, work) ==> Allowed(p, allow)
  {
    forall p | p in ChangedPaths(head, work) ensures Allowed(p, allow) && p in TouchedPaths(Changes(ListingText(es))) {
      var i := GatedPath(es, head, index, work, allow, caps, p);
    }
    SubsetSize(ChangedPaths(head, work), TouchedPaths(Changes(ListingText(es))));
  }

  /** All entries of a listing are judged under their own paths exactly when no
      added line takes over a name and every path that only a header names is one
      word. */
  lemma EveryPathSeenExactly(es: seq<Entry>)
    requires AllFormed(es) && forall i :: 0 <= i < |es| ==> !es[i].Quoted?
    ensures (forall i :: 0 <= i < |es| ==> TrimSpace(BlockPath(BlocksIn(es)[i])) == PathOf(es[i])) <==> AllSeen(es)
  {
    forall i | 0 <= i < |es| ensures TrimSpace(BlockPath(BlocksIn(es)[i])) == PathOf(es[i]) <==> SeenRight(es[i]) {
      SeenUnderItsPathExactly(es[i]);
    }
  }

  // ----- Trees that are always read right -----

  /** No line of the file reads like a file line of another path. */
  predicate NoTakeover(p: string, f: File) {
    forall k :: 0 <= k < |Lines(Recorded(f).content)| ==>
      var named := Overwrites(Add(Lines(Recorded(f).content)[k]));
      named.None? || TrimSpace(named.value) == p
  }

  predicate NoTakeovers(a: Tree, b: Tree) {
    forall p :: p in ChangedPaths(a, b) && p in b ==> NoTakeover(p, b[p])
  }

  /** Every listed path is one plain word, and no file that is shown with its lines
      has one that reads like a file line of another path. */
  predicate Unmistaken(head: Tree, index: Tree, work: Tree) {
    && (forall p :: p in ListedPaths(head, index, work) ==> PlainPath(p) && IsWord(p))
    && NoTakeovers(head, TrackedPart(work, index)) && NoTakeovers(head, index)
  }

  lemma {:induction false} LastOverwriteFrom(hs: seq<HunkLine>) returns (i: nat)
    requires LastOverwrite(hs).Some?
    ensures i < |hs| && hs[i].Add? && Overwrites(hs[i]) == LastOverwrite(hs)
    decreases |hs|
  {
    if Overwrites(hs[|hs| - 1]).Some? {
      i := |hs| - 1;
    } else {
      i := LastOverwriteFrom(hs[..|hs| - 1]);
    }
  }

  lemma {:induction false} UnmistakenFile(f: FileDiff, a: Tree, b: Tree)
    requires WellFormed(f) && FileShown(f, a, b) && IsWord(f.path) && NoTakeovers(a, b)
    ensures ReadRight(f)
  {
    if !HeaderOnly(f) && LastOverwrite(Hunks(f)).Some? {
      var i := LastOverwriteFrom(Hunks(f));
      var ls := Lines(Recorded(b[f.path]).content);
      assert Hunks(f)[i].text in ls;
      var k :| 0 <= k < |ls| && ls[k] == Hunks(f)[i].text;
      assert NoTakeover(f.path, b[f.path]);
      assert Add(ls[k]) == Hunks(f)[i];
    }
  }

  lemma {:induction false} UnmistakenEntry(e: Entry, head: Tree, index: Tree, work: Tree)
    requires EntryShown(e, head, index, work) && Unmistaken(head, index, work)
    ensures !e.Quoted? && SeenRight(e)
  {
    assert PathOf(e) in ListedPaths(head, index, work);
    match e
    case Tracked(f) =>
      if FileShown(f, head, TrackedPart(work, index)) {
        UnmistakenFile(f, head, TrackedPart(work, index));
      } else {
        UnmistakenFile(f, head, index);
      }
    case _ =>
  }

  lemma {:induction false} UnmistakenIsSeen(es: seq<Entry>, head: Tree, index: Tree, work: Tree)
    requires Shows(es, head, index, work) && Unmistaken(head, index, work)
    ensures AllSeen(es)
  {
    forall i | 0 <= i < |es| ensures !es[i].Quoted? && SeenRight(es[i]) {
      UnmistakenEntry(es[i], head, index, work);
    }
  }

  // What git can always show: every file without its lines.

  function FateIn(p: string, a: Tree, b: Tree): Fate {
    if p !in b then Deleted else if p !in a then Created else Kept
  }

  function ModeIn(p: string, a: Tree, b: Tree): Option<string> {
    if p !in b || (p in a && GitMode(a[p]) == GitMode(b[p])) then None else Some(GitMode(b[p]))
  }

  function Bare(p: string, a: Tree, b: Tree): Entry {
    Tracked(FileDiff(p, FateIn(p, a, b), ModeIn(p, a, b), None))
  }

  function EntryFor(p: string, head: Tree, index: Tree, work: Tree): Entry
    requires p in ListedPaths(head, index, work)
  {
    if !PlainPath(p) then Quoted(p, HEADER, [])
    else if p in ChangedPaths(head, TrackedPart(work, index)) then Bare(p, head, TrackedPart(work, index))
    else if p in ChangedPaths(head, index) then Bare(p, head, index)
    else if ' ' !in p && AnyExecBit(work[p]) then Untracked(p, "100755", Min(|Lines(Recorded(work[p]).content)|, 50))
    else Untracked(p, "100644", if ' ' in p then 1 else Min(|Lines(Recorded(work[p]).content)|, 50))
  }

  lemma {:induction false} EntryForIsShown(p: string, head: Tree, index: Tree, work: Tree)
    requires p in ListedPaths(head, index, work)
    ensures EntryShown(EntryFor(p, head, index, work), head, index, work) && PathOf(EntryFor(p, head, index, work)) == p
  {
    assert IsHeader(HEADER) && OneLine(HEADER);
    ModesAreTrimmed();
  }

  lemma ModesAreTrimmed()
    ensures forall f: File :: OneLine(GitMode(f)) && Trimmed(GitMode(f))
  {
  }

  lemma {:induction false} SomeListing(head: Tree, index: Tree, work: Tree, paths: set<string>) returns (es: seq<Entry>)
    requires paths <= ListedPaths(head, index, work)
    ensures forall i :: 0 <= i < |es| ==> EntryShown(es[i], head, index, work)
    ensures forall p :: p in paths ==> HasEntry(es, p)
    decreases |paths|
  {
    if paths == {} {
      es := [];
    } else {
      var p :| p in paths;
      var front := SomeListing(head, index, work, paths - {p});
      var e := EntryFor(p, head, index, work);
      EntryForIsShown(p, head, index, work);
      HasEntrySnoc(front, e);
      es := front + [e];
    }
  }

  lemma {:induction false} ListingWith(e: Entry, head: Tree, index: Tree, work: Tree) returns (es: seq<Entry>)
    requires EntryShown(e, head, index, work)
    ensures Shows(es, head, index, work) && es != [] && es[|es| - 1] == e
  {
    var front := SomeListing(head, index, work, ListedPaths(head, index, work));
    HasEntrySnoc(front, e);
    es := front + [e];
  }

  /** A line that takes a name over can be all git shows of the file. */
  lemma {:induction false} TakeoverEntry(p: string, a: Tree, b: Tree) returns (f: FileDiff)
    requires p in ChangedPaths(a, b) && p in b && PlainPath(p) && !NoTakeover(p, b[p])
    ensures WellFormed(f) && FileShown(f, a, b) && !ReadRight(f)
  {
    var ls := Lines(Recorded(b[p]).content);
    var k :| 0 <= k < |ls| && Overwrites(Add(ls[k])).Some? && TrimSpace(Overwrites(Add(ls[k])).value) != p;
    var hs := [Add(ls[k])];
    f := FileDiff(p, FateIn(p, a, b), ModeIn(p, a, b), Some(hs));
    SplitDraws(Recorded(b[p]).content, '\n');
    ModesAreTrimmed();
    assert LastOverwrite(hs) == Overwrites(hs[0]);
  }

  lemma {:induction false} MisreadEntry(head: Tree, index: Tree, work: Tree) returns (e: Entry)
    requires !Unmistaken(head, index, work)
    ensures EntryShown(e, head, index, work) && (e.Quoted? || !SeenRight(e))
  {
    if p :| p in ListedPaths(head, index, work) && !(PlainPath(p) && IsWord(p)) {
      e := EntryFor(p, head, index, work);
      EntryForIsShown(p, head, index, work);
    } else if !NoTakeovers(head, TrackedPart(work, index)) {
      var p :| p in ChangedPaths(head, TrackedPart(work, index)) && p in TrackedPart(work, index)
               && !NoTakeover(p, TrackedPart(work, index)[p]);
      var f := TakeoverEntry(p, head, TrackedPart(work, index));
      e := Tracked(f);
    } else {
      var p :| p in ChangedPaths(head, index) && p in index && !NoTakeover(p, index[p]);
      var f := TakeoverEntry(p, head, index);
      e := Tracked(f);
    }
  }

  /** Whatever git shows of the trees, every path is judged as itself exactly when
      the trees cannot be mistaken. */
  lemma {:induction false} AlwaysSeenExactly(head: Tree, index: Tree, work: Tree)
    ensures (forall es :: Shows(es, head, index, work) ==> AllSeen(es)) <==> Unmistaken(head, index, work)
  {
    if Unmistaken(head, index, work) {
      forall es: seq<Entry> | Shows(es, head, index, work) ensures AllSeen(es) {
        UnmistakenIsSeen(es, head, index, work);
      }
    } else {
      var e := MisreadEntry(head, index, work);
      var es := ListingWith(e, head, index, work);
      assert !AllSeen(es);
    }
  }

  // ----- Trees that are not -----

  lemma SingleRead(f: FileDiff, c: Change)
    requires WellFormed(f) && BlockChange(BlockOf(f)) == c && c.path != ""
    ensures Changes(ListingText([Tracked(f)])) == [c]
  {
    var es := [Tracked(f)];
    ListingRead(es);
    assert BlocksIn(es) == [] + [BlockOf(f)];
    ChangesSnoc([], BlockOf(f));
  }

  lemma {:induction false} SingleAccepted(c: Change, other: string)
    requires c.path == other && c.added + c.removed <= 800 && c.newMode == "" && !c.isSubmodule
    requires PlainPath(other) && IsWord(other) && DeniedPath(other).None?
    ensures Accepts([c], {other}, Caps(20, 800))
  {
    TrimmedIsFixed(other);
    TrimmedIsFixed("");
    assert other[0] != '/';
    assert Landable(c, {other});
    assert TouchedPaths([c]) <= {other};
    SubsetSize(TouchedPaths([c]), {other});
    assert [c][..0] == [];
    assert LinesTouched([c]) == LinesTouched([]) + Weight(c);
  }

  lemma {:induction false} NameLine(q: string)
    requires q != "" && q[0] != '/'
    ensures var l := "+++ b/" + q;
            !IsHeader(l) && NamedPath(l) == Some(q) && ModeOf(l).None? && !IsAdded(l) && !IsRemoved(l)
  {
    var l := "+++ b/" + q;
    FirstChars(l);
    assert l[..3] == "+++" && l[6..] == q && l[0] == '+';
  }

  lemma {:induction false} PlusLine()
    ensures !IsHeader("+") && NamedPath("+").None? && ModeOf("+").None? && IsAdded("+") && !IsRemoved("+")
  {
    FirstChars("+");
  }

  function Pluses(n: nat): seq<string> {
    seq(n, _ => "+")
  }

  lemma {:induction false} PlusLinesCount(b: Block, n: nat)
    ensures BlockChange(b.(body := b.body + Pluses(n))) == BlockChange(b).(added := BlockChange(b).added + n)
    decreases n
  {
    if n == 0 {
      assert b.body + Pluses(0) == b.body;
    } else {
      PlusLinesCount(b, n - 1);
      var front := b.(body := b.body + Pluses(n - 1));
      PlusLine();
      AbsorbedLine(front, "+");
      assert front.body + ["+"] == b.body + Pluses(n);
    }
  }

  lemma {:induction false} NewFileIsShown(path: string, f: File, lines: nat)
    requires Formed(Untracked(path, "100644", lines)) && StandIn(path, "100644", lines, f)
    ensures Shows([Untracked(path, "100644", lines)], map[], map[], map[path := f])
  {
    var e := Untracked(path, "100644", lines);
    assert EntryShown([e][0], map[], map[], map[path := f]);
    assert PathOf([e][0]) == path;
    assert ListedPaths(map[], map[], map[path := f]) <= {path};
  }

  /** The lines an untracked file is shown with are changed lines to the gate. */
  lemma {:induction false} UntrackedRead(path: string, lines: nat)
    requires PlainPath(path) && IsWord(path)
    ensures BlockChange(EntryBlock(Untracked(path, "100644", lines))) == Change(path, lines, 0, "100644", false)
  {
    PlainWord(path);
    ReadMode(Created, "100644");
    NameLine(path);
    var none := Block(HeaderOf(path), []);
    var one := Block(none.header, none.body + ["new file mode " + "100644"]);
    var two := Block(none.header, one.body + ["+++ b/" + path]);
    AbsorbedLine(none, "new file mode " + "100644");
    AbsorbedLine(one, "+++ b/" + path);
    PlusLinesCount(two, lines);
    UntrackedBlock(path, lines, two);
  }

  lemma {:induction false} UntrackedBlock(path: string, lines: nat, two: Block)
    requires ' ' !in path
    requires two == Block(HeaderOf(path), ([] + ["new file mode " + "100644"]) + ["+++ b/" + path])
    ensures EntryBlock(Untracked(path, "100644", lines)) == Block(two.header, two.body + Pluses(lines))
  {
  }

  /** One added line makes the gate judge another path than the one changed. */
  lemma AddedLineIsMisjudged(path: string, other: string)
    requires PlainPath(path) && PlainPath(other) && IsWord(other) && path != other && DeniedPath(other).None?
    ensures var head, work := map[path := Regular("", 0)], map[path := Regular("++ b/" + other, 0)];
            var es := [Tracked(FileDiff(path, Kept, None, Some([Add("++ b/" + other)])))];
            && Shows(es, head, head, work) && ChangedPaths(head, work) == {path}
            && Accepts(Changes(ListingText(es)), {other}, Caps(20, 800))
  {
    var h := Add("++ b/" + other);
    var f := FileDiff(path, Kept, None, Some([h]));
    PlainWord(other);
    AddedLineRenames(path, other);
    ModeRead(f);
    FileLinesRead(f);
    HunksRead(Block(HeaderOf(path), Top(f)), [h]);
    assert [h][..0] == [] && CountOf([], AddsLine) == 0 && CountOf([], RemovesLine) == 0;
    assert CountOf([h], AddsLine) == 1 && CountOf([h], RemovesLine) == 0;
    SingleRead(f, BlockChange(BlockOf(f)));
    SingleAccepted(BlockChange(BlockOf(f)), other);
    OneLineShown(f, "++ b/" + other);
  }

  lemma OneLineShown(f: FileDiff, text: string)
    requires WellFormed(f) && f == FileDiff(f.path, Kept, None, Some([Add(text)])) && text != ""
    ensures var head, work := map[f.path := Regular("", 0)], map[f.path := Regular(text, 0)];
            Shows([Tracked(f)], head, head, work) && ChangedPaths(head, work) == {f.path}
  {
    var head, work := map[f.path := Regular("", 0)], map[f.path := Regular(text, 0)];
    assert Hunks(f)[0] == Add(text);
    SplitOfOnePart(text, '\n');
    assert Lines(text)[0] == text;
    assert TrackedPart(work, head) == work;
    assert ChangedPaths(head, work) == {f.path} && ChangedPaths(head, head) == {};
    assert FileShown(f, head, work);
    assert EntryShown([Tracked(f)][0], head, head, work);
    assert PathOf([Tracked(f)][0]) == f.path;
  }

  /** A deleted file with a name of two words is judged under the second one. */
  lemma DeletionIsMisjudged(first: string, second: string)
    requires IsWord(first) && IsWord(second) && PlainPath(first + (" " + second)) && PlainPath(second)
    requires !HasPrefix(second, "b/") && DeniedPath(second).None?
    ensures var path := first + (" " + second);
            var head := map[path := Regular("", 0)];
            var es := [Tracked(FileDiff(path, Deleted, None, Some([])))];
            && Shows(es, head, head, map[]) && ChangedPaths(head, map[]) == {path}
            && Accepts(Changes(ListingText(es)), {second}, Caps(20, 800))
  {
    var path := first + (" " + second);
    DeletionIsRenamed(first, second, []);
    DeletionRead(path);
    var f := FileDiff(path, Deleted, None, Some([]));
    SingleRead(f, BlockChange(BlockOf(f)));
    SingleAccepted(BlockChange(BlockOf(f)), second);
    DeletionShown(path);
  }

  lemma DeletionRead(path: string)
    requires PlainPath(path)
    ensures var f := FileDiff(path, Deleted, None, Some([]));
            WellFormed(f) && BlockChange(BlockOf(f)) == Change(BlockPath(BlockOf(f)), 0, 0, "", false)
  {
    var f := FileDiff(path, Deleted, None, Some([]));
    ModeRead(f);
    FileLinesRead(f);
    NothingAdded(Top(f));
  }

  lemma DeletionShown(path: string)
    requires PlainPath(path)
    ensures var head := map[path := Regular("", 0)];
            var es := [Tracked(FileDiff(path, Deleted, None, Some([])))];
            Shows(es, head, head, map[]) && ChangedPaths(head, map[]) == {path}
  {
    var f := FileDiff(path, Deleted, None, Some([]));
    var head: Tree, work: Tree := map[path := Regular("", 0)], map[];
    assert TrackedPart(work, head) == work;
    assert ChangedPaths(head, work) == {path} && ChangedPaths(head, head) == {};
    assert FileShown(f, head, work);
    assert EntryShown([Tracked(f)][0], head, head, work);
    assert PathOf([Tracked(f)][0]) == path;
  }
}
