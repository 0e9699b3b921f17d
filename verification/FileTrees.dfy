// Copying a file tree and syncing an agent's sandbox back onto the git worktree
// (job_tree.go). A tree maps the path of each entry that is no directory.
module FileTrees {
  import opened Text
  import opened TextLines
  import opened Paths

  /** Anything that is neither a directory nor a regular file is Special. */
  datatype File = Regular(content: string, mode: nat) | Special(target: string)

  type Tree = map<string, File>

  predicate IsGitPath(rel: string) {
    rel == ".git" || HasPrefix(rel, ".git/")
  }

  /** What the copy takes along. */
  predicate Copied(src: Tree, rel: string) {
    rel in src && !IsGitPath(rel) && src[rel].Regular?
  }

  /** os.WriteFile: the mode is only used for a file that is not there yet. */
  function Written(was: Tree, rel: string, f: File): File
    requires f.Regular?
  {
    if rel in was && was[rel].Regular? then was[rel].(content := f.content) else f
  }

  ghost function CopyOf(src: Tree, dst: Tree): Tree {
    map rel | rel in src.Keys + dst.Keys && (Copied(src, rel) || rel in dst) ::
      if Copied(src, rel) then Written(dst, rel, src[rel]) else dst[rel]
  }

  /** The tracked files the sandbox no longer has. */
  predicate Dropped(src: Tree, tracked: seq<string>, rel: string) {
    rel in tracked && rel !in src
  }

  ghost function SyncOf(src: Tree, dst: Tree, tracked: Option<seq<string>>): Tree {
    var copied := CopyOf(src, dst);
    if tracked.None? then copied
    else map rel | rel in copied && !Dropped(src, tracked.value, rel) :: copied[rel]
  }

  /** A copy that has come as far as the paths in done. */
  ghost predicate HalfCopied(done: set<string>, src: Tree, before: Tree, now: Tree) {
    && (forall rel :: rel in done ==> Copied(src, rel))
    && (forall rel :: rel in now <==> rel in done || rel in before)
    && (forall rel :: rel in now ==> now[rel] == if rel in done then Written(before, rel, src[rel]) else before[rel])
  }

  lemma CopyOne(done: set<string>, src: Tree, before: Tree, now: Tree, rel: string)
    requires HalfCopied(done, src, before, now) && rel !in done && Copied(src, rel)
    ensures HalfCopied(done + {rel}, src, before, now[rel := Written(now, rel, src[rel])])
  {
  }

  lemma AllCopied(done: set<string>, src: Tree, before: Tree, now: Tree)
    requires HalfCopied(done, src, before, now) && forall rel :: rel in src && Copied(src, rel) ==> rel in done
    ensures now == CopyOf(src, before) && done == set rel | rel in src && Copied(src, rel)
  {
  }

  class Directory {
    var files: Tree

    constructor (files: Tree)
      ensures this.files == files
    {
      this.files := files;
    }
  }

  /** The walk lists every entry of the source once. */
  method CopyTreeFiles(src: Directory, dst: Directory, walk: seq<string>) returns (n: nat)
    requires src != dst
    requires forall rel :: rel in walk <==> rel in src.files
    requires forall i, j :: 0 <= i < j < |walk| ==> walk[i] != walk[j]
    modifies dst
    ensures dst.files == CopyOf(src.files, old(dst.files))
    ensures n == |set rel | rel in src.files && Copied(src.files, rel)|
  {
    n := 0;
    ghost var done: set<string>, before := {}, dst.files;
    var entries := src.files;
    for i := 0 to |walk|
      invariant forall rel :: rel in done <==> rel in walk[..i] && Copied(entries, rel)
      invariant n == |done|
      invariant HalfCopied(done, entries, before, dst.files)
    {
      if Copied(entries, walk[i]) {
        CopyOne(done, entries, before, dst.files, walk[i]);
        dst.files := dst.files[walk[i] := Written(dst.files, walk[i], entries[walk[i]])];
        done := done + {walk[i]};
        n := n + 1;
      }
    }
    TakeAll(walk);
    AllCopied(done, entries, before, dst.files);
  }

  /** tracked is None when git could not list the worktree's files. */
  method SyncSandboxTreeToPrimary(sandbox: Directory, primary: Directory, tracked: Option<seq<string>>, walk: seq<string>)
    requires sandbox != primary
    requires forall rel :: rel in walk <==> rel in sandbox.files
    requires forall i, j :: 0 <= i < j < |walk| ==> walk[i] != walk[j]
    modifies primary
    ensures primary.files == SyncOf(sandbox.files, old(primary.files), tracked)
  {
    var _ := CopyTreeFiles(sandbox, primary, walk);
    if tracked.None? {
      return;
    }
    ghost var copied := primary.files;
    for i := 0 to |tracked.value|
      invariant forall rel :: rel in primary.files <==>
        rel in copied && !Dropped(sandbox.files, tracked.value[..i], rel)
      invariant forall rel :: rel in primary.files ==> primary.files[rel] == copied[rel]
    {
      var rel := tracked.value[i];
      TakeSnoc(tracked.value, i);
      if rel !in sandbox.files {
        primary.files := primary.files - {rel};
      }
    }
    TakeAll(tracked.value);
  }

  // ----- When the primary then equals the sandbox -----

  /** The part of a tree that is neither git's own nor special. */
  function Plain(t: Tree): Tree {
    map rel | rel in t && !IsGitPath(rel) :: t[rel]
  }

  predicate SameContent(a: Tree, b: Tree) {
    a.Keys == b.Keys && forall rel :: rel in a ==> a[rel].Regular? && b[rel].Regular? && a[rel].content == b[rel].content
  }

  ghost predicate AllRegular(t: Tree) {
    forall rel :: rel in t && !IsGitPath(rel) ==> t[rel].Regular?
  }

  /** Every path the sandbox lacks is one git tracks, so the sync removes it. */
  predicate ExtrasTracked(src: Tree, dst: Tree, tracked: Option<seq<string>>) {
    forall rel :: rel in dst && !IsGitPath(rel) && rel !in src ==> tracked.Some? && rel in tracked.value
  }

  lemma SyncedAt(src: Tree, dst: Tree, tracked: Option<seq<string>>, rel: string)
    requires AllRegular(src) && !IsGitPath(rel)
    ensures rel in SyncOf(src, dst, tracked) <==>
            rel in src || (rel in dst && !(tracked.Some? && rel in tracked.value))
    ensures rel in src ==> SyncOf(src, dst, tracked)[rel] == Written(dst, rel, src[rel])
  {
    if rel in src {
      assert Copied(src, rel);
      assert rel in CopyOf(src, dst);
    }
  }

  /** After the sync the primary holds the sandbox's files and contents exactly
      when git tracks every file of the primary that the sandbox lacks. */
  lemma SyncCopiesContents(src: Tree, dst: Tree, tracked: Option<seq<string>>)
    requires AllRegular(src)
    ensures SameContent(Plain(SyncOf(src, dst, tracked)), Plain(src)) <==> ExtrasTracked(src, dst, tracked)
  {
    var p, q := Plain(SyncOf(src, dst, tracked)), Plain(src);
    forall rel | !IsGitPath(rel)
      ensures rel in p <==> rel in src || (rel in dst && !(tracked.Some? && rel in tracked.value))
      ensures rel in src ==> p[rel] == Written(dst, rel, src[rel])
    {
      SyncedAt(src, dst, tracked, rel);
    }
    if SameContent(p, q) {
      forall rel | rel in dst && !IsGitPath(rel) && rel !in src ensures tracked.Some? && rel in tracked.value {
        assert rel !in q.Keys;
        assert rel !in p.Keys;
      }
    }
    if ExtrasTracked(src, dst, tracked) {
      assert p.Keys == q.Keys;
    }
  }

  /** The modes agree too, and so the trees are equal, exactly when no file that
      both sides had differs in mode: an overwritten file keeps its own. */
  lemma SyncCopiesExactly(src: Tree, dst: Tree, tracked: Option<seq<string>>)
    requires AllRegular(src)
    ensures Plain(SyncOf(src, dst, tracked)) == Plain(src) <==>
            && ExtrasTracked(src, dst, tracked)
            && (forall rel :: rel in src && rel in dst && !IsGitPath(rel) && dst[rel].Regular? ==>
                  dst[rel].mode == src[rel].mode)
  {
    SyncCopiesContents(src, dst, tracked);
    var p, q := Plain(SyncOf(src, dst, tracked)), Plain(src);
    forall rel | rel in src && !IsGitPath(rel)
      ensures rel in p && rel in q && q[rel] == src[rel] && p[rel] == Written(dst, rel, src[rel])
    {
      SyncedAt(src, dst, tracked, rel);
    }
    if p == q {
      assert SameContent(p, q);
    }
  }

  lemma {:induction false} GitPathExactly(rel: string)
    ensures IsGitPath(rel) <==> Split(rel, '/')[0] == ".git"
  {
    NameThenSlash(rel, ".git");
    SplitAtFirst(rel);
    SplitOfOnePart(".git", '/');
    assert ".git" + "/" == ".git/";
  }

  /** The sync neither brings git's own directory along nor changes the primary's,
      whatever the sandbox has there; any other regular file comes along with its
      text, .github and .gitignore among them, and any other file that git tracks
      and the sandbox lacks goes. */
  lemma {:induction false} GitIsSpared(src: Tree, dst: Tree, tracked: Option<seq<string>>, rel: string)
    requires tracked.Some? && Split(rel, '/')[0] == ".git" ==> rel !in tracked.value
    ensures var after := SyncOf(src, dst, tracked);
            && (Split(rel, '/')[0] == ".git" ==> (rel in after <==> rel in dst) && (rel in dst ==> after[rel] == dst[rel]))
            && (Split(rel, '/')[0] != ".git" ==>
                  && (rel in src && src[rel].Regular? ==>
                        rel in after && after[rel].Regular? && after[rel].content == src[rel].content)
                  && (rel in src && src[rel].Special? ==> (rel in after <==> rel in dst) && (rel in dst ==> after[rel] == dst[rel]))
                  && (rel !in src && tracked.Some? && rel in tracked.value ==> rel !in after))
  {
    GitPathExactly(rel);
    assert Copied(src, rel) ==> rel in CopyOf(src, dst);
  }
}
