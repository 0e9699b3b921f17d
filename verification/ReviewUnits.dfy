// Splitting a diff into the units a review looks at, grouped by package when
// there are too many files (scm_ai_review.go). Lengths count characters.
module ReviewUnits {
  import opened Text
  import opened TextLines
  import opened Paths
  import opened CloudDiff
  import opened StableSort
  import PatchGate

  const MAX_UNIT_DIFF: nat := 40000
  const TRUNCATED: string := "\n\U{2026} truncated \U{2026}\n"

  const SKIPPED_SUFFIXES: seq<string> := [
    ".png", ".jpg", ".jpeg", ".gif", ".webp", ".ico", ".svg", ".pdf",
    ".woff", ".woff2", ".ttf", ".eot", ".mp4", ".mp3", ".zip", ".gz",
    ".jar", ".wasm", ".bin", ".exe", ".dll", ".so", ".dylib",
    ".min.js", ".min.css", ".map"]

  datatype ReviewUnit = ReviewUnit(id: string, isPackage: bool, paths: seq<string>, diff: string, isUI: bool)

  predicate ShouldSkip(path: string) {
    var base := ToLower(Base(path));
    || base in PatchGate.LOCKFILES
    || (exists i :: 0 <= i < |SKIPPED_SUFFIXES| && HasSuffix(base, SKIPPED_SUFFIXES[i]))
    || Index(path, "/vendor/") >= 0 || Index(path, "/node_modules/") >= 0
  }

  function Truncate(diff: string): string {
    if |diff| > MAX_UNIT_DIFF then diff[..MAX_UNIT_DIFF] + TRUNCATED else diff
  }

  /** topLevelPackage */
  function PackageOf(path: string): string {
    var parts := Split(TrimPrefix(path, "./"), '/');
    if parts[0] == "" || |parts| == 1 then "(root)"
    else if parts[0] in ["src", "pkg", "internal", "lib", "app", "packages", "services"] then parts[0] + "/" + parts[1]
    else parts[0]
  }

  // ----- What the units are -----

  function FileReview(f: FileUnit, looksUI: string -> bool): ReviewUnit {
    ReviewUnit(f.id, false, [f.id], Truncate(f.diff), looksUI(f.id))
  }

  function Kept(files: seq<FileUnit>, looksUI: string -> bool): seq<ReviewUnit> {
    if files == [] then []
    else
      var f := files[|files| - 1];
      Kept(files[..|files| - 1], looksUI) + (if ShouldSkip(f.id) then [] else [FileReview(f, looksUI)])
  }

  function EndLine(diff: string): string {
    if HasSuffix(diff, "\n") then diff else diff + "\n"
  }

  datatype Bucket = Bucket(paths: seq<string>, diff: string, isUI: bool)

  /** Everything the units of one package add up to. */
  function BucketOf(units: seq<ReviewUnit>, key: string): Bucket {
    if units == [] then Bucket([], "", false)
    else
      var b, u := BucketOf(units[..|units| - 1], key), units[|units| - 1];
      if PackageOf(u.id) != key then b
      else Bucket(b.paths + u.paths, EndLine(b.diff + u.diff), b.isUI || u.isUI)
  }

  /** The packages in the order they first occur. */
  function Packages(units: seq<ReviewUnit>): seq<string> {
    if units == [] then []
    else
      var r, key := Packages(units[..|units| - 1]), PackageOf(units[|units| - 1].id);
      if key in r then r else r + [key]
  }

  // ----- Grouping -----

  function PackageReview(units: seq<ReviewUnit>, key: string): ReviewUnit {
    var b := BucketOf(units, key);
    ReviewUnit(key, true, b.paths, Truncate(b.diff), b.isUI)
  }

  function PackageReviews(units: seq<ReviewUnit>, keys: seq<string>): seq<ReviewUnit> {
    if keys == [] then []
    else PackageReviews(units, keys[..|keys| - 1]) + [PackageReview(units, keys[|keys| - 1])]
  }

  function SizeIn(units: seq<ReviewUnit>): string -> nat {
    key => |BucketOf(units, key).diff|
  }

  function ChosenPackages(units: seq<ReviewUnit>, maxUnits: nat): seq<string> {
    Top(Sorted(Packages(units), SizeIn(units)), maxUnits)
  }

  function Units(diff: string, maxUnits: nat, looksUI: string -> bool): seq<ReviewUnit> {
    var kept := Kept(Files(diff), looksUI);
    if |kept| <= maxUnits then kept else PackageReviews(kept, ChosenPackages(kept, maxUnits))
  }

  // ----- The splitter -----

  function WithKey(keys: seq<string>, key: string): seq<string> {
    if key in keys then keys else keys + [key]
  }

  lemma WithKeyLaws(keys: seq<string>, key: string)
    requires Distinct(keys)
    ensures Distinct(WithKey(keys, key)) && key in WithKey(keys, key)
    ensures forall k :: k in keys ==> k in WithKey(keys, key)
  {
  }

  lemma PackagesSnoc(units: seq<ReviewUnit>)
    requires units != []
    ensures Packages(units) == WithKey(Packages(units[..|units| - 1]), PackageOf(units[|units| - 1].id))
  {
  }

  lemma {:induction false} PackagesDistinct(units: seq<ReviewUnit>)
    ensures Distinct(Packages(units))
    decreases |units|
  {
    if units != [] {
      PackagesDistinct(units[..|units| - 1]);
      PackagesSnoc(units);
      WithKeyLaws(Packages(units[..|units| - 1]), PackageOf(units[|units| - 1].id));
    }
  }

  lemma {:induction false} PackageListed(units: seq<ReviewUnit>, u: ReviewUnit, key: string)
    requires u in units && key == PackageOf(u.id)
    ensures key in Packages(units)
    decreases |units|
  {
    var front, last := units[..|units| - 1], units[|units| - 1];
    PackagesSnoc(units);
    PackagesDistinct(front);
    WithKeyLaws(Packages(front), PackageOf(last.id));
    if u != last {
      assert units == front + [last];
      PackageListed(front, u, key);
    }
  }

  lemma {:induction false} PackagesLaws(units: seq<ReviewUnit>)
    ensures Distinct(Packages(units))
    ensures forall i :: 0 <= i < |units| ==> PackageOf(units[i].id) in Packages(units)
  {
    PackagesDistinct(units);
    forall i | 0 <= i < |units| ensures PackageOf(units[i].id) in Packages(units) {
      PackageListed(units, units[i], PackageOf(units[i].id));
    }
  }

  lemma {:induction false} OtherBucketsEmpty(units: seq<ReviewUnit>, key: string)
    requires key !in Packages(units)
    ensures BucketOf(units, key) == Bucket([], "", false)
    decreases |units|
  {
    if units != [] {
      OtherBucketsEmpty(units[..|units| - 1], key);
    }
  }

  /** The buckets, filled in one pass over the units. */
  ghost predicate Filled(units: seq<ReviewUnit>, order: seq<string>, m: map<string, Bucket>) {
    && order == Packages(units)
    && (forall key :: key in m <==> key in order)
    && (forall key :: key in m ==> m[key] == BucketOf(units, key))
  }

  lemma {:induction false} FillOne(units: seq<ReviewUnit>, order: seq<string>, m: map<string, Bucket>, u: ReviewUnit)
    requires Filled(units, order, m)
    ensures var key := PackageOf(u.id);
            var b := if key in m then m[key] else Bucket([], "", false);
            Filled(units + [u], if key in m then order else order + [key],
                   m[key := Bucket(b.paths + u.paths, EndLine(b.diff + u.diff), b.isUI || u.isUI)])
  {
    if PackageOf(u.id) !in order {
      OtherBucketsEmpty(units, PackageOf(u.id));
    }
    forall key ensures BucketOf(units + [u], key) ==
        var b := BucketOf(units, key);
        if PackageOf(u.id) != key then b else Bucket(b.paths + u.paths, EndLine(b.diff + u.diff), b.isUI || u.isUI)
    {
    }
  }

  method FillBuckets(units: seq<ReviewUnit>) returns (order: seq<string>, m: map<string, Bucket>)
    ensures Filled(units, order, m)
  {
    order, m := [], map[];
    for i := 0 to |units|
      invariant Filled(units[..i], order, m)
    {
      var u := units[i];
      TakeSnoc(units, i);
      FillOne(units[..i], order, m, u);
      var key := PackageOf(u.id);
      var b := Bucket([], "", false);
      if key in m {
        b := m[key];
      } else {
        order := order + [key];
      }
      m := m[key := Bucket(b.paths + u.paths, EndLine(b.diff + u.diff), b.isUI || u.isUI)];
    }
    TakeAll(units);
  }

  lemma {:induction false} SortedBySameSize(keys: seq<string>, f: string -> nat, g: string -> nat)
    requires forall k :: k in keys ==> f(k) == g(k)
    ensures Sorted(keys, f) == Sorted(keys, g)
    decreases |keys|
  {
    if keys != [] {
      var front, last := keys[..|keys| - 1], keys[|keys| - 1];
      SortedBySameSize(front, f, g);
      SortedMembers(front, f);
      InsertBySameSize(last, Sorted(front, f), f, g);
    }
  }

  lemma SortedMembers(keys: seq<string>, size: string -> nat)
    ensures forall x :: x in Sorted(keys, size) <==> x in keys
    ensures |Sorted(keys, size)| == |keys|
  {
    SortedLaws(keys, size);
    var r := Sorted(keys, size);
    assert |multiset(r)| == |r| && |multiset(keys)| == |keys|;
    forall x ensures x in r <==> x in keys {
      assert x in r <==> x in multiset(r);
      assert x in keys <==> x in multiset(keys);
    }
  }

  lemma {:induction false} InsertBySameSize(k: string, sorted: seq<string>, f: string -> nat, g: string -> nat)
    requires f(k) == g(k) && forall x :: x in sorted ==> f(x) == g(x)
    ensures Insert(k, sorted, f) == Insert(k, sorted, g)
    decreases |sorted|
  {
    if sorted != [] {
      InsertBySameSize(k, sorted[..|sorted| - 1], f, g);
    }
  }

  method GroupUnitsByPackage(units: seq<ReviewUnit>, maxUnits: nat) returns (out: seq<ReviewUnit>)
    ensures out == PackageReviews(units, ChosenPackages(units, maxUnits))
  {
    var order, m := FillBuckets(units);
    var sizes := map key | key in m :: |m[key].diff|;
    var size: string -> nat := key => if key in sizes then sizes[key] else 0;
    SortedBySameSize(order, size, SizeIn(units));
    SortedMembers(order, size);
    order := Sorted(order, size);
    if |order| > maxUnits {
      order := order[..maxUnits];
    }
    out := [];
    for i := 0 to |order|
      invariant out == PackageReviews(units, order[..i])
    {
      TakeSnoc(order, i);
      ReviewsSnoc(units, order[..i], order[i]);
      var b := m[order[i]];
      var hunk := b.diff;
      if |hunk| > MAX_UNIT_DIFF {
        hunk := hunk[..MAX_UNIT_DIFF] + TRUNCATED;
      }
      out := out + [ReviewUnit(order[i], true, b.paths, hunk, b.isUI)];
    }
    TakeAll(order);
  }

  lemma ReviewsSnoc(units: seq<ReviewUnit>, keys: seq<string>, key: string)
    ensures PackageReviews(units, keys + [key]) == PackageReviews(units, keys) + [PackageReview(units, key)]
  {
    assert (keys + [key])[..|keys|] == keys;
  }

  lemma KeptSnoc(files: seq<FileUnit>, f: FileUnit, looksUI: string -> bool)
    ensures Kept(files + [f], looksUI) == Kept(files, looksUI) + (if ShouldSkip(f.id) then [] else [FileReview(f, looksUI)])
  {
    assert (files + [f])[..|files|] == files;
  }

  method KeepFiles(files: seq<FileUnit>, looksUI: string -> bool) returns (kept: seq<ReviewUnit>)
    ensures kept == Kept(files, looksUI)
  {
    kept := [];
    for i := 0 to |files|
      invariant kept == Kept(files[..i], looksUI)
    {
      TakeSnoc(files, i);
      KeptSnoc(files[..i], files[i], looksUI);
      if ShouldSkip(files[i].id) {
        continue;
      }
      kept := kept + [FileReview(files[i], looksUI)];
    }
    TakeAll(files);
  }

  method SplitDiffIntoReviewUnits(diff: string, maxUnits: nat, looksUI: string -> bool) returns (out: seq<ReviewUnit>)
    ensures out == Units(diff, maxUnits, looksUI)
  {
    var files := ParseDiffFiles(diff);
    var kept := KeepFiles(files, looksUI);
    if |kept| <= maxUnits {
      return kept;
    }
    out := GroupUnitsByPackage(kept, maxUnits);
  }

  // ----- Nothing is lost or doubled -----

  function AllPaths(units: seq<ReviewUnit>): multiset<string> {
    if units == [] then multiset{} else AllPaths(units[..|units| - 1]) + multiset(units[|units| - 1].paths)
  }

  /** The paths of the given packages, whatever their order. */
  function PathsIn(units: seq<ReviewUnit>, keys: seq<string>): multiset<string> {
    if keys == [] then multiset{} else PathsIn(units, keys[..|keys| - 1]) + multiset(BucketOf(units, keys[|keys| - 1]).paths)
  }

  lemma {:induction false} ReviewPaths(units: seq<ReviewUnit>, keys: seq<string>)
    ensures AllPaths(PackageReviews(units, keys)) == PathsIn(units, keys)
    ensures |PackageReviews(units, keys)| == |keys|
    decreases |keys|
  {
    if keys != [] {
      var front, last := keys[..|keys| - 1], keys[|keys| - 1];
      ReviewPaths(units, front);
    }
  }

  lemma {:induction false} PathsInSnoc(units: seq<ReviewUnit>, u: ReviewUnit, keys: seq<string>)
    requires Distinct(keys)
    ensures PathsIn(units + [u], keys) ==
            PathsIn(units, keys) + (if PackageOf(u.id) in keys then multiset(u.paths) else multiset{})
    decreases |keys|
  {
    if keys != [] {
      var front, last := keys[..|keys| - 1], keys[|keys| - 1];
      PathsInSnoc(units, u, front);
      FrontAndLast(keys);
      assert last !in front;
      if PackageOf(u.id) == last {
        var b := BucketOf(units, last);
        assert multiset(b.paths + u.paths) == multiset(b.paths) + multiset(u.paths);
      }
    }
  }

  lemma {:induction false} PathsOfPackages(units: seq<ReviewUnit>, keys: seq<string>)
    requires Distinct(keys)
    ensures PathsIn(units, keys) <= AllPaths(units)
    ensures (forall i :: 0 <= i < |units| ==> PackageOf(units[i].id) in keys) ==> PathsIn(units, keys) == AllPaths(units)
    decreases |units|
  {
    if units == [] {
      NoPaths(keys);
    } else {
      var front, u := units[..|units| - 1], units[|units| - 1];
      PathsOfPackages(front, keys);
      PathsInSnoc(front, u, keys);
      FrontAndLast(units);
      assert forall i :: 0 <= i < |front| ==> front[i] == units[i];
    }
  }

  lemma {:induction false} NoPaths(keys: seq<string>)
    ensures PathsIn([], keys) == multiset{}
    decreases |keys|
  {
    if keys != [] {
      NoPaths(keys[..|keys| - 1]);
    }
  }

  lemma DistinctPrefix(keys: seq<string>, n: nat)
    requires Distinct(keys) && n <= |keys|
    ensures Distinct(keys[..n])
  {
  }

  /** At most maxUnits units come out. When there are no more packages than that,
      every path of a file that is not skipped is in them as often as in the
      diff; otherwise none more often. */
  lemma {:induction false} PathsPreserved(diff: string, maxUnits: nat, looksUI: string -> bool)
    ensures var kept, out := Kept(Files(diff), looksUI), Units(diff, maxUnits, looksUI);
            && |out| <= maxUnits
            && AllPaths(out) <= AllPaths(kept)
            && (|kept| <= maxUnits || |Packages(kept)| <= maxUnits ==> AllPaths(out) == AllPaths(kept))
  {
    var kept := Kept(Files(diff), looksUI);
    if |kept| > maxUnits {
      GroupPreserves(kept, maxUnits);
    }
  }

  lemma {:induction false} GroupPreserves(kept: seq<ReviewUnit>, maxUnits: nat)
    ensures var out := PackageReviews(kept, ChosenPackages(kept, maxUnits));
            && |out| <= maxUnits && AllPaths(out) <= AllPaths(kept)
            && (|Packages(kept)| <= maxUnits ==> AllPaths(out) == AllPaths(kept))
  {
    var keys := Packages(kept);
    var order, chosen := Sorted(keys, SizeIn(kept)), ChosenPackages(kept, maxUnits);
    PackagesLaws(kept);
    SortedLaws(keys, SizeIn(kept));
    DistinctByCount(keys, order);
    SortedMembers(keys, SizeIn(kept));
    if |order| > maxUnits {
      DistinctPrefix(order, maxUnits);
    }
    ReviewPaths(kept, chosen);
    PathsOfPackages(kept, chosen);
  }

  /** Grouping keeps whole packages, and each kept one is at least as large as
      each one dropped. */
  lemma {:induction false} LargestPackagesKept(kept: seq<ReviewUnit>, maxUnits: nat, key: string, other: string)
    requires key in ChosenPackages(kept, maxUnits) && other in Packages(kept) && other !in ChosenPackages(kept, maxUnits)
    ensures |BucketOf(kept, key).diff| >= |BucketOf(kept, other).diff|
    ensures |Packages(kept)| > maxUnits
  {
    SortedLaws(Packages(kept), SizeIn(kept));
    SortedMembers(Packages(kept), SizeIn(kept));
  }

  // ----- Which files are left out -----

  /** A file is left out of the review exactly when its name, in any case of
      letters, is that of a lock file or ends like a picture, a font, a binary or
      generated code, or it lies below a directory vendor or node_modules that is
      not the first one of the path. */
  lemma {:induction false} SkippedExactly(path: string)
    ensures var segments := Split(path, '/');
            var name := ToLower(LastNamed(segments));
            ShouldSkip(path) <==>
              || PatchGate.IsLockfileName(name)
              || (exists suffix :: suffix in SKIPPED_SUFFIXES && HasSuffix(name, suffix))
              || HasInner(segments, "vendor") || HasInner(segments, "node_modules")
  {
    BetweenSlashesExactly(path, "vendor");
    BetweenSlashesExactly(path, "node_modules");
    assert "/" + "vendor" + "/" == "/vendor/" && "/" + "node_modules" + "/" == "/node_modules/";
    assert Index(path, "/vendor/") >= 0 <==> Contains(path, "/vendor/");
    assert Index(path, "/node_modules/") >= 0 <==> Contains(path, "/node_modules/");
    NamesSkipped(path);
  }

  lemma {:induction false} NamesSkipped(path: string)
    ensures var base, name := ToLower(Base(path)), ToLower(LastNamed(Split(path, '/')));
            base in PatchGate.LOCKFILES || (exists i :: 0 <= i < |SKIPPED_SUFFIXES| && HasSuffix(base, SKIPPED_SUFFIXES[i]))
            <==> PatchGate.IsLockfileName(name) || (exists suffix :: suffix in SKIPPED_SUFFIXES && HasSuffix(name, suffix))
  {
    var base, name := ToLower(Base(path)), ToLower(LastNamed(Split(path, '/')));
    LastSegmentIs(path);
    PatchGate.LockfilesAre(base);
    if Base(path) == LastNamed(Split(path, '/')) {
      SuffixesByPlace(name);
    } else {
      assert Base(path) == "." || Base(path) == "/";
      assert ToLower(".") == "." && ToLower("/") == "/" && name == "";
      NoSuffixOfNothing();
    }
  }

  lemma SuffixesByPlace(name: string)
    ensures (exists i :: 0 <= i < |SKIPPED_SUFFIXES| && HasSuffix(name, SKIPPED_SUFFIXES[i]))
            <==> exists suffix :: suffix in SKIPPED_SUFFIXES && HasSuffix(name, suffix)
  {
  }

  lemma NoSuffixOfNothing()
    ensures forall i :: 0 <= i < |SKIPPED_SUFFIXES| ==> !HasSuffix("", SKIPPED_SUFFIXES[i]) && !HasSuffix(".", SKIPPED_SUFFIXES[i]) && !HasSuffix("/", SKIPPED_SUFFIXES[i])
  {
  }

  // ----- What a package is, and that it holds its files' text -----

  lemma {:induction false} OneSegment(path: string)
    requires '/' !in path
    ensures PackageOf(path) == "(root)"
  {
    assert !("./" <= path) by {
      if |path| > 1 {
        assert path[1] in path && path[1] != '/';
      }
    }
    SplitOfOnePart(path, '/');
  }

  /** A file at the top belongs to the root package; below a directory it belongs
      to that, or, where the directory is one of the seven that only hold packages,
      to the directory or file in it. */
  lemma {:induction false} PackageExactly(dir: string, next: string, rest: string)
    requires dir != "" && dir != "." && '/' !in dir && '/' !in next && (rest == "" || rest[0] == '/')
    ensures PackageOf(dir) == "(root)"
    ensures PackageOf(dir + ['/'] + (next + rest)) ==
            if dir in {"src", "pkg", "internal", "lib", "app", "packages", "services"} then dir + "/" + next else dir
  {
    OneSegment(dir);
    var path := dir + ['/'] + (next + rest);
    NoDotSlash(dir, next + rest);
    SplitAt(dir, '/', next + rest);
    SplitOfOnePart(dir, '/');
    SplitOfOnePart(next, '/');
    if rest == "" {
      assert next + rest == next;
    } else {
      assert next + rest == next + ['/'] + rest[1..];
      SplitAt(next, '/', rest[1..]);
    }
    assert Split(path, '/')[0] == dir && Split(path, '/')[1] == next;
  }

  lemma {:induction false} NoDotSlash(dir: string, tail: string)
    requires dir != "" && dir != "." && '/' !in dir
    ensures TrimPrefix(dir + ['/'] + tail, "./") == dir + ['/'] + tail
  {
    var path := dir + ['/'] + tail;
    assert path[0] == dir[0] && (|dir| == 1 ==> dir == [dir[0]]);
    assert |dir| > 1 ==> path[1] == dir[1] && dir[1] in dir;
  }

  lemma {:induction false} StillContains(a: string, b: string, q: string)
    ensures Contains(a, q) ==> Contains(a + b, q)
    ensures Contains(a + q, q)
  {
    if Contains(a, q) {
      var i :| OccursAt(a, q, i);
      assert (a + b)[i..i + |q|] == a[i..i + |q|];
      assert OccursAt(a + b, q, i);
    }
    assert (a + q)[|a|..|a| + |q|] == q;
    assert OccursAt(a + q, q, |a|);
  }

  lemma {:induction false} EndLineContains(d: string, q: string)
    requires Contains(d, q)
    ensures Contains(EndLine(d), q)
  {
    StillContains(d, "\n", q);
  }

  /** The text of a package holds that of each of its files. */
  lemma {:induction false} PackageHoldsText(units: seq<ReviewUnit>, i: nat)
    requires i < |units|
    ensures Contains(BucketOf(units, PackageOf(units[i].id)).diff, units[i].diff)
    decreases |units|
  {
    var n := |units| - 1;
    var key := PackageOf(units[i].id);
    var b := BucketOf(units[..n], key);
    if i == n {
      StillContains(b.diff, "", units[n].diff);
      EndLineContains(b.diff + units[n].diff, units[i].diff);
    } else {
      PackageHoldsText(units[..n], i);
      StillContains(b.diff, units[n].diff, units[i].diff);
      if PackageOf(units[n].id) == key {
        EndLineContains(b.diff + units[n].diff, units[i].diff);
      }
    }
  }

  /** When there is room for them, every file that is not skipped is a unit of its
      own with its text, of which the limit takes nothing but the end. */
  lemma {:induction false} FileIsAUnit(diff: string, maxUnits: nat, looksUI: string -> bool, i: nat)
    requires i < |Files(diff)| && !ShouldSkip(Files(diff)[i].id)
    requires |Kept(Files(diff), looksUI)| <= maxUnits
    ensures var f := Files(diff)[i];
            var text := if |f.diff| <= 40000 then f.diff else f.diff[..40000] + TRUNCATED;
            ReviewUnit(f.id, false, [f.id], text, looksUI(f.id)) in Units(diff, maxUnits, looksUI)
  {
    KeptHas(Files(diff), looksUI, i);
  }

  /** No unit is longer than the limit and the note that it was cut. */
  lemma {:induction false} UnitsAreBounded(diff: string, maxUnits: nat, looksUI: string -> bool, i: nat)
    requires i < |Units(diff, maxUnits, looksUI)|
    ensures |Units(diff, maxUnits, looksUI)[i].diff| <= 40000 + |TRUNCATED|
  {
    var kept := Kept(Files(diff), looksUI);
    KeptAreCut(Files(diff), looksUI);
    PackagesAreCut(kept, ChosenPackages(kept, maxUnits));
  }

  lemma {:induction false} KeptAreCut(files: seq<FileUnit>, looksUI: string -> bool)
    ensures forall i :: 0 <= i < |Kept(files, looksUI)| ==> |Kept(files, looksUI)[i].diff| <= 40000 + |TRUNCATED|
    decreases |files|
  {
    if files != [] {
      KeptAreCut(files[..|files| - 1], looksUI);
    }
  }

  lemma {:induction false} PackagesAreCut(units: seq<ReviewUnit>, keys: seq<string>)
    ensures forall i :: 0 <= i < |PackageReviews(units, keys)| ==> |PackageReviews(units, keys)[i].diff| <= 40000 + |TRUNCATED|
    decreases |keys|
  {
    if keys != [] {
      PackagesAreCut(units, keys[..|keys| - 1]);
    }
  }

  lemma FrontOfSum<T>(a: seq<T>, b: seq<T>)
    requires b != []
    ensures (a + b)[..|a + b| - 1] == a + b[..|b| - 1] && (a + b)[|a + b| - 1] == b[|b| - 1]
  {
  }

  /** Files keep their order: those of one diff after another come after its own. */
  lemma {:induction false} KeptInOrder(a: seq<FileUnit>, b: seq<FileUnit>, looksUI: string -> bool)
    ensures Kept(a + b, looksUI) == Kept(a, looksUI) + Kept(b, looksUI)
    decreases |b|
  {
    if b == [] {
      assert a + b == a;
    } else {
      FrontOfSum(a, b);
      KeptInOrder(a, b[..|b| - 1], looksUI);
    }
  }

  /** What one package says once more units have been added to it. */
  predicate GrownBy(was: Bucket, more: Bucket, now: Bucket) {
    now.paths == was.paths + more.paths && was.diff <= now.diff && (now.isUI <==> was.isUI || more.isUI)
  }

  /** And so do the paths and the texts in a package, which looks like user
      interface as soon as one of its files does. */
  lemma {:induction false} PackageInOrder(a: seq<ReviewUnit>, b: seq<ReviewUnit>, key: string)
    ensures GrownBy(BucketOf(a, key), BucketOf(b, key), BucketOf(a + b, key))
    decreases |b|
  {
    if b == [] {
      assert a + b == a;
      NoUnits(a, key);
    } else {
      var front, last := b[..|b| - 1], b[|b| - 1];
      assert a + b == a + front + [last] && b == front + [last];
      PackageInOrder(a, front, key);
      OneMoreUnit(a + front, last, key);
      OneMoreUnit(front, last, key);
      Regrown(BucketOf(a, key), BucketOf(front, key), BucketOf(a + front, key), BucketOf(b, key), BucketOf(a + b, key),
              if PackageOf(last.id) == key then last.paths else [], PackageOf(last.id) == key && last.isUI);
    }
  }

  lemma {:induction false} NoUnits(a: seq<ReviewUnit>, key: string)
    ensures GrownBy(BucketOf(a, key), BucketOf([], key), BucketOf(a, key))
  {
  }

  lemma {:induction false} Regrown(a: Bucket, front: Bucket, mid: Bucket, b: Bucket, all: Bucket, paths: seq<string>, isUI: bool)
    requires GrownBy(a, front, mid)
    requires b.paths == front.paths + paths && (b.isUI <==> front.isUI || isUI)
    requires all.paths == mid.paths + paths && mid.diff <= all.diff && (all.isUI <==> mid.isUI || isUI)
    ensures GrownBy(a, b, all)
  {
    assert a.paths + front.paths + paths == a.paths + (front.paths + paths);
    assert all.diff[..|a.diff|] == mid.diff[..|a.diff|];
  }

  lemma {:induction false} OneMoreUnit(units: seq<ReviewUnit>, u: ReviewUnit, key: string)
    ensures var was, now := BucketOf(units, key), BucketOf(units + [u], key);
            && now.paths == was.paths + (if PackageOf(u.id) == key then u.paths else [])
            && was.diff <= now.diff
            && (now.isUI <==> was.isUI || (PackageOf(u.id) == key && u.isUI))
  {
    assert (units + [u])[..|units|] == units;
    var text := BucketOf(units, key).diff + u.diff;
    assert text <= EndLine(text);
  }

  lemma {:induction false} KeptHas(files: seq<FileUnit>, looksUI: string -> bool, i: nat)
    requires i < |files| && !ShouldSkip(files[i].id)
    ensures FileReview(files[i], looksUI) in Kept(files, looksUI)
    decreases |files|
  {
    if i < |files| - 1 {
      KeptHas(files[..|files| - 1], looksUI, i);
    }
  }
}
