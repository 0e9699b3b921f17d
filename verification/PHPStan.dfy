// Rewriting a phpstan step so that its findings can be read (checkup_phpstan.go),
// and the argv shapes the policy refuses (checkup_policy.go).
module PHPStan {
  import opened Text
  import opened TextLines
  import opened Paths

  const FORMAT: string := "--error-format"
  const CHECKSTYLE: string := "--error-format=checkstyle"
  const NO_PROGRESS: string := "--no-progress"

  const DENIED: seq<string> := [
    "sh", "bash", "dash", "zsh", "fish", "sudo", "su", "docker", "podman", "curl", "wget", "nc", "ncat",
    "python", "python3", "perl", "ruby", "node"]

  const ALLOWED: seq<string> := [
    "composer", "phpunit", "phpstan", "php-cs-fixer", "npm", "yarn", "go", "phinx", "cp", "mkdir"]

  /** checkupArgvBinary */
  function Binary(argv0: string): string {
    if TrimSpace(argv0) == "" then "" else ToLower(Base(TrimSpace(argv0)))
  }

  predicate ShellChar(c: char) {
    c == ' ' || c == '\t' || c == '\n' || c == ';' || c == '&' || c == '|'
  }

  predicate LooksLikeShell(argv: seq<string>) {
    || (|argv| == 1 && exists i :: 0 <= i < |argv[0]| && ShellChar(argv[0][i]))
    || (|argv| >= 2 && (Binary(argv[0]) in DENIED || Binary(argv[0]) == "env" || Binary(argv[0]) == "xargs"))
    || (|argv| >= 3 && (argv[1] == "-c" || argv[1] == "-lc"))
  }

  /** The tool an argument names: its last segment, in any case of letters. */
  function Tool(argv0: string): string {
    ToLower(LastNamed(Split(TrimSpace(argv0), '/')))
  }

  lemma {:induction false} BinaryIsTool(argv0: string)
    ensures Binary(argv0) == Tool(argv0) || (Binary(argv0) == "/" && Tool(argv0) == "")
  {
    LastSegmentIs(TrimSpace(argv0));
    assert Split("", '/') == [""];
  }

  /** A command reads like a shell's exactly when it is one argument with a blank,
      a line break or one of the signs ; & | in it, when with further arguments it
      names an interpreter, a downloader, a container tool or a wrapper, or when
      its second of three arguments is -c or -lc. */
  lemma {:induction false} LooksLikeShellExactly(argv: seq<string>)
    ensures LooksLikeShell(argv) <==>
              || (|argv| == 1 && exists c :: c in argv[0] && c in {' ', '\t', '\n', ';', '&', '|'})
              || (|argv| >= 2 && Tool(argv[0]) in {
                    "sh", "bash", "dash", "zsh", "fish", "sudo", "su", "docker", "podman", "curl", "wget", "nc", "ncat",
                    "python", "python3", "perl", "ruby", "node", "env", "xargs"})
              || (|argv| >= 3 && argv[1] in {"-c", "-lc"})
  {
    if argv != [] {
      BinaryIsTool(argv[0]);
      if c :| c in argv[0] && ShellChar(c) {
        var i :| 0 <= i < |argv[0]| && argv[0][i] == c;
        assert ShellChar(argv[0][i]);
      }
    }
  }

  // ----- The arguments after the binary -----

  predicate IsAnalyse(a: string) {
    a == "analyse" || a == "analyze"
  }

  predicate IsNoProgress(a: string) {
    a == NO_PROGRESS
  }

  ghost predicate Has(args: seq<string>, p: string -> bool) {
    exists i :: 0 <= i < |args| && p(args[i])
  }

  predicate ChecksStyle(a: string) {
    HasPrefix(a, CHECKSTYLE)
  }

  /** An error format of checkstyle, in one argument or in two. */
  ghost predicate HasCheckstyle(args: seq<string>) {
    || Has(args, ChecksStyle)
    || exists i :: 0 <= i < |args| - 1 && args[i] == FORMAT && EqualFold(args[i + 1], "checkstyle")
  }

  /** Whether the walk that drops error formats takes the next argument with it. */
  function Skips(args: seq<string>): bool {
    args != [] && !Skips(args[..|args| - 1]) && args[|args| - 1] == FORMAT
  }

  predicate DropsFormat(a: string) {
    a == FORMAT || HasPrefix(a, "--error-format=")
  }

  /** The arguments without error formats and their values. */
  function Stripped(args: seq<string>): seq<string> {
    if args == [] then []
    else
      var front, a := args[..|args| - 1], args[|args| - 1];
      Stripped(front) + (if Skips(front) || DropsFormat(a) then [] else [a])
  }

  ghost function Completed(args: seq<string>): seq<string> {
    (if Has(args, IsAnalyse) then [] else ["analyse"]) + args + (if Has(args, IsNoProgress) then [] else [NO_PROGRESS])
  }

  ghost function Normalised(args: seq<string>): seq<string> {
    if HasCheckstyle(args) then Completed(args) else Stripped(Completed(args)) + [CHECKSTYLE]
  }

  function VendorBinary(argv0: string): string
  {
    if Base(argv0) == "phpstan" && Index(argv0, "vendor/bin") < 0 then "vendor/bin/phpstan" else argv0
  }

  // ----- The rewrite -----

  method NormalizePHPStanArgv(argv: seq<string>) returns (out: seq<string>)
    requires argv != []
    ensures out == [VendorBinary(argv[0])] + Normalised(argv[1..])
  {
    var args := argv[1..];
    var hasAnalyse, hasNoProgress, hasCheckstyle := false, false, false;
    for i := 0 to |args|
      invariant hasAnalyse <==> exists k :: 0 <= k < i && IsAnalyse(args[k])
      invariant hasNoProgress <==> exists k :: 0 <= k < i && IsNoProgress(args[k])
      invariant hasCheckstyle <==> exists k :: 0 <= k < i && ChecksStyle(args[k])
    {
      var a := args[i];
      DistinctFlags(a);
      if a == "analyse" || a == "analyze" {
        hasAnalyse := true;
      } else if a == NO_PROGRESS {
        hasNoProgress := true;
      } else if HasPrefix(a, CHECKSTYLE) {
        hasCheckstyle := true;
      }
    }
    ghost var oneArgument := hasCheckstyle;
    for i := 0 to |args| - (if |args| > 0 then 1 else 0)
      invariant hasCheckstyle <==>
        (oneArgument || exists k :: 0 <= k < i && args[k] == FORMAT && EqualFold(args[k + 1], "checkstyle"))
    {
      if args[i] == FORMAT && EqualFold(args[i + 1], "checkstyle") {
        hasCheckstyle := true;
      }
    }
    var rebuilt := if hasAnalyse then [] else ["analyse"];
    rebuilt := rebuilt + args;
    if !hasNoProgress {
      rebuilt := rebuilt + [NO_PROGRESS];
    }
    assert rebuilt == Completed(args);
    if !hasCheckstyle {
      rebuilt := StripFormats(rebuilt);
      rebuilt := rebuilt + [CHECKSTYLE];
    }
    out := [VendorBinary(argv[0])] + rebuilt;
  }

  lemma DistinctFlags(a: string)
    ensures IsAnalyse(a) ==> !IsNoProgress(a) && !ChecksStyle(a) && !DropsFormat(a)
    ensures IsNoProgress(a) ==> !ChecksStyle(a) && !DropsFormat(a)
    ensures ChecksStyle(a) ==> HasPrefix(a, "--error-format=") && a != FORMAT
  {
    assert IsNoProgress(a) ==> a[2] == 'n';
    assert DropsFormat(a) || ChecksStyle(a) ==> a[2] == 'e';
    assert CHECKSTYLE[..15] == "--error-format=";
  }

  method StripFormats(args: seq<string>) returns (cleaned: seq<string>)
    ensures cleaned == Stripped(args)
  {
    cleaned := [];
    var skipNext := false;
    for i := 0 to |args|
      invariant cleaned == Stripped(args[..i]) && skipNext == Skips(args[..i])
    {
      TakeSnoc(args, i);
      StripSnoc(args[..i], args[i]);
      if skipNext {
        skipNext := false;
        continue;
      }
      var a := args[i];
      if a == FORMAT {
        skipNext := true;
        continue;
      }
      if HasPrefix(a, "--error-format=") {
        continue;
      }
      cleaned := cleaned + [a];
    }
    TakeAll(args);
  }

  lemma StripSnoc(args: seq<string>, a: string)
    ensures Stripped(args + [a]) == Stripped(args) + (if Skips(args) || DropsFormat(a) then [] else [a])
    ensures Skips(args + [a]) == (!Skips(args) && a == FORMAT)
  {
    assert (args + [a])[..|args|] == args;
  }

  // ----- When the rewrite does its job -----

  /** An argument that is there in its own right, not as the value that the
      "--error-format" before it takes along. */
  ghost predicate HasFree(args: seq<string>, p: string -> bool) {
    exists i :: 0 <= i < |args| && p(args[i]) && !Skips(args[..i])
  }

  lemma HasSnoc(args: seq<string>, a: string, p: string -> bool)
    ensures Has(args + [a], p) <==> Has(args, p) || p(a)
    ensures HasFree(args + [a], p) <==> HasFree(args, p) || (p(a) && !Skips(args))
  {
    var all := args + [a];
    assert all[|args|] == a && all[..|args|] == args;
    forall i | 0 <= i < |args| ensures all[i] == args[i] && all[..i] == args[..i] {
    }
  }

  /** Stripping keeps exactly the free flags. */
  lemma {:induction false} StrippedHas(args: seq<string>, p: string -> bool)
    requires forall a :: p(a) ==> !DropsFormat(a)
    ensures Has(Stripped(args), p) <==> HasFree(args, p)
    decreases |args|
  {
    if args != [] {
      var front, a := args[..|args| - 1], args[|args| - 1];
      StrippedHas(front, p);
      assert args == front + [a];
      HasSnoc(front, a, p);
      HasSnoc(Stripped(front), a, p);
      if Skips(front) || DropsFormat(a) {
        assert Stripped(args) == Stripped(front);
      }
    }
  }

  lemma {:induction false} AnalyseInFront(args: seq<string>)
    ensures Skips(["analyse"] + args) == Skips(args)
    ensures Stripped(["analyse"] + args) == ["analyse"] + Stripped(args)
    decreases |args|
  {
    DistinctFlags("analyse");
    if args == [] {
      assert ["analyse"][..0] == [] && ["analyse"] + [] == ["analyse"];
    } else {
      var front, a := args[..|args| - 1], args[|args| - 1];
      AnalyseInFront(front);
      assert ["analyse"] + args == (["analyse"] + front) + [a];
      assert args == front + [a];
      StripSnoc(["analyse"] + front, a);
    }
  }

  /** Every "--error-format" has a value that is no flag the rewrite relies on,
      or the arguments already ask for checkstyle. */
  ghost predicate WellValued(args: seq<string>) {
    HasCheckstyle(args)
    || (&& (Has(args, IsAnalyse) ==> HasFree(args, IsAnalyse))
        && (if Has(args, IsNoProgress) then HasFree(args, IsNoProgress) else !Skips(args)))
  }

  /** The completed arguments, before any stripping, in two steps. */
  ghost function Opened(args: seq<string>): seq<string> {
    if Has(args, IsAnalyse) then args else ["analyse"] + args
  }

  lemma CompletedIs(args: seq<string>)
    ensures Completed(args) == if Has(args, IsNoProgress) then Opened(args) else Opened(args) + [NO_PROGRESS]
    ensures Has(args, IsNoProgress) <==> Has(Opened(args), IsNoProgress)
    ensures Has(Opened(args), IsAnalyse)
  {
    DistinctFlags("analyse");
    if !Has(args, IsAnalyse) {
      var o := ["analyse"] + args;
      assert IsAnalyse(o[0]);
      assert forall i :: 0 <= i < |args| ==> o[i + 1] == args[i];
      assert forall i :: 0 < i < |o| ==> o[i] == args[i - 1];
    }
  }

  lemma StrippedOpened(args: seq<string>)
    ensures Skips(Opened(args)) == Skips(args)
    ensures Stripped(Opened(args)) == if Has(args, IsAnalyse) then Stripped(args) else ["analyse"] + Stripped(args)
  {
    AnalyseInFront(args);
  }

  lemma FlagsSurvive(args: seq<string>)
    requires !HasCheckstyle(args)
    ensures Has(Stripped(Completed(args)), IsAnalyse) <==> (Has(args, IsAnalyse) ==> HasFree(args, IsAnalyse))
    ensures Has(Stripped(Completed(args)), IsNoProgress) <==>
            if Has(args, IsNoProgress) then HasFree(args, IsNoProgress) else !Skips(args)
  {
    CompletedIs(args);
    StrippedOpened(args);
    StripSnoc(Opened(args), NO_PROGRESS);
    DistinctFlags(NO_PROGRESS);
    DistinctFlags("analyse");
    forall a: string ensures (IsAnalyse(a) || IsNoProgress(a)) ==> !DropsFormat(a) {
      DistinctFlags(a);
    }
    StrippedHas(args, IsAnalyse);
    StrippedHas(args, IsNoProgress);
    var kept := Stripped(args);
    FrontHas("analyse", kept, IsAnalyse);
    FrontHas("analyse", kept, IsNoProgress);
    HasSnoc(Stripped(Opened(args)), NO_PROGRESS, IsAnalyse);
    HasSnoc(Stripped(Opened(args)), NO_PROGRESS, IsNoProgress);
    if !Has(args, IsNoProgress) {
      assert !HasFree(args, IsNoProgress);
      NothingMore(Stripped(Opened(args)));
    }
    if !Has(args, IsAnalyse) {
      assert !HasFree(args, IsAnalyse);
    }
  }

  lemma NothingMore<T>(s: seq<T>)
    ensures s + [] == s
  {
  }

  lemma FrontHas(a: string, args: seq<string>, p: string -> bool)
    ensures Has([a] + args, p) <==> p(a) || Has(args, p)
  {
    var all := [a] + args;
    assert all[0] == a;
    assert forall i :: 0 <= i < |args| ==> all[i + 1] == args[i];
    assert forall i :: 0 < i < |all| ==> all[i] == args[i - 1];
  }

  lemma CompletedHas(args: seq<string>)
    ensures Has(Completed(args), IsAnalyse) && Has(Completed(args), IsNoProgress)
  {
    CompletedIs(args);
    HasSnoc(Opened(args), NO_PROGRESS, IsAnalyse);
    HasSnoc(Opened(args), NO_PROGRESS, IsNoProgress);
  }

  lemma CheckstyleKept(args: seq<string>)
    ensures HasCheckstyle(Normalised(args))
  {
    if HasCheckstyle(args) {
      CheckstyleInside(if Has(args, IsAnalyse) then [] else ["analyse"], args, if Has(args, IsNoProgress) then [] else [NO_PROGRESS]);
    } else {
      assert ChecksStyle(CHECKSTYLE);
      HasSnoc(Stripped(Completed(args)), CHECKSTYLE, ChecksStyle);
    }
  }

  lemma CheckstyleInside(before: seq<string>, args: seq<string>, after: seq<string>)
    requires HasCheckstyle(args)
    ensures HasCheckstyle(before + args + after)
  {
    var all, n := before + args + after, |before|;
    assert forall i :: 0 <= i < |args| ==> all[n + i] == args[i];
    if Has(args, ChecksStyle) {
      var i :| 0 <= i < |args| && ChecksStyle(args[i]);
      assert ChecksStyle(all[n + i]);
    } else {
      var i :| 0 <= i < |args| - 1 && args[i] == FORMAT && EqualFold(args[i + 1], "checkstyle");
      assert all[n + i] == FORMAT && all[n + i + 1] == args[i + 1];
    }
  }

  /** The rewritten arguments always ask for checkstyle, and they say to analyse
      and to show no progress exactly when no "--error-format" swallows the flag
      that says so. */
  lemma NormalisedYields(args: seq<string>)
    ensures HasCheckstyle(Normalised(args))
    ensures Has(Normalised(args), IsAnalyse) && Has(Normalised(args), IsNoProgress) <==> WellValued(args)
  {
    CheckstyleKept(args);
    if HasCheckstyle(args) {
      CompletedHas(args);
    } else {
      FlagsSurvive(args);
      DistinctFlags(CHECKSTYLE);
      HasSnoc(Stripped(Completed(args)), CHECKSTYLE, IsAnalyse);
      HasSnoc(Stripped(Completed(args)), CHECKSTYLE, IsNoProgress);
    }
  }

  /** Rewriting twice is rewriting once, exactly under the same condition. */
  lemma {:induction false} NormalisedTwice(args: seq<string>)
    ensures Normalised(Normalised(args)) == Normalised(args) <==> WellValued(args)
  {
    NormalisedYields(args);
    var n := Normalised(args);
    CompletedIs(n);
    if !WellValued(args) {
      assert |Completed(n)| > |n|;
    } else {
      assert [] + n + [] == n;
    }
  }

  /** Stripping has moved a "-c" to the front, where it reads like "sh -c". */
  ghost predicate UncoversShellFlag(args: seq<string>) {
    && Has(args, IsAnalyse) && !HasCheckstyle(args)
    && Stripped(args) != [] && ShellFlag(Stripped(args)[0])
  }

  ghost function FirstKept(args: seq<string>): string
    requires args != []
  {
    if HasCheckstyle(args) then args[0]
    else if Stripped(args) != [] then Stripped(args)[0]
    else if !Has(args, IsNoProgress) && !Skips(args) then NO_PROGRESS
    else CHECKSTYLE
  }

  lemma NormalisedFirst(args: seq<string>)
    ensures var n := Normalised(args);
            n != [] && (!Has(args, IsAnalyse) ==> n[0] == "analyse")
    ensures Has(args, IsAnalyse) ==> args != [] && Normalised(args)[0] == FirstKept(args)
  {
    CompletedIs(args);
    StrippedOpened(args);
    StripSnoc(Opened(args), NO_PROGRESS);
    DistinctFlags(NO_PROGRESS);
  }

  lemma VendorBinaryIsPHPStan(argv0: string)
    requires Binary(argv0) == "phpstan"
    ensures Binary(VendorBinary(argv0)) == "phpstan" && VendorBinary(VendorBinary(argv0)) == VendorBinary(argv0)
  {
    var v := "vendor/bin/phpstan";
    assert OccursAt(v, "vendor/bin", 0);
    assert Index(v, "vendor/bin") == 0;
    TrimmedIsFixed(v);
    BaseOfVendor();
    assert ToLower("phpstan") == "phpstan";
  }

  lemma BaseOfVendor()
    ensures Base("vendor/bin/phpstan") == "phpstan"
  {
    var v := "vendor/bin/phpstan";
    assert TrimSlashes(v) == v;
    SlashBefore("vendor/bin", "phpstan");
    assert "vendor/bin" + "/" + "phpstan" == v;
  }

  lemma {:induction false} SlashBefore(dir: string, name: string)
    requires '/' !in name
    ensures LastSlash(dir + "/" + name) == |dir|
    decreases |name|
  {
    var s := dir + "/" + name;
    if name != "" {
      assert s[|s| - 1] == name[|name| - 1] && name[|name| - 1] in name;
      assert s[..|s| - 1] == dir + "/" + name[..|name| - 1];
      SlashBefore(dir, name[..|name| - 1]);
    }
  }

  /** An accepted phpstan argv, once rewritten, is accepted again and left as it
      is, exactly when the rewrite kept its flags and uncovered no "-c". */
  lemma ArgvStable(argv: seq<string>)
    requires argv != [] && Binary(argv[0]) == "phpstan" && !LooksLikeShell(argv)
    ensures var out := [VendorBinary(argv[0])] + Normalised(argv[1..]);
            && Binary(out[0]) == "phpstan"
            && (LooksLikeShell(out) <==> UncoversShellFlag(argv[1..]))
            && ([VendorBinary(out[0])] + Normalised(out[1..]) == out <==> WellValued(argv[1..]))
  {
    var args := argv[1..];
    var out := [VendorBinary(argv[0])] + Normalised(args);
    VendorBinaryIsPHPStan(argv[0]);
    NormalisedTwice(args);
    NormalisedFirst(args);
    ShellFlagFirst(argv, out);
    assert out[1..] == Normalised(args);
  }

  predicate ShellFlag(a: string) {
    a == "-c" || a == "-lc"
  }

  lemma ShellOfPHPStan(argv: seq<string>)
    requires |argv| >= 2 && Binary(argv[0]) == "phpstan"
    ensures LooksLikeShell(argv) <==> |argv| >= 3 && ShellFlag(argv[1])
  {
    assert "phpstan" !in DENIED;
  }

  lemma UncoveredIsLong(args: seq<string>)
    requires UncoversShellFlag(args)
    ensures |Normalised(args)| >= 2
  {
    CompletedIs(args);
    StripSnoc(args, NO_PROGRESS);
  }

  lemma FirstKeptIsShellFlag(args: seq<string>)
    requires Has(args, IsAnalyse) && (|args| >= 2 ==> !ShellFlag(args[0]))
    ensures ShellFlag(FirstKept(args)) <==> UncoversShellFlag(args)
  {
    assert |args| == 1 ==> IsAnalyse(args[0]);
  }

  lemma ShellFlagFirst(argv: seq<string>, out: seq<string>)
    requires argv != [] && Binary(argv[0]) == "phpstan" && !LooksLikeShell(argv)
    requires |out| >= 2 && Binary(out[0]) == "phpstan" && out[1..] == Normalised(argv[1..])
    ensures LooksLikeShell(out) <==> UncoversShellFlag(argv[1..])
  {
    var args := argv[1..];
    NormalisedFirst(args);
    ShellOfPHPStan(out);
    assert out[1] == out[1..][0];
    if |argv| >= 2 {
      ShellOfPHPStan(argv);
    }
    if UncoversShellFlag(args) {
      UncoveredIsLong(args);
    }
    if Has(args, IsAnalyse) {
      FirstKeptIsShellFlag(args);
    }
  }

  /** Arguments without a format flag keep all of theirs in order: what is missing
      is put in front or behind, and the report format last. */
  lemma {:induction false} OthersAreKept(args: seq<string>)
    requires forall i :: 0 <= i < |args| ==> !DropsFormat(args[i]) && args[i] != FORMAT
    requires !HasCheckstyle(args)
    ensures Normalised(args) ==
            (if Has(args, IsAnalyse) then [] else ["analyse"]) + args
            + (if Has(args, IsNoProgress) then [] else [NO_PROGRESS]) + [CHECKSTYLE]
  {
    DistinctFlags("analyse");
    DistinctFlags(NO_PROGRESS);
    var all := Completed(args);
    forall i | 0 <= i < |all| ensures !DropsFormat(all[i]) && all[i] != FORMAT {
      assert all[i] in args || all[i] == "analyse" || all[i] == NO_PROGRESS;
    }
    NothingStripped(all);
  }

  lemma {:induction false} NothingStripped(args: seq<string>)
    requires forall i :: 0 <= i < |args| ==> !DropsFormat(args[i]) && args[i] != FORMAT
    ensures Stripped(args) == args && !Skips(args)
    decreases |args|
  {
    if args != [] {
      NothingStripped(args[..|args| - 1]);
      assert args == args[..|args| - 1] + [args[|args| - 1]];
    }
  }

  /** A phpstan that is not below vendor/bin already is replaced by the one that is,
      and any other command stays. */
  lemma {:induction false} VendorIsUsed(argv0: string)
    ensures LastNamed(Split(argv0, '/')) == "phpstan" ==> Contains(VendorBinary(argv0), "vendor/bin")
    ensures Contains(argv0, "vendor/bin") || LastNamed(Split(argv0, '/')) != "phpstan" ==> VendorBinary(argv0) == argv0
  {
    BaseIsLast(argv0, "phpstan");
    VendorHasBin();
  }

  lemma VendorHasBin()
    ensures Contains("vendor/bin/phpstan", "vendor/bin")
  {
    assert OccursAt("vendor/bin/phpstan", "vendor/bin", 0);
  }
}
