// The gate a patch passes before it may land (agents_authz.go).
module PatchGate {
  import opened Text
  import opened CloudDiff
  import opened Paths
  import opened TextLines
  import opened Sets

  datatype Caps = Caps(maxFiles: int, maxLines: int)

  datatype Why = EmptyPath | GithubDir | OpaDir | Lockfile | Submodule | ExecBit | OutsideAllowlist | FileCap | LineCap

  datatype Reason = Reason(path: string, why: Why)

  const LOCKFILES: seq<string> := [
    "package-lock.json", "yarn.lock", "pnpm-lock.yaml", "go.sum", "composer.lock",
    "cargo.lock", "poetry.lock", "gemfile.lock", "bun.lockb"]

  // ----- Paths and modes -----

  /** The reason a path is denied whatever the allowlist says, if there is one. */
  function DeniedPath(path: string): Option<Why> {
    var p := TrimPrefix(TrimSpace(path), "./");
    var low := ToLower(p);
    if p == "" then Some(EmptyPath)
    else if low == ".github" || HasPrefix(low, ".github/") then Some(GithubDir)
    else if low == ".opa" || HasPrefix(low, ".opa/") then Some(OpaDir)
    else if ToLower(Base(p)) in LOCKFILES then Some(Lockfile)
    else None
  }

  // What is denied, told by the segments of the path.

  predicate IsConfigDir(segment: string) {
    ToLower(segment) == ".github" || ToLower(segment) == ".opa"
  }

  predicate IsLockfile(segment: string) {
    IsLockfileName(ToLower(segment))
  }

  lemma FoldedSegment(p: string, n: nat)
    ensures SegmentEnds(p, n) <==> SegmentEnds(ToLower(p), n)
  {
    forall i | 0 <= i < |p| ensures ToLower(p)[i] == '/' <==> p[i] == '/' {
      assert ToLower(p)[i] == LowerChar(p[i]);
    }
  }

  /** A path lies at or below a directory exactly when its first segment is it. */
  lemma {:induction false} FirstSegmentIs(p: string, dir: string)
    requires forall i :: 0 <= i < |dir| ==> dir[i] != '/'
    ensures ToLower(p) == dir || HasPrefix(ToLower(p), dir + "/") <==> ToLower(Split(p, '/')[0]) == dir
  {
    var seg, low := Split(p, '/')[0], ToLower(p);
    FirstSegment(p);
    assert forall i :: 0 <= i < |seg| ==> seg[i] in seg && seg[i] == p[i];
    FoldedSegment(p, |seg|);
    assert low[..|seg|] == ToLower(seg);
    if low == dir || HasPrefix(low, dir + "/") {
      assert low[..|dir|] == dir && (|dir| < |low| ==> low[|dir|] == (dir + "/")[|dir|]);
      assert forall i :: 0 <= i < |dir| ==> low[i] == low[..|dir|][i];
      SegmentEndsOnce(low, |seg|, |dir|);
    }
  }

  lemma LockfilesAre(name: string)
    ensures name in LOCKFILES <==> IsLockfileName(name)
    ensures !IsLockfileName("/") && !IsLockfileName("")
  {
  }

  predicate IsLockfileName(name: string) {
    name in {"package-lock.json", "yarn.lock", "pnpm-lock.yaml", "go.sum", "composer.lock",
             "cargo.lock", "poetry.lock", "gemfile.lock", "bun.lockb"}
  }

  /** For every path, white space and one leading "./" taken off: it is denied
      exactly when nothing is left, its first segment is .github or .opa in any
      case of letters, or its last one is the name of a lock file. */
  lemma {:induction false} DeniedExactly(path: string)
    ensures var p := TrimPrefix(TrimSpace(path), "./");
            DeniedPath(path).Some? <==>
              p == "" || IsConfigDir(Split(p, '/')[0]) || IsLockfile(LastNamed(Split(p, '/')))
  {
    var p := TrimPrefix(TrimSpace(path), "./");
    FirstSegmentIs(p, ".github");
    FirstSegmentIs(p, ".opa");
    assert ".github" + "/" == ".github/" && ".opa" + "/" == ".opa/";
    LastSegmentIs(p);
    LockfilesAre(ToLower(Base(p)));
    LockfilesAre(ToLower(LastNamed(Split(p, '/'))));
    assert TrimSlashes(p) == "" ==> ToLower("/") == "/" && ToLower("") == "";
  }

  predicate IsOctal(c: char) {
    '0' <= c <= '7'
  }

  predicate AllOctal(s: string) {
    forall i :: 0 <= i < |s| ==> IsOctal(s[i])
  }

  function Digit(c: char): nat {
    if IsOctal(c) then c as int - '0' as int else 0
  }

  function OctalValue(s: string): nat {
    if s == "" then 0 else 8 * OctalValue(s[..|s| - 1]) + Digit(s[|s| - 1])
  }

  /** strconv.ParseInt(s, 8, 32): an optional sign, then digits, within 32 bits. */
  function ParseOctal(s: string): Option<int> {
    var signed := s != "" && (s[0] == '-' || s[0] == '+');
    var digits := if signed then s[1..] else s;
    if digits == "" || !AllOctal(digits) then None
    else
      var n := OctalValue(digits);
      var v: int := if signed && s[0] == '-' then 0 - n else n;
      if -0x8000_0000 <= v < 0x8000_0000 then Some(v) else None
  }

  /** Bit k of the two's complement form. */
  predicate Bit(v: int, weight: int)
    requires weight > 0
  {
    (v / weight) % 2 == 1
  }

  predicate IsExecMode(mode: string) {
    var m := TrimSpace(mode);
    && m != ""
    && (m == "100755" || m == "755"
        || (ParseOctal(m).Some?
            && var v := ParseOctal(m).value; Bit(v, 1) || Bit(v, 8) || Bit(v, 64)))
  }

  predicate OddDigit(s: string, fromEnd: nat) {
    fromEnd < |s| && Digit(s[|s| - 1 - fromEnd]) % 2 == 1
  }

  lemma {:induction false} OctalLastDigit(s: string)
    requires s != ""
    ensures OctalValue(s) / 8 == OctalValue(s[..|s| - 1])
    ensures OctalValue(s) % 2 == Digit(s[|s| - 1]) % 2
  {
  }

  lemma DivideTwice(v: nat)
    ensures v / 64 == v / 8 / 8
  {
  }

  lemma OctalBits(s: string)
    ensures Bit(OctalValue(s), 1) <==> OddDigit(s, 0)
    ensures Bit(OctalValue(s), 8) <==> OddDigit(s, 1)
    ensures Bit(OctalValue(s), 64) <==> OddDigit(s, 2)
  {
    DivideTwice(OctalValue(s));
    if s != "" {
      OctalLastDigit(s);
      var t := s[..|s| - 1];
      if t != "" {
        OctalLastDigit(t);
        assert t[|t| - 1] == s[|s| - 2];
        var u := t[..|t| - 1];
        if u != "" {
          OctalLastDigit(u);
          assert u[|u| - 1] == s[|s| - 3];
        }
      }
    }
  }

  /** A git mode is executable exactly when one of its last three octal digits,
      the permissions of owner, group and others, is odd. */
  lemma {:induction false} ExecModeExactly(mode: string)
    requires mode != "" && AllOctal(mode) && OctalValue(mode) < 0x8000_0000
    ensures IsExecMode(mode) <==> OddDigit(mode, 0) || OddDigit(mode, 1) || OddDigit(mode, 2)
  {
    TrimmedIsFixed(mode);
    OctalBits(mode);
    assert mode == "100755" || mode == "755" ==> Digit(mode[|mode| - 1]) == 5;
  }

  // ----- What the gate accepts -----

  predicate Counted(c: Change) {
    TrimSpace(c.path) != "" && TrimSpace(c.path) != "/dev/null"
  }

  function AllowSet(allowlist: seq<string>): set<string> {
    set i | 0 <= i < |allowlist| && TrimSpace(allowlist[i]) != "" :: TrimSpace(allowlist[i])
  }

  /** A change that may land, given the allowed paths; an empty set allows any. */
  predicate Landable(c: Change, allow: set<string>) {
    && DeniedPath(TrimSpace(c.path)).None?
    && !c.isSubmodule && c.newMode != "160000" && !IsExecMode(c.newMode)
    && (allow != {} ==> TrimSpace(c.path) in allow)
  }

  function TouchedPaths(cs: seq<Change>): set<string> {
    set i | 0 <= i < |cs| && Counted(cs[i]) :: TrimSpace(cs[i].path)
  }

  function LinesTouched(cs: seq<Change>): nat {
    if cs == [] then 0
    else
      var c := cs[|cs| - 1];
      LinesTouched(cs[..|cs| - 1]) + Weight(c)
  }

  /** Caps that are not positive stand for the defaults. */
  function EffectiveCaps(caps: Caps, defaults: Caps): Caps {
    if caps.maxFiles <= 0 || caps.maxLines <= 0 then defaults else caps
  }

  predicate AllLandable(cs: seq<Change>, allow: set<string>) {
    forall i :: 0 <= i < |cs| && Counted(cs[i]) ==> Landable(cs[i], allow)
  }

  ghost predicate Accepts(cs: seq<Change>, allow: set<string>, caps: Caps) {
    && cs != []
    && AllLandable(cs, allow)
    && |TouchedPaths(cs)| <= caps.maxFiles
    && LinesTouched(cs) <= caps.maxLines
  }

  // ----- The gate -----

  method BuildAllow(allowlist: seq<string>) returns (allow: set<string>)
    ensures allow == AllowSet(allowlist)
  {
    allow := {};
    for i := 0 to |allowlist|
      invariant allow == AllowSet(allowlist[..i])
    {
      TakeSnoc(allowlist, i);
      var a := TrimSpace(allowlist[i]);
      AllowSetSnoc(allowlist[..i], allowlist[i]);
      if a != "" {
        allow := allow + {a};
      }
    }
    TakeAll(allowlist);
  }

  lemma AllowSetSnoc(paths: seq<string>, a: string)
    ensures AllowSet(paths + [a]) == AllowSet(paths) + (if TrimSpace(a) == "" then {} else {TrimSpace(a)})
  {
    var after := paths + [a];
    assert after[|paths|] == a;
    assert forall i :: 0 <= i < |paths| ==> after[i] == paths[i];
  }

  function Weight(c: Change): nat {
    if Counted(c) then c.added + c.removed else 0
  }

  /** How far the loop of the gate has come. */
  ghost predicate Judged(cs: seq<Change>, allow: set<string>, seen: set<string>, lines: nat, clean: bool) {
    && seen == TouchedPaths(cs) && lines == LinesTouched(cs)
    && (clean <==> AllLandable(cs, allow))
  }

  lemma TouchedSnoc(cs: seq<Change>, c: Change)
    ensures TouchedPaths(cs + [c]) == TouchedPaths(cs) + (if Counted(c) then {TrimSpace(c.path)} else {})
  {
    var after := cs + [c];
    assert after[|cs|] == c;
    assert forall i :: 0 <= i < |cs| ==> after[i] == cs[i];
  }

  lemma LandableSnoc(cs: seq<Change>, allow: set<string>, c: Change)
    ensures AllLandable(cs + [c], allow) <==> AllLandable(cs, allow) && (Counted(c) ==> Landable(c, allow))
  {
    var after := cs + [c];
    assert after[|cs|] == c;
    assert forall i :: 0 <= i < |cs| ==> after[i] == cs[i];
  }

  lemma JudgedSnoc(cs: seq<Change>, allow: set<string>, seen: set<string>, lines: nat, clean: bool, c: Change)
    requires Judged(cs, allow, seen, lines, clean)
    ensures !Counted(c) ==> Judged(cs + [c], allow, seen, lines, clean)
    ensures Counted(c) ==>
              Judged(cs + [c], allow, seen + {TrimSpace(c.path)}, lines + c.added + c.removed, clean && Landable(c, allow))
  {
    TouchedSnoc(cs, c);
    LandableSnoc(cs, allow, c);
  }

  method RefuseChange(c: Change, allow: set<string>, path: string) returns (reasons: seq<Reason>)
    requires path == TrimSpace(c.path)
    ensures reasons == [] <==> Landable(c, allow)
    ensures forall i :: 0 <= i < |reasons| ==> reasons[i].path == path
  {
    reasons := [];
    var denied := DeniedPath(path);
    if denied.Some? {
      reasons := [Reason(path, denied.value)];
    }
    reasons := AddIf(reasons, c.isSubmodule || c.newMode == "160000", Reason(path, Submodule));
    reasons := AddIf(reasons, IsExecMode(c.newMode), Reason(path, ExecBit));
    reasons := AddIf(reasons, |allow| > 0 && path !in allow, Reason(path, OutsideAllowlist));
  }

  method AddIf(reasons: seq<Reason>, fails: bool, r: Reason) returns (more: seq<Reason>)
    ensures more == [] <==> reasons == [] && !fails
    ensures forall i :: 0 <= i < |more| ==> more[i] == r || more[i] in reasons
  {
    more := if fails then reasons + [r] else reasons;
  }

  datatype Verdict = Accepted | EmptyDiff | Denied(reasons: seq<Reason>)

  method GateCloudDiff(cs: seq<Change>, allowlist: seq<string>, caps: Caps, defaults: Caps) returns (v: Verdict)
    ensures v.Accepted? <==> Accepts(cs, AllowSet(allowlist), EffectiveCaps(caps, defaults))
    ensures v.EmptyDiff? <==> cs == []
    ensures v.Denied? ==> v.reasons != []
  {
    var limit := caps;
    if caps.maxFiles <= 0 || caps.maxLines <= 0 {
      limit := defaults;
    }
    if |cs| == 0 {
      return EmptyDiff;
    }
    var allow := BuildAllow(allowlist);
    var reasons: seq<Reason> := [];
    var totalLines: nat, seen: set<string> := 0, {};
    for i := 0 to |cs|
      invariant Judged(cs[..i], allow, seen, totalLines, reasons == [])
    {
      TakeSnoc(cs, i);
      JudgedSnoc(cs[..i], allow, seen, totalLines, reasons == [], cs[i]);
      var path := TrimSpace(cs[i].path);
      if path == "" || path == "/dev/null" {
        continue;
      }
      seen := seen + {path};
      totalLines := totalLines + cs[i].added + cs[i].removed;
      var more := RefuseChange(cs[i], allow, path);
      reasons := reasons + more;
    }
    TakeAll(cs);
    if |seen| > limit.maxFiles {
      reasons := reasons + [Reason("", FileCap)];
    }
    if totalLines > limit.maxLines {
      reasons := reasons + [Reason("", LineCap)];
    }
    if |reasons| > 0 {
      return Denied(reasons);
    }
    return Accepted;
  }

  // ----- Laws of the verdict -----

  lemma {:induction false} LinesWithout(cs: seq<Change>, i: nat)
    requires i < |cs|
    ensures LinesTouched(cs) == LinesTouched(cs[..i] + cs[i + 1..]) + Weight(cs[i])
    decreases |cs|
  {
    var n := |cs| - 1;
    var rest := cs[..i] + cs[i + 1..];
    if i == n {
      assert rest == cs[..n];
    } else {
      var front := cs[..n];
      LinesWithout(front, i);
      assert rest[|rest| - 1] == cs[n] && rest[..|rest| - 1] == front[..i] + front[i + 1..];
    }
  }

  /** Dropping changes, in whatever order the rest is then listed, drops lines. */
  lemma {:induction false} FewerLines(cs: seq<Change>, ds: seq<Change>)
    requires multiset(ds) <= multiset(cs)
    ensures LinesTouched(ds) <= LinesTouched(cs)
    decreases |ds|
  {
    if ds != [] {
      var i := DropShared(cs, ds);
      LinesWithout(cs, i);
      FewerLines(cs[..i] + cs[i + 1..], ds[..|ds| - 1]);
    }
  }

  lemma FewerPaths(cs: seq<Change>, ds: seq<Change>)
    requires multiset(ds) <= multiset(cs)
    ensures TouchedPaths(ds) <= TouchedPaths(cs)
    ensures forall c :: c in ds ==> c in cs
  {
    forall c | c in ds ensures c in cs {
      assert multiset(ds)[c] > 0;
      assert c in multiset(cs);
    }
    forall p | p in TouchedPaths(ds) ensures p in TouchedPaths(cs) {
      var i :| 0 <= i < |ds| && Counted(ds[i]) && TrimSpace(ds[i].path) == p;
      assert ds[i] in cs;
      var j :| 0 <= j < |cs| && cs[j] == ds[i];
    }
  }

  /** A path that is let through where it is on the list. */
  predicate Allowable(p: string) {
    Trimmed(p) && p != "/dev/null" && DeniedPath(p).None?
  }

  /** One allowed set is at least as strict as another. The empty set is the
      laxest of all. */
  predicate StricterAllow(a: set<string>, b: set<string>) {
    b == {} || (a != {} && forall p :: p in a && Allowable(p) ==> p in b)
  }

  /** An accepted patch stays accepted when changes are taken out of it or put in
      another order, when more paths are allowed and when caps are raised: so
      stricter settings never turn a refusal into an acceptance. */
  lemma {:induction false} AcceptanceIsMonotone(cs: seq<Change>, ds: seq<Change>, a: set<string>, b: set<string>, caps: Caps, lax: Caps)
    requires ds != [] && multiset(ds) <= multiset(cs)
    requires StricterAllow(a, b) && caps.maxFiles <= lax.maxFiles && caps.maxLines <= lax.maxLines
    ensures Accepts(cs, a, caps) ==> Accepts(ds, b, lax)
  {
    FewerLines(cs, ds);
    FewerPaths(cs, ds);
    SubsetSize(TouchedPaths(ds), TouchedPaths(cs));
    if Accepts(cs, a, caps) {
      forall i | 0 <= i < |ds| && Counted(ds[i]) ensures Landable(ds[i], b) {
        assert ds[i] in cs;
        var j :| 0 <= j < |cs| && cs[j] == ds[i];
        assert Landable(cs[j], a);
        TrimSpaceLaws(cs[j].path);
      }
    }
  }

  lemma {:induction false} VerdictIgnoresOrder(cs: seq<Change>, ds: seq<Change>, allow: set<string>, caps: Caps)
    requires multiset(cs) == multiset(ds)
    ensures Accepts(cs, allow, caps) <==> Accepts(ds, allow, caps)
  {
    if cs == [] || ds == [] {
      assert |multiset(cs)| == |cs| && |multiset(ds)| == |ds|;
    } else {
      AcceptanceIsMonotone(cs, ds, allow, allow, caps, caps);
      AcceptanceIsMonotone(ds, cs, allow, allow, caps, caps);
    }
  }

  // ----- When "stricter" is stricter -----

  function Letters(n: nat): string {
    seq(n, _ => 'a')
  }

  lemma {:induction false} NoSlashIn(s: string)
    requires '/' !in s
    ensures TrimSlashes(s) == s && LastSlash(s) == -1
    decreases |s|
  {
    if s != "" {
      assert s[|s| - 1] in s;
      assert forall c :: c in s[..|s| - 1] ==> c in s;
      NoSlashIn(s[..|s| - 1]);
    }
  }

  lemma LockfilesHaveDots(name: string)
    requires name in LOCKFILES
    ensures '.' in name
  {
    var i :| 0 <= i < |LOCKFILES| && LOCKFILES[i] == name;
    assert LOCKFILES[i][[12, 4, 9, 2, 8, 5, 6, 7, 3][i]] == '.';
  }

  lemma LettersAllowed(n: nat)
    requires n > 0
    ensures Allowable(Letters(n)) && TrimSpace(Letters(n)) == Letters(n) != ""
  {
    var p := Letters(n);
    TrimmedIsFixed(p);
    NoSlashIn(p);
    assert p[0] == 'a' && ToLower(p) == p;
    if p in LOCKFILES {
      LockfilesHaveDots(p);
      assert false;
    }
  }

  function Empty(path: string): Change {
    Change(path, 0, 0, "", false)
  }

  lemma {:induction false} LinesSnoc(cs: seq<Change>, c: Change)
    ensures LinesTouched(cs + [c]) == LinesTouched(cs) + Weight(c)
  {
    assert (cs + [c])[..|cs|] == cs;
  }

  /** One change of an allowable path is accepted exactly where it is allowed. */
  lemma {:induction false} SingleChange(path: string, added: nat, allow: set<string>, caps: Caps)
    requires Allowable(path)
    ensures Accepts([Change(path, added, 0, "", false)], allow, caps) <==>
              (allow != {} ==> path in allow) && 1 <= caps.maxFiles && added <= caps.maxLines
  {
    var c := Change(path, added, 0, "", false);
    TrimmedIsFixed(path);
    TouchedSnoc([], c);
    LandableSnoc([], allow, c);
    LinesSnoc([], c);
    assert [] + [c] == [c] && TouchedPaths([]) == {};
    assert TouchedPaths([c]) == {path};
    assert !IsExecMode("");
  }

  function ManyFiles(n: nat): seq<Change> {
    if n == 0 then [] else ManyFiles(n - 1) + [Empty(Letters(n))]
  }

  lemma EmptyIsLandable(n: nat)
    requires n > 0
    ensures Counted(Empty(Letters(n))) && Landable(Empty(Letters(n)), {}) && TrimSpace(Empty(Letters(n)).path) == Letters(n)
    ensures Weight(Empty(Letters(n))) == 0
  {
    LettersAllowed(n);
    assert !IsExecMode("");
  }

  ghost predicate Harmless(cs: seq<Change>) {
    AllLandable(cs, {}) && LinesTouched(cs) == 0
  }

  lemma {:induction false} OneMoreHarmless(cs: seq<Change>, c: Change)
    requires Harmless(cs) && Landable(c, {}) && Weight(c) == 0
    ensures Harmless(cs + [c])
  {
    LandableSnoc(cs, {}, c);
    LinesSnoc(cs, c);
  }

  lemma {:induction false} ManyFilesLand(n: nat)
    ensures Harmless(ManyFiles(n))
    decreases n
  {
    if n > 0 {
      ManyFilesLand(n - 1);
      EmptyIsLandable(n);
      OneMoreHarmless(ManyFiles(n - 1), Empty(Letters(n)));
    }
  }

  ghost predicate Counts(cs: seq<Change>, n: nat) {
    |TouchedPaths(cs)| == n && forall p :: p in TouchedPaths(cs) ==> |p| <= n
  }

  lemma {:induction false} OneMorePath(cs: seq<Change>, c: Change, p: string)
    requires p != "" && Counts(cs, |p| - 1) && Counted(c) && TrimSpace(c.path) == p
    ensures Counts(cs + [c], |p|)
  {
    TouchedSnoc(cs, c);
    assert p !in TouchedPaths(cs);
  }

  lemma {:induction false} ManyFilesTouched(n: nat)
    ensures Counts(ManyFiles(n), n)
    decreases n
  {
    if n > 0 {
      ManyFilesTouched(n - 1);
      EmptyIsLandable(n);
      OneMorePath(ManyFiles(n - 1), Empty(Letters(n)), Letters(n));
    } else {
      NothingTouched();
    }
  }

  lemma {:induction false} NothingTouched()
    ensures TouchedPaths([]) == {}
  {
  }

  predicate Positive(c: Caps) {
    c.maxFiles > 0 && c.maxLines > 0
  }

  predicate Within(a: Caps, b: Caps) {
    a.maxFiles <= b.maxFiles && a.maxLines <= b.maxLines
  }

  ghost predicate Implies(allowA: set<string>, a: Caps, allowB: set<string>, b: Caps) {
    forall cs :: Accepts(cs, allowA, a) ==> Accepts(cs, allowB, b)
  }

  /** Whatever one setting of the caps accepts another accepts too, exactly when
      it is no wider. */
  lemma {:induction false} WiderExactly(a: Caps, b: Caps)
    requires Positive(a) && Positive(b)
    ensures (forall allow :: Implies(allow, a, allow, b)) <==> Within(a, b)
  {
    if Within(a, b) {
      forall allow, cs | Accepts(cs, allow, a) ensures Accepts(cs, allow, b) {
        AcceptanceIsMonotone(cs, cs, allow, allow, a, b);
      }
    } else if a.maxFiles > b.maxFiles {
      ManyFilesTouched(b.maxFiles + 1);
      ManyFilesLand(b.maxFiles + 1);
      assert Accepts(ManyFiles(b.maxFiles + 1), {}, a) && !Accepts(ManyFiles(b.maxFiles + 1), {}, b);
      assert !Implies({}, a, {}, b);
    } else {
      LettersAllowed(1);
      SingleChange(Letters(1), b.maxLines + 1, {}, a);
      SingleChange(Letters(1), b.maxLines + 1, {}, b);
      assert !Implies({}, a, {}, b);
    }
  }

  /** Shrinking the caps of a call never turns a refusal into an acceptance
      exactly when they stay positive or the defaults they then stand for are no
      wider than the caps were. */
  lemma ShrinkingCapsExactly(caps: Caps, smaller: Caps, defaults: Caps)
    requires Within(smaller, caps) && Positive(caps) && Positive(defaults)
    ensures (forall allow :: Implies(allow, EffectiveCaps(smaller, defaults), allow, EffectiveCaps(caps, defaults)))
            <==> Positive(smaller) || Within(defaults, caps)
  {
    WiderExactly(EffectiveCaps(smaller, defaults), EffectiveCaps(caps, defaults));
  }

  lemma {:induction false} LongerThanAll(b: set<string>) returns (n: nat)
    ensures n > 0 && forall p :: p in b ==> |p| < n
    decreases |b|
  {
    if b == {} {
      n := 1;
    } else {
      var p :| p in b;
      var m := LongerThanAll(b - {p});
      n := if m > |p| then m else |p| + 1;
      assert b == (b - {p}) + {p};
    }
  }

  lemma {:induction false} SlipsThrough(a: set<string>, b: set<string>) returns (p: string)
    requires !StricterAllow(a, b)
    ensures Allowable(p) && (a != {} ==> p in a) && b != {} && p !in b
  {
    if a == {} {
      var n := LongerThanAll(b);
      p := Letters(n);
      LettersAllowed(n);
    } else {
      p :| p in a && Allowable(p) && p !in b;
    }
  }

  /** Another allowlist never turns a refusal into an acceptance exactly when it
      names no more paths that can be let through, and still names something, a
      list of blanks being no list. */
  lemma {:induction false} StricterListExactly(list: seq<string>, other: seq<string>)
    ensures (forall caps :: Implies(AllowSet(list), caps, AllowSet(other), caps)) <==> StricterAllow(AllowSet(list), AllowSet(other))
  {
    var a, b := AllowSet(list), AllowSet(other);
    if StricterAllow(a, b) {
      forall caps, cs | Accepts(cs, a, caps) ensures Accepts(cs, b, caps) {
        AcceptanceIsMonotone(cs, cs, a, b, caps, caps);
      }
    } else {
      var p := SlipsThrough(a, b);
      SingleChange(p, 0, a, Caps(1, 1));
      SingleChange(p, 0, b, Caps(1, 1));
      assert !Implies(a, Caps(1, 1), b, Caps(1, 1));
    }
  }

  /** So a list of blanks lets through what any real list refuses. */
  lemma {:induction false} BlankListWidens(list: seq<string>)
    requires AllowSet(list) != {}
    ensures AllowSet([" "]) == {} && !StricterAllow(AllowSet([" "]), AllowSet(list))
  {
    assert TrimSpace(" ") == "";
  }

  // ----- What no setting lets through -----

  /** Directories whose content a patch never changes. */
  predicate InConfigDir(p: string) {
    IsConfigDir(Split(p, '/')[0])
  }

  lemma {:induction false} TrimIsPrefix(p: string)
    requires p != "" && !IsSpace(p[0])
    ensures TrimSpace(p) <= p && TrimSpace(p) != "" && forall i :: |TrimSpace(p)| <= i < |p| ==> IsSpace(p[i])
  {
    assert TrimLeft(p) == p;
    TrimRightIs(p);
  }

  lemma ConfigName(seg: string)
    requires IsConfigDir(seg)
    ensures |seg| >= 4 && seg[0] == '.' && forall i :: 0 <= i < |seg| ==> !IsSpace(seg[i]) && seg[i] != '/'
  {
    var low := ToLower(seg);
    assert low[0] == '.' && forall i :: 0 < i < |low| ==> 'a' <= low[i] <= 'z';
    assert forall i :: 0 <= i < |seg| ==> low[i] == LowerChar(seg[i]);
  }

  /** A prefix that takes only white space away keeps a first segment without any. */
  lemma {:induction false} SegmentOfPrefix(p: string, t: string, n: nat)
    requires t <= p && SegmentEnds(p, n) && n <= |t|
    ensures Split(t, '/')[0] == p[..n] && Split(p, '/')[0] == p[..n]
  {
    SegmentIs(p, n);
    SegmentIs(t, n);
    assert t[..n] == p[..n];
  }

  lemma {:induction false} SegmentIs(p: string, n: nat)
    requires SegmentEnds(p, n)
    ensures Split(p, '/')[0] == p[..n]
  {
    var seg := Split(p, '/')[0];
    FirstSegment(p);
    assert forall i :: 0 <= i < |seg| ==> seg[i] in seg && seg[i] == p[i];
    SegmentEndsOnce(p, n, |seg|);
  }

  lemma {:induction false} ConfigSegment(p: string)
    requires InConfigDir(p)
    ensures p != "" && p[0] == '.' && !HasPrefix(p, "./") && InConfigDir(TrimSpace(p))
  {
    var seg := Split(p, '/')[0];
    FirstSegment(p);
    ConfigName(seg);
    assert forall i :: 0 <= i < |seg| ==> p[i] == seg[i];
    TrimIsPrefix(p);
    SegmentOfPrefix(p, TrimSpace(p), |seg|);
  }

  /** Nothing in .github or .opa, in any case of letters, is ever allowed. */
  lemma {:induction false} ConfigIsDenied(p: string)
    requires InConfigDir(p)
    ensures DeniedPath(p).Some? && TrimSpace(p) != "" && TrimSpace(p) != "/dev/null"
  {
    ConfigSegment(p);
    ConfigSegment(TrimSpace(p));
    DeniedExactly(p);
  }

  /** Each of these alone makes the gate refuse, whatever else the diff holds and
      whatever list and caps are set. */
  predicate Refusable(c: Change) {
    || InConfigDir(TrimSpace(c.path))
    || IsLockfile(LastNamed(Split(TrimPrefix(TrimSpace(c.path), "./"), '/')))
    || c.isSubmodule || c.newMode == "160000" || c.newMode == "100755"
  }

  lemma {:induction false} RefusedAlways(cs: seq<Change>, c: Change, allow: set<string>, caps: Caps)
    requires c in cs && Counted(c) && Refusable(c)
    ensures !Accepts(cs, allow, caps)
  {
    var i :| 0 <= i < |cs| && cs[i] == c;
    TrimSpaceLaws(c.path);
    DeniedExactly(TrimSpace(c.path));
    if InConfigDir(TrimSpace(c.path)) {
      ConfigIsDenied(TrimSpace(c.path));
    }
    TrimmedIsFixed("100755");
    assert !Landable(cs[i], allow);
  }

  lemma {:induction false} OneOfManyTouched(cs: seq<Change>, c: Change)
    requires c in cs
    ensures LinesTouched(cs) >= Weight(c)
    decreases |cs|
  {
    if cs[|cs| - 1] != c {
      OneOfManyTouched(cs[..|cs| - 1], c);
    }
  }

  /** So do a path off a list, one file whose added and removed lines exceed the
      cap, and more paths than the cap. */
  lemma {:induction false} RefusedByLimits(cs: seq<Change>, c: Change, allow: set<string>, caps: Caps)
    requires c in cs && Counted(c)
    requires || (allow != {} && TrimSpace(c.path) !in allow)
             || c.added + c.removed > caps.maxLines
             || |TouchedPaths(cs)| > caps.maxFiles
    ensures !Accepts(cs, allow, caps)
  {
    var i :| 0 <= i < |cs| && cs[i] == c;
    OneOfManyTouched(cs, c);
  }
}
