// Intersecting a checkup plan with the policy (checkup_policy.go): what is kept,
// what is dropped and recorded, and when a second pass changes nothing.
module CheckupPolicy {
  import opened Text
  import opened Paths
  import opened PHPStan
  import opened Decimals
  import opened Intake
  import opened TextLines

  const MAX_STEPS: nat := 20
  const MAX_SERVICES: nat := 6
  const DEFAULT_STEP_TIMEOUT: int := 600
  const MAX_STEP_TIMEOUT: int := 1800
  const DEFAULT_SERVICE_TIMEOUT: int := 120
  const MAX_SERVICE_TIMEOUT: int := 300
  const DEFAULT_SERVICE_MEMORY: string := "1g"
  const DEFAULT_SERVICE_CPUS: string := "1"

  datatype Post = Post(kind: string, path: string, minTests: int, contains: string)

  datatype CheckupStep = CheckupStep(id: string, argv: seq<string>, timeout: int, post: Post, dir: string)

  datatype Service = Service(key: string, image: string, healthCmd: seq<string>, healthTimeout: int, memory: string, cpus: string)

  datatype Plan = Plan(version: int, source: string, image: string, services: seq<Service>, steps: seq<CheckupStep>)

  /** Which images may run, and the default one. */
  datatype Images = Images(allowed: string -> bool, fallback: string)

  const NO_POST: Post := Post("", "", 0, "")

  // ----- Post-conditions -----

  predicate SafeRelPath(p: string) {
    var c := Clean(TrimSpace(p));
    TrimSpace(p) != "" && c != "." && !Escapes(c)
  }

  /** The kind "" stands for a refused post-condition. */
  function NormalizePost(pc: Post): Post {
    var kind, path := ToLower(TrimSpace(pc.kind)), TrimSpace(pc.path);
    if kind in ["exit0", "exit_zero", "exit-code"] then Post("exit0", "", 0, "")
    else if kind == "junit" then
      if path == "" || !SafeRelPath(path) then NO_POST
      else Post("junit", path, if pc.minTests < 0 then 0 else pc.minTests, "")
    else if kind == "checkstyle" then
      if path != "" && !SafeRelPath(path) then NO_POST else Post("checkstyle", path, 0, "")
    else if kind in ["stdout_contains", "stdout"] then
      if TrimSpace(pc.contains) == "" then NO_POST else Post("stdout_contains", "", 0, pc.contains)
    else if kind in ["artifact_exists", "artifact"] then
      if path == "" || !SafeRelPath(path) then NO_POST else Post("artifact_exists", path, 0, "")
    else NO_POST
  }

  predicate LegalPost(pc: Post) {
    || pc == Post("exit0", "", 0, "")
    || (pc.kind == "junit" && SafeRelPath(pc.path) && Trimmed(pc.path) && pc.minTests >= 0 && pc.contains == "")
    || (pc.kind == "checkstyle" && (pc.path == "" || SafeRelPath(pc.path)) && Trimmed(pc.path) && pc.minTests == 0 && pc.contains == "")
    || (pc.kind == "stdout_contains" && pc.path == "" && pc.minTests == 0 && TrimSpace(pc.contains) != "")
    || (pc.kind == "artifact_exists" && SafeRelPath(pc.path) && Trimmed(pc.path) && pc.minTests == 0 && pc.contains == "")
  }

  lemma SafeRelTrimmed(p: string)
    ensures SafeRelPath(TrimSpace(p)) <==> SafeRelPath(p)
    ensures Trimmed(TrimSpace(p)) && TrimSpace(TrimSpace(p)) == TrimSpace(p)
  {
    TrimSpaceLaws(p);
  }

  /** What normalizing yields is legal or refused. */
  lemma NormalizedIsLegal(pc: Post)
    ensures NormalizePost(pc).kind != "" ==> LegalPost(NormalizePost(pc))
    ensures NormalizePost(pc).kind == "" ==> NormalizePost(pc) == NO_POST
  {
    SafeRelTrimmed(pc.path);
  }

  lemma KindIsPlain(kind: string)
    requires kind in ["exit0", "junit", "checkstyle", "stdout_contains", "artifact_exists"]
    ensures ToLower(TrimSpace(kind)) == kind
  {
    LowerIsFixed(kind);
    TrimmedIsFixed(kind);
  }

  lemma LowerIsFixed(s: string)
    ensures (forall i :: 0 <= i < |s| ==> !('A' <= s[i] <= 'Z')) ==> ToLower(s) == s
  {
  }

  /** A legal post-condition is left as it is. */
  lemma {:induction false} LegalIsFixed(pc: Post)
    requires LegalPost(pc)
    ensures NormalizePost(pc) == pc
  {
    KindIsPlain(pc.kind);
    TrimmedPathIsFixed(pc.path);
    assert pc.kind == "exit0" || pc.kind == "stdout_contains" || pc.kind in ["junit", "checkstyle", "artifact_exists"];
  }

  lemma TrimmedPathIsFixed(path: string)
    ensures Trimmed(path) ==> TrimSpace(path) == path
    ensures SafeRelPath(TrimSpace(path)) <==> SafeRelPath(path)
  {
    SafeRelTrimmed(path);
    TrimSpaceLaws(path);
  }

  // ----- One step -----

  function StepId(step: CheckupStep, index: nat): string {
    if TrimSpace(step.id) == "" then "step-" + Decimal(index + 1) else TrimSpace(step.id)
  }

  function ClampTimeout(t: int, fallback: int, max: int): (r: int)
  {
    var d := if t <= 0 then fallback else t;
    if d > max then max else d
  }

  function WorkingDir(dir: string): string {
    var d := TrimSpace(dir);
    if d == "" || Escapes(Clean(d)) then "" else Clean(d)
  }

  predicate BareExit(pc: Post) {
    ToLower(TrimSpace(pc.kind)) in ["", "exit0", "exit_zero", "exit-code"]
  }

  /** normalizePHPStanStep */
  ghost function PHPStanStep(s: CheckupStep): CheckupStep
    requires s.argv != []
  {
    if Binary(s.argv[0]) != "phpstan" then s
    else s.(argv := [VendorBinary(s.argv[0])] + Normalised(s.argv[1..]),
            post := if BareExit(s.post) then Post("checkstyle", "", 0, "") else s.post)
  }

  /** Why a step is dropped, if it is, apart from its id. */
  function Refusal(step: CheckupStep): Option<Why> {
    if step.argv == [] then Some(EmptyArgv)
    else if LooksLikeShell(step.argv) then Some(ShellArgv)
    else if Binary(step.argv[0]) in DENIED || Binary(step.argv[0]) !in ALLOWED then Some(BinaryDenied)
    else if NormalizePost(step.post).kind == "" then Some(NoPost)
    else None
  }

  ghost function KeptStep(step: CheckupStep, index: nat): CheckupStep
    requires Refusal(step).None?
  {
    PHPStanStep(CheckupStep(StepId(step, index), step.argv, ClampTimeout(step.timeout, DEFAULT_STEP_TIMEOUT, MAX_STEP_TIMEOUT),
                            NormalizePost(step.post), WorkingDir(step.dir)))
  }

  ghost predicate LegalStep(s: CheckupStep) {
    && s.id != "" && Trimmed(s.id)
    && s.argv != [] && Binary(s.argv[0]) in ALLOWED && Binary(s.argv[0]) !in DENIED
    && (Binary(s.argv[0]) != "phpstan" ==> !LooksLikeShell(s.argv))
    && (Binary(s.argv[0]) == "phpstan" ==> HasCheckstyle(s.argv[1..]) && s.post.kind != "exit0")
    && 1 <= s.timeout <= MAX_STEP_TIMEOUT
    && LegalPost(s.post)
    && (s.dir == "" || (Clean(s.dir) == s.dir && !Escapes(s.dir)))
  }

  lemma StepIdIsTrimmed(step: CheckupStep, index: nat)
    ensures StepId(step, index) != "" && Trimmed(StepId(step, index))
  {
    TrimSpaceLaws(step.id);
    var d := Decimal(index + 1);
    assert '0' <= d[|d| - 1] <= '9';
    assert !IsSpace(d[|d| - 1]);
  }

  lemma PHPStanPost(pc: Post)
    requires LegalPost(pc)
    ensures BareExit(pc) <==> pc.kind == "exit0"
    ensures LegalPost(Post("checkstyle", "", 0, ""))
  {
    KindIsPlain(pc.kind);
  }

  lemma {:induction false} KeptIsLegal(step: CheckupStep, index: nat)
    requires Refusal(step).None?
    ensures LegalStep(KeptStep(step, index)) && KeptStep(step, index).id == StepId(step, index)
  {
    StepIdIsTrimmed(step, index);
    NormalizedIsLegal(step.post);
    PHPStanPost(NormalizePost(step.post));
    CleanTwice(TrimSpace(step.dir));
    if Binary(step.argv[0]) == "phpstan" {
      ArgvStable(step.argv);
      CheckstyleKept(step.argv[1..]);
      var out := KeptStep(step, index).argv;
      assert out[1..] == Normalised(step.argv[1..]);
    }
  }

  /** What a caller can read off a step before the first pass: its phpstan flags
      survive the rewrite, and its cleaned directory has no white space at the ends. */
  ghost predicate StableStep(step: CheckupStep)
    requires step.argv != []
  {
    && (Binary(step.argv[0]) == "phpstan" ==> WellValued(step.argv[1..]) && !UncoversShellFlag(step.argv[1..]))
    && Trimmed(WorkingDir(step.dir))
  }

  lemma DirStable(dir: string)
    ensures WorkingDir(WorkingDir(dir)) == WorkingDir(dir) <==> Trimmed(WorkingDir(dir))
  {
    var w := WorkingDir(dir);
    CleanTwice(TrimSpace(dir));
    if w == "" {
      assert TrimSpace("") == "";
    } else {
      CleanTrimmed(w);
    }
  }

  /** A kept step goes through a second pass unchanged exactly when it is stable. */
  lemma {:induction false} KeptTwice(step: CheckupStep, index: nat, second: nat)
    requires Refusal(step).None?
    ensures var s := KeptStep(step, index);
            Refusal(s).None? && KeptStep(s, second) == s <==> StableStep(step)
  {
    var s := KeptStep(step, index);
    KeptIsLegal(step, index);
    TrimmedIsFixed(s.id);
    LegalIsFixed(s.post);
    PHPStanPost(s.post);
    DirStable(step.dir);
    if Binary(step.argv[0]) == "phpstan" {
      ArgvStable(step.argv);
    }
  }

  // ----- All steps -----

  function ClampDrops(step: CheckupStep, index: nat): seq<Drop> {
    (if step.timeout > MAX_STEP_TIMEOUT then [Clamped(index)] else [])
    + (if TrimSpace(step.dir) != "" && Escapes(Clean(TrimSpace(step.dir))) then [Clamped(index)] else [])
  }

  /** Steps are refused after the test for a duplicate id only. */
  ghost function StepRules(): Rules<CheckupStep> {
    Rules(MAX_STEPS, StepId, (s: CheckupStep) => None, Refusal,
          (s: CheckupStep, index: nat) => if Refusal(s).None? then KeptStep(s, index) else s,
          (s: CheckupStep) => s.id, ClampDrops)
  }

  ghost function StepsOf(raw: seq<CheckupStep>): Taken<CheckupStep> {
    TakeIn(raw, StepRules())
  }

  predicate HasId(steps: seq<CheckupStep>, id: string) {
    exists i :: 0 <= i < |steps| && steps[i].id == id
  }

  method NormalizePHPStanStep(step: CheckupStep) returns (out: CheckupStep)
    requires step.argv != [] && Binary(step.argv[0]) == "phpstan"
    ensures out == PHPStanStep(step)
  {
    var argv := NormalizePHPStanArgv(step.argv);
    out := step.(argv := argv);
    if BareExit(out.post) {
      out := out.(post := Post("checkstyle", "", 0, ""));
    }
  }

  lemma {:induction false} PostIsFixed(step: CheckupStep, index: nat)
    requires Refusal(step).None?
    ensures NormalizePost(KeptStep(step, index).post) == KeptStep(step, index).post
  {
    KeptIsLegal(step, index);
    LegalIsFixed(KeptStep(step, index).post);
  }

  /** The part of the loop over the steps after the checks. */
  method ClampStep(step: CheckupStep, id: string, index: nat) returns (out: CheckupStep, drops: seq<Drop>)
    requires Refusal(step).None? && id == StepId(step, index)
    ensures out == KeptStep(step, index) && drops == ClampDrops(step, index)
  {
    drops := [];
    var to := step.timeout;
    if to <= 0 {
      to := DEFAULT_STEP_TIMEOUT;
    }
    if to > MAX_STEP_TIMEOUT {
      drops := drops + [Clamped(index)];
      to := MAX_STEP_TIMEOUT;
    }
    var wd := TrimSpace(step.dir);
    if wd != "" {
      wd := Clean(wd);
      if Escapes(wd) {
        drops := drops + [Clamped(index)];
        wd := "";
      }
    }
    out := CheckupStep(id, step.argv, to, NormalizePost(step.post), wd);
    if Binary(step.argv[0]) == "phpstan" {
      out := NormalizePHPStanStep(out);
      PostIsFixed(step, index);
      out := out.(post := NormalizePost(out.post));   // changes nothing, so never drops the step
    }
  }

  method IntersectSteps(raw: seq<CheckupStep>) returns (kept: seq<CheckupStep>, drops: seq<Drop>)
    ensures kept == StepsOf(raw).kept && drops == StepsOf(raw).drops
  {
    kept, drops := [], [];
    for i := 0 to |raw|
      invariant kept == StepsOf(raw[..i]).kept && drops == StepsOf(raw[..i]).drops && !StepsOf(raw[..i]).capped
    {
      var step := raw[i];
      TakeSnoc(raw, i);
      TakeInSnoc(raw[..i], step, StepRules());
      if |kept| >= MAX_STEPS {
        drops := drops + [CapReached(i)];
        CappedStays(raw, i + 1, StepRules());
        return;
      }
      var id := TrimSpace(step.id);
      if id == "" {
        id := "step-" + Decimal(i + 1);
      }
      if HasId(kept, id) {
        drops := drops + [OneDropped(i, Duplicate)];
        continue;
      }
      var why := Refusal(step);
      if why.Some? {
        drops := drops + [OneDropped(i, why.value)];
        continue;
      }
      var clamped, more := ClampStep(step, id, i);
      kept, drops := kept + [clamped], drops + more;
    }
    TakeAll(raw);
  }

  lemma {:induction false} StepsAreSound()
    ensures Sound(StepRules(), LegalStep) && KeyStays(StepRules(), LegalStep)
  {
    forall s, i: nat | Refusal(s).None? ensures LegalStep(KeptStep(s, i)) && KeptStep(s, i).id == StepId(s, i) {
      KeptIsLegal(s, i);
    }
    forall s, i: nat | LegalStep(s) ensures StepId(s, i) == s.id {
      TrimmedIsFixed(s.id);
    }
  }

  /** Whatever the plan, the kept steps fit the envelope, each is what one raw
      step became, and every raw step that is missing has a recorded drop. */
  lemma StepsFitEnvelope(raw: seq<CheckupStep>)
    ensures Fits(StepsOf(raw), raw, StepRules(), LegalStep)
  {
    StepsAreSound();
    TakenFits(raw, StepRules(), LegalStep);
  }

  /** The raw steps that were kept are stable. */
  ghost predicate SourcesStable(raw: seq<CheckupStep>) {
    var r := StepsOf(raw);
    && FromRaw(r, raw, StepRules())
    && forall k :: 0 <= k < |r.kept| ==> SourceFits(r, raw, StepRules(), k) && StableStep(raw[r.sources[k]])
  }

  lemma {:induction false} SourceTwice(r: Taken<CheckupStep>, raw: seq<CheckupStep>, k: nat)
    requires FromRaw(r, raw, StepRules()) && k < |r.kept|
    ensures SourceFits(r, raw, StepRules(), k)
    ensures Fixed(r.kept[k], k, StepRules()) <==> StableStep(raw[r.sources[k]])
  {
    assert SourceFits(r, raw, StepRules(), k);
    KeptTwice(raw[r.sources[k]], r.sources[k], k);
  }

  /** The steps that were kept go through a second pass unchanged exactly when
      the raw steps they came from were stable. */
  lemma {:induction false} StepsTwice(raw: seq<CheckupStep>)
    ensures StepsOf(StepsOf(raw).kept).kept == StepsOf(raw).kept <==> SourcesStable(raw)
  {
    StepsFitEnvelope(raw);
    StepsAreSound();
    var r := StepsOf(raw);
    KeptAsWhole(r.kept, StepRules(), LegalStep);
    forall k | 0 <= k < |r.kept|
      ensures SourceFits(r, raw, StepRules(), k)
      ensures Fixed(r.kept[k], k, StepRules()) <==> StableStep(raw[r.sources[k]])
    {
      SourceTwice(r, raw, k);
    }
  }

  // ----- What a kept step is -----

  /** A kept step keeps its command, except a phpstan one; its time limit is its
      own up to half an hour, ten minutes if it has none; its id is its own,
      trimmed, or its number. */
  lemma {:induction false} KeptStepIs(step: CheckupStep, index: nat)
    requires Refusal(step).None?
    ensures var s := KeptStep(step, index);
            && (Binary(step.argv[0]) != "phpstan" ==> s.argv == step.argv && s.post == NormalizePost(step.post))
            && (1 <= step.timeout <= 1800 ==> s.timeout == step.timeout)
            && (step.timeout > 1800 ==> s.timeout == 1800)
            && (step.timeout <= 0 ==> s.timeout == 600)
            && (TrimSpace(step.id) != "" ==> s.id == TrimSpace(step.id))
            && (TrimSpace(step.id) == "" ==> s.id == "step-" + Decimal(index + 1))
  {
  }

  /** A step of another tool that is legal and has a clean directory goes through
      untouched. */
  lemma {:induction false} LegalStepIsKept(step: CheckupStep, index: nat)
    requires LegalStep(step) && Binary(step.argv[0]) != "phpstan" && Trimmed(step.dir)
    ensures Refusal(step).None? && KeptStep(step, index) == step
  {
    LegalIsFixed(step.post);
    TrimmedIsFixed(step.id);
    TrimmedIsFixed(step.dir);
  }

  /** A post-condition that can be checked, in any case of letters and either
      spelling of its kind. */
  predicate Asks(pc: Post) {
    match ToLower(TrimSpace(pc.kind))
    case "exit0" => true
    case "exit_zero" => true
    case "exit-code" => true
    case "junit" => SafeRelPath(pc.path)
    case "artifact_exists" => SafeRelPath(pc.path)
    case "artifact" => SafeRelPath(pc.path)
    case "checkstyle" => TrimSpace(pc.path) == "" || SafeRelPath(pc.path)
    case "stdout_contains" => TrimSpace(pc.contains) != ""
    case "stdout" => TrimSpace(pc.contains) != ""
    case _ => false
  }

  lemma {:induction false} RefusedPosts(pc: Post)
    ensures NormalizePost(pc).kind == "" <==> !Asks(pc)
  {
    SafeRelTrimmed(pc.path);
    AsksByKind(pc, ToLower(TrimSpace(pc.kind)));
  }

  lemma {:induction false} AsksByKind(pc: Post, kind: string)
    requires kind == ToLower(TrimSpace(pc.kind))
    ensures Asks(pc) <==>
              || kind in ["exit0", "exit_zero", "exit-code"]
              || (kind in ["junit", "artifact_exists", "artifact"] && SafeRelPath(pc.path))
              || (kind == "checkstyle" && (TrimSpace(pc.path) == "" || SafeRelPath(pc.path)))
              || (kind in ["stdout_contains", "stdout"] && TrimSpace(pc.contains) != "")
  {
  }

  /** How a step is refused: without a command, for a command that reads like a
      shell's, for a tool that is not allowed, and for a post-condition that asks
      for nothing known or lacks what it needs. */
  lemma {:induction false} RefusedExactly(step: CheckupStep)
    ensures Refusal(step).Some? <==>
              || step.argv == [] || LooksLikeShell(step.argv)
              || Binary(step.argv[0]) in DENIED || Binary(step.argv[0]) !in ALLOWED
              || !Asks(step.post)
  {
    RefusedPosts(step.post);
  }

  /** A safe artifact path is relative, names something, and leads nowhere above
      where it starts. */
  lemma {:induction false} SafeRelExactly(p: string)
    ensures SafeRelPath(p) <==>
              && TrimSpace(p) != "" && !IsAbs(TrimSpace(p))
              && Walk(Split(TrimSpace(p), '/'), false).ups == 0 && Clean(TrimSpace(p)) != "."
  {
    var t := TrimSpace(p);
    CleanLeadsToTheSamePlace(t);
    if !IsAbs(t) {
      EscapesExactly(t);
    }
  }
}
