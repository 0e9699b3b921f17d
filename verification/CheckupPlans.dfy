// Services and whole plans under the checkup policy (checkup_policy.go).
module CheckupPlans {
  import opened Text
  import opened Paths
  import opened PHPStan
  import opened CheckupPolicy
  import opened Intake

  const HEALTH_BINARIES: seq<string> := ["mysqladmin", "redis-cli", "pg_isready", "curl", "wget", "true", "test", "ls"]

  // ----- Services -----

  predicate KeyChar(c: char) {
    'a' <= c <= 'z' || '0' <= c <= '9' || c == '_' || c == '-'
  }

  function KeyChars(s: string): string {
    if s == "" then "" else KeyChars(s[..|s| - 1]) + (if KeyChar(s[|s| - 1]) then [s[|s| - 1]] else "")
  }

  function SanitizedKey(key: string): string {
    var out := KeyChars(TrimSpace(ToLower(key)));
    if |out| > 63 then out[..63] else out
  }

  method SanitizeServiceKey(key: string) returns (out: string)
    ensures out == SanitizedKey(key)
  {
    var low := TrimSpace(ToLower(key));
    out := "";
    for i := 0 to |low|
      invariant out == KeyChars(low[..i])
    {
      assert low[..i + 1][..i] == low[..i];
      if KeyChar(low[i]) {
        out := out + [low[i]];
      }
    }
    assert low[..|low|] == low;
    if |out| > 63 {
      out := out[..63];
    }
  }

  predicate CleanKey(key: string) {
    0 < |key| <= 63 && forall i :: 0 <= i < |key| ==> KeyChar(key[i])
  }

  lemma {:induction false} KeyCharsLaws(s: string)
    ensures forall i :: 0 <= i < |KeyChars(s)| ==> KeyChar(KeyChars(s)[i])
    ensures (forall i :: 0 <= i < |s| ==> KeyChar(s[i])) ==> KeyChars(s) == s
    decreases |s|
  {
    if s != "" {
      KeyCharsLaws(s[..|s| - 1]);
    }
  }

  /** A sanitized key is empty or clean, and sanitizing leaves a clean key alone. */
  lemma {:induction false} SanitizedTwice(key: string)
    ensures SanitizedKey(key) != "" ==> CleanKey(SanitizedKey(key))
    ensures CleanKey(key) ==> SanitizedKey(key) == key
  {
    KeyCharsLaws(TrimSpace(ToLower(key)));
    if CleanKey(key) {
      CleanKeyIsPlain(key);
      KeyCharsLaws(key);
    }
  }

  lemma {:induction false} CleanKeyIsPlain(key: string)
    requires CleanKey(key)
    ensures TrimSpace(ToLower(key)) == key
  {
    LowerIsFixed(key);
    TrimmedIsFixed(key);
  }

  /** filterServiceHealthCmd; a refused command is left out. */
  function HealthCmd(argv: seq<string>): seq<string> {
    if argv == [] || LooksLikeShell(argv) then []
    else if Binary(argv[0]) !in HEALTH_BINARIES && Binary(argv[0]) !in ALLOWED then []
    else argv
  }

  predicate ImageRefused(s: Service, images: Images) {
    TrimSpace(s.image) == "" || !images.allowed(TrimSpace(s.image))
  }

  function KeptService(s: Service): Service {
    Service(SanitizedKey(s.key), TrimSpace(s.image), HealthCmd(s.healthCmd),
            ClampTimeout(s.healthTimeout, DEFAULT_SERVICE_TIMEOUT, MAX_SERVICE_TIMEOUT),
            if TrimSpace(s.memory) == "" then DEFAULT_SERVICE_MEMORY else TrimSpace(s.memory),
            if TrimSpace(s.cpus) == "" then DEFAULT_SERVICE_CPUS else TrimSpace(s.cpus))
  }

  predicate LegalService(s: Service, images: Images) {
    && CleanKey(s.key) && s.image != "" && Trimmed(s.image) && images.allowed(s.image)
    && 1 <= s.healthTimeout <= MAX_SERVICE_TIMEOUT
    && (s.healthCmd == [] || (!LooksLikeShell(s.healthCmd) && (Binary(s.healthCmd[0]) in HEALTH_BINARIES || Binary(s.healthCmd[0]) in ALLOWED)))
    && s.memory != "" && Trimmed(s.memory) && s.cpus != "" && Trimmed(s.cpus)
  }

  lemma KeptServiceIsLegal(s: Service, images: Images)
    requires SanitizedKey(s.key) != "" && !ImageRefused(s, images)
    ensures LegalService(KeptService(s), images)
  {
    SanitizedTwice(s.key);
    TrimSpaceLaws(s.image);
    TrimSpaceLaws(s.memory);
    TrimSpaceLaws(s.cpus);
  }

  lemma LegalServiceIsFixed(s: Service, images: Images)
    requires LegalService(s, images)
    ensures SanitizedKey(s.key) == s.key && !ImageRefused(s, images) && KeptService(s) == s
  {
    SanitizedTwice(s.key);
    TrimmedIsFixed(s.image);
    TrimmedIsFixed(s.memory);
    TrimmedIsFixed(s.cpus);
  }

  predicate HasServiceKey(services: seq<Service>, key: string) {
    exists i :: 0 <= i < |services| && services[i].key == key
  }

  function ServiceClamps(s: Service, index: nat): seq<Drop> {
    (if s.healthTimeout > MAX_SERVICE_TIMEOUT then [Clamped(index)] else [])
    + (if s.healthCmd != [] && HealthCmd(s.healthCmd) == [] then [Clamped(index)] else [])
  }

  /** A service without a key is refused before the test for a duplicate, one
      whose image is denied after it. */
  ghost function ServiceRules(images: Images): Rules<Service> {
    Rules(MAX_SERVICES, (s: Service, index: nat) => SanitizedKey(s.key),
          (s: Service) => if SanitizedKey(s.key) == "" then Some(BadKey) else None,
          (s: Service) => if ImageRefused(s, images) then Some(ImageDenied) else None,
          (s: Service, index: nat) => KeptService(s), (s: Service) => s.key, ServiceClamps)
  }

  ghost function ServicesOf(raw: seq<Service>, images: Images): Taken<Service> {
    TakeIn(raw, ServiceRules(images))
  }

  method ClampService(s: Service, key: string, index: nat) returns (out: Service, drops: seq<Drop>)
    requires key == SanitizedKey(s.key)
    ensures out == KeptService(s) && drops == ServiceClamps(s, index)
  {
    drops := [];
    var hs := s.healthTimeout;
    if hs <= 0 {
      hs := DEFAULT_SERVICE_TIMEOUT;
    }
    if hs > MAX_SERVICE_TIMEOUT {
      drops := drops + [Clamped(index)];
      hs := MAX_SERVICE_TIMEOUT;
    }
    var cmd := HealthCmd(s.healthCmd);
    if |s.healthCmd| > 0 && |cmd| == 0 {
      drops := drops + [Clamped(index)];
    }
    var memory, cpus := TrimSpace(s.memory), TrimSpace(s.cpus);
    if memory == "" {
      memory := DEFAULT_SERVICE_MEMORY;
    }
    if cpus == "" {
      cpus := DEFAULT_SERVICE_CPUS;
    }
    out := Service(key, TrimSpace(s.image), cmd, hs, memory, cpus);
  }

  method IntersectServices(raw: seq<Service>, images: Images) returns (kept: seq<Service>, drops: seq<Drop>)
    ensures kept == ServicesOf(raw, images).kept && drops == ServicesOf(raw, images).drops
  {
    kept, drops := [], [];
    for i := 0 to |raw|
      invariant kept == ServicesOf(raw[..i], images).kept && drops == ServicesOf(raw[..i], images).drops
      invariant !ServicesOf(raw[..i], images).capped
    {
      var s := raw[i];
      TakeSnoc(raw, i);
      TakeInSnoc(raw[..i], s, ServiceRules(images));
      if |kept| >= MAX_SERVICES {
        drops := drops + [CapReached(i)];
        CappedStays(raw, i + 1, ServiceRules(images));
        return;
      }
      var key := SanitizeServiceKey(s.key);
      if key == "" {
        drops := drops + [OneDropped(i, BadKey)];
        continue;
      }
      if HasServiceKey(kept, key) {
        drops := drops + [OneDropped(i, Duplicate)];
        continue;
      }
      var image := TrimSpace(s.image);
      if image == "" || !images.allowed(image) {
        drops := drops + [OneDropped(i, ImageDenied)];
        continue;
      }
      var clamped, more := ClampService(s, key, i);
      kept, drops := kept + [clamped], drops + more;
    }
    TakeAll(raw);
  }

  lemma {:induction false} ServicesAreSound(images: Images)
    ensures Sound(ServiceRules(images), s => LegalService(s, images))
    ensures KeyStays(ServiceRules(images), s => LegalService(s, images))
  {
    forall s: Service | SanitizedKey(s.key) != "" && !ImageRefused(s, images) ensures LegalService(KeptService(s), images) {
      KeptServiceIsLegal(s, images);
    }
    forall s: Service | LegalService(s, images) ensures SanitizedKey(s.key) == s.key {
      LegalServiceIsFixed(s, images);
    }
  }

  /** The kept services fit the envelope, and a missing one has a recorded drop. */
  lemma ServicesFitEnvelope(raw: seq<Service>, images: Images)
    ensures Fits(ServicesOf(raw, images), raw, ServiceRules(images), s => LegalService(s, images))
  {
    ServicesAreSound(images);
    TakenFits(raw, ServiceRules(images), s => LegalService(s, images));
  }

  ghost predicate ServiceEnvelope(kept: seq<Service>, images: Images) {
    Envelope(kept, ServiceRules(images), s => LegalService(s, images))
  }

  /** Services within the envelope all go through a second pass unchanged. */
  lemma {:induction false} ServicesTwice(kept: seq<Service>, images: Images)
    requires ServiceEnvelope(kept, images)
    ensures ServicesOf(kept, images).kept == kept
  {
    ServicesAreSound(images);
    KeptAsWhole(kept, ServiceRules(images), s => LegalService(s, images));
    forall k | 0 <= k < |kept| ensures Fixed(kept[k], k, ServiceRules(images)) {
      LegalServiceIsFixed(kept[k], images);
    }
  }

  // ----- The whole plan -----

  function ResolvedImage(image: string, images: Images): string {
    var img := if TrimSpace(image) == "" then images.fallback else TrimSpace(image);
    if images.allowed(img) then img else ""
  }

  ghost function PolicyOf(raw: Plan, images: Images): Plan {
    var img := ResolvedImage(raw.image, images);
    Plan(if raw.version <= 0 then 1 else raw.version, raw.source, img, ServicesOf(raw.services, images).kept,
         if img == "" then [] else StepsOf(raw.steps).kept)
  }

  method IntersectSpecWithPolicy(raw: Option<Plan>, images: Images) returns (plan: Plan, drops: seq<Drop>)
    requires images.fallback != "" && Trimmed(images.fallback)
    ensures raw.None? ==> plan == Plan(1, "empty", "", [], []) && drops == [NilPlan]
    ensures raw.Some? ==> plan == PolicyOf(raw.value, images)
    ensures raw.Some? && plan.image == "" && StepsOf(raw.value.steps).kept != [] ==> NoImage in drops
    ensures raw.Some? ==> (forall d :: d in StepsOf(raw.value.steps).drops ==> d in drops)
                          && (forall d :: d in ServicesOf(raw.value.services, images).drops ==> d in drops)
  {
    if raw.None? {
      return Plan(1, "empty", "", [], []), [NilPlan];
    }
    drops := [];
    var version := raw.value.version;
    if version <= 0 {
      version := 1;
    }
    var img := TrimSpace(raw.value.image);
    if img == "" {
      img := images.fallback;
      drops := drops + [ImageDefaulted];
    }
    if !images.allowed(img) {
      drops := drops + [NoImage];
      img := "";
    }
    var services, serviceDrops := IntersectServices(raw.value.services, images);
    var steps, stepDrops := IntersectSteps(raw.value.steps);
    drops := drops + serviceDrops + stepDrops;
    if img == "" && |steps| > 0 {
      drops := drops + [NoImage];
      steps := [];
    }
    plan := Plan(version, raw.value.source, img, services, steps);
  }

  /** Whatever the plan, what comes out fits the envelope: at most 20 steps with
      unique ids and legal post-conditions and 6 services with unique keys, and
      no step without an allowed image. */
  lemma PolicyFitsEnvelope(raw: Plan, images: Images)
    requires images.fallback != "" && Trimmed(images.fallback)
    ensures var p := PolicyOf(raw, images);
            && Envelope(p.steps, StepRules(), LegalStep) && ServiceEnvelope(p.services, images) && p.version >= 1
            && (p.image != "" ==> images.allowed(p.image) && Trimmed(p.image))
            && (p.steps != [] ==> p.image != "")
  {
    StepsFitEnvelope(raw.steps);
    ServicesFitEnvelope(raw.services, images);
    TrimSpaceLaws(raw.image);
  }

  /** What a plan keeps of its own: its source, a positive version, and an allowed
      image, trimmed; without one it gets the default. Where neither is allowed it
      loses its steps, but not its services. */
  lemma {:induction false} PlanKeeps(raw: Plan, images: Images)
    requires images.fallback != ""
    ensures var p, asked := PolicyOf(raw, images), TrimSpace(raw.image);
            && p.source == raw.source && (raw.version > 0 ==> p.version == raw.version) && (raw.version <= 0 ==> p.version == 1)
            && (asked != "" && images.allowed(asked) ==> p.image == asked)
            && (asked == "" && images.allowed(images.fallback) ==> p.image == images.fallback)
            && (p.image == "" <==> !images.allowed(if asked == "" then images.fallback else asked))
            && (p.image == "" ==> p.steps == [])
            && p.services == PolicyOf(raw.(image := images.fallback, steps := []), images).services
  {
  }

  /** Applying the policy to its own output changes nothing exactly when every
      kept step was stable, or, with no image allowed for the plan, when the
      default image is not allowed either. */
  lemma {:induction false} PolicyTwice(raw: Plan, images: Images)
    requires images.fallback != "" && Trimmed(images.fallback)
    ensures PolicyOf(PolicyOf(raw, images), images) == PolicyOf(raw, images) <==>
            if ResolvedImage(raw.image, images) == "" then !images.allowed(images.fallback)
            else SourcesStable(raw.steps)
  {
    PolicyFitsEnvelope(raw, images);
    ServicesTwice(ServicesOf(raw.services, images).kept, images);
    StepsTwice(raw.steps);
    var img := ResolvedImage(raw.image, images);
    TrimmedIsFixed(img);
    assert StepsOf([]).kept == [];
  }

  /** Read off the raw plan alone: if every step of it is stable, kept or not, and
      its image is allowed, the second pass changes nothing. */
  lemma {:induction false} StablePlanTwice(raw: Plan, images: Images)
    requires images.fallback != "" && Trimmed(images.fallback) && ResolvedImage(raw.image, images) != ""
    requires forall i :: 0 <= i < |raw.steps| && raw.steps[i].argv != [] ==> StableStep(raw.steps[i])
    ensures PolicyOf(PolicyOf(raw, images), images) == PolicyOf(raw, images)
  {
    PolicyTwice(raw, images);
    StepsFitEnvelope(raw.steps);
    var r := StepsOf(raw.steps);
    forall k | 0 <= k < |r.kept| ensures SourceFits(r, raw.steps, StepRules(), k) && StableStep(raw.steps[r.sources[k]]) {
      SourceTwice(r, raw.steps, k);
    }
  }

  /** Three plans the second pass changes: "--error-format" swallows the flag put
      behind it; taking it out uncovers "-c"; cleaning uncovers a space. */
  lemma UnstableExamples()
    ensures !WellValued(["analyse", FORMAT])
    ensures UncoversShellFlag([FORMAT, "table", "-c", "cfg", "analyse"])
    ensures !Trimmed(WorkingDir("a/../ b"))
  {
    SwallowsLast();
    Uncovers();
    CleaningUncovers();
  }

  lemma SwallowsLast()
    ensures !WellValued(["analyse", FORMAT])
  {
    var args := ["analyse", FORMAT];
    assert args[..1] == ["analyse"] && ["analyse"][..0] == [];
    assert !Skips(["analyse"]);
    assert Skips(args);
    assert !ChecksStyle("analyse") && !ChecksStyle(FORMAT);
    assert !HasCheckstyle(args);
  }

  lemma Uncovers()
    ensures UncoversShellFlag([FORMAT, "table", "-c", "cfg", "analyse"])
  {
    var a0: seq<string> := [];
    var a1, a2, a3, a4 := a0 + [FORMAT], a0 + [FORMAT] + ["table"], a0 + [FORMAT] + ["table"] + ["-c"], a0 + [FORMAT] + ["table"] + ["-c"] + ["cfg"];
    var args := a4 + ["analyse"];
    StripSnoc(a0, FORMAT);
    StripSnoc(a1, "table");
    StripSnoc(a2, "-c");
    StripSnoc(a3, "cfg");
    StripSnoc(a4, "analyse");
    assert args == [FORMAT, "table", "-c", "cfg", "analyse"];
    DistinctFlags("analyse");
    assert IsAnalyse(args[4]);
    assert Stripped(args)[0] == "-c";
    assert forall i :: 0 <= i < |args| ==> !ChecksStyle(args[i]);
    assert args[0 + 1] == "table" && !EqualFold("table", "checkstyle");
  }

  lemma {:induction false} CleaningUncovers()
    ensures !Trimmed(WorkingDir("a/../ b"))
  {
    assert "a/../ b" == "a" + ['/'] + (".." + ['/'] + " b");
    UncoveredDir("a/../ b", "a", " b");
  }

  lemma {:induction false} UncoveredDir(dir: string, a: string, b: string)
    requires dir == a + ['/'] + (".." + ['/'] + b) && dir != "" && Trimmed(dir) && !Escapes(b)
    requires a != "" && a != "." && a != ".." && '/' !in a && b != "" && b != "." && b != ".." && '/' !in b
    ensures WorkingDir(dir) == b
  {
    TrimmedIsFixed(dir);
    CleanOfThree(a, b);
  }

  lemma {:induction false} CleanOfThree(a: string, b: string)
    requires a != "" && a != "." && a != ".." && '/' !in a && b != "" && b != "." && b != ".." && '/' !in b
    ensures Clean(a + ['/'] + (".." + ['/'] + b)) == b
  {
    SplitThree(a, "..", b);
    ResolveThree(a, b);
  }
}
