/** Validation of a contract against a snapshot (internal/validator). */
module Validator {
  import opened Wrappers
  import opened PactoTypes
  import ImageRef

  datatype PortsResult = PortsResult(expected: seq<int>, observed: seq<int>, missing: seq<int>, unexpected: seq<int>)

  datatype ValidationResult = ValidationResult(checks: seq<Check>, ports: PortsResult)

  const NO_PORTS := PortsResult([], [], [], [])

  // ----- the single checks -----

  function CheckServiceExists(snap: Snapshot): (check: Check)
    ensures check.name == ServiceExists
  {
    if snap.serviceExists then Check(ServiceExists, true, Found, NoSeverity)
    else Check(ServiceExists, false, NotFound, NoSeverity)
  }

  function CheckWorkloadExists(snap: Snapshot): (check: Check)
    ensures check.name == WorkloadExists
  {
    if snap.workloadExists then Check(WorkloadExists, true, Found, NoSeverity)
    else Check(WorkloadExists, false, NotFound, NoSeverity)
  }

  function CheckWorkloadType(r: Runtime, snap: Snapshot): (check: Check)
    ensures check.name == WorkloadTypeMatch
  {
    var kind := snap.workloadKind;
    var fits :=
      if r.workload == "service" then kind == "Deployment" || kind == "StatefulSet"
      else if r.workload == "job" then kind == "Job"
      else if r.workload == "scheduled" then kind == "CronJob"
      else false;
    Check(WorkloadTypeMatch, fits, if fits then Match else Mismatch, ErrorSeverity)
  }

  function CheckStateModel(r: Runtime, snap: Snapshot): (check: Check)
    ensures check.name == StateModelMatch
  {
    if r.stateType == "stateful" && snap.workloadKind != "StatefulSet" then
      Check(StateModelMatch, false, Mismatch, ErrorSeverity)
    else if r.stateType == "stateful" && r.durability == "persistent" && !snap.hasPVC then
      Check(StateModelMatch, false, Missing, ErrorSeverity)
    else if r.stateType == "stateless" && snap.hasPVC then
      Check(StateModelMatch, false, Mismatch, WarningSeverity)
    else if r.stateType == "hybrid" && r.durability == "persistent" && !snap.hasPVC then
      Check(StateModelMatch, false, Missing, ErrorSeverity)
    else
      Check(StateModelMatch, true, Match, ErrorSeverity)
  }

  function CheckUpgradeStrategy(expected: string, snap: Snapshot): (check: Check)
    ensures check.name == UpgradeStrategyMatch
  {
    var actual := if snap.deploymentStrategy != "" then snap.deploymentStrategy else snap.podManagementPolicy;
    if actual == "" then Check(UpgradeStrategyMatch, true, Skipped, WarningSeverity)
    else
      var fits :=
        if expected == "rolling" then actual == "RollingUpdate"
        else if expected == "recreate" then actual == "Recreate"
        else if expected == "ordered" then actual == "OrderedReady"
        else false;
      Check(UpgradeStrategyMatch, fits, if fits then Match else Mismatch, WarningSeverity)
  }

  function CheckGracefulShutdown(expected: int, snap: Snapshot): (check: Check)
    ensures check.name == GracefulShutdownMatch
  {
    if snap.terminationGracePeriod.None? then Check(GracefulShutdownMatch, false, Missing, WarningSeverity)
    else if expected == snap.terminationGracePeriod.value then Check(GracefulShutdownMatch, true, Match, WarningSeverity)
    else Check(GracefulShutdownMatch, false, Mismatch, WarningSeverity)
  }

  function CheckImage(expected: string, snap: Snapshot): (check: Check)
    ensures check.name == ImageMatch
  {
    if snap.containerImages == [] then Check(ImageMatch, false, Missing, ErrorSeverity)
    else if ImageRef.ImageMatches(expected, snap.containerImages[0]) then Check(ImageMatch, true, Match, ErrorSeverity)
    else Check(ImageMatch, false, Mismatch, ErrorSeverity)
  }

  function CheckHealthTiming(declared: int, snap: Snapshot): (check: Check)
    ensures check.name == HealthTimingMatch
  {
    if snap.healthProbeInitialDelay.None? then Check(HealthTimingMatch, false, Missing, WarningSeverity)
    else if Int32(declared) == snap.healthProbeInitialDelay.value then Check(HealthTimingMatch, true, Match, WarningSeverity)
    else Check(HealthTimingMatch, false, Mismatch, WarningSeverity)
  }

  // ----- ports -----

  /** Some interface has the port, as an int32. */
  predicate Declares(interfaces: seq<Interface>, port: int) {
    exists i :: i in interfaces && i.port.Some? && Int32(i.port.value) == port
  }

  /** The ports a contract declares, in declaration order, as int32. */
  function DeclaredPorts(interfaces: seq<Interface>): (ports: seq<int>)
    ensures forall p :: p in ports <==> Declares(interfaces, p)
  {
    if interfaces == [] then []
    else
      var last := interfaces[|interfaces| - 1];
      assert forall i :: i in interfaces <==> i in interfaces[..|interfaces| - 1] || i == last;
      DeclaredPorts(interfaces[..|interfaces| - 1]) + if last.port.Some? then [Int32(last.port.value)] else []
  }

  /** The members of `xs` that are not in `ys`, order and repetitions kept. */
  function Without(xs: seq<int>, ys: seq<int>): (r: seq<int>)
    ensures forall x :: x in r <==> x in xs && x !in ys
  {
    if xs == [] then []
    else
      var last := xs[|xs| - 1];
      assert xs == xs[..|xs| - 1] + [last];
      Without(xs[..|xs| - 1], ys) + if last in ys then [] else [last]
  }

  lemma NothingMissing(xs: seq<int>, ys: seq<int>)
    ensures Without(xs, ys) == [] <==> forall x :: x in xs ==> x in ys
  {
    var missing := Without(xs, ys);
    if missing != [] {
      assert missing[0] in missing;
    }
  }

  method ContractPorts(c: Contract) returns (ports: seq<int>)
    ensures ports == DeclaredPorts(c.interfaces)
  {
    ports := [];
    for i := 0 to |c.interfaces|
      invariant ports == DeclaredPorts(c.interfaces[..i])
    {
      if c.interfaces[i].port.Some? {
        ports := ports + [Int32(c.interfaces[i].port.value)];
      }
      assert c.interfaces[..i + 1][..i] == c.interfaces[..i];
    }
    assert c.interfaces[..|c.interfaces|] == c.interfaces;
  }

  method CollectWithout(xs: seq<int>, seen: map<int, bool>, ghost ys: seq<int>) returns (r: seq<int>)
    requires forall x :: x in seen <==> x in ys
    ensures r == Without(xs, ys)
  {
    r := [];
    for i := 0 to |xs|
      invariant r == Without(xs[..i], ys)
    {
      if xs[i] !in seen {
        r := r + [xs[i]];
      }
      assert xs[..i + 1][..i] == xs[..i];
    }
    assert xs[..|xs|] == xs;
  }

  method SetOf(xs: seq<int>) returns (seen: map<int, bool>)
    ensures forall x :: x in seen <==> x in xs
  {
    seen := map[];
    for i := 0 to |xs|
      invariant forall x :: x in seen <==> x in xs[..i]
    {
      seen := seen[xs[i] := true];
      assert xs[..i + 1] == xs[..i] + [xs[i]];
    }
    assert xs[..|xs|] == xs;
  }

  function ComparedPorts(c: Contract, snap: Snapshot): PortsResult {
    var expected := DeclaredPorts(c.interfaces);
    PortsResult(expected, snap.servicePorts, Without(expected, snap.servicePorts), Without(snap.servicePorts, expected))
  }

  function PortsCheck(c: Contract, snap: Snapshot): (check: Check)
    ensures check.name == PortsValid
  {
    if forall p :: p in DeclaredPorts(c.interfaces) ==> p in snap.servicePorts
    then Check(PortsValid, true, PortsMatch, NoSeverity)
    else Check(PortsValid, false, MissingPorts, NoSeverity)
  }

  method CheckPorts(c: Contract, snap: Snapshot) returns (check: Check, ports: PortsResult)
    ensures check == PortsCheck(c, snap) && ports == ComparedPorts(c, snap)
    ensures forall p :: p in ports.expected <==> Declares(c.interfaces, p)
    ensures ports.observed == snap.servicePorts
    ensures forall p :: p in ports.missing <==> Declares(c.interfaces, p) && p !in snap.servicePorts
    ensures forall p :: p in ports.unexpected <==> p in snap.servicePorts && !Declares(c.interfaces, p)
    ensures check.passed <==> forall p :: Declares(c.interfaces, p) ==> p in snap.servicePorts
  {
    var expected := ContractPorts(c);
    var observed := snap.servicePorts;
    var observedSet := SetOf(observed);
    var expectedSet := SetOf(expected);
    var missing := CollectWithout(expected, observedSet, observed);
    var unexpected := CollectWithout(observed, expectedSet, expected);
    ports := PortsResult(expected, observed, missing, unexpected);
    NothingMissing(expected, observed);
    if |missing| == 0 {
      check := Check(PortsValid, true, PortsMatch, NoSeverity);
    } else {
      check := Check(PortsValid, false, MissingPorts, NoSeverity);
    }
  }

  // ----- validation -----

  function Given(condition: bool, check: Check): seq<Check> {
    if condition then [check] else []
  }

  function KindChecks(r: Runtime, snap: Snapshot): seq<Check> {
    [CheckWorkloadType(r, snap), CheckStateModel(r, snap)]
  }

  function LifecycleChecks(lifecycle: Option<Lifecycle>, snap: Snapshot): seq<Check> {
    match lifecycle
    case None => []
    case Some(l) =>
      Given(l.upgradeStrategy != "", CheckUpgradeStrategy(l.upgradeStrategy, snap))
      + (if l.gracefulShutdownSeconds.None? then [] else [CheckGracefulShutdown(l.gracefulShutdownSeconds.value, snap)])
  }

  function ImageChecks(imageRef: Option<string>, snap: Snapshot): seq<Check> {
    if imageRef.None? then [] else Given(imageRef.value != "", CheckImage(imageRef.value, snap))
  }

  function HealthChecks(health: Option<Health>, snap: Snapshot): seq<Check> {
    if health.None? || health.value.initialDelaySeconds.None? then []
    else [CheckHealthTiming(health.value.initialDelaySeconds.value, snap)]
  }

  function RuntimeChecks(c: Contract, snap: Snapshot): seq<Check> {
    if !snap.workloadExists || c.runtime.None? then []
    else
      var r := c.runtime.value;
      KindChecks(r, snap) + LifecycleChecks(r.lifecycle, snap) + ImageChecks(c.service.imageRef, snap) + HealthChecks(r.health, snap)
  }

  function TargetChecks(c: Contract, snap: Snapshot, hasService: bool): seq<Check> {
    Given(hasService, CheckServiceExists(snap))
    + [CheckWorkloadExists(snap)]
    + Given(hasService && snap.serviceExists, PortsCheck(c, snap))
  }

  function Validation(c: Contract, snap: Snapshot, hasService: bool): ValidationResult {
    ValidationResult(
      TargetChecks(c, snap, hasService) + RuntimeChecks(c, snap),
      if !hasService then NO_PORTS
      else if snap.serviceExists then ComparedPorts(c, snap)
      else NO_PORTS.(expected := DeclaredPorts(c.interfaces)))
  }

  /** The ports a validation reports: those declared and those served, of the declared ones the unserved and of the
      served ones the undeclared. An absent service serves none and is not compared. */
  lemma PortsReported(c: Contract, snap: Snapshot, hasService: bool, p: int)
    ensures var ports := Validation(c, snap, hasService).ports;
            && (p in ports.expected <==> hasService && Declares(c.interfaces, p))
            && ports.observed == (if hasService && snap.serviceExists then snap.servicePorts else [])
            && (p in ports.missing <==> p in ports.expected && snap.serviceExists && p !in snap.servicePorts)
            && (p in ports.unexpected <==> hasService && snap.serviceExists && p in snap.servicePorts && !Declares(c.interfaces, p))
  {
  }

  function PortOf(i: Interface): seq<int> {
    if i.port.Some? then [Int32(i.port.value)] else []
  }

  /** Order and repetitions are kept. */
  lemma DeclaredPortsOneMore(interfaces: seq<Interface>, i: Interface)
    ensures DeclaredPorts(interfaces + [i]) == DeclaredPorts(interfaces) + PortOf(i)
  {
    assert (interfaces + [i])[..|interfaces|] == interfaces;
  }

  lemma {:induction false} WithoutAppend(a: seq<int>, b: seq<int>, ys: seq<int>)
    ensures Without(a + b, ys) == Without(a, ys) + Without(b, ys)
    ensures |a| == 1 ==> Without(a, ys) == if a[0] in ys then [] else a
  {
    if b == [] {
      assert a + b == a;
    } else {
      assert (a + b)[..|a + b| - 1] == a + b[..|b| - 1];
      WithoutAppend(a, b[..|b| - 1], ys);
    }
  }

  /** Validate appends one check after another. */
  method Validate(c: Contract, snap: Snapshot, hasService: bool) returns (result: ValidationResult)
    ensures result == Validation(c, snap, hasService)
  {
    var checks: seq<Check> := [];
    var ports := NO_PORTS;
    if hasService {
      checks := checks + [CheckServiceExists(snap)];
    }
    checks := checks + [CheckWorkloadExists(snap)];
    if hasService && snap.serviceExists {
      var check;
      check, ports := CheckPorts(c, snap);
      checks := checks + [check];
    } else if hasService {
      var expected := ContractPorts(c);
      ports := ports.(expected := expected);
    }
    assert checks == TargetChecks(c, snap, hasService);
    var more := ValidateRuntime(c, snap);
    result := ValidationResult(checks + more, ports);
  }

  /** The runtime reconciliation checks, only when the workload exists. */
  method ValidateRuntime(c: Contract, snap: Snapshot) returns (checks: seq<Check>)
    ensures checks == RuntimeChecks(c, snap)
  {
    checks := [];
    if snap.workloadExists && c.runtime.Some? {
      var r := c.runtime.value;
      checks := checks + [CheckWorkloadType(r, snap)];
      checks := checks + [CheckStateModel(r, snap)];
      assert checks == KindChecks(r, snap);
      if r.lifecycle.Some? {
        var more := ValidateLifecycle(r.lifecycle.value, snap);
        checks := checks + more;
      }
      assert checks == KindChecks(r, snap) + LifecycleChecks(r.lifecycle, snap);
      if c.service.imageRef.Some? && c.service.imageRef.value != "" {
        checks := checks + [CheckImage(c.service.imageRef.value, snap)];
      }
      assert checks == KindChecks(r, snap) + LifecycleChecks(r.lifecycle, snap) + ImageChecks(c.service.imageRef, snap);
      if r.health.Some? && r.health.value.initialDelaySeconds.Some? {
        checks := checks + [CheckHealthTiming(r.health.value.initialDelaySeconds.value, snap)];
      }
    }
  }

  method ValidateLifecycle(l: Lifecycle, snap: Snapshot) returns (checks: seq<Check>)
    ensures checks == LifecycleChecks(Some(l), snap)
  {
    checks := [];
    if l.upgradeStrategy != "" {
      checks := checks + [CheckUpgradeStrategy(l.upgradeStrategy, snap)];
    }
    if l.gracefulShutdownSeconds.Some? {
      checks := checks + [CheckGracefulShutdown(l.gracefulShutdownSeconds.value, snap)];
    }
  }

  // ----- the verdict on a list of checks -----

  predicate IsResource(t: ConditionType) {
    t == ServiceExists || t == WorkloadExists
  }

  /** What computeContractStatus promises. Severity plays no part. */
  function Verdict(checks: seq<Check>): ContractStatus {
    if exists c :: c in checks && !c.passed && IsResource(c.name) then NonCompliant
    else if exists c :: c in checks && !c.passed then Warning
    else Compliant
  }

  method ComputeContractStatus(checks: seq<Check>) returns (status: ContractStatus)
    ensures status == Verdict(checks)
  {
    var hasResourceFailure, hasOtherFailure := false, false;
    for i := 0 to |checks|
      invariant hasResourceFailure <==> exists c :: c in checks[..i] && !c.passed && IsResource(c.name)
      invariant hasOtherFailure <==> exists c :: c in checks[..i] && !c.passed && !IsResource(c.name)
    {
      assert checks[..i + 1] == checks[..i] + [checks[i]];
      if checks[i].passed {
        continue;
      }
      if checks[i].name == ServiceExists || checks[i].name == WorkloadExists {
        hasResourceFailure := true;
      } else {
        hasOtherFailure := true;
      }
    }
    assert checks[..|checks|] == checks;
    if hasResourceFailure {
      return NonCompliant;
    }
    if hasOtherFailure {
      return Warning;
    }
    return Compliant;
  }

  // ----- the documented rule -----

  predicate ErrorFails(checks: seq<Check>) {
    exists c :: c in checks && !c.passed && c.severity == ErrorSeverity
  }

  predicate ResourceFails(checks: seq<Check>) {
    exists c :: c in checks && !c.passed && IsResource(c.name)
  }

  /** The rule the repository's README gives: failures of error severity, or of service or workload, are
      NonCompliant, other failures Warning. */
  function DocumentedVerdict(checks: seq<Check>): ContractStatus {
    if ErrorFails(checks) || ResourceFails(checks) then NonCompliant
    else if exists c :: c in checks && !c.passed then Warning
    else Compliant
  }

  /** Rule and code agree exactly when no error-severity failure stands without a resource failure. */
  lemma DocumentedVerdictAgrees(checks: seq<Check>)
    ensures Verdict(checks) == DocumentedVerdict(checks) <==> (ErrorFails(checks) ==> ResourceFails(checks))
  {
  }

  lemma ErrorFailsAppend(a: seq<Check>, b: seq<Check>)
    ensures ErrorFails(a + b) <==> ErrorFails(a) || ErrorFails(b)
  {
    assert forall c :: c in a + b <==> c in a || c in b;
  }

  /** What error severity stands for: a workload of the wrong kind, state that does not fit, or another image. */
  predicate ErrorMismatch(c: Contract, snap: Snapshot) {
    snap.workloadExists && c.runtime.Some? &&
    var r := c.runtime.value;
    || !KindFits(r.workload, snap.workloadKind)
    || (r.stateType == "stateful" && snap.workloadKind != "StatefulSet")
    || (r.durability == "persistent" && (r.stateType == "stateful" || r.stateType == "hybrid") && !snap.hasPVC)
    || ImageDiffers(c.service.imageRef, snap)
  }

  lemma KindErrors(r: Runtime, snap: Snapshot)
    ensures ErrorFails(KindChecks(r, snap)) <==>
            || !KindFits(r.workload, snap.workloadKind)
            || (r.stateType == "stateful" && snap.workloadKind != "StatefulSet")
            || (r.durability == "persistent" && (r.stateType == "stateful" || r.stateType == "hybrid") && !snap.hasPVC)
  {
    ErrorFailsAppend([CheckWorkloadType(r, snap)], [CheckStateModel(r, snap)]);
    OneError(CheckWorkloadType(r, snap));
    OneError(CheckStateModel(r, snap));
  }

  lemma OneError(check: Check)
    ensures ErrorFails([check]) <==> !check.passed && check.severity == ErrorSeverity
  {
    assert check in [check];
  }

  lemma LifecycleWarns(lifecycle: Option<Lifecycle>, snap: Snapshot)
    ensures !ErrorFails(LifecycleChecks(lifecycle, snap))
  {
  }

  lemma HealthWarns(health: Option<Health>, snap: Snapshot)
    ensures !ErrorFails(HealthChecks(health, snap))
  {
  }

  predicate ImageDiffers(imageRef: Option<string>, snap: Snapshot) {
    imageRef.Some? && imageRef.value != "" &&
    (snap.containerImages == [] || !ImageRef.ImageMatches(imageRef.value, snap.containerImages[0]))
  }

  lemma ImageErrors(imageRef: Option<string>, snap: Snapshot)
    ensures ErrorFails(ImageChecks(imageRef, snap)) <==> ImageDiffers(imageRef, snap)
  {
    if imageRef.Some? && imageRef.value != "" {
      OneError(CheckImage(imageRef.value, snap));
    }
  }

  lemma RuntimeErrors(c: Contract, snap: Snapshot)
    ensures ErrorFails(RuntimeChecks(c, snap)) <==> ErrorMismatch(c, snap)
  {
    if snap.workloadExists && c.runtime.Some? {
      var r := c.runtime.value;
      KindErrors(r, snap);
      LifecycleWarns(r.lifecycle, snap);
      ImageErrors(c.service.imageRef, snap);
      HealthWarns(r.health, snap);
      ErrorsAppend(KindChecks(r, snap), LifecycleChecks(r.lifecycle, snap), ImageChecks(c.service.imageRef, snap), HealthChecks(r.health, snap));
    }
  }

  lemma ErrorsAppend(a: seq<Check>, b: seq<Check>, c: seq<Check>, d: seq<Check>)
    ensures ErrorFails(a + b + c + d) <==> ErrorFails(a) || ErrorFails(b) || ErrorFails(c) || ErrorFails(d)
  {
    ErrorFailsAppend(a, b);
    ErrorFailsAppend(a + b, c);
    ErrorFailsAppend(a + b + c, d);
  }

  /** A validation has a failure of error severity exactly on such a mismatch. */
  lemma ValidationErrors(c: Contract, snap: Snapshot, hasService: bool)
    ensures ErrorFails(Validation(c, snap, hasService).checks) <==> ErrorMismatch(c, snap)
  {
    ErrorFailsAppend(TargetChecks(c, snap, hasService), RuntimeChecks(c, snap));
    RuntimeErrors(c, snap);
  }

  // ----- what the checks amount to -----

  /** The alignment the documentation describes: target and workload exist, every declared port is served,
      and each declared runtime property agrees with the workload. */
  ghost predicate Aligned(c: Contract, snap: Snapshot, hasService: bool) {
    && (hasService ==> snap.serviceExists && forall p :: p in DeclaredPorts(c.interfaces) ==> p in snap.servicePorts)
    && snap.workloadExists
    && (c.runtime.Some? ==> RuntimeAligned(c, snap))
  }

  ghost predicate RuntimeAligned(c: Contract, snap: Snapshot)
    requires c.runtime.Some?
  {
    var r := c.runtime.value;
    && KindFits(r.workload, snap.workloadKind)
    && StateFits(r, snap)
    && (r.lifecycle.Some? ==> LifecycleFits(r.lifecycle.value, snap))
    && (c.service.imageRef.Some? && c.service.imageRef.value != "" ==>
          snap.containerImages != [] && ImageRef.ImageMatches(c.service.imageRef.value, snap.containerImages[0]))
    && (r.health.Some? && r.health.value.initialDelaySeconds.Some? ==>
          snap.healthProbeInitialDelay == Some(Int32(r.health.value.initialDelaySeconds.value)))
  }

  predicate KindFits(workload: string, kind: string) {
    (workload, kind) in {("service", "Deployment"), ("service", "StatefulSet"), ("job", "Job"), ("scheduled", "CronJob")}
  }

  ghost predicate StateFits(r: Runtime, snap: Snapshot) {
    && (r.stateType == "stateful" ==> snap.workloadKind == "StatefulSet")
    && (r.stateType == "stateless" ==> !snap.hasPVC)
    && (r.durability == "persistent" && (r.stateType == "stateful" || r.stateType == "hybrid") ==> snap.hasPVC)
  }

  ghost predicate LifecycleFits(l: Lifecycle, snap: Snapshot) {
    && (l.upgradeStrategy != "" ==>
          var actual := if snap.deploymentStrategy != "" then snap.deploymentStrategy else snap.podManagementPolicy;
          actual == "" || (l.upgradeStrategy, actual) in {("rolling", "RollingUpdate"), ("recreate", "Recreate"), ("ordered", "OrderedReady")})
    && (l.gracefulShutdownSeconds.Some? ==> snap.terminationGracePeriod == l.gracefulShutdownSeconds)
  }

  predicate AllPassed(checks: seq<Check>) {
    forall c :: c in checks ==> c.passed
  }

  lemma AllPassedAppend(a: seq<Check>, b: seq<Check>)
    ensures AllPassed(a + b) <==> AllPassed(a) && AllPassed(b)
  {
    assert forall c :: c in a + b <==> c in a || c in b;
  }

  lemma RuntimeChecksPass(c: Contract, snap: Snapshot)
    requires snap.workloadExists && c.runtime.Some?
    ensures AllPassed(RuntimeChecks(c, snap)) <==> RuntimeAligned(c, snap)
  {
    var r := c.runtime.value;
    var kinds := KindChecks(r, snap);
    var lifecycle, image := LifecycleChecks(r.lifecycle, snap), ImageChecks(c.service.imageRef, snap);
    AllPassedAppend(kinds, lifecycle);
    AllPassedAppend(kinds + lifecycle, image);
    AllPassedAppend(kinds + lifecycle + image, HealthChecks(r.health, snap));
    KindsPass(r, snap);
    if r.lifecycle.Some? {
      LifecyclePass(r.lifecycle.value, snap);
    }
  }

  lemma KindsPass(r: Runtime, snap: Snapshot)
    ensures AllPassed(KindChecks(r, snap)) <==>
            KindFits(r.workload, snap.workloadKind) && StateFits(r, snap)
  {
    AllPassedAppend([CheckWorkloadType(r, snap)], [CheckStateModel(r, snap)]);
    assert CheckWorkloadType(r, snap).passed <==> KindFits(r.workload, snap.workloadKind);
    assert CheckStateModel(r, snap).passed <==> StateFits(r, snap);
  }

  lemma LifecyclePass(l: Lifecycle, snap: Snapshot)
    ensures AllPassed(LifecycleChecks(Some(l), snap)) <==> LifecycleFits(l, snap)
  {
    AllPassedAppend(Given(l.upgradeStrategy != "", CheckUpgradeStrategy(l.upgradeStrategy, snap)),
                    if l.gracefulShutdownSeconds.None? then []
                    else [CheckGracefulShutdown(l.gracefulShutdownSeconds.value, snap)]);
  }

  /** Every check passes exactly when contract and workload are aligned. */
  lemma ValidationPasses(c: Contract, snap: Snapshot, hasService: bool)
    ensures AllPassed(Validation(c, snap, hasService).checks) <==> Aligned(c, snap, hasService)
  {
    var service := Given(hasService, CheckServiceExists(snap));
    var workload := [CheckWorkloadExists(snap)];
    AllPassedAppend(service, workload);
    AllPassedAppend(service + workload, Given(hasService && snap.serviceExists, PortsCheck(c, snap)));
    AllPassedAppend(TargetChecks(c, snap, hasService), RuntimeChecks(c, snap));
    if snap.workloadExists && c.runtime.Some? {
      RuntimeChecksPass(c, snap);
    }
  }

  /** No two checks of one validation share a condition type. */
  ghost predicate DistinctNames(checks: seq<Check>) {
    forall i, j :: 0 <= i < j < |checks| ==> checks[i].name != checks[j].name
  }

  /** The order in which Validate runs its checks. */
  function Rank(t: ConditionType): int {
    match t
    case ContractValid => 0
    case ReadinessSatisfied => 1
    case ServiceExists => 2
    case WorkloadExists => 3
    case PortsValid => 4
    case WorkloadTypeMatch => 5
    case StateModelMatch => 6
    case UpgradeStrategyMatch => 7
    case GracefulShutdownMatch => 8
    case ImageMatch => 9
    case HealthTimingMatch => 10
    case HealthEndpointValid => 11
    case MetricsEndpointValid => 12
    case RuntimeObserved => 13
  }

  ghost predicate Ranked(checks: seq<Check>, low: int, high: int) {
    && (forall i :: 0 <= i < |checks| ==> low <= Rank(checks[i].name) <= high)
    && (forall i, j :: 0 <= i < j < |checks| ==> Rank(checks[i].name) < Rank(checks[j].name))
  }

  lemma RankedAppend(a: seq<Check>, b: seq<Check>, low: int, mid: int, high: int)
    requires Ranked(a, low, mid) && Ranked(b, mid + 1, high) && low <= mid < high
    ensures Ranked(a + b, low, high)
  {
  }

  lemma ValidationRanked(c: Contract, snap: Snapshot, hasService: bool)
    ensures Ranked(Validation(c, snap, hasService).checks, 2, 10)
  {
    var service := Given(hasService, CheckServiceExists(snap));
    var workload := [CheckWorkloadExists(snap)];
    var ports := Given(hasService && snap.serviceExists, PortsCheck(c, snap));
    RankedAppend(service, workload, 2, 2, 3);
    RankedAppend(service + workload, ports, 2, 3, 4);
    RuntimeRanked(c, snap);
    RankedAppend(TargetChecks(c, snap, hasService), RuntimeChecks(c, snap), 2, 4, 10);
  }

  lemma KindRanked(r: Runtime, snap: Snapshot)
    ensures Ranked(KindChecks(r, snap), 5, 6)
  {
  }

  lemma LifecycleRanked(lifecycle: Option<Lifecycle>, snap: Snapshot)
    ensures Ranked(LifecycleChecks(lifecycle, snap), 7, 8)
  {
  }

  lemma PartsRanked(kinds: seq<Check>, lifecycle: seq<Check>, image: seq<Check>, health: seq<Check>)
    requires Ranked(kinds, 5, 6) && Ranked(lifecycle, 7, 8) && Ranked(image, 9, 9) && Ranked(health, 10, 10)
    ensures Ranked(kinds + lifecycle + image + health, 5, 10)
  {
    RankedAppend(kinds, lifecycle, 5, 6, 8);
    RankedAppend(kinds + lifecycle, image, 5, 8, 9);
    RankedAppend(kinds + lifecycle + image, health, 5, 9, 10);
  }

  lemma RuntimeRanked(c: Contract, snap: Snapshot)
    ensures Ranked(RuntimeChecks(c, snap), 5, 10)
  {
    if snap.workloadExists && c.runtime.Some? {
      var r := c.runtime.value;
      KindRanked(r, snap);
      LifecycleRanked(r.lifecycle, snap);
      PartsRanked(KindChecks(r, snap), LifecycleChecks(r.lifecycle, snap), ImageChecks(c.service.imageRef, snap), HealthChecks(r.health, snap));
    }
  }

  // ----- which checks there are, and why they come out as they do -----

  ghost predicate Has(checks: seq<Check>, t: ConditionType) {
    exists c :: c in checks && c.name == t
  }

  lemma HasAppend(a: seq<Check>, b: seq<Check>, t: ConditionType)
    ensures Has(a + b, t) <==> Has(a, t) || Has(b, t)
  {
    assert forall c :: c in a + b <==> c in a || c in b;
  }

  lemma HasOne(condition: bool, check: Check, t: ConditionType)
    ensures Has(Given(condition, check), t) <==> condition && check.name == t
    ensures Has([check], t) <==> check.name == t
  {
    assert check in [check];
  }

  /** What is declared is checked, and nothing else: the service if there is a name for it, the workload always, the
      ports of an existing service, and of an existing workload each runtime property the contract states. */
  ghost predicate Checked(c: Contract, snap: Snapshot, hasService: bool, t: ConditionType) {
    var runs := snap.workloadExists && c.runtime.Some?;
    match t
    case ServiceExists => hasService
    case WorkloadExists => true
    case PortsValid => hasService && snap.serviceExists
    case WorkloadTypeMatch => runs
    case StateModelMatch => runs
    case UpgradeStrategyMatch => runs && c.runtime.value.lifecycle.Some? && c.runtime.value.lifecycle.value.upgradeStrategy != ""
    case GracefulShutdownMatch => runs && c.runtime.value.lifecycle.Some? && c.runtime.value.lifecycle.value.gracefulShutdownSeconds.Some?
    case ImageMatch => runs && c.service.imageRef.Some? && c.service.imageRef.value != ""
    case HealthTimingMatch => runs && c.runtime.value.health.Some? && c.runtime.value.health.value.initialDelaySeconds.Some?
    case _ => false
  }

  lemma TargetCovered(c: Contract, snap: Snapshot, hasService: bool, t: ConditionType)
    ensures Has(TargetChecks(c, snap, hasService), t) <==>
            (t == ServiceExists && hasService) || t == WorkloadExists || (t == PortsValid && hasService && snap.serviceExists)
  {
    var service, workload := Given(hasService, CheckServiceExists(snap)), [CheckWorkloadExists(snap)];
    HasAppend(service + workload, Given(hasService && snap.serviceExists, PortsCheck(c, snap)), t);
    HasAppend(service, workload, t);
    HasOne(hasService, CheckServiceExists(snap), t);
    HasOne(true, CheckWorkloadExists(snap), t);
    HasOne(hasService && snap.serviceExists, PortsCheck(c, snap), t);
  }

  lemma LifecycleCovered(lifecycle: Option<Lifecycle>, snap: Snapshot, t: ConditionType)
    ensures Has(LifecycleChecks(lifecycle, snap), t) <==>
            lifecycle.Some? && ((t == UpgradeStrategyMatch && lifecycle.value.upgradeStrategy != "")
                                || (t == GracefulShutdownMatch && lifecycle.value.gracefulShutdownSeconds.Some?))
  {
    if lifecycle.Some? {
      var l := lifecycle.value;
      var upgrade := CheckUpgradeStrategy(l.upgradeStrategy, snap);
      HasOne(l.upgradeStrategy != "", upgrade, t);
      if l.gracefulShutdownSeconds.Some? {
        var shutdown := CheckGracefulShutdown(l.gracefulShutdownSeconds.value, snap);
        HasOne(true, shutdown, t);
        HasAppend(Given(l.upgradeStrategy != "", upgrade), [shutdown], t);
      }
    }
  }

  lemma KindsCovered(r: Runtime, snap: Snapshot, t: ConditionType)
    ensures Has(KindChecks(r, snap), t) <==> t == WorkloadTypeMatch || t == StateModelMatch
  {
    HasAppend([CheckWorkloadType(r, snap)], [CheckStateModel(r, snap)], t);
    HasOne(true, CheckWorkloadType(r, snap), t);
    HasOne(true, CheckStateModel(r, snap), t);
  }

  lemma ImageCovered(imageRef: Option<string>, snap: Snapshot, t: ConditionType)
    ensures Has(ImageChecks(imageRef, snap), t) <==> t == ImageMatch && imageRef.Some? && imageRef.value != ""
  {
    if imageRef.Some? {
      HasOne(imageRef.value != "", CheckImage(imageRef.value, snap), t);
    }
  }

  lemma HealthCovered(health: Option<Health>, snap: Snapshot, t: ConditionType)
    ensures Has(HealthChecks(health, snap), t) <==> t == HealthTimingMatch && health.Some? && health.value.initialDelaySeconds.Some?
  {
    if health.Some? && health.value.initialDelaySeconds.Some? {
      HasOne(true, CheckHealthTiming(health.value.initialDelaySeconds.value, snap), t);
    }
  }

  lemma FourParts(a: seq<Check>, b: seq<Check>, c: seq<Check>, d: seq<Check>, t: ConditionType)
    ensures Has(a + b + c + d, t) <==> Has(a, t) || Has(b, t) || Has(c, t) || Has(d, t)
  {
    HasAppend(a + b + c, d, t);
    HasAppend(a + b, c, t);
    HasAppend(a, b, t);
  }

  lemma RuntimeCovered(c: Contract, snap: Snapshot, t: ConditionType)
    requires snap.workloadExists && c.runtime.Some?
    ensures Has(RuntimeChecks(c, snap), t) <==> Checked(c, snap, false, t) && t != WorkloadExists
  {
    var r := c.runtime.value;
    KindsCovered(r, snap, t);
    LifecycleCovered(r.lifecycle, snap, t);
    ImageCovered(c.service.imageRef, snap, t);
    HealthCovered(r.health, snap, t);
    FourParts(KindChecks(r, snap), LifecycleChecks(r.lifecycle, snap), ImageChecks(c.service.imageRef, snap), HealthChecks(r.health, snap), t);
  }

  lemma ValidationCovers(c: Contract, snap: Snapshot, hasService: bool, t: ConditionType)
    ensures Has(Validation(c, snap, hasService).checks, t) <==> Checked(c, snap, hasService, t)
  {
    HasAppend(TargetChecks(c, snap, hasService), RuntimeChecks(c, snap), t);
    TargetCovered(c, snap, hasService, t);
    if snap.workloadExists && c.runtime.Some? {
      RuntimeCovered(c, snap, t);
    }
  }

  /** The reason agrees with the outcome: a mismatch, or that there was nothing to compare. */
  predicate Explains(check: Check, nothingThere: bool) {
    check.reason == if check.passed then Match else if nothingThere then Missing else Mismatch
  }

  lemma TargetReasons(c: Contract, snap: Snapshot)
    ensures var check := CheckServiceExists(snap);
            check.passed == snap.serviceExists && check.reason == if check.passed then Found else NotFound
    ensures var check := CheckWorkloadExists(snap);
            check.passed == snap.workloadExists && check.reason == if check.passed then Found else NotFound
    ensures var check := PortsCheck(c, snap); check.reason == if check.passed then PortsMatch else MissingPorts
  {
  }

  lemma KindReasons(r: Runtime, snap: Snapshot)
    ensures Explains(CheckWorkloadType(r, snap), false)
    ensures Explains(CheckStateModel(r, snap), !snap.hasPVC && (r.stateType == "stateful" ==> snap.workloadKind == "StatefulSet"))
  {
  }

  /** An upgrade strategy that cannot be seen passes as skipped. */
  lemma UpgradeReason(expected: string, snap: Snapshot)
    ensures var check := CheckUpgradeStrategy(expected, snap);
            if snap.deploymentStrategy == "" == snap.podManagementPolicy then check.passed && check.reason == Skipped
            else Explains(check, false)
  {
  }

  lemma ValueReasons(expected: int, image: string, snap: Snapshot)
    ensures Explains(CheckGracefulShutdown(expected, snap), snap.terminationGracePeriod.None?)
    ensures Explains(CheckImage(image, snap), snap.containerImages == [])
    ensures Explains(CheckHealthTiming(expected, snap), snap.healthProbeInitialDelay.None?)
  {
  }
}
