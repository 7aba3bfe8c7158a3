/** One reconciliation of a Pacto, and runs of them (Reconcile in internal/controller/pacto_controller.go and
    internal/controller/readiness.go). */
module Reconcile {
  import opened Wrappers
  import opened PactoTypes
  import opened PactoStatus
  import Overrides
  import Validator

  // ----- what a reconciliation is given -----

  datatype Loaded = Loaded(contract: Contract, resolvedRef: string)

  /** Everything one reconciliation learns from outside. `revision` is the result of ensuring the revision;
      `writes` says whether the status update is accepted. */
  datatype World = World(
    pullSecretReadable: bool,
    explicitTag: bool,
    load: Option<Loaded>,
    errors: Contract -> seq<Issue>,
    warnings: Contract -> seq<Issue>,
    evaluate: Contract -> Option<Evaluation>,
    revision: Option<string>,
    snapshot: Option<Snapshot>,
    probe: Url -> ProbeResult,
    writes: bool,
    now: int)

  datatype Get = Missing | Unreadable | Read(generation: int, namespace: string, spec: PactoSpec, status: Status)

  datatype Outcome = Done | Error | RequeueAfter(seconds: int)

  datatype Event =
    | GateUnmet | GateRecovered | ContractRejected | ObservationImpossible
    | ValidationFailed(status: ContractStatus, failed: int, total: int)

  // ----- the intended result -----

  /** Why a contract is not accepted. */
  datatype Rejection = Rejection(policy: ResolutionPolicy, issues: ValidationIssues)

  function Policy(ociRef: string, explicitTag: bool): ResolutionPolicy {
    if ociRef == "" then NoPolicy
    else if explicitTag then if '@' in ociRef then PinnedDigest else PinnedTag
    else Latest
  }

  function Issues(path: string): ValidationIssues {
    ValidationIssues(false, [Issue("", path)], [])
  }

  /** The effective contract, if it is accepted. */
  function ContractPhase(spec: PactoSpec, w: World): Result<Contract, Rejection> {
    var policy := Policy(spec.ociRef, w.explicitTag);
    if spec.pullSecretRef != "" && !w.pullSecretReadable then Failure(Rejection(NoPolicy, Issues("spec.contractRef.pullSecretRef")))
    else if w.load.None? then Failure(Rejection(policy, Issues("")))
    else
      match Overrides.Effective(w.load.value.contract.configurations, spec.overrides)
      case None => Failure(Rejection(policy, Issues("spec.overrides")))
      case Some(configurations) =>
        var c := w.load.value.contract.(configurations := configurations);
        if w.errors(c) != [] then Failure(Rejection(policy, ValidationIssues(false, w.errors(c), w.warnings(c))))
        else Success(c)
  }

  // ----- which contracts are accepted -----

  predicate CredentialsMissing(spec: PactoSpec, w: World) {
    spec.pullSecretRef != "" && !w.pullSecretReadable
  }

  ghost predicate OverridesFit(configurations: seq<Configuration>, overrides: seq<ConfigurationOverride>) {
    forall ov :: ov in overrides ==> exists c :: c in configurations && c.name == ov.name
  }

  /** The loaded contract with its overrides. */
  function Overridden(spec: PactoSpec, w: World): (c: Contract)
    requires w.load.Some?
    ensures c.(configurations := []) == w.load.value.contract.(configurations := [])
  {
    var c := w.load.value.contract;
    c.(configurations := Overrides.Apply(c.configurations, OverrideList(spec)))
  }

  /** The pull secret can be read if one is named, the contract was loaded, every override names one of its
      configurations, and validation finds no error in the overridden contract. */
  ghost predicate Acceptable(spec: PactoSpec, w: World) {
    && !CredentialsMissing(spec, w)
    && w.load.Some?
    && OverridesFit(w.load.value.contract.configurations, OverrideList(spec))
    && w.errors(Overridden(spec, w)) == []
  }

  /** How the reference is said to be resolved. */
  predicate IsPolicyOf(policy: ResolutionPolicy, ociRef: string, explicitTag: bool) {
    match policy
    case NoPolicy => ociRef == ""
    case Latest => ociRef != "" && !explicitTag
    case PinnedTag => ociRef != "" && explicitTag && '@' !in ociRef
    case PinnedDigest => ociRef != "" && explicitTag && '@' in ociRef
  }

  /** What is said of a contract that is not acceptable: the first thing wrong, and how its reference would have been
      resolved unless the credentials are missing already. */
  ghost predicate IsObjection(spec: PactoSpec, w: World, policy: ResolutionPolicy, issues: ValidationIssues) {
    if CredentialsMissing(spec, w) then
      policy == NoPolicy && issues == ValidationIssues(false, [Issue("", "spec.contractRef.pullSecretRef")], [])
    else
      && IsPolicyOf(policy, spec.ociRef, w.explicitTag)
      && issues ==
         if w.load.None? then ValidationIssues(false, [Issue("", "")], [])
         else if !OverridesFit(w.load.value.contract.configurations, OverrideList(spec)) then
           ValidationIssues(false, [Issue("", "spec.overrides")], [])
         else ValidationIssues(false, w.errors(Overridden(spec, w)), w.warnings(Overridden(spec, w)))
  }

  lemma OverridesDecide(configurations: seq<Configuration>, spec: PactoSpec)
    ensures var effective := Overrides.Effective(configurations, spec.overrides);
            if OverridesFit(configurations, OverrideList(spec)) then effective == Some(Overrides.Apply(configurations, OverrideList(spec)))
            else effective == None
  {
    var overrides := OverrideList(spec);
    assert forall ov :: ov in overrides ==>
             (Overrides.KnownName(configurations, ov.name) <==> exists c :: c in configurations && c.name == ov.name);
  }

  /** A contract is accepted exactly when it is acceptable, and then it is the overridden one. */
  lemma PhaseMeans(spec: PactoSpec, w: World)
    ensures match ContractPhase(spec, w)
            case Success(c) => Acceptable(spec, w) && c == Overridden(spec, w)
            case Failure(j) => !Acceptable(spec, w) && IsObjection(spec, w, j.policy, j.issues)
  {
    if w.load.Some? {
      OverridesDecide(w.load.value.contract.configurations, spec);
    }
  }

  const VALID := Check(ContractValid, true, ContractParsed, NoSeverity)

  function GateReason(e: Evaluation): Reason {
    if e.passing then GateSatisfied else if e.expired then Expired else BelowMinScore
  }

  /** The readiness gate as a check, when readiness is declared. */
  function Gate(e: Option<Evaluation>): seq<Check> {
    if e.None? then [] else [Check(ReadinessSatisfied, e.value.passing, GateReason(e.value), NoSeverity)]
  }

  predicate GateFails(e: Option<Evaluation>) {
    e.Some? && !e.value.passing
  }

  /** What probing finds; nothing is probed without a service. */
  function Probed(c: Contract, namespace: string, spec: PactoSpec, snap: Snapshot, probe: Url -> ProbeResult): (seq<Check>, Endpoints) {
    if snap.serviceExists then ProbeAll(c, spec.target.serviceName, namespace, probe) else ([], Endpoints(None, None))
  }

  function Validated(c: Contract, spec: PactoSpec, snap: Snapshot): Validator.ValidationResult {
    Validator.Validation(c, snap, spec.target.serviceName != "")
  }

  /** What validation and probing find. */
  function Findings(c: Contract, namespace: string, spec: PactoSpec, snap: Snapshot, probe: Url -> ProbeResult): seq<Check> {
    Validated(c, spec, snap).checks + Probed(c, namespace, spec, snap, probe).0
  }

  /** An unmet gate turns Compliant into Warning. */
  function Gated(verdict: ContractStatus, gateFails: bool): ContractStatus {
    if verdict == Compliant && gateFails then Warning else verdict
  }

  function OverrideList(spec: PactoSpec): seq<ConfigurationOverride> {
    if spec.overrides.None? then [] else spec.overrides.value
  }

  function Configurations(c: Contract, keys: map<string, set<string>>): (r: seq<ConfigurationInfo>)
    ensures |r| == |c.configurations|
  {
    seq(|c.configurations|, i requires 0 <= i < |c.configurations| =>
      var name := c.configurations[i].name;
      ConfigurationInfo(name, if name in keys then keys[name] else {}))
  }

  function RejectedStatus(j: Rejection, generation: int, now: int, revision: string): Status {
    Status(NonCompliant, j.policy, Some(Summary(1, 0, 1)), "", None, Some(j.issues), None, None, None, [], None, None,
           ConditionsOf([Check(ContractValid, false, ContractInvalid, NoSeverity)], generation, now),
           revision, Some(now), generation)
  }

  /** What is known of an accepted contract before its target is looked at. */
  function AcceptedStatus(c: Contract, generation: int, spec: PactoSpec, w: World, revision: string): Status
    requires w.load.Some?
  {
    Status(Unset, Policy(spec.ociRef, w.explicitTag), None, c.service.version,
           Some(ContractInfo(c, w.load.value.resolvedRef)), Some(ValidationIssues(true, [], w.warnings(c))),
           None, None, None, Configurations(c, Overrides.OverriddenKeySets(OverrideList(spec))), None, w.evaluate(c),
           ConditionsOf([VALID] + Gate(w.evaluate(c)), generation, w.now),
           if w.revision.Some? then w.revision.value else revision, Some(w.now), generation)
  }

  function ReferenceStatus(s: Status, e: Option<Evaluation>, generation: int, now: int): Status {
    s.(contractStatus := Reference, summary := Some(Summary(1, 1, 0)),
       conditions := ConditionsOf([VALID.(reason := ReferenceOnly)] + Gate(e), generation, now))
  }

  function UnobservedStatus(s: Status, e: Option<Evaluation>, generation: int, now: int): Status {
    s.(contractStatus := Unknown, summary := Some(Summary(1, 0, 1)),
       conditions := ConditionsOf([VALID] + Gate(e) + [Check(RuntimeObserved, false, ObservationFailed, NoSeverity)],
                                  generation, now))
  }

  function RuntimeStatus(s: Status, spec: PactoSpec, snap: Snapshot, e: Option<Evaluation>, result: Validator.ValidationResult,
                         probed: (seq<Check>, Endpoints), generation: int, now: int): Status {
    var findings := result.checks + probed.0;
    s.(contractStatus := Gated(Validator.Verdict([VALID] + findings), GateFails(e)),
       summary := Some(Summarize([VALID] + findings)),
       resources := Some(TargetResources(spec, snap)),
       ports := PortsShown(result.ports),
       endpoints := if probed.1 == Endpoints(None, None) then None else Some(probed.1),
       observedRuntime := if snap.workloadExists then Some(snap) else None,
       conditions := ConditionsOf([VALID] + Gate(e) + findings, generation, now))
  }

  /** What the target adds: nothing is looked at for a reference, and looking may fail. */
  function TargetStatus(s: Status, c: Contract, generation: int, namespace: string, spec: PactoSpec, w: World): Status {
    if spec.IsReference() then ReferenceStatus(s, w.evaluate(c), generation, w.now)
    else
      match w.snapshot
      case None => UnobservedStatus(s, w.evaluate(c), generation, w.now)
      case Some(snap) =>
        RuntimeStatus(s, spec, snap, w.evaluate(c), Validated(c, spec, snap), Probed(c, namespace, spec, snap, w.probe), generation, w.now)
  }

  /** The status a reconciliation is meant to persist; of the previous status it takes the revision only. */
  function ExpectedStatus(generation: int, namespace: string, spec: PactoSpec, w: World, revision: string): Status {
    match ContractPhase(spec, w)
    case Failure(j) => RejectedStatus(j, generation, w.now, revision)
    case Success(c) => TargetStatus(AcceptedStatus(c, generation, spec, w, revision), c, generation, namespace, spec, w)
  }

  /** The persisted readiness gate is unmet. */
  predicate Unmet(s: Status) {
    var c := FindCondition(s.conditions, ReadinessSatisfied);
    c.Some? && c.value.status == ConditionFalse
  }

  function GateEvents(e: Option<Evaluation>, wasUnmet: bool): seq<Event> {
    if e.Some? && !e.value.passing && !wasUnmet then [GateUnmet]
    else if e.Some? && e.value.passing && wasUnmet then [GateRecovered]
    else []
  }

  function Complaint(s: Status): seq<Event> {
    if s.contractStatus != Compliant && s.contractStatus != Reference && s.summary.Some?
    then [ValidationFailed(s.contractStatus, s.summary.value.failed, s.summary.value.total)]
    else []
  }

  function DerivedEvents(c: Contract, spec: PactoSpec, w: World, wasUnmet: bool): seq<Event> {
    GateEvents(w.evaluate(c), wasUnmet) + if !spec.IsReference() && w.snapshot.None? then [ObservationImpossible] else []
  }

  function AcceptedEvents(c: Contract, spec: PactoSpec, w: World, wasUnmet: bool, final: Status): seq<Event> {
    DerivedEvents(c, spec, w, wasUnmet) + if w.writes then Complaint(final) else []
  }

  /** The events of a reconciliation: some precede the status update, the rest need it to succeed. */
  function ExpectedEvents(get: Get, w: World): seq<Event>
    requires get.Read?
  {
    match ContractPhase(get.spec, w)
    case Failure(_) => if w.writes then [ContractRejected] else []
    case Success(c) =>
      AcceptedEvents(c, get.spec, w, Unmet(get.status),
                     ExpectedStatus(get.generation, get.namespace, get.spec, w, get.status.currentRevision))
  }

  /** What a reconciliation leaves in the API server. */
  function Persisted(stored: Status, get: Get, w: World): Status {
    if get.Read? && w.writes then ExpectedStatus(get.generation, get.namespace, get.spec, w, get.status.currentRevision) else stored
  }

  function Emitted(get: Get, w: World): seq<Event> {
    if get.Read? then ExpectedEvents(get, w) else []
  }

  function Requeue(spec: PactoSpec): Outcome {
    RequeueAfter(if spec.checkIntervalSeconds > 0 then spec.checkIntervalSeconds else 300)
  }

  /** The two ways a reconciliation may take. */
  lemma ExpectedWhen(generation: int, namespace: string, spec: PactoSpec, w: World, revision: string)
    ensures ContractPhase(spec, w).Success? <==> Acceptable(spec, w)
    ensures ExpectedStatus(generation, namespace, spec, w, revision) ==
            if Acceptable(spec, w)
            then TargetStatus(AcceptedStatus(Overridden(spec, w), generation, spec, w, revision), Overridden(spec, w), generation, namespace, spec, w)
            else RejectedStatus(ContractPhase(spec, w).error, generation, w.now, revision)
  {
    PhaseMeans(spec, w);
  }

  /** The persisted validation is valid exactly for acceptable contracts. */
  lemma ValidMeansAcceptable(generation: int, namespace: string, spec: PactoSpec, w: World, revision: string)
    ensures var s := ExpectedStatus(generation, namespace, spec, w, revision);
            s.validation.Some? && (s.validation.value.valid <==> Acceptable(spec, w))
  {
    PhaseMeans(spec, w);
  }

  // ----- how the steps add up -----

  lemma ConditionsAppend(a: seq<Check>, b: seq<Check>, generation: int, now: int)
    ensures ConditionsOf(a + b, generation, now) == ConditionsOf(a, generation, now) + ConditionsOf(b, generation, now)
  {
  }

  lemma FindingsRanked(c: Contract, namespace: string, spec: PactoSpec, snap: Snapshot, probe: Url -> ProbeResult)
    ensures Validator.Ranked(Validated(c, spec, snap).checks, 2, 10)
    ensures Validator.Ranked(Probed(c, namespace, spec, snap, probe).0, 11, 12)
    ensures Validator.Ranked(Findings(c, namespace, spec, snap, probe), 2, 12)
  {
    Validator.ValidationRanked(c, snap, spec.target.serviceName != "");
    EndpointChecksRanked(c, spec.target.serviceName, namespace, probe);
    Validator.RankedAppend(Validated(c, spec, snap).checks, Probed(c, namespace, spec, snap, probe).0, 2, 10, 12);
  }

  lemma AllRanked(e: Option<Evaluation>, findings: seq<Check>)
    requires Validator.Ranked(findings, 2, 12)
    ensures Validator.Ranked([VALID] + Gate(e) + findings, 0, 12)
  {
    Validator.RankedAppend([VALID] + Gate(e), findings, 0, 1, 12);
  }

  /** New checks, ranked after those already there, append their conditions. */
  lemma SetRanked(before: seq<Check>, checks: seq<Check>, low: int, mid: int, high: int, generation: int, now: int)
    requires Validator.Ranked(before, low, mid) && Validator.Ranked(checks, mid + 1, high)
    ensures SetConditions(ConditionsOf(before, generation, now), checks, generation, now) == ConditionsOf(before + checks, generation, now)
  {
    var conditions := ConditionsOf(before, generation, now);
    forall d, c | d in conditions && c in checks ensures d.ctype != c.name {
      var i :| 0 <= i < |conditions| && conditions[i] == d;
      assert d.ctype == before[i].name;
    }
    SetNewConditions(conditions, checks, generation, now);
    ConditionsAppend(before, checks, generation, now);
  }

  lemma ConditionsVerdictIsVerdict(checks: seq<Check>, generation: int, now: int)
    ensures ConditionsVerdict(ConditionsOf(checks, generation, now)) == Validator.Verdict(checks)
  {
    var conditions := ConditionsOf(checks, generation, now);
    assert forall i :: 0 <= i < |checks| ==> conditions[i] == ConditionOf(checks[i], generation, now);
    if c :| c in checks && !c.passed {
      forall c | c in checks ensures ConditionOf(c, generation, now) in conditions {
        var i :| 0 <= i < |checks| && checks[i] == c;
        assert conditions[i] in conditions;
      }
    }
    forall d | d in conditions ensures exists c :: c in checks && d == ConditionOf(c, generation, now) {
      var i :| 0 <= i < |conditions| && conditions[i] == d;
      assert checks[i] in checks;
    }
  }

  lemma GateGatesVerdict(e: Option<Evaluation>, findings: seq<Check>)
    ensures Validator.Verdict([VALID] + Gate(e) + findings) == Gated(Validator.Verdict([VALID] + findings), GateFails(e))
  {
    var all := [VALID] + Gate(e) + findings;
    assert forall c :: c in all <==> c == VALID || c in Gate(e) || c in findings;
    assert forall c :: c in [VALID] + findings <==> c == VALID || c in findings;
    assert GateFails(e) ==> Gate(e)[0] in all;
  }

  /** The verdict folded from the conditions is the verdict on the collected checks, but for the gate. */
  lemma FinalStatusIsGatedVerdict(e: Option<Evaluation>, findings: seq<Check>, generation: int, now: int)
    ensures ConditionsVerdict(ConditionsOf([VALID] + Gate(e) + findings, generation, now)) ==
            Gated(Validator.Verdict([VALID] + findings), GateFails(e))
  {
    ConditionsVerdictIsVerdict([VALID] + Gate(e) + findings, generation, now);
    GateGatesVerdict(e, findings);
  }

  /** The summary counted in two steps is that of all collected checks. */
  lemma SummaryAddsUp(checks: seq<Check>, more: seq<Check>)
    ensures Count(Count(Summary(1, 1, 0), checks), more) == Summarize([VALID] + (checks + more))
  {
    CountAppend(Summary(0, 0, 0), [VALID], checks + more);
    assert [VALID][..0] == [];
    CountAppend(Summary(1, 1, 0), checks, more);
  }

  /** The conditions set in three steps are those of all checks. */
  lemma ConditionsAddUp(e: Option<Evaluation>, checks: seq<Check>, more: seq<Check>, generation: int, now: int)
    requires Validator.Ranked(checks, 2, 10) && Validator.Ranked(more, 11, 12)
    ensures SetConditions(SetConditions(ConditionsOf([VALID] + Gate(e), generation, now), checks, generation, now), more, generation, now)
            == ConditionsOf([VALID] + Gate(e) + (checks + more), generation, now)
  {
    SetRanked([VALID] + Gate(e), checks, 0, 1, 10, generation, now);
    Validator.RankedAppend([VALID] + Gate(e), checks, 0, 1, 10);
    SetRanked([VALID] + Gate(e) + checks, more, 0, 10, 12, generation, now);
    assert [VALID] + Gate(e) + checks + more == [VALID] + Gate(e) + (checks + more);
  }

  /** Validation and probing, applied one after the other. */
  function AppliedFindings(s: Status, spec: PactoSpec, snap: Snapshot, result: Validator.ValidationResult,
                           probed: (seq<Check>, Endpoints), generation: int, now: int): Status {
    var observed := if snap.workloadExists then s.(observedRuntime := Some(snap)) else s;
    var validated := AppliedValidation(observed, spec, result, snap, generation, now);
    WithEndpoints(AppliedChecks(validated, probed.0, generation, now), probed.1)
  }

  lemma AppliedFindingsAre(s: Status, spec: PactoSpec, snap: Snapshot, result: Validator.ValidationResult,
                           probed: (seq<Check>, Endpoints), generation: int, now: int)
    requires s.observedRuntime.None? && s.ports.None? && s.endpoints.None?
    ensures AppliedFindings(s, spec, snap, result, probed, generation, now) ==
            s.(observedRuntime := if snap.workloadExists then Some(snap) else None,
               resources := Some(TargetResources(spec, snap)),
               ports := PortsShown(result.ports),
               endpoints := if probed.1 == Endpoints(None, None) then None else Some(probed.1),
               conditions := SetConditions(SetConditions(s.conditions, result.checks, generation, now), probed.0, generation, now),
               summary := Some(Count(Count(Summary(1, 1, 0), result.checks), probed.0)))
  {
    var observed := if snap.workloadExists then s.(observedRuntime := Some(snap)) else s;
    AppliedChecksAre(AppliedValidation(observed, spec, result, snap, generation, now), probed.0, generation, now);
  }

  lemma FindingsAddUp(s: Status, spec: PactoSpec, snap: Snapshot, e: Option<Evaluation>, result: Validator.ValidationResult,
                      probed: (seq<Check>, Endpoints), generation: int, now: int)
    requires s.conditions == ConditionsOf([VALID] + Gate(e), generation, now)
    requires s.observedRuntime.None? && s.ports.None? && s.endpoints.None?
    requires Validator.Ranked(result.checks, 2, 10) && Validator.Ranked(probed.0, 11, 12)
    ensures var applied := AppliedFindings(s, spec, snap, result, probed, generation, now);
            applied.(contractStatus := ConditionsVerdict(applied.conditions)) ==
            RuntimeStatus(s, spec, snap, e, result, probed, generation, now)
  {
    AppliedFindingsAre(s, spec, snap, result, probed, generation, now);
    ConditionsAddUp(e, result.checks, probed.0, generation, now);
    SummaryAddsUp(result.checks, probed.0);
    FinalStatusIsGatedVerdict(e, result.checks + probed.0, generation, now);
  }

  function Stamped(s: Status, generation: int, now: int): Status {
    s.(lastReconciledAt := Some(now), observedGeneration := generation)
  }

  lemma StampedAfterTarget(s: Status, c: Contract, generation: int, namespace: string, spec: PactoSpec, w: World)
    ensures Stamped(TargetStatus(s, c, generation, namespace, spec, w), generation, w.now) ==
            TargetStatus(Stamped(s, generation, w.now), c, generation, namespace, spec, w)
  {
  }

  function FailedFields(s: Status, issues: ValidationIssues, generation: int, now: int): Status {
    s.(conditions := SetConditionIn(s.conditions, Condition(ContractValid, ConditionFalse, ContractInvalid, generation, now)),
       contractStatus := NonCompliant, summary := Some(Summary(1, 0, 1)), validation := Some(issues),
       lastReconciledAt := Some(now), observedGeneration := generation)
  }

  /** A reset status that fails is the rejected status. */
  lemma RejectedFromReset(previous: Status, s: Status, j: Rejection, generation: int, now: int)
    requires s.(validation := None) == Reset(previous).(resolutionPolicy := j.policy)
    ensures FailedFields(s, j.issues, generation, now) == RejectedStatus(j, generation, now, previous.currentRevision)
  {
  }

  function ResolvedFields(s: Status, c: Contract, spec: PactoSpec, w: World): Status {
    s.(resolutionPolicy := Policy(spec.ociRef, w.explicitTag), validation := Some(ValidationIssues(true, [], w.warnings(c))))
  }

  function AcceptedFields(s: Status, c: Contract, generation: int, spec: PactoSpec, w: World): Status
    requires w.load.Some?
  {
    s.(contractVersion := c.service.version,
       contract := Some(ContractInfo(c, w.load.value.resolvedRef)),
       configurations := Configurations(c, Overrides.OverriddenKeySets(OverrideList(spec))),
       readiness := if w.evaluate(c).Some? then w.evaluate(c) else s.readiness,
       conditions := ConditionsOf([VALID] + Gate(w.evaluate(c)), generation, w.now),
       currentRevision := if w.revision.Some? then w.revision.value else s.currentRevision)
  }

  /** A reset status, given its contract, is the accepted status but for the stamp. */
  lemma AcceptedFromReset(s: Status, c: Contract, generation: int, spec: PactoSpec, w: World)
    requires w.load.Some?
    ensures var resolved := ResolvedFields(Reset(s), c, spec, w);
            Stamped(AcceptedFields(resolved, c, generation, spec, w), generation, w.now) ==
            AcceptedStatus(c, generation, spec, w, s.currentRevision)
  {
  }

  lemma TargetFromReset(s: Status, c: Contract, generation: int, namespace: string, spec: PactoSpec, w: World)
    requires w.load.Some?
    ensures var accepted := AcceptedFields(ResolvedFields(Reset(s), c, spec, w), c, generation, spec, w);
            Stamped(TargetStatus(accepted, c, generation, namespace, spec, w), generation, w.now) ==
            TargetStatus(AcceptedStatus(c, generation, spec, w, s.currentRevision), c, generation, namespace, spec, w)
  {
    AcceptedFromReset(s, c, generation, spec, w);
    StampedAfterTarget(AcceptedFields(ResolvedFields(Reset(s), c, spec, w), c, generation, spec, w), c, generation, namespace, spec, w);
  }

  // ----- the reconciler -----

  datatype Resolved = Resolved(contract: Contract, keys: map<string, seq<string>>)

  /** `stored` is the status in the API server and `events` the events recorded so far. */
  class PactoReconciler {
    var stored: Status
    var events: seq<Event>

    constructor (stored: Status)
      ensures this.stored == stored && events == []
    {
      this.stored, events := stored, [];
    }

    /** Persists the status of the resource being reconciled. */
    method UpdateStatus(pacto: Pacto, w: World) returns (ok: bool)
      modifies this`stored
      ensures ok == w.writes && stored == if ok then pacto.status else old(stored)
    {
      if w.writes {
        stored := pacto.status;
      }
      ok := w.writes;
    }

    method FailReconciliation(pacto: Pacto, issues: ValidationIssues, w: World) returns (r: Outcome)
      modifies this, pacto
      ensures pacto.status == FailedFields(old(pacto.status), issues, pacto.generation, w.now)
      ensures stored == if w.writes then pacto.status else old(stored)
      ensures events == old(events) + if w.writes then [ContractRejected] else []
      ensures r == if w.writes then Requeue(pacto.spec) else Error
    {
      pacto.SetCondition(ContractValid, ConditionFalse, ContractInvalid, w.now);
      pacto.status := pacto.status.(contractStatus := NonCompliant, summary := Some(Summary(1, 0, 1)), validation := Some(issues));
      pacto.status := pacto.status.(lastReconciledAt := Some(w.now), observedGeneration := pacto.generation);
      var ok := UpdateStatus(pacto, w);
      if !ok {
        return Error;
      }
      events := events + [ContractRejected];
      r := Requeue(pacto.spec);
    }

    method FinishReconciliation(pacto: Pacto, w: World) returns (r: Outcome)
      modifies this, pacto
      ensures pacto.status == Stamped(old(pacto.status), pacto.generation, w.now)
      ensures stored == if w.writes then pacto.status else old(stored)
      ensures events == old(events) + if w.writes then Complaint(pacto.status) else []
      ensures r == if w.writes then Requeue(pacto.spec) else Error
    {
      pacto.status := pacto.status.(lastReconciledAt := Some(w.now), observedGeneration := pacto.generation);
      var ok := UpdateStatus(pacto, w);
      if !ok {
        return Error;
      }
      if pacto.status.contractStatus != Compliant && pacto.status.contractStatus != Reference {
        if pacto.status.summary.Some? {
          var s := pacto.status.summary.value;
          events := events + [ValidationFailed(pacto.status.contractStatus, s.failed, s.total)];
        }
      }
      r := Requeue(pacto.spec);
    }

    /** Steps 3 to 5: credentials, load, overrides, validation. */
    method ResolveContract(pacto: Pacto, loaded: Overrides.ContractObject?, w: World) returns (r: Result<Resolved, ValidationIssues>)
      requires w.load.Some? ==> loaded != null && loaded.View() == w.load.value.contract
      requires pacto.status.resolutionPolicy == NoPolicy
      modifies pacto
      ensures match ContractPhase(pacto.spec, w)
              case Failure(j) =>
                && r == Failure(j.issues)
                && pacto.status.(validation := None) == old(pacto.status).(resolutionPolicy := j.policy, validation := None)
              case Success(c) =>
                && r.Success? && r.value.contract == c
                && ReportedKeys(r.value.keys, pacto.spec)
                && pacto.status == ResolvedFields(old(pacto.status), c, pacto.spec, w)
    {
      if pacto.spec.pullSecretRef != "" {
        if !w.pullSecretReadable {
          return Failure(Issues("spec.contractRef.pullSecretRef"));
        }
      }
      pacto.status := pacto.status.(resolutionPolicy := Policy(pacto.spec.ociRef, w.explicitTag));
      if w.load.None? {
        return Failure(Issues(""));
      }
      assert loaded.View() == old(loaded.View());
      var effective := EffectiveContract(loaded, pacto.spec);
      if effective.None? {
        return Failure(Issues("spec.overrides"));
      }
      var c := effective.value.contract;
      var errors := w.errors(c);
      pacto.status := pacto.status.(validation := Some(ValidationIssues(|errors| == 0, errors, w.warnings(c))));
      if |errors| > 0 {
        return Failure(pacto.status.validation.value);
      }
      r := Success(effective.value);
    }

    /** Step 4b: overrides are applied when the specification has any. */
    method EffectiveContract(loaded: Overrides.ContractObject, spec: PactoSpec) returns (r: Option<Resolved>)
      ensures var was := old(loaded.View());
              match Overrides.Effective(was.configurations, spec.overrides)
              case None => r == None
              case Some(configurations) =>
                r.Some? && r.value.contract == was.(configurations := configurations) && ReportedKeys(r.value.keys, spec)
    {
      if spec.overrides.None? {
        return Some(Resolved(loaded.View(), map[]));
      }
      var overridden, keys := Overrides.ApplyConfigurationOverrides(loaded, spec.overrides);
      if overridden.None? {
        return None;
      }
      r := Some(Resolved(overridden.value.View(), keys));
    }

    /** Steps 5b to 7: what an accepted contract contributes whatever its target. */
    method AcceptContract(pacto: Pacto, c: Contract, keys: map<string, seq<string>>, wasUnmet: bool, w: World)
      requires w.load.Some? && ReportedKeys(keys, pacto.spec) && pacto.status.conditions == []
      modifies this`events, pacto
      ensures pacto.status == AcceptedFields(old(pacto.status), c, pacto.generation, pacto.spec, w)
      ensures events == old(events) + GateEvents(w.evaluate(c), wasUnmet)
    {
      pacto.SetCondition(ContractValid, ConditionTrue, ContractParsed, w.now);
      assert pacto.status.conditions == ConditionsOf([VALID], pacto.generation, w.now);
      pacto.status := pacto.status.(contractVersion := c.service.version, contract := Some(ContractInfo(c, w.load.value.resolvedRef)));
      var shown := ShowConfigurations(c, keys, pacto.spec);
      pacto.status := pacto.status.(configurations := shown);
      ReconcileReadiness(pacto, w.evaluate(c), wasUnmet, w.now);
      if w.revision.Some? {
        pacto.status := pacto.status.(currentRevision := w.revision.value);
      }
    }

    /** Steps 11 to 15: validate, probe, and fold the final status. */
    method ReconcileRuntime(pacto: Pacto, c: Contract, snap: Snapshot, w: World)
      requires pacto.status.conditions == ConditionsOf([VALID] + Gate(w.evaluate(c)), pacto.generation, w.now)
      requires pacto.status.observedRuntime.None? && pacto.status.ports.None? && pacto.status.endpoints.None?
      modifies pacto
      ensures pacto.status == RuntimeStatus(old(pacto.status), pacto.spec, snap, w.evaluate(c), Validated(c, pacto.spec, snap),
                                              Probed(c, pacto.namespace, pacto.spec, snap, w.probe), pacto.generation, w.now)
    {
      ApplyFindings(pacto, c, snap, w);
      FindingsRanked(c, pacto.namespace, pacto.spec, snap, w.probe);
      FindingsAddUp(old(pacto.status), pacto.spec, snap, w.evaluate(c), Validated(c, pacto.spec, snap),
                    Probed(c, pacto.namespace, pacto.spec, snap, w.probe), pacto.generation, w.now);
      var status := pacto.ComputeFinalContractStatus();
      pacto.status := pacto.status.(contractStatus := status);
    }

    /** Steps 11 to 14. */
    method ApplyFindings(pacto: Pacto, c: Contract, snap: Snapshot, w: World)
      modifies pacto
      ensures pacto.status == AppliedFindings(old(pacto.status), pacto.spec, snap, Validated(c, pacto.spec, snap),
                                              Probed(c, pacto.namespace, pacto.spec, snap, w.probe), pacto.generation, w.now)
    {
      if snap.workloadExists {
        pacto.status := pacto.status.(observedRuntime := Some(snap));
      }
      var result := Validator.Validate(c, snap, pacto.spec.target.serviceName != "");
      pacto.ApplyValidationResult(result, snap, w.now);
      if snap.serviceExists {
        var _ := pacto.ProbeEndpoints(c, w.probe, w.now);
      }
    }

    /** Steps 8 to 15. */
    method ReconcileTarget(pacto: Pacto, c: Contract, w: World)
      requires pacto.status.conditions == ConditionsOf([VALID] + Gate(w.evaluate(c)), pacto.generation, w.now)
      requires pacto.status.observedRuntime.None? && pacto.status.ports.None? && pacto.status.endpoints.None?
      modifies this`events, pacto
      ensures pacto.status == TargetStatus(old(pacto.status), c, pacto.generation, pacto.namespace, pacto.spec, w)
      ensures events == old(events) + if !pacto.spec.IsReference() && w.snapshot.None? then [ObservationImpossible] else []
    {
      if pacto.spec.IsReference() {
        pacto.SetCondition(ContractValid, ConditionTrue, ReferenceOnly, w.now);
        pacto.status := pacto.status.(contractStatus := Reference, summary := Some(Summary(1, 1, 0)));
      } else if w.snapshot.None? {
        SetNewCondition(pacto.status.conditions, Condition(RuntimeObserved, ConditionFalse, ObservationFailed, pacto.generation, w.now));
        pacto.SetCondition(RuntimeObserved, ConditionFalse, ObservationFailed, w.now);
        events := events + [ObservationImpossible];
        pacto.status := pacto.status.(contractStatus := Unknown, summary := Some(Summary(1, 0, 1)));
      } else {
        ReconcileRuntime(pacto, c, w.snapshot.value, w);
      }
    }

    /** The rest of a reconciliation once its contract is accepted. */
    method ReconcileAccepted(pacto: Pacto, c: Contract, keys: map<string, seq<string>>, wasUnmet: bool, w: World, ghost previous: Status)
        returns (r: Outcome)
      requires w.load.Some? && ReportedKeys(keys, pacto.spec)
      requires pacto.status == ResolvedFields(Reset(previous), c, pacto.spec, w)
      modifies this, pacto
      ensures var expected := TargetStatus(AcceptedStatus(c, pacto.generation, pacto.spec, w, previous.currentRevision), c,
                                           pacto.generation, pacto.namespace, pacto.spec, w);
              && stored == (if w.writes then expected else old(stored))
              && events == old(events) + AcceptedEvents(c, pacto.spec, w, wasUnmet, expected)
      ensures r == if w.writes then Requeue(pacto.spec) else Error
    {
      DeriveStatus(pacto, c, keys, wasUnmet, w);
      TargetFromReset(previous, c, pacto.generation, pacto.namespace, pacto.spec, w);
      r := FinishReconciliation(pacto, w);
    }

    /** Steps 5b to 15: all that is derived from the accepted contract and its target. */
    method DeriveStatus(pacto: Pacto, c: Contract, keys: map<string, seq<string>>, wasUnmet: bool, w: World)
      requires w.load.Some? && ReportedKeys(keys, pacto.spec) && pacto.status.conditions == []
      requires pacto.status.observedRuntime.None? && pacto.status.ports.None? && pacto.status.endpoints.None?
      modifies this`events, pacto
      ensures pacto.status == TargetStatus(AcceptedFields(old(pacto.status), c, pacto.generation, pacto.spec, w), c,
                                           pacto.generation, pacto.namespace, pacto.spec, w)
      ensures events == old(events) + DerivedEvents(c, pacto.spec, w, wasUnmet)
    {
      AcceptContract(pacto, c, keys, wasUnmet, w);
      ReconcileTarget(pacto, c, w);
    }

    /** Reconcile. The loaded contract is shared with the loader's cache; nothing but the reconciler's own
        state is modified. */
    method Reconcile(get: Get, loaded: Overrides.ContractObject?, w: World) returns (r: Outcome)
      requires get.Read? && w.load.Some? ==> loaded != null && loaded.View() == w.load.value.contract
      modifies this
      ensures stored == Persisted(old(stored), get, w)
      ensures events == old(events) + Emitted(get, w)
      ensures get.Read? && w.writes ==> stored.validation.Some? && (stored.validation.value.valid <==> Acceptable(get.spec, w))
      ensures r == if get.Missing? then Done
                   else if get.Unreadable? || !w.writes then Error
                   else RequeueAfter(if get.spec.checkIntervalSeconds > 0 then get.spec.checkIntervalSeconds else 300)
    {
      if get.Missing? {
        return Done;
      } else if get.Unreadable? {
        return Error;
      }
      ValidMeansAcceptable(get.generation, get.namespace, get.spec, w, get.status.currentRevision);
      var pacto := new Pacto(get.generation, get.namespace, get.spec, get.status);
      var previous := FindCondition(pacto.status.conditions, ReadinessSatisfied);
      var wasUnmet := previous.Some? && previous.value.status == ConditionFalse;
      pacto.ResetDerivedStatus();
      var resolved := ResolveContract(pacto, loaded, w);
      if resolved.Failure? {
        RejectedFromReset(get.status, pacto.status, ContractPhase(get.spec, w).error, get.generation, w.now);
        r := FailReconciliation(pacto, resolved.error, w);
      } else {
        r := ReconcileAccepted(pacto, resolved.value.contract, resolved.value.keys, wasUnmet, w, get.status);
      }
    }

    /** Lists the configurations, then marks their overridden keys. */
    method ShowConfigurations(c: Contract, keys: map<string, seq<string>>, spec: PactoSpec) returns (shown: seq<ConfigurationInfo>)
      requires ReportedKeys(keys, spec)
      ensures shown == Configurations(c, Overrides.OverriddenKeySets(OverrideList(spec)))
    {
      ghost var sets := Overrides.OverriddenKeySets(OverrideList(spec));
      shown := [];
      for i := 0 to |c.configurations|
        invariant |shown| == i && forall j :: 0 <= j < i ==> shown[j] == ConfigurationInfo(c.configurations[j].name, {})
      {
        shown := shown + [ConfigurationInfo(c.configurations[i].name, {})];
      }
      for i := 0 to |shown|
        invariant |shown| == |c.configurations|
        invariant forall j :: i <= j < |shown| ==> shown[j] == ConfigurationInfo(c.configurations[j].name, {})
        invariant forall j :: 0 <= j < i ==> shown[j] == Configurations(c, sets)[j]
      {
        if shown[i].name in keys {
          var marked := set key | key in keys[shown[i].name];
          assert Overrides.SortedKeys(keys[shown[i].name], sets[shown[i].name]);
          assert marked == sets[shown[i].name];
          shown := shown[i := shown[i].(overriddenKeys := marked)];
        }
      }
    }

    /** reconcileReadiness */
    method ReconcileReadiness(pacto: Pacto, e: Option<Evaluation>, wasUnmet: bool, now: int)
      requires forall c :: c in pacto.status.conditions ==> c.ctype != ReadinessSatisfied
      modifies this`events, pacto
      ensures pacto.status == old(pacto.status).(
                readiness := if e.Some? then e else old(pacto.status).readiness,
                conditions := old(pacto.status).conditions + ConditionsOf(Gate(e), pacto.generation, now))
      ensures events == old(events) + GateEvents(e, wasUnmet)
    {
      if e.None? {
        return;
      }
      pacto.status := pacto.status.(readiness := e);
      var status := if e.value.passing then ConditionTrue else ConditionFalse;
      SetNewCondition(pacto.status.conditions, ConditionOf(Gate(e)[0], pacto.generation, now));
      pacto.SetCondition(ReadinessSatisfied, status, GateReason(e.value), now);
      if status == ConditionFalse && !wasUnmet {
        events := events + [GateUnmet];
      } else if status == ConditionTrue && wasUnmet {
        events := events + [GateRecovered];
      }
    }
  }

  ghost predicate ReportedKeys(keys: map<string, seq<string>>, spec: PactoSpec) {
    Overrides.ReportsKeys(keys, OverrideList(spec))
  }
}
