/** What the fields of the status persisted by a reconciliation say, and which events go with it
    (internal/controller/pacto_controller.go), in terms of what the reconciliation was given. */
module StatusContents {
  import opened Wrappers
  import opened PactoTypes
  import opened PactoStatus
  import opened Reconcile
  import Overrides
  import ReadinessRun
  import StatusProperties
  import Validator

  // ----- rejected and accepted contracts -----

  /** A status in which nothing is said of a target. */
  predicate SaysNothingOfTarget(s: Status) {
    s.resources == None && s.ports == None && s.endpoints == None && s.observedRuntime == None
  }

  /** A contract that is not acceptable is NonCompliant, with one failed check and the first thing that is wrong with
      it; of earlier statuses nothing stays but the revision. */
  lemma RejectedSays(generation: int, namespace: string, spec: PactoSpec, w: World, r: string)
    requires !Acceptable(spec, w)
    ensures var s := ExpectedStatus(generation, namespace, spec, w, r);
            && s.contractStatus == NonCompliant && s.summary == Some(Summary(1, 0, 1))
            && s.validation.Some? && IsObjection(spec, w, s.resolutionPolicy, s.validation.value)
            && s.conditions == [Condition(ContractValid, ConditionFalse, ContractInvalid, generation, w.now)]
            && s.contract == None && s.contractVersion == "" && s.configurations == [] && s.readiness == None
            && SaysNothingOfTarget(s) && s.currentRevision == r && s.observedGeneration == generation
  {
    PhaseMeans(spec, w);
    ExpectedWhen(generation, namespace, spec, w, r);
  }

  /** What is stored of the contract. */
  predicate SaysContract(s: Status, spec: PactoSpec, w: World)
    requires w.load.Some?
  {
    var loaded, c := w.load.value, Overridden(spec, w);
    && s.contract == Some(ContractInfo(c, loaded.resolvedRef)) && s.contractVersion == loaded.contract.service.version
    && c.service == loaded.contract.service && c.interfaces == loaded.contract.interfaces && c.runtime == loaded.contract.runtime
    && s.validation == Some(ValidationIssues(true, [], w.warnings(c)))
    && IsPolicyOf(s.resolutionPolicy, spec.ociRef, w.explicitTag)
    && s.readiness == w.evaluate(c)
  }

  /** Whatever its target, an acceptable contract is stored as loaded but for the overridden values, with the warnings
      and the readiness of the overridden contract. */
  lemma AcceptedSays(generation: int, namespace: string, spec: PactoSpec, w: World, r: string)
    requires Acceptable(spec, w)
    ensures var s := ExpectedStatus(generation, namespace, spec, w, r);
            && SaysContract(s, spec, w) && s.observedGeneration == generation
            && s.currentRevision == if w.revision.Some? then w.revision.value else r
  {
    ExpectedWhen(generation, namespace, spec, w, r);
    var c := Overridden(spec, w);
    AcceptedStatusSays(c, generation, spec, w, r);
    TargetLeaves(AcceptedStatus(c, generation, spec, w, r), c, generation, namespace, spec, w);
  }

  lemma AcceptedStatusSays(c: Contract, generation: int, spec: PactoSpec, w: World, r: string)
    requires w.load.Some? && c == Overridden(spec, w)
    ensures SaysContract(AcceptedStatus(c, generation, spec, w, r), spec, w)
  {
  }

  /** The target leaves what was said of the contract. */
  lemma TargetLeaves(s: Status, c: Contract, generation: int, namespace: string, spec: PactoSpec, w: World)
    ensures var s' := TargetStatus(s, c, generation, namespace, spec, w);
            && s'.contract == s.contract && s'.contractVersion == s.contractVersion && s'.validation == s.validation
            && s'.resolutionPolicy == s.resolutionPolicy && s'.readiness == s.readiness && s'.configurations == s.configurations
            && s'.observedGeneration == s.observedGeneration && s'.currentRevision == s.currentRevision
  {
  }

  // ----- the configurations -----

  ghost predicate IsLastOverride(overrides: seq<ConfigurationOverride>, n: nat, name: string) {
    n < |overrides| && overrides[n].name == name && forall j :: n < j < |overrides| ==> overrides[j].name != name
  }

  /** Each configuration of the contract is listed, with the keys of the last override of its name. */
  lemma ConfigurationsSay(generation: int, namespace: string, spec: PactoSpec, w: World, r: string, i: nat)
    requires Acceptable(spec, w) && i < |w.load.value.contract.configurations|
    ensures var s := ExpectedStatus(generation, namespace, spec, w, r);
            var name := w.load.value.contract.configurations[i].name;
            && |s.configurations| == |w.load.value.contract.configurations| && s.configurations[i].name == name
            && (forall n: nat :: IsLastOverride(OverrideList(spec), n, name) ==> s.configurations[i].overriddenKeys == OverrideList(spec)[n].values.Keys)
            && ((forall ov :: ov in OverrideList(spec) ==> ov.name != name) ==> s.configurations[i].overriddenKeys == {})
  {
    ExpectedWhen(generation, namespace, spec, w, r);
    var c := Overridden(spec, w);
    TargetLeaves(AcceptedStatus(c, generation, spec, w, r), c, generation, namespace, spec, w);
    Overrides.ApplyKeepsRest(w.load.value.contract.configurations, OverrideList(spec), i);
    ListedKeys(OverrideList(spec), c.configurations[i].name);
  }

  lemma ListedKeys(overrides: seq<ConfigurationOverride>, name: string)
    ensures var sets := Overrides.OverriddenKeySets(overrides);
            var keys := if name in sets then sets[name] else {};
            && (forall n: nat :: IsLastOverride(overrides, n, name) ==> keys == overrides[n].values.Keys)
            && ((forall ov :: ov in overrides ==> ov.name != name) ==> keys == {})
  {
    forall n: nat | IsLastOverride(overrides, n, name)
      ensures var sets := Overrides.OverriddenKeySets(overrides); name in sets && sets[name] == overrides[n].values.Keys
    {
      Overrides.ReportedAreLast(overrides, n, name);
    }
    if forall ov :: ov in overrides ==> ov.name != name {
      Overrides.UnoverriddenUnreported(overrides, name);
    }
  }

  // ----- the three ways on from an accepted contract -----

  /** No service name and no workload reference. */
  predicate NoTarget(target: TargetRef) {
    target.serviceName == "" && target.workloadRef == None
  }

  /** A condition of the status, set now. */
  predicate Says(s: Status, t: ConditionType, holds: bool, reason: Reason, generation: int, now: int) {
    Condition(t, if holds then ConditionTrue else ConditionFalse, reason, generation, now) in s.conditions
  }

  predicate SaysNothingOf(s: Status, t: ConditionType) {
    forall c :: c in s.conditions ==> c.ctype != t
  }

  lemma ChecksAreConditions(checks: seq<Check>, s: Status, generation: int, now: int)
    requires s.conditions == ConditionsOf(checks, generation, now)
    ensures forall c :: c in checks ==> Says(s, c.name, c.passed, c.reason, generation, now)
    ensures forall t :: SaysNothingOf(s, t) <==> !Validator.Has(checks, t)
  {
    forall c | c in checks ensures Says(s, c.name, c.passed, c.reason, generation, now) {
      var i :| 0 <= i < |checks| && checks[i] == c;
      assert s.conditions[i] == ConditionOf(c, generation, now);
    }
    forall t ensures SaysNothingOf(s, t) <==> !Validator.Has(checks, t) {
      assert forall i :: 0 <= i < |checks| ==> checks[i] in checks && s.conditions[i] in s.conditions;
    }
  }

  /** The contract is said to be valid, and the readiness gate to be met or not, if there is one: unmet because a
      deadline has passed or because the score is too low. */
  lemma ContractAndGateSay(generation: int, namespace: string, spec: PactoSpec, w: World, r: string)
    requires Acceptable(spec, w)
    ensures var s, e := ExpectedStatus(generation, namespace, spec, w, r), w.evaluate(Overridden(spec, w));
            && Says(s, ContractValid, true, if NoTarget(spec.target) then ReferenceOnly else ContractParsed, generation, w.now)
            && (e.None? <==> SaysNothingOf(s, ReadinessSatisfied))
            && (e.Some? ==> Says(s, ReadinessSatisfied, e.value.passing,
                                 if e.value.passing then GateSatisfied else if e.value.expired then Expired else BelowMinScore,
                                 generation, w.now))
  {
    ExpectedWhen(generation, namespace, spec, w, r);
    var c := Overridden(spec, w);
    ReadinessRun.TargetConditions(AcceptedStatus(c, generation, spec, w, r), c, generation, namespace, spec, w);
    ReadinessRun.AroundRanked(c, namespace, spec, w);
    var (first, rest) := ReadinessRun.Around(c, namespace, spec, w);
    GateAmong(ExpectedStatus(generation, namespace, spec, w, r), first, w.evaluate(c), rest, generation, w.now);
  }

  lemma GateAmong(s: Status, first: Check, e: Option<Evaluation>, rest: seq<Check>, generation: int, now: int)
    requires first.name == ContractValid && forall i :: 0 <= i < |rest| ==> Validator.Rank(rest[i].name) >= 2
    requires s.conditions == ConditionsOf([first] + Gate(e) + rest, generation, now)
    ensures Says(s, ContractValid, first.passed, first.reason, generation, now)
    ensures e.None? <==> SaysNothingOf(s, ReadinessSatisfied)
    ensures e.Some? ==> Says(s, ReadinessSatisfied, e.value.passing,
                             if e.value.passing then GateSatisfied else if e.value.expired then Expired else BelowMinScore,
                             generation, now)
  {
    var checks := [first] + Gate(e) + rest;
    ChecksAreConditions(checks, s, generation, now);
    assert first in checks;
    assert forall c :: c in checks ==> c == first || c in Gate(e) || c in rest;
    assert e.Some? ==> Gate(e)[0] in checks;
  }

  /** A contract without a target is a Reference: one check, passed, and nothing else is said. */
  lemma ReferenceSays(generation: int, namespace: string, spec: PactoSpec, w: World, r: string)
    requires Acceptable(spec, w) && NoTarget(spec.target)
    ensures var s := ExpectedStatus(generation, namespace, spec, w, r);
            && s.contractStatus == Reference && s.summary == Some(Summary(1, 1, 0)) && SaysNothingOfTarget(s)
            && |s.conditions| == 1 + if w.evaluate(Overridden(spec, w)).Some? then 1 else 0
  {
    ExpectedWhen(generation, namespace, spec, w, r);
  }

  /** When the target could not be read the status is Unknown, with one failed check and a condition that says why. */
  lemma UnobservedSays(generation: int, namespace: string, spec: PactoSpec, w: World, r: string)
    requires Acceptable(spec, w) && !NoTarget(spec.target) && w.snapshot.None?
    ensures var s := ExpectedStatus(generation, namespace, spec, w, r);
            && s.contractStatus == Unknown && s.summary == Some(Summary(1, 0, 1)) && SaysNothingOfTarget(s)
            && Says(s, RuntimeObserved, false, ObservationFailed, generation, w.now)
            && |s.conditions| == 2 + if w.evaluate(Overridden(spec, w)).Some? then 1 else 0
  {
    ExpectedWhen(generation, namespace, spec, w, r);
    var c := Overridden(spec, w);
    UnobservedConditions(AcceptedStatus(c, generation, spec, w, r), w.evaluate(c), generation, w.now);
  }

  lemma UnobservedConditions(s: Status, e: Option<Evaluation>, generation: int, now: int)
    ensures var s' := UnobservedStatus(s, e, generation, now);
            Says(s', RuntimeObserved, false, ObservationFailed, generation, now) && |s'.conditions| == 2 + if e.Some? then 1 else 0
  {
    var s' := UnobservedStatus(s, e, generation, now);
    assert s'.conditions[|s'.conditions| - 1] == Condition(RuntimeObserved, ConditionFalse, ObservationFailed, generation, now);
  }

  /** What is said of the target's service and workload. */
  predicate SaysResources(s: Status, target: TargetRef, snap: Snapshot) {
    && s.resources.Some?
    && s.resources.value.service ==
       (if target.serviceName == "" then None else Some(ResourceStatus(target.serviceName, "", snap.serviceExists)))
    && s.resources.value.workload ==
       match target.workloadRef
       case Some(ref) =>
         if ref.name == "" then None
         else Some(ResourceStatus(ref.name, if ref.kind == "" then "Deployment" else ref.kind, snap.workloadExists))
       case None =>
         if target.serviceName == "" then None else Some(ResourceStatus(target.serviceName, "Deployment", snap.workloadExists))
  }

  /** Ports are shown when some are declared or served, and the runtime when there is a workload. */
  ghost predicate SaysRuntime(s: Status, c: Contract, spec: PactoSpec, snap: Snapshot) {
    var ports := Validator.Validation(c, snap, spec.target.serviceName != "").ports;
    && s.ports == (if ports.expected == [] && ports.observed == [] then None else Some(ports))
    && s.observedRuntime == (if snap.workloadExists then Some(snap) else None)
  }

  ghost predicate SaysEndpoints(s: Status, c: Contract, namespace: string, spec: PactoSpec, snap: Snapshot, probe: Url -> ProbeResult) {
    var endpoints := ProbeAll(c, spec.target.serviceName, namespace, probe).1;
    s.endpoints == if snap.serviceExists && (endpoints.health.Some? || endpoints.metrics.Some?) then Some(endpoints) else None
  }

  /** An observed target: its service and workload by name, the ports, the workload as observed, and what the
      endpoints of an existing service answered. */
  lemma ObservedSays(generation: int, namespace: string, spec: PactoSpec, w: World, r: string)
    requires Acceptable(spec, w) && !NoTarget(spec.target) && w.snapshot.Some?
    ensures var s, c, snap := ExpectedStatus(generation, namespace, spec, w, r), Overridden(spec, w), w.snapshot.value;
            SaysResources(s, spec.target, snap) && SaysRuntime(s, c, spec, snap) && SaysEndpoints(s, c, namespace, spec, snap, w.probe)
  {
    ExpectedWhen(generation, namespace, spec, w, r);
    var c := Overridden(spec, w);
    TargetSays(AcceptedStatus(c, generation, spec, w, r), c, generation, namespace, spec, w);
  }

  lemma TargetSays(s: Status, c: Contract, generation: int, namespace: string, spec: PactoSpec, w: World)
    requires !NoTarget(spec.target) && w.snapshot.Some?
    ensures var s', snap := TargetStatus(s, c, generation, namespace, spec, w), w.snapshot.value;
            SaysResources(s', spec.target, snap) && SaysRuntime(s', c, spec, snap) && SaysEndpoints(s', c, namespace, spec, snap, w.probe)
  {
  }

  /** Every check that failed or passed is told by a condition, and nothing is told that was not checked. */
  lemma FindingsSay(generation: int, namespace: string, spec: PactoSpec, w: World, r: string, t: ConditionType)
    requires Acceptable(spec, w) && !NoTarget(spec.target) && w.snapshot.Some?
    requires t != ContractValid && t != ReadinessSatisfied
    ensures var s, c, snap := ExpectedStatus(generation, namespace, spec, w, r), Overridden(spec, w), w.snapshot.value;
            SaysNothingOf(s, t) <==>
            && !Validator.Checked(c, snap, spec.target.serviceName != "", t)
            && !(snap.serviceExists && Validator.Has(ProbeAll(c, spec.target.serviceName, namespace, w.probe).0, t))
  {
    var s, c, snap := ExpectedStatus(generation, namespace, spec, w, r), Overridden(spec, w), w.snapshot.value;
    StatusProperties.RuntimeShape(generation, namespace, spec, w, r);
    FindingsAmong(s, w.evaluate(c), Findings(c, namespace, spec, snap, w.probe), generation, w.now, t);
    FindingsHave(c, namespace, spec, snap, w.probe, t);
  }

  lemma FindingsAmong(s: Status, e: Option<Evaluation>, findings: seq<Check>, generation: int, now: int, t: ConditionType)
    requires s.conditions == ConditionsOf([VALID] + Gate(e) + findings, generation, now)
    requires t != ContractValid && t != ReadinessSatisfied
    ensures SaysNothingOf(s, t) <==> !Validator.Has(findings, t)
  {
    ChecksAreConditions([VALID] + Gate(e) + findings, s, generation, now);
    Validator.HasAppend([VALID] + Gate(e), findings, t);
    assert !Validator.Has([VALID] + Gate(e), t);
  }

  lemma FindingsHave(c: Contract, namespace: string, spec: PactoSpec, snap: Snapshot, probe: Url -> ProbeResult, t: ConditionType)
    ensures Validator.Has(Findings(c, namespace, spec, snap, probe), t) <==>
            || Validator.Checked(c, snap, spec.target.serviceName != "", t)
            || (snap.serviceExists && Validator.Has(ProbeAll(c, spec.target.serviceName, namespace, probe).0, t))
  {
    Validator.ValidationCovers(c, snap, spec.target.serviceName != "", t);
    Validator.HasAppend(Validated(c, spec, snap).checks, Probed(c, namespace, spec, snap, probe).0, t);
  }

  // ----- events -----

  /** The gate was unmet in the status that was read. */
  predicate WasUnmet(s: Status) {
    var c := FindCondition(s.conditions, ReadinessSatisfied);
    c.Some? && c.value.status == ConditionFalse
  }

  /** Which events a reconciliation records, each at most once: that the gate became unmet, or recovered, and that the
      target could not be read, even if the write fails; that the contract was rejected, or what it failed, only after
      the write. */
  lemma EventsSay(get: Get, w: World, e: Event)
    requires get.Read?
    ensures var final := ExpectedStatus(get.generation, get.namespace, get.spec, w, get.status.currentRevision);
            var accepted := Acceptable(get.spec, w);
            var gate := if w.load.Some? then w.evaluate(Overridden(get.spec, w)) else None;
            e in Emitted(get, w) <==>
            match e
            case GateUnmet => accepted && gate.Some? && !gate.value.passing && !WasUnmet(get.status)
            case GateRecovered => accepted && gate.Some? && gate.value.passing && WasUnmet(get.status)
            case ObservationImpossible => accepted && !NoTarget(get.spec.target) && w.snapshot.None?
            case ContractRejected => !accepted && w.writes
            case ValidationFailed(status, failed, total) =>
              && accepted && w.writes && final.contractStatus !in {Compliant, Reference}
              && status == final.contractStatus && final.summary.Some?
              && failed == final.summary.value.failed && total == final.summary.value.total
  {
    PhaseMeans(get.spec, w);
    if Acceptable(get.spec, w) {
      var final := ExpectedStatus(get.generation, get.namespace, get.spec, w, get.status.currentRevision);
      AcceptedEventsSay(Overridden(get.spec, w), get.spec, w, WasUnmet(get.status), final, e);
    }
  }

  lemma AcceptedEventsSay(c: Contract, spec: PactoSpec, w: World, wasUnmet: bool, final: Status, e: Event)
    ensures var gate := w.evaluate(c);
            e in AcceptedEvents(c, spec, w, wasUnmet, final) <==>
            match e
            case GateUnmet => gate.Some? && !gate.value.passing && !wasUnmet
            case GateRecovered => gate.Some? && gate.value.passing && wasUnmet
            case ObservationImpossible => !NoTarget(spec.target) && w.snapshot.None?
            case ContractRejected => false
            case ValidationFailed(status, failed, total) =>
              && w.writes && final.contractStatus !in {Compliant, Reference} && status == final.contractStatus
              && final.summary.Some? && failed == final.summary.value.failed && total == final.summary.value.total
  {
    var gate := GateEvents(w.evaluate(c), wasUnmet);
    var observed := if !spec.IsReference() && w.snapshot.None? then [ObservationImpossible] else [];
    var complaint := if w.writes then Complaint(final) else [];
    assert AcceptedEvents(c, spec, w, wasUnmet, final) == gate + observed + complaint;
    assert e in gate + observed + complaint <==> e in gate || e in observed || e in complaint;
  }

  lemma EventsDiffer(get: Get, w: World)
    requires get.Read?
    ensures forall i, j :: 0 <= i < j < |Emitted(get, w)| ==> Emitted(get, w)[i] != Emitted(get, w)[j]
  {
  }
}
