/** What the status persisted by a reconciliation means. */
module StatusProperties {
  import opened Wrappers
  import opened PactoTypes
  import opened PactoStatus
  import opened Reconcile
  import Validator

  /** Of the previous status only the revision can survive, and only when no revision was ensured. */
  lemma OnlyRevisionSurvives(generation: int, namespace: string, spec: PactoSpec, w: World, r: string, r': string)
    ensures var s, s' := ExpectedStatus(generation, namespace, spec, w, r), ExpectedStatus(generation, namespace, spec, w, r');
            && s.(currentRevision := "") == s'.(currentRevision := "")
            && (s == s' <==> r == r' || (Acceptable(spec, w) && w.revision.Some?))
  {
    var s, s' := ExpectedStatus(generation, namespace, spec, w, r), ExpectedStatus(generation, namespace, spec, w, r');
    RevisionOf(generation, namespace, spec, w, r);
    RevisionOf(generation, namespace, spec, w, r');
    match ContractPhase(spec, w)
    case Failure(j) =>
    case Success(c) =>
      var a, a' := AcceptedStatus(c, generation, spec, w, r), AcceptedStatus(c, generation, spec, w, r');
      TargetKeepsRevision(a, c, generation, namespace, spec, w, "");
      TargetKeepsRevision(a', c, generation, namespace, spec, w, "");
      assert a.(currentRevision := "") == a'.(currentRevision := "");
      TargetKeepsRevision(a, c, generation, namespace, spec, w, a'.currentRevision);
  }

  lemma TargetKeepsRevision(s: Status, c: Contract, generation: int, namespace: string, spec: PactoSpec, w: World, r: string)
    ensures TargetStatus(s.(currentRevision := r), c, generation, namespace, spec, w) ==
            TargetStatus(s, c, generation, namespace, spec, w).(currentRevision := r)
  {
  }

  lemma RevisionOf(generation: int, namespace: string, spec: PactoSpec, w: World, r: string)
    ensures ExpectedStatus(generation, namespace, spec, w, r).currentRevision ==
            if Acceptable(spec, w) && w.revision.Some? then w.revision.value else r
  {
    ExpectedWhen(generation, namespace, spec, w, r);
  }

  /** Every status write carries its clock reading, so two writes at different readings are never equal. */
  lemma EveryWriteStamps(generation: int, namespace: string, spec: PactoSpec, w: World, r: string)
    ensures ExpectedStatus(generation, namespace, spec, w, r).lastReconciledAt == Some(w.now)
  {
  }

  /** The contract is accepted, names a target, and the target was observed. */
  ghost predicate RuntimePath(spec: PactoSpec, w: World) {
    Acceptable(spec, w) && !spec.IsReference() && w.snapshot.Some?
  }

  function Evaluated(spec: PactoSpec, w: World): Option<Evaluation>
    requires w.load.Some?
  {
    w.evaluate(Overridden(spec, w))
  }

  function FindingsOf(namespace: string, spec: PactoSpec, w: World): seq<Check>
    requires RuntimePath(spec, w)
  {
    Findings(Overridden(spec, w), namespace, spec, w.snapshot.value, w.probe)
  }

  lemma RuntimeShape(generation: int, namespace: string, spec: PactoSpec, w: World, r: string)
    requires RuntimePath(spec, w)
    ensures var s := ExpectedStatus(generation, namespace, spec, w, r);
            var findings := FindingsOf(namespace, spec, w);
            && s.contractStatus == Gated(Validator.Verdict([VALID] + findings), GateFails(Evaluated(spec, w)))
            && s.summary == Some(Summarize([VALID] + findings))
            && s.conditions == ConditionsOf([VALID] + Gate(Evaluated(spec, w)) + findings, generation, w.now)
  {
    ExpectedWhen(generation, namespace, spec, w, r);
    TargetShape(AcceptedStatus(Overridden(spec, w), generation, spec, w, r), Overridden(spec, w), generation, namespace, spec, w);
  }

  lemma TargetShape(s: Status, c: Contract, generation: int, namespace: string, spec: PactoSpec, w: World)
    requires !spec.IsReference() && w.snapshot.Some?
    ensures var s' := TargetStatus(s, c, generation, namespace, spec, w);
            var findings := Findings(c, namespace, spec, w.snapshot.value, w.probe);
            && s'.contractStatus == Gated(Validator.Verdict([VALID] + findings), GateFails(w.evaluate(c)))
            && s'.summary == Some(Summarize([VALID] + findings))
            && s'.conditions == ConditionsOf([VALID] + Gate(w.evaluate(c)) + findings, generation, w.now)
  {
  }

  // ----- conservation -----

  ghost predicate DistinctTypes(conditions: seq<Condition>) {
    forall i, j :: 0 <= i < j < |conditions| ==> conditions[i].ctype != conditions[j].ctype
  }

  /** The failing conditions other than readiness. */
  function FailingConditions(conditions: seq<Condition>): seq<Condition> {
    if conditions == [] then []
    else
      var last := conditions[|conditions| - 1];
      FailingConditions(conditions[..|conditions| - 1])
      + if last.status == ConditionFalse && last.ctype != ReadinessSatisfied then [last] else []
  }

  lemma {:induction false} FailingAppend(a: seq<Condition>, b: seq<Condition>)
    ensures FailingConditions(a + b) == FailingConditions(a) + FailingConditions(b)
  {
    if b == [] {
      assert a + b == a;
    } else {
      assert (a + b)[..|a + b| - 1] == a + b[..|b| - 1];
      FailingAppend(a, b[..|b| - 1]);
    }
  }

  lemma {:induction false} FailingOfChecks(checks: seq<Check>, generation: int, now: int)
    requires forall c :: c in checks ==> c.name != ReadinessSatisfied
    ensures |FailingConditions(ConditionsOf(checks, generation, now))| == |Failures(checks)|
  {
    if checks != [] {
      var init := checks[..|checks| - 1];
      FailingOfChecks(init, generation, now);
      assert ConditionsOf(checks, generation, now)[..|checks| - 1] == ConditionsOf(init, generation, now);
    }
  }

  lemma FailingOfGate(e: Option<Evaluation>, generation: int, now: int)
    ensures FailingConditions(ConditionsOf([VALID] + Gate(e), generation, now)) == []
  {
    var conditions := ConditionsOf([VALID] + Gate(e), generation, now);
    assert conditions[..1] == ConditionsOf([VALID], generation, now);
    assert conditions[..1][..0] == [];
    assert FailingConditions(conditions[..1]) == [];
    if e.Some? {
      assert conditions[..|conditions| - 1] == conditions[..1];
    } else {
      assert conditions == conditions[..1];
    }
  }

  lemma FailuresAppend(a: seq<Check>, b: seq<Check>)
    ensures Failures(a + b) == Failures(a) + Failures(b)
  {
    if b == [] {
      assert a + b == a;
    } else {
      assert (a + b)[..|a + b| - 1] == a + b[..|b| - 1];
      FailuresAppend(a, b[..|b| - 1]);
    }
  }

  lemma SummaryOfFindings(findings: seq<Check>)
    ensures var s := Summarize([VALID] + findings);
            s.total == s.passed + s.failed == 1 + |findings| && s.failed == |Failures(findings)|
  {
    SummaryConserves([VALID] + findings);
    FailuresAppend([VALID], findings);
    assert [VALID][..0] == [];
  }

  lemma FailingOfFindings(e: Option<Evaluation>, findings: seq<Check>, generation: int, now: int)
    requires Validator.Ranked(findings, 2, 12)
    ensures |FailingConditions(ConditionsOf([VALID] + Gate(e) + findings, generation, now))| == |Failures(findings)|
  {
    ConditionsAppend([VALID] + Gate(e), findings, generation, now);
    FailingAppend(ConditionsOf([VALID] + Gate(e), generation, now), ConditionsOf(findings, generation, now));
    FailingOfGate(e, generation, now);
    FailingOfChecks(findings, generation, now);
  }

  lemma RankedDistinct(checks: seq<Check>, generation: int, now: int)
    requires Validator.Ranked(checks, 0, 12)
    ensures DistinctTypes(ConditionsOf(checks, generation, now))
  {
  }

  /** Nothing is lost or counted twice on the way from the checks to the status. */
  lemma RuntimeStatusConserves(generation: int, namespace: string, spec: PactoSpec, w: World, r: string)
    requires RuntimePath(spec, w)
    ensures var s := ExpectedStatus(generation, namespace, spec, w, r);
            && DistinctTypes(s.conditions)
            && s.summary.Some?
            && s.summary.value.total == s.summary.value.passed + s.summary.value.failed == 1 + |FindingsOf(namespace, spec, w)|
            && |s.conditions| == s.summary.value.total + (if Evaluated(spec, w).Some? then 1 else 0)
            && s.summary.value.failed == |FailingConditions(s.conditions)|
  {
    RuntimeShape(generation, namespace, spec, w, r);
    FindingsRanked(Overridden(spec, w), namespace, spec, w.snapshot.value, w.probe);
    var findings, e := FindingsOf(namespace, spec, w), Evaluated(spec, w);
    AllRanked(e, findings);
    RankedDistinct([VALID] + Gate(e) + findings, generation, w.now);
    SummaryOfFindings(findings);
    FailingOfFindings(e, findings, generation, w.now);
  }

  // ----- readiness and the contract status -----

  function WithoutReadiness(w: World): World {
    w.(evaluate := _ => None)
  }

  const AN_OBSERVATION := Snapshot(true, true, "Deployment", [], "", "", None, [], false, false, None)
  const A_CONTRACT := Contract(Service("api", "1.0.0", None), [], None, [])
  const A_SPEC := PactoSpec("", "inline", "", TargetRef("api", None), None, 0)

  /** A world in which everything but the readiness score is in order. */
  function ScoredWorld(passing: bool): World {
    World(true, false, Some(Loaded(A_CONTRACT, "")), _ => [], _ => [], _ => Some(Evaluation(passing, false, 1, 2)),
          None, Some(AN_OBSERVATION), _ => ProbeResult(false, 0, false), true, 0)
  }

  // ----- what each contract status means -----

  ghost predicate HealthAnswers(c: Contract, health: Health, namespace: string, spec: PactoSpec, probe: Url -> ProbeResult) {
    var port := InterfacePort(c.interfaces, health.interface);
    && HasInterface(c.interfaces, health.interface) && port.Some?
    && var result := probe(Url(spec.target.serviceName, namespace, port.value, health.path));
       result.reachable && 200 <= result.statusCode < 400
  }

  ghost predicate MetricsAnswer(c: Contract, metrics: Metrics, namespace: string, spec: PactoSpec, probe: Url -> ProbeResult) {
    var port := InterfacePort(c.interfaces, metrics.interface);
    && HasInterface(c.interfaces, metrics.interface) && port.Some?
    && var result := probe(Url(spec.target.serviceName, namespace, port.value, metrics.path));
       result.reachable && result.statusCode == 200 && result.contentPresent
  }

  /** Every declared endpoint has a port to probe and answers as it should. */
  ghost predicate EndpointsAnswer(c: Contract, namespace: string, spec: PactoSpec, probe: Url -> ProbeResult) {
    c.runtime.Some? ==>
      var health, metrics := c.runtime.value.health, c.runtime.value.metrics;
      && (health.Some? && health.value.interface != "" ==> HealthAnswers(c, health.value, namespace, spec, probe))
      && (metrics.Some? && metrics.value.interface != "" ==> MetricsAnswer(c, metrics.value, namespace, spec, probe))
  }

  lemma EndpointsPass(c: Contract, namespace: string, spec: PactoSpec, probe: Url -> ProbeResult)
    ensures Validator.AllPassed(ProbeAll(c, spec.target.serviceName, namespace, probe).0) <==> EndpointsAnswer(c, namespace, spec, probe)
  {
    if c.runtime.Some? {
      var health, metrics := c.runtime.value.health, c.runtime.value.metrics;
      var h := if health.Some? && health.value.interface != "" then
                 [ProbeOne(HealthEndpointValid, c.interfaces, health.value.interface, health.value.path, spec.target.serviceName, namespace, false, probe).0]
               else [];
      var m := if metrics.Some? && metrics.value.interface != "" then
                 [ProbeOne(MetricsEndpointValid, c.interfaces, metrics.value.interface, metrics.value.path, spec.target.serviceName, namespace, true, probe).0]
               else [];
      assert ProbeAll(c, spec.target.serviceName, namespace, probe).0 == h + m;
      Validator.AllPassedAppend(h, m);
    }
  }

  /** The target is as the contract says. */
  ghost predicate InOrder(namespace: string, spec: PactoSpec, w: World)
    requires RuntimePath(spec, w)
  {
    var c, snap := Overridden(spec, w), w.snapshot.value;
    && Validator.Aligned(c, snap, spec.target.serviceName != "")
    && (snap.serviceExists ==> EndpointsAnswer(c, namespace, spec, w.probe))
  }

  lemma FindingsPass(c: Contract, namespace: string, spec: PactoSpec, snap: Snapshot, probe: Url -> ProbeResult)
    ensures Validator.AllPassed(Findings(c, namespace, spec, snap, probe)) <==>
            && Validator.Aligned(c, snap, spec.target.serviceName != "")
            && (snap.serviceExists ==> EndpointsAnswer(c, namespace, spec, probe))
  {
    Validator.ValidationPasses(c, snap, spec.target.serviceName != "");
    EndpointsPass(c, namespace, spec, probe);
    Validator.AllPassedAppend(Validated(c, spec, snap).checks, Probed(c, namespace, spec, snap, probe).0);
  }

  lemma CompliantVerdict(findings: seq<Check>, gateFails: bool)
    ensures Gated(Validator.Verdict([VALID] + findings), gateFails) == Compliant <==> Validator.AllPassed(findings) && !gateFails
  {
    Validator.AllPassedAppend([VALID], findings);
  }

  /** Compliant means: accepted, targeted, observed, in order, and not held back by readiness. */
  lemma CompliantMeans(generation: int, namespace: string, spec: PactoSpec, w: World, r: string)
    ensures ExpectedStatus(generation, namespace, spec, w, r).contractStatus == Compliant <==>
            RuntimePath(spec, w) && InOrder(namespace, spec, w) && !GateFails(Evaluated(spec, w))
  {
    if RuntimePath(spec, w) {
      RuntimeShape(generation, namespace, spec, w, r);
      FindingsPass(Overridden(spec, w), namespace, spec, w.snapshot.value, w.probe);
      CompliantVerdict(FindingsOf(namespace, spec, w), GateFails(Evaluated(spec, w)));
    } else {
      UndecidedMeans(generation, namespace, spec, w, r);
    }
  }

  /** Readiness leaves the contract status alone except on the runtime path, where an unmet gate turns a target
      that is all in order from Compliant to Warning. */
  lemma ReadinessOnlyGates(generation: int, namespace: string, spec: PactoSpec, w: World, r: string)
    ensures var s, s' := ExpectedStatus(generation, namespace, spec, w, r),
                         ExpectedStatus(generation, namespace, spec, WithoutReadiness(w), r);
            var gated := RuntimePath(spec, w) && GateFails(Evaluated(spec, w)) && InOrder(namespace, spec, w);
            && (s.contractStatus == s'.contractStatus <==> !gated)
            && (gated ==> s'.contractStatus == Compliant && s.contractStatus == Warning)
            && s.summary == s'.summary
  {
    ReadinessApart(spec, w);
    ExpectedWhen(generation, namespace, spec, w, r);
    ExpectedWhen(generation, namespace, spec, WithoutReadiness(w), r);
    if RuntimePath(spec, w) {
      RuntimeShape(generation, namespace, spec, w, r);
      RuntimeShape(generation, namespace, spec, WithoutReadiness(w), r);
      CompliantMeans(generation, namespace, spec, WithoutReadiness(w), r);
    }
  }

  lemma ReadinessApart(spec: PactoSpec, w: World)
    ensures ContractPhase(spec, WithoutReadiness(w)) == ContractPhase(spec, w)
    ensures Acceptable(spec, WithoutReadiness(w)) <==> Acceptable(spec, w)
    ensures w.load.Some? ==> Overridden(spec, WithoutReadiness(w)) == Overridden(spec, w)
  {
  }

  lemma ScoredInOrder(passing: bool)
    ensures var w := ScoredWorld(passing);
            RuntimePath(A_SPEC, w) && InOrder("ns", A_SPEC, w) && (GateFails(Evaluated(A_SPEC, w)) <==> !passing)
  {
    assert Overridden(A_SPEC, ScoredWorld(passing)) == A_CONTRACT;
  }

  /** A score below the threshold does change the contract status. */
  lemma ReadinessChangesStatus()
    ensures ExpectedStatus(1, "ns", A_SPEC, ScoredWorld(true), "").contractStatus == Compliant
    ensures ExpectedStatus(1, "ns", A_SPEC, ScoredWorld(false), "").contractStatus == Warning
  {
    ScoredInOrder(true);
    ScoredInOrder(false);
    CompliantMeans(1, "ns", A_SPEC, ScoredWorld(true), "");
    ReadinessOnlyGates(1, "ns", A_SPEC, ScoredWorld(false), "");
  }

  /** NonCompliant means: rejected, or the service or the workload is missing. */
  lemma NonCompliantMeans(generation: int, namespace: string, spec: PactoSpec, w: World, r: string)
    ensures ExpectedStatus(generation, namespace, spec, w, r).contractStatus == NonCompliant <==>
            || !Acceptable(spec, w)
            || (RuntimePath(spec, w) &&
                (!w.snapshot.value.workloadExists || (spec.target.serviceName != "" && !w.snapshot.value.serviceExists)))
  {
    if RuntimePath(spec, w) {
      var c, snap := Overridden(spec, w), w.snapshot.value;
      RuntimeShape(generation, namespace, spec, w, r);
      ResourceFindings(c, namespace, spec, snap, w.probe);
      NonCompliantVerdict(FindingsOf(namespace, spec, w), GateFails(Evaluated(spec, w)));
    } else {
      UndecidedMeans(generation, namespace, spec, w, r);
    }
  }

  lemma NonCompliantVerdict(findings: seq<Check>, gateFails: bool)
    ensures Gated(Validator.Verdict([VALID] + findings), gateFails) == NonCompliant <==> Validator.ResourceFails(findings)
  {
    ResourceFailsAppend([VALID], findings);
  }

  lemma ResourceFailsAppend(a: seq<Check>, b: seq<Check>)
    ensures Validator.ResourceFails(a + b) <==> Validator.ResourceFails(a) || Validator.ResourceFails(b)
  {
    assert forall c :: c in a + b <==> c in a || c in b;
  }

  lemma NoResourceFails(checks: seq<Check>, low: int, high: int)
    requires Validator.Ranked(checks, low, high) && 3 < low
    ensures !Validator.ResourceFails(checks)
  {
    forall c | c in checks ensures !Validator.IsResource(c.name) {
      var i :| 0 <= i < |checks| && checks[i] == c;
    }
  }

  lemma TargetFails(c: Contract, snap: Snapshot, hasService: bool)
    ensures Validator.ResourceFails(Validator.TargetChecks(c, snap, hasService)) <==> !snap.workloadExists || (hasService && !snap.serviceExists)
  {
    var service := Validator.Given(hasService, Validator.CheckServiceExists(snap));
    var workload := [Validator.CheckWorkloadExists(snap)];
    ResourceFailsAppend(service, workload);
    ResourceFailsAppend(service + workload, Validator.Given(hasService && snap.serviceExists, Validator.PortsCheck(c, snap)));
    assert workload[0] in workload;
    assert hasService ==> service[0] in service;
  }

  lemma ResourceFindings(c: Contract, namespace: string, spec: PactoSpec, snap: Snapshot, probe: Url -> ProbeResult)
    ensures Validator.ResourceFails(Findings(c, namespace, spec, snap, probe)) <==>
            !snap.workloadExists || (spec.target.serviceName != "" && !snap.serviceExists)
  {
    var hasService := spec.target.serviceName != "";
    var runtime, probed := Validator.RuntimeChecks(c, snap), Probed(c, namespace, spec, snap, probe).0;
    Validator.RuntimeRanked(c, snap);
    NoResourceFails(runtime, 5, 10);
    FindingsRanked(c, namespace, spec, snap, probe);
    NoResourceFails(probed, 11, 12);
    TargetFails(c, snap, hasService);
    ResourceFailsAppend(Validator.TargetChecks(c, snap, hasService), runtime);
    ResourceFailsAppend(Validated(c, spec, snap).checks, probed);
  }

  lemma TargetDecides(s: Status, c: Contract, generation: int, namespace: string, spec: PactoSpec, w: World)
    ensures var status := TargetStatus(s, c, generation, namespace, spec, w).contractStatus;
            if spec.IsReference() then status == Reference
            else if w.snapshot.None? then status == Unknown
            else status in {Compliant, Warning, NonCompliant}
  {
  }

  // ----- the documented severity rule -----

  /** Error severity shows: such a mismatch, while the service that is asked for exists. */
  ghost predicate SeverityIgnored(spec: PactoSpec, w: World)
    requires RuntimePath(spec, w)
  {
    Validator.ErrorMismatch(Overridden(spec, w), w.snapshot.value)
    && (spec.target.serviceName == "" || w.snapshot.value.serviceExists)
  }

  lemma EndpointErrors(c: Contract, namespace: string, spec: PactoSpec, snap: Snapshot, probe: Url -> ProbeResult)
    ensures !Validator.ErrorFails(Probed(c, namespace, spec, snap, probe).0)
  {
  }

  /** The contract status is the documented one, gate apart, exactly when no error-severity mismatch of an
      existing target is at hand. */
  lemma DocumentedStatus(generation: int, namespace: string, spec: PactoSpec, w: World, r: string)
    requires RuntimePath(spec, w)
    ensures ExpectedStatus(generation, namespace, spec, w, r).contractStatus ==
            Gated(Validator.DocumentedVerdict([VALID] + FindingsOf(namespace, spec, w)), GateFails(Evaluated(spec, w)))
            <==> !SeverityIgnored(spec, w)
  {
    var c, snap := Overridden(spec, w), w.snapshot.value;
    var findings := FindingsOf(namespace, spec, w);
    RuntimeShape(generation, namespace, spec, w, r);
    Validator.DocumentedVerdictAgrees([VALID] + findings);
    FindingErrors(c, namespace, spec, snap, w.probe);
    Validator.ErrorFailsAppend([VALID], findings);
    ResourceFindings(c, namespace, spec, snap, w.probe);
    ResourceFailsAppend([VALID], findings);
  }

  lemma FindingErrors(c: Contract, namespace: string, spec: PactoSpec, snap: Snapshot, probe: Url -> ProbeResult)
    ensures Validator.ErrorFails(Findings(c, namespace, spec, snap, probe)) <==> Validator.ErrorMismatch(c, snap)
  {
    Validator.ValidationErrors(c, snap, spec.target.serviceName != "");
    EndpointErrors(c, namespace, spec, snap, probe);
    Validator.ErrorFailsAppend(Validated(c, spec, snap).checks, Probed(c, namespace, spec, snap, probe).0);
  }

  /** A job contract, and a Deployment in its place. */
  const A_JOB := A_CONTRACT.(runtime := Some(Runtime("job", "", "", None, None, None)))

  function JobWorld(): World {
    World(true, false, Some(Loaded(A_JOB, "")), _ => [], _ => [], _ => None, None, Some(AN_OBSERVATION),
          _ => ProbeResult(false, 0, false), true, 0)
  }

  lemma JobPath()
    ensures ContractPhase(A_SPEC, JobWorld()) == Success(A_JOB) && RuntimePath(A_SPEC, JobWorld())
    ensures Validator.ErrorMismatch(A_JOB, AN_OBSERVATION)
  {
  }

  lemma ErrorsAloneWarn(checks: seq<Check>)
    requires Validator.ErrorFails(checks) && !Validator.ResourceFails(checks)
    ensures Validator.Verdict([VALID] + checks) == Warning
  {
    ResourceFailsAppend([VALID], checks);
    Validator.ErrorFailsAppend([VALID], checks);
  }

  /** A workload of the wrong kind has error severity, and the status is Warning all the same. */
  lemma WrongKindOnlyWarns()
    ensures RuntimePath(A_SPEC, JobWorld()) && Validator.ErrorFails(FindingsOf("ns", A_SPEC, JobWorld()))
    ensures ExpectedStatus(1, "ns", A_SPEC, JobWorld(), "").contractStatus == Warning
  {
    var w := JobWorld();
    JobPath();
    FindingErrors(A_JOB, "ns", A_SPEC, AN_OBSERVATION, w.probe);
    ResourceFindings(A_JOB, "ns", A_SPEC, AN_OBSERVATION, w.probe);
    ErrorsAloneWarn(FindingsOf("ns", A_SPEC, w));
    RuntimeShape(1, "ns", A_SPEC, w, "");
  }

  /** The two statuses that no check decides. */
  lemma UndecidedMeans(generation: int, namespace: string, spec: PactoSpec, w: World, r: string)
    ensures var status := ExpectedStatus(generation, namespace, spec, w, r).contractStatus;
            && (status == Reference <==> Acceptable(spec, w) && spec.IsReference())
            && (status == Unknown <==> Acceptable(spec, w) && !spec.IsReference() && w.snapshot.None?)
            && (!Acceptable(spec, w) ==> status == NonCompliant)
            && status != Unset
  {
    ExpectedWhen(generation, namespace, spec, w, r);
    if Acceptable(spec, w) {
      var c := Overridden(spec, w);
      TargetDecides(AcceptedStatus(c, generation, spec, w, r), c, generation, namespace, spec, w);
    }
  }

  function Badness(status: ContractStatus): int {
    match status
    case NonCompliant => 2
    case Warning => 1
    case _ => 0
  }

  /** What the loop of computeContractStatus comes to (`Validator.ComputeContractStatus`): more failed checks never give a better status, with or without an unmet gate. */
  lemma FailuresNeverHelp(checks: seq<Check>, more: seq<Check>, gateFails: bool)
    requires forall c :: c in checks && !c.passed ==> c in more
    ensures Badness(Gated(Validator.Verdict(checks), gateFails)) <= Badness(Gated(Validator.Verdict(more), gateFails))
  {
  }

  /** And of its silence on severity: a check that fails with error severity still only warns, unless it is about the service or workload. */
  lemma ErrorSeverityOnlyWarns(checks: seq<Check>, failed: Check)
    requires Validator.AllPassed(checks) && !failed.passed && !Validator.IsResource(failed.name)
    ensures Validator.Verdict(checks + [failed]) == Warning
  {
    assert (checks + [failed])[|checks|] == failed;
    assert forall c :: c in checks + [failed] <==> c in checks || c == failed;
  }
}
