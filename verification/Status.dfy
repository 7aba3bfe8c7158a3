/** The status of a Pacto and the helpers that mutate it (internal/controller/pacto_controller.go).
    Messages are left out; a reconcile reads the clock once. */
module PactoStatus {
  import opened Wrappers
  import opened PactoTypes
  import Validator

  datatype ConditionStatus = ConditionTrue | ConditionFalse | ConditionUnknown

  datatype Condition = Condition(
    ctype: ConditionType, status: ConditionStatus, reason: Reason, observedGeneration: int, lastTransition: int)

  datatype Summary = Summary(total: int, passed: int, failed: int)

  datatype Issue = Issue(code: string, path: string)

  datatype ValidationIssues = ValidationIssues(valid: bool, errors: seq<Issue>, warnings: seq<Issue>)

  datatype ResolutionPolicy = NoPolicy | Latest | PinnedTag | PinnedDigest

  datatype ResourceStatus = ResourceStatus(name: string, kind: string, present: bool)

  datatype Resources = Resources(service: Option<ResourceStatus>, workload: Option<ResourceStatus>)

  datatype Url = Url(service: string, namespace: string, port: int, path: string)

  datatype ProbeResult = ProbeResult(reachable: bool, statusCode: int, contentPresent: bool)

  datatype EndpointResult = EndpointResult(url: Url, result: ProbeResult)

  datatype Endpoints = Endpoints(health: Option<EndpointResult>, metrics: Option<EndpointResult>)

  /** The contract block of the status: what is copied out of the effective contract. */
  datatype ContractInfo = ContractInfo(contract: Contract, resolvedRef: string)

  datatype ConfigurationInfo = ConfigurationInfo(name: string, overriddenKeys: set<string>)

  /** The result of evaluating declared readiness; further figures are carried along unread. */
  datatype Evaluation = Evaluation(passing: bool, expired: bool, score: int, minScore: int)

  datatype Status = Status(
    contractStatus: ContractStatus,
    resolutionPolicy: ResolutionPolicy,
    summary: Option<Summary>,
    contractVersion: string,
    contract: Option<ContractInfo>,
    validation: Option<ValidationIssues>,
    resources: Option<Resources>,
    ports: Option<Validator.PortsResult>,
    endpoints: Option<Endpoints>,
    configurations: seq<ConfigurationInfo>,
    observedRuntime: Option<Snapshot>,
    readiness: Option<Evaluation>,
    conditions: seq<Condition>,
    currentRevision: string,
    lastReconciledAt: Option<int>,
    observedGeneration: int)

  // ----- conditions -----

  /** meta.FindStatusCondition: the first condition of a type. */
  function FindCondition(conditions: seq<Condition>, t: ConditionType): (c: Option<Condition>)
    ensures c.Some? ==> c.value in conditions && c.value.ctype == t
    ensures c.None? ==> forall d :: d in conditions ==> d.ctype != t
  {
    if conditions == [] then None
    else if conditions[0].ctype == t then Some(conditions[0])
    else FindCondition(conditions[1..], t)
  }

  /** meta.SetStatusCondition: adds a condition, or updates the one of its type in place. */
  function SetConditionIn(conditions: seq<Condition>, c: Condition): seq<Condition> {
    if conditions == [] then [c]
    else if conditions[0].ctype == c.ctype then
      [c.(lastTransition := if conditions[0].status == c.status then conditions[0].lastTransition else c.lastTransition)]
      + conditions[1..]
    else [conditions[0]] + SetConditionIn(conditions[1..], c)
  }

  lemma {:induction false} SetNewCondition(conditions: seq<Condition>, c: Condition)
    requires forall d :: d in conditions ==> d.ctype != c.ctype
    ensures SetConditionIn(conditions, c) == conditions + [c]
  {
    if conditions != [] {
      SetNewCondition(conditions[1..], c);
      assert conditions + [c] == [conditions[0]] + (conditions[1..] + [c]);
    }
  }

  /** Afterwards the condition of its type is the one that was set, with the time of the last change of status; the
      conditions of other types are as they were. */
  lemma {:induction false} ConditionIsSet(conditions: seq<Condition>, c: Condition, t: ConditionType)
    ensures var was, now := FindCondition(conditions, t), FindCondition(SetConditionIn(conditions, c), t);
            if t != c.ctype then now == was
            else if was.Some? && was.value.status == c.status then now == Some(c.(lastTransition := was.value.lastTransition))
            else now == Some(c)
    ensures |SetConditionIn(conditions, c)| == |conditions| + if FindCondition(conditions, c.ctype).None? then 1 else 0
  {
    if conditions != [] && conditions[0].ctype != c.ctype {
      ConditionIsSet(conditions[1..], c, t);
      ConditionIsSet(conditions[1..], c, c.ctype);
    }
  }

  function ConditionOf(check: Check, generation: int, now: int): Condition {
    Condition(check.name, if check.passed then ConditionTrue else ConditionFalse, check.reason, generation, now)
  }

  /** The conditions of a list of checks, one each. */
  function ConditionsOf(checks: seq<Check>, generation: int, now: int): (r: seq<Condition>)
    ensures |r| == |checks| && forall i :: 0 <= i < |r| ==> r[i] == ConditionOf(checks[i], generation, now)
  {
    seq(|checks|, i requires 0 <= i < |checks| => ConditionOf(checks[i], generation, now))
  }

  /** Sets the conditions of checks one after another. */
  function SetConditions(conditions: seq<Condition>, checks: seq<Check>, generation: int, now: int): seq<Condition> {
    if checks == [] then conditions
    else SetConditionIn(SetConditions(conditions, checks[..|checks| - 1], generation, now),
                        ConditionOf(checks[|checks| - 1], generation, now))
  }

  /** Checks of new, distinct types each add one condition. */
  lemma {:induction false} SetNewConditions(conditions: seq<Condition>, checks: seq<Check>, generation: int, now: int)
    requires Validator.DistinctNames(checks)
    requires forall d, c :: d in conditions && c in checks ==> d.ctype != c.name
    ensures SetConditions(conditions, checks, generation, now) == conditions + ConditionsOf(checks, generation, now)
  {
    if checks != [] {
      var init := checks[..|checks| - 1];
      SetNewConditions(conditions, init, generation, now);
      SetNewCondition(conditions + ConditionsOf(init, generation, now), ConditionOf(checks[|checks| - 1], generation, now));
      assert ConditionsOf(checks, generation, now) ==
             ConditionsOf(init, generation, now) + [ConditionOf(checks[|checks| - 1], generation, now)];
    }
  }

  // ----- summaries -----

  function Counted(s: Summary, check: Check): Summary {
    Summary(s.total + 1, if check.passed then s.passed + 1 else s.passed, if check.passed then s.failed else s.failed + 1)
  }

  function Count(s: Summary, checks: seq<Check>): Summary {
    if checks == [] then s else Counted(Count(s, checks[..|checks| - 1]), checks[|checks| - 1])
  }

  function Summarize(checks: seq<Check>): Summary {
    Count(Summary(0, 0, 0), checks)
  }

  lemma {:induction false} CountAppend(s: Summary, a: seq<Check>, b: seq<Check>)
    ensures Count(s, a + b) == Count(Count(s, a), b)
  {
    if b == [] {
      assert a + b == a;
    } else {
      assert (a + b)[..|a + b| - 1] == a + b[..|b| - 1];
      CountAppend(s, a, b[..|b| - 1]);
    }
  }

  /** Nothing is lost: total is passed plus failed and the number of checks, and failed counts the failures. */
  lemma {:induction false} SummaryConserves(checks: seq<Check>)
    ensures var s := Summarize(checks);
            && s.total == s.passed + s.failed == |checks|
            && s.failed == |Failures(checks)|
  {
    if checks != [] {
      SummaryConserves(checks[..|checks| - 1]);
    }
  }

  function Failures(checks: seq<Check>): seq<Check> {
    if checks == [] then []
    else Failures(checks[..|checks| - 1]) + if checks[|checks| - 1].passed then [] else [checks[|checks| - 1]]
  }

  // ----- the verdict on conditions -----

  /** computeFinalContractStatus, over every condition whatever its type. */
  function ConditionsVerdict(conditions: seq<Condition>): ContractStatus {
    if exists c :: c in conditions && c.status != ConditionTrue && Validator.IsResource(c.ctype) then NonCompliant
    else if exists c :: c in conditions && c.status != ConditionTrue then Warning
    else Compliant
  }

  // ----- endpoints -----

  predicate HasInterface(interfaces: seq<Interface>, name: string) {
    exists i :: i in interfaces && i.name == name
  }

  /** The port of the last interface of this name that has one. */
  function InterfacePort(interfaces: seq<Interface>, name: string): Option<int> {
    if interfaces == [] then None
    else
      var last := interfaces[|interfaces| - 1];
      if last.name == name && last.port.Some? then Some(Int32(last.port.value))
      else InterfacePort(interfaces[..|interfaces| - 1], name)
  }

  /** The last interface of a name that has a port decides, and without one there is no port. */
  lemma {:induction false} LastPortDecides(interfaces: seq<Interface>, name: string, k: nat)
    requires k < |interfaces| && interfaces[k].name == name && interfaces[k].port.Some?
    requires forall j :: k < j < |interfaces| ==> !(interfaces[j].name == name && interfaces[j].port.Some?)
    ensures InterfacePort(interfaces, name) == Some(Int32(interfaces[k].port.value))
  {
    if k < |interfaces| - 1 {
      LastPortDecides(interfaces[..|interfaces| - 1], name, k);
    }
  }

  lemma {:induction false} NoPort(interfaces: seq<Interface>, name: string)
    requires forall j :: 0 <= j < |interfaces| ==> !(interfaces[j].name == name && interfaces[j].port.Some?)
    ensures InterfacePort(interfaces, name) == None
  {
    if interfaces != [] {
      NoPort(interfaces[..|interfaces| - 1], name);
    }
  }

  function EvaluateProbe(t: ConditionType, result: ProbeResult, requireBody: bool): Check {
    if !result.reachable then Check(t, false, EndpointConnectionError, NoSeverity)
    else if requireBody then
      if result.statusCode != 200 then Check(t, false, EndpointInvalidStatus, NoSeverity)
      else if !result.contentPresent then Check(t, false, EndpointEmptyResponse, NoSeverity)
      else Check(t, true, EndpointOK, NoSeverity)
    else if result.statusCode < 200 || result.statusCode >= 400 then Check(t, false, EndpointInvalidStatus, NoSeverity)
    else Check(t, true, EndpointOK, NoSeverity)
  }

  /** One declared endpoint: its check, and its result if it was probed at all. */
  function ProbeOne(t: ConditionType, interfaces: seq<Interface>, interface: string, path: string,
                    service: string, namespace: string, requireBody: bool, probe: Url -> ProbeResult)
      : (r: (Check, Option<EndpointResult>))
    ensures r.0.name == t
  {
    if !HasInterface(interfaces, interface) then (Check(t, false, EndpointInterfaceMissing, NoSeverity), None)
    else
      match InterfacePort(interfaces, interface)
      case None => (Check(t, false, EndpointNoPort, NoSeverity), None)
      case Some(port) =>
        var url := Url(service, namespace, port, path);
        (EvaluateProbe(t, probe(url), requireBody), Some(EndpointResult(url, probe(url))))
  }

  /** Both declared endpoints of a contract, in probing order. */
  function ProbeAll(c: Contract, service: string, namespace: string, probe: Url -> ProbeResult): (seq<Check>, Endpoints) {
    if c.runtime.None? then ([], Endpoints(None, None))
    else
      var health := c.runtime.value.health;
      var metrics := c.runtime.value.metrics;
      var h := if health.Some? && health.value.interface != "" then
                 Some(ProbeOne(HealthEndpointValid, c.interfaces, health.value.interface, health.value.path, service, namespace, false, probe))
               else None;
      var m := if metrics.Some? && metrics.value.interface != "" then
                 Some(ProbeOne(MetricsEndpointValid, c.interfaces, metrics.value.interface, metrics.value.path, service, namespace, true, probe))
               else None;
      ((if h.Some? then [h.value.0] else []) + (if m.Some? then [m.value.0] else []),
       Endpoints(if h.Some? then h.value.1 else None, if m.Some? then m.value.1 else None))
  }

  /** What is said of an endpoint: that its interface is missing or has no port, that it could not be reached, that
      the answer was not the one required, or that it was empty where content is required. */
  lemma ProbeReasons(t: ConditionType, interfaces: seq<Interface>, interface: string, path: string,
                     service: string, namespace: string, requireBody: bool, probe: Url -> ProbeResult)
    ensures var (check, result) := ProbeOne(t, interfaces, interface, path, service, namespace, requireBody, probe);
            var port := InterfacePort(interfaces, interface);
            if !HasInterface(interfaces, interface) then check.reason == EndpointInterfaceMissing && result == None
            else if port.None? then check.reason == EndpointNoPort && result == None
            else
              var url := Url(service, namespace, port.value, path);
              var answer := probe(url);
              var required := if requireBody then answer.statusCode == 200 else 200 <= answer.statusCode < 400;
              && result == Some(EndpointResult(url, answer))
              && check.reason ==
                 if !answer.reachable then EndpointConnectionError
                 else if !required then EndpointInvalidStatus
                 else if requireBody && !answer.contentPresent then EndpointEmptyResponse
                 else EndpointOK
  {
  }

  /** The declared endpoints are probed, each with its own check and, if it has an address, its own result. */
  lemma ProbesCover(c: Contract, service: string, namespace: string, probe: Url -> ProbeResult)
    ensures var (checks, endpoints) := ProbeAll(c, service, namespace, probe);
            var health := c.runtime.Some? && c.runtime.value.health.Some? && c.runtime.value.health.value.interface != "";
            var metrics := c.runtime.Some? && c.runtime.value.metrics.Some? && c.runtime.value.metrics.value.interface != "";
            && (Validator.Has(checks, HealthEndpointValid) <==> health) && (Validator.Has(checks, MetricsEndpointValid) <==> metrics)
            && |checks| == (if health then 1 else 0) + (if metrics then 1 else 0)
            && (endpoints.health.Some? <==> health && InterfacePort(c.interfaces, c.runtime.value.health.value.interface).Some?
                                            && HasInterface(c.interfaces, c.runtime.value.health.value.interface))
            && (endpoints.metrics.Some? <==> metrics && InterfacePort(c.interfaces, c.runtime.value.metrics.value.interface).Some?
                                             && HasInterface(c.interfaces, c.runtime.value.metrics.value.interface))
  {
    var checks := ProbeAll(c, service, namespace, probe).0;
    assert forall i :: 0 <= i < |checks| ==> checks[i] in checks;
  }

  lemma EndpointChecksRanked(c: Contract, service: string, namespace: string, probe: Url -> ProbeResult)
    ensures Validator.Ranked(ProbeAll(c, service, namespace, probe).0, 11, 12)
  {
  }

  // ----- the mutable resource -----

  function AppliedCheck(s: Status, check: Check, generation: int, now: int): Status {
    s.(conditions := SetConditionIn(s.conditions, ConditionOf(check, generation, now)),
       summary := Some(Counted(if s.summary.Some? then s.summary.value else Summary(0, 0, 0), check)))
  }

  function AppliedChecks(s: Status, checks: seq<Check>, generation: int, now: int): Status {
    if checks == [] then s
    else AppliedCheck(AppliedChecks(s, checks[..|checks| - 1], generation, now), checks[|checks| - 1], generation, now)
  }

  lemma AppliedOneMore(s: Status, checks: seq<Check>, check: Check, generation: int, now: int)
    ensures AppliedChecks(s, checks + [check], generation, now) ==
            AppliedCheck(AppliedChecks(s, checks, generation, now), check, generation, now)
  {
    assert (checks + [check])[..|checks|] == checks;
  }

  /** Counting starts from nothing when there is no summary yet. */
  lemma AppliedToNothing(s: Status, check: Check, generation: int, now: int)
    requires s.summary.None?
    ensures AppliedCheck(s, check, generation, now).summary == Some(if check.passed then Summary(1, 1, 0) else Summary(1, 0, 1))
  {
  }

  lemma {:induction false} AppliedChecksAre(s: Status, checks: seq<Check>, generation: int, now: int)
    requires s.summary.Some?
    ensures AppliedChecks(s, checks, generation, now) ==
            s.(conditions := SetConditions(s.conditions, checks, generation, now), summary := Some(Count(s.summary.value, checks)))
  {
    if checks != [] {
      AppliedChecksAre(s, checks[..|checks| - 1], generation, now);
    }
  }

  function WithEndpoints(s: Status, e: Endpoints): Status {
    if e.health.Some? || e.metrics.Some? then s.(endpoints := Some(e)) else s
  }

  function Reset(s: Status): Status {
    Status(Unset, NoPolicy, None, "", None, None, None, None, None, [], None, None, [],
           s.currentRevision, s.lastReconciledAt, s.observedGeneration)
  }

  function TargetResources(spec: PactoSpec, snap: Snapshot): Resources {
    var (name, kind) := spec.ResolvedWorkload();
    Resources(
      if spec.target.serviceName == "" then None else Some(ResourceStatus(spec.target.serviceName, "", snap.serviceExists)),
      if name == "" then None else Some(ResourceStatus(name, kind, snap.workloadExists)))
  }

  function PortsShown(p: Validator.PortsResult): Option<Validator.PortsResult> {
    if |p.expected| > 0 || |p.observed| > 0 then Some(p) else None
  }

  function AppliedValidation(s: Status, spec: PactoSpec, result: Validator.ValidationResult, snap: Snapshot,
                             generation: int, now: int): Status {
    s.(resources := Some(TargetResources(spec, snap)),
       ports := if PortsShown(result.ports).Some? then PortsShown(result.ports) else s.ports,
       conditions := SetConditions(s.conditions, result.checks, generation, now),
       summary := Some(Count(Summary(1, 1, 0), result.checks)))
  }

  class Pacto {
    const generation: int
    const namespace: string
    const spec: PactoSpec
    var status: Status

    constructor (generation: int, namespace: string, spec: PactoSpec, status: Status)
      ensures this.generation == generation && this.namespace == namespace && this.spec == spec && this.status == status
    {
      this.generation, this.namespace, this.spec, this.status := generation, namespace, spec, status;
    }

    method ResetDerivedStatus()
      modifies this
      ensures status == Reset(old(status))
    {
      status := status.(contractStatus := Unset, resolutionPolicy := NoPolicy, summary := None, contractVersion := "");
      status := status.(contract := None, validation := None, resources := None, ports := None, endpoints := None);
      status := status.(configurations := [], observedRuntime := None, readiness := None, conditions := []);
    }

    method SetCondition(t: ConditionType, value: ConditionStatus, reason: Reason, now: int)
      modifies this
      ensures status == old(status).(conditions := SetConditionIn(old(status).conditions, Condition(t, value, reason, generation, now)))
    {
      status := status.(conditions := SetConditionIn(status.conditions, Condition(t, value, reason, generation, now)));
    }

    /** applyValidationResult: resources, ports, one condition per check, and the summary. */
    method ApplyValidationResult(result: Validator.ValidationResult, snap: Snapshot, now: int)
      modifies this
      ensures status == AppliedValidation(old(status), spec, result, snap, generation, now)
    {
      var (workloadName, workloadKind) := spec.ResolvedWorkload();
      var resources := Resources(None, None);
      if spec.target.serviceName != "" {
        resources := resources.(service := Some(ResourceStatus(spec.target.serviceName, "", snap.serviceExists)));
      }
      if workloadName != "" {
        resources := resources.(workload := Some(ResourceStatus(workloadName, workloadKind, snap.workloadExists)));
      }
      status := status.(resources := Some(resources));
      if |result.ports.expected| > 0 || |result.ports.observed| > 0 {
        status := status.(ports := Some(result.ports));
      }
      SetConditionsFor(result.checks, now);
      var summary := SummaryOf(result.checks);
      status := status.(summary := Some(summary));
    }

    /** One condition per check. */
    method SetConditionsFor(checks: seq<Check>, now: int)
      modifies this
      ensures status == old(status).(conditions := SetConditions(old(status).conditions, checks, generation, now))
    {
      for i := 0 to |checks|
        invariant status == old(status).(conditions := SetConditions(old(status).conditions, checks[..i], generation, now))
      {
        assert checks[..i + 1][..i] == checks[..i];
        SetCondition(checks[i].name, if checks[i].passed then ConditionTrue else ConditionFalse, checks[i].reason, now);
      }
      assert checks[..|checks|] == checks;
    }

    /** ContractValid, which has passed, and the given checks. */
    method SummaryOf(checks: seq<Check>) returns (s: Summary)
      ensures s == Count(Summary(1, 1, 0), checks)
    {
      var passed, failed := 1, 0;
      for i := 0 to |checks|
        invariant Count(Summary(1, 1, 0), checks[..i]) == Summary(i + 1, passed, failed)
      {
        assert checks[..i + 1][..i] == checks[..i];
        if checks[i].passed {
          passed := passed + 1;
        } else {
          failed := failed + 1;
        }
      }
      assert checks[..|checks|] == checks;
      s := Summary(|checks| + 1, passed, failed);
    }

    method ApplyCheck(check: Check, now: int)
      modifies this
      ensures status == AppliedCheck(old(status), check, generation, now)
    {
      SetCondition(check.name, if check.passed then ConditionTrue else ConditionFalse, check.reason, now);
      if status.summary.None? {
        status := status.(summary := Some(Summary(0, 0, 0)));
      }
      var s := status.summary.value;
      status := status.(summary := Some(s.(total := s.total + 1)));
      if check.passed {
        status := status.(summary := Some(status.summary.value.(passed := s.passed + 1)));
      } else {
        status := status.(summary := Some(status.summary.value.(failed := s.failed + 1)));
      }
    }

    /** probeEndpoints: the lookups are built first, then each declared endpoint is probed and applied. */
    method ProbeEndpoints(c: Contract, probe: Url -> ProbeResult, now: int) returns (checks: seq<Check>)
      modifies this
      ensures var (expected, endpoints) := ProbeAll(c, spec.target.serviceName, namespace, probe);
              checks == expected
              && status == WithEndpoints(AppliedChecks(old(status), expected, generation, now), endpoints)
    {
      checks := [];
      if c.runtime.None? {
        return;
      }
      var ports := InterfaceLookup(c.interfaces);
      var endpoints := Endpoints(None, None);
      var health, metrics := c.runtime.value.health, c.runtime.value.metrics;
      if health.Some? && health.value.interface != "" {
        var check, result := ProbeAndApply(HealthEndpointValid, c.interfaces, ports, health.value.interface, health.value.path, false, probe, now);
        AppliedOneMore(old(status), checks, check, generation, now);
        checks := checks + [check];
        endpoints := endpoints.(health := result);
      }
      if metrics.Some? && metrics.value.interface != "" {
        var check, result := ProbeAndApply(MetricsEndpointValid, c.interfaces, ports, metrics.value.interface, metrics.value.path, true, probe, now);
        AppliedOneMore(old(status), checks, check, generation, now);
        checks := checks + [check];
        endpoints := endpoints.(metrics := result);
      }
      StoreEndpoints(endpoints);
    }

    method StoreEndpoints(endpoints: Endpoints)
      modifies this
      ensures status == WithEndpoints(old(status), endpoints)
    {
      if endpoints.health.Some? || endpoints.metrics.Some? {
        status := status.(endpoints := Some(endpoints));
      }
    }

    method ProbeAndApply(t: ConditionType, ghost interfaces: seq<Interface>, ports: map<string, Option<int>>,
                         interface: string, path: string, requireBody: bool, probe: Url -> ProbeResult, now: int)
        returns (check: Check, result: Option<EndpointResult>)
      requires forall name :: name in ports <==> HasInterface(interfaces, name)
      requires forall name :: name in ports ==> ports[name] == InterfacePort(interfaces, name)
      modifies this
      ensures (check, result) == ProbeOne(t, interfaces, interface, path, spec.target.serviceName, namespace, requireBody, probe)
      ensures status == AppliedCheck(old(status), check, generation, now)
    {
      check, result := ProbeOneEndpoint(t, interfaces, ports, interface, path, requireBody, probe);
      ApplyCheck(check, now);
    }

    /** The two lookups of probeEndpoints as one: a name is present when the interface exists, and carries
        the port, if any. */
    method InterfaceLookup(interfaces: seq<Interface>) returns (ports: map<string, Option<int>>)
      ensures forall name :: name in ports <==> HasInterface(interfaces, name)
      ensures forall name :: name in ports ==> ports[name] == InterfacePort(interfaces, name)
    {
      ports := map[];
      for i := 0 to |interfaces|
        invariant forall name :: name in ports <==> HasInterface(interfaces[..i], name)
        invariant forall name :: name in ports ==> ports[name] == InterfacePort(interfaces[..i], name)
        invariant forall name :: name !in ports ==> InterfacePort(interfaces[..i], name) == None
      {
        var iface := interfaces[i];
        assert interfaces[..i + 1][..i] == interfaces[..i];
        assert interfaces[..i + 1] == interfaces[..i] + [iface];
        if iface.port.Some? {
          ports := ports[iface.name := Some(Int32(iface.port.value))];
        } else if iface.name !in ports {
          ports := ports[iface.name := None];
        }
      }
      assert interfaces[..|interfaces|] == interfaces;
    }

    method ProbeOneEndpoint(t: ConditionType, ghost interfaces: seq<Interface>, ports: map<string, Option<int>>,
                            interface: string, path: string, requireBody: bool, probe: Url -> ProbeResult)
        returns (check: Check, result: Option<EndpointResult>)
      requires forall name :: name in ports <==> HasInterface(interfaces, name)
      requires forall name :: name in ports ==> ports[name] == InterfacePort(interfaces, name)
      ensures (check, result) == ProbeOne(t, interfaces, interface, path, spec.target.serviceName, namespace, requireBody, probe)
    {
      if interface !in ports {
        return Check(t, false, EndpointInterfaceMissing, NoSeverity), None;
      }
      if ports[interface].None? {
        return Check(t, false, EndpointNoPort, NoSeverity), None;
      }
      var url := Url(spec.target.serviceName, namespace, ports[interface].value, path);
      check := EvaluateProbe(t, probe(url), requireBody);
      result := Some(EndpointResult(url, probe(url)));
    }

    /** computeFinalContractStatus */
    method ComputeFinalContractStatus() returns (r: ContractStatus)
      ensures r == ConditionsVerdict(status.conditions)
    {
      var conditions := status.conditions;
      var hasResourceFailure, hasOtherFailure := false, false;
      for i := 0 to |conditions|
        invariant hasResourceFailure <==> exists c :: c in conditions[..i] && c.status != ConditionTrue && Validator.IsResource(c.ctype)
        invariant hasOtherFailure <==> exists c :: c in conditions[..i] && c.status != ConditionTrue && !Validator.IsResource(c.ctype)
      {
        assert conditions[..i + 1] == conditions[..i] + [conditions[i]];
        if conditions[i].status == ConditionTrue {
          continue;
        }
        if conditions[i].ctype == ServiceExists || conditions[i].ctype == WorkloadExists {
          hasResourceFailure := true;
        } else {
          hasOtherFailure := true;
        }
      }
      assert conditions[..|conditions|] == conditions;
      if hasResourceFailure {
        return NonCompliant;
      }
      if hasOtherFailure {
        return Warning;
      }
      return Compliant;
    }
  }
}
