/** The resource types the operator reads and writes (api/v1alpha1), and the parts of a contract and of the
    cluster that its checks look at. Messages are left out. */
module PactoTypes {
  import opened Wrappers

  // ----- condition types, reasons and statuses -----

  datatype ConditionType =
    | ContractValid | ServiceExists | WorkloadExists | PortsValid | HealthEndpointValid | MetricsEndpointValid
    | WorkloadTypeMatch | StateModelMatch | UpgradeStrategyMatch | GracefulShutdownMatch | ImageMatch
    | HealthTimingMatch | ReadinessSatisfied | RuntimeObserved

  datatype Reason =
    | ContractParsed | ContractInvalid | Found | NotFound | PortsMatch | MissingPorts | ReferenceOnly
    | EndpointOK | EndpointConnectionError | EndpointInvalidStatus | EndpointEmptyResponse | EndpointNoPort
    | EndpointInterfaceMissing | Match | Mismatch | Missing | Skipped | ObservationFailed
    | GateSatisfied | BelowMinScore | Expired

  datatype Severity = NoSeverity | ErrorSeverity | WarningSeverity

  datatype ContractStatus = Unset | Compliant | Warning | NonCompliant | Reference | Unknown

  datatype Check = Check(name: ConditionType, passed: bool, reason: Reason, severity: Severity)

  // ----- the contract -----

  datatype Value = Text(text: string) | Literal(id: int)

  datatype Interface = Interface(name: string, port: Option<int>)

  datatype Lifecycle = Lifecycle(upgradeStrategy: string, gracefulShutdownSeconds: Option<int>)

  datatype Health = Health(interface: string, path: string, initialDelaySeconds: Option<int>)

  datatype Metrics = Metrics(interface: string, path: string)

  datatype Runtime = Runtime(
    workload: string, stateType: string, durability: string,
    lifecycle: Option<Lifecycle>, health: Option<Health>, metrics: Option<Metrics>)

  datatype Service = Service(name: string, version: string, imageRef: Option<string>)

  datatype Configuration = Configuration(name: string, schema: string, ref: string, values: Option<map<string, Value>>)

  datatype Contract = Contract(
    service: Service, interfaces: seq<Interface>, runtime: Option<Runtime>, configurations: seq<Configuration>)

  /** Go's conversion of an int to int32. */
  function Int32(x: int): (r: int)
    ensures -0x8000_0000 <= r < 0x8000_0000
    ensures -0x8000_0000 <= x < 0x8000_0000 ==> r == x
  {
    (x + 0x8000_0000) % 0x1_0000_0000 - 0x8000_0000
  }

  /** The conversion keeps the low thirty-two bits. */
  lemma Int32Wraps(x: int)
    ensures (x - Int32(x)) % 0x1_0000_0000 == 0
  {
  }

  // ----- the Pacto resource -----

  datatype WorkloadRef = WorkloadRef(name: string, kind: string)

  datatype TargetRef = TargetRef(serviceName: string, workloadRef: Option<WorkloadRef>)

  datatype ConfigurationOverride = ConfigurationOverride(name: string, values: map<string, string>)

  datatype PactoSpec = PactoSpec(
    ociRef: string, inline: string, pullSecretRef: string, target: TargetRef,
    overrides: Option<seq<ConfigurationOverride>>, checkIntervalSeconds: int)
  {
    predicate IsReference() {
      target.serviceName == "" && target.workloadRef.None?
    }

    /** The effective workload name and kind. */
    function ResolvedWorkload(): (string, string) {
      if target.workloadRef.Some? then
        (target.workloadRef.value.name,
         if target.workloadRef.value.kind == "" then "Deployment" else target.workloadRef.value.kind)
      else if target.serviceName != "" then (target.serviceName, "Deployment")
      else ("", "")
    }
  }

  // ----- the cluster -----

  datatype Container = Container(image: string, readinessDelay: Option<int>, livenessDelay: Option<int>)

  datatype Volume = Volume(persistentVolumeClaim: bool, emptyDir: bool)

  datatype PodSpec = PodSpec(terminationGracePeriod: Option<int>, containers: seq<Container>, volumes: seq<Volume>)

  datatype Kind = ServiceKind | DeploymentKind | StatefulSetKind | ReplicaSetKind | JobKind | CronJobKind | OtherKind

  /** An object of one of the watched kinds; each kind uses the fields it has. */
  datatype Object = Object(
    ports: seq<int>, strategy: string, podManagementPolicy: string, volumeClaimTemplates: nat, pod: PodSpec)

  datatype Key = Key(kind: Kind, namespace: string, name: string)

  type Cluster = map<Key, Object>

  datatype Snapshot = Snapshot(
    serviceExists: bool, workloadExists: bool, workloadKind: string, servicePorts: seq<int>,
    deploymentStrategy: string, podManagementPolicy: string, terminationGracePeriod: Option<int>,
    containerImages: seq<string>, hasPVC: bool, hasEmptyDir: bool, healthProbeInitialDelay: Option<int>)
}
