/** Reads the target Service and workload into a snapshot (internal/observer/runtime.go). */
module Observer {
  import opened Wrappers
  import opened PactoTypes

  /** What one Get returns. */
  datatype Read = Got(found: Object) | Absent | Failed

  function ReadAt(cluster: Cluster, key: Key, fails: bool): Read {
    if fails then Failed else if key in cluster then Got(cluster[key]) else Absent
  }

  /** The kind a workload reference is read as: a Deployment unless it says otherwise. */
  function KindOf(kind: string): Kind {
    if kind == "StatefulSet" then StatefulSetKind
    else if kind == "ReplicaSet" then ReplicaSetKind
    else if kind == "Job" then JobKind
    else if kind == "CronJob" then CronJobKind
    else DeploymentKind
  }

  // ----- what an observation is -----

  function Blank(workloadKind: string): Snapshot {
    Snapshot(false, false, workloadKind, [], "", "", None, [], false, false, None)
  }

  function WithService(s: Snapshot, service: Option<Object>): Snapshot {
    if service.None? then s
    else s.(serviceExists := true, servicePorts := s.servicePorts + service.value.ports)
  }

  function ProbeDelay(c: Container): Option<int> {
    if c.readinessDelay.Some? then c.readinessDelay else c.livenessDelay
  }

  function Images(containers: seq<Container>): seq<string> {
    seq(|containers|, i requires 0 <= i < |containers| => containers[i].image)
  }

  function WithPod(s: Snapshot, pod: PodSpec): Snapshot {
    s.(terminationGracePeriod := pod.terminationGracePeriod,
       containerImages := s.containerImages + Images(pod.containers),
       healthProbeInitialDelay :=
         if |pod.containers| > 0 && ProbeDelay(pod.containers[0]).Some? then ProbeDelay(pod.containers[0])
         else s.healthProbeInitialDelay,
       hasPVC := s.hasPVC || exists v :: v in pod.volumes && v.persistentVolumeClaim,
       hasEmptyDir := s.hasEmptyDir || exists v :: v in pod.volumes && v.emptyDir)
  }

  function WithWorkload(s: Snapshot, kind: Kind, workload: Option<Object>): Snapshot {
    match workload
    case None => s
    case Some(o) =>
      var found := s.(workloadExists := true);
      var specific :=
        if kind == DeploymentKind && o.strategy != "" then found.(deploymentStrategy := o.strategy)
        else if kind == StatefulSetKind then
          found.(podManagementPolicy := o.podManagementPolicy, hasPVC := found.hasPVC || o.volumeClaimTemplates > 0)
        else found;
      WithPod(specific, o.pod)
  }

  function Lookup(cluster: Cluster, key: Key): Option<Object> {
    if key in cluster then Some(cluster[key]) else None
  }

  /** The two keys an observation of a target reads; empty names are not read. */
  function ServiceKeys(namespace: string, spec: PactoSpec): set<Key> {
    if spec.target.serviceName == "" then {} else {Key(ServiceKind, namespace, spec.target.serviceName)}
  }

  function WorkloadKeys(namespace: string, spec: PactoSpec): set<Key> {
    var (name, kind) := spec.ResolvedWorkload();
    if name == "" then {} else {Key(KindOf(kind), namespace, name)}
  }

  /** The service as it stands in a cluster. */
  function SeenService(cluster: Cluster, namespace: string, spec: PactoSpec): Option<Object> {
    if spec.target.serviceName == "" then None
    else Lookup(cluster, Key(ServiceKind, namespace, spec.target.serviceName))
  }

  function SeenWorkload(cluster: Cluster, namespace: string, spec: PactoSpec): Option<Object> {
    var (name, kind) := spec.ResolvedWorkload();
    if name == "" then None else Lookup(cluster, Key(KindOf(kind), namespace, name))
  }

  function Assemble(spec: PactoSpec, service: Option<Object>, workload: Option<Object>): Snapshot {
    var kind := spec.ResolvedWorkload().1;
    WithWorkload(WithService(Blank(kind), service), KindOf(kind), workload)
  }

  /** The snapshot of an unchanging cluster. */
  function ObserveCluster(cluster: Cluster, namespace: string, spec: PactoSpec): Snapshot {
    Assemble(spec, SeenService(cluster, namespace, spec), SeenWorkload(cluster, namespace, spec))
  }

  /** What an observation shows of a service: whether it exists, and its ports. */
  function ShownService(service: Option<Object>): Option<seq<int>> {
    if service.None? then None else Some(service.value.ports)
  }

  datatype ShownPod = ShownPod(
    gracePeriod: Option<int>, images: seq<string>, probeDelay: Option<int>, claims: bool, emptyDir: bool)

  /** What it shows of a workload: its pod, and of Deployments the strategy, of StatefulSets the pod management
      and whether there are claim templates. */
  function ShownWorkload(kind: Kind, workload: Option<Object>): Option<(ShownPod, string, string)> {
    match workload
    case None => None
    case Some(o) =>
      var probed := if |o.pod.containers| > 0 then ProbeDelay(o.pod.containers[0]) else None;
      var claims := (kind == StatefulSetKind && o.volumeClaimTemplates > 0) || exists v :: v in o.pod.volumes && v.persistentVolumeClaim;
      Some((ShownPod(o.pod.terminationGracePeriod, Images(o.pod.containers), probed, claims, exists v :: v in o.pod.volumes && v.emptyDir),
            if kind == DeploymentKind then o.strategy else "",
            if kind == StatefulSetKind then o.podManagementPolicy else ""))
  }

  /** Two observations are equal exactly when they show the same of service and workload. */
  lemma SnapshotShows(spec: PactoSpec, s: Option<Object>, w: Option<Object>, s': Option<Object>, w': Option<Object>)
    ensures var kind := KindOf(spec.ResolvedWorkload().1);
            Assemble(spec, s, w) == Assemble(spec, s', w') <==>
            ShownService(s) == ShownService(s') && ShownWorkload(kind, w) == ShownWorkload(kind, w')
  {
    var name := spec.ResolvedWorkload().1;
    var kind := KindOf(name);
    ServiceShows(name, s, s');
    WorkloadShows(WithService(Blank(name), s), WithService(Blank(name), s'), kind, w, w');
  }

  lemma ServiceShows(kind: string, s: Option<Object>, s': Option<Object>)
    ensures WithService(Blank(kind), s) == WithService(Blank(kind), s') <==> ShownService(s) == ShownService(s')
  {
    assert forall ports: seq<int> :: [] + ports == ports;
  }

  /** Before the workload is read, a snapshot says nothing about one. */
  predicate NoWorkloadYet(s: Snapshot) {
    s == Blank(s.workloadKind).(serviceExists := s.serviceExists, servicePorts := s.servicePorts)
  }

  lemma WorkloadShows(s: Snapshot, s': Snapshot, kind: Kind, w: Option<Object>, w': Option<Object>)
    requires NoWorkloadYet(s) && NoWorkloadYet(s')
    ensures WithWorkload(s, kind, w) == WithWorkload(s', kind, w') <==> s == s' && ShownWorkload(kind, w) == ShownWorkload(kind, w')
  {
    WorkloadIs(s, kind, w);
    WorkloadIs(s', kind, w');
  }

  lemma WorkloadIs(s: Snapshot, kind: Kind, w: Option<Object>)
    requires NoWorkloadYet(s)
    ensures WithWorkload(s, kind, w) ==
            match ShownWorkload(kind, w)
            case None => s
            case Some((pod, strategy, management)) =>
              s.(workloadExists := true, deploymentStrategy := strategy, podManagementPolicy := management,
                 terminationGracePeriod := pod.gracePeriod, containerImages := pod.images,
                 healthProbeInitialDelay := pod.probeDelay, hasPVC := pod.claims, hasEmptyDir := pod.emptyDir)
  {
    if w.Some? {
      assert [] + Images(w.value.pod.containers) == Images(w.value.pod.containers);
    }
  }

  // ----- what a snapshot says of the objects it was taken from -----

  /** A workload kind by name: the five kinds go by their own names, and every other name means a Deployment. */
  predicate Names(name: string, kind: Kind) {
    match kind
    case StatefulSetKind => name == "StatefulSet"
    case ReplicaSetKind => name == "ReplicaSet"
    case JobKind => name == "Job"
    case CronJobKind => name == "CronJob"
    case DeploymentKind => name !in {"StatefulSet", "ReplicaSet", "Job", "CronJob"}
    case _ => false
  }

  /** Existence and ports are those of the service of this name; without a name there is none. */
  ghost predicate TellsService(snap: Snapshot, cluster: Cluster, namespace: string, name: string) {
    var key := Key(ServiceKind, namespace, name);
    && (snap.serviceExists <==> name != "" && key in cluster)
    && snap.servicePorts == (if name != "" && key in cluster then cluster[key].ports else [])
  }

  /** The delay of the first container's readiness probe, failing that of its liveness probe. */
  predicate TellsDelay(snap: Snapshot, containers: seq<Container>) {
    if containers == [] then snap.healthProbeInitialDelay == None
    else if containers[0].readinessDelay.Some? then snap.healthProbeInitialDelay == containers[0].readinessDelay
    else snap.healthProbeInitialDelay == containers[0].livenessDelay
  }

  ghost predicate TellsObject(snap: Snapshot, kind: Kind, o: Object) {
    && snap.terminationGracePeriod == o.pod.terminationGracePeriod
    && |snap.containerImages| == |o.pod.containers|
    && (forall i :: 0 <= i < |o.pod.containers| ==> snap.containerImages[i] == o.pod.containers[i].image)
    && TellsDelay(snap, o.pod.containers)
    && (snap.hasPVC <==> (kind == StatefulSetKind && o.volumeClaimTemplates > 0)
                         || exists v :: v in o.pod.volumes && v.persistentVolumeClaim)
    && (snap.hasEmptyDir <==> exists v :: v in o.pod.volumes && v.emptyDir)
    && snap.deploymentStrategy == (if kind == DeploymentKind then o.strategy else "")
    && snap.podManagementPolicy == (if kind == StatefulSetKind then o.podManagementPolicy else "")
  }

  /** The workload is the object of exactly that kind, namespace and name; without one nothing is said of it. */
  ghost predicate TellsWorkload(snap: Snapshot, cluster: Cluster, namespace: string, name: string, kindName: string) {
    && snap.workloadKind == kindName
    && forall kind :: Names(kindName, kind) ==>
         var key := Key(kind, namespace, name);
         && (snap.workloadExists <==> name != "" && key in cluster)
         && (snap.workloadExists ==> TellsObject(snap, kind, cluster[key]))
         && (!snap.workloadExists ==> snap == Blank(kindName).(serviceExists := snap.serviceExists, servicePorts := snap.servicePorts))
  }

  /** The workload of a target: the one it refers to, a Deployment if no kind is given, or the Deployment that
      goes by the service's name. */
  ghost predicate TellsTarget(snap: Snapshot, cluster: Cluster, namespace: string, target: TargetRef) {
    match target.workloadRef
    case Some(ref) => TellsWorkload(snap, cluster, namespace, ref.name, if ref.kind == "" then "Deployment" else ref.kind)
    case None => TellsWorkload(snap, cluster, namespace, target.serviceName, if target.serviceName == "" then "" else "Deployment")
  }

  lemma PodTold(s: Snapshot, kind: Kind, o: Object)
    requires NoWorkloadYet(s)
    ensures TellsObject(WithWorkload(s, kind, Some(o)), kind, o)
  {
    WorkloadIs(s, kind, Some(o));
  }

  lemma WorkloadTold(s: Snapshot, cluster: Cluster, namespace: string, name: string, kindName: string)
    requires NoWorkloadYet(s) && s.workloadKind == kindName
    ensures var kind := KindOf(kindName);
            var workload := if name == "" then None else Lookup(cluster, Key(kind, namespace, name));
            TellsWorkload(WithWorkload(s, kind, workload), cluster, namespace, name, kindName)
  {
    var kind := KindOf(kindName);
    assert forall k :: Names(kindName, k) ==> k == kind;
    var key := Key(kind, namespace, name);
    if name != "" && key in cluster {
      PodTold(s, kind, cluster[key]);
    }
  }

  /** An observation tells of the target's service as it stood in one cluster and of its workload as it stood in
      the other. */
  lemma ObservationTells(first: Cluster, second: Cluster, namespace: string, spec: PactoSpec)
    ensures var snap := Assemble(spec, SeenService(first, namespace, spec), SeenWorkload(second, namespace, spec));
            && TellsService(snap, first, namespace, spec.target.serviceName)
            && TellsTarget(snap, second, namespace, spec.target)
  {
    var (name, kindName) := spec.ResolvedWorkload();
    var s := WithService(Blank(kindName), SeenService(first, namespace, spec));
    assert forall ports: seq<int> :: [] + ports == ports;
    WorkloadTold(s, second, namespace, name, kindName);
    WorkloadIs(s, KindOf(kindName), SeenWorkload(second, namespace, spec));
  }

  // ----- the observer -----

  /** The snapshot under construction. */
  class RuntimeSnapshot {
    var serviceExists: bool
    var workloadExists: bool
    var workloadKind: string
    var servicePorts: seq<int>
    var deploymentStrategy: string
    var podManagementPolicy: string
    var terminationGracePeriod: Option<int>
    var containerImages: seq<string>
    var hasPVC: bool
    var hasEmptyDir: bool
    var healthProbeInitialDelay: Option<int>

    constructor (workloadKind: string)
      ensures View() == Blank(workloadKind)
    {
      serviceExists, workloadExists, this.workloadKind := false, false, workloadKind;
      servicePorts, deploymentStrategy, podManagementPolicy := [], "", "";
      terminationGracePeriod, containerImages := None, [];
      hasPVC, hasEmptyDir, healthProbeInitialDelay := false, false, None;
    }

    function View(): Snapshot
      reads this
    {
      Snapshot(serviceExists, workloadExists, workloadKind, servicePorts, deploymentStrategy, podManagementPolicy,
               terminationGracePeriod, containerImages, hasPVC, hasEmptyDir, healthProbeInitialDelay)
    }

    method ExtractPodTemplateInfo(pod: PodSpec)
      modifies this
      ensures View() == WithPod(old(View()), pod)
    {
      terminationGracePeriod := pod.terminationGracePeriod;
      CollectImages(pod.containers);
      if |pod.containers| > 0 {
        var c := pod.containers[0];
        if c.readinessDelay.Some? {
          healthProbeInitialDelay := c.readinessDelay;
        } else if c.livenessDelay.Some? {
          healthProbeInitialDelay := c.livenessDelay;
        }
      }
      AnalyzeVolumes(pod.volumes);
    }

    method CollectImages(containers: seq<Container>)
      modifies this`containerImages
      ensures containerImages == old(containerImages) + Images(containers)
    {
      for i := 0 to |containers|
        invariant containerImages == old(containerImages) + Images(containers[..i])
      {
        containerImages := containerImages + [containers[i].image];
        assert Images(containers[..i + 1]) == Images(containers[..i]) + [containers[i].image];
      }
      assert containers[..|containers|] == containers;
    }

    method AnalyzeVolumes(volumes: seq<Volume>)
      modifies this`hasPVC, this`hasEmptyDir
      ensures hasPVC == (old(hasPVC) || exists v :: v in volumes && v.persistentVolumeClaim)
      ensures hasEmptyDir == (old(hasEmptyDir) || exists v :: v in volumes && v.emptyDir)
    {
      for i := 0 to |volumes|
        invariant hasPVC == (old(hasPVC) || exists v :: v in volumes[..i] && v.persistentVolumeClaim)
        invariant hasEmptyDir == (old(hasEmptyDir) || exists v :: v in volumes[..i] && v.emptyDir)
      {
        if volumes[i].persistentVolumeClaim {
          hasPVC := true;
        }
        if volumes[i].emptyDir {
          hasEmptyDir := true;
        }
        assert volumes[..i + 1] == volumes[..i] + [volumes[i]];
      }
      assert volumes[..|volumes|] == volumes;
    }

    /** observeWorkload with its per-kind readers. */
    method ObserveWorkload(kind: Kind, read: Read) returns (ok: bool)
      modifies this
      ensures ok == !read.Failed?
      ensures View() == WithWorkload(old(View()), kind, if read.Got? then Some(read.found) else None)
    {
      if read.Failed? {
        return false;
      }
      if read.Absent? {
        return true;
      }
      workloadExists := true;
      match kind {
        case DeploymentKind =>
          if read.found.strategy != "" {
            deploymentStrategy := read.found.strategy;
          }
        case StatefulSetKind =>
          podManagementPolicy := read.found.podManagementPolicy;
          if read.found.volumeClaimTemplates > 0 {
            hasPVC := true;
          }
        case _ =>
      }
      ExtractPodTemplateInfo(read.found.pod);
      ok := true;
    }
  }

  /** Observe: the service is read first, the workload later, from a cluster that may have changed between. */
  method Observe(first: Cluster, second: Cluster, serviceFails: bool, workloadFails: bool, namespace: string, spec: PactoSpec)
      returns (r: Option<Snapshot>)
    ensures r.Some? ==> r.value == Assemble(spec, SeenService(first, namespace, spec), SeenWorkload(second, namespace, spec))
    ensures r.Some? ==> TellsService(r.value, first, namespace, spec.target.serviceName) && TellsTarget(r.value, second, namespace, spec.target)
    ensures var target := spec.target;
            r.None? <==>
              || (serviceFails && target.serviceName != "")
              || (workloadFails && (if target.workloadRef.Some? then target.workloadRef.value.name != "" else target.serviceName != ""))
  {
    var (workloadName, workloadKind) := spec.ResolvedWorkload();
    var snapshot := new RuntimeSnapshot(workloadKind);
    if spec.target.serviceName != "" {
      var read := ReadAt(first, Key(ServiceKind, namespace, spec.target.serviceName), serviceFails);
      if read.Failed? {
        return None;
      }
      if read.Got? {
        snapshot.serviceExists := true;
        for i := 0 to |read.found.ports|
          invariant snapshot.View() == Blank(workloadKind).(serviceExists := true, servicePorts := read.found.ports[..i])
        {
          snapshot.servicePorts := snapshot.servicePorts + [read.found.ports[i]];
        }
      }
    }
    assert snapshot.View() == WithService(Blank(workloadKind), SeenService(first, namespace, spec));
    if workloadName != "" {
      var kind := KindOf(workloadKind);
      var ok := snapshot.ObserveWorkload(kind, ReadAt(second, Key(kind, namespace, workloadName), workloadFails));
      if !ok {
        return None;
      }
    }
    ObservationTells(first, second, namespace, spec);
    r := Some(snapshot.View());
  }
}
