/** The watch, observe and queue loop: which Pactos an object change re-queues (internal/controller/event_handler.go),
    which objects a reconciliation reads (internal/observer/runtime.go), and how the two meet. */
module WatchLoop {
  import opened Wrappers
  import opened PactoTypes
  import Observer

  datatype PactoId = PactoId(namespace: string, name: string)

  datatype Listed = Listed(id: PactoId, spec: PactoSpec)

  // ----- the mappers -----

  predicate Targets(spec: PactoSpec, name: string) {
    spec.target.serviceName == name || spec.ResolvedWorkload().0 == name
  }

  /** The name is that of the target's service or of the workload it refers to; without a reference the workload
      goes by the service's name. */
  predicate NamedBy(target: TargetRef, name: string) {
    target.serviceName == name || (target.workloadRef.Some? && target.workloadRef.value.name == name)
  }

  /** The listed Pactos that satisfy a predicate, each once, in list order. */
  function Selected(items: seq<Listed>, wanted: PactoSpec -> bool): (r: seq<PactoId>)
    ensures forall id :: id in r <==> exists p :: p in items && p.id == id && wanted(p.spec)
  {
    if items == [] then []
    else
      var last := items[|items| - 1];
      assert items == items[..|items| - 1] + [last];
      Selected(items[..|items| - 1], wanted) + if wanted(last.spec) then [last.id] else []
  }

  /** The selection goes through the list in its order, and takes or leaves each Pacto on its own. */
  lemma {:induction false} SelectedAppend(a: seq<Listed>, b: seq<Listed>, wanted: PactoSpec -> bool)
    ensures Selected(a + b, wanted) == Selected(a, wanted) + Selected(b, wanted)
    ensures |a| == 1 ==> Selected(a, wanted) == if wanted(a[0].spec) then [a[0].id] else []
  {
    if b == [] {
      assert a + b == a;
    } else {
      assert (a + b)[..|a + b| - 1] == a + b[..|b| - 1];
      SelectedAppend(a, b[..|b| - 1], wanted);
    }
  }

  /** mapObjectToPactos: a failed List maps to nothing. */
  method MapObjectToPactos(list: Option<seq<Listed>>, name: string) returns (requests: seq<PactoId>)
    ensures requests == if list.None? then [] else Selected(list.value, (spec: PactoSpec) => Targets(spec, name))
    ensures forall id :: id in requests <==> list.Some? && exists p :: p in list.value && p.id == id && NamedBy(p.spec.target, name)
  {
    if list.None? {
      return [];
    }
    requests := [];
    var items := list.value;
    ghost var wanted := (spec: PactoSpec) => Targets(spec, name);
    for i := 0 to |items|
      invariant requests == Selected(items[..i], wanted)
    {
      var p := items[i];
      assert items[..i + 1][..i] == items[..i];
      assert Selected(items[..i + 1], wanted) == Selected(items[..i], wanted) + if wanted(p.spec) then [p.id] else [];
      if p.spec.target.serviceName == name {
        requests := requests + [p.id];
        continue;
      }
      var (workloadName, _) := p.spec.ResolvedWorkload();
      if workloadName == name {
        requests := requests + [p.id];
      }
    }
    assert items[..|items|] == items;
    assert forall p :: p in items ==> (Targets(p.spec, name) <==> NamedBy(p.spec.target, name));
  }

  /** mapSecretToPactos */
  method MapSecretToPactos(list: Option<seq<Listed>>, name: string) returns (requests: seq<PactoId>)
    ensures requests == if list.None? then [] else Selected(list.value, (spec: PactoSpec) => spec.pullSecretRef == name)
  {
    if list.None? {
      return [];
    }
    requests := [];
    var items := list.value;
    ghost var wanted := (spec: PactoSpec) => spec.pullSecretRef == name;
    for i := 0 to |items|
      invariant requests == Selected(items[..i], wanted)
    {
      assert items[..i + 1][..i] == items[..i];
      assert Selected(items[..i + 1], wanted) == Selected(items[..i], wanted) + if wanted(items[i].spec) then [items[i].id] else [];
      if items[i].spec.pullSecretRef == name {
        requests := requests + [items[i].id];
      }
    }
    assert items[..|items|] == items;
  }

  // ----- the system -----

  type Pactos = map<PactoId, PactoSpec>

  /** How far a reconciliation has come. */
  datatype Phase =
    | Picked                                                     // taken from the queue
    | Fetched(spec: PactoSpec)                                   // the resource was read
    | SawService(spec: PactoSpec, service: Option<Object>)       // and the service
    | Ready(result: Outcome)                                     // and the workload; the status is still to be written

  /** What the persisted status says about the runtime, or why it says nothing. */
  datatype Outcome =
    | Saw(snapshot: Snapshot)
    | NoTarget                                                   // the specification named no target
    | Rejected(spec: PactoSpec)                                  // the contract was rejected
    | ReadFailed(spec: PactoSpec)                                // the service or the workload could not be read

  /** Every write stamps the time (`StatusProperties.EveryWriteStamps`), so one that changes nothing repeats the
      status of a write at the same reading of the clock. */
  datatype Write = Refused | Unchanged | Changed

  /** The kinds whose events are mapped to Pactos. */
  const WATCHED := {ServiceKind, DeploymentKind, StatefulSetKind, ReplicaSetKind, JobKind, CronJobKind}

  /** `cluster` and `pactos` are the operator's view, its informer caches. Object and Pacto events wait in
      `pending` and `pendingPactos` until they are delivered. A key is queued when dirty and not working;
      `retrying` keys come back after an error. `missed` records which Pactos a failed List kept from being
      re-queued since they were last picked. */
  datatype System = System(
    cluster: Cluster, pactos: Pactos, pending: seq<Key>, pendingPactos: set<PactoId>,
    dirty: set<PactoId>, retrying: set<PactoId>, working: map<PactoId, Phase>, outcomes: map<PactoId, Outcome>,
    missed: set<PactoId>)

  datatype Event =
    | ChangeObject(key: Key, value: Option<Object>)
    | ChangePacto(id: PactoId, spec: Option<PactoSpec>)
    | DeliverObject(at: nat, lists: bool)                        // some object event reaches the mapper
    | DeliverPacto(id: PactoId)
    | Tick(id: PactoId)                                          // a timed requeue falls due
    | Retry(id: PactoId)
    | Pick(id: PactoId)
    | Fetch(id: PactoId, fails: bool)
    | Forgo(id: PactoId)                                         // the contract is rejected
    | ReadService(id: PactoId, fails: bool)
    | ReadWorkload(id: PactoId, fails: bool)
    | Finish(id: PactoId, write: Write)

  function Mapped(pactos: Pactos, key: Key): set<PactoId> {
    set id | id in pactos && id.namespace == key.namespace && Targets(pactos[id], key.name)
  }

  /** The mapper's answer for a List of the object's namespace, in whatever order it comes: the Pactos whose
      service or workload has the object's name. */
  lemma MapperAnswers(pactos: Pactos, items: seq<Listed>, key: Key, id: PactoId)
    requires forall p :: p in items <==> p.id in pactos && p.id.namespace == key.namespace && p.spec == pactos[p.id]
    ensures var named := id in pactos && id.namespace == key.namespace && NamedBy(pactos[id].target, key.name);
            && (id in Selected(items, (spec: PactoSpec) => Targets(spec, key.name)) <==> named)
            && (id in Mapped(pactos, key) <==> named)
  {
    if id in Mapped(pactos, key) {
      assert Listed(id, pactos[id]) in items;
    }
  }

  function Lookup<K, V>(m: map<K, V>, k: K): Option<V> {
    if k in m then Some(m[k]) else None
  }

  function Replaced<K, V>(m: map<K, V>, k: K, v: Option<V>): map<K, V> {
    if v.Some? then m[k := v.value] else m - {k}
  }

  predicate IsWork(e: Event) {
    e.Pick? || e.Fetch? || e.Forgo? || e.ReadService? || e.ReadWorkload? || e.Finish?
  }

  /** What a step of a worker does to the Pacto it works on. */
  datatype Move =
    | Ignore                                       // the step is not possible now
    | Begin                                        // take the key from the queue
    | Continue(phase: Phase)
    | Abandon(again: bool)                         // end without a status write; after an error, to come again
    | Persist(result: Outcome, announces: bool)    // a write that changed something is announced in turn

  function Work(s: System, e: Event): Move
    requires IsWork(e)
  {
    match e
    case Pick(id) => if id in s.dirty && id !in s.working then Begin else Ignore
    case Fetch(id, fails) =>
      if Lookup(s.working, id) != Some(Picked) then Ignore
      else if fails then Abandon(true)
      else if id !in s.pactos then Abandon(false)
      else if s.pactos[id].IsReference() then Continue(Ready(NoTarget))
      else Continue(Fetched(s.pactos[id]))
    case Forgo(id) =>
      if id in s.working && s.working[id].Fetched? then Continue(Ready(Rejected(s.working[id].spec))) else Ignore
    case ReadService(id, fails) =>
      if id !in s.working || !s.working[id].Fetched? then Ignore
      else
        var spec := s.working[id].spec;
        if fails && Observer.ServiceKeys(id.namespace, spec) != {} then Continue(Ready(ReadFailed(spec)))
        else Continue(SawService(spec, Observer.SeenService(s.cluster, id.namespace, spec)))
    case ReadWorkload(id, fails) =>
      if id !in s.working || !s.working[id].SawService? then Ignore
      else
        var SawService(spec, service) := s.working[id];
        if fails && Observer.WorkloadKeys(id.namespace, spec) != {} then Continue(Ready(ReadFailed(spec)))
        else Continue(Ready(Saw(Observer.Assemble(spec, service, Observer.SeenWorkload(s.cluster, id.namespace, spec)))))
    case Finish(id, write) =>
      if id !in s.working || !s.working[id].Ready? then Ignore
      else if write.Refused? then Abandon(true)
      else Persist(s.working[id].result, write.Changed?)
  }

  function Moved(s: System, id: PactoId, m: Move): System {
    match m
    case Ignore => s
    case Begin => s.(dirty := s.dirty - {id}, working := s.working[id := Picked], missed := s.missed - {id})
    case Continue(phase) => s.(working := s.working[id := phase])
    case Abandon(again) => s.(working := s.working - {id}, retrying := if again then s.retrying + {id} else s.retrying)
    case Persist(result, announces) =>
      s.(working := s.working - {id}, outcomes := s.outcomes[id := result],
         pendingPactos := if announces then s.pendingPactos + {id} else s.pendingPactos)
  }

  /** The informers of different kinds deliver in any order. */
  function Delivered(s: System, at: nat, lists: bool): System
    requires at < |s.pending|
  {
    var mapped := Mapped(s.pactos, s.pending[at]);
    s.(pending := s.pending[..at] + s.pending[at + 1..],
       dirty := if lists then s.dirty + mapped else s.dirty,
       missed := if lists then s.missed else s.missed + mapped)
  }

  function Noticed(s: System, id: PactoId): System {
    s.(pendingPactos := s.pendingPactos - {id}, dirty := s.dirty + {id})
  }

  function Retried(s: System, id: PactoId): System {
    s.(retrying := s.retrying - {id}, dirty := s.dirty + {id})
  }

  function Step(s: System, e: Event): System {
    match e
    case ChangeObject(key, value) =>
      s.(cluster := Replaced(s.cluster, key, value), pending := if key.kind in WATCHED then s.pending + [key] else s.pending)
    case ChangePacto(id, spec) => s.(pactos := Replaced(s.pactos, id, spec), pendingPactos := s.pendingPactos + {id})
    case DeliverObject(at, lists) => if at < |s.pending| then Delivered(s, at, lists) else s
    case DeliverPacto(id) => if id in s.pendingPactos then Noticed(s, id) else s
    case Tick(id) => s.(dirty := s.dirty + {id})
    case Retry(id) => if id in s.retrying then Retried(s, id) else s
    case _ => Moved(s, e.id, Work(s, e))
  }

  function Run(s: System, events: seq<Event>): System
    decreases |events|
  {
    if events == [] then s else Run(Step(s, events[0]), events[1..])
  }

  /** The operator starts on a cluster that may already hold Pactos, each announced by the initial list. */
  function Initial(cluster: Cluster, pactos: Pactos): System {
    System(cluster, pactos, [], pactos.Keys, {}, {}, map[], map[], {})
  }

  // ----- what the steps do -----

  /** Reading the resource: after an error the Pacto comes again, a resource that is gone is dropped, and one without
      service name and workload reference needs no reads. */
  lemma FetchDoes(s: System, id: PactoId, fails: bool)
    requires Lookup(s.working, id) == Some(Picked)
    ensures var s' := Step(s, Fetch(id, fails));
            if fails then s' == s.(working := s.working - {id}, retrying := s.retrying + {id})
            else if id !in s.pactos then s' == s.(working := s.working - {id})
            else
              var target := s.pactos[id].target;
              var next := if target.serviceName == "" && target.workloadRef == None then Ready(NoTarget) else Fetched(s.pactos[id]);
              s' == s.(working := s.working[id := next])
  {
  }

  /** A rejected contract, and a read that fails where something is to be read, end in a status without snapshot. */
  lemma FailedReadsDo(s: System, id: PactoId, spec: PactoSpec, service: Option<Object>)
    ensures Lookup(s.working, id) == Some(Fetched(spec)) ==>
              && Step(s, Forgo(id)) == s.(working := s.working[id := Ready(Rejected(spec))])
              && (spec.target.serviceName != "" ==> Step(s, ReadService(id, true)) == s.(working := s.working[id := Ready(ReadFailed(spec))]))
    ensures Lookup(s.working, id) == Some(SawService(spec, service)) ==>
              ((if spec.target.workloadRef.Some? then spec.target.workloadRef.value.name else spec.target.serviceName) != "" ==>
                 Step(s, ReadWorkload(id, true)) == s.(working := s.working[id := Ready(ReadFailed(spec))]))
  {
  }

  /** The status write: refused, it persists nothing and the Pacto comes again; accepted, it persists the outcome, and
      a change is announced in turn. */
  lemma FinishDoes(s: System, id: PactoId, result: Outcome, write: Write)
    requires Lookup(s.working, id) == Some(Ready(result))
    ensures Step(s, Finish(id, write)) ==
            if write == Refused then s.(working := s.working - {id}, retrying := s.retrying + {id})
            else s.(working := s.working - {id}, outcomes := s.outcomes[id := result],
                    pendingPactos := if write == Changed then s.pendingPactos + {id} else s.pendingPactos)
  {
  }

  /** Changes of the watched kinds are announced, changes of other kinds are not. */
  lemma ChangesAnnounced(s: System, key: Key, value: Option<Object>)
    ensures Step(s, ChangeObject(key, value)).pending == if key.kind.OtherKind? then s.pending else s.pending + [key]
  {
  }

  // ----- the invariant -----

  /** An undelivered event concerns the Pacto. */
  ghost predicate Announced(s: System, id: PactoId)
    requires id in s.pactos
  {
    id in s.pendingPactos || exists key :: key in s.pending && id in Mapped(s.pactos, key)
  }

  /** Another reconciliation is due, or was lost to a failed List. */
  ghost predicate Due(s: System, id: PactoId)
    requires id in s.pactos
  {
    id in s.dirty || id in s.retrying || id in s.missed || Announced(s, id)
  }

  function Current(s: System, id: PactoId): Snapshot
    requires id in s.pactos
  {
    Observer.ObserveCluster(s.cluster, id.namespace, s.pactos[id])
  }

  /** What has been read so far, or was persisted last, agrees with the cluster. */
  predicate Agrees(cluster: Cluster, namespace: string, spec: PactoSpec, phase: Option<Phase>, outcome: Option<Outcome>) {
    match phase
    case Some(Picked) => true
    case Some(Fetched(fetched)) => fetched == spec
    case Some(SawService(fetched, service)) => fetched == spec && service == Observer.SeenService(cluster, namespace, spec)
    case Some(Ready(result)) => Honest(cluster, namespace, spec, result)
    case None => outcome.Some? && Honest(cluster, namespace, spec, outcome.value)
  }

  /** The snapshot is that of the cluster; or there is none because the contract was rejected, or a read
      failed, for the very specification. */
  predicate Honest(cluster: Cluster, namespace: string, spec: PactoSpec, outcome: Outcome) {
    outcome == Saw(Observer.ObserveCluster(cluster, namespace, spec)) || outcome == Rejected(spec) || outcome == ReadFailed(spec)
  }

  predicate UpToDate(s: System, id: PactoId)
    requires id in s.pactos
  {
    Agrees(s.cluster, id.namespace, s.pactos[id], Lookup(s.working, id), Lookup(s.outcomes, id))
  }

  ghost predicate Inv(s: System) {
    forall id :: id in s.pactos && !s.pactos[id].IsReference() ==> Due(s, id) || UpToDate(s, id)
  }

  /** Every object an observation reads is watched, and its events are mapped to the Pacto. */
  lemma MapperCoversObserver(pactos: Pactos, id: PactoId, key: Key)
    requires id in pactos
    requires key in Observer.ServiceKeys(id.namespace, pactos[id]) + Observer.WorkloadKeys(id.namespace, pactos[id])
    ensures key.kind in WATCHED && id in Mapped(pactos, key)
  {
  }

  /** A change of an object that is not watched, or not mapped to the Pacto, changes nothing it observes. */
  lemma UnmappedChange(s: System, id: PactoId, key: Key, value: Option<Object>)
    requires id in s.pactos && (key.kind !in WATCHED || id !in Mapped(s.pactos, key))
    ensures var after := Replaced(s.cluster, key, value);
            var spec := s.pactos[id];
            && Observer.SeenService(after, id.namespace, spec) == Observer.SeenService(s.cluster, id.namespace, spec)
            && Observer.SeenWorkload(after, id.namespace, spec) == Observer.SeenWorkload(s.cluster, id.namespace, spec)
  {
    if key in Observer.ServiceKeys(id.namespace, s.pactos[id]) + Observer.WorkloadKeys(id.namespace, s.pactos[id]) {
      MapperCoversObserver(s.pactos, id, key);
    }
  }

  lemma ChangeKeeps(s: System, e: Event, id: PactoId)
    requires e.ChangeObject? || e.ChangePacto?
    requires id in Step(s, e).pactos
    requires id in s.pactos ==> Due(s, id) || UpToDate(s, id)
    ensures Due(Step(s, e), id) || UpToDate(Step(s, e), id)
  {
    var s' := Step(s, e);
    if e.ChangeObject? {
      if e.key.kind in WATCHED && id in Mapped(s.pactos, e.key) {
        assert e.key in s'.pending;
        assert Announced(s', id);
      } else {
        UnmappedChange(s, id, e.key, e.value);
        AnnouncedStays(s, s', id);
      }
    } else if id != e.id {
      assert s'.pactos[id] == s.pactos[id];
      AnnouncedStays(s, s', id);
    }
  }

  lemma AnnouncedStays(s: System, s': System, id: PactoId)
    requires id in s.pactos && id in s'.pactos && s'.pactos[id] == s.pactos[id]
    requires forall key :: key in s.pending ==> key in s'.pending
    requires id in s.pendingPactos ==> id in s'.pendingPactos
    ensures Announced(s, id) ==> Announced(s', id)
  {
    if key :| key in s.pending && id in Mapped(s.pactos, key) {
      assert id in Mapped(s'.pactos, key);
    }
  }

  lemma DeliveryKeeps(s: System, e: Event, id: PactoId)
    requires e.DeliverObject? || e.DeliverPacto? || e.Tick? || e.Retry?
    requires id in s.pactos && (Due(s, id) || UpToDate(s, id))
    ensures Due(Step(s, e), id) || UpToDate(Step(s, e), id)
  {
    var s' := Step(s, e);
    if e.DeliverObject? && e.at < |s.pending| {
      if id !in Mapped(s.pactos, s.pending[e.at]) && Announced(s, id) && id !in s.pendingPactos {
        var key :| key in s.pending && id in Mapped(s.pactos, key);
        OthersStayPending(s.pending, e.at, key);
      }
    } else {
      if id in s'.pendingPactos || id !in s.pendingPactos {
        AnnouncedStays(s, s', id);
      }
    }
  }

  lemma OthersStayPending(pending: seq<Key>, at: nat, key: Key)
    requires at < |pending| && key in pending && key != pending[at]
    ensures key in pending[..at] + pending[at + 1..]
  {
    assert pending == pending[..at] + [pending[at]] + pending[at + 1..];
  }

  /** Work on one Pacto leaves what is recorded of another. */
  lemma Elsewhere(s: System, at: PactoId, m: Move, id: PactoId)
    requires at != id && id in s.pactos && (Due(s, id) || UpToDate(s, id))
    ensures Due(Moved(s, at, m), id) || UpToDate(Moved(s, at, m), id)
  {
    var s' := Moved(s, at, m);
    AnnouncedStays(s, s', id);
    assert Lookup(s'.working, id) == Lookup(s.working, id) && Lookup(s'.outcomes, id) == Lookup(s.outcomes, id);
  }

  /** A move that keeps its own Pacto in agreement with the cluster, or makes it due again. */
  predicate Sound(s: System, id: PactoId, m: Move)
    requires id in s.pactos
  {
    match m
    case Ignore => true
    case Begin => true
    case Continue(phase) => UpToDate(s, id) ==> Agrees(s.cluster, id.namespace, s.pactos[id], Some(phase), None)
    case Abandon(again) => again
    case Persist(result, _) => UpToDate(s, id) ==> Agrees(s.cluster, id.namespace, s.pactos[id], None, Some(result))
  }

  lemma WorkIsSound(s: System, e: Event)
    requires IsWork(e) && e.id in s.pactos && !s.pactos[e.id].IsReference()
    ensures Sound(s, e.id, Work(s, e))
  {
  }

  lemma SoundKeeps(s: System, id: PactoId, m: Move)
    requires id in s.pactos && Sound(s, id, m) && (Due(s, id) || UpToDate(s, id))
    ensures Due(Moved(s, id, m), id) || UpToDate(Moved(s, id, m), id)
  {
    AnnouncedStays(s, Moved(s, id, m), id);
  }

  lemma WorkKeeps(s: System, e: Event, id: PactoId)
    requires IsWork(e) && id in s.pactos && !s.pactos[id].IsReference() && (Due(s, id) || UpToDate(s, id))
    ensures Due(Step(s, e), id) || UpToDate(Step(s, e), id)
  {
    if e.id != id {
      Elsewhere(s, e.id, Work(s, e), id);
    } else {
      WorkIsSound(s, e);
      SoundKeeps(s, id, Work(s, e));
    }
  }

  lemma ChangedIsAnnounced(s: System, id: PactoId, spec: Option<PactoSpec>)
    requires id in Step(s, ChangePacto(id, spec)).pactos
    ensures Due(Step(s, ChangePacto(id, spec)), id)
  {
  }

  lemma StepKeeps(s: System, e: Event, id: PactoId)
    requires id in s.pactos && !s.pactos[id].IsReference() ==> Due(s, id) || UpToDate(s, id)
    requires id in Step(s, e).pactos && !Step(s, e).pactos[id].IsReference()
    ensures Due(Step(s, e), id) || UpToDate(Step(s, e), id)
  {
    match e
    case ChangePacto(at, spec) =>
      if at == id {
        ChangedIsAnnounced(s, id, spec);
      } else {
        ChangeKeeps(s, e, id);
      }
    case ChangeObject(_, _) => ChangeKeeps(s, e, id);
    case DeliverObject(_, _) => DeliveryKeeps(s, e, id);
    case DeliverPacto(_) => DeliveryKeeps(s, e, id);
    case Tick(_) => DeliveryKeeps(s, e, id);
    case Retry(_) => DeliveryKeeps(s, e, id);
    case _ => WorkKeeps(s, e, id);
  }

  lemma StepKeepsInv(s: System, e: Event)
    requires Inv(s)
    ensures Inv(Step(s, e))
  {
    var s' := Step(s, e);
    forall id | id in s'.pactos && !s'.pactos[id].IsReference() ensures Due(s', id) || UpToDate(s', id) {
      StepKeeps(s, e, id);
    }
  }

  lemma {:induction false} RunKeepsInv(s: System, events: seq<Event>)
    requires Inv(s)
    ensures Inv(Run(s, events))
    decreases |events|
  {
    if events != [] {
      StepKeepsInv(s, events[0]);
      RunKeepsInv(Step(s, events[0]), events[1..]);
    }
  }

  /** In every reachable state, a targeted Pacto is due again, or all it has read or persisted is current. */
  lemma NeverStaleUnnoticed(cluster: Cluster, pactos: Pactos, events: seq<Event>, id: PactoId)
    requires var s := Run(Initial(cluster, pactos), events); id in s.pactos && !s.pactos[id].IsReference()
    ensures var s := Run(Initial(cluster, pactos), events); Due(s, id) || UpToDate(s, id)
  {
    var s := Initial(cluster, pactos);
    assert forall id :: id in s.pactos ==> Announced(s, id);
    RunKeepsInv(s, events);
  }

  /** No List has failed in the run. */
  predicate ListsSucceed(events: seq<Event>) {
    forall e :: e in events && e.DeliverObject? ==> e.lists
  }

  lemma {:induction false} NothingMissed(s: System, events: seq<Event>)
    requires s.missed == {} && ListsSucceed(events)
    ensures Run(s, events).missed == {}
    decreases |events|
  {
    if events != [] {
      assert events[0] in events;
      assert forall e :: e in events[1..] ==> e in events;
      NothingMissed(Step(s, events[0]), events[1..]);
    }
  }

  /** Nothing is under way for the Pacto, nor announced to it. */
  ghost predicate Idle(s: System, id: PactoId)
    requires id in s.pactos
  {
    id !in s.dirty && id !in s.retrying && id !in s.working && !Announced(s, id)
  }

  /** As long as List succeeds, the last snapshot of every idle targeted Pacto is that of the current cluster,
      whatever changed between its two reads; there is none only if its last persisted reconciliation rejected
      the contract, or failed to read, for the specification it still has. */
  lemma IdleIsCurrent(cluster: Cluster, pactos: Pactos, events: seq<Event>, id: PactoId)
    requires ListsSucceed(events)
    requires var s := Run(Initial(cluster, pactos), events);
             id in s.pactos && !s.pactos[id].IsReference() && Idle(s, id)
    ensures var s := Run(Initial(cluster, pactos), events);
            id in s.outcomes && s.outcomes[id] in {Saw(Current(s, id)), Rejected(s.pactos[id]), ReadFailed(s.pactos[id])}
  {
    NeverStaleUnnoticed(cluster, pactos, events, id);
    NothingMissed(Initial(cluster, pactos), events);
  }

  /** The Pacto's contract is never rejected, and its reads never fail. */
  predicate Unhindered(events: seq<Event>, id: PactoId) {
    forall e :: e in events ==>
      && (e.Forgo? ==> e.id != id)
      && (e.ReadService? || e.ReadWorkload? ==> e.id != id || !e.fails)
  }

  predicate Unexcused(s: System, id: PactoId) {
    && (id in s.outcomes ==> !s.outcomes[id].Rejected? && !s.outcomes[id].ReadFailed?)
    && (id in s.working && s.working[id].Ready? ==> !s.working[id].result.Rejected? && !s.working[id].result.ReadFailed?)
  }

  lemma WorkUnexcused(s: System, e: Event, id: PactoId)
    requires IsWork(e) && Unhindered([e], id)
    ensures e.id == id && Work(s, e).Continue? && Work(s, e).phase.Ready? ==>
              !Work(s, e).phase.result.Rejected? && !Work(s, e).phase.result.ReadFailed?
  {
    assert e in [e];
  }

  lemma MoveUnexcused(s: System, at: PactoId, m: Move, id: PactoId)
    requires Unexcused(s, id)
    requires at == id && m.Continue? && m.phase.Ready? ==> !m.phase.result.Rejected? && !m.phase.result.ReadFailed?
    requires at == id && m.Persist? ==> !m.result.Rejected? && !m.result.ReadFailed?
    ensures Unexcused(Moved(s, at, m), id)
  {
  }

  lemma StepUnexcused(s: System, e: Event, id: PactoId)
    requires Unexcused(s, id) && Unhindered([e], id)
    ensures Unexcused(Step(s, e), id)
  {
    if IsWork(e) {
      WorkUnexcused(s, e, id);
      MoveUnexcused(s, e.id, Work(s, e), id);
    }
  }

  lemma {:induction false} RunUnexcused(s: System, events: seq<Event>, id: PactoId)
    requires Unexcused(s, id) && Unhindered(events, id)
    ensures Unexcused(Run(s, events), id)
    decreases |events|
  {
    if events != [] {
      assert events[0] in events && forall e :: e in events[1..] ==> e in events;
      StepUnexcused(s, events[0], id);
      RunUnexcused(Step(s, events[0]), events[1..], id);
    }
  }

  /** Without such hindrance the last snapshot of the idle Pacto is current, full stop. */
  lemma UnhinderedIdleIsCurrent(cluster: Cluster, pactos: Pactos, events: seq<Event>, id: PactoId)
    requires ListsSucceed(events) && Unhindered(events, id)
    requires var s := Run(Initial(cluster, pactos), events);
             id in s.pactos && !s.pactos[id].IsReference() && Idle(s, id)
    ensures var s := Run(Initial(cluster, pactos), events);
            Lookup(s.outcomes, id) == Some(Saw(Current(s, id)))
  {
    IdleIsCurrent(cluster, pactos, events, id);
    RunUnexcused(Initial(cluster, pactos), events, id);
  }

  // ----- a failed List -----

  /** The change shows in what the Pacto observes: in its service's existence or ports, or in the existence, the
      pod or the kind's own settings of its workload. */
  predicate ChangeShows(s: System, id: PactoId, key: Key, value: Option<Object>)
    requires id in s.pactos
  {
    var kind := Observer.KindOf(s.pactos[id].ResolvedWorkload().1);
    var was := Lookup(s.cluster, key);
    || (key in Observer.ServiceKeys(id.namespace, s.pactos[id]) && Observer.ShownService(value) != Observer.ShownService(was))
    || (key in Observer.WorkloadKeys(id.namespace, s.pactos[id]) &&
        Observer.ShownWorkload(kind, value) != Observer.ShownWorkload(kind, was))
  }

  lemma ChangedObservation(s: System, id: PactoId, key: Key, value: Option<Object>)
    requires id in s.pactos
    ensures Observer.ObserveCluster(Replaced(s.cluster, key, value), id.namespace, s.pactos[id]) == Current(s, id) <==>
            !ChangeShows(s, id, key, value)
  {
    var spec, after := s.pactos[id], Replaced(s.cluster, key, value);
    Observer.SnapshotShows(spec, Observer.SeenService(after, id.namespace, spec), Observer.SeenWorkload(after, id.namespace, spec),
                           Observer.SeenService(s.cluster, id.namespace, spec), Observer.SeenWorkload(s.cluster, id.namespace, spec));
    ReplacedService(s.cluster, id.namespace, spec, key, value);
    ReplacedWorkload(s.cluster, id.namespace, spec, key, value);
  }

  lemma ReplacedService(cluster: Cluster, namespace: string, spec: PactoSpec, key: Key, value: Option<Object>)
    ensures Observer.SeenService(Replaced(cluster, key, value), namespace, spec) ==
            if key in Observer.ServiceKeys(namespace, spec) then value else Observer.SeenService(cluster, namespace, spec)
    ensures key in Observer.ServiceKeys(namespace, spec) ==> Observer.SeenService(cluster, namespace, spec) == Lookup(cluster, key)
  {
  }

  lemma ReplacedWorkload(cluster: Cluster, namespace: string, spec: PactoSpec, key: Key, value: Option<Object>)
    ensures Observer.SeenWorkload(Replaced(cluster, key, value), namespace, spec) ==
            if key in Observer.WorkloadKeys(namespace, spec) then value else Observer.SeenWorkload(cluster, namespace, spec)
    ensures key in Observer.WorkloadKeys(namespace, spec) ==> Observer.SeenWorkload(cluster, namespace, spec) == Lookup(cluster, key)
  {
  }

  /** Exactly what a failed List costs: an idle, current Pacto stays idle, and its snapshot is stale exactly
      when the change shows. */
  lemma FailedListStrands(s: System, id: PactoId, key: Key, value: Option<Object>)
    requires id in s.pactos && Idle(s, id) && Lookup(s.outcomes, id) == Some(Saw(Current(s, id)))
    ensures var s' := Run(s, [ChangeObject(key, value), DeliverObject(|s.pending|, false)]);
            && id in s'.pactos && Idle(s', id)
            && (Lookup(s'.outcomes, id) != Some(Saw(Current(s', id))) <==> ChangeShows(s, id, key, value))
  {
    var first := Step(s, ChangeObject(key, value));
    var second := Step(first, DeliverObject(|s.pending|, false));
    RunTwo(s, ChangeObject(key, value), DeliverObject(|s.pending|, false), [ChangeObject(key, value), DeliverObject(|s.pending|, false)]);
    assert key.kind in WATCHED ==> first.pending[..|s.pending|] == s.pending;
    assert second.pending == s.pending && second.pactos == s.pactos;
    ChangedObservation(s, id, key, value);
  }

  /** The five steps of an undisturbed reconciliation. */
  function Reconciliation(id: PactoId, write: Write): seq<Event> {
    [Pick(id), Fetch(id, false), ReadService(id, false), ReadWorkload(id, false), Finish(id, write)]
  }

  /** The rest of the reconciliation a worker may be in the middle of. */
  function RestOfReconciliation(id: PactoId, write: Write): seq<Event> {
    [Fetch(id, false), ReadService(id, false), ReadWorkload(id, false), Finish(id, write)]
  }

  /** A timed requeue repairs it, whatever state the loop is in: once a worker that holds the Pacto is through,
      the next undisturbed reconciliation persists the current snapshot. */
  lemma TimedRequeueRepairs(s: System, id: PactoId, write: Write)
    requires id in s.pactos && !s.pactos[id].IsReference() && !write.Refused?
    ensures var s' := Run(s, RestOfReconciliation(id, write) + ([Tick(id)] + Reconciliation(id, write)));
            && s'.cluster == s.cluster && s'.pactos == s.pactos
            && Lookup(s'.outcomes, id) == Some(Saw(Current(s', id)))
  {
    var rest, events := RestOfReconciliation(id, write), [Tick(id)] + Reconciliation(id, write);
    RunSplit(s, rest + events, |rest|);
    assert (rest + events)[..|rest|] == rest && (rest + events)[|rest|..] == events;
    LetsGo(s, id, write);
    FreeRequeueRepairs(Run(s, rest), id, write);
  }

  /** Whatever phase a worker is in, these steps end it; a worker that does not hold the Pacto ignores them. */
  lemma LetsGo(s: System, id: PactoId, write: Write)
    requires id in s.pactos && !s.pactos[id].IsReference() && !write.Refused?
    ensures var s' := Run(s, RestOfReconciliation(id, write));
            id !in s'.working && s'.cluster == s.cluster && s'.pactos == s.pactos
  {
    var events := RestOfReconciliation(id, write);
    RunSplit(s, events, 2);
    RunTwo(s, Fetch(id, false), ReadService(id, false), events[..2]);
    var s2 := Step(Step(s, Fetch(id, false)), ReadService(id, false));
    RunTwo(s2, ReadWorkload(id, false), Finish(id, write), events[2..]);
    FirstHalf(s, id);
    SecondHalf(s2, id, write);
  }

  lemma FirstHalf(s: System, id: PactoId)
    requires id in s.pactos && !s.pactos[id].IsReference()
    ensures var s' := Step(Step(s, Fetch(id, false)), ReadService(id, false));
            && s'.cluster == s.cluster && s'.pactos == s.pactos
            && (id in s'.working ==> s'.working[id].SawService? || s'.working[id].Ready?)
  {
    if Lookup(s.working, id) == Some(Picked) {
      ReadsService(s, id);
    }
  }

  lemma SecondHalf(s: System, id: PactoId, write: Write)
    requires (id in s.working ==> s.working[id].SawService? || s.working[id].Ready?) && !write.Refused?
    ensures var s' := Step(Step(s, ReadWorkload(id, false)), Finish(id, write));
            id !in s'.working && s'.cluster == s.cluster && s'.pactos == s.pactos
  {
    if id in s.working && s.working[id].SawService? {
      var SawService(spec, service) := s.working[id];
      WorkIs(s, id, Ready(Saw(Observer.Assemble(spec, service, Observer.SeenWorkload(s.cluster, id.namespace, spec)))), ReadWorkload(id, false));
    }
  }

  lemma FreeRequeueRepairs(s: System, id: PactoId, write: Write)
    requires id in s.pactos && !s.pactos[id].IsReference() && id !in s.working && !write.Refused?
    ensures var s' := Run(s, [Tick(id)] + Reconciliation(id, write));
            && s'.cluster == s.cluster && s'.pactos == s.pactos
            && Lookup(s'.outcomes, id) == Some(Saw(Current(s, id)))
  {
    var events := [Tick(id)] + Reconciliation(id, write);
    TailOfReconciliation(id, write);
    RunSplit(s, events, 2);
    RunTwo(s, Tick(id), Pick(id), events[..2]);
    PickedAfterTick(s, id);
    ReadsAndPersists(Step(Step(s, Tick(id)), Pick(id)), id, write, events[2..]);
  }

  lemma TailOfReconciliation(id: PactoId, write: Write)
    ensures var events := [Tick(id)] + Reconciliation(id, write);
            && events[..2] == [Tick(id), Pick(id)]
            && events[2..] == [Fetch(id, false), ReadService(id, false), ReadWorkload(id, false), Finish(id, write)]
  {
  }

  lemma PickedAfterTick(s: System, id: PactoId)
    requires id !in s.working
    ensures var s' := Step(Step(s, Tick(id)), Pick(id));
            s'.cluster == s.cluster && s'.pactos == s.pactos && Lookup(s'.working, id) == Some(Picked)
  {
  }

  lemma ReadsAndPersists(s: System, id: PactoId, write: Write, events: seq<Event>)
    requires id in s.pactos && !s.pactos[id].IsReference() && Lookup(s.working, id) == Some(Picked) && !write.Refused?
    requires events == [Fetch(id, false), ReadService(id, false), ReadWorkload(id, false), Finish(id, write)]
    ensures var s' := Run(s, events);
            && s'.cluster == s.cluster && s'.pactos == s.pactos
            && Lookup(s'.outcomes, id) == Some(Saw(Current(s, id)))
  {
    var s2 := Step(Step(s, Fetch(id, false)), ReadService(id, false));
    RunSplit(s, events, 2);
    RunTwo(s, Fetch(id, false), ReadService(id, false), events[..2]);
    RunTwo(s2, ReadWorkload(id, false), Finish(id, write), events[2..]);
    ReadsService(s, id);
    Persists(s2, id, write);
  }

  lemma ReadsService(s: System, id: PactoId)
    requires id in s.pactos && !s.pactos[id].IsReference() && Lookup(s.working, id) == Some(Picked)
    ensures Step(Step(s, Fetch(id, false)), ReadService(id, false)) ==
            s.(working := s.working[id := SawService(s.pactos[id], Observer.SeenService(s.cluster, id.namespace, s.pactos[id]))])
  {
    WorkIs(s, id, Fetched(s.pactos[id]), Fetch(id, false));
  }

  lemma Persists(s: System, id: PactoId, write: Write)
    requires id in s.pactos && !write.Refused?
    requires Lookup(s.working, id) == Some(SawService(s.pactos[id], Observer.SeenService(s.cluster, id.namespace, s.pactos[id])))
    ensures var s' := Step(Step(s, ReadWorkload(id, false)), Finish(id, write));
            && s'.cluster == s.cluster && s'.pactos == s.pactos
            && Lookup(s'.outcomes, id) == Some(Saw(Current(s, id)))
  {
    WorkIs(s, id, Ready(Saw(Current(s, id))), ReadWorkload(id, false));
  }

  lemma WorkIs(s: System, id: PactoId, phase: Phase, e: Event)
    requires IsWork(e) && e.id == id && Work(s, e) == Continue(phase)
    ensures Step(s, e) == s.(working := s.working[id := phase])
  {
  }

  lemma RunTwo(s: System, e: Event, e': Event, events: seq<Event>)
    requires events == [e, e']
    ensures Run(s, events) == Step(Step(s, e), e')
  {
    assert events[1..] == [e'];
    assert Run(Step(s, e), [e']) == Run(Step(Step(s, e), e'), [e'][1..]);
  }

  lemma {:induction false} RunSplit(s: System, events: seq<Event>, n: nat)
    requires n <= |events|
    ensures Run(s, events) == Run(Run(s, events[..n]), events[n..])
    decreases n
  {
    if n > 0 {
      RunSplit(Step(s, events[0]), events[1..], n - 1);
      assert events[1..][..n - 1] == events[..n][1..];
    }
  }

  // ----- coming to rest -----

  /** The steps the loop takes by itself while nothing fails and nobody changes anything; timed requeues apart. */
  predicate Calm(e: Event) {
    match e
    case DeliverObject(_, lists) => lists
    case DeliverPacto(_) => true
    case Retry(_) => true
    case Pick(_) => true
    case Fetch(_, fails) => !fails
    case ReadService(_, fails) => !fails
    case ReadWorkload(_, fails) => !fails
    case Finish(_, write) => !write.Refused?
    case _ => false
  }

  /** Calm steps that announce nothing: a status write, if it is one, changes nothing. */
  predicate Silent(e: Event) {
    Calm(e) && (e.Finish? ==> e.write.Unchanged?)
  }

  predicate ChangingWrite(e: Event) {
    e.Finish? && e.write.Changed?
  }

  function ChangingWrites(events: seq<Event>): nat {
    if events == [] then 0 else (if ChangingWrite(events[0]) then 1 else 0) + ChangingWrites(events[1..])
  }

  function Weight(phase: Phase): nat {
    match phase
    case Picked => 5
    case Fetched(_) => 4
    case SawService(_, _) => 3
    case Ready(_) => 1
  }

  ghost function WorkLeft(working: map<PactoId, Phase>): nat
    decreases |working|
  {
    if working == map[] then 0
    else
      var id :| id in working;
      assert |working - {id}| < |working| by { Smaller(working, id); }
      Weight(working[id]) + WorkLeft(working - {id})
  }

  lemma Smaller(working: map<PactoId, Phase>, id: PactoId)
    requires id in working
    ensures |working - {id}| < |working|
  {
    assert (working - {id}).Keys == working.Keys - {id};
    assert |working.Keys - {id}| == |working.Keys| - 1;
  }

  lemma {:induction false} WorkLeftWithout(working: map<PactoId, Phase>, id: PactoId)
    requires id in working
    ensures WorkLeft(working) == Weight(working[id]) + WorkLeft(working - {id})
    decreases |working|
  {
    var k :| k in working && WorkLeft(working) == Weight(working[k]) + WorkLeft(working - {k});
    if k != id {
      Smaller(working, k);
      Smaller(working, id);
      WorkLeftWithout(working - {k}, id);
      WorkLeftWithout(working - {id}, k);
      assert working - {k} - {id} == working - {id} - {k};
    }
  }

  lemma WorkLeftWith(working: map<PactoId, Phase>, id: PactoId, phase: Phase)
    ensures WorkLeft(working[id := phase]) == Weight(phase) + WorkLeft(working - {id})
  {
    WorkLeftWithout(working[id := phase], id);
    assert working[id := phase] - {id} == working - {id};
  }

  function Times(n: nat, unit: nat): nat {
    if n == 0 then 0 else unit + Times(n - 1, unit)
  }

  function Score(pending: nat, pactos: nat, announced: nat, retrying: nat, dirty: nat, work: nat): nat {
    Times(pending, 6 * pactos + 1) + 7 * announced + 7 * retrying + 6 * dirty + work
  }

  /** How many calm steps can be left: every object event may re-queue every Pacto. */
  ghost function Measure(s: System): nat {
    Score(|s.pending|, |s.pactos.Keys|, |s.pendingPactos|, |s.retrying|, |s.dirty|, WorkLeft(s.working))
  }

  lemma CalmDeliveryDecreases(s: System, at: nat)
    requires at < |s.pending|
    ensures Measure(Delivered(s, at, true)) < Measure(s)
  {
    DeliveryQueues(s, at);
    var s' := Delivered(s, at, true);
    ScoreOfDelivery(|s.pending|, |s.pactos.Keys|, |s.pendingPactos|, |s.retrying|, |s.dirty|, |s'.dirty|, WorkLeft(s.working));
  }

  lemma DeliveryQueues(s: System, at: nat)
    requires at < |s.pending|
    ensures var s' := Delivered(s, at, true);
            |s'.dirty| <= |s.dirty| + |s.pactos.Keys| && |s'.pending| == |s.pending| - 1
  {
    var mapped := Mapped(s.pactos, s.pending[at]);
    Subset(mapped, s.pactos.Keys);
    Union(s.dirty, mapped);
  }

  lemma ScoreOfDelivery(pending: nat, pactos: nat, announced: nat, retrying: nat, dirty: nat, dirty': nat, work: nat)
    requires pending > 0 && dirty' <= dirty + pactos
    ensures Score(pending - 1, pactos, announced, retrying, dirty', work) < Score(pending, pactos, announced, retrying, dirty, work)
  {
  }

  lemma Union<T>(a: set<T>, b: set<T>)
    ensures |a + b| <= |a| + |b|
  {
  }

  lemma Without<T>(a: set<T>, x: T)
    requires x in a
    ensures |a - {x}| == |a| - 1
  {
  }

  lemma {:induction false} Subset<T>(a: set<T>, b: set<T>)
    requires a <= b
    ensures |a| <= |b|
  {
    assert b == a + (b - a);
  }

  predicate Forward(s: System, id: PactoId, m: Move) {
    match m
    case Ignore => true
    case Begin => id in s.dirty && id !in s.working
    case Continue(phase) => id in s.working && Weight(phase) < Weight(s.working[id])
    case Abandon(again) => id in s.working && !again
    case Persist(_, announces) => id in s.working && !announces
  }

  lemma CalmWork(s: System, e: Event)
    requires Silent(e) && IsWork(e)
    ensures Forward(s, e.id, Work(s, e))
  {
  }

  lemma WorkLeftNew(working: map<PactoId, Phase>, id: PactoId, phase: Phase)
    requires id !in working
    ensures WorkLeft(working[id := phase]) == Weight(phase) + WorkLeft(working)
  {
    WorkLeftWith(working, id, phase);
    assert working - {id} == working;
  }

  lemma CalmPickDecreases(s: System, id: PactoId)
    requires id in s.dirty && id !in s.working
    ensures Measure(Moved(s, id, Begin)) < Measure(s)
  {
    PickedParts(s, id);
    LessScore(|s.pending|, |s.pactos.Keys|, |s.pendingPactos|, |s.retrying|, |s.dirty|, WorkLeft(s.working),
              |s.dirty| - 1, WorkLeft(s.working) + 5);
  }

  lemma PickedParts(s: System, id: PactoId)
    requires id in s.dirty && id !in s.working
    ensures |s.dirty| > 0
    ensures Measure(Moved(s, id, Begin)) ==
            Score(|s.pending|, |s.pactos.Keys|, |s.pendingPactos|, |s.retrying|, |s.dirty| - 1, WorkLeft(s.working) + 5)
  {
    WorkLeftNew(s.working, id, Picked);
    Without(s.dirty, id);
  }

  lemma LessScore(pending: nat, pactos: nat, announced: nat, retrying: nat, dirty: nat, work: nat, dirty': nat, work': nat)
    requires 6 * dirty' + work' < 6 * dirty + work
    ensures Score(pending, pactos, announced, retrying, dirty', work') < Score(pending, pactos, announced, retrying, dirty, work)
  {
  }

  lemma CalmMoveDecreases(s: System, id: PactoId, m: Move)
    requires Forward(s, id, m)
    ensures m.Ignore? || Measure(Moved(s, id, m)) < Measure(s)
  {
    if m.Begin? {
      CalmPickDecreases(s, id);
    } else if !m.Ignore? {
      CalmProgressDecreases(s, id, m);
    }
  }

  lemma CalmProgressDecreases(s: System, id: PactoId, m: Move)
    requires Forward(s, id, m) && !m.Begin? && !m.Ignore?
    ensures Measure(Moved(s, id, m)) < Measure(s)
  {
    var work := WorkLeft(Moved(s, id, m).working);
    LessWork(s, id, m);
    LessScore(|s.pending|, |s.pactos.Keys|, |s.pendingPactos|, |s.retrying|, |s.dirty|, WorkLeft(s.working), |s.dirty|, work);
  }

  lemma LessWork(s: System, id: PactoId, m: Move)
    requires Forward(s, id, m) && !m.Begin? && !m.Ignore?
    ensures WorkLeft(Moved(s, id, m).working) < WorkLeft(s.working)
  {
    WorkLeftWithout(s.working, id);
    if m.Continue? {
      WorkLeftWith(s.working, id, m.phase);
    }
  }

  lemma CalmNoticeDecreases(s: System, id: PactoId)
    requires id in s.pendingPactos
    ensures Measure(Noticed(s, id)) < Measure(s)
  {
    Union(s.dirty, {id});
    Without(s.pendingPactos, id);
  }

  lemma CalmRetryDecreases(s: System, id: PactoId)
    requires id in s.retrying
    ensures Measure(Retried(s, id)) < Measure(s)
  {
    Union(s.dirty, {id});
    Without(s.retrying, id);
  }

  lemma CalmStepDecreases(s: System, e: Event)
    requires Silent(e)
    ensures Step(s, e) == s || Measure(Step(s, e)) < Measure(s)
  {
    if e.DeliverObject? {
      if e.at < |s.pending| {
        CalmDeliveryDecreases(s, e.at);
      }
    } else if e.DeliverPacto? {
      if e.id in s.pendingPactos {
        CalmNoticeDecreases(s, e.id);
      }
    } else if e.Retry? {
      if e.id in s.retrying {
        CalmRetryDecreases(s, e.id);
      }
    } else {
      CalmWork(s, e);
      CalmMoveDecreases(s, e.id, Work(s, e));
    }
  }

  /** Runs of any step function, and those whose every step does something. */
  function RunBy<S, E>(step: (S, E) -> S, s: S, events: seq<E>): S
    decreases |events|
  {
    if events == [] then s else RunBy(step, step(s, events[0]), events[1..])
  }

  predicate EffectiveBy<S(==), E>(step: (S, E) -> S, s: S, events: seq<E>)
    decreases |events|
  {
    events != [] ==> step(s, events[0]) != s && EffectiveBy(step, step(s, events[0]), events[1..])
  }

  lemma {:induction false} EffectiveByAppend<S, E>(step: (S, E) -> S, s: S, a: seq<E>, b: seq<E>)
    requires EffectiveBy(step, s, a) && EffectiveBy(step, RunBy(step, s, a), b)
    ensures EffectiveBy(step, s, a + b)
    decreases |a|
  {
    if a == [] {
      assert a + b == b;
    } else {
      EffectiveByAppend(step, step(s, a[0]), a[1..], b);
      assert (a + b)[1..] == a[1..] + b;
    }
  }

  lemma {:induction false} TracedBy<S, E>(step: (S, E) -> S, s: S, events: seq<E>, states: seq<S>)
    requires |states| == |events| + 1 && states[0] == s
    requires forall i :: 0 <= i < |events| ==> step(states[i], events[i]) == states[i + 1] != states[i]
    ensures RunBy(step, s, events) == states[|events|] && EffectiveBy(step, s, events)
    decreases |events|
  {
    if events != [] {
      TracedBy(step, states[1], events[1..], states[1..]);
    }
  }

  lemma {:induction false} RunIsRunBy(s: System, events: seq<Event>)
    ensures Run(s, events) == RunBy(Step, s, events)
    decreases |events|
  {
    if events != [] {
      RunIsRunBy(Step(s, events[0]), events[1..]);
    }
  }

  predicate Effective(s: System, events: seq<Event>) {
    EffectiveBy(Step, s, events)
  }

  /** A write that changes something costs a step and may bring back its Pacto. */
  lemma ChangingWriteCosts(s: System, id: PactoId, result: Outcome)
    requires id in s.working
    ensures Measure(Moved(s, id, Persist(result, true))) <= Measure(s) + 6
  {
    var s' := Moved(s, id, Persist(result, true));
    LessWork(s, id, Persist(result, false));
    Union(s.pendingPactos, {id});
    MoreScore(|s.pending|, |s.pactos.Keys|, |s.pendingPactos|, |s.retrying|, |s.dirty|, WorkLeft(s.working),
              |s'.pendingPactos|, WorkLeft(s'.working));
  }

  lemma MoreScore(pending: nat, pactos: nat, announced: nat, retrying: nat, dirty: nat, work: nat, announced': nat, work': nat)
    requires announced' <= announced + 1 && work' < work
    ensures Score(pending, pactos, announced', retrying, dirty, work') <= Score(pending, pactos, announced, retrying, dirty, work) + 6
  {
  }

  lemma CalmStepCosts(s: System, e: Event)
    requires Calm(e) && Step(s, e) != s
    ensures Measure(Step(s, e)) + 1 <= Measure(s) + if ChangingWrite(e) then 7 else 0
  {
    if ChangingWrite(e) {
      ChangingWriteCosts(s, e.id, s.working[e.id].result);
    } else {
      CalmStepDecreases(s, e);
    }
  }

  /** A run of effective steps of the loop itself. */
  predicate CalmRun(s: System, events: seq<Event>) {
    (forall e :: e in events ==> Calm(e)) && Effective(s, events)
  }

  /** Left alone, the loop takes no more steps than its measure, and seven for each status write that changes
      something. */
  lemma {:induction false} CalmRunsEnd(s: System, events: seq<Event>)
    requires CalmRun(s, events)
    ensures |events| <= Measure(s) + 7 * ChangingWrites(events)
    decreases |events|
  {
    if events != [] {
      assert events[0] in events;
      CalmStepCosts(s, events[0]);
      assert forall e :: e in events[1..] ==> e in events;
      CalmRunsEnd(Step(s, events[0]), events[1..]);
    }
  }

  lemma {:induction false} WritesAreSteps(events: seq<Event>)
    ensures ChangingWrites(events) <= |events|
  {
    if events != [] {
      WritesAreSteps(events[1..]);
    }
  }

  ghost predicate HasSteps(runs: iset<seq<Event>>, n: nat) {
    exists r :: r in runs && |r| >= n
  }

  ghost predicate HasWrites(runs: iset<seq<Event>>, n: nat) {
    exists r :: r in runs && ChangingWrites(r) >= n
  }

  /** Left alone, the loop can go on without bound exactly when its status writes keep changing something. */
  lemma GoesOnWhileWritesChange(s: System, runs: iset<seq<Event>>)
    requires forall r :: r in runs ==> CalmRun(s, r)
    ensures (forall n: nat :: HasSteps(runs, n)) <==> (forall n: nat :: HasWrites(runs, n))
  {
    if forall n: nat :: HasSteps(runs, n) {
      forall n: nat ensures HasWrites(runs, n) {
        assert HasSteps(runs, Measure(s) + 7 * n);
        var r :| r in runs && |r| >= Measure(s) + 7 * n;
        CalmRunsEnd(s, r);
      }
    }
    if forall n: nat :: HasWrites(runs, n) {
      forall n: nat ensures HasSteps(runs, n) {
        assert HasWrites(runs, n);
        var r :| r in runs && ChangingWrites(r) >= n;
        WritesAreSteps(r);
      }
    }
  }

  // ----- the loop that its own writes keep going -----

  /** A Pacto's announcement is delivered, and it is reconciled with a write that announces it again. */
  function Loop(id: PactoId): seq<Event> {
    [DeliverPacto(id), Pick(id), Fetch(id, false), ReadService(id, false), ReadWorkload(id, false), Finish(id, Changed)]
  }

  /** Only the announcement is left of a targeted Pacto's last reconciliation. */
  predicate OnlyAnnounced(s: System, id: PactoId) {
    && id in s.pactos && !s.pactos[id].IsReference()
    && id in s.pendingPactos && id !in s.dirty && id !in s.working && id !in s.missed
  }

  predicate Leads(s: System, e: Event, s': System) {
    Step(s, e) == s' && s' != s
  }

  lemma Traced(s: System, events: seq<Event>, states: seq<System>)
    requires |states| == |events| + 1 && states[0] == s
    requires forall i :: 0 <= i < |events| ==> Leads(states[i], events[i], states[i + 1])
    ensures Run(s, events) == states[|events|] && Effective(s, events)
  {
    forall i | 0 <= i < |events| ensures Step(states[i], events[i]) == states[i + 1] != states[i] {
      assert Leads(states[i], events[i], states[i + 1]);
    }
    RunIsRunBy(s, events);
    TracedBy(Step, s, events, states);
  }

  /** The states the loop goes through before its write. */
  function Midway(s: System, id: PactoId, phase: Phase): System {
    s.(pendingPactos := s.pendingPactos - {id}, working := s.working[id := phase])
  }

  lemma LoopBegins(s: System, id: PactoId)
    requires OnlyAnnounced(s, id)
    ensures Step(s, DeliverPacto(id)) == Noticed(s, id) && Step(Noticed(s, id), Pick(id)) == Midway(s, id, Picked)
    ensures Noticed(s, id) != s
  {
    assert s.dirty + {id} - {id} == s.dirty && s.missed - {id} == s.missed;
  }

  lemma LoopReads(s: System, id: PactoId)
    requires OnlyAnnounced(s, id)
    ensures var spec := s.pactos[id];
            var service := Observer.SeenService(s.cluster, id.namespace, spec);
            && Step(Midway(s, id, Picked), Fetch(id, false)) == Midway(s, id, Fetched(spec))
            && Step(Midway(s, id, Fetched(spec)), ReadService(id, false)) == Midway(s, id, SawService(spec, service))
            && Step(Midway(s, id, SawService(spec, service)), ReadWorkload(id, false)) == Midway(s, id, Ready(Saw(Current(s, id))))
  {
    var spec := s.pactos[id];
    var service := Observer.SeenService(s.cluster, id.namespace, spec);
    WorkIs(Midway(s, id, Picked), id, Fetched(spec), Fetch(id, false));
    WorkIs(Midway(s, id, Fetched(spec)), id, SawService(spec, service), ReadService(id, false));
    WorkIs(Midway(s, id, SawService(spec, service)), id, Ready(Saw(Current(s, id))), ReadWorkload(id, false));
  }

  lemma LoopWrites(s: System, id: PactoId)
    requires OnlyAnnounced(s, id)
    ensures Step(Midway(s, id, Ready(Saw(Current(s, id)))), Finish(id, Changed)) == s.(outcomes := s.outcomes[id := Saw(Current(s, id))])
  {
    assert s.working[id := Ready(Saw(Current(s, id)))] - {id} == s.working;
    assert s.pendingPactos - {id} + {id} == s.pendingPactos;
  }

  function LoopStates(s: System, id: PactoId): (states: seq<System>)
    requires id in s.pactos
    ensures |states| == 7
  {
    var spec := s.pactos[id];
    [s, Noticed(s, id), Midway(s, id, Picked), Midway(s, id, Fetched(spec)),
     Midway(s, id, SawService(spec, Observer.SeenService(s.cluster, id.namespace, spec))),
     Midway(s, id, Ready(Saw(Current(s, id)))), s.(outcomes := s.outcomes[id := Saw(Current(s, id))])]
  }

  lemma TraceBegins(s: System, id: PactoId, i: nat)
    requires OnlyAnnounced(s, id) && i < 2
    ensures Leads(LoopStates(s, id)[i], Loop(id)[i], LoopStates(s, id)[i + 1])
  {
    LoopBegins(s, id);
    MidwaysDiffer(s, id);
  }

  lemma TraceReads(s: System, id: PactoId, i: nat)
    requires OnlyAnnounced(s, id) && 2 <= i < 5
    ensures Leads(LoopStates(s, id)[i], Loop(id)[i], LoopStates(s, id)[i + 1])
  {
    LoopReads(s, id);
    MidwaysDiffer(s, id);
  }

  lemma TraceWrites(s: System, id: PactoId)
    requires OnlyAnnounced(s, id)
    ensures Leads(LoopStates(s, id)[5], Loop(id)[5], LoopStates(s, id)[6])
  {
    LoopWrites(s, id);
    MidwaysDiffer(s, id);
  }

  lemma LoopTrace(s: System, id: PactoId, i: nat)
    requires OnlyAnnounced(s, id) && i < 6
    ensures Leads(LoopStates(s, id)[i], Loop(id)[i], LoopStates(s, id)[i + 1])
  {
    if i < 2 {
      TraceBegins(s, id, i);
    } else if i < 5 {
      TraceReads(s, id, i);
    } else {
      TraceWrites(s, id);
    }
  }

  /** The loop takes six calm, effective steps and leaves all but the outcome as it was. */
  lemma LoopReturns(s: System, id: PactoId)
    requires OnlyAnnounced(s, id)
    ensures CalmRun(s, Loop(id)) && Run(s, Loop(id)) == s.(outcomes := s.outcomes[id := Saw(Current(s, id))])
  {
    forall i | 0 <= i < 6 ensures Leads(LoopStates(s, id)[i], Loop(id)[i], LoopStates(s, id)[i + 1]) {
      LoopTrace(s, id, i);
    }
    LoopIsCalm(id);
    Traced(s, Loop(id), LoopStates(s, id));
  }

  lemma LoopIsCalm(id: PactoId)
    ensures |Loop(id)| == 6 && forall e :: e in Loop(id) ==> Calm(e)
  {
  }

  lemma MidwaysDiffer(s: System, id: PactoId)
    requires OnlyAnnounced(s, id)
    ensures forall phase, phase' :: phase != phase' ==> Midway(s, id, phase) != Midway(s, id, phase')
    ensures forall phase :: Midway(s, id, phase) != Noticed(s, id)
    ensures forall phase, outcomes :: Midway(s, id, phase) != s.(outcomes := outcomes)
  {
    assert forall phase :: id in Midway(s, id, phase).working && Midway(s, id, phase).working[id] == phase;
  }

  /** An idle, current Pacto whose own write is still announced comes back to exactly the same state. */
  lemma LoopIsEndless(s: System, id: PactoId)
    requires OnlyAnnounced(s, id) && Lookup(s.outcomes, id) == Some(Saw(Current(s, id)))
    ensures CalmRun(s, Loop(id)) && Run(s, Loop(id)) == s
  {
    LoopReturns(s, id);
    assert s.outcomes[id := Saw(Current(s, id))] == s.outcomes;
  }

  function Loops(id: PactoId, n: nat): seq<Event> {
    if n == 0 then [] else Loop(id) + Loops(id, n - 1)
  }

  lemma EffectiveAppend(s: System, a: seq<Event>, b: seq<Event>)
    requires Effective(s, a) && Effective(Run(s, a), b)
    ensures Effective(s, a + b)
  {
    RunIsRunBy(s, a);
    EffectiveByAppend(Step, s, a, b);
  }

  lemma CalmRunAppend(s: System, a: seq<Event>, b: seq<Event>)
    requires CalmRun(s, a) && CalmRun(Run(s, a), b)
    ensures CalmRun(s, a + b)
  {
    assert forall e :: e in a + b <==> e in a || e in b;
    EffectiveAppend(s, a, b);
  }

  /** Nothing changes and nothing fails, and yet the loop goes on as long as one likes. */
  lemma {:induction false} NeverComesToRest(s: System, id: PactoId, n: nat)
    requires OnlyAnnounced(s, id)
    ensures CalmRun(s, Loops(id, n)) && |Loops(id, n)| == 6 * n
    decreases n
  {
    if n > 0 {
      LoopReturns(s, id);
      NeverComesToRest(Run(s, Loop(id)), id, n - 1);
      CalmRunAppend(s, Loop(id), Loops(id, n - 1));
    }
  }

  /** So it does from the very start, for any cluster and any targeted Pacto. */
  lemma NeverRestsFromStart(cluster: Cluster, pactos: Pactos, id: PactoId, n: nat)
    requires id in pactos && !pactos[id].IsReference()
    ensures CalmRun(Initial(cluster, pactos), Loops(id, n)) && |Loops(id, n)| == 6 * n
  {
    NeverComesToRest(Initial(cluster, pactos), id, n);
  }

  ghost predicate AtRest(s: System) {
    forall e :: Calm(e) ==> Step(s, e) == s
  }

  lemma StillMeans(s: System, id: PactoId)
    requires AtRest(s)
    ensures id !in s.pendingPactos && id !in s.retrying && id !in s.working && id !in s.dirty
  {
    assert Step(s, DeliverPacto(id)) == s;
    assert Step(s, Retry(id)) == s;
    NoWorkLeft(s, id);
    assert Step(s, Pick(id)) == s;
  }

  lemma NoWorkLeft(s: System, id: PactoId)
    requires AtRest(s)
    ensures id !in s.working
  {
    forall e | Silent(e) && IsWork(e) && e.id == id ensures Work(s, e).Ignore? {
      assert Step(s, e) == s;
      CalmWork(s, e);
      if !Work(s, e).Ignore? {
        CalmMoveDecreases(s, id, Work(s, e));
      }
    }
    assert Work(s, Fetch(id, false)).Ignore?;
    assert Work(s, ReadService(id, false)).Ignore?;
    assert Work(s, ReadWorkload(id, false)).Ignore?;
    assert Work(s, Finish(id, Unchanged)).Ignore?;
  }

  lemma AtRestMeans(s: System)
    requires AtRest(s)
    ensures s.pending == []
    ensures forall id :: id !in s.pendingPactos && id !in s.retrying && id !in s.working && id !in s.dirty
  {
    assert Step(s, DeliverObject(0, true)) == s;
    forall id ensures id !in s.pendingPactos && id !in s.retrying && id !in s.working && id !in s.dirty {
      StillMeans(s, id);
    }
  }

  /** And once at rest, if no List has failed, every targeted Pacto's last snapshot is current, unless its own
      last persisted reconciliation rejected the contract or failed to read; never so if it was unhindered. */
  lemma RestIsCurrent(cluster: Cluster, pactos: Pactos, events: seq<Event>, id: PactoId)
    requires ListsSucceed(events)
    requires var s := Run(Initial(cluster, pactos), events); AtRest(s) && id in s.pactos && !s.pactos[id].IsReference()
    ensures var s := Run(Initial(cluster, pactos), events);
            && id in s.outcomes && s.outcomes[id] in {Saw(Current(s, id)), Rejected(s.pactos[id]), ReadFailed(s.pactos[id])}
            && (Unhindered(events, id) ==> s.outcomes[id] == Saw(Current(s, id)))
  {
    AtRestMeans(Run(Initial(cluster, pactos), events));
    IdleIsCurrent(cluster, pactos, events, id);
    if Unhindered(events, id) {
      UnhinderedIdleIsCurrent(cluster, pactos, events, id);
    }
  }
}
