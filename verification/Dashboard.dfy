/** The lifecycle of the dashboard's resources (internal/dashboard/reconciler.go), under API calls that may fail
    before or after taking effect. */
module Dashboard {
  import opened Wrappers
  import Credentials

  datatype Kind =
    | NamespaceKind | ServiceAccountKind | ClusterRoleKind | ClusterRoleBindingKind | SecretKind | DeploymentKind | ServiceKind

  datatype Key = Key(kind: Kind, namespace: string, name: string)

  /** A field of an object: one of its labels, or anything else it holds. */
  datatype Field = Label(key: string) | Path(path: string)

  /** What a field holds; the data of a Secret is one field. */
  datatype Value = Text(text: string) | Data(secret: Credentials.Secret)

  /** `owned` are the fields last applied by this operator, `shared` those another field manager also owns. */
  datatype Object = Object(fields: map<Field, Value>, owned: set<Field>, shared: set<Field>)

  type Store = map<Key, Object>

  const NAME := "pacto-dashboard"
  const MANAGED_SECRET_NAME := "pacto-dashboard-oci-creds"
  const MANAGED_BY := Label("app.kubernetes.io/managed-by")
  const COMPONENT := Label("app.kubernetes.io/component")
  const DATA := Path("data")
  const LABELS: map<Field, Value> :=
    map[MANAGED_BY := Text("pacto-operator"), COMPONENT := Text("dashboard"), Label("app.kubernetes.io/name") := Text(NAME)]

  /** The credentials merged from the source secrets, by registry host. */
  type Merged = map<string, Credentials.AuthEntry>

  predicate Managed(o: Object) {
    && MANAGED_BY in o.fields && o.fields[MANAGED_BY] == Text("pacto-operator")
    && COMPONENT in o.fields && o.fields[COMPONENT] == Text("dashboard")
  }

  /** `parts` are the fields of each applied resource besides its labels. */
  datatype Config = Config(enabled: bool, namespace: string, secretNames: seq<string>, parts: Stage -> map<Field, Value>)

  /** The steps of an enabled pass. */
  datatype Stage = EnsureNamespace | ServiceAccount | ClusterRole | ClusterRoleBinding | OciCredentials | Deployment | Service

  const STAGES := [EnsureNamespace, ServiceAccount, ClusterRole, ClusterRoleBinding, OciCredentials, Deployment, Service]

  function KeyOf(cfg: Config, stage: Stage): Key {
    match stage
    case EnsureNamespace => Key(NamespaceKind, "", cfg.namespace)
    case ServiceAccount => Key(ServiceAccountKind, cfg.namespace, NAME)
    case ClusterRole => Key(ClusterRoleKind, "", NAME)
    case ClusterRoleBinding => Key(ClusterRoleBindingKind, "", NAME)
    case OciCredentials => Key(SecretKind, cfg.namespace, MANAGED_SECRET_NAME)
    case Deployment => Key(DeploymentKind, cfg.namespace, NAME)
    case Service => Key(ServiceKind, cfg.namespace, NAME)
  }

  function SourceKey(cfg: Config, name: string): Key {
    Key(SecretKind, cfg.namespace, name)
  }

  function Lookup(store: Store, key: Key): Option<Object> {
    if key in store then Some(store[key]) else None
  }

  function Put(store: Store, key: Key, value: Option<Object>): Store {
    match value
    case Some(o) => store[key := o]
    case None => store - {key}
  }

  /** Server-side apply with forced ownership: applied fields win; fields applied before and not now are
      dropped, unless someone else owns them too. */
  function Applied(o: Option<Object>, config: map<Field, Value>): Object {
    match o
    case None => Object(config, config.Keys, {})
    case Some(o) =>
      Object(o.fields - (o.owned - config.Keys - o.shared) + config, config.Keys,
             set f | f in o.shared && (f !in config || (f in o.fields && o.fields[f] == config[f])))
  }

  /** Applied fields win, fields of others survive, and of the fields applied before only those go that are
      neither applied now nor anyone else's. */
  lemma ApplyKeepsForeignFields(o: Object, config: map<Field, Value>, f: Field)
    ensures var after := Applied(Some(o), config);
            if f in config then f in after.fields && after.fields[f] == config[f]
            else if f in o.fields && (f !in o.owned || f in o.shared) then f in after.fields && after.fields[f] == o.fields[f]
            else f !in after.fields
  {
  }

  /** A field applied once and not again goes away, unless someone else set it to the same value before. */
  lemma DroppedFieldsGo(o: Option<Object>, first: map<Field, Value>, second: map<Field, Value>, f: Field)
    requires f in first && f !in second
    ensures f in Applied(Some(Applied(o, first)), second).fields <==>
            o.Some? && f in o.value.shared && f in o.value.fields && o.value.fields[f] == first[f]
  {
  }

  lemma ApplyTwice(o: Option<Object>, config: map<Field, Value>)
    ensures Applied(Some(Applied(o, config)), config) == Applied(o, config)
  {
    var once := Applied(o, config);
    assert once.owned - config.Keys - once.shared == {};
    assert once.fields - {} + config == once.fields;
  }

  function Applies(cfg: Config, store: Store, stage: Stage, extra: map<Field, Value>): Object {
    Applied(Lookup(store, KeyOf(cfg, stage)), cfg.parts(stage) + extra + LABELS)
  }

  /** A stored object as a Secret; without data it is an opaque one that holds nothing. */
  function SecretOf(o: Object): Credentials.Secret {
    if DATA in o.fields && o.fields[DATA].Data? then o.fields[DATA].secret else Credentials.OpaqueSecret(map[])
  }

  function SecretsNamed(cfg: Config, store: Store, names: seq<string>): Option<seq<Credentials.Secret>> {
    if names == [] then Some([])
    else
      var rest := SecretsNamed(cfg, store, names[..|names| - 1]);
      var last := Lookup(store, SourceKey(cfg, names[|names| - 1]));
      if rest.Some? && last.Some? then Some(rest.value + [SecretOf(last.value)]) else None
  }

  /** The configured source secrets, if all are there. The managed secret may be one of them. */
  function Sources(cfg: Config, store: Store): Option<seq<Credentials.Secret>> {
    SecretsNamed(cfg, store, cfg.secretNames)
  }

  /** All source secrets are there and none is refused. */
  predicate Mergeable(cfg: Config, store: Store) {
    var sources := Sources(cfg, store);
    sources.Some? && forall s :: s in sources.value ==> Credentials.Refusal(s).None?
  }

  /** Some order in which Go may walk the maps of the sources yields this merge. */
  ghost predicate MayMerge(cfg: Config, store: Store, merged: Merged) {
    Mergeable(cfg, store) ==> Credentials.IsMerge(Sources(cfg, store).value, merged)
  }

  /** What a stage wants at its key, when the credentials come out as `merged`; Failure when it cannot say. */
  function Want(cfg: Config, store: Store, stage: Stage, merged: Merged): Result<Option<Object>, ()> {
    match stage
    case EnsureNamespace =>
      Success(Some(if KeyOf(cfg, stage) in store then store[KeyOf(cfg, stage)] else Object(LABELS, {}, {})))
    case OciCredentials =>
      if cfg.secretNames == [] then Success(None)
      else if !Mergeable(cfg, store) then Failure(())
      else Success(Some(Applies(cfg, store, stage, MergedData(merged))))
    case _ => Success(Some(Applies(cfg, store, stage, map[])))
  }

  function MergedData(merged: Merged): map<Field, Value> {
    map[DATA := Data(Credentials.DockerConfigSecret(Credentials.Parsed(merged)))]
  }

  function Do(cfg: Config, store: Store, stage: Stage, merged: Merged): Option<Store> {
    match Want(cfg, store, stage, merged)
    case Failure(_) => None
    case Success(value) => Some(Put(store, KeyOf(cfg, stage), value))
  }

  /** The stages in turn, up to the first that cannot be done. */
  function DoAll(cfg: Config, store: Store, stages: seq<Stage>, merged: Merged): (Store, bool) {
    if stages == [] then (store, true)
    else
      var (s, ok) := DoAll(cfg, store, stages[..|stages| - 1], merged);
      if !ok then (s, false)
      else
        match Do(cfg, s, stages[|stages| - 1], merged)
        case None => (s, false)
        case Some(s') => (s', true)
  }

  /** The keys that cleanup looks at, in its order. */
  function CleanupKeys(cfg: Config): seq<Key> {
    [KeyOf(cfg, Service), KeyOf(cfg, Deployment), KeyOf(cfg, OciCredentials), KeyOf(cfg, ClusterRoleBinding),
     KeyOf(cfg, ClusterRole), KeyOf(cfg, ServiceAccount)]
  }

  function Cleaned(store: Store, keys: seq<Key>): Store {
    map k | k in store && !(k in keys && Managed(store[k])) :: store[k]
  }

  // ----- the reconciler -----

  /** How one API call ends: `Lost` takes effect and still reports an error. */
  datatype Fault = Fine | Refused | Lost

  /** The store stands where a faulty stage may leave it. */
  predicate AfterStage(cfg: Config, before: Store, after: Store, stage: Stage, ok: bool, merged: Merged) {
    if ok then Do(cfg, before, stage, merged) == Some(after)
    else after == before || Do(cfg, before, stage, merged) == Some(after)
  }

  /** The first `n` stages have succeeded, with credentials the sources may merge to once they are reached. */
  ghost predicate Standing(cfg: Config, start: Store, n: nat, store: Store, merged: Merged) {
    && n <= |STAGES| && DoAll(cfg, start, STAGES[..n], merged) == (store, true)
    && (n > CREDENTIALS ==> MayMerge(cfg, start, merged))
  }

  /** The place of the credentials among the stages. */
  const CREDENTIALS := 4

  /** The store stands where a faulty pass may leave it: after some of the stages. */
  ghost predicate AfterSome(cfg: Config, before: Store, after: Store) {
    exists n: nat, merged :: Standing(cfg, before, n, after, merged)
  }

  ghost predicate AfterCleanup(cfg: Config, before: Store, after: Store) {
    exists n: nat :: n <= 6 && after == Cleaned(before, CleanupKeys(cfg)[..n])
  }

  /** With this merge an error-free enabled pass ends so. */
  ghost predicate EndsWith(cfg: Config, before: Store, after: Store, ok: bool, merged: Merged) {
    MayMerge(cfg, before, merged) && DoAll(cfg, before, STAGES, merged) == (after, ok)
  }

  /** An error-free pass may end so. */
  ghost predicate MayEnd(cfg: Config, before: Store, after: Store, ok: bool) {
    if cfg.enabled then exists merged :: EndsWith(cfg, before, after, ok, merged)
    else ok && after == Cleaned(before, CleanupKeys(cfg))
  }

  /** How an enabled pass ends: undisturbed, with `quiet`, or successful, as an error-free pass may. */
  ghost predicate EndsPass(cfg: Config, start: Store, store: Store, ok: bool, quiet: bool, merged: Merged) {
    ok || quiet ==> EndsWith(cfg, start, store, ok, merged)
  }

  class Reconciler {
    const cfg: Config
    var store: Store
    var script: seq<Fault>

    constructor (cfg: Config, store: Store, script: seq<Fault>)
      ensures this.cfg == cfg && this.store == store && this.script == script
    {
      this.cfg, this.store, this.script := cfg, store, script;
    }

    /** No call is going to fail. */
    predicate Quiet()
      reads this
    {
      forall f :: f in script ==> f.Fine?
    }

    method NextFault() returns (f: Fault)
      modifies this`script
      ensures old(Quiet()) ==> Quiet() && f.Fine?
    {
      if script == [] {
        return Fine;
      }
      f := script[0];
      assert f in script;
      script := script[1..];
    }

    method Get(key: Key) returns (ok: bool, o: Option<Object>)
      modifies this`script
      ensures ok ==> o == Lookup(store, key)
      ensures old(Quiet()) ==> Quiet() && ok
    {
      var f := NextFault();
      ok, o := f.Fine?, Lookup(store, key);
    }

    /** Create, Apply and Delete alike: the call puts a value at a key. */
    method Write(key: Key, value: Option<Object>) returns (ok: bool)
      modifies this
      ensures ok ==> store == Put(old(store), key, value)
      ensures !ok ==> store == old(store) || store == Put(old(store), key, value)
      ensures old(Quiet()) ==> Quiet() && ok
    {
      var f := NextFault();
      if !f.Refused? {
        store := Put(store, key, value);
      }
      ok := f.Fine?;
    }

    method Apply(stage: Stage, extra: map<Field, Value>) returns (ok: bool)
      modifies this
      ensures ok ==> store == Put(old(store), KeyOf(cfg, stage), Some(Applies(cfg, old(store), stage, extra)))
      ensures !ok ==> store == old(store) || store == Put(old(store), KeyOf(cfg, stage), Some(Applies(cfg, old(store), stage, extra)))
      ensures old(Quiet()) ==> Quiet() && ok
    {
      ok := Write(KeyOf(cfg, stage), Some(Applies(cfg, store, stage, extra)));
    }

    method ReconcileNamespace(ghost merged: Merged) returns (ok: bool)
      modifies this
      ensures AfterStage(cfg, old(store), store, EnsureNamespace, ok, merged)
      ensures old(Quiet()) ==> Quiet() && ok == Do(cfg, old(store), EnsureNamespace, merged).Some?
    {
      var key := KeyOf(cfg, EnsureNamespace);
      var found;
      ok, found := Get(key);
      if !ok {
        return;
      }
      if found.Some? {
        assert Put(store, key, Some(store[key])) == store;
        return;
      }
      ok := Write(key, Some(Object(LABELS, {}, {})));
    }

    /** The stages that apply one configuration. */
    method ReconcileApplied(stage: Stage, ghost merged: Merged) returns (ok: bool)
      requires stage != EnsureNamespace && stage != OciCredentials
      modifies this
      ensures AfterStage(cfg, old(store), store, stage, ok, merged)
      ensures old(Quiet()) ==> Quiet() && ok == Do(cfg, old(store), stage, merged).Some?
    {
      ok := Apply(stage, map[]);
    }

    /** `merged` is what the sources came to, in the order their maps happened to be walked. */
    method ReconcileOciCredentials() returns (ok: bool, ghost merged: Merged)
      modifies this
      ensures AfterStage(cfg, old(store), store, OciCredentials, ok, merged)
      ensures ok || old(Quiet()) || store != old(store) ==> MayMerge(cfg, old(store), merged)
      ensures old(Quiet()) ==> Quiet() && ok == Do(cfg, old(store), OciCredentials, merged).Some?
    {
      merged := map[];
      if |cfg.secretNames| == 0 {
        ok := DeleteManagedSecret();
        return;
      }
      var sources;
      ok, sources := ReadSources();
      if !ok {
        return;
      }
      var auths := Credentials.MergeToDockerConfigJSON(sources);
      if auths.Failure? {
        return false, map[];
      }
      merged := auths.value;
      ok := Apply(OciCredentials, MergedData(auths.value));
    }

    /** Without configured secrets the managed one is deleted, whatever its labels. */
    method DeleteManagedSecret() returns (ok: bool)
      modifies this
      ensures ok ==> store == Put(old(store), KeyOf(cfg, OciCredentials), None)
      ensures !ok ==> store == old(store) || store == Put(old(store), KeyOf(cfg, OciCredentials), None)
      ensures old(Quiet()) ==> Quiet() && ok
    {
      var existing;
      ok, existing := Get(KeyOf(cfg, OciCredentials));
      if !ok {
        return;
      }
      if existing.None? {
        assert Put(store, KeyOf(cfg, OciCredentials), None) == store;
        return;
      }
      ok := Write(KeyOf(cfg, OciCredentials), None);
    }

    method ReadSources() returns (ok: bool, sources: seq<Credentials.Secret>)
      modifies this`script
      ensures ok ==> Sources(cfg, store) == Some(sources)
      ensures old(Quiet()) ==> Quiet() && ok == Sources(cfg, store).Some?
    {
      sources := [];
      var names := cfg.secretNames;
      for i := 0 to |names|
        invariant SecretsNamed(cfg, store, names[..i]) == Some(sources)
        invariant old(Quiet()) ==> Quiet()
      {
        assert names[..i + 1][..i] == names[..i];
        var found;
        ok, found := Get(SourceKey(cfg, names[i]));
        if !ok {
          return false, [];
        }
        if found.None? {
          MissingSource(cfg, store, names, i + 1);
          return false, [];
        }
        sources := sources + [SecretOf(found.value)];
      }
      assert names[..|names|] == names;
      ok := true;
    }

    /** One pass. */
    method Reconcile() returns (ok: bool)
      modifies this
      ensures MayLeave(cfg, old(store), store)
      ensures ok || old(Quiet()) ==> MayEnd(cfg, old(store), store, ok)
      ensures old(Quiet()) ==> Quiet()
    {
      if !cfg.enabled {
        ok := Cleanup();
      } else {
        ghost var n, merged;
        ok, n, merged := ReconcileEnabled();
      }
    }

    /** Reconcile while the feature is enabled: it stops at the first error. */
    method ReconcileEnabled() returns (ok: bool, ghost n: nat, ghost merged: Merged)
      modifies this
      ensures Standing(cfg, old(store), n, store, merged) && EndsPass(cfg, old(store), store, ok, old(Quiet()), merged)
      ensures old(Quiet()) ==> Quiet()
    {
      ghost var start, quiet := store, Quiet();
      ok, n, merged := ReconcileAccess();
      if !ok {
        return;
      }
      ghost var before := store;
      ok := ReconcileApplied(Deployment, merged);
      n := StageDone(cfg, start, before, store, Deployment, 5, ok, quiet, merged);
      if !ok {
        return;
      }
      before := store;
      ok := ReconcileApplied(Service, merged);
      n := StageDone(cfg, start, before, store, Service, 6, ok, quiet, merged);
    }

    /** The first stages of an enabled pass: what the dashboard runs in, as and with. */
    method ReconcileAccess() returns (ok: bool, ghost n: nat, ghost merged: Merged)
      modifies this
      ensures Standing(cfg, old(store), n, store, merged) && (ok ==> n == 5)
      ensures !ok ==> EndsPass(cfg, old(store), store, ok, old(Quiet()), merged)
      ensures old(Quiet()) ==> Quiet()
    {
      ghost var start, quiet := store, Quiet();
      ok, n := ReconcileRights();
      merged := map[];
      if !ok {
        return;
      }
      ghost var before := store;
      ok, merged := ReconcileOciCredentials();
      NotYetMerged(cfg, start, before, map[], merged);
      n := StageDone(cfg, start, before, store, OciCredentials, 4, ok, quiet, merged);
    }

    method ReconcileRights() returns (ok: bool, ghost n: nat)
      modifies this
      ensures Standing(cfg, old(store), n, store, map[]) && (ok ==> n == CREDENTIALS)
      ensures old(Quiet()) ==> Quiet() && ok
    {
      ghost var start, before, quiet := store, store, Quiet();
      NothingDone(cfg, start);
      ok := ReconcileNamespace(map[]);
      n := StageDone(cfg, start, before, store, EnsureNamespace, 0, ok, quiet, map[]);
      if !ok {
        return;
      }
      before := store;
      ok := ReconcileApplied(ServiceAccount, map[]);
      n := StageDone(cfg, start, before, store, ServiceAccount, 1, ok, quiet, map[]);
      if !ok {
        return;
      }
      before := store;
      ok := ReconcileApplied(ClusterRole, map[]);
      n := StageDone(cfg, start, before, store, ClusterRole, 2, ok, quiet, map[]);
      if !ok {
        return;
      }
      before := store;
      ok := ReconcileApplied(ClusterRoleBinding, map[]);
      n := StageDone(cfg, start, before, store, ClusterRoleBinding, 3, ok, quiet, map[]);
    }

    /** cleanup */
    method Cleanup() returns (ok: bool)
      modifies this
      ensures ok ==> store == Cleaned(old(store), CleanupKeys(cfg))
      ensures AfterCleanup(cfg, old(store), store)
      ensures old(Quiet()) ==> Quiet() && ok
    {
      var keys := CleanupKeys(cfg);
      for i := 0 to |keys|
        invariant store == Cleaned(old(store), keys[..i])
        invariant old(Quiet()) ==> Quiet()
      {
        CleanedOneMore(old(store), keys, i);
        var found;
        ok, found := Get(keys[i]);
        if !ok {
          return;
        }
        if found.None? {
          continue;
        }
        if !Managed(found.value) {
          continue;
        }
        ok := Write(keys[i], None);
        if !ok {
          return;
        }
      }
      assert keys[..|keys|] == keys;
      ok := true;
    }
  }

  lemma {:induction false} MissingSource(cfg: Config, store: Store, names: seq<string>, n: nat)
    requires n <= |names| && SecretsNamed(cfg, store, names[..n]).None?
    ensures SecretsNamed(cfg, store, names).None?
    decreases |names| - n
  {
    if n < |names| {
      assert names[..n + 1][..n] == names[..n];
      MissingSource(cfg, store, names, n + 1);
    } else {
      assert names[..n] == names;
    }
  }

  lemma NothingDone(cfg: Config, start: Store)
    ensures Standing(cfg, start, 0, start, map[])
  {
  }

  lemma StageDone(cfg: Config, start: Store, before: Store, after: Store, stage: Stage, i: nat, ok: bool, quiet: bool, merged: Merged)
      returns (n: nat)
    requires i < |STAGES| && stage == STAGES[i] && Standing(cfg, start, i, before, merged)
    requires AfterStage(cfg, before, after, stage, ok, merged)
    requires quiet ==> ok == Do(cfg, before, stage, merged).Some?
    requires i >= CREDENTIALS && (ok || quiet || after != before) ==> MayMerge(cfg, start, merged)
    ensures Standing(cfg, start, n, after, merged) && (ok ==> n == i + 1)
    ensures i >= CREDENTIALS && (!ok || i == |STAGES| - 1) ==> EndsPass(cfg, start, after, ok, quiet, merged)
    ensures i < CREDENTIALS && quiet ==> ok
  {
    DoAllOneMore(cfg, start, STAGES, i, merged);
    if Do(cfg, before, stage, merged).None? {
      FailureStays(cfg, start, STAGES, i + 1, merged);
    }
    assert STAGES[..|STAGES|] == STAGES;
    n := if ok || after != before then i + 1 else i;
  }

  lemma DoAllOneMore(cfg: Config, start: Store, stages: seq<Stage>, i: nat, merged: Merged)
    requires i < |stages|
    ensures var (s, ok) := DoAll(cfg, start, stages[..i], merged);
            DoAll(cfg, start, stages[..i + 1], merged) ==
            if !ok then (s, false)
            else if Do(cfg, s, stages[i], merged).None? then (s, false)
            else (Do(cfg, s, stages[i], merged).value, true)
  {
    assert stages[..i + 1][..i] == stages[..i];
  }

  lemma {:induction false} FailureStays(cfg: Config, start: Store, stages: seq<Stage>, n: nat, merged: Merged)
    requires n <= |stages| && !DoAll(cfg, start, stages[..n], merged).1
    ensures DoAll(cfg, start, stages, merged) == DoAll(cfg, start, stages[..n], merged)
    decreases |stages| - n
  {
    if n < |stages| {
      DoAllOneMore(cfg, start, stages, n, merged);
      FailureStays(cfg, start, stages, n + 1, merged);
    } else {
      assert stages[..n] == stages;
    }
  }

  lemma {:induction false} ChoiceComesLater(cfg: Config, start: Store, stages: seq<Stage>, merged: Merged, merged': Merged)
    requires OciCredentials !in stages
    ensures DoAll(cfg, start, stages, merged) == DoAll(cfg, start, stages, merged')
    ensures Sources(cfg, DoAll(cfg, start, stages, merged).0) == Sources(cfg, start)
  {
    if stages != [] {
      var init, last := stages[..|stages| - 1], stages[|stages| - 1];
      assert last in stages;
      ChoiceComesLater(cfg, start, init, merged, merged');
      var s := DoAll(cfg, start, init, merged).0;
      match Want(cfg, s, last, merged)
      case Failure(_) =>
      case Success(value) => SourcesElsewhere(cfg, s, last, value);
    }
  }

  /** Before the credentials are reached, any merge will do, and the sources are as they were. */
  lemma NotYetMerged(cfg: Config, start: Store, before: Store, merged: Merged, merged': Merged)
    requires Standing(cfg, start, CREDENTIALS, before, merged)
    ensures Standing(cfg, start, CREDENTIALS, before, merged')
    ensures Sources(cfg, before) == Sources(cfg, start)
  {
    assert OciCredentials !in STAGES[..CREDENTIALS];
    ChoiceComesLater(cfg, start, STAGES[..CREDENTIALS], merged, merged');
  }

  lemma CleanedOneMore(store: Store, keys: seq<Key>, i: nat)
    requires i < |keys|
    ensures var before, key := Cleaned(store, keys[..i]), keys[i];
            Cleaned(store, keys[..i + 1]) ==
            if key in before && Managed(before[key]) then Put(before, key, None) else before
  {
    assert keys[..i + 1] == keys[..i] + [keys[i]];
  }

  // ----- disabled passes -----

  /** What the contract of cleanup's loop comes to: it removes labelled objects at its six keys and touches
      nothing else, even when it is cut short. */
  lemma CleanupIsSafe(cfg: Config, before: Store, after: Store, key: Key)
    requires AfterCleanup(cfg, before, after)
    ensures key in after ==> key in before && after[key] == before[key]
    ensures key in before && key !in after ==> key in CleanupKeys(cfg) && Managed(before[key])
  {
    var n: nat :| n <= 6 && after == Cleaned(before, CleanupKeys(cfg)[..n]);
    assert key in CleanupKeys(cfg)[..n] ==> key in CleanupKeys(cfg);
  }

  /** An error-free disabled pass, the whole of cleanup's loop, leaves no labelled object at the six keys. */
  lemma CleanupIsComplete(cfg: Config, before: Store, after: Store, key: Key)
    requires !cfg.enabled && MayEnd(cfg, before, after, true) && key in CleanupKeys(cfg)
    ensures key in after ==> !Managed(after[key])
  {
  }

  /** However often it was cut short before, a later error-free cleanup ends in the same store. */
  lemma CleanupConverges(cfg: Config, before: Store, after: Store)
    requires AfterCleanup(cfg, before, after)
    ensures Cleaned(after, CleanupKeys(cfg)) == Cleaned(before, CleanupKeys(cfg))
  {
    var n: nat :| n <= 6 && after == Cleaned(before, CleanupKeys(cfg)[..n]);
    var keys := CleanupKeys(cfg);
    assert forall k :: k in keys[..n] ==> k in keys;
    SameStore(Cleaned(after, keys), Cleaned(before, keys));
  }

  lemma SameStore(a: Store, b: Store)
    requires forall k :: Lookup(a, k) == Lookup(b, k)
    ensures a == b
  {
    assert forall k :: k in a <==> Lookup(a, k).Some?;
    assert forall k :: k in b <==> Lookup(b, k).Some?;
    assert forall k :: k in a && k in b ==> Lookup(a, k) == Some(a[k]) && Lookup(b, k) == Some(b[k]);
  }

  // ----- enabled passes -----

  /** Only the credentials stage writes a Secret. */
  lemma SourcesElsewhere(cfg: Config, store: Store, stage: Stage, value: Option<Object>)
    requires stage != OciCredentials
    ensures Sources(cfg, Put(store, KeyOf(cfg, stage), value)) == Sources(cfg, store)
  {
    SecretsApart(cfg, store, cfg.secretNames, KeyOf(cfg, stage), value);
  }

  /** The managed secret holds what was merged into it. */
  lemma AppliedCredentials(cfg: Config, store: Store, merged: Merged)
    ensures SecretOf(Applies(cfg, store, OciCredentials, MergedData(merged))) == Credentials.DockerConfigSecret(Credentials.Parsed(merged))
  {
    assert DATA !in LABELS;
  }

  lemma {:induction false} SecretsAfterMerge(cfg: Config, store: Store, names: seq<string>, merged: Merged)
    requires SecretsNamed(cfg, store, names).Some?
    ensures var o := Applies(cfg, store, OciCredentials, MergedData(merged));
            var after := SecretsNamed(cfg, Put(store, KeyOf(cfg, OciCredentials), Some(o)), names);
            after.Some? && Credentials.Replaces(SecretsNamed(cfg, store, names).value, after.value, merged)
  {
    if names != [] {
      SecretsAfterMerge(cfg, store, names[..|names| - 1], merged);
      AppliedCredentials(cfg, store, merged);
    }
  }

  /** Credentials merged from sources among which they are then found themselves can be merged from them again. */
  lemma SourcesAfterMerge(cfg: Config, store: Store, merged: Merged)
    requires Mergeable(cfg, store)
    ensures var after := Put(store, KeyOf(cfg, OciCredentials), Some(Applies(cfg, store, OciCredentials, MergedData(merged))));
            && Mergeable(cfg, after)
            && (MayMerge(cfg, store, merged) ==> MayMerge(cfg, after, merged))
            && (MayMerge(cfg, store, merged) && Fixed(cfg, store) ==> Fixed(cfg, after))
  {
    var after := Put(store, KeyOf(cfg, OciCredentials), Some(Applies(cfg, store, OciCredentials, MergedData(merged))));
    SecretsAfterMerge(cfg, store, cfg.secretNames, merged);
    var was, now := Sources(cfg, store).value, Sources(cfg, after).value;
    forall s | s in now ensures Credentials.Refusal(s).None? {
      var i :| 0 <= i < |now| && now[i] == s;
      assert now[i] in {was[i], Credentials.DockerConfigSecret(Credentials.Parsed(merged))};
      assert was[i] in was;
    }
    if MayMerge(cfg, store, merged) {
      Credentials.MergeAbsorbs(was, now, merged);
    }
  }

  /** Whatever order the maps of the sources are walked in, they merge to the same, if they merge at all. */
  ghost predicate Fixed(cfg: Config, store: Store) {
    Mergeable(cfg, store) ==> Credentials.Determined(Sources(cfg, store).value)
  }

  lemma StagesHaveTheirOwnKeys(cfg: Config, a: Stage, b: Stage)
    ensures KeyOf(cfg, a) == KeyOf(cfg, b) <==> a == b
  {
  }

  /** What a stage wants does not depend on the keys of other stages. */
  lemma WantElsewhere(cfg: Config, store: Store, stage: Stage, other: Stage, value: Option<Object>, merged: Merged)
    requires stage != other
    ensures Want(cfg, Put(store, KeyOf(cfg, other), value), stage, merged) == Want(cfg, store, stage, merged)
  {
    StagesHaveTheirOwnKeys(cfg, stage, other);
    if other != OciCredentials {
      SourcesElsewhere(cfg, store, other, value);
    }
  }

  /** What a stage wants is what it still wants once it has it. */
  lemma WantAgain(cfg: Config, store: Store, stage: Stage, value: Option<Object>, merged: Merged)
    requires Want(cfg, store, stage, merged) == Success(value)
    ensures Want(cfg, Put(store, KeyOf(cfg, stage), value), stage, merged) == Success(value)
  {
    var after := Put(store, KeyOf(cfg, stage), value);
    assert Lookup(after, KeyOf(cfg, stage)) == value;
    if stage == OciCredentials && cfg.secretNames != [] {
      SourcesAfterMerge(cfg, store, merged);
      ApplyTwice(Lookup(store, KeyOf(cfg, stage)), cfg.parts(stage) + MergedData(merged) + LABELS);
    } else {
      ApplyTwice(Lookup(store, KeyOf(cfg, stage)), cfg.parts(stage) + map[] + LABELS);
    }
  }

  /** The store already has what the stage wants. */
  predicate Settled(cfg: Config, store: Store, stage: Stage, merged: Merged) {
    Want(cfg, store, stage, merged) == Success(Lookup(store, KeyOf(cfg, stage)))
  }

  lemma SettledDoesNothing(cfg: Config, store: Store, stage: Stage, merged: Merged)
    requires Settled(cfg, store, stage, merged)
    ensures Do(cfg, store, stage, merged) == Some(store)
  {
    SameStore(Put(store, KeyOf(cfg, stage), Lookup(store, KeyOf(cfg, stage))), store);
  }

  lemma DoSettles(cfg: Config, store: Store, stage: Stage, stages: seq<Stage>, merged: Merged)
    requires Do(cfg, store, stage, merged).Some?
    requires stage !in stages && forall x :: x in stages ==> Settled(cfg, store, x, merged)
    ensures var after := Do(cfg, store, stage, merged).value;
            Settled(cfg, after, stage, merged) && forall x :: x in stages ==> Settled(cfg, after, x, merged)
  {
    var value := Want(cfg, store, stage, merged).value;
    WantAgain(cfg, store, stage, value, merged);
    forall x | x in stages ensures Settled(cfg, Do(cfg, store, stage, merged).value, x, merged) {
      WantElsewhere(cfg, store, x, stage, value, merged);
      StagesHaveTheirOwnKeys(cfg, x, stage);
    }
  }

  ghost predicate NoRepeats(stages: seq<Stage>) {
    forall i, j :: 0 <= i < j < |stages| ==> stages[i] != stages[j]
  }

  lemma LastIsNew(stages: seq<Stage>)
    requires NoRepeats(stages) && stages != []
    ensures var init, last := stages[..|stages| - 1], stages[|stages| - 1];
            NoRepeats(init) && last !in init && forall x :: x in stages <==> x in init || x == last
  {
    assert stages == stages[..|stages| - 1] + [stages[|stages| - 1]];
  }

  lemma {:induction false} AllSettled(cfg: Config, store: Store, stages: seq<Stage>, merged: Merged)
    requires NoRepeats(stages) && DoAll(cfg, store, stages, merged).1
    ensures forall x :: x in stages ==> Settled(cfg, DoAll(cfg, store, stages, merged).0, x, merged)
  {
    if stages != [] {
      var init, last := stages[..|stages| - 1], stages[|stages| - 1];
      LastIsNew(stages);
      AllSettled(cfg, store, init, merged);
      DoSettles(cfg, DoAll(cfg, store, init, merged).0, last, init, merged);
    }
  }

  lemma {:induction false} SettledStaysPut(cfg: Config, store: Store, stages: seq<Stage>, merged: Merged)
    requires forall x :: x in stages ==> Settled(cfg, store, x, merged)
    ensures DoAll(cfg, store, stages, merged) == (store, true)
  {
    if stages != [] {
      var init, last := stages[..|stages| - 1], stages[|stages| - 1];
      SettledStaysPut(cfg, store, init, merged);
      assert last in stages;
      SettledDoesNothing(cfg, store, last, merged);
    }
  }

  lemma {:induction false} DoAllAppend(cfg: Config, store: Store, a: seq<Stage>, b: seq<Stage>, merged: Merged)
    requires DoAll(cfg, store, a, merged).1
    ensures DoAll(cfg, store, a + b, merged) == DoAll(cfg, DoAll(cfg, store, a, merged).0, b, merged)
  {
    if b == [] {
      assert a + b == a;
    } else {
      assert (a + b)[..|a + b| - 1] == a + b[..|b| - 1];
      DoAllAppend(cfg, store, a, b[..|b| - 1], merged);
    }
  }

  lemma PrefixConverges(cfg: Config, before: Store, stages: seq<Stage>, n: nat, merged: Merged)
    requires NoRepeats(stages) && n <= |stages| && DoAll(cfg, before, stages[..n], merged).1
    ensures DoAll(cfg, DoAll(cfg, before, stages[..n], merged).0, stages, merged) == DoAll(cfg, before, stages, merged)
  {
    var after := DoAll(cfg, before, stages[..n], merged).0;
    AllSettled(cfg, before, stages[..n], merged);
    SettledStaysPut(cfg, after, stages[..n], merged);
    assert stages == stages[..n] + stages[n..];
    DoAllAppend(cfg, before, stages[..n], stages[n..], merged);
    DoAllAppend(cfg, after, stages[..n], stages[n..], merged);
  }

  lemma StagesDiffer()
    ensures NoRepeats(STAGES)
  {
  }

  // ----- what becomes of the sources -----

  lemma DoKeepsSources(cfg: Config, store: Store, stage: Stage, merged: Merged)
    requires Do(cfg, store, stage, merged).Some? && (stage == OciCredentials ==> MayMerge(cfg, store, merged))
    ensures var after := Do(cfg, store, stage, merged).value;
            && (Mergeable(cfg, after) <==> Mergeable(cfg, store))
            && (MayMerge(cfg, store, merged) ==> MayMerge(cfg, after, merged))
            && (Fixed(cfg, store) ==> Fixed(cfg, after))
  {
    if stage != OciCredentials {
      SourcesElsewhere(cfg, store, stage, Want(cfg, store, stage, merged).value);
    } else if cfg.secretNames != [] {
      SourcesAfterMerge(cfg, store, merged);
    }
  }

  lemma {:induction false} DoAllKeepsSources(cfg: Config, store: Store, stages: seq<Stage>, merged: Merged)
    requires MayMerge(cfg, store, merged)
    ensures var after := DoAll(cfg, store, stages, merged).0;
            && (Mergeable(cfg, after) <==> Mergeable(cfg, store))
            && MayMerge(cfg, after, merged)
            && (Fixed(cfg, store) ==> Fixed(cfg, after))
  {
    if stages != [] {
      var init, last := stages[..|stages| - 1], stages[|stages| - 1];
      DoAllKeepsSources(cfg, store, init, merged);
      var s := DoAll(cfg, store, init, merged).0;
      if Do(cfg, s, last, merged).Some? {
        DoKeepsSources(cfg, s, last, merged);
      }
    }
  }

  /** While the sources do not merge, no choice of a merge matters. */
  lemma {:induction false} UnmergeableEndsAlike(cfg: Config, store: Store, stages: seq<Stage>, merged: Merged, merged': Merged)
    requires !Mergeable(cfg, store)
    ensures DoAll(cfg, store, stages, merged) == DoAll(cfg, store, stages, merged')
    ensures DoAll(cfg, store, stages, merged).1 ==> OciCredentials !in stages
  {
    if stages != [] {
      var init, last := stages[..|stages| - 1], stages[|stages| - 1];
      assert stages == init + [last];
      UnmergeableEndsAlike(cfg, store, init, merged, merged');
      DoAllKeepsSources(cfg, store, init, merged);
    }
  }

  /** Sources that merge let every stage succeed. */
  lemma {:induction false} MergeableSucceeds(cfg: Config, store: Store, stages: seq<Stage>, merged: Merged)
    requires Mergeable(cfg, store) && MayMerge(cfg, store, merged)
    ensures DoAll(cfg, store, stages, merged).1
  {
    if stages != [] {
      var init := stages[..|stages| - 1];
      MergeableSucceeds(cfg, store, init, merged);
      DoAllKeepsSources(cfg, store, init, merged);
    }
  }

  lemma PassMerges(cfg: Config, store: Store, merged: Merged)
    requires DoAll(cfg, store, STAGES, merged).1
    ensures Mergeable(cfg, store)
  {
    if !Mergeable(cfg, store) {
      UnmergeableEndsAlike(cfg, store, STAGES, merged, merged);
      EveryStage(OciCredentials);
    }
  }

  /** Different credentials make different stores. */
  lemma CredentialsShow(cfg: Config, store: Store, store': Store, merged: Merged, merged': Merged)
    requires cfg.secretNames != [] && merged != merged'
    requires Settled(cfg, store, OciCredentials, merged) && Settled(cfg, store', OciCredentials, merged')
    ensures store != store'
  {
    AppliedCredentials(cfg, store, merged);
    AppliedCredentials(cfg, store', merged');
  }

  lemma EndIsSettled(cfg: Config, before: Store, after: Store, merged: Merged)
    requires DoAll(cfg, before, STAGES, merged) == (after, true)
    ensures forall x :: Settled(cfg, after, x, merged)
  {
    StagesDiffer();
    AllSettled(cfg, before, STAGES, merged);
    forall x ensures Settled(cfg, after, x, merged) {
      EveryStage(x);
    }
  }

  /** Two merges, two ends. */
  lemma TwoEnds(cfg: Config, store: Store, merged: Merged, merged': Merged)
    requires Mergeable(cfg, store) && MayMerge(cfg, store, merged) && MayMerge(cfg, store, merged') && merged != merged'
    ensures DoAll(cfg, store, STAGES, merged).0 != DoAll(cfg, store, STAGES, merged').0
  {
    MergeableSucceeds(cfg, store, STAGES, merged);
    MergeableSucceeds(cfg, store, STAGES, merged');
    EndIsSettled(cfg, store, DoAll(cfg, store, STAGES, merged).0, merged);
    EndIsSettled(cfg, store, DoAll(cfg, store, STAGES, merged').0, merged');
    if cfg.secretNames == [] {
      Credentials.OneMerge([], merged, merged');
    } else {
      CredentialsShow(cfg, DoAll(cfg, store, STAGES, merged).0, DoAll(cfg, store, STAGES, merged').0, merged, merged');
    }
  }

  /** Sources that may merge to two results let a pass end in two ways. */
  lemma UnfixedEnds(cfg: Config, store: Store) returns (a: Store, b: Store)
    requires cfg.enabled && !Fixed(cfg, store)
    ensures MayEnd(cfg, store, a, true) && MayEnd(cfg, store, b, true) && a != b
  {
    var merged := Credentials.MergeExists(Sources(cfg, store).value);
    var other := Credentials.OtherMerge(Sources(cfg, store).value, merged);
    TwoEnds(cfg, store, merged, other);
    a := SuccessfulEnd(cfg, store, merged);
    b := SuccessfulEnd(cfg, store, other);
  }

  lemma SuccessfulEnd(cfg: Config, store: Store, merged: Merged) returns (after: Store)
    requires cfg.enabled && Mergeable(cfg, store) && MayMerge(cfg, store, merged)
    ensures after == DoAll(cfg, store, STAGES, merged).0 && MayEnd(cfg, store, after, true)
  {
    MergeableSucceeds(cfg, store, STAGES, merged);
    after := DoAll(cfg, store, STAGES, merged).0;
    assert EndsWith(cfg, store, after, true, merged);
  }

  // ----- idempotence -----

  /** Every error-free pass from the store changes nothing and succeeds. */
  ghost predicate StaysPut(cfg: Config, store: Store) {
    forall after, ok :: MayEnd(cfg, store, after, ok) ==> after == store && ok
  }

  /** A successful enabled pass changes nothing when repeated, exactly when its sources merge the same in every
      map order. */
  lemma EnabledIsIdempotent(cfg: Config, store: Store, once: Store)
    requires cfg.enabled && MayEnd(cfg, store, once, true)
    ensures StaysPut(cfg, once) <==> Fixed(cfg, once)
  {
    var merged :| EndsWith(cfg, store, once, true, merged);
    PassMerges(cfg, store, merged);
    DoAllKeepsSources(cfg, store, STAGES, merged);
    EndIsSettled(cfg, store, once, merged);
    if Fixed(cfg, once) {
      FixedStaysPut(cfg, once, merged);
    } else {
      UnfixedMoves(cfg, once);
    }
  }

  lemma FixedStaysPut(cfg: Config, once: Store, merged: Merged)
    requires cfg.enabled && Mergeable(cfg, once) && MayMerge(cfg, once, merged) && Fixed(cfg, once)
    requires forall x :: Settled(cfg, once, x, merged)
    ensures StaysPut(cfg, once)
  {
    SettledStaysPut(cfg, once, STAGES, merged);
    forall after, ok | MayEnd(cfg, once, after, ok) ensures after == once && ok {
      var merged' :| EndsWith(cfg, once, after, ok, merged');
      Credentials.OneMerge(Sources(cfg, once).value, merged, merged');
    }
  }

  lemma UnfixedMoves(cfg: Config, once: Store)
    requires cfg.enabled && !Fixed(cfg, once)
    ensures !StaysPut(cfg, once)
  {
    var a, b := UnfixedEnds(cfg, once);
  }

  /** One source that spells a host twice, as "ghcr.io" and "https://ghcr.io" do, with different credentials. */
  function SpelledTwice(key: string, key': string, a: Credentials.AuthEntry, b: Credentials.AuthEntry): Credentials.Secret {
    Credentials.DockerConfigSecret(Credentials.Parsed(map[key := a, key' := b]))
  }

  /** With such a source alone a repeated error-free pass can change the store. */
  lemma SpelledTwiceFlips(cfg: Config, store: Store, key: string, key': string, a: Credentials.AuthEntry, b: Credentials.AuthEntry)
      returns (once: Store)
    requires key != key' && Credentials.NormalizeRegistryHost(key) == Credentials.NormalizeRegistryHost(key') && a != b
    requires cfg.enabled && Sources(cfg, store) == Some([SpelledTwice(key, key', a, b)]) && MANAGED_SECRET_NAME !in cfg.secretNames
    ensures MayEnd(cfg, store, once, true) && !StaysPut(cfg, once)
  {
    var sources := [SpelledTwice(key, key', a, b)];
    var merged := Credentials.MergeExists(sources);
    once := SuccessfulEnd(cfg, store, merged);
    ForeignSourcesStay(cfg, store, STAGES, merged);
    SpelledTwiceUnfixed(key, key', a, b);
    EnabledIsIdempotent(cfg, store, once);
  }

  /** A source {"auths": {"ghcr.io": a, "https://ghcr.io": b}} will do. */
  lemma GhcrFlips(cfg: Config, store: Store, a: Credentials.AuthEntry, b: Credentials.AuthEntry) returns (once: Store)
    requires cfg.enabled && MANAGED_SECRET_NAME !in cfg.secretNames && a != b
    requires Sources(cfg, store) == Some([SpelledTwice(Credentials.GHCR, Credentials.GHCR_URL, a, b)])
    ensures MayEnd(cfg, store, once, true) && !StaysPut(cfg, once)
  {
    Credentials.GhcrSpellings();
    once := SpelledTwiceFlips(cfg, store, Credentials.GHCR, Credentials.GHCR_URL, a, b);
  }

  lemma SpelledTwiceUnfixed(key: string, key': string, a: Credentials.AuthEntry, b: Credentials.AuthEntry)
    requires key != key' && Credentials.NormalizeRegistryHost(key) == Credentials.NormalizeRegistryHost(key') && a != b
    ensures !Credentials.Determined([SpelledTwice(key, key', a, b)])
  {
    var host := Credentials.NormalizeRegistryHost(key);
    Credentials.MergeMayBeAmbiguous(key, key', a, b);
    assert map[host := a][host] != map[host := b][host];
    if Credentials.Determined([SpelledTwice(key, key', a, b)]) {
      Credentials.OneMerge([SpelledTwice(key, key', a, b)], map[host := a], map[host := b]);
    }
  }

  lemma {:induction false} ForeignSourcesStay(cfg: Config, store: Store, stages: seq<Stage>, merged: Merged)
    requires MANAGED_SECRET_NAME !in cfg.secretNames
    ensures Sources(cfg, DoAll(cfg, store, stages, merged).0) == Sources(cfg, store)
  {
    if stages != [] {
      var init, last := stages[..|stages| - 1], stages[|stages| - 1];
      ForeignSourcesStay(cfg, store, init, merged);
      var (s, ok) := DoAll(cfg, store, init, merged);
      if ok && Want(cfg, s, last, merged).Success? {
        SecretsApart(cfg, s, cfg.secretNames, KeyOf(cfg, last), Want(cfg, s, last, merged).value);
      }
    }
  }

  lemma {:induction false} SecretsApart(cfg: Config, store: Store, names: seq<string>, key: Key, value: Option<Object>)
    requires forall name :: name in names ==> SourceKey(cfg, name) != key
    ensures SecretsNamed(cfg, Put(store, key, value), names) == SecretsNamed(cfg, store, names)
  {
    if names != [] {
      assert names[|names| - 1] in names;
      SecretsApart(cfg, store, names[..|names| - 1], key, value);
    }
  }

  // ----- runs -----

  /** One pass, cut short anywhere by failing calls. */
  ghost predicate MayLeave(cfg: Config, before: Store, after: Store) {
    if cfg.enabled then AfterSome(cfg, before, after) else AfterCleanup(cfg, before, after)
  }

  /** The stores of a run of passes under one configuration, whatever fails in each. */
  ghost predicate IsRun(cfg: Config, stores: seq<Store>) {
    forall i :: 0 <= i < |stores| - 1 ==> MayLeave(cfg, stores[i], stores[i + 1])
  }

  /** From wherever a failing pass stopped, an error-free pass with the same merge does what it would have done
      from the start. */
  lemma EnabledConverges(cfg: Config, before: Store, n: nat, after: Store, merged: Merged)
    requires Standing(cfg, before, n, after, merged)
    ensures DoAll(cfg, after, STAGES, merged) == DoAll(cfg, before, STAGES, merged)
  {
    StagesDiffer();
    PrefixConverges(cfg, before, STAGES, n, merged);
  }

  /** When the merge is fixed, a failing pass had no choice but that one. */
  lemma OnlyChoice(cfg: Config, before: Store, n: nat, after: Store, merged: Merged, merged': Merged)
    requires Fixed(cfg, before) && MayMerge(cfg, before, merged) && Standing(cfg, before, n, after, merged')
    ensures Standing(cfg, before, n, after, merged)
  {
    if !Mergeable(cfg, before) {
      UnmergeableEndsAlike(cfg, before, STAGES[..n], merged, merged');
    } else if n > CREDENTIALS {
      Credentials.OneMerge(Sources(cfg, before).value, merged, merged');
    } else {
      assert STAGES[CREDENTIALS] == OciCredentials && NoRepeats(STAGES);
      ChoiceComesLater(cfg, before, STAGES[..n], merged, merged');
    }
  }

  lemma {:induction false} EnabledRunKeeps(cfg: Config, stores: seq<Store>, merged: Merged)
    requires cfg.enabled && stores != [] && IsRun(cfg, stores) && Fixed(cfg, stores[0]) && MayMerge(cfg, stores[0], merged)
    ensures var last := stores[|stores| - 1];
            && Fixed(cfg, last) && MayMerge(cfg, last, merged)
            && DoAll(cfg, last, STAGES, merged) == DoAll(cfg, stores[0], STAGES, merged)
  {
    if |stores| > 1 {
      var n := |stores| - 2;
      EnabledRunKeeps(cfg, stores[..n + 1], merged);
      assert MayLeave(cfg, stores[n], stores[n + 1]);
      var k: nat, merged' :| Standing(cfg, stores[n], k, stores[n + 1], merged');
      OnlyChoice(cfg, stores[n], k, stores[n + 1], merged, merged');
      EnabledConverges(cfg, stores[n], k, stores[n + 1], merged);
      DoAllKeepsSources(cfg, stores[n], STAGES[..k], merged);
    }
  }

  lemma {:induction false} DisabledRunKeeps(cfg: Config, stores: seq<Store>)
    requires !cfg.enabled && stores != [] && IsRun(cfg, stores)
    ensures Cleaned(stores[|stores| - 1], CleanupKeys(cfg)) == Cleaned(stores[0], CleanupKeys(cfg))
  {
    if |stores| > 1 {
      var n := |stores| - 2;
      DisabledRunKeeps(cfg, stores[..n + 1]);
      assert MayLeave(cfg, stores[n], stores[n + 1]);
      CleanupConverges(cfg, stores[n], stores[n + 1]);
    }
  }

  ghost predicate RunsFrom(cfg: Config, stores: seq<Store>, start: Store, last: Store) {
    stores != [] && stores[0] == start && stores[|stores| - 1] == last && IsRun(cfg, stores)
  }

  /** Failing passes lead there. */
  ghost predicate Leads(cfg: Config, start: Store, last: Store) {
    exists stores :: RunsFrom(cfg, stores, start, last)
  }

  /** After any number of failing passes an error-free one ends as it would have ended at once. */
  ghost predicate Converges(cfg: Config, start: Store) {
    forall last, now, ok, later, ok' :: Leads(cfg, start, last) && MayEnd(cfg, start, now, ok) && MayEnd(cfg, last, later, ok') ==>
      later == now && ok' == ok
  }

  /** Retrying converges exactly when the feature is disabled or the sources merge the same in every map order. */
  lemma RetryingConverges(cfg: Config, start: Store)
    ensures Converges(cfg, start) <==> (cfg.enabled ==> Fixed(cfg, start))
  {
    if cfg.enabled && !Fixed(cfg, start) {
      UnfixedDiverges(cfg, start);
    } else {
      forall last, now, ok, later, ok' | Leads(cfg, start, last) && MayEnd(cfg, start, now, ok) && MayEnd(cfg, last, later, ok')
        ensures later == now && ok' == ok
      {
        var stores :| RunsFrom(cfg, stores, start, last);
        if cfg.enabled {
          FixedRunEnds(cfg, stores, now, ok, later, ok');
        } else {
          DisabledRunKeeps(cfg, stores);
        }
      }
    }
  }

  lemma FixedRunEnds(cfg: Config, stores: seq<Store>, now: Store, ok: bool, later: Store, ok': bool)
    requires cfg.enabled && stores != [] && IsRun(cfg, stores) && Fixed(cfg, stores[0])
    requires MayEnd(cfg, stores[0], now, ok) && MayEnd(cfg, stores[|stores| - 1], later, ok')
    ensures later == now && ok' == ok
  {
    var last := stores[|stores| - 1];
    var merged :| EndsWith(cfg, stores[0], now, ok, merged);
    var merged' :| EndsWith(cfg, last, later, ok', merged');
    EnabledRunKeeps(cfg, stores, merged);
    if Mergeable(cfg, last) {
      Credentials.OneMerge(Sources(cfg, last).value, merged, merged');
    } else {
      UnmergeableEndsAlike(cfg, last, STAGES, merged, merged');
    }
  }

  lemma UnfixedDiverges(cfg: Config, start: Store)
    requires cfg.enabled && !Fixed(cfg, start)
    ensures !Converges(cfg, start)
  {
    var a, b := UnfixedEnds(cfg, start);
    AlreadyThere(cfg, start);
  }

  lemma AlreadyThere(cfg: Config, start: Store)
    ensures Leads(cfg, start, start)
  {
    assert RunsFrom(cfg, [start], start, start);
  }

  lemma PassSparesOthers(cfg: Config, before: Store, after: Store, key: Key)
    requires MayLeave(cfg, before, after) && forall x :: KeyOf(cfg, x) != key
    ensures Lookup(after, key) == Lookup(before, key)
  {
    if cfg.enabled {
      var n: nat, merged :| Standing(cfg, before, n, after, merged);
      DoAllElsewhere(cfg, before, STAGES[..n], key, merged);
    } else {
      CleanupIsSafe(cfg, before, after, key);
      if key in CleanupKeys(cfg) {
        var _ := CleanupKeyHasStage(cfg, key);
      }
    }
  }

  /** Over every sequence of enabled and disabled passes, whatever fails, no other object is touched. */
  lemma {:induction false} RunSparesOthers(cfgs: seq<Config>, stores: seq<Store>, key: Key)
    requires |stores| == |cfgs| + 1
    requires forall i :: 0 <= i < |cfgs| ==> MayLeave(cfgs[i], stores[i], stores[i + 1])
    requires forall i, x :: 0 <= i < |cfgs| ==> KeyOf(cfgs[i], x) != key
    ensures Lookup(stores[|cfgs|], key) == Lookup(stores[0], key)
  {
    if cfgs != [] {
      var n := |cfgs| - 1;
      RunSparesOthers(cfgs[..n], stores[..n + 1], key);
      PassSparesOthers(cfgs[n], stores[n], stores[n + 1], key);
    }
  }

  // ----- enabling, then disabling -----

  lemma {:induction false} DoAllElsewhere(cfg: Config, store: Store, stages: seq<Stage>, key: Key, merged: Merged)
    requires forall x :: x in stages ==> KeyOf(cfg, x) != key
    ensures Lookup(DoAll(cfg, store, stages, merged).0, key) == Lookup(store, key)
  {
    if stages != [] {
      assert stages[|stages| - 1] in stages;
      DoAllElsewhere(cfg, store, stages[..|stages| - 1], key, merged);
    }
  }

  lemma SettledIsManaged(cfg: Config, store: Store, stage: Stage, merged: Merged)
    requires Settled(cfg, store, stage, merged) && stage != EnsureNamespace && KeyOf(cfg, stage) in store
    ensures Managed(store[KeyOf(cfg, stage)])
  {
    assert MANAGED_BY in LABELS && COMPONENT in LABELS;
  }

  lemma EveryStage(x: Stage)
    ensures x in STAGES
  {
    assert STAGES[0] == EnsureNamespace && STAGES[1] == ServiceAccount && STAGES[2] == ClusterRole
           && STAGES[3] == ClusterRoleBinding && STAGES[4] == OciCredentials && STAGES[5] == Deployment && STAGES[6] == Service;
  }

  lemma CleanupCovers(cfg: Config, x: Stage)
    ensures KeyOf(cfg, x) in CleanupKeys(cfg) <==> x != EnsureNamespace
  {
    var keys := CleanupKeys(cfg);
    assert forall k :: k in keys ==> k.kind != NamespaceKind;
    assert keys[0] == KeyOf(cfg, Service) && keys[1] == KeyOf(cfg, Deployment) && keys[2] == KeyOf(cfg, OciCredentials)
           && keys[3] == KeyOf(cfg, ClusterRoleBinding) && keys[4] == KeyOf(cfg, ClusterRole) && keys[5] == KeyOf(cfg, ServiceAccount);
  }

  lemma CleanupKeyHasStage(cfg: Config, key: Key) returns (x: Stage)
    requires key in CleanupKeys(cfg)
    ensures KeyOf(cfg, x) == key && x != EnsureNamespace
  {
    x := if key.kind == ServiceKind then Service else if key.kind == DeploymentKind then Deployment
         else if key.kind == SecretKind then OciCredentials else if key.kind == ClusterRoleBindingKind then ClusterRoleBinding
         else if key.kind == ClusterRoleKind then ClusterRole else ServiceAccount;
  }

  /** After a successful pass every stage is settled, and every other key is as it was. */
  lemma AfterPass(cfg: Config, store: Store, on: Store, key: Key) returns (merged: Merged)
    requires cfg.enabled && MayEnd(cfg, store, on, true)
    ensures forall x :: Settled(cfg, on, x, merged)
    ensures (forall x :: KeyOf(cfg, x) != key) ==> Lookup(on, key) == Lookup(store, key)
  {
    merged :| EndsWith(cfg, store, on, true, merged);
    EndIsSettled(cfg, store, on, merged);
    if forall x :: KeyOf(cfg, x) != key {
      DoAllElsewhere(cfg, store, STAGES, key, merged);
    }
  }

  /** Disabling the feature undoes what enabling it did: nothing is left at the six keys, the namespace stays,
      and everything else is as before. */
  lemma DisablingUndoesEnabling(cfg: Config, store: Store, on: Store, key: Key)
    requires cfg.enabled && MayEnd(cfg, store, on, true)
    ensures var after := Cleaned(on, CleanupKeys(cfg));
            if key in CleanupKeys(cfg) then key !in after
            else if key == KeyOf(cfg, EnsureNamespace) then key in after
            else Lookup(after, key) == Lookup(store, key)
  {
    var merged := AfterPass(cfg, store, on, key);
    if key in CleanupKeys(cfg) {
      var x := CleanupKeyHasStage(cfg, key);
      if key in on {
        SettledIsManaged(cfg, on, x, merged);
      }
    } else if key == KeyOf(cfg, EnsureNamespace) {
      assert Settled(cfg, on, EnsureNamespace, merged);
    } else {
      forall x ensures KeyOf(cfg, x) != key {
        CleanupCovers(cfg, x);
      }
    }
  }

  /** An enabled pass does delete an object without labels: a secret of the managed name, when no source
      secrets are configured. It deletes nothing else. */
  lemma EnabledDeletesOnlyManagedSecret(cfg: Config, store: Store, on: Store, key: Key)
    requires cfg.enabled && MayEnd(cfg, store, on, true) && key in store
    ensures key !in on <==> key == KeyOf(cfg, OciCredentials) && cfg.secretNames == []
  {
    var merged := AfterPass(cfg, store, on, key);
    assert Settled(cfg, on, OciCredentials, merged);
    if x :| KeyOf(cfg, x) == key {
      assert Settled(cfg, on, x, merged);
      StagesHaveTheirOwnKeys(cfg, x, OciCredentials);
    }
  }

  // ----- names and keys in full -----

  /** The two management labels, in full. */
  lemma ManagedMeans(o: Object)
    ensures Managed(o) <==>
            && Label("app.kubernetes.io/managed-by") in o.fields && o.fields[Label("app.kubernetes.io/managed-by")] == Text("pacto-operator")
            && Label("app.kubernetes.io/component") in o.fields && o.fields[Label("app.kubernetes.io/component")] == Text("dashboard")
  {
  }

  /** The six keys of cleanup; a pass when enabled writes these and the namespace. */
  ghost predicate IsDashboardKey(key: Key, namespace: string) {
    match key.kind
    case ServiceKind => key.namespace == namespace && key.name == "pacto-dashboard"
    case DeploymentKind => key.namespace == namespace && key.name == "pacto-dashboard"
    case ServiceAccountKind => key.namespace == namespace && key.name == "pacto-dashboard"
    case SecretKind => key.namespace == namespace && key.name == "pacto-dashboard-oci-creds"
    case ClusterRoleBindingKind => key.namespace == "" && key.name == "pacto-dashboard"
    case ClusterRoleKind => key.namespace == "" && key.name == "pacto-dashboard"
    case NamespaceKind => false
  }

  lemma KeysInFull(cfg: Config, key: Key)
    ensures key in CleanupKeys(cfg) <==> IsDashboardKey(key, cfg.namespace)
    ensures (exists x :: KeyOf(cfg, x) == key) <==> IsDashboardKey(key, cfg.namespace) || key == Key(NamespaceKind, "", cfg.namespace)
  {
    var keys := CleanupKeys(cfg);
    assert keys[0] in keys && keys[1] in keys && keys[2] in keys && keys[3] in keys && keys[4] in keys && keys[5] in keys;
    if IsDashboardKey(key, cfg.namespace) {
      var x := StageAt(cfg, key);
    }
    assert KeyOf(cfg, EnsureNamespace) == Key(NamespaceKind, "", cfg.namespace);
  }

  lemma StageAt(cfg: Config, key: Key) returns (x: Stage)
    requires IsDashboardKey(key, cfg.namespace)
    ensures KeyOf(cfg, x) == key && x != EnsureNamespace
  {
    x := match key.kind
      case ServiceKind => Service
      case DeploymentKind => Deployment
      case ServiceAccountKind => ServiceAccount
      case SecretKind => OciCredentials
      case ClusterRoleBindingKind => ClusterRoleBinding
      case _ => ClusterRole;
  }

  /** The sources are the secrets of the configured names, in that order, in the configured namespace. */
  lemma SourcesInFull(cfg: Config, store: Store, secrets: seq<Credentials.Secret>)
    ensures Sources(cfg, store) == Some(secrets) <==> AreSecrets(cfg.namespace, store, cfg.secretNames, secrets)
  {
    SecretsInFull(cfg, store, cfg.secretNames, secrets);
  }

  predicate IsSecret(namespace: string, store: Store, name: string, secret: Credentials.Secret) {
    var key := Key(SecretKind, namespace, name);
    && key in store
    && secret == if Path("data") in store[key].fields && store[key].fields[Path("data")].Data? then store[key].fields[Path("data")].secret
                 else Credentials.OpaqueSecret(map[])
  }

  ghost predicate AreSecrets(namespace: string, store: Store, names: seq<string>, secrets: seq<Credentials.Secret>) {
    |secrets| == |names| && forall i :: 0 <= i < |names| ==> IsSecret(namespace, store, names[i], secrets[i])
  }

  lemma {:induction false} SecretsInFull(cfg: Config, store: Store, names: seq<string>, secrets: seq<Credentials.Secret>)
    ensures SecretsNamed(cfg, store, names) == Some(secrets) <==> AreSecrets(cfg.namespace, store, names, secrets)
  {
    if names != [] {
      var n := |names| - 1;
      if secrets != [] {
        SecretsInFull(cfg, store, names[..n], secrets[..|secrets| - 1]);
        assert secrets == secrets[..|secrets| - 1] + [secrets[|secrets| - 1]];
      }
      assert Lookup(store, SourceKey(cfg, names[n])).Some? ==>
               IsSecret(cfg.namespace, store, names[n], SecretOf(store[SourceKey(cfg, names[n])]));
    }
  }

  /** The object has its labels and whatever else it was to be given. */
  predicate Carries(store: Store, key: Key, parts: map<Field, Value>) {
    && key in store
    && var fields := store[key].fields;
       && Label("app.kubernetes.io/managed-by") in fields && fields[Label("app.kubernetes.io/managed-by")] == Text("pacto-operator")
       && Label("app.kubernetes.io/component") in fields && fields[Label("app.kubernetes.io/component")] == Text("dashboard")
       && Label("app.kubernetes.io/name") in fields && fields[Label("app.kubernetes.io/name")] == Text("pacto-dashboard")
       && forall f :: f in parts && !f.Label? ==> f in fields && fields[f] == parts[f]
  }

  lemma SettledCarries(cfg: Config, store: Store, stage: Stage, merged: Merged)
    requires Settled(cfg, store, stage, merged) && stage != EnsureNamespace && stage != OciCredentials
    ensures Carries(store, KeyOf(cfg, stage), cfg.parts(stage))
  {
    AppliedCarries(Lookup(store, KeyOf(cfg, stage)), cfg.parts(stage), map[]);
  }

  lemma AppliedCarries(o: Option<Object>, parts: map<Field, Value>, extra: map<Field, Value>)
    ensures var fields := Applied(o, parts + extra + LABELS).fields;
            && (forall f :: f in LABELS ==> f in fields && fields[f] == LABELS[f])
            && (forall f :: f in parts + extra && !f.Label? ==> f in fields && fields[f] == (parts + extra)[f])
  {
    assert forall f :: f in LABELS ==> f.Label?;
  }

  /** What a successful enabled pass leaves: service account, role, binding, deployment and service of the dashboard's
      name, each with its labels and its parts; and the managed secret with a merge of the configured secrets, or no
      such secret when none are configured. */
  lemma EnabledPassLeaves(cfg: Config, store: Store, on: Store) returns (merged: Merged)
    requires cfg.enabled && MayEnd(cfg, store, on, true)
    ensures Carries(on, Key(ServiceAccountKind, cfg.namespace, "pacto-dashboard"), cfg.parts(ServiceAccount))
    ensures Carries(on, Key(ClusterRoleKind, "", "pacto-dashboard"), cfg.parts(ClusterRole))
    ensures Carries(on, Key(ClusterRoleBindingKind, "", "pacto-dashboard"), cfg.parts(ClusterRoleBinding))
    ensures Carries(on, Key(DeploymentKind, cfg.namespace, "pacto-dashboard"), cfg.parts(Deployment))
    ensures Carries(on, Key(ServiceKind, cfg.namespace, "pacto-dashboard"), cfg.parts(Service))
    ensures var secret := Key(SecretKind, cfg.namespace, "pacto-dashboard-oci-creds");
            if cfg.secretNames == [] then secret !in on
            else
              && Carries(on, secret, cfg.parts(OciCredentials)[Path("data") := Data(Credentials.DockerConfigSecret(Credentials.Parsed(merged)))])
              && exists secrets :: AreSecrets(cfg.namespace, store, cfg.secretNames, secrets) && Credentials.IsMerge(secrets, merged)
  {
    merged :| EndsWith(cfg, store, on, true, merged);
    EndIsSettled(cfg, store, on, merged);
    SettledCarries(cfg, on, ServiceAccount, merged);
    SettledCarries(cfg, on, ClusterRole, merged);
    SettledCarries(cfg, on, ClusterRoleBinding, merged);
    SettledCarries(cfg, on, Deployment, merged);
    SettledCarries(cfg, on, Service, merged);
    SecretLeft(cfg, store, on, merged);
  }

  lemma SecretLeft(cfg: Config, store: Store, on: Store, merged: Merged)
    requires EndsWith(cfg, store, on, true, merged) && Settled(cfg, on, OciCredentials, merged)
    ensures var secret := Key(SecretKind, cfg.namespace, "pacto-dashboard-oci-creds");
            if cfg.secretNames == [] then secret !in on
            else
              && Carries(on, secret, cfg.parts(OciCredentials)[Path("data") := Data(Credentials.DockerConfigSecret(Credentials.Parsed(merged)))])
              && exists secrets :: AreSecrets(cfg.namespace, store, cfg.secretNames, secrets) && Credentials.IsMerge(secrets, merged)
  {
    PassMerges(cfg, store, merged);
    SourcesInFull(cfg, store, Sources(cfg, store).value);
    if cfg.secretNames != [] {
      SecretCarries(cfg, on, merged);
    }
  }

  lemma SecretCarries(cfg: Config, on: Store, merged: Merged)
    requires cfg.secretNames != [] && Settled(cfg, on, OciCredentials, merged)
    ensures Carries(on, Key(SecretKind, cfg.namespace, "pacto-dashboard-oci-creds"),
                    cfg.parts(OciCredentials)[Path("data") := Data(Credentials.DockerConfigSecret(Credentials.Parsed(merged)))])
  {
    AppliedCarries(Lookup(on, KeyOf(cfg, OciCredentials)), cfg.parts(OciCredentials), MergedData(merged));
  }

  /** An enabled pass makes sure of its namespace: one that is there stays as it is, and a new one is labelled. */
  lemma EnabledPassNamespace(cfg: Config, store: Store, on: Store)
    requires cfg.enabled && MayEnd(cfg, store, on, true)
    ensures var key := Key(NamespaceKind, "", cfg.namespace);
            if key in store then key in on && on[key] == store[key] else Carries(on, key, map[])
  {
    var merged :| EndsWith(cfg, store, on, true, merged);
    NamespaceLeft(cfg, store, STAGES, merged);
    EndIsSettled(cfg, store, on, merged);
    assert Settled(cfg, on, EnsureNamespace, merged);
  }

  lemma {:induction false} NamespaceLeft(cfg: Config, store: Store, stages: seq<Stage>, merged: Merged)
    ensures var key := Key(NamespaceKind, "", cfg.namespace);
            var after := DoAll(cfg, store, stages, merged).0;
            if key in store then key in after && after[key] == store[key] else Lookup(after, key) in {None, Some(Object(LABELS, {}, {}))}
  {
    if stages != [] {
      NamespaceLeft(cfg, store, stages[..|stages| - 1], merged);
    }
  }
}
