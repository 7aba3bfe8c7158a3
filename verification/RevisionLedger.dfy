/** The ledger of contract revisions (ensureRevision in internal/controller/pacto_controller.go): a Get, Create
    and status-update protocol with several writers, crashes between its steps, and stale reads. The hash is a
    function about which only the length of its hexadecimal form is known. */
module RevisionLedger {
  import opened Wrappers

  datatype Source = Source(oci: string, digest: string, inline: bool)

  /** The labels a revision is listed by repeat `pactoRef` and `version`. */
  datatype RevisionSpec = RevisionSpec(version: string, source: Source, pactoRef: string, serviceName: string)

  datatype RevisionStatus = RevisionStatus(resolved: bool, contractHash: string, createdAt: Option<int>)

  datatype Revision = Revision(spec: RevisionSpec, status: RevisionStatus, resourceVersion: nat)

  /** The revisions of one namespace. */
  type Ledger = map<string, Revision>

  datatype Loaded = Loaded(bytes: string, version: string, serviceName: string, resolvedRef: string, resolvedDigest: string)

  /** One call: which Pacto, its declared reference, and what was loaded. */
  datatype Job = Job(pacto: string, ociRef: string, loaded: Loaded)

  type Sha = string -> string

  ghost predicate IsSha(sha: Sha) {
    forall x :: |sha(x)| == 64
  }

  const MAX_NAME := 253
  const BLANK := RevisionStatus(false, "", None)

  // ----- names -----

  function Version(job: Job): string {
    if job.loaded.version == "" then "unknown" else job.loaded.version
  }

  /** strings.ReplaceAll(version, ".", "-") */
  function Sanitize(version: string): (r: string)
    ensures |r| == |version|
    ensures forall i :: 0 <= i < |r| ==> r[i] == if version[i] == '.' then '-' else version[i]
  {
    if version == "" then "" else [if version[0] == '.' then '-' else version[0]] + Sanitize(version[1..])
  }

  function FullName(pacto: string, version: string, hash: string): string
    requires |hash| >= 7
  {
    pacto + "-" + Sanitize(version) + "-" + hash[..7]
  }

  function RevisionName(pacto: string, version: string, hash: string): string
    requires |hash| >= 7
  {
    var name := FullName(pacto, version, hash);
    if |name| > MAX_NAME then name[..MAX_NAME] else name
  }

  /** The name is short enough to be kept whole. */
  predicate Untruncated(pacto: string, version: string) {
    |pacto| + |version| + 9 <= MAX_NAME
  }

  /** A whole name shows the short hash, and for one Pacto two of them agree exactly when version, dots
      apart, and short hash agree. */
  lemma WholeNames(pacto: string, version: string, hash: string, version': string, hash': string)
    requires |hash| >= 7 && |hash'| >= 7 && Untruncated(pacto, version) && Untruncated(pacto, version')
    ensures var name := RevisionName(pacto, version, hash); |name| >= 7 && name[|name| - 7..] == hash[..7]
    ensures RevisionName(pacto, version, hash) == RevisionName(pacto, version', hash') <==>
            Sanitize(version) == Sanitize(version') && hash[..7] == hash'[..7]
  {
    WholeNameParts(pacto, version, hash);
    WholeNameParts(pacto, version', hash');
  }

  lemma WholeNameParts(pacto: string, version: string, hash: string)
    requires |hash| >= 7 && Untruncated(pacto, version)
    ensures var name := RevisionName(pacto, version, hash);
            && |name| == |pacto| + |version| + 9 && name[|name| - 7..] == hash[..7]
            && name[|pacto| + 1..|name| - 8] == Sanitize(version)
  {
    var v, h := Sanitize(version), hash[..7];
    var before := pacto + "-";
    assert FullName(pacto, version, hash) == before + v + "-" + h;
    assert (before + v + "-" + h)[|before|..|before| + |v|] == v;
  }

  /** Dots are not told from dashes: "1.0" and "1-0" share names. */
  lemma DotsAreDashes(pacto: string, hash: string)
    requires |hash| >= 7
    ensures RevisionName(pacto, "1.0", hash) == RevisionName(pacto, "1-0", hash)
  {
    assert Sanitize("1.0") == "1-0" == Sanitize("1-0");
  }

  /** One content has different names for different Pactos. */
  lemma NamesTellPactosApart(pacto: string, pacto': string, version: string, hash: string)
    requires |hash| >= 7 && Untruncated(pacto, version) && Untruncated(pacto', version)
    requires RevisionName(pacto, version, hash) == RevisionName(pacto', version, hash)
    ensures pacto == pacto'
  {
    var name := RevisionName(pacto, version, hash);
    assert |pacto| == |pacto'|;
    assert name[..|pacto|] == pacto && name[..|pacto|] == pacto';
  }

  /** How many characters of the hash the name has room for. */
  function KeptHash(pacto: string, version: string): (k: nat)
    ensures k <= 7
  {
    var room := MAX_NAME - |pacto| - |version| - 2;
    if room <= 0 then 0 else if room < 7 then room else 7
  }

  /** For all lengths: one Pacto and version give two hashes the same name exactly when they agree in the
      characters there is room for. */
  lemma NamesByKeptHash(pacto: string, version: string, hash: string, hash': string)
    requires |hash| >= 7 && |hash'| >= 7
    ensures var k := KeptHash(pacto, version);
            RevisionName(pacto, version, hash) == RevisionName(pacto, version, hash') <==> hash[..k] == hash'[..k]
  {
    var prefix := pacto + "-" + Sanitize(version) + "-";
    KeptPart(prefix, hash[..7], KeptHash(pacto, version));
    KeptPart(prefix, hash'[..7], KeptHash(pacto, version));
    assert hash[..7][..KeptHash(pacto, version)] == hash[..KeptHash(pacto, version)];
    assert hash'[..7][..KeptHash(pacto, version)] == hash'[..KeptHash(pacto, version)];
    SamePrefix(prefix, hash[..KeptHash(pacto, version)], hash'[..KeptHash(pacto, version)]);
  }

  /** Truncation leaves what fits of the prefix and of the short hash. */
  lemma KeptPart(prefix: string, short: string, k: nat)
    requires |short| == 7 && k == if |prefix| >= MAX_NAME then 0 else if MAX_NAME - |prefix| < 7 then MAX_NAME - |prefix| else 7
    ensures var name := prefix + short;
            (if |name| > MAX_NAME then name[..MAX_NAME] else name) ==
            (if |prefix| > MAX_NAME then prefix[..MAX_NAME] else prefix) + short[..k]
  {
  }

  lemma SamePrefix(prefix: string, a: string, b: string)
    requires |a| == |b|
    ensures var kept := if |prefix| > MAX_NAME then prefix[..MAX_NAME] else prefix; kept + a == kept + b <==> a == b
  {
    var kept := if |prefix| > MAX_NAME then prefix[..MAX_NAME] else prefix;
    assert (kept + a)[|kept|..] == a && (kept + b)[|kept|..] == b;
  }

  /** Once Pacto name and version fill the name, the hash is cut off and different contents share it. */
  lemma TruncationLosesHash(pacto: string, version: string, hash: string, hash': string)
    requires |hash| >= 7 && |hash'| >= 7 && |pacto| + |version| + 2 >= MAX_NAME
    ensures RevisionName(pacto, version, hash) == RevisionName(pacto, version, hash')
  {
    var prefix := pacto + "-" + Sanitize(version) + "-";
    assert FullName(pacto, version, hash)[..MAX_NAME] == prefix[..MAX_NAME];
    assert FullName(pacto, version, hash')[..MAX_NAME] == prefix[..MAX_NAME];
  }

  /** A name consists of the Pacto, the version with its dots turned into dashes, and the first seven characters of
      the hash, as far as 253 characters go. */
  lemma NameParts(pacto: string, version: string, hash: string, dashed: string)
    requires |hash| >= 7 && |dashed| == |version|
    requires forall i :: 0 <= i < |version| ==> dashed[i] == if version[i] == '.' then '-' else version[i]
    ensures var whole := pacto + "-" + dashed + "-" + hash[..7];
            RevisionName(pacto, version, hash) == if |whole| > 253 then whole[..253] else whole
  {
    assert dashed == Sanitize(version);
  }

  // ----- one call -----

  function NameOf(sha: Sha, job: Job): string
    requires IsSha(sha)
  {
    RevisionName(job.pacto, Version(job), sha(job.loaded.bytes))
  }

  function SourceOf(job: Job): Source {
    if job.loaded.resolvedRef != "" then Source(job.loaded.resolvedRef, job.loaded.resolvedDigest, false)
    else if job.ociRef != "" then Source(job.ociRef, job.loaded.resolvedDigest, false)
    else Source("", "", true)
  }

  function SpecOf(job: Job): RevisionSpec {
    RevisionSpec(Version(job), SourceOf(job), job.pacto, job.loaded.serviceName)
  }

  /** A specification records the call that made it: the Pacto, the service, the version, "unknown" if there is
      none, and the source. That is the reference that was resolved, failing that the declared one, each with the
      digest that was resolved; and it is inline exactly when there is neither. */
  predicate Records(spec: RevisionSpec, job: Job) {
    && spec.pactoRef == job.pacto && spec.serviceName == job.loaded.serviceName
    && spec.version == (if job.loaded.version == "" then "unknown" else job.loaded.version)
    && (spec.source.inline <==> job.loaded.resolvedRef == "" && job.ociRef == "")
    && (job.loaded.resolvedRef != "" ==> spec.source.oci == job.loaded.resolvedRef)
    && (job.loaded.resolvedRef == "" ==> spec.source.oci == job.ociRef)
    && spec.source.digest == (if spec.source.inline then "" else job.loaded.resolvedDigest)
  }

  lemma SpecRecords(job: Job)
    ensures Records(SpecOf(job), job)
  {
  }

  predicate NeedsStamp(status: RevisionStatus) {
    status.contractHash == "" || status.createdAt.None?
  }

  /** The status a backfill writes over what it read, and, over a blank status, what follows a Create. */
  function Stamp(status: RevisionStatus, hash: string, now: int): RevisionStatus {
    RevisionStatus(true, hash, if status.createdAt.None? then Some(now) else status.createdAt)
  }

  /** The calls that fail without effect. */
  datatype Faults = Faults(get: bool, create: bool, status: bool)

  datatype Store = Store(ledger: Ledger, nextVersion: nat)

  /** A status update is refused when the resource is no longer the version that was read. */
  function Updated(store: Store, name: string, seen: nat, status: RevisionStatus): Store {
    if name !in store.ledger || store.ledger[name].resourceVersion != seen then store
    else Store(store.ledger[name := Revision(store.ledger[name].spec, status, store.nextVersion)], store.nextVersion + 1)
  }

  function Stamped(store: Store, name: string, hash: string, now: int): Store
    requires name in store.ledger
  {
    var r := store.ledger[name];
    Updated(store, name, r.resourceVersion, Stamp(r.status, hash, now))
  }

  function Added(store: Store, name: string, spec: RevisionSpec): Store {
    Store(store.ledger[name := Revision(spec, BLANK, store.nextVersion)], store.nextVersion + 1)
  }

  /** What an undisturbed call makes of the store. */
  function Ensured(sha: Sha, store: Store, job: Job, faults: Faults, now: int): Store
    requires IsSha(sha)
  {
    var name, hash := NameOf(sha, job), sha(job.loaded.bytes);
    if faults.get then store
    else if name in store.ledger then
      if NeedsStamp(store.ledger[name].status) && !faults.status then Stamped(store, name, hash, now) else store
    else if faults.create then store
    else
      var added := Added(store, name, SpecOf(job));
      if faults.status then added else Stamped(added, name, hash, now)
  }

  /** A call that finds no revision of its name adds one: it records the call, and is stamped with the hash of
      the content and the time unless the status update fails; nothing else changes. */
  lemma CallCreates(sha: Sha, store: Store, job: Job, faults: Faults, now: int)
    requires IsSha(sha) && NameOf(sha, job) !in store.ledger && !faults.get
    ensures var name, after := NameOf(sha, job), Ensured(sha, store, job, faults, now).ledger;
            if faults.create then after == store.ledger
            else
              && name in after && Records(after[name].spec, job) && after - {name} == store.ledger
              && after[name].status == if faults.status then RevisionStatus(false, "", None)
                                       else RevisionStatus(true, sha(job.loaded.bytes), Some(now))
  {
  }

  /** A call that finds its revision leaves the specification as it is. Where hash or time is missing it sets both,
      but keeps a time already set; anything else it leaves alone. */
  lemma CallBackfills(sha: Sha, store: Store, job: Job, faults: Faults, now: int)
    requires IsSha(sha) && NameOf(sha, job) in store.ledger
    ensures var name, after := NameOf(sha, job), Ensured(sha, store, job, faults, now).ledger;
            var was, status := store.ledger[name], store.ledger[name].status;
            && name in after && after[name].spec == was.spec && after - {name} == store.ledger - {name}
            && after[name].status ==
               if faults.get || faults.status || (status.contractHash != "" && status.createdAt.Some?) then status
               else RevisionStatus(true, sha(job.loaded.bytes), Some(if status.createdAt.Some? then status.createdAt.value else now))
  {
  }

  class RevisionClient {
    var store: Store

    constructor ()
      ensures store == Store(map[], 0)
    {
      store := Store(map[], 0);
    }

    /** Status().Update with optimistic concurrency. */
    method UpdateStatus(name: string, seen: Revision, status: RevisionStatus, fails: bool)
      modifies this
      ensures store == if fails then old(store) else Updated(old(store), name, seen.resourceVersion, status)
    {
      if fails || name !in store.ledger || store.ledger[name].resourceVersion != seen.resourceVersion {
        return;
      }
      store := Store(store.ledger[name := Revision(store.ledger[name].spec, status, store.nextVersion)], store.nextVersion + 1);
    }

    /** ensureRevision; None is an error return. A failed status update is only logged. */
    method EnsureRevision(sha: Sha, job: Job, faults: Faults, now: int) returns (r: Option<string>)
      requires IsSha(sha)
      modifies this
      ensures store == Ensured(sha, old(store), job, faults, now)
      ensures r.Some? ==> r.value == NameOf(sha, job) && r.value in store.ledger
      ensures r.None? <==> faults.get || (NameOf(sha, job) !in old(store).ledger && faults.create)
      ensures r.Some? && r.value !in old(store).ledger ==>
                && Records(store.ledger[r.value].spec, job)
                && store.ledger[r.value].status == if faults.status then RevisionStatus(false, "", None)
                                                   else RevisionStatus(true, sha(job.loaded.bytes), Some(now))
    {
      var hash := sha(job.loaded.bytes);
      var version := job.loaded.version;
      if version == "" {
        version := "unknown";
      }
      assert version == Version(job);
      var name := RevisionName(job.pacto, version, hash);
      if faults.get {
        return None;
      }
      if name in store.ledger {
        Backfill(name, hash, faults.status, now);
        return Some(name);
      }
      if faults.create {
        return None;
      }
      SpecRecords(job);
      CreateRevision(name, RevisionSpec(version, SourceOf(job), job.pacto, job.loaded.serviceName), hash, faults.status, now);
      r := Some(name);
    }

    /** An existing revision lacking hash or creation time gets them. */
    method Backfill(name: string, hash: string, fails: bool, now: int)
      requires name in store.ledger
      modifies this
      ensures store == if NeedsStamp(old(store).ledger[name].status) && !fails then Stamped(old(store), name, hash, now) else old(store)
    {
      var existing := store.ledger[name];
      if existing.status.contractHash == "" || existing.status.createdAt.None? {
        var status := existing.status.(resolved := true, contractHash := hash);
        if status.createdAt.None? {
          status := status.(createdAt := Some(now));
        }
        UpdateStatus(name, existing, status, fails);
      }
    }

    /** Create leaves the status out; it follows as an update of its own. */
    method CreateRevision(name: string, spec: RevisionSpec, hash: string, fails: bool, now: int)
      requires name !in store.ledger
      modifies this
      ensures var added := Added(old(store), name, spec);
              store == if fails then added else Stamped(added, name, hash, now)
    {
      var revision := Revision(spec, BLANK, store.nextVersion);
      store := Store(store.ledger[name := revision], store.nextVersion + 1);
      UpdateStatus(name, revision, RevisionStatus(true, hash, Some(now)), fails);
    }
  }

  // ----- several writers -----

  datatype Phase =
    | Started(job: Job)
    | SeenMissing(job: Job)                        // Get found nothing; Create is next
    | Holding(job: Job, seen: Revision)            // a revision without a stamp was read or created; the status update is next

  /** `past` are the earlier states of the ledger, which stale reads may still return; `begun` the jobs so far. */
  datatype System = System(store: Store, past: seq<Ledger>, writers: map<nat, Phase>, begun: set<Job>)

  datatype Event =
    | Begin(writer: nat, job: Job)
    | Get(writer: nat, at: nat)                    // reads an earlier state, or the present one
    | Create(writer: nat, fails: bool)
    | Update(writer: nat, now: int, fails: bool)
    | Stop(writer: nat)                            // an error return, a lost answer, or a crash

  function Put(s: System, writer: nat, phase: Phase, store: Store): System {
    s.(store := store, past := s.past + [s.store.ledger], writers := s.writers[writer := phase])
  }

  function Leave(s: System, writer: nat, store: Store): System {
    s.(store := store, past := s.past + [s.store.ledger], writers := s.writers - {writer})
  }

  function View(s: System, at: nat): Ledger {
    if at < |s.past| then s.past[at] else s.store.ledger
  }

  function Step(sha: Sha, s: System, e: Event): System
    requires IsSha(sha)
  {
    match e
    case Begin(w, job) =>
      if w in s.writers then s else s.(writers := s.writers[w := Started(job)], begun := s.begun + {job})
    case Get(w, at) =>
      if w !in s.writers || !s.writers[w].Started? then s
      else
        var job := s.writers[w].job;
        var name := NameOf(sha, job);
        if name !in View(s, at) then s.(writers := s.writers[w := SeenMissing(job)])
        else if NeedsStamp(View(s, at)[name].status) then s.(writers := s.writers[w := Holding(job, View(s, at)[name])])
        else s.(writers := s.writers - {w})
    case Create(w, fails) =>
      if w !in s.writers || !s.writers[w].SeenMissing? then s
      else
        var job := s.writers[w].job;
        var name := NameOf(sha, job);
        if fails || name in s.store.ledger then s.(writers := s.writers - {w})
        else
          var store := Added(s.store, name, SpecOf(job));
          Put(s, w, Holding(job, store.ledger[name]), store)
    case Update(w, now, fails) =>
      if w !in s.writers || !s.writers[w].Holding? then s
      else
        var Holding(job, seen) := s.writers[w];
        var name := NameOf(sha, job);
        if fails || name !in s.store.ledger || s.store.ledger[name].resourceVersion != seen.resourceVersion
        then s.(writers := s.writers - {w})
        else
          Leave(s, w, Updated(s.store, name, seen.resourceVersion, Stamp(seen.status, sha(job.loaded.bytes), now)))
    case Stop(w) => s.(writers := s.writers - {w})
  }

  function Run(sha: Sha, s: System, events: seq<Event>): System
    requires IsSha(sha)
    decreases |events|
  {
    if events == [] then s else Run(sha, Step(sha, s, events[0]), events[1..])
  }

  const EMPTY := System(Store(map[], 0), [], map[], {})

  // ----- the invariant -----

  /** Hash and creation time are set together, and with them the mark that the revision was resolved. */
  predicate Coherent(status: RevisionStatus) {
    && (status.contractHash == "" <==> status.createdAt.None?)
    && (status.resolved <==> status.contractHash != "")
  }

  /** A version seen earlier: at an equal resource version nothing has changed. */
  predicate Earlier(seen: Revision, name: string, store: Store) {
    && Coherent(seen.status) && seen.resourceVersion < store.nextVersion
    && name in store.ledger
    && (store.ledger[name].resourceVersion == seen.resourceVersion ==> store.ledger[name] == seen)
  }

  /** Who created the revision, and who stamped it. */
  ghost predicate Accounted(sha: Sha, begun: set<Job>, name: string, r: Revision)
    requires IsSha(sha)
  {
    && (exists job :: job in begun && NameOf(sha, job) == name && r.spec == SpecOf(job))
    && (r.status.contractHash != "" ==> Stamps(sha, begun, name, r.status.contractHash))
  }

  ghost predicate Stamps(sha: Sha, begun: set<Job>, name: string, hash: string)
    requires IsSha(sha)
  {
    exists job :: job in begun && NameOf(sha, job) == name && hash == sha(job.loaded.bytes)
  }

  ghost predicate LedgerInv(sha: Sha, s: System)
    requires IsSha(sha)
  {
    forall name :: name in s.store.ledger ==>
      Earlier(s.store.ledger[name], name, s.store) && Accounted(sha, s.begun, name, s.store.ledger[name])
  }

  ghost predicate PastInv(s: System) {
    forall i, name :: 0 <= i < |s.past| && name in s.past[i] ==> Earlier(s.past[i][name], name, s.store)
  }

  ghost predicate WriterInv(sha: Sha, s: System, phase: Phase)
    requires IsSha(sha)
  {
    && phase.job in s.begun
    && (phase.Holding? ==> NeedsStamp(phase.seen.status) && Earlier(phase.seen, NameOf(sha, phase.job), s.store))
  }

  ghost predicate Inv(sha: Sha, s: System)
    requires IsSha(sha)
  {
    && LedgerInv(sha, s)
    && PastInv(s)
    && (forall w :: w in s.writers ==> WriterInv(sha, s, s.writers[w]))
  }

  // ----- growth -----

  predicate StatusGrows(before: RevisionStatus, after: RevisionStatus) {
    || after == before
    || (before.contractHash == "" && before.createdAt.None? && after.contractHash != "" && after.createdAt.Some?)
  }

  /** Nothing is lost, no specification changes, and hash and creation time are set once, together. */
  ghost predicate Grows(before: Ledger, after: Ledger) {
    forall name :: name in before ==>
      && name in after && after[name].spec == before[name].spec
      && StatusGrows(before[name].status, after[name].status)
  }

  lemma GrowsTransitive(a: Ledger, b: Ledger, c: Ledger)
    requires Grows(a, b) && Grows(b, c)
    ensures Grows(a, c)
  {
  }

  /** What one store operation may do at one name: nothing, add it, or stamp a blank revision. */
  predicate Writes(before: Store, after: Store, name: string) {
    && after.nextVersion == before.nextVersion + 1
    && name in after.ledger && after.ledger == before.ledger[name := after.ledger[name]]
    && after.ledger[name].resourceVersion == before.nextVersion
    && Coherent(after.ledger[name].status)
    && (name in before.ledger ==>
          after.ledger[name].spec == before.ledger[name].spec && StatusGrows(before.ledger[name].status, after.ledger[name].status))
  }

  lemma EarlierStays(seen: Revision, name: string, before: Store, after: Store, at: string)
    requires Earlier(seen, name, before) && Writes(before, after, at)
    ensures Earlier(seen, name, after)
  {
  }

  /** Any such write keeps the invariant. */
  lemma WriteKeepsInv(sha: Sha, s: System, s': System, name: string)
    requires IsSha(sha) && Inv(sha, s) && Writes(s.store, s'.store, name)
    requires s'.past == s.past + [s.store.ledger] && s'.begun == s.begun
    requires Accounted(sha, s.begun, name, s'.store.ledger[name])
    requires forall w :: w in s'.writers ==>
               (w in s.writers && s'.writers[w] == s.writers[w]) || WriterInv(sha, s', s'.writers[w])
    ensures Inv(sha, s') && Grows(s.store.ledger, s'.store.ledger)
  {
    forall n | n in s'.store.ledger
      ensures Earlier(s'.store.ledger[n], n, s'.store) && Accounted(sha, s'.begun, n, s'.store.ledger[n])
    {
      if n != name {
        EarlierStays(s.store.ledger[n], n, s.store, s'.store, name);
      }
    }
    forall i, n | 0 <= i < |s'.past| && n in s'.past[i] ensures Earlier(s'.past[i][n], n, s'.store) {
      EarlierStays(s'.past[i][n], n, s.store, s'.store, name);
    }
    forall w | w in s'.writers ensures WriterInv(sha, s', s'.writers[w]) {
      if w in s.writers && s'.writers[w] == s.writers[w] && s.writers[w].Holding? {
        EarlierStays(s.writers[w].seen, NameOf(sha, s.writers[w].job), s.store, s'.store, name);
      }
    }
  }

  /** Steps that leave the store alone. */
  lemma ReadKeepsInv(sha: Sha, s: System, s': System)
    requires IsSha(sha) && Inv(sha, s) && s'.store == s.store && s'.past == s.past && s.begun <= s'.begun
    requires forall w :: w in s'.writers ==>
               (w in s.writers && s'.writers[w] == s.writers[w]) || WriterInv(sha, s', s'.writers[w])
    ensures Inv(sha, s')
  {
    forall name | name in s'.store.ledger ensures Accounted(sha, s'.begun, name, s'.store.ledger[name]) {
      AccountedStays(sha, s.begun, s'.begun, name, s.store.ledger[name]);
    }
  }

  lemma AccountedStays(sha: Sha, begun: set<Job>, begun': set<Job>, name: string, r: Revision)
    requires IsSha(sha) && begun <= begun' && Accounted(sha, begun, name, r)
    ensures Accounted(sha, begun', name, r)
  {
    if r.status.contractHash != "" {
      var job :| job in begun && NameOf(sha, job) == name && r.status.contractHash == sha(job.loaded.bytes);
      assert job in begun';
    }
  }

  lemma GetKeepsInv(sha: Sha, s: System, w: nat, at: nat)
    requires IsSha(sha) && Inv(sha, s)
    ensures var s' := Step(sha, s, Get(w, at)); Inv(sha, s') && Grows(s.store.ledger, s'.store.ledger)
  {
    var s' := Step(sha, s, Get(w, at));
    if w in s.writers && s.writers[w].Started? && w in s'.writers && s'.writers[w].Holding? {
      assert WriterInv(sha, s, s.writers[w]);
      SeenEarlier(sha, s, at, NameOf(sha, s.writers[w].job));
    }
    ReadKeepsInv(sha, s, s');
  }

  /** What a read returns, stale or not, was seen earlier. */
  lemma SeenEarlier(sha: Sha, s: System, at: nat, name: string)
    requires IsSha(sha) && LedgerInv(sha, s) && PastInv(s) && name in View(s, at)
    ensures Earlier(View(s, at)[name], name, s.store)
  {
  }

  lemma CreateKeepsInv(sha: Sha, s: System, w: nat, fails: bool)
    requires IsSha(sha) && Inv(sha, s)
    ensures var s' := Step(sha, s, Create(w, fails)); Inv(sha, s') && Grows(s.store.ledger, s'.store.ledger)
  {
    var s' := Step(sha, s, Create(w, fails));
    if w in s.writers && s.writers[w].SeenMissing? {
      var job := s.writers[w].job;
      var name := NameOf(sha, job);
      assert WriterInv(sha, s, s.writers[w]);
      if fails || name in s.store.ledger {
        ReadKeepsInv(sha, s, s');
      } else {
        assert Writes(s.store, s'.store, name);
        WriteKeepsInv(sha, s, s', name);
      }
    }
  }

  lemma UpdateKeepsInv(sha: Sha, s: System, w: nat, now: int, fails: bool)
    requires IsSha(sha) && Inv(sha, s)
    ensures var s' := Step(sha, s, Update(w, now, fails)); Inv(sha, s') && Grows(s.store.ledger, s'.store.ledger)
  {
    var s' := Step(sha, s, Update(w, now, fails));
    if w in s.writers && s.writers[w].Holding? {
      var Holding(job, seen) := s.writers[w];
      var name := NameOf(sha, job);
      assert WriterInv(sha, s, s.writers[w]);
      if fails || s.store.ledger[name].resourceVersion != seen.resourceVersion {
        ReadKeepsInv(sha, s, s');
      } else {
        assert Writes(s.store, s'.store, name);
        assert Stamps(sha, s.begun, name, sha(job.loaded.bytes));
        WriteKeepsInv(sha, s, s', name);
      }
    }
  }

  lemma ComingAndGoingKeepsInv(sha: Sha, s: System, e: Event)
    requires IsSha(sha) && Inv(sha, s) && (e.Begin? || e.Stop?)
    ensures var s' := Step(sha, s, e); Inv(sha, s') && Grows(s.store.ledger, s'.store.ledger)
  {
    ReadKeepsInv(sha, s, Step(sha, s, e));
  }

  lemma StepKeepsInv(sha: Sha, s: System, e: Event)
    requires IsSha(sha) && Inv(sha, s)
    ensures var s' := Step(sha, s, e); Inv(sha, s') && Grows(s.store.ledger, s'.store.ledger)
  {
    if e.Get? {
      GetKeepsInv(sha, s, e.writer, e.at);
    } else if e.Create? {
      CreateKeepsInv(sha, s, e.writer, e.fails);
    } else if e.Update? {
      UpdateKeepsInv(sha, s, e.writer, e.now, e.fails);
    } else {
      ComingAndGoingKeepsInv(sha, s, e);
    }
  }

  lemma {:induction false} RunKeepsInv(sha: Sha, s: System, events: seq<Event>)
    requires IsSha(sha) && Inv(sha, s)
    ensures var s' := Run(sha, s, events); Inv(sha, s') && Grows(s.store.ledger, s'.store.ledger)
    decreases |events|
  {
    if events != [] {
      var next := Step(sha, s, events[0]);
      StepKeepsInv(sha, s, events[0]);
      RunKeepsInv(sha, next, events[1..]);
      GrowsTransitive(s.store.ledger, next.store.ledger, Run(sha, next, events[1..]).store.ledger);
    }
  }

  lemma {:induction false} RunAppend(sha: Sha, s: System, a: seq<Event>, b: seq<Event>)
    requires IsSha(sha)
    ensures Run(sha, s, a + b) == Run(sha, Run(sha, s, a), b)
    decreases |a|
  {
    if a == [] {
      assert a + b == b;
    } else {
      RunAppend(sha, Step(sha, s, a[0]), a[1..], b);
      assert (a + b)[1..] == a[1..] + b;
    }
  }

  /** The ledger is append-only over every run: whatever holds of it after `before` still holds after `more`. */
  lemma LedgerIsAppendOnly(sha: Sha, before: seq<Event>, more: seq<Event>)
    requires IsSha(sha)
    ensures Grows(Run(sha, EMPTY, before).store.ledger, Run(sha, EMPTY, before + more).store.ledger)
  {
    RunKeepsInv(sha, EMPTY, before);
    RunKeepsInv(sha, Run(sha, EMPTY, before), more);
    RunAppend(sha, EMPTY, before, more);
  }

  /** In every reachable ledger, hash, creation time and mark are all set or all unset, the specification is that
      of a call that used this name, which it records, and the hash is that of such a call. */
  lemma ReachableLedger(sha: Sha, events: seq<Event>, name: string)
    requires IsSha(sha)
    requires name in Run(sha, EMPTY, events).store.ledger
    ensures var s := Run(sha, EMPTY, events);
            && Coherent(s.store.ledger[name].status) && Accounted(sha, s.begun, name, s.store.ledger[name])
            && exists job :: job in s.begun && NameOf(sha, job) == name && Records(s.store.ledger[name].spec, job)
  {
    var s := Run(sha, EMPTY, events);
    RunKeepsInv(sha, EMPTY, events);
    var job :| job in s.begun && NameOf(sha, job) == name && s.store.ledger[name].spec == SpecOf(job);
    SpecRecords(job);
  }

  /** No two different contents among the calls share a name. */
  ghost predicate NamesTellContentsApart(sha: Sha, begun: set<Job>)
    requires IsSha(sha)
  {
    forall a, b :: a in begun && b in begun && NameOf(sha, a) == NameOf(sha, b) ==> a.loaded.bytes == b.loaded.bytes
  }

  /** Then specification and hash of a revision describe the same content, whoever wrote each. */
  lemma SpecAndHashAgree(sha: Sha, events: seq<Event>, name: string)
    requires IsSha(sha)
    requires var s := Run(sha, EMPTY, events);
             NamesTellContentsApart(sha, s.begun) && name in s.store.ledger && s.store.ledger[name].status.contractHash != ""
    ensures var s := Run(sha, EMPTY, events);
            exists job :: job in s.begun && NameOf(sha, job) == name && Records(s.store.ledger[name].spec, job)
                          && s.store.ledger[name].status.contractHash == sha(job.loaded.bytes)
  {
    ReachableLedger(sha, events, name);
  }

  /** The name of a stamped revision ends in the start of its hash, if names are kept whole. */
  lemma NameShowsHash(sha: Sha, events: seq<Event>, name: string)
    requires IsSha(sha)
    requires var s := Run(sha, EMPTY, events);
             && (forall job :: job in s.begun ==> Untruncated(job.pacto, Version(job)))
             && name in s.store.ledger && s.store.ledger[name].status.contractHash != ""
    ensures var hash := Run(sha, EMPTY, events).store.ledger[name].status.contractHash;
            |name| >= 7 && |hash| == 64 && name[|name| - 7..] == hash[..7]
  {
    var s := Run(sha, EMPTY, events);
    ReachableLedger(sha, events, name);
    var job :| job in s.begun && NameOf(sha, job) == name && s.store.ledger[name].status.contractHash == sha(job.loaded.bytes);
    var hash := sha(job.loaded.bytes);
    WholeNames(job.pacto, Version(job), hash, Version(job), hash);
  }

  // ----- the undisturbed call as a run -----

  /** The steps of one call with fresh reads. */
  function Call(w: nat, job: Job, faults: Faults, now: int, at: nat): seq<Event> {
    [Begin(w, job)] + if faults.get then [Stop(w)] else [Get(w, at), Create(w, faults.create), Update(w, now, faults.status)]
  }

  /** Undisturbed, the steps of the protocol do what the call is specified to do. */
  lemma UndisturbedCall(sha: Sha, s: System, w: nat, job: Job, faults: Faults, now: int, at: nat)
    requires IsSha(sha) && w !in s.writers && |s.past| <= at
    ensures var s' := Run(sha, s, Call(w, job, faults, now, at));
            s'.store == Ensured(sha, s.store, job, faults, now) && s'.writers == s.writers
  {
    var s1 := Step(sha, s, Begin(w, job));
    var rest := if faults.get then [Stop(w)] else [Get(w, at), Create(w, faults.create), Update(w, now, faults.status)];
    assert Call(w, job, faults, now, at)[1..] == rest;
    assert s1.writers - {w} == s.writers;
    if faults.get {
      OneStep(sha, s1, Stop(w));
    } else {
      ThreeSteps(sha, s1, Get(w, at), Create(w, faults.create), Update(w, now, faults.status));
      UndisturbedSteps(sha, s1, w, job, faults, now, at);
    }
  }

  lemma OneStep(sha: Sha, s: System, e: Event)
    requires IsSha(sha)
    ensures Run(sha, s, [e]) == Step(sha, s, e)
  {
    assert Run(sha, Step(sha, s, e), []) == Step(sha, s, e);
  }

  lemma ThreeSteps(sha: Sha, s: System, a: Event, b: Event, c: Event)
    requires IsSha(sha)
    ensures Run(sha, s, [a, b, c]) == Step(sha, Step(sha, Step(sha, s, a), b), c)
  {
    assert [a, b, c][1..] == [b, c] && [b, c][1..] == [c];
    assert Run(sha, Step(sha, Step(sha, s, a), b), [c]) == Run(sha, Step(sha, Step(sha, Step(sha, s, a), b), c), []);
  }

  lemma UndisturbedSteps(sha: Sha, s: System, w: nat, job: Job, faults: Faults, now: int, at: nat)
    requires IsSha(sha) && w in s.writers && s.writers[w] == Started(job) && |s.past| <= at && !faults.get
    ensures var s' := Step(sha, Step(sha, Step(sha, s, Get(w, at)), Create(w, faults.create)), Update(w, now, faults.status));
            s'.store == Ensured(sha, s.store, job, faults, now) && s'.writers == s.writers - {w}
  {
  }
}
