/** Syncing the ledger with every tag of a repository (syncAllRevisions in internal/controller/pacto_controller.go). */
module RevisionSync {
  import opened Wrappers
  import opened RevisionLedger
  import OciRef

  /** What the sync meets at one tag: whether List answers, which of the revisions it finds comes first, the
      registry, and the faults and clock of the revision calls. */
  datatype Moment = Moment(
    lists: bool, first: set<string> -> string, load: string -> Option<Loaded>, faults: Faults, now: int)

  ghost predicate Chooses(m: Moment) {
    forall names: set<string> :: names != {} ==> m.first(names) in names
  }

  datatype Outcome = NotListed | Completed | Panicked

  /** The Pacto whose revisions are synced. */
  datatype Repo = Repo(pacto: string, ociRef: string)

  /** The revisions List finds by label. The label holds the contract's version; the tag is looked up in it. */
  function Matching(ledger: Ledger, repo: Repo, tag: string): set<string> {
    set name | name in ledger && ledger[name].spec.pactoRef == repo.pacto && ledger[name].spec.version == tag
  }

  function LoadTag(repo: Repo, tag: string, m: Moment): Option<Loaded> {
    m.load(OciRef.TaggedRef(repo.ociRef, tag))
  }

  function JobFor(repo: Repo, loaded: Loaded): Job {
    Job(repo.pacto, repo.ociRef, loaded)
  }

  /** The digest of the revision that is compared, if any is found. */
  function StoredDigest(ledger: Ledger, repo: Repo, tag: string, m: Moment): Option<string> {
    var name := m.first(Matching(ledger, repo, tag));
    if Matching(ledger, repo, tag) != {} && name in ledger then Some(ledger[name].spec.source.digest) else None
  }

  /** A force-push is about to be reported, with the first twelve characters of each digest. */
  predicate SeesForcePush(ledger: Ledger, repo: Repo, tag: string, m: Moment) {
    var stored, loaded := StoredDigest(ledger, repo, tag, m), LoadTag(repo, tag, m);
    m.lists && stored.Some? && stored.value != "" && loaded.Some? && loaded.value.resolvedDigest != stored.value
  }

  predicate Panics(ledger: Ledger, repo: Repo, tag: string, m: Moment) {
    SeesForcePush(ledger, repo, tag, m) &&
    (|StoredDigest(ledger, repo, tag, m).value| < 12 || |LoadTag(repo, tag, m).value.resolvedDigest| < 12)
  }

  /** The tag's content is handed to ensureRevision. */
  predicate Reaches(ledger: Ledger, repo: Repo, tag: string, m: Moment) {
    && m.lists && LoadTag(repo, tag, m).Some?
    && (Matching(ledger, repo, tag) == {} || SeesForcePush(ledger, repo, tag, m))
  }

  function SyncTag(sha: Sha, store: Store, repo: Repo, tag: string, m: Moment): Store
    requires IsSha(sha)
  {
    if Reaches(store.ledger, repo, tag, m)
    then Ensured(sha, store, JobFor(repo, LoadTag(repo, tag, m).value), m.faults, m.now)
    else store
  }

  // ----- what one turn does, by what the ledger holds -----

  /** The revision carries the Pacto's name and the tag as its version, the two labels that List asks for. */
  predicate Labelled(r: Revision, repo: Repo, tag: string) {
    r.spec.pactoRef == repo.pacto && r.spec.version == tag
  }

  /** A tag that no revision carries is always handed to ensureRevision, once List and load succeed. */
  lemma NewTagIsEnsured(sha: Sha, store: Store, repo: Repo, tag: string, m: Moment, loaded: Loaded)
    requires IsSha(sha) && m.lists && m.load(OciRef.TaggedRef(repo.ociRef, tag)) == Some(loaded)
    requires forall name :: name in store.ledger ==> !Labelled(store.ledger[name], repo, tag)
    ensures !Panics(store.ledger, repo, tag, m)
    ensures SyncTag(sha, store, repo, tag, m) == Ensured(sha, store, Job(repo.pacto, repo.ociRef, loaded), m.faults, m.now)
  {
    assert Matching(store.ledger, repo, tag) == {};
  }

  /** A tag that revisions carry is compared with the digest of one of them: an empty or equal one ends the turn, and
      a different one panics if either is too short to be cut, and else hands the load to ensureRevision. */
  lemma KnownTagIsCompared(sha: Sha, store: Store, repo: Repo, tag: string, m: Moment, loaded: Loaded)
    requires IsSha(sha) && Chooses(m) && m.lists && m.load(OciRef.TaggedRef(repo.ociRef, tag)) == Some(loaded)
    requires exists name :: name in store.ledger && Labelled(store.ledger[name], repo, tag)
    ensures exists name :: name in store.ledger && Labelled(store.ledger[name], repo, tag) &&
              var stored := store.ledger[name].spec.source.digest;
              var pushed := stored != "" && stored != loaded.resolvedDigest;
              && (Panics(store.ledger, repo, tag, m) <==> pushed && (|stored| < 12 || |loaded.resolvedDigest| < 12))
              && SyncTag(sha, store, repo, tag, m) ==
                 if pushed then Ensured(sha, store, Job(repo.pacto, repo.ociRef, loaded), m.faults, m.now) else store
  {
    var found :| found in store.ledger && Labelled(store.ledger[found], repo, tag);
    var names := Matching(store.ledger, repo, tag);
    assert found in names;
    assert m.first(names) in names;
    assert Labelled(store.ledger[m.first(names)], repo, tag);
  }

  /** Without an answer from List or from the registry nothing happens. */
  lemma UnansweredTagIsSkipped(sha: Sha, store: Store, repo: Repo, tag: string, m: Moment)
    requires IsSha(sha) && (!m.lists || m.load(OciRef.TaggedRef(repo.ociRef, tag)).None?)
    ensures !Panics(store.ledger, repo, tag, m) && SyncTag(sha, store, repo, tag, m) == store
  {
  }

  function SyncTags(sha: Sha, store: Store, repo: Repo, tags: seq<string>, moments: seq<Moment>): (Store, Outcome)
    requires IsSha(sha) && |tags| == |moments|
  {
    if tags == [] then (store, Completed)
    else
      var (s, outcome) := SyncTags(sha, store, repo, tags[..|tags| - 1], moments[..|tags| - 1]);
      var tag, m := tags[|tags| - 1], moments[|tags| - 1];
      if outcome.Panicked? || Panics(s.ledger, repo, tag, m) then (s, Panicked)
      else (SyncTag(sha, s, repo, tag, m), Completed)
  }

  /** syncAllRevisions: one tag after another; failures skip the tag, a digest too short to be cut panics. */
  method SyncAllRevisions(client: RevisionClient, sha: Sha, repo: Repo, tags: Option<seq<string>>, moments: seq<Moment>)
      returns (outcome: Outcome)
    requires IsSha(sha) && (tags.Some? ==> |tags.value| == |moments|)
    requires forall m :: m in moments ==> Chooses(m)
    modifies client
    ensures tags.None? ==> outcome == NotListed && client.store == old(client.store)
    ensures tags.Some? ==> (client.store, outcome) == SyncTags(sha, old(client.store), repo, tags.value, moments)
  {
    if tags.None? {
      return NotListed;
    }
    ghost var before := client.store;
    for i := 0 to |moments|
      invariant (client.store, Completed) == SyncTags(sha, before, repo, tags.value[..i], moments[..i])
    {
      var tag, m := tags.value[i], moments[i];
      OneMore(sha, before, repo, tags.value, moments, i);
      assert m in moments;
      var panics := SyncOneTag(client, sha, repo, tag, m);
      if panics {
        PanicEnds(sha, before, repo, tags.value, moments, i + 1);
        return Panicked;
      }
    }
    assert tags.value[..|moments|] == tags.value && moments[..|moments|] == moments;
    outcome := Completed;
  }

  method SyncOneTag(client: RevisionClient, sha: Sha, repo: Repo, tag: string, m: Moment) returns (panics: bool)
    requires IsSha(sha) && Chooses(m)
    modifies client
    ensures panics <==> Panics(old(client.store).ledger, repo, tag, m)
    ensures client.store == if panics then old(client.store) else SyncTag(sha, old(client.store), repo, tag, m)
  {
    panics := false;
    if !m.lists {
      return;
    }
    var names := Matching(client.store.ledger, repo, tag);
    if |names| > 0 {
      assert m.first(names) in names;
      var stored := client.store.ledger[m.first(names)].spec.source.digest;
      if stored == "" {
        return;
      }
      var loaded := LoadTag(repo, tag, m);
      if loaded.None? {
        return;
      }
      if loaded.value.resolvedDigest == stored {
        return;
      }
      if |stored| < 12 || |loaded.value.resolvedDigest| < 12 {
        return true;
      }
      var _ := client.EnsureRevision(sha, JobFor(repo, loaded.value), m.faults, m.now);
      return;
    }
    var loaded := LoadTag(repo, tag, m);
    if loaded.None? {
      return;
    }
    var _ := client.EnsureRevision(sha, JobFor(repo, loaded.value), m.faults, m.now);
  }

  lemma OneMore(sha: Sha, store: Store, repo: Repo, tags: seq<string>, moments: seq<Moment>, i: nat)
    requires IsSha(sha) && |tags| == |moments| && i < |tags|
    ensures var (s, outcome) := SyncTags(sha, store, repo, tags[..i], moments[..i]);
            SyncTags(sha, store, repo, tags[..i + 1], moments[..i + 1]) ==
            if outcome.Panicked? || Panics(s.ledger, repo, tags[i], moments[i]) then (s, Panicked)
            else (SyncTag(sha, s, repo, tags[i], moments[i]), Completed)
  {
    assert tags[..i + 1][..i] == tags[..i] && moments[..i + 1][..i] == moments[..i];
  }

  /** After a panic nothing more happens. */
  lemma {:induction false} PanicEnds(sha: Sha, store: Store, repo: Repo, tags: seq<string>, moments: seq<Moment>, i: nat)
    requires IsSha(sha) && |tags| == |moments| && i <= |tags|
    requires SyncTags(sha, store, repo, tags[..i], moments[..i]).1.Panicked?
    ensures SyncTags(sha, store, repo, tags, moments) == SyncTags(sha, store, repo, tags[..i], moments[..i])
    decreases |tags| - i
  {
    if i == |tags| {
      assert tags[..i] == tags && moments[..i] == moments;
    } else {
      OneMore(sha, store, repo, tags, moments, i);
      PanicEnds(sha, store, repo, tags, moments, i + 1);
    }
  }

  // ----- nothing is lost -----

  ghost predicate AllCoherent(ledger: Ledger) {
    forall name :: name in ledger ==> Coherent(ledger[name].status)
  }

  lemma EnsuredGrows(sha: Sha, store: Store, job: Job, faults: Faults, now: int)
    requires IsSha(sha) && AllCoherent(store.ledger)
    ensures var s' := Ensured(sha, store, job, faults, now);
            && AllCoherent(s'.ledger) && Grows(store.ledger, s'.ledger)
            && s'.nextVersion >= store.nextVersion && (s'.nextVersion == store.nextVersion ==> s' == store)
  {
  }

  /** Whatever fails, whichever revision comes first, and even if the sync panics, the ledger only grows. */
  lemma {:induction false} SyncGrows(sha: Sha, store: Store, repo: Repo, tags: seq<string>, moments: seq<Moment>)
    requires IsSha(sha) && |tags| == |moments| && AllCoherent(store.ledger)
    ensures var s' := SyncTags(sha, store, repo, tags, moments).0;
            AllCoherent(s'.ledger) && Grows(store.ledger, s'.ledger)
  {
    if tags != [] {
      var n := |tags| - 1;
      SyncGrows(sha, store, repo, tags[..n], moments[..n]);
      var s := SyncTags(sha, store, repo, tags[..n], moments[..n]).0;
      if Reaches(s.ledger, repo, tags[n], moments[n]) {
        EnsuredGrows(sha, s, JobFor(repo, LoadTag(repo, tags[n], moments[n]).value), moments[n].faults, moments[n].now);
      }
      GrowsTransitive(store.ledger, s.ledger, SyncTags(sha, store, repo, tags, moments).0.ledger);
    }
  }

  // ----- coverage -----

  datatype Content = Content(bytes: string, version: string, serviceName: string)

  function ContentOf(loaded: Loaded): Content {
    Content(loaded.bytes, loaded.version, loaded.serviceName)
  }

  /** A digest determines what is loaded; `content` says what. */
  ghost predicate Faithful(content: string -> Content, loaded: Loaded) {
    loaded.resolvedDigest != "" ==> ContentOf(loaded) == content(loaded.resolvedDigest)
  }

  ghost predicate Made(sha: Sha, content: string -> Content, job: Job, name: string, spec: RevisionSpec)
    requires IsSha(sha)
  {
    NameOf(sha, job) == name && spec == SpecOf(job) && Faithful(content, job.loaded)
  }

  /** Every revision was created by a call for a faithful load. */
  ghost predicate Provenance(sha: Sha, content: string -> Content, ledger: Ledger)
    requires IsSha(sha)
  {
    forall name :: name in ledger ==> exists job :: Made(sha, content, job, name, ledger[name].spec)
  }

  /** Every ledger the protocol can reach from faithful loads has this provenance. */
  lemma ReachableProvenance(sha: Sha, content: string -> Content, events: seq<Event>)
    requires IsSha(sha)
    requires forall job :: job in Run(sha, EMPTY, events).begun ==> Faithful(content, job.loaded)
    ensures Provenance(sha, content, Run(sha, EMPTY, events).store.ledger)
  {
    var s := Run(sha, EMPTY, events);
    forall name | name in s.store.ledger ensures exists job :: Made(sha, content, job, name, s.store.ledger[name].spec) {
      ReachableLedger(sha, events, name);
      var job :| job in s.begun && NameOf(sha, job) == name && s.store.ledger[name].spec == SpecOf(job);
      assert Made(sha, content, job, name, s.store.ledger[name].spec);
    }
  }

  lemma EnsuredKeepsProvenance(sha: Sha, content: string -> Content, store: Store, job: Job, faults: Faults, now: int)
    requires IsSha(sha) && Provenance(sha, content, store.ledger) && Faithful(content, job.loaded)
    ensures Provenance(sha, content, Ensured(sha, store, job, faults, now).ledger)
  {
    var after := Ensured(sha, store, job, faults, now).ledger;
    forall name | name in after ensures exists job :: Made(sha, content, job, name, after[name].spec) {
      if name in store.ledger {
        var maker :| Made(sha, content, maker, name, store.ledger[name].spec);
        assert Made(sha, content, maker, name, after[name].spec);
      } else {
        assert Made(sha, content, job, name, after[name].spec);
      }
    }
  }

  lemma SameContentSameName(sha: Sha, a: Job, b: Job)
    requires IsSha(sha) && a.pacto == b.pacto && ContentOf(a.loaded) == ContentOf(b.loaded)
    ensures NameOf(sha, a) == NameOf(sha, b)
  {
  }

  /** A revision of the Pacto with the digest of a load carries that load's name. */
  lemma EqualDigestEqualName(sha: Sha, content: string -> Content, ledger: Ledger, name: string, job: Job)
    requires IsSha(sha) && Provenance(sha, content, ledger) && name in ledger
    requires Faithful(content, job.loaded) && job.loaded.resolvedDigest != ""
    requires ledger[name].spec.pactoRef == job.pacto && ledger[name].spec.source.digest == job.loaded.resolvedDigest
    ensures NameOf(sha, job) == name
  {
    var maker :| Made(sha, content, maker, name, ledger[name].spec);
    SameContentSameName(sha, maker, job);
  }

  /** Exactly when one error-free turn that does not panic leaves the tag's current content without its revision: it had none,
      and the revision that came first has no digest. */
  lemma TagCoverage(sha: Sha, content: string -> Content, store: Store, repo: Repo, tag: string, m: Moment)
    requires IsSha(sha) && Provenance(sha, content, store.ledger) && Chooses(m)
    requires m.lists && LoadTag(repo, tag, m).Some? && Faithful(content, LoadTag(repo, tag, m).value)
    requires !m.faults.get && !m.faults.create && !Panics(store.ledger, repo, tag, m)
    ensures var name := NameOf(sha, JobFor(repo, LoadTag(repo, tag, m).value));
            name in SyncTag(sha, store, repo, tag, m).ledger <==>
            name in store.ledger || StoredDigest(store.ledger, repo, tag, m) != Some("")
  {
    var names := Matching(store.ledger, repo, tag);
    assert names != {} ==> m.first(names) in names;
    if names != {} && StoredDigest(store.ledger, repo, tag, m) == Some(LoadTag(repo, tag, m).value.resolvedDigest)
       && LoadTag(repo, tag, m).value.resolvedDigest != "" {
      EqualDigestEqualName(sha, content, store.ledger, m.first(names), JobFor(repo, LoadTag(repo, tag, m).value));
    }
  }

  /** Digests as registries give them are far longer than the twelve characters that are shown. */
  predicate Long(digest: string) {
    |digest| >= 12
  }

  ghost predicate LongDigests(ledger: Ledger, repo: Repo) {
    forall name :: name in ledger && ledger[name].spec.pactoRef == repo.pacto ==> Long(ledger[name].spec.source.digest)
  }

  /** Nothing fails at this tag. */
  ghost predicate Clean(content: string -> Content, repo: Repo, tag: string, m: Moment) {
    && Chooses(m) && m.lists
    && LoadTag(repo, tag, m).Some? && Faithful(content, LoadTag(repo, tag, m).value)
    && Long(LoadTag(repo, tag, m).value.resolvedDigest)
    && m.faults == Faults(false, false, false)
  }

  ghost predicate AllClean(content: string -> Content, repo: Repo, tags: seq<string>, moments: seq<Moment>)
    requires |tags| == |moments|
  {
    forall i :: 0 <= i < |tags| ==> Clean(content, repo, tags[i], moments[i])
  }

  /** What holds of the ledger between turns. */
  ghost predicate Sound(sha: Sha, content: string -> Content, ledger: Ledger, repo: Repo)
    requires IsSha(sha)
  {
    repo.ociRef != "" && Provenance(sha, content, ledger) && LongDigests(ledger, repo) && AllCoherent(ledger)
  }

  lemma SoundNeverPanics(sha: Sha, content: string -> Content, ledger: Ledger, repo: Repo, tag: string, m: Moment)
    requires IsSha(sha) && Sound(sha, content, ledger, repo) && Chooses(m)
    requires LoadTag(repo, tag, m).Some? ==> Long(LoadTag(repo, tag, m).value.resolvedDigest)
    ensures !Panics(ledger, repo, tag, m)
  {
    var names := Matching(ledger, repo, tag);
    assert names != {} ==> m.first(names) in names;
  }

  lemma EnsuredKeepsLong(sha: Sha, store: Store, repo: Repo, job: Job, faults: Faults, now: int)
    requires IsSha(sha) && LongDigests(store.ledger, repo)
    requires job.ociRef != "" && Long(job.loaded.resolvedDigest)
    ensures LongDigests(Ensured(sha, store, job, faults, now).ledger, repo)
  {
  }

  lemma TurnKeepsSound(sha: Sha, content: string -> Content, store: Store, repo: Repo, tag: string, m: Moment)
    requires IsSha(sha) && Sound(sha, content, store.ledger, repo) && Clean(content, repo, tag, m)
    ensures var s' := SyncTag(sha, store, repo, tag, m); Sound(sha, content, s'.ledger, repo) && Grows(store.ledger, s'.ledger)
  {
    if Reaches(store.ledger, repo, tag, m) {
      var job := JobFor(repo, LoadTag(repo, tag, m).value);
      EnsuredGrows(sha, store, job, m.faults, m.now);
      EnsuredKeepsProvenance(sha, content, store, job, m.faults, m.now);
      EnsuredKeepsLong(sha, store, repo, job, m.faults, m.now);
    }
  }

  /** The registry's answers for these tags are all in the ledger. */
  ghost predicate Covered(sha: Sha, ledger: Ledger, repo: Repo, tags: seq<string>, moments: seq<Moment>)
    requires IsSha(sha) && |tags| == |moments|
  {
    tags != [] ==>
      var n := |tags| - 1;
      Covered(sha, ledger, repo, tags[..n], moments[..n]) && CoveredAt(sha, ledger, repo, tags[n], moments[n])
  }

  predicate CoveredAt(sha: Sha, ledger: Ledger, repo: Repo, tag: string, m: Moment)
    requires IsSha(sha)
  {
    LoadTag(repo, tag, m).Some? ==> NameOf(sha, JobFor(repo, LoadTag(repo, tag, m).value)) in ledger
  }

  lemma {:induction false} CoverageGrows(sha: Sha, before: Ledger, after: Ledger, repo: Repo, tags: seq<string>, moments: seq<Moment>)
    requires IsSha(sha) && |tags| == |moments| && Covered(sha, before, repo, tags, moments) && Grows(before, after)
    ensures Covered(sha, after, repo, tags, moments)
  {
    if tags != [] {
      CoverageGrows(sha, before, after, repo, tags[..|tags| - 1], moments[..|tags| - 1]);
    }
  }

  lemma LastTurn(sha: Sha, store: Store, repo: Repo, tags: seq<string>, moments: seq<Moment>, n: nat)
    requires IsSha(sha) && |tags| == |moments| == n + 1
    ensures var (s, outcome) := SyncTags(sha, store, repo, tags[..n], moments[..n]);
            SyncTags(sha, store, repo, tags, moments) ==
            if outcome.Panicked? || Panics(s.ledger, repo, tags[n], moments[n]) then (s, Panicked)
            else (SyncTag(sha, s, repo, tags[n], moments[n]), Completed)
  {
    OneMore(sha, store, repo, tags, moments, n);
    assert tags[..n + 1] == tags && moments[..n + 1] == moments;
  }

  /** After an error-free sync every listed tag's current content has its revision, whichever revision List
      puts first, and what was synced before is still there. */
  lemma {:induction false} SyncCovers(
      sha: Sha, content: string -> Content, store: Store, repo: Repo, tags: seq<string>, moments: seq<Moment>)
    requires IsSha(sha) && |tags| == |moments| && Sound(sha, content, store.ledger, repo)
    requires AllClean(content, repo, tags, moments)
    ensures var (s', outcome) := SyncTags(sha, store, repo, tags, moments);
            && outcome == Completed && Sound(sha, content, s'.ledger, repo)
            && Grows(store.ledger, s'.ledger) && Covered(sha, s'.ledger, repo, tags, moments)
  {
    if tags != [] {
      var n := |tags| - 1;
      var s := SyncTags(sha, store, repo, tags[..n], moments[..n]).0;
      SyncCovers(sha, content, store, repo, tags[..n], moments[..n]);
      assert Clean(content, repo, tags[n], moments[n]);
      CleanTurn(sha, content, s, repo, tags[n], moments[n]);
      LastTurn(sha, store, repo, tags, moments, n);
      var s' := SyncTag(sha, s, repo, tags[n], moments[n]);
      GrowsTransitive(store.ledger, s.ledger, s'.ledger);
      CoverageGrows(sha, s.ledger, s'.ledger, repo, tags[..n], moments[..n]);
    }
  }

  lemma CleanTurn(sha: Sha, content: string -> Content, s: Store, repo: Repo, tag: string, m: Moment)
    requires IsSha(sha) && Sound(sha, content, s.ledger, repo) && Clean(content, repo, tag, m)
    ensures !Panics(s.ledger, repo, tag, m)
    ensures var s' := SyncTag(sha, s, repo, tag, m);
            && Sound(sha, content, s'.ledger, repo) && Grows(s.ledger, s'.ledger)
            && CoveredAt(sha, s'.ledger, repo, tag, m)
  {
    SoundNeverPanics(sha, content, s.ledger, repo, tag, m);
    TurnKeepsSound(sha, content, s, repo, tag, m);
    TagCoverage(sha, content, s, repo, tag, m);
    var names := Matching(s.ledger, repo, tag);
    assert names != {} ==> m.first(names) in names;
  }

  // ----- the content of what is covered -----

  /** No two calls in play for different contents compute the same name. */
  ghost predicate NamesTellContents(sha: Sha, jobs: set<Job>)
    requires IsSha(sha)
  {
    forall a, b :: a in jobs && b in jobs && NameOf(sha, a) == NameOf(sha, b) ==> ContentOf(a.loaded) == ContentOf(b.loaded)
  }

  ghost predicate AllAccounted(sha: Sha, jobs: set<Job>, ledger: Ledger)
    requires IsSha(sha)
  {
    forall name :: name in ledger ==> Accounted(sha, jobs, name, ledger[name])
  }

  lemma EnsuredAccounted(sha: Sha, jobs: set<Job>, store: Store, job: Job, faults: Faults, now: int)
    requires IsSha(sha) && AllAccounted(sha, jobs, store.ledger) && job in jobs
    ensures AllAccounted(sha, jobs, Ensured(sha, store, job, faults, now).ledger)
  {
    var after := Ensured(sha, store, job, faults, now).ledger;
    forall name | name in after ensures Accounted(sha, jobs, name, after[name]) {
      if name in store.ledger {
        var maker :| maker in jobs && NameOf(sha, maker) == name && store.ledger[name].spec == SpecOf(maker);
        assert after[name].spec == SpecOf(maker);
      } else {
        assert after[name].spec == SpecOf(job);
      }
      if name == NameOf(sha, job) {
        assert Stamps(sha, jobs, name, sha(job.loaded.bytes));
      }
    }
  }

  lemma {:induction false} SyncAccounted(sha: Sha, jobs: set<Job>, store: Store, repo: Repo, tags: seq<string>, moments: seq<Moment>)
    requires IsSha(sha) && |tags| == |moments| && AllAccounted(sha, jobs, store.ledger)
    requires forall i :: 0 <= i < |tags| && LoadTag(repo, tags[i], moments[i]).Some? ==>
               JobFor(repo, LoadTag(repo, tags[i], moments[i]).value) in jobs
    ensures AllAccounted(sha, jobs, SyncTags(sha, store, repo, tags, moments).0.ledger)
  {
    if tags != [] {
      var n := |tags| - 1;
      SyncAccounted(sha, jobs, store, repo, tags[..n], moments[..n]);
      LastTurn(sha, store, repo, tags, moments, n);
      var s := SyncTags(sha, store, repo, tags[..n], moments[..n]).0;
      if Reaches(s.ledger, repo, tags[n], moments[n]) {
        EnsuredAccounted(sha, jobs, s, JobFor(repo, LoadTag(repo, tags[n], moments[n]).value), moments[n].faults, moments[n].now);
      }
    }
  }

  /** When names tell the contents in play apart, the revision a sync leaves under a tag's name is of the tag's
      content: its specification says so, and so does its hash once it is set. */
  lemma CoveredContent(sha: Sha, content: string -> Content, jobs: set<Job>, store: Store, repo: Repo,
                       tags: seq<string>, moments: seq<Moment>, i: nat)
    requires IsSha(sha) && |tags| == |moments| && i < |tags| && Sound(sha, content, store.ledger, repo)
    requires AllClean(content, repo, tags, moments)
    requires AllAccounted(sha, jobs, store.ledger) && NamesTellContents(sha, jobs)
    requires forall k :: 0 <= k < |tags| && LoadTag(repo, tags[k], moments[k]).Some? ==>
               JobFor(repo, LoadTag(repo, tags[k], moments[k]).value) in jobs
    ensures LoadTag(repo, tags[i], moments[i]).Some?
    ensures var job := JobFor(repo, LoadTag(repo, tags[i], moments[i]).value);
            var name, ledger := NameOf(sha, job), SyncTags(sha, store, repo, tags, moments).0.ledger;
            && name in ledger
            && ledger[name].spec.version == Version(job) && ledger[name].spec.serviceName == job.loaded.serviceName
            && ledger[name].status.contractHash in {"", sha(job.loaded.bytes)}
  {
    assert Clean(content, repo, tags[i], moments[i]);
    var job := JobFor(repo, LoadTag(repo, tags[i], moments[i]).value);
    SyncCovers(sha, content, store, repo, tags, moments);
    SyncAccounted(sha, jobs, store, repo, tags, moments);
    CoveredMeans(sha, SyncTags(sha, store, repo, tags, moments).0.ledger, repo, tags, moments, i);
    AccountedContent(sha, jobs, SyncTags(sha, store, repo, tags, moments).0.ledger, job);
  }

  lemma AccountedContent(sha: Sha, jobs: set<Job>, ledger: Ledger, job: Job)
    requires IsSha(sha) && AllAccounted(sha, jobs, ledger) && NamesTellContents(sha, jobs)
    requires job in jobs && NameOf(sha, job) in ledger
    ensures var r := ledger[NameOf(sha, job)];
            && r.spec.version == Version(job) && r.spec.serviceName == job.loaded.serviceName
            && r.status.contractHash in {"", sha(job.loaded.bytes)}
  {
    var name := NameOf(sha, job);
    assert Accounted(sha, jobs, name, ledger[name]);
  }

  /** A registry that gives no digest for an overwritten tag makes the sync panic. */
  lemma MissingDigestPanics(ledger: Ledger, repo: Repo, tag: string, m: Moment)
    requires m.lists && LoadTag(repo, tag, m).Some? && LoadTag(repo, tag, m).value.resolvedDigest == ""
    requires StoredDigest(ledger, repo, tag, m).Some? && StoredDigest(ledger, repo, tag, m).value != ""
    ensures Panics(ledger, repo, tag, m)
  {
  }

  // ----- syncing twice -----

  /** A second turn stamps a revision an earlier failure left blank. */
  predicate Restamps(sha: Sha, ledger: Ledger, repo: Repo, tag: string, m: Moment)
    requires IsSha(sha)
  {
    && Reaches(ledger, repo, tag, m) && !m.faults.get && !m.faults.status
    && var name := NameOf(sha, JobFor(repo, LoadTag(repo, tag, m).value));
       name in ledger && NeedsStamp(ledger[name].status)
  }

  predicate SameSpecs(a: Ledger, b: Ledger) {
    a.Keys == b.Keys && forall name :: name in a ==> b[name].spec == a[name].spec
  }

  /** Specifications alone decide what a turn does. */
  lemma SameSpecsSameTurn(a: Ledger, b: Ledger, repo: Repo, tag: string, m: Moment)
    requires SameSpecs(a, b)
    ensures Matching(a, repo, tag) == Matching(b, repo, tag)
    ensures StoredDigest(a, repo, tag, m) == StoredDigest(b, repo, tag, m)
    ensures Reaches(a, repo, tag, m) <==> Reaches(b, repo, tag, m)
    ensures Panics(a, repo, tag, m) <==> Panics(b, repo, tag, m)
  {
  }

  lemma CoveredTurn(sha: Sha, s: Store, repo: Repo, tag: string, m: Moment)
    requires IsSha(sha)
    requires CoveredAt(sha, s.ledger, repo, tag, m)
    ensures var s' := SyncTag(sha, s, repo, tag, m);
            && SameSpecs(s.ledger, s'.ledger) && s.nextVersion <= s'.nextVersion
            && (if Restamps(sha, s.ledger, repo, tag, m) then s.nextVersion < s'.nextVersion else s' == s)
  {
  }

  /** No turn meets a blank revision. */
  predicate NothingToStamp(sha: Sha, ledger: Ledger, repo: Repo, tags: seq<string>, moments: seq<Moment>)
    requires IsSha(sha) && |tags| == |moments|
  {
    tags != [] ==>
      var n := |tags| - 1;
      NothingToStamp(sha, ledger, repo, tags[..n], moments[..n]) && !Restamps(sha, ledger, repo, tags[n], moments[n])
  }

  /** `s'` is `s` with at most some revisions stamped: none exactly when `untouched`. */
  predicate Restamped(s: Store, s': Store, untouched: bool) {
    && SameSpecs(s.ledger, s'.ledger)
    && (if untouched then s' == s else s.nextVersion < s'.nextVersion)
  }

  lemma RestampedFurther(sha: Sha, s: Store, before: Store, repo: Repo, tag: string, m: Moment, untouched: bool)
    requires IsSha(sha) && Restamped(s, before, untouched)
    requires CoveredAt(sha, s.ledger, repo, tag, m) && !Panics(s.ledger, repo, tag, m)
    ensures !Panics(before.ledger, repo, tag, m)
    ensures Restamped(s, SyncTag(sha, before, repo, tag, m), untouched && !Restamps(sha, s.ledger, repo, tag, m))
  {
    SameSpecsSameTurn(s.ledger, before.ledger, repo, tag, m);
    CoveredTurn(sha, before, repo, tag, m);
  }

  /** A sync of a covered ledger changes no name and no specification, and changes nothing at all exactly
      when no turn meets a blank revision. */
  lemma {:induction false} SyncOfCovered(sha: Sha, s: Store, repo: Repo, tags: seq<string>, moments: seq<Moment>)
    requires IsSha(sha) && |tags| == |moments|
    requires Covered(sha, s.ledger, repo, tags, moments)
    requires forall i :: 0 <= i < |tags| ==> !Panics(s.ledger, repo, tags[i], moments[i])
    ensures var (s', outcome) := SyncTags(sha, s, repo, tags, moments);
            outcome == Completed && Restamped(s, s', NothingToStamp(sha, s.ledger, repo, tags, moments))
  {
    if tags != [] {
      var n := |tags| - 1;
      assert forall i :: 0 <= i < n ==> tags[..n][i] == tags[i] && moments[..n][i] == moments[i];
      SyncOfCovered(sha, s, repo, tags[..n], moments[..n]);
      var before := SyncTags(sha, s, repo, tags[..n], moments[..n]).0;
      var untouched := NothingToStamp(sha, s.ledger, repo, tags[..n], moments[..n]);
      RestampedFurther(sha, s, before, repo, tags[n], moments[n], untouched);
      LastTurn(sha, s, repo, tags, moments, n);
    }
  }

  /** With the registry unchanged and nothing failing the first time, a second sync, in any List order and
      with any failures, of loads too, adds nothing; and it changes nothing exactly when it meets no blank revision. */
  lemma SyncTwice(sha: Sha, content: string -> Content, store: Store, repo: Repo, tags: seq<string>,
                  first: seq<Moment>, second: seq<Moment>)
    requires IsSha(sha) && |tags| == |first| == |second| && Sound(sha, content, store.ledger, repo)
    requires AllClean(content, repo, tags, first)
    requires forall i :: 0 <= i < |tags| ==>
               Chooses(second[i]) && LoadTag(repo, tags[i], second[i]) in {None, LoadTag(repo, tags[i], first[i])}
    ensures var once := SyncTags(sha, store, repo, tags, first).0;
            var (twice, outcome) := SyncTags(sha, once, repo, tags, second);
            && outcome == Completed && SameSpecs(once.ledger, twice.ledger)
            && (twice == once <==> NothingToStamp(sha, once.ledger, repo, tags, second))
  {
    SyncCovers(sha, content, store, repo, tags, first);
    var once := SyncTags(sha, store, repo, tags, first).0;
    forall i | 0 <= i < |tags| ensures !Panics(once.ledger, repo, tags[i], second[i]) {
      assert Clean(content, repo, tags[i], first[i]);
      SoundNeverPanics(sha, content, once.ledger, repo, tags[i], second[i]);
    }
    CoveredAgain(sha, once.ledger, repo, tags, first, second);
    SyncOfCovered(sha, once, repo, tags, second);
  }

  lemma {:induction false} CoveredAgain(sha: Sha, ledger: Ledger, repo: Repo, tags: seq<string>, first: seq<Moment>, second: seq<Moment>)
    requires IsSha(sha) && |tags| == |first| == |second| && Covered(sha, ledger, repo, tags, first)
    requires forall i :: 0 <= i < |tags| ==> LoadTag(repo, tags[i], second[i]) in {None, LoadTag(repo, tags[i], first[i])}
    ensures Covered(sha, ledger, repo, tags, second)
  {
    if tags != [] {
      CoveredAgain(sha, ledger, repo, tags[..|tags| - 1], first[..|tags| - 1], second[..|tags| - 1]);
    }
  }

  /** What a covered sequence of tags means for each of them. */
  lemma {:induction false} CoveredMeans(sha: Sha, ledger: Ledger, repo: Repo, tags: seq<string>, moments: seq<Moment>, i: nat)
    requires IsSha(sha) && |tags| == |moments| && i < |tags| && Covered(sha, ledger, repo, tags, moments)
    ensures CoveredAt(sha, ledger, repo, tags[i], moments[i])
  {
    if i < |tags| - 1 {
      CoveredMeans(sha, ledger, repo, tags[..|tags| - 1], moments[..|tags| - 1], i);
    }
  }

  ghost predicate AllStamped(ledger: Ledger) {
    forall name :: name in ledger ==> !NeedsStamp(ledger[name].status)
  }

  lemma CleanTurnStamps(sha: Sha, content: string -> Content, s: Store, repo: Repo, tag: string, m: Moment)
    requires IsSha(sha) && Clean(content, repo, tag, m) && AllStamped(s.ledger)
    ensures AllStamped(SyncTag(sha, s, repo, tag, m).ledger)
  {
  }

  lemma {:induction false} CleanSyncStamps(
      sha: Sha, content: string -> Content, store: Store, repo: Repo, tags: seq<string>, moments: seq<Moment>)
    requires IsSha(sha) && |tags| == |moments| && AllClean(content, repo, tags, moments) && AllStamped(store.ledger)
    ensures AllStamped(SyncTags(sha, store, repo, tags, moments).0.ledger)
  {
    if tags != [] {
      var n := |tags| - 1;
      CleanSyncStamps(sha, content, store, repo, tags[..n], moments[..n]);
      LastTurn(sha, store, repo, tags, moments, n);
      CleanTurnStamps(sha, content, SyncTags(sha, store, repo, tags[..n], moments[..n]).0, repo, tags[n], moments[n]);
    }
  }

  /** So once no revision was left blank, syncing is idempotent. */
  lemma SyncIsIdempotent(sha: Sha, content: string -> Content, store: Store, repo: Repo, tags: seq<string>,
                         first: seq<Moment>, second: seq<Moment>)
    requires IsSha(sha) && |tags| == |first| == |second| && Sound(sha, content, store.ledger, repo)
    requires AllClean(content, repo, tags, first) && AllStamped(store.ledger)
    requires forall i :: 0 <= i < |tags| ==>
               Chooses(second[i]) && LoadTag(repo, tags[i], second[i]) in {None, LoadTag(repo, tags[i], first[i])}
    ensures var once := SyncTags(sha, store, repo, tags, first).0;
            SyncTags(sha, once, repo, tags, second).0 == once
  {
    SyncTwice(sha, content, store, repo, tags, first, second);
    CleanSyncStamps(sha, content, store, repo, tags, first);
    StampedLeavesNothing(sha, SyncTags(sha, store, repo, tags, first).0.ledger, repo, tags, second);
  }

  lemma {:induction false} StampedLeavesNothing(sha: Sha, ledger: Ledger, repo: Repo, tags: seq<string>, moments: seq<Moment>)
    requires IsSha(sha) && |tags| == |moments| && AllStamped(ledger)
    ensures NothingToStamp(sha, ledger, repo, tags, moments)
  {
    if tags != [] {
      StampedLeavesNothing(sha, ledger, repo, tags[..|tags| - 1], moments[..|tags| - 1]);
    }
  }

  /** A List that puts one revision first whenever it is among those found. */
  ghost function Preferring(name: string): set<string> -> string {
    (names: set<string>) => if name in names || names == {} then name else var other :| other in names; other
  }

  /** Otherwise List order shows. Of a tag's two revisions let the current one have been left blank: with it
      first a turn does nothing, with the older one first the same turn stamps it. */
  lemma ListOrderCanShow(sha: Sha, repo: Repo, current: Loaded, older: Loaded, load: string -> Option<Loaded>, now: int)
    requires IsSha(sha) && repo.ociRef != "" && current.version == older.version && current.version != ""
    requires Long(older.resolvedDigest) && Long(current.resolvedDigest) && older.resolvedDigest != current.resolvedDigest
    requires NameOf(sha, JobFor(repo, current)) != NameOf(sha, JobFor(repo, older))
    requires load(OciRef.TaggedRef(repo.ociRef, current.version)) == Some(current)
    ensures var job, job' := JobFor(repo, current), JobFor(repo, older);
            var name, name' := NameOf(sha, job), NameOf(sha, job');
            var m := Moment(true, Preferring(name), load, Faults(false, false, false), now);
            var m' := m.(first := Preferring(name'));
            var stamped := RevisionStatus(true, sha(older.bytes), Some(now));
            var s := Store(map[name := Revision(SpecOf(job), BLANK, 0), name' := Revision(SpecOf(job'), stamped, 1)], 2);
            && Chooses(m) && Chooses(m')
            && SyncTag(sha, s, repo, current.version, m) == s && SyncTag(sha, s, repo, current.version, m') != s
  {
    var job, job' := JobFor(repo, current), JobFor(repo, older);
    var name, name' := NameOf(sha, job), NameOf(sha, job');
    var m := Moment(true, Preferring(name), load, Faults(false, false, false), now);
    var m' := m.(first := Preferring(name'));
    var stamped := RevisionStatus(true, sha(older.bytes), Some(now));
    var s := Store(map[name := Revision(SpecOf(job), BLANK, 0), name' := Revision(SpecOf(job'), stamped, 1)], 2);
    assert Matching(s.ledger, repo, current.version) == {name, name'};
    CoveredTurn(sha, s, repo, current.version, m);
    CoveredTurn(sha, s, repo, current.version, m');
  }
}
