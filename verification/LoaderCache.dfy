/** The loader's two caches with a time to live (internal/loader/contract.go). */
module LoaderCache {
  import opened Wrappers
  import OciRef

  /** Clock readings are nanoseconds. */
  const SECOND := 1_000_000_000
  const CACHE_TTL := 30 * SECOND
  const TAG_CACHE_TTL := 300 * SECOND
  const MAX_ENTRIES := 100

  /** A stored result, error results included. */
  datatype Entry<+R> = Entry(result: R, expiresAt: int)

  type Cache<+R> = map<string, Entry<R>>

  /** What a check under the read lock serves: an entry strictly before its expiry. */
  function Lookup<R>(cache: Cache<R>, key: string, now: int): Option<R> {
    if key in cache && now < cache[key].expiresAt then Some(cache[key].result) else None
  }

  function Evict<R>(cache: Cache<R>, now: int): Cache<R> {
    map key | key in cache && now <= cache[key].expiresAt :: cache[key]
  }

  /** What the write-locked section leaves: the new entry, and expired ones dropped from a large cache. */
  function Put<R>(cache: Cache<R>, key: string, result: R, ttl: int, storedAt: int, evictedAt: int): Cache<R> {
    var full := cache[key := Entry(result, storedAt + ttl)];
    if |full| > MAX_ENTRIES then Evict(full, evictedAt) else full
  }

  /** The inline cleanup loop over a cache. */
  method EvictExpired<R>(cache: Cache<R>, now: int) returns (kept: Cache<R>)
    ensures kept == Evict(cache, now)
  {
    kept := cache;
    var keys := cache.Keys;
    while keys != {}
      invariant keys <= cache.Keys
      invariant kept == map key | key in cache && (key in keys || now <= cache[key].expiresAt) :: cache[key]
    {
      var key :| key in keys;
      if now > kept[key].expiresAt {
        kept := kept - {key};
      }
      keys := keys - {key};
    }
  }

  /** The loader: `L` and `T` are the results, errors included, of a contract load and of a tag listing. */
  class Loader<L, T> {
    var cache: Cache<L>
    var tagCache: Cache<T>
    const hash: string -> string

    constructor (hash: string -> string)
      ensures this.hash == hash && cache == map[] && tagCache == map[]
    {
      this.hash := hash;
      cache, tagCache := map[], map[];
    }

    /** Loader.Load with its three clock readings; `fetch` is the uncached load as of this call. */
    method Load(ociRef: string, inline: string, authOverride: bool, fetch: OciRef.Source -> L,
                checkedAt: int, storedAt: int, evictedAt: int) returns (result: L)
      modifies this`cache
      ensures authOverride ==> result == fetch(OciRef.UncachedSource(ociRef, inline)) && cache == old(cache)
      ensures !authOverride ==>
                var key := OciRef.CacheKey(hash, ociRef, inline);
                match Lookup(old(cache), key, checkedAt)
                case Some(hit) => result == hit && cache == old(cache)
                case None =>
                  && result == fetch(OciRef.UncachedSource(ociRef, inline))
                  && cache == Put(old(cache), key, result, CACHE_TTL, storedAt, evictedAt)
                  && (|cache| <= MAX_ENTRIES || forall k :: k in cache ==> evictedAt <= cache[k].expiresAt)
                  && (|old(cache)| < MAX_ENTRIES ==> cache == old(cache)[key := Entry(result, storedAt + CACHE_TTL)])
    {
      if authOverride {
        return fetch(OciRef.UncachedSource(ociRef, inline));
      }
      var key := OciRef.CacheKey(hash, ociRef, inline);
      if key in cache && checkedAt < cache[key].expiresAt {
        return cache[key].result;
      }
      result := fetch(OciRef.UncachedSource(ociRef, inline));
      cache := cache[key := Entry(result, storedAt + CACHE_TTL)];
      if |cache| > MAX_ENTRIES {
        cache := EvictExpired(cache, evictedAt);
      }
    }

    /** Loader.ListTags; an empty reference has no tags and touches nothing. */
    method ListTags(ociRef: string, authOverride: bool, noTags: T, list: string -> T,
                    checkedAt: int, storedAt: int, evictedAt: int) returns (result: T)
      modifies this`tagCache
      ensures ociRef == "" ==> result == noTags && tagCache == old(tagCache)
      ensures ociRef != "" && authOverride ==>
                result == list(OciRef.ListTagsQuery(OciRef.NormalizeOCIRef(ociRef))) && tagCache == old(tagCache)
      ensures ociRef != "" && !authOverride ==>
                var ref := OciRef.NormalizeOCIRef(ociRef);
                match Lookup(old(tagCache), OciRef.TagCacheKey(ref), checkedAt)
                case Some(hit) => result == hit && tagCache == old(tagCache)
                case None =>
                  && result == list(OciRef.ListTagsQuery(ref))
                  && tagCache == Put(old(tagCache), OciRef.TagCacheKey(ref), result, TAG_CACHE_TTL, storedAt, evictedAt)
                  && (|tagCache| <= MAX_ENTRIES || forall k :: k in tagCache ==> evictedAt <= tagCache[k].expiresAt)
                  && (|old(tagCache)| < MAX_ENTRIES ==>
                        tagCache == old(tagCache)[OciRef.TagCacheKey(ref) := Entry(result, storedAt + TAG_CACHE_TTL)])
    {
      if ociRef == "" {
        return noTags;
      }
      var ref := OciRef.NormalizeOCIRef(ociRef);
      if authOverride {
        return list(OciRef.ListTagsQuery(ref));
      }
      var key := OciRef.TagCacheKey(ref);
      if key in tagCache && checkedAt < tagCache[key].expiresAt {
        return tagCache[key].result;
      }
      result := list(OciRef.ListTagsQuery(ref));
      tagCache := tagCache[key := Entry(result, storedAt + TAG_CACHE_TTL)];
      if |tagCache| > MAX_ENTRIES {
        tagCache := EvictExpired(tagCache, evictedAt);
      }
    }
  }

  // ----- concurrent callers -----

  /** Several callers share one cache. Between a caller's failed check and its store the lock is free, and
      any other caller may run. `A` are the arguments of a call. */
  datatype StoreRecord<+A, +R> = StoreRecord(args: A, result: R, time: int)

  datatype Origin = Cached | Loaded | Direct

  datatype Answer<+A, +R> = Answer(args: A, result: R, time: int, origin: Origin)

  datatype System<A, R> = System(
    cache: Cache<R>, clock: int, loading: map<nat, A>, stores: seq<StoreRecord<A, R>>, answers: seq<Answer<A, R>>)

  datatype Event<A, R> =
    | Tick(elapsed: nat)
    | Check(caller: nat, args: A)                               // read-locked check: answer, or go and load
    | Finish(caller: nat, result: R, evictionDelay: nat)        // the load returned: write-locked store, answer
    | Bypass(args: A, result: R)                                // a call with its own credentials

  datatype Config<!A> = Config(keyOf: A -> string, ttl: nat, evicting: bool)

  function Step<A, R>(c: Config<A>, s: System<A, R>, e: Event<A, R>): System<A, R> {
    match e
    case Tick(elapsed) => s.(clock := s.clock + elapsed)
    case Check(caller, args) =>
      if caller in s.loading then s
      else
        (match Lookup(s.cache, c.keyOf(args), s.clock)
         case Some(hit) => s.(answers := s.answers + [Answer(args, hit, s.clock, Cached)])
         case None => s.(loading := s.loading[caller := args]))
    case Finish(caller, result, delay) =>
      if caller !in s.loading then s
      else
        var args := s.loading[caller];
        var key := c.keyOf(args);
        s.(cache := if c.evicting then Put(s.cache, key, result, c.ttl, s.clock, s.clock + delay)
                    else s.cache[key := Entry(result, s.clock + c.ttl)],
           clock := s.clock + delay,
           loading := s.loading - {caller},
           stores := s.stores + [StoreRecord(args, result, s.clock)],
           answers := s.answers + [Answer(args, result, s.clock + delay, Loaded)])
    case Bypass(args, result) =>
      s.(answers := s.answers + [Answer(args, result, s.clock, Direct)])
  }

  function Run<A, R>(c: Config<A>, s: System<A, R>, events: seq<Event<A, R>>): System<A, R>
    decreases |events|
  {
    if events == [] then s else Run(c, Step(c, s, events[0]), events[1..])
  }

  function Idle<A, R>(clock: int): System<A, R> {
    System(map[], clock, map[], [], [])
  }

  /** Store `i` is the last one under `key` among the first `upTo`. */
  ghost predicate LastStore<A, R>(c: Config<A>, stores: seq<StoreRecord<A, R>>, i: nat, key: string)
    requires i < |stores|
  {
    c.keyOf(stores[i].args) == key && forall j :: i < j < |stores| ==> c.keyOf(stores[j].args) != key
  }

  /** The answer repeats a store under its key that was less than a time to live old, and any newer store
      under that key had not happened yet. */
  ghost predicate Justified<A, R>(c: Config<A>, stores: seq<StoreRecord<A, R>>, a: Answer<A, R>) {
    exists i :: 0 <= i < |stores| && JustifiedBy(c, stores, a, i)
  }

  ghost predicate JustifiedBy<A, R>(c: Config<A>, stores: seq<StoreRecord<A, R>>, a: Answer<A, R>, i: nat)
    requires i < |stores|
  {
    && c.keyOf(stores[i].args) == c.keyOf(a.args)
    && stores[i].result == a.result
    && a.time - c.ttl < stores[i].time <= a.time
    && forall j :: i < j < |stores| && c.keyOf(stores[j].args) == c.keyOf(a.args) ==> a.time <= stores[j].time
  }

  ghost predicate EntryHasStore<A, R>(c: Config<A>, s: System<A, R>, key: string)
    requires key in s.cache
  {
    exists i :: 0 <= i < |s.stores| && LastStore(c, s.stores, i, key)
                && s.cache[key] == Entry(s.stores[i].result, s.stores[i].time + c.ttl)
  }

  ghost predicate Inv<A(!new), R>(c: Config<A>, s: System<A, R>) {
    && (forall i :: 0 <= i < |s.stores| ==> s.stores[i].time <= s.clock)
    && (forall key :: key in s.cache ==> EntryHasStore(c, s, key))
    && (forall i :: 0 <= i < |s.answers| ==> s.answers[i].time <= s.clock)
    && (forall i :: 0 <= i < |s.answers| && s.answers[i].origin.Cached? ==> Justified(c, s.stores, s.answers[i]))
  }

  lemma CheckKeepsInv<A(!new), R>(c: Config<A>, s: System<A, R>, caller: nat, args: A)
    requires Inv(c, s)
    ensures Inv(c, Step(c, s, Check(caller, args)))
  {
    var s' := Step(c, s, Check(caller, args));
    if caller !in s.loading && Lookup(s.cache, c.keyOf(args), s.clock).Some? {
      var key := c.keyOf(args);
      assert EntryHasStore(c, s, key);
      var i :| 0 <= i < |s.stores| && LastStore(c, s.stores, i, key)
               && s.cache[key] == Entry(s.stores[i].result, s.stores[i].time + c.ttl);
      assert JustifiedBy(c, s.stores, s'.answers[|s.answers|], i);
    }
    forall k | k in s'.cache ensures EntryHasStore(c, s', k) {
      assert EntryHasStore(c, s, k);
    }
  }

  lemma FinishKeepsJustified<A(!new), R>(c: Config<A>, s: System<A, R>, added: StoreRecord<A, R>, a: Answer<A, R>)
    requires Justified(c, s.stores, a) && a.time <= added.time
    ensures Justified(c, s.stores + [added], a)
  {
    var i :| 0 <= i < |s.stores| && JustifiedBy(c, s.stores, a, i);
    assert JustifiedBy(c, s.stores + [added], a, i);
  }

  lemma FinishKeepsEntries<A(!new), R>(c: Config<A>, s: System<A, R>, e: Event<A, R>, key: string)
    requires Inv(c, s) && e.Finish? && e.caller in s.loading
    requires key in Step(c, s, e).cache
    ensures EntryHasStore(c, Step(c, s, e), key)
  {
    var s' := Step(c, s, e);
    if key == c.keyOf(s.loading[e.caller]) {
      assert LastStore(c, s'.stores, |s.stores|, key);
    } else {
      assert EntryHasStore(c, s, key);
      var i :| 0 <= i < |s.stores| && LastStore(c, s.stores, i, key)
               && s.cache[key] == Entry(s.stores[i].result, s.stores[i].time + c.ttl);
      assert LastStore(c, s'.stores, i, key);
    }
  }

  lemma FinishKeepsInv<A(!new), R>(c: Config<A>, s: System<A, R>, e: Event<A, R>)
    requires Inv(c, s) && e.Finish?
    ensures Inv(c, Step(c, s, e))
  {
    var s' := Step(c, s, e);
    if e.caller in s.loading {
      forall i | 0 <= i < |s'.answers| && s'.answers[i].origin.Cached?
        ensures Justified(c, s'.stores, s'.answers[i])
      {
        assert s'.answers[i] == s.answers[i];
        FinishKeepsJustified(c, s, s'.stores[|s.stores|], s.answers[i]);
      }
      forall key | key in s'.cache ensures EntryHasStore(c, s', key) {
        FinishKeepsEntries(c, s, e, key);
      }
    }
  }

  lemma StepKeepsInv<A(!new), R>(c: Config<A>, s: System<A, R>, e: Event<A, R>)
    requires Inv(c, s)
    ensures Inv(c, Step(c, s, e))
  {
    match e
    case Check(caller, args) => CheckKeepsInv(c, s, caller, args);
    case Finish(_, _, _) => FinishKeepsInv(c, s, e);
    case Tick(_) =>
      forall key | key in s.cache ensures EntryHasStore(c, Step(c, s, e), key) {
        assert EntryHasStore(c, s, key);
      }
    case Bypass(_, _) =>
      forall key | key in s.cache ensures EntryHasStore(c, Step(c, s, e), key) {
        assert EntryHasStore(c, s, key);
      }
  }

  lemma {:induction false} RunKeepsInv<A(!new), R>(c: Config<A>, s: System<A, R>, events: seq<Event<A, R>>)
    requires Inv(c, s)
    ensures Inv(c, Run(c, s, events))
    decreases |events|
  {
    if events != [] {
      StepKeepsInv(c, s, events[0]);
      RunKeepsInv(c, Step(c, s, events[0]), events[1..]);
    }
  }

  /** Under every interleaving, an answer served from the cache at time t repeats the result of an uncached
      load under the same key, stored after t minus the time to live, and the newest such. */
  lemma CachedAnswersAreFresh<A(!new), R>(c: Config<A>, clock: int, events: seq<Event<A, R>>, a: Answer<A, R>)
    requires a in Run(c, Idle<A, R>(clock), events).answers && a.origin.Cached?
    ensures Justified(c, Run(c, Idle<A, R>(clock), events).stores, a)
  {
    RunKeepsInv(c, Idle<A, R>(clock), events);
  }

  // ----- the converse: what is fresh is served -----

  /** The last store under its key is in the cache until it expires. */
  ghost predicate StillCached<A, R>(c: Config<A>, s: System<A, R>, i: nat)
    requires i < |s.stores|
  {
    var key, store := c.keyOf(s.stores[i].args), s.stores[i];
    LastStore(c, s.stores, i, key) && s.clock < store.time + c.ttl ==>
      key in s.cache && s.cache[key] == Entry(store.result, store.time + c.ttl)
  }

  ghost predicate AllStillCached<A, R>(c: Config<A>, s: System<A, R>) {
    forall i :: 0 <= i < |s.stores| ==> StillCached(c, s, i)
  }

  lemma FinishKeepsCached<A, R>(c: Config<A>, s: System<A, R>, e: Event<A, R>, i: nat)
    requires AllStillCached(c, s) && e.Finish? && e.caller in s.loading && i < |Step(c, s, e).stores|
    ensures StillCached(c, Step(c, s, e), i)
  {
    var s' := Step(c, s, e);
    if i < |s.stores| {
      assert StillCached(c, s, i);
      var key := c.keyOf(s.stores[i].args);
      if LastStore(c, s'.stores, i, key) {
        assert c.keyOf(s'.stores[|s.stores|].args) != key;
        assert forall j :: i < j < |s.stores| ==> s'.stores[j] == s.stores[j];
      }
    }
  }

  lemma StepKeepsCached<A, R>(c: Config<A>, s: System<A, R>, e: Event<A, R>)
    requires AllStillCached(c, s)
    ensures AllStillCached(c, Step(c, s, e))
  {
    forall i | 0 <= i < |Step(c, s, e).stores| ensures StillCached(c, Step(c, s, e), i) {
      if e.Finish? && e.caller in s.loading {
        FinishKeepsCached(c, s, e, i);
      } else {
        assert StillCached(c, s, i);
      }
    }
  }

  lemma {:induction false} RunKeepsCached<A, R>(c: Config<A>, s: System<A, R>, events: seq<Event<A, R>>)
    requires AllStillCached(c, s)
    ensures AllStillCached(c, Run(c, s, events))
    decreases |events|
  {
    if events != [] {
      StepKeepsCached(c, s, events[0]);
      RunKeepsCached(c, Step(c, s, events[0]), events[1..]);
    }
  }

  /** In every reachable state a check is answered at once exactly while the last store under its key is younger
      than the time to live, and then with the result of that store; otherwise the caller goes and loads. */
  lemma FreshIsServed<A(!new), R>(c: Config<A>, clock: int, events: seq<Event<A, R>>, caller: nat, args: A, i: nat)
    requires var s := Run(c, Idle<A, R>(clock), events);
             caller !in s.loading && i < |s.stores| && LastStore(c, s.stores, i, c.keyOf(args))
    ensures var s := Run(c, Idle<A, R>(clock), events);
            Step(c, s, Check(caller, args)) ==
            if s.clock < s.stores[i].time + c.ttl then s.(answers := s.answers + [Answer(args, s.stores[i].result, s.clock, Cached)])
            else s.(loading := s.loading[caller := args])
  {
    var s, key := Run(c, Idle<A, R>(clock), events), c.keyOf(args);
    RunKeepsInv(c, Idle<A, R>(clock), events);
    RunKeepsCached(c, Idle<A, R>(clock), events);
    assert StillCached(c, s, i);
    if key in s.cache {
      assert EntryHasStore(c, s, key);
      var k :| 0 <= k < |s.stores| && LastStore(c, s.stores, k, key)
               && s.cache[key] == Entry(s.stores[k].result, s.stores[k].time + c.ttl);
      assert !(i < k) && !(k < i);
    }
  }

  /** What was never stored is loaded. */
  lemma UnstoredIsLoaded<A(!new), R>(c: Config<A>, clock: int, events: seq<Event<A, R>>, caller: nat, args: A)
    requires var s := Run(c, Idle<A, R>(clock), events);
             caller !in s.loading && forall r :: r in s.stores ==> c.keyOf(r.args) != c.keyOf(args)
    ensures var s := Run(c, Idle<A, R>(clock), events);
            Step(c, s, Check(caller, args)) == s.(loading := s.loading[caller := args])
  {
    var s, key := Run(c, Idle<A, R>(clock), events), c.keyOf(args);
    RunKeepsInv(c, Idle<A, R>(clock), events);
    assert forall k :: 0 <= k < |s.stores| ==> s.stores[k] in s.stores;
    assert key in s.cache ==> EntryHasStore(c, s, key);
  }

  lemma RunThree<A, R>(c: Config<A>, s: System<A, R>, e: Event<A, R>, e': Event<A, R>, e'': Event<A, R>)
    ensures Run(c, s, [e, e', e'']) == Step(c, Step(c, Step(c, s, e), e'), e'')
  {
    assert [e, e', e''][1..] == [e', e''] && [e', e''][1..] == [e''];
    assert Run(c, Step(c, Step(c, s, e), e'), [e'']) == Run(c, Step(c, Step(c, Step(c, s, e), e'), e''), []);
  }

  /** An undisturbed call does to the shared cache what Load and ListTags are specified to do, and gives the
      same answer. */
  lemma UndisturbedCall<A, R>(c: Config<A>, s: System<A, R>, caller: nat, args: A, loading: nat, result: R, evicting: nat)
    requires c.evicting && caller !in s.loading
    ensures var s' := Run(c, s, [Check(caller, args), Tick(loading), Finish(caller, result, evicting)]);
            var stored := s.clock + loading;
            match Lookup(s.cache, c.keyOf(args), s.clock)
            case Some(hit) => s'.cache == s.cache && s'.answers == s.answers + [Answer(args, hit, s.clock, Cached)]
            case None =>
              && s'.cache == Put(s.cache, c.keyOf(args), result, c.ttl, stored, stored + evicting)
              && s'.answers == s.answers + [Answer(args, result, stored + evicting, Loaded)]
  {
    RunThree(c, s, Check(caller, args), Tick(loading), Finish(caller, result, evicting));
  }

  // ----- calls with their own credentials -----

  /** The calls that do not bring their own credentials. */
  function SharedCalls<A, R>(events: seq<Event<A, R>>): seq<Event<A, R>> {
    if events == [] then []
    else if events[0].Bypass? then SharedCalls(events[1..])
    else [events[0]] + SharedCalls(events[1..])
  }

  function SharedAnswers<A, R>(answers: seq<Answer<A, R>>): seq<Answer<A, R>> {
    if answers == [] then []
    else
      var rest := SharedAnswers(answers[..|answers| - 1]);
      var last := answers[|answers| - 1];
      if last.origin.Direct? then rest else rest + [last]
  }

  function Shared<A, R>(s: System<A, R>): System<A, R> {
    s.(answers := SharedAnswers(s.answers))
  }

  lemma SharedAnswersAppend<A, R>(answers: seq<Answer<A, R>>, a: Answer<A, R>)
    ensures SharedAnswers(answers + [a]) == if a.origin.Direct? then SharedAnswers(answers) else SharedAnswers(answers) + [a]
  {
    assert (answers + [a])[..|answers|] == answers;
  }

  lemma SharedCheck<A, R>(c: Config<A>, s: System<A, R>, caller: nat, args: A)
    ensures Shared(Step(c, s, Check(caller, args))) == Step(c, Shared(s), Check(caller, args))
  {
    var hit := Lookup(s.cache, c.keyOf(args), s.clock);
    if caller !in s.loading && hit.Some? {
      SharedAnswersAppend(s.answers, Answer(args, hit.value, s.clock, Cached));
    }
  }

  lemma SharedFinish<A, R>(c: Config<A>, s: System<A, R>, caller: nat, result: R, delay: nat)
    ensures Shared(Step(c, s, Finish(caller, result, delay))) == Step(c, Shared(s), Finish(caller, result, delay))
  {
    if caller in s.loading {
      SharedAnswersAppend(s.answers, Answer(s.loading[caller], result, s.clock + delay, Loaded));
    }
  }

  lemma SharedBypass<A, R>(c: Config<A>, s: System<A, R>, args: A, result: R)
    ensures Shared(Step(c, s, Bypass(args, result))) == Shared(s)
  {
    SharedAnswersAppend(s.answers, Answer(args, result, s.clock, Direct));
  }

  lemma SharedStep<A, R>(c: Config<A>, s: System<A, R>, e: Event<A, R>)
    ensures Shared(Step(c, s, e)) == if e.Bypass? then Shared(s) else Step(c, Shared(s), e)
  {
    if e.Check? {
      SharedCheck(c, s, e.caller, e.args);
    } else if e.Finish? {
      SharedFinish(c, s, e.caller, e.result, e.evictionDelay);
    } else if e.Bypass? {
      SharedBypass(c, s, e.args, e.result);
    }
  }

  /** Calls with their own credentials neither read nor write the cache: without them, every other call
      gets the same answer and the system ends in the same state. */
  lemma {:induction false} BypassIsInvisible<A, R>(c: Config<A>, s: System<A, R>, events: seq<Event<A, R>>)
    ensures Shared(Run(c, s, events)) == Run(c, Shared(s), SharedCalls(events))
    decreases |events|
  {
    if events != [] {
      SharedStep(c, s, events[0]);
      BypassIsInvisible(c, Step(c, s, events[0]), events[1..]);
    }
  }

  // ----- eviction -----

  /** The two systems differ only in entries no check can serve any more. */
  ghost predicate SameToCallers<A(!new), R(!new)>(s: System<A, R>, t: System<A, R>) {
    && s.(cache := map[]) == t.(cache := map[])
    && forall key, now :: now >= s.clock ==> Lookup(s.cache, key, now) == Lookup(t.cache, key, now)
  }

  lemma PutSameToCallers<R>(cache: Cache<R>, cache': Cache<R>, key: string, result: R, ttl: nat, clock: int, delay: nat, k: string, now: int)
    requires forall n :: n >= clock ==> Lookup(cache, k, n) == Lookup(cache', k, n)
    requires now >= clock + delay
    ensures Lookup(Put(cache, key, result, ttl, clock, clock + delay), k, now) ==
            Lookup(cache'[key := Entry(result, clock + ttl)], k, now)
  {
    assert Lookup(cache, k, now) == Lookup(cache', k, now);
  }

  lemma FinishSameToCallers<A(!new), R(!new)>(c: Config<A>, s: System<A, R>, t: System<A, R>, e: Event<A, R>)
    requires c.evicting && SameToCallers(s, t) && e.Finish? && e.caller in s.loading
    ensures SameToCallers(Step(c, s, e), Step(c.(evicting := false), t, e))
  {
    var s', t' := Step(c, s, e), Step(c.(evicting := false), t, e);
    forall k, now | now >= s'.clock ensures Lookup(s'.cache, k, now) == Lookup(t'.cache, k, now) {
      PutSameToCallers(s.cache, t.cache, c.keyOf(s.loading[e.caller]), e.result, c.ttl, s.clock, e.evictionDelay, k, now);
    }
  }

  lemma StepSameToCallers<A(!new), R(!new)>(c: Config<A>, s: System<A, R>, t: System<A, R>, e: Event<A, R>)
    requires c.evicting && SameToCallers(s, t)
    ensures SameToCallers(Step(c, s, e), Step(c.(evicting := false), t, e))
  {
    match e
    case Tick(_) =>
    case Check(caller, args) =>
      assert Lookup(s.cache, c.keyOf(args), s.clock) == Lookup(t.cache, c.keyOf(args), s.clock);
    case Finish(caller, _, _) =>
      if caller in s.loading {
        FinishSameToCallers(c, s, t, e);
      }
    case Bypass(_, _) =>
  }

  /** No history of calls can tell the evicting cache from one that keeps every entry. */
  lemma {:induction false} EvictionIsUnobservable<A(!new), R(!new)>(
      c: Config<A>, s: System<A, R>, t: System<A, R>, events: seq<Event<A, R>>)
    requires c.evicting && SameToCallers(s, t)
    ensures Run(c, s, events).answers == Run(c.(evicting := false), t, events).answers
    ensures Run(c, s, events).stores == Run(c.(evicting := false), t, events).stores
    decreases |events|
  {
    if events != [] {
      StepSameToCallers(c, s, t, events[0]);
      EvictionIsUnobservable(c, Step(c, s, events[0]), Step(c.(evicting := false), t, events[0]), events[1..]);
    }
  }

  // ----- the two caches of the loader -----

  datatype LoadArgs = LoadArgs(ociRef: string, inline: string)
  {
    function Source(): OciRef.Source {
      OciRef.UncachedSource(ociRef, inline)
    }

    /** Either the call names no reference at all, or the reference survives normalisation. */
    predicate Proper() {
      inline != "" || ociRef == "" || OciRef.NormalizeOCIRef(ociRef) != ""
    }
  }

  function LoadConfig(hash: string -> string, evicting: bool): Config<LoadArgs> {
    Config((args: LoadArgs) => OciRef.CacheKey(hash, args.ociRef, args.inline), CACHE_TTL, evicting)
  }

  function TagsConfig(evicting: bool): Config<string> {
    Config((ref: string) => OciRef.TagCacheKey(ref), TAG_CACHE_TTL, evicting)
  }

  lemma ProperKeysAgree(hash: string -> string, x: LoadArgs, y: LoadArgs)
    requires hash(x.inline) == hash(y.inline) ==> x.inline == y.inline
    requires x.Proper() && y.Proper()
    requires OciRef.CacheKey(hash, x.ociRef, x.inline) == OciRef.CacheKey(hash, y.ociRef, y.inline)
    ensures x.Source() == y.Source()
  {
    OciRef.CacheKeyAgrees(hash, x.ociRef, x.inline, y.ociRef, y.inline);
    if x.inline == "" {
      var k := OciRef.CacheKey(hash, y.ociRef, y.inline);
      assert k[0] == 'o';
      assert k[4..] == OciRef.NormalizeOCIRef(x.ociRef) == OciRef.NormalizeOCIRef(y.ociRef);
    }
  }

  /** No inline contract loaded so far has the truncated hash of this one and is another. */
  ghost predicate NoCollision<R>(hash: string -> string, stores: seq<StoreRecord<LoadArgs, R>>, inline: string) {
    forall r :: r in stores && hash(r.args.inline) == hash(inline) ==> r.args.inline == inline
  }

  /** Load's cached answers repeat a load of the very same source, less than 30 seconds after it was
      stored, however calls interleave. */
  lemma LoadAnswersComeFromTheirSource<R>(
      hash: string -> string, clock: int, events: seq<Event<LoadArgs, R>>, a: Answer<LoadArgs, R>)
    requires var s := Run(LoadConfig(hash, true), Idle(clock), events);
             && a in s.answers && a.origin.Cached? && a.args.Proper() && NoCollision(hash, s.stores, a.args.inline)
             && forall r :: r in s.stores ==> r.args.Proper()
    ensures exists r :: r in Run(LoadConfig(hash, true), Idle(clock), events).stores
                        && r.args.Source() == a.args.Source() && r.result == a.result
                        && a.time - 30 * SECOND < r.time <= a.time
  {
    var c := LoadConfig(hash, true);
    var stores := Run(c, Idle(clock), events).stores;
    CachedAnswersAreFresh(c, clock, events, a);
    var i :| 0 <= i < |stores| && JustifiedBy(c, stores, a, i);
    assert stores[i] in stores;
    ProperKeysAgree(hash, stores[i].args, a.args);
  }

  /** Loads are served for thirty seconds after the last store under their key, tag lists for five minutes. */
  lemma LoadsAndTagsAreServed<R>(
      hash: string -> string, clock: int, loads: seq<Event<LoadArgs, R>>, lists: seq<Event<string, R>>, caller: nat,
      args: LoadArgs, i: nat, ref: string, j: nat)
    requires var s := Run(LoadConfig(hash, true), Idle(clock), loads);
             caller !in s.loading && i < |s.stores| && s.clock < s.stores[i].time + 30 * SECOND
             && LastStore(LoadConfig(hash, true), s.stores, i, OciRef.CacheKey(hash, args.ociRef, args.inline))
    requires var t := Run(TagsConfig(true), Idle(clock), lists);
             caller !in t.loading && j < |t.stores| && t.clock < t.stores[j].time + 300 * SECOND
             && LastStore(TagsConfig(true), t.stores, j, OciRef.TagCacheKey(ref))
    ensures var s := Run(LoadConfig(hash, true), Idle(clock), loads);
            Step(LoadConfig(hash, true), s, Check(caller, args)).answers ==
            s.answers + [Answer(args, s.stores[i].result, s.clock, Cached)]
    ensures var t := Run(TagsConfig(true), Idle(clock), lists);
            Step(TagsConfig(true), t, Check(caller, ref)).answers ==
            t.answers + [Answer(ref, t.stores[j].result, t.clock, Cached)]
  {
    FreshIsServed(LoadConfig(hash, true), clock, loads, caller, args, i);
    FreshIsServed(TagsConfig(true), clock, lists, caller, ref, j);
  }

  /** ListTags' cached answers repeat a listing of the same repository, less than five minutes old. */
  lemma TagAnswersComeFromTheirRepository<R>(clock: int, events: seq<Event<string, R>>, a: Answer<string, R>)
    requires a in Run(TagsConfig(true), Idle(clock), events).answers && a.origin.Cached?
    ensures exists r :: r in Run(TagsConfig(true), Idle(clock), events).stores
                        && OciRef.ListTagsQuery(r.args) == OciRef.ListTagsQuery(a.args) && r.result == a.result
                        && a.time - 300 * SECOND < r.time <= a.time
  {
    var c := TagsConfig(true);
    var stores := Run(c, Idle(clock), events).stores;
    CachedAnswersAreFresh(c, clock, events, a);
    var i :| 0 <= i < |stores| && JustifiedBy(c, stores, a, i);
    assert stores[i] in stores;
    OciRef.TagCacheKeyAgrees(stores[i].args, a.args);
  }

  /** While a source keeps giving the same result, callers cannot tell the cache from the source. */
  lemma UnchangedSourceIsTransparent<R(!new)>(
      hash: string -> string, clock: int, events: seq<Event<LoadArgs, R>>, a: Answer<LoadArgs, R>, contents: OciRef.Source -> R)
    requires var s := Run(LoadConfig(hash, true), Idle(clock), events);
             && a in s.answers && !a.origin.Direct? && a.args.Proper() && NoCollision(hash, s.stores, a.args.inline)
             && forall r :: r in s.stores ==> r.args.Proper() && r.result == contents(r.args.Source())
    ensures a.result == contents(a.args.Source())
  {
    var c := LoadConfig(hash, true);
    if a.origin.Cached? {
      LoadAnswersComeFromTheirSource(hash, clock, events, a);
    } else {
      RunKeepsLoaded(c, Idle<LoadArgs, R>(clock), events);
    }
  }

  ghost predicate LoadedHasStore<A, R>(s: System<A, R>, a: Answer<A, R>) {
    exists r :: r in s.stores && r.args == a.args && r.result == a.result
  }

  lemma StepKeepsLoaded<A(!new), R(!new)>(c: Config<A>, s: System<A, R>, e: Event<A, R>)
    requires forall a :: a in s.answers && a.origin.Loaded? ==> LoadedHasStore(s, a)
    ensures var s' := Step(c, s, e); forall a :: a in s'.answers && a.origin.Loaded? ==> LoadedHasStore(s', a)
  {
    var s' := Step(c, s, e);
    forall a | a in s'.answers && a.origin.Loaded? ensures LoadedHasStore(s', a) {
      if a in s.answers {
        assert LoadedHasStore(s, a);
        var r :| r in s.stores && r.args == a.args && r.result == a.result;
        assert r in s'.stores;
      } else {
        assert s'.stores[|s.stores|] in s'.stores;
      }
    }
  }

  lemma {:induction false} RunKeepsLoaded<A(!new), R(!new)>(c: Config<A>, s: System<A, R>, events: seq<Event<A, R>>)
    requires forall a :: a in s.answers && a.origin.Loaded? ==> LoadedHasStore(s, a)
    ensures var s' := Run(c, s, events); forall a :: a in s'.answers && a.origin.Loaded? ==> LoadedHasStore(s', a)
    decreases |events|
  {
    if events != [] {
      StepKeepsLoaded(c, s, events[0]);
      RunKeepsLoaded(c, Step(c, s, events[0]), events[1..]);
    }
  }
}
