/** Registry credentials from Kubernetes Secrets, and their merge into one Docker configuration
    (internal/credentials/resolve.go). JSON is the identity on the map of auth entries. */
module Credentials {
  import opened Wrappers
  import opened GoStrings
  import opened Base64
  import ImageRef

  type GoString = seq<byte>

  datatype AuthConfig = AuthConfig(username: GoString, password: GoString, registryToken: GoString)

  /** One entry of `.auths`. */
  datatype AuthEntry = AuthEntry(auth: string, username: GoString, password: GoString)

  datatype DockerConfig = MissingKey | Malformed | Parsed(auths: map<string, AuthEntry>)

  datatype Secret =
    | DockerConfigSecret(config: DockerConfig)
    | OpaqueSecret(data: map<string, GoString>)

  datatype Error = NoKey | MalformedConfig | NoEntries | NoMatch | NoRegistry | NoCredentials | BadBase64 | BadAuthField

  const DOCKER_HUB_HOST := "index.docker.io"

  // ----- registry hosts -----

  function NormalizeRegistryHost(host: string): string {
    var scheme := Index(host, "://");
    var rest := if scheme >= 0 then host[scheme + 3..] else host;
    var slash := IndexByte(rest, '/');
    var name := if slash >= 0 then rest[..slash] else rest;
    if name == "docker.io" then DOCKER_HUB_HOST else name
  }

  lemma NormalizedHasNoSlash(host: string)
    ensures '/' !in NormalizeRegistryHost(host)
  {
    assert forall c :: c in DOCKER_HUB_HOST ==> c != '/';
  }

  lemma NoScheme(host: string)
    requires '/' !in host
    ensures Index(host, "://") < 0
  {
    assert forall k :: 0 <= k <= |host| - 3 ==> host[k..][1] == host[k + 1];
  }

  /** A bare host is canonical, except Docker Hub's short name. */
  lemma BareHost(host: string)
    requires '/' !in host
    ensures NormalizeRegistryHost(host) == if host == "docker.io" then DOCKER_HUB_HOST else host
  {
    NoScheme(host);
  }

  lemma NormalizeHostIdempotent(host: string)
    ensures NormalizeRegistryHost(NormalizeRegistryHost(host)) == NormalizeRegistryHost(host)
  {
    NormalizedHasNoSlash(host);
    BareHost(NormalizeRegistryHost(host));
    assert DOCKER_HUB_HOST[0] == 'i';
  }

  lemma SchemeIndex(scheme: string, rest: string)
    requires '/' !in scheme && ':' !in scheme
    ensures Index(scheme + ("://" + rest), "://") == |scheme|
  {
    var s := scheme + ("://" + rest);
    assert s[|scheme|..] == "://" + rest;
    assert forall k :: 0 <= k < |scheme| ==> s[k..][0] == scheme[k];
  }

  /** Scheme and path are no part of a host: "https://ghcr.io/v2/" is "ghcr.io". */
  lemma NormalizeSpelledHost(scheme: string, host: string, path: string)
    requires '/' !in scheme && ':' !in scheme && '/' !in host
    ensures NormalizeRegistryHost(scheme + ("://" + (host + "/" + path))) == NormalizeRegistryHost(host)
  {
    var rest := host + "/" + path;
    SchemeIndex(scheme, rest);
    assert (scheme + ("://" + rest))[|scheme| + 3..] == rest;
    IndexAfter(host, '/', path);
    BareHost(host);
  }

  lemma NormalizeBareSpelling(scheme: string, host: string)
    requires '/' !in scheme && ':' !in scheme && '/' !in host
    ensures NormalizeRegistryHost(scheme + ("://" + host)) == NormalizeRegistryHost(host)
  {
    SchemeIndex(scheme, host);
    assert (scheme + ("://" + host))[|scheme| + 3..] == host;
    BareHost(host);
  }

  /** The registry host a reference names, Docker Hub when it names none. */
  function RegistryFromRef(ref: string): string {
    var trimmed := TrimPrefix(ref, "oci://");
    var at := IndexByte(trimmed, '@');
    HostOrHub(if at >= 0 then trimmed[..at] else trimmed)
  }

  function HostOrHub(named: string): string {
    var slash := IndexByte(named, '/');
    if slash >= 0 && ImageRef.HostLike(named[..slash]) then named[..slash] else DOCKER_HUB_HOST
  }

  // ----- one secret -----

  function Get(data: map<string, GoString>, key: string): GoString {
    if key in data then data[key] else ""
  }

  function FromOpaque(data: map<string, GoString>): Result<AuthConfig, Error> {
    var token, user, pass := Get(data, "token"), Get(data, "username"), Get(data, "password");
    if token != "" then Success(AuthConfig("", "", token))
    else if user != "" && pass != "" then Success(AuthConfig(user, pass, ""))
    else Failure(NoCredentials)
  }

  /** The secret holds something under the key. */
  predicate Holds(data: map<string, GoString>, key: string) {
    key in data && data[key] != ""
  }

  /** What an opaque secret should come to, with tokens under a given user name or as registry tokens: a token goes
      before everything else and is taken whole; failing that, user name and password, if both are there. */
  ghost predicate TakenFrom(data: map<string, GoString>, asRegistryToken: bool, r: Result<AuthConfig, Error>) {
    if Holds(data, "token") then
      r == Success(if asRegistryToken then AuthConfig("", "", data["token"]) else AuthConfig("_token", data["token"], ""))
    else if Holds(data, "username") && Holds(data, "password") then
      r == Success(AuthConfig(data["username"], data["password"], ""))
    else r == Failure(NoCredentials)
  }

  lemma OpaqueIsTaken(data: map<string, GoString>)
    ensures TakenFrom(data, true, FromOpaque(data))
  {
  }

  function EncodeAuth(auth: AuthConfig): string {
    if auth.registryToken != "" then Encode("_token:" + auth.registryToken)
    else Encode(auth.username + ":" + auth.password)
  }

  function EntryToAuthConfig(entry: AuthEntry): Result<AuthConfig, Error> {
    if entry.username != "" && entry.password != "" then
      Success(AuthConfig(entry.username, entry.password, ""))
    else if entry.auth != "" then
      match Decode(entry.auth)
      case None => Failure(BadBase64)
      case Some(text) =>
        var colon := IndexByte(text, ':');
        if colon <= 0 then Failure(BadAuthField)
        else Success(AuthConfig(text[..colon], text[colon + 1..], ""))
    else Failure(NoCredentials)
  }

  /** What an entry comes to: its explicit user name and password, if it has both, whatever its auth field says;
      failing that the auth field, cut at its first colon. */
  lemma EntryMeans(entry: AuthEntry, user: GoString, pass: GoString)
    ensures entry.username != "" && entry.password != "" ==>
              EntryToAuthConfig(entry) == Success(AuthConfig(entry.username, entry.password, ""))
    ensures (entry.username == "" || entry.password == "") && entry.auth == "" ==> EntryToAuthConfig(entry) == Failure(NoCredentials)
    ensures (entry.username == "" || entry.password == "") && entry.auth != "" ==>
              && (Decode(entry.auth).None? ==> EntryToAuthConfig(entry) == Failure(BadBase64))
              && (Decode(entry.auth) == Some(pass) && ':' !in pass ==> EntryToAuthConfig(entry) == Failure(BadAuthField))
              && (Decode(entry.auth) == Some(":" + pass) ==> EntryToAuthConfig(entry) == Failure(BadAuthField))
              && (Decode(entry.auth) == Some(user + ":" + pass) && user != "" && ':' !in user ==>
                    EntryToAuthConfig(entry) == Success(AuthConfig(user, pass, "")))
  {
    if ':' !in user {
      IndexAfter(user, ':', pass);
    }
    assert (":" + pass)[0] == ':';
  }

  function Resolve(entry: Option<AuthEntry>): Result<AuthConfig, Error> {
    if entry.Some? then EntryToAuthConfig(entry.value) else Failure(NoMatch)
  }

  /** matchRegistry: scans the entries in whatever order the map yields them. */
  method MatchRegistry(auths: map<string, AuthEntry>, registry: string) returns (entry: Option<AuthEntry>)
    ensures IsMatch(auths, registry, entry)
    ensures entry.Some? ==> exists k :: EntryAt(auths, k, registry, entry.value)
    ensures entry.None? ==> forall k :: k in auths ==> NormalizeRegistryHost(k) != NormalizeRegistryHost(registry)
  {
    var host := NormalizeRegistryHost(registry);
    var keys := auths.Keys;
    while keys != {}
      invariant keys <= auths.Keys
      invariant forall k :: k in auths && k !in keys ==> NormalizeRegistryHost(k) != host
    {
      var key :| key in keys;
      if NormalizeRegistryHost(key) == host {
        assert auths[key] in EntriesFor(auths, host);
        assert EntryAt(auths, key, registry, auths[key]);
        return Some(auths[key]);
      }
      keys := keys - {key};
    }
    entry := None;
  }

  /** The entries a map holds under one canonical host. */
  function EntriesFor(auths: map<string, AuthEntry>, host: string): set<AuthEntry> {
    set k | k in auths && NormalizeRegistryHost(k) == host :: auths[k]
  }

  /** The entry is kept under some spelling of the registry's host. */
  predicate EntryAt(auths: map<string, AuthEntry>, key: string, registry: string, entry: AuthEntry) {
    key in auths && auths[key] == entry && NormalizeRegistryHost(key) == NormalizeRegistryHost(registry)
  }

  ghost predicate IsMatch(auths: map<string, AuthEntry>, registry: string, entry: Option<AuthEntry>) {
    var found := EntriesFor(auths, NormalizeRegistryHost(registry));
    match entry
    case Some(e) => e in found
    case None => found == {}
  }

  /** FromSecret: the credentials a secret holds for one registry. */
  method FromSecret(secret: Secret, registry: string) returns (r: Result<AuthConfig, Error>)
    ensures secret.OpaqueSecret? ==> TakenFrom(secret.data, true, r)
    ensures secret.DockerConfigSecret? ==>
              match secret.config
              case MissingKey => r == Failure(NoKey)
              case Malformed => r == Failure(MalformedConfig)
              case Parsed(auths) =>
                if auths == map[] then r == Failure(NoEntries)
                else if exists k, e :: EntryAt(auths, k, registry, e)
                then exists k, e :: EntryAt(auths, k, registry, e) && r == EntryToAuthConfig(e)
                else r == Failure(NoMatch)
  {
    match secret
    case OpaqueSecret(data) => r := FromOpaque(data);
    case DockerConfigSecret(MissingKey) => r := Failure(NoKey);
    case DockerConfigSecret(Malformed) => r := Failure(MalformedConfig);
    case DockerConfigSecret(Parsed(auths)) =>
      if |auths| == 0 {
        return Failure(NoEntries);
      }
      var entry := MatchRegistry(auths, registry);
      r := Resolve(entry);
  }

  // ----- merging -----

  predicate IsSpace(c: char) {
    c == ' ' || c == '\t' || c == '\n' || c == '\r' || c as int == 11 || c as int == 12
  }

  function TrimSpace(s: string): string {
    if s == "" then ""
    else if IsSpace(s[0]) then TrimSpace(s[1..])
    else if IsSpace(s[|s| - 1]) then TrimSpace(s[..|s| - 1])
    else s
  }

  function OpaqueHost(data: map<string, GoString>): string {
    TrimSpace(Get(data, "registry"))
  }

  /** White space around a host is no part of it. */
  lemma {:induction false} TrimAround(before: string, host: string, after: string)
    requires host != "" && !IsSpace(host[0]) && !IsSpace(host[|host| - 1])
    requires forall i :: 0 <= i < |before| ==> IsSpace(before[i])
    requires forall i :: 0 <= i < |after| ==> IsSpace(after[i])
    ensures TrimSpace(before + host + after) == host
    decreases |before| + |after|
  {
    var s := before + host + after;
    if before != "" {
      assert s[1..] == before[1..] + host + after;
      TrimAround(before[1..], host, after);
    } else if after != "" {
      assert s[0] == host[0] && s[..|s| - 1] == before + host + after[..|after| - 1];
      TrimAround(before, host, after[..|after| - 1]);
    } else {
      assert s == host;
    }
  }

  /** Nothing is left exactly of white space alone. */
  lemma {:induction false} TrimNothing(s: string)
    ensures TrimSpace(s) == "" <==> forall i :: 0 <= i < |s| ==> IsSpace(s[i])
  {
    if s != "" {
      if IsSpace(s[0]) {
        TrimNothing(s[1..]);
        assert s == [s[0]] + s[1..];
      } else if IsSpace(s[|s| - 1]) {
        TrimNothing(s[..|s| - 1]);
        assert s == s[..|s| - 1] + [s[|s| - 1]];
      }
    }
  }

  /** The registry of an opaque secret is nothing but white space, or is not given. */
  ghost predicate NamesNoRegistry(data: map<string, GoString>) {
    "registry" in data ==> forall i :: 0 <= i < |data["registry"]| ==> IsSpace(data["registry"][i])
  }

  /** What stops a merge: a Docker configuration that is missing or malformed, an opaque secret without a registry,
      or else one without a token and without user name or password. */
  lemma RefusalMeans(secret: Secret)
    ensures secret.DockerConfigSecret? ==>
              Refusal(secret) == match secret.config case MissingKey => Some(NoKey) case Malformed => Some(MalformedConfig) case Parsed(_) => None
    ensures secret.OpaqueSecret? ==>
              Refusal(secret) ==
              if NamesNoRegistry(secret.data) then Some(NoRegistry)
              else if Holds(secret.data, "token") || (Holds(secret.data, "username") && Holds(secret.data, "password")) then None
              else Some(NoCredentials)
  {
    if secret.OpaqueSecret? {
      TrimNothing(Get(secret.data, "registry"));
      OpaqueIsTaken(secret.data);
    }
  }

  function OpaqueEntry(auth: AuthConfig): AuthEntry {
    AuthEntry(EncodeAuth(auth), auth.username, auth.password)
  }

  /** The entries one secret offers for a canonical host. */
  function Offers(secret: Secret, host: string): set<AuthEntry> {
    match secret
    case DockerConfigSecret(Parsed(auths)) => EntriesFor(auths, host)
    case DockerConfigSecret(_) => {}
    case OpaqueSecret(data) =>
      if FromOpaque(data).Success? && NormalizeRegistryHost(OpaqueHost(data)) == host
      then {OpaqueEntry(FromOpaque(data).value)} else {}
  }

  /** Why a secret stops the merge, if it does. */
  function Refusal(secret: Secret): Option<Error> {
    match secret
    case DockerConfigSecret(MissingKey) => Some(NoKey)
    case DockerConfigSecret(Malformed) => Some(MalformedConfig)
    case DockerConfigSecret(Parsed(_)) => None
    case OpaqueSecret(data) =>
      if OpaqueHost(data) == "" then Some(NoRegistry)
      else if FromOpaque(data).Failure? then Some(NoCredentials)
      else None
  }

  /** What the last secret with entries for the host offers. */
  function LastOffers(secrets: seq<Secret>, host: string): set<AuthEntry> {
    if secrets == [] then {}
    else
      var last := Offers(secrets[|secrets| - 1], host);
      if last != {} then last else LastOffers(secrets[..|secrets| - 1], host)
  }

  /** `merged` holds, under each canonical host some secret names, an entry of the last such secret, and
      nothing else. */
  ghost predicate IsMerge(secrets: seq<Secret>, merged: map<string, AuthEntry>) {
    && (forall host :: host in merged <==> LastOffers(secrets, host) != {})
    && (forall host :: host in merged ==> merged[host] in LastOffers(secrets, host))
  }

  /** At one host, `merged'` has what `offers` has, or failing that what `merged` has. */
  predicate OverlaidAt(merged: map<string, AuthEntry>, offers: set<AuthEntry>, merged': map<string, AuthEntry>, host: string) {
    if offers != {} then host in merged' && merged'[host] in offers
    else if host in merged then host in merged' && merged'[host] == merged[host]
    else host !in merged'
  }

  /** `merged'` is `merged` with one more secret's entries laid over it. */
  ghost predicate Overlaid(merged: map<string, AuthEntry>, secret: Secret, merged': map<string, AuthEntry>) {
    forall host :: OverlaidAt(merged, Offers(secret, host), merged', host)
  }

  lemma MergeOneMore(secrets: seq<Secret>, merged: map<string, AuthEntry>, secret: Secret, merged': map<string, AuthEntry>)
    requires IsMerge(secrets, merged) && Overlaid(merged, secret, merged')
    ensures IsMerge(secrets + [secret], merged')
  {
    assert (secrets + [secret])[..|secrets|] == secrets;
    forall host
      ensures var offers := LastOffers(secrets + [secret], host);
              (host in merged' <==> offers != {}) && (host in merged' ==> merged'[host] in offers)
    {
      assert OverlaidAt(merged, Offers(secret, host), merged', host);
    }
  }

  lemma OverlayOpaque(merged: map<string, AuthEntry>, data: map<string, GoString>)
    requires Refusal(OpaqueSecret(data)).None?
    ensures Overlaid(merged, OpaqueSecret(data),
                     merged[NormalizeRegistryHost(OpaqueHost(data)) := OpaqueEntry(FromOpaque(data).value)])
  {
  }

  /** MergeToDockerConfigJSON. The source's map is walked in an unspecified order. */
  method MergeToDockerConfigJSON(secrets: seq<Secret>) returns (r: Result<map<string, AuthEntry>, Error>)
    ensures r.Success? ==> IsMerge(secrets, r.value) && forall s :: s in secrets ==> Refusal(s).None?
    ensures r.Failure? ==> exists i :: 0 <= i < |secrets| && Refusal(secrets[i]) == Some(r.error)
                                       && forall j :: 0 <= j < i ==> Refusal(secrets[j]).None?
  {
    var merged: map<string, AuthEntry> := map[];
    for i := 0 to |secrets|
      invariant IsMerge(secrets[..i], merged)
      invariant forall j :: 0 <= j < i ==> Refusal(secrets[j]).None?
    {
      var secret := secrets[i];
      assert secrets[..i + 1] == secrets[..i] + [secret];
      if secret.DockerConfigSecret? {
        if secret.config.MissingKey? {
          return Failure(NoKey);
        }
        if secret.config.Malformed? {
          return Failure(MalformedConfig);
        }
        var overlaid := MergeEntries(merged, secret.config.auths);
        MergeOneMore(secrets[..i], merged, secret, overlaid);
        merged := overlaid;
      } else {
        var overlaid := MergeOpaque(merged, secret.data);
        if overlaid.Failure? {
          return Failure(overlaid.error);
        }
        MergeOneMore(secrets[..i], merged, secret, overlaid.value);
        merged := overlaid.value;
      }
    }
    assert secrets[..|secrets|] == secrets;
    r := Success(merged);
  }

  /** The other branch of the merge: an opaque secret names one host. */
  method MergeOpaque(merged: map<string, AuthEntry>, data: map<string, GoString>) returns (r: Result<map<string, AuthEntry>, Error>)
    ensures r.Success? ==> Refusal(OpaqueSecret(data)).None? && Overlaid(merged, OpaqueSecret(data), r.value)
    ensures r.Failure? ==> Refusal(OpaqueSecret(data)) == Some(r.error)
  {
    var registry := TrimSpace(Get(data, "registry"));
    if registry == "" {
      return Failure(NoRegistry);
    }
    var auth := FromOpaque(data);
    if auth.Failure? {
      return Failure(NoCredentials);
    }
    OverlayOpaque(merged, data);
    r := Success(merged[NormalizeRegistryHost(registry) := AuthEntry(EncodeAuth(auth.value), auth.value.username, auth.value.password)]);
  }

  /** The inner loop of the merge: each entry overwrites what its host had. */
  method MergeEntries(merged: map<string, AuthEntry>, auths: map<string, AuthEntry>) returns (r: map<string, AuthEntry>)
    ensures Overlaid(merged, DockerConfigSecret(Parsed(auths)), r)
  {
    r := merged;
    var todo := auths.Keys;
    ghost var done: map<string, AuthEntry> := map[];
    while todo != {}
      invariant todo <= auths.Keys && done.Keys == auths.Keys - todo
      invariant forall k :: k in done ==> done[k] == auths[k]
      invariant Overlaid(merged, DockerConfigSecret(Parsed(done)), r)
    {
      var key :| key in todo;
      OverlayEntry(merged, done, key, auths[key], r);
      done := done[key := auths[key]];
      r := r[NormalizeRegistryHost(key) := auths[key]];
      todo := todo - {key};
    }
    assert done == auths;
  }

  lemma OverlayEntry(merged: map<string, AuthEntry>, auths: map<string, AuthEntry>, key: string, entry: AuthEntry,
                     r: map<string, AuthEntry>)
    requires key !in auths && Overlaid(merged, DockerConfigSecret(Parsed(auths)), r)
    ensures Overlaid(merged, DockerConfigSecret(Parsed(auths[key := entry])), r[NormalizeRegistryHost(key) := entry])
  {
    var more, r' := auths[key := entry], r[NormalizeRegistryHost(key) := entry];
    forall host ensures OverlaidAt(merged, EntriesFor(more, host), r', host) {
      assert OverlaidAt(merged, Offers(DockerConfigSecret(Parsed(auths)), host), r, host);
      EntriesForOneMore(auths, key, entry, host);
    }
  }

  lemma EntriesForOneMore(auths: map<string, AuthEntry>, key: string, entry: AuthEntry, host: string)
    requires key !in auths
    ensures EntriesFor(auths[key := entry], host) ==
            EntriesFor(auths, host) + if NormalizeRegistryHost(key) == host then {entry} else {}
  {
    var more := auths[key := entry];
    assert forall k :: k in auths ==> more[k] == auths[k];
    assert more[key] == entry;
  }

  // ----- what a merge gives back -----

  /** Every merged host is canonical, so a lookup is unambiguous: it finds what the last secret with that
      host offered, and finds nothing only when no secret has that host. */
  lemma LookupAfterMerge(secrets: seq<Secret>, merged: map<string, AuthEntry>, registry: string, entry: Option<AuthEntry>)
    requires IsMerge(secrets, merged) && IsMatch(merged, registry, entry)
    ensures var offers := LastOffers(secrets, NormalizeRegistryHost(registry));
            if offers == {} then entry.None? else entry.Some? && entry.value in offers
  {
    var host := NormalizeRegistryHost(registry);
    NormalizeHostIdempotent(registry);
    MergedEntry(secrets, merged, host);
  }

  lemma {:induction false} OffersAreCanonical(secrets: seq<Secret>, host: string)
    requires LastOffers(secrets, host) != {}
    ensures NormalizeRegistryHost(host) == host
  {
    var last := secrets[|secrets| - 1];
    if Offers(last, host) != {} {
      match last
      case DockerConfigSecret(Parsed(auths)) =>
        var e :| e in EntriesFor(auths, host);
        var k :| k in auths && NormalizeRegistryHost(k) == host && auths[k] == e;
        NormalizeHostIdempotent(k);
      case OpaqueSecret(data) =>
        NormalizeHostIdempotent(OpaqueHost(data));
    } else {
      OffersAreCanonical(secrets[..|secrets| - 1], host);
    }
  }

  /** No two entries of one secret name the same host. */
  ghost predicate RepeatsNoHost(secret: Secret) {
    forall host, e, e' :: e in Offers(secret, host) && e' in Offers(secret, host) ==> e == e'
  }

  lemma {:induction false} LastOfferIsUnique(secrets: seq<Secret>, host: string, e: AuthEntry, e': AuthEntry)
    requires forall s :: s in secrets ==> RepeatsNoHost(s)
    requires e in LastOffers(secrets, host) && e' in LastOffers(secrets, host)
    ensures e == e'
  {
    assert secrets[|secrets| - 1] in secrets;
    if Offers(secrets[|secrets| - 1], host) == {} {
      LastOfferIsUnique(secrets[..|secrets| - 1], host, e, e');
    }
  }

  /** At each host the last secret that has it offers one entry. */
  ghost predicate Determined(secrets: seq<Secret>) {
    forall host, e, e' :: e in LastOffers(secrets, host) && e' in LastOffers(secrets, host) ==> e == e'
  }

  /** The merge does not depend on map order exactly when the last secret with each host offers one entry. A
      repeated host that a later secret overrides does no harm. */
  lemma MergeIsDetermined(secrets: seq<Secret>, merged: map<string, AuthEntry>)
    requires IsMerge(secrets, merged)
    ensures (forall merged' :: IsMerge(secrets, merged') ==> merged' == merged) <==> Determined(secrets)
  {
    if Determined(secrets) {
      forall merged' | IsMerge(secrets, merged') ensures merged' == merged {
        OneMerge(secrets, merged, merged');
      }
    } else {
      var other := OtherMerge(secrets, merged);
    }
  }

  lemma OneMerge(secrets: seq<Secret>, merged: map<string, AuthEntry>, merged': map<string, AuthEntry>)
    requires IsMerge(secrets, merged) && IsMerge(secrets, merged') && Determined(secrets)
    ensures merged == merged'
  {
    assert forall host :: host in merged <==> host in merged';
    assert forall host :: host in merged ==> merged[host] == merged'[host];
  }

  lemma OtherMerge(secrets: seq<Secret>, merged: map<string, AuthEntry>) returns (other: map<string, AuthEntry>)
    requires IsMerge(secrets, merged) && !Determined(secrets)
    ensures IsMerge(secrets, other) && other != merged
  {
    var host, e, e' :| e in LastOffers(secrets, host) && e' in LastOffers(secrets, host) && e != e';
    var entry := if merged[host] == e then e' else e;
    other := merged[host := entry];
    assert other[host] != merged[host];
  }

  /** It holds in particular when no single secret repeats a host. */
  lemma NoRepeatsDetermine(secrets: seq<Secret>)
    requires forall s :: s in secrets ==> RepeatsNoHost(s)
    ensures Determined(secrets)
  {
    forall host, e, e' | e in LastOffers(secrets, host) && e' in LastOffers(secrets, host) ensures e == e' {
      LastOfferIsUnique(secrets, host, e, e');
    }
  }

  function HostsOf(secret: Secret): set<string> {
    match secret
    case DockerConfigSecret(Parsed(auths)) => set k | k in auths :: NormalizeRegistryHost(k)
    case DockerConfigSecret(_) => {}
    case OpaqueSecret(data) => {NormalizeRegistryHost(OpaqueHost(data))}
  }

  function Hosts(secrets: seq<Secret>): set<string> {
    if secrets == [] then {} else Hosts(secrets[..|secrets| - 1]) + HostsOf(secrets[|secrets| - 1])
  }

  lemma {:induction false} OfferedHosts(secrets: seq<Secret>, host: string)
    requires LastOffers(secrets, host) != {}
    ensures host in Hosts(secrets)
  {
    var last := secrets[|secrets| - 1];
    if Offers(last, host) == {} {
      OfferedHosts(secrets[..|secrets| - 1], host);
    } else {
      var e :| e in Offers(last, host);
    }
  }

  /** Some order of the maps yields a merge. */
  lemma MergeExists(secrets: seq<Secret>) returns (merged: map<string, AuthEntry>)
    ensures IsMerge(secrets, merged)
  {
    merged := map host | host in Hosts(secrets) && LastOffers(secrets, host) != {} ::
                var e :| e in LastOffers(secrets, host); e;
    forall host | LastOffers(secrets, host) != {} ensures host in merged {
      OfferedHosts(secrets, host);
    }
  }

  /** `after` is `before` with some of its secrets replaced by the merged one. */
  ghost predicate Replaces(before: seq<Secret>, after: seq<Secret>, merged: map<string, AuthEntry>) {
    |after| == |before| && forall i :: 0 <= i < |before| ==> after[i] in {before[i], DockerConfigSecret(Parsed(merged))}
  }

  lemma {:induction false} ReplacedOffers(before: seq<Secret>, after: seq<Secret>, merged: map<string, AuthEntry>, host: string)
    requires Replaces(before, after, merged)
    requires EntriesFor(merged, host) == {} ==> LastOffers(before, host) == {}
    ensures LastOffers(after, host) == LastOffers(before, host) || LastOffers(after, host) == EntriesFor(merged, host)
  {
    if before != [] {
      ReplacedOffers(before[..|before| - 1], after[..|after| - 1], merged, host);
      assert after[|after| - 1] in {before[|before| - 1], DockerConfigSecret(Parsed(merged))};
    }
  }

  /** A merge that is put among its own sources is a merge of them still, and as determined as before. */
  lemma MergeAbsorbs(before: seq<Secret>, after: seq<Secret>, merged: map<string, AuthEntry>)
    requires IsMerge(before, merged) && Replaces(before, after, merged)
    ensures IsMerge(after, merged) && (Determined(before) ==> Determined(after))
  {
    forall host ensures AbsorbedAt(before, after, merged, host) {
      MergedEntry(before, merged, host);
      ReplacedOffers(before, after, merged, host);
    }
    forall host
      ensures (host in merged <==> LastOffers(after, host) != {}) && (host in merged ==> merged[host] in LastOffers(after, host))
    {
      assert AbsorbedAt(before, after, merged, host);
    }
    if Determined(before) {
      forall host, e, e' | e in LastOffers(after, host) && e' in LastOffers(after, host) ensures e == e' {
        assert AbsorbedAt(before, after, merged, host);
      }
    }
  }

  predicate AbsorbedAt(before: seq<Secret>, after: seq<Secret>, merged: map<string, AuthEntry>, host: string) {
    || LastOffers(after, host) == LastOffers(before, host)
    || LastOffers(after, host) == if host in merged then {merged[host]} else {}
  }

  lemma MergedEntry(secrets: seq<Secret>, merged: map<string, AuthEntry>, host: string)
    requires IsMerge(secrets, merged)
    ensures EntriesFor(merged, host) == if host in merged then {merged[host]} else {}
  {
    forall k | k in merged ensures NormalizeRegistryHost(k) == k {
      OffersAreCanonical(secrets, k);
    }
  }

  /** Map order shows for one secret that spells a host twice. */
  lemma MergeMayBeAmbiguous(key: string, key': string, a: AuthEntry, b: AuthEntry)
    requires key != key' && NormalizeRegistryHost(key) == NormalizeRegistryHost(key') && a != b
    ensures var s := DockerConfigSecret(Parsed(map[key := a, key' := b]));
            IsMerge([s], map[NormalizeRegistryHost(key) := a]) && IsMerge([s], map[NormalizeRegistryHost(key) := b])
  {
    var auths := map[key := a, key' := b];
    var s := DockerConfigSecret(Parsed(auths));
    assert [s][..0] == [];
    forall host
      ensures LastOffers([s], host) == if host == NormalizeRegistryHost(key) then {a, b} else {}
    {
      assert auths[key] == a && auths[key'] == b;
      assert LastOffers([s], host) == EntriesFor(auths, host);
    }
  }

  /** Two spellings of one host. */
  lemma GhcrSpellings()
    ensures NormalizeRegistryHost("https" + ("://" + "ghcr.io")) == NormalizeRegistryHost("ghcr.io")
    ensures "https" + ("://" + "ghcr.io") != "ghcr.io"
  {
    NormalizeBareSpelling("https", "ghcr.io");
    assert ("https" + ("://" + "ghcr.io"))[0] == 'h';
  }

  const GHCR := "ghcr.io"
  const GHCR_URL := "https" + ("://" + GHCR)

  /** So the source {"auths": {"ghcr.io": a, "https://ghcr.io": b}} may merge to either entry. */
  lemma GhcrIsAmbiguous(a: AuthEntry, b: AuthEntry)
    requires a != b
    ensures var s := DockerConfigSecret(Parsed(map[GHCR := a, GHCR_URL := b]));
            var host := NormalizeRegistryHost(GHCR);
            IsMerge([s], map[host := a]) && IsMerge([s], map[host := b]) && !Determined([s])
  {
    var s := DockerConfigSecret(Parsed(map[GHCR := a, GHCR_URL := b]));
    var host := NormalizeRegistryHost(GHCR);
    GhcrSpellings();
    MergeMayBeAmbiguous(GHCR, GHCR_URL, a, b);
    assert map[host := a][host] != map[host := b][host];
    if Determined([s]) {
      OneMerge([s], map[host := a], map[host := b]);
    }
  }

  /** The whole token comes back under the user name "_token", colons included, and basic credentials come back as
      they were. They are written out, too, and the auth field alone says the same. */
  lemma OpaqueEntryResolves(data: map<string, GoString>)
    requires FromOpaque(data).Success?
    ensures TakenFrom(data, false, EntryToAuthConfig(OpaqueEntry(FromOpaque(data).value)))
    ensures var e := OpaqueEntry(FromOpaque(data).value);
            if Holds(data, "token") then Decode(e.auth) == Some("_token:" + data["token"]) && e.username == "" == e.password
            else e.username == data["username"] && e.password == data["password"] && Decode(e.auth) == Some(e.username + ":" + e.password)
  {
    OpaqueIsTaken(data);
    if Holds(data, "token") {
      TokenAuth(data["token"]);
      DecodeEncode("_token:" + data["token"]);
    } else {
      DecodeEncode(data["username"] + ":" + data["password"]);
    }
  }

  lemma TokenAuth(token: GoString)
    ensures EntryToAuthConfig(AuthEntry(Encode("_token:" + token), "", "")) == Success(AuthConfig("_token", token, ""))
  {
    assert "_token:" + token == "_token" + ":" + token;
    ColonPair("_token", token);
  }

  /** The auth field splits at its first colon. */
  lemma ColonPair(user: GoString, pass: GoString)
    requires user != "" && ':' !in user
    ensures EntryToAuthConfig(AuthEntry(Encode(user + ":" + pass), "", "")) == Success(AuthConfig(user, pass, ""))
  {
    DecodeEncode(user + ":" + pass);
    IndexAfter(user, ':', pass);
    assert Encode(user + ":" + pass) != "";
  }

  /** The secret says something about the host: an opaque secret about its registry, spaces around it apart, a Docker
      configuration about the hosts of its keys. */
  ghost predicate Mentions(secret: Secret, host: string) {
    match secret
    case OpaqueSecret(data) => "registry" in data && NormalizeRegistryHost(TrimSpace(data["registry"])) == host
    case DockerConfigSecret(Parsed(auths)) => exists k :: k in auths && NormalizeRegistryHost(k) == host
    case DockerConfigSecret(_) => false
  }

  lemma OffersMention(secret: Secret, host: string)
    requires Refusal(secret).None?
    ensures Offers(secret, host) != {} <==> Mentions(secret, host)
  {
    match secret
    case DockerConfigSecret(Parsed(auths)) =>
      if k :| k in auths && NormalizeRegistryHost(k) == host {
        assert auths[k] in EntriesFor(auths, host);
      }
    case OpaqueSecret(data) =>
      assert TrimSpace("") == "";
  }

  /** An opaque secret that is the last to mention its host is what a lookup in the merged secret returns: its token,
      if it holds one, and otherwise its user name and password. */
  lemma {:induction false} MergedOpaqueComesBack(
      secrets: seq<Secret>, i: nat, merged: map<string, AuthEntry>, registry: string, entry: Option<AuthEntry>)
    requires i < |secrets| && secrets[i].OpaqueSecret? && forall s :: s in secrets ==> Refusal(s).None?
    requires Mentions(secrets[i], NormalizeRegistryHost(registry))
    requires forall j :: i < j < |secrets| ==> !Mentions(secrets[j], NormalizeRegistryHost(registry))
    requires IsMerge(secrets, merged) && IsMatch(merged, registry, entry)
    ensures entry.Some? && TakenFrom(secrets[i].data, false, EntryToAuthConfig(entry.value))
  {
    var host := NormalizeRegistryHost(registry);
    assert forall j :: i <= j < |secrets| ==> secrets[j] in secrets;
    forall j | i <= j < |secrets| ensures Offers(secrets[j], host) != {} <==> Mentions(secrets[j], host) {
      OffersMention(secrets[j], host);
    }
    LookupAfterMerge(secrets, merged, registry, entry);
    LastOffersAt(secrets, i, host);
    OpaqueEntryResolves(secrets[i].data);
  }

  /** A Docker configuration that is the last to mention a host gives back one of its own entries for it, and a host
      that no secret mentions gives nothing. */
  lemma MergedEntryComesBack(secrets: seq<Secret>, i: nat, merged: map<string, AuthEntry>, registry: string, entry: Option<AuthEntry>)
    requires i < |secrets| && secrets[i].DockerConfigSecret? && forall s :: s in secrets ==> Refusal(s).None?
    requires Mentions(secrets[i], NormalizeRegistryHost(registry))
    requires forall j :: i < j < |secrets| ==> !Mentions(secrets[j], NormalizeRegistryHost(registry))
    requires IsMerge(secrets, merged) && IsMatch(merged, registry, entry)
    ensures entry.Some? && exists k :: EntryAt(secrets[i].config.auths, k, registry, entry.value)
  {
    var host := NormalizeRegistryHost(registry);
    assert forall j :: i <= j < |secrets| ==> secrets[j] in secrets;
    forall j | i <= j < |secrets| ensures Offers(secrets[j], host) != {} <==> Mentions(secrets[j], host) {
      OffersMention(secrets[j], host);
    }
    LookupAfterMerge(secrets, merged, registry, entry);
    LastOffersAt(secrets, i, host);
    var auths := secrets[i].config.auths;
    var k :| k in auths && NormalizeRegistryHost(k) == host && auths[k] == entry.value;
    assert EntryAt(auths, k, registry, entry.value);
  }

  lemma UnmentionedFindsNothing(secrets: seq<Secret>, merged: map<string, AuthEntry>, registry: string, entry: Option<AuthEntry>)
    requires forall s :: s in secrets ==> Refusal(s).None? && !Mentions(s, NormalizeRegistryHost(registry))
    requires IsMerge(secrets, merged) && IsMatch(merged, registry, entry)
    ensures entry == None
  {
    LookupAfterMerge(secrets, merged, registry, entry);
    NothingOffered(secrets, NormalizeRegistryHost(registry));
  }

  lemma {:induction false} NothingOffered(secrets: seq<Secret>, host: string)
    requires forall s :: s in secrets ==> Refusal(s).None? && !Mentions(s, host)
    ensures LastOffers(secrets, host) == {}
  {
    if secrets != [] {
      OffersMention(secrets[|secrets| - 1], host);
      NothingOffered(secrets[..|secrets| - 1], host);
    }
  }

  lemma {:induction false} LastOffersAt(secrets: seq<Secret>, i: nat, host: string)
    requires i < |secrets| && Offers(secrets[i], host) != {}
    requires forall j :: i < j < |secrets| ==> Offers(secrets[j], host) == {}
    ensures LastOffers(secrets, host) == Offers(secrets[i], host)
  {
    if i < |secrets| - 1 {
      LastOffersAt(secrets[..|secrets| - 1], i, host);
    }
  }

  /** The auth field alone carries basic credentials exactly when the user name is not empty and has no
      colon (section 2 of RFC 7617). */
  lemma AuthFieldAlone(user: GoString, pass: GoString)
    ensures EntryToAuthConfig(AuthEntry(EncodeAuth(AuthConfig(user, pass, "")), "", "")) == Success(AuthConfig(user, pass, ""))
            <==> user != "" && ':' !in user
  {
    if user != "" && ':' !in user {
      ColonPair(user, pass);
    } else {
      DecodeEncode(user + ":" + pass);
      var text := user + ":" + pass;
      var k := if user == "" then 0 else IndexByte(user, ':');
      assert text[k] == ':';
    }
  }

  // ----- which host a reference asks for -----

  /** A reference asks for the credentials of its canonical host, so "nginx", "library/nginx" and
      "docker.io/library/nginx" all ask for the same. */
  lemma RegistryOfReference(r: ImageRef.Reference)
    requires r.WellFormed()
    ensures NormalizeRegistryHost(RegistryFromRef("oci://" + r.Print())) ==
            NormalizeRegistryHost(r.Canonical().host.value)
  {
    NamedPart(r);
    SchemeOff(r.Print());
    var suffix := r.(digest := None).Suffix();
    ImageRef.SuffixHasNoSlash(r.(digest := None));
    if r.host.Some? {
      ImageRef.Associate(r.host.value + "/", r.path, suffix);
      FirstSegment(r.host.value, r.path + suffix);
    } else {
      HubHosts();
      if '/' in r.path {
        var i := IndexByte(r.path, '/');
        ImageRef.Regroup(r.path, i, suffix);
        FirstSegment(r.path[..i], r.path[i + 1..] + suffix);
      }
    }
  }

  /** The registry is the first segment if it has a dot or a colon, and Docker Hub otherwise. */
  lemma RegistryByFirstSegment(first: string, rest: string)
    requires '/' !in first && '@' !in first
    ensures RegistryFromRef("oci://" + first) == "index.docker.io"
    ensures RegistryFromRef("oci://" + (first + "/" + rest)) == if '.' in first || ':' in first then first else "index.docker.io"
  {
    SchemeOff(first);
    SchemeOff(first + "/" + rest);
    var named := first + "/" + rest;
    var at := IndexByte(named, '@');
    IndexAfter(first, '/', rest);
    if at >= 0 {
      assert at > |first|;
      var kept := rest[..at - |first| - 1];
      assert named[..at] == first + "/" + kept;
      IndexAfter(first, '/', kept);
    }
  }

  /** A digest does not matter. */
  lemma RegistryWithoutDigest(named: string, digest: string)
    requires '@' !in named
    ensures RegistryFromRef("oci://" + (named + "@" + digest)) == RegistryFromRef("oci://" + named)
  {
    SchemeOff(named);
    SchemeOff(named + "@" + digest);
    IndexAfter(named, '@', digest);
  }

  lemma SchemeOff(text: string)
    ensures TrimPrefix("oci://" + text, "oci://") == text
  {
  }

  lemma HubHosts()
    ensures NormalizeRegistryHost("docker.io") == "index.docker.io" == NormalizeRegistryHost(DOCKER_HUB_HOST)
  {
    BareHost("docker.io");
    NormalizeHostIdempotent("docker.io");
  }

  lemma FirstSegment(host: string, rest: string)
    requires '/' !in host
    ensures HostOrHub(host + "/" + rest) == if ImageRef.HostLike(host) then host else DOCKER_HUB_HOST
  {
    IndexAfter(host, '/', rest);
  }

  lemma NamedPart(r: ImageRef.Reference)
    requires r.WellFormed()
    ensures var at := IndexByte(r.Print(), '@');
            (if at >= 0 then r.Print()[..at] else r.Print()) == r.(digest := None).Print()
  {
    var plain := r.(digest := None);
    if r.digest.Some? {
      assert '@' !in plain.Print();
      ImageRef.Associate(plain.Repository(), plain.Suffix(), "@" + r.digest.value);
      ImageRef.Associate(plain.Print(), "@", r.digest.value);
      assert r.Print() == plain.Print() + "@" + r.digest.value;
      IndexAfter(plain.Print(), '@', r.digest.value);
    } else {
      assert '@' !in r.Print();
    }
  }

  // ----- walks over the maps -----

  /** What the inner loop of the merge makes of one map, walked in this order. */
  function Walked(merged: map<string, AuthEntry>, auths: map<string, AuthEntry>, order: seq<string>): map<string, AuthEntry>
    requires forall k :: k in order ==> k in auths
  {
    if order == [] then merged
    else
      var key := order[|order| - 1];
      Walked(merged, auths, order[..|order| - 1])[NormalizeRegistryHost(key) := auths[key]]
  }

  /** A walk meets every key once. */
  ghost predicate IsWalk(auths: map<string, AuthEntry>, order: seq<string>) {
    && (forall k :: k in order <==> k in auths)
    && (forall i, j :: 0 <= i < j < |order| ==> order[i] != order[j])
  }

  /** The walk has met the host. */
  ghost predicate Met(order: seq<string>, host: string) {
    exists k :: k in order && NormalizeRegistryHost(k) == host
  }

  ghost predicate HoldsMet(auths: map<string, AuthEntry>, order: seq<string>, host: string, entry: AuthEntry) {
    exists k :: k in order && k in auths && NormalizeRegistryHost(k) == host && auths[k] == entry
  }

  lemma MetFurther(order: seq<string>, key: string, host: string)
    ensures Met(order + [key], host) <==> Met(order, host) || NormalizeRegistryHost(key) == host
  {
    assert forall k :: k in order + [key] <==> k in order || k == key;
  }

  lemma HoldsFurther(auths: map<string, AuthEntry>, order: seq<string>, key: string, host: string, entry: AuthEntry)
    requires HoldsMet(auths, order, host, entry)
    ensures HoldsMet(auths, order + [key], host, entry)
  {
    var k :| k in order && k in auths && NormalizeRegistryHost(k) == host && auths[k] == entry;
    assert k in order + [key];
  }

  /** What a walk leaves at a host: an entry it has met there, or else what was there before. */
  lemma {:induction false} WalkedAt(merged: map<string, AuthEntry>, auths: map<string, AuthEntry>, order: seq<string>, host: string)
    requires forall k :: k in order ==> k in auths
    ensures var r := Walked(merged, auths, order);
            if Met(order, host) then host in r && HoldsMet(auths, order, host, r[host]) else Lookup(r, host) == Lookup(merged, host)
  {
    if order != [] {
      var init, last := order[..|order| - 1], order[|order| - 1];
      assert order == init + [last];
      WalkedAt(merged, auths, init, host);
      MetFurther(init, last, host);
      if NormalizeRegistryHost(last) == host {
        assert last in order;
      } else if Met(init, host) {
        HoldsFurther(auths, init, last, host, Walked(merged, auths, init)[host]);
      }
    }
  }

  function Lookup(merged: map<string, AuthEntry>, host: string): Option<AuthEntry> {
    if host in merged then Some(merged[host]) else None
  }

  /** Every walk lays the secret's entries over what was merged. */
  lemma WalkOverlays(merged: map<string, AuthEntry>, auths: map<string, AuthEntry>, order: seq<string>)
    requires IsWalk(auths, order)
    ensures Overlaid(merged, DockerConfigSecret(Parsed(auths)), Walked(merged, auths, order))
  {
    forall host ensures OverlaidAt(merged, EntriesFor(auths, host), Walked(merged, auths, order), host) {
      WalkedAt(merged, auths, order, host);
      OfferedKey(auths, host);
    }
  }

  lemma OfferedKey(auths: map<string, AuthEntry>, host: string)
    ensures EntriesFor(auths, host) != {} <==> exists k :: k in auths && NormalizeRegistryHost(k) == host
  {
    if k :| k in auths && NormalizeRegistryHost(k) == host {
      assert auths[k] in EntriesFor(auths, host);
    }
  }

  lemma {:induction false} Ordered(keys: set<string>) returns (order: seq<string>)
    ensures forall k :: k in order <==> k in keys
    ensures forall i, j :: 0 <= i < j < |order| ==> order[i] != order[j]
    decreases |keys|
  {
    if keys == {} {
      order := [];
    } else {
      var k :| k in keys;
      var rest := Ordered(keys - {k});
      order := rest + [k];
    }
  }

  /** Keys that each have their host to themselves leave their entries, whatever was there before. */
  lemma {:induction false} LastKeysStay(merged: map<string, AuthEntry>, auths: map<string, AuthEntry>, first: seq<string>, last: seq<string>, key: string)
    requires forall k :: k in first + last ==> k in auths
    requires key in last && forall k :: k in last && k != key ==> NormalizeRegistryHost(k) != NormalizeRegistryHost(key)
    ensures Lookup(Walked(merged, auths, first + last), NormalizeRegistryHost(key)) == Some(auths[key])
  {
    var init := last[..|last| - 1];
    assert (first + last)[..|first + last| - 1] == first + init;
    assert last == init + [last[|last| - 1]];
    if last[|last| - 1] != key {
      assert last[|last| - 1] in last;
      LastKeysStay(merged, auths, first, init, key);
    }
  }

  /** The key that is to have the last word at its host. */
  ghost predicate Chosen(auths: map<string, AuthEntry>, r: map<string, AuthEntry>, choice: map<string, string>) {
    && (forall k :: k in auths ==> NormalizeRegistryHost(k) in choice)
    && (forall host :: host in choice ==> ChosenAt(auths, r, host, choice[host]))
  }

  ghost predicate ChosenAt(auths: map<string, AuthEntry>, r: map<string, AuthEntry>, host: string, key: string) {
    key in auths && NormalizeRegistryHost(key) == host && host in r && auths[key] == r[host]
  }

  lemma Choice(merged: map<string, AuthEntry>, auths: map<string, AuthEntry>, r: map<string, AuthEntry>) returns (choice: map<string, string>)
    requires Overlaid(merged, DockerConfigSecret(Parsed(auths)), r)
    ensures Chosen(auths, r, choice)
  {
    forall k | k in auths ensures exists key :: ChosenAt(auths, r, NormalizeRegistryHost(k), key) {
      var host := NormalizeRegistryHost(k);
      assert auths[k] in EntriesFor(auths, host);
      assert OverlaidAt(merged, Offers(DockerConfigSecret(Parsed(auths)), host), r, host);
      var key :| key in auths && NormalizeRegistryHost(key) == host && auths[key] == r[host];
      assert ChosenAt(auths, r, host, key);
    }
    choice := map host | host in HostsOf(DockerConfigSecret(Parsed(auths))) :: var key :| ChosenAt(auths, r, host, key); key;
  }

  lemma ChosenStay(merged: map<string, AuthEntry>, auths: map<string, AuthEntry>, r: map<string, AuthEntry>,
                   choice: map<string, string>, first: seq<string>, last: seq<string>, host: string)
    requires Chosen(auths, r, choice) && host in choice
    requires forall k :: k in first + last ==> k in auths
    requires forall k :: k in last <==> k in auths && choice[NormalizeRegistryHost(k)] == k
    ensures Lookup(Walked(merged, auths, first + last), host) == Lookup(r, host)
  {
    assert ChosenAt(auths, r, host, choice[host]);
    LastKeysStay(merged, auths, first, last, choice[host]);
  }

  lemma UnofferedStay(merged: map<string, AuthEntry>, auths: map<string, AuthEntry>, r: map<string, AuthEntry>, order: seq<string>, host: string)
    requires Overlaid(merged, DockerConfigSecret(Parsed(auths)), r)
    requires (forall k :: k in order ==> k in auths) && forall k :: k in auths ==> NormalizeRegistryHost(k) != host
    ensures Lookup(Walked(merged, auths, order), host) == Lookup(r, host)
  {
    WalkedAt(merged, auths, order, host);
    OfferedKey(auths, host);
    assert OverlaidAt(merged, Offers(DockerConfigSecret(Parsed(auths)), host), r, host);
  }

  lemma FirstAndLast(auths: map<string, AuthEntry>, chosen: set<string>) returns (first: seq<string>, last: seq<string>)
    requires chosen <= auths.Keys
    ensures IsWalk(auths, first + last) && forall k :: k in last <==> k in chosen
  {
    first := Ordered(auths.Keys - chosen);
    last := Ordered(chosen);
    forall i, j | 0 <= i < |first| && 0 <= j < |last| ensures first[i] != last[j] {
      assert first[i] in first && last[j] in last;
    }
    assert forall k :: k in first + last <==> k in first || k in last;
  }

  /** Whatever may come of laying one secret's entries over a merge, some walk of its map brings about. */
  lemma EveryOverlayIsWalked(merged: map<string, AuthEntry>, auths: map<string, AuthEntry>, r: map<string, AuthEntry>)
      returns (order: seq<string>)
    requires Overlaid(merged, DockerConfigSecret(Parsed(auths)), r)
    ensures IsWalk(auths, order) && Walked(merged, auths, order) == r
  {
    var choice := Choice(merged, auths, r);
    var chosen := set k | k in auths && choice[NormalizeRegistryHost(k)] == k;
    var first, last := FirstAndLast(auths, chosen);
    order := first + last;
    forall host ensures Lookup(Walked(merged, auths, order), host) == Lookup(r, host) {
      if host in choice {
        ChosenStay(merged, auths, r, choice, first, last, host);
      } else {
        UnofferedStay(merged, auths, r, order, host);
      }
    }
    SameEntries(Walked(merged, auths, order), r);
  }

  lemma SameEntries(a: map<string, AuthEntry>, b: map<string, AuthEntry>)
    requires forall host :: Lookup(a, host) == Lookup(b, host)
    ensures a == b
  {
    assert forall host :: host in a <==> Lookup(a, host).Some?;
    assert forall host :: host in b <==> Lookup(b, host).Some?;
    assert forall host :: host in a && host in b ==> Lookup(a, host) == Some(a[host]) && Lookup(b, host) == Some(b[host]);
  }

  /** Secrets merged one after another, each map walked in some order. */
  ghost predicate Reached(secrets: seq<Secret>, merged: map<string, AuthEntry>) {
    if secrets == [] then merged == map[]
    else
      var init, last := secrets[..|secrets| - 1], secrets[|secrets| - 1];
      exists before :: Reached(init, before) && OneStep(before, last, merged)
  }

  ghost predicate OneStep(before: map<string, AuthEntry>, secret: Secret, merged: map<string, AuthEntry>) {
    match secret
    case DockerConfigSecret(Parsed(auths)) => exists order :: IsWalk(auths, order) && Walked(before, auths, order) == merged
    case DockerConfigSecret(_) => false
    case OpaqueSecret(data) =>
      FromOpaque(data).Success? && merged == before[NormalizeRegistryHost(OpaqueHost(data)) := OpaqueEntry(FromOpaque(data).value)]
  }

  lemma StepsAreOverlays(before: map<string, AuthEntry>, secret: Secret, merged: map<string, AuthEntry>)
    requires Refusal(secret).None?
    ensures OneStep(before, secret, merged) <==> Overlaid(before, secret, merged)
  {
    match secret
    case DockerConfigSecret(Parsed(auths)) =>
      if Overlaid(before, secret, merged) {
        var order := EveryOverlayIsWalked(before, auths, merged);
      }
      forall order | IsWalk(auths, order) ensures Overlaid(before, secret, Walked(before, auths, order)) {
        WalkOverlays(before, auths, order);
      }
    case OpaqueSecret(data) =>
      OverlayOpaque(before, data);
      if Overlaid(before, secret, merged) {
        var laid := before[NormalizeRegistryHost(OpaqueHost(data)) := OpaqueEntry(FromOpaque(data).value)];
        forall host ensures Lookup(merged, host) == Lookup(laid, host) {
          assert OverlaidAt(before, Offers(secret, host), merged, host);
        }
        SameEntries(merged, laid);
      }
  }

  /** What the earlier secrets may have merged to, when the last one brought it to `merged`. */
  lemma BeforeLast(secrets: seq<Secret>, merged: map<string, AuthEntry>) returns (before: map<string, AuthEntry>)
    requires secrets != [] && IsMerge(secrets, merged)
    ensures IsMerge(secrets[..|secrets| - 1], before) && Overlaid(before, secrets[|secrets| - 1], merged)
  {
    var init, last := secrets[..|secrets| - 1], secrets[|secrets| - 1];
    var some := MergeExists(init);
    before := map host | host in some :: if Offers(last, host) == {} then merged[host] else some[host];
    forall host ensures OverlaidAt(before, Offers(last, host), merged, host) {
    }
  }

  /** The merges are exactly what walks over the maps of the sources reach. */
  lemma {:induction false} MergesAreReached(secrets: seq<Secret>, merged: map<string, AuthEntry>)
    requires forall s :: s in secrets ==> Refusal(s).None?
    ensures IsMerge(secrets, merged) <==> Reached(secrets, merged)
  {
    if secrets == [] {
      assert IsMerge(secrets, map[]);
      if IsMerge(secrets, merged) {
        OneMerge(secrets, merged, map[]);
      }
    } else {
      var init, last := secrets[..|secrets| - 1], secrets[|secrets| - 1];
      assert secrets == init + [last];
      if IsMerge(secrets, merged) {
        var before := BeforeLast(secrets, merged);
        MergesAreReached(init, before);
        StepsAreOverlays(before, last, merged);
      }
      if Reached(secrets, merged) {
        var before :| Reached(init, before) && OneStep(before, last, merged);
        MergesAreReached(init, before);
        StepsAreOverlays(before, last, merged);
        MergeOneMore(init, before, last, merged);
      }
    }
  }
}
