/** Comparison of container image references (internal/validator/runtime_checks.go). */
module ImageRef {
  import opened Wrappers
  import opened GoStrings

  /** A first path segment names a registry when it has a dot or a port. */
  predicate HostLike(segment: string) {
    '.' in segment || ':' in segment
  }

  /** normalizeImageRef: qualifies Docker Hub short names. */
  function NormalizeImageRef(ref: string): string {
    var slash := IndexByte(ref, '/');
    if slash >= 0 && HostLike(ref[..slash]) then ref
    else if slash < 0 then "docker.io/library/" + ref
    else "docker.io/" + ref
  }

  /** Whether anything after the last slash is a tag or a digest. */
  predicate HasTagOrDigest(ref: string) {
    var tail := ref[LastIndexByte(ref, '/') + 1..];
    ':' in tail || '@' in tail
  }

  /** What imageMatches takes for the repository of the running image. */
  function RepositoryPart(actual: string): string {
    var colon := LastIndexByte(actual, ':');
    var at := IndexByte(actual, '@');
    if at > 0 then actual[..at]
    else if colon > LastIndexByte(actual, '/') then actual[..colon]
    else actual
  }

  /** imageMatches: may a workload running `actual` be said to run `expected`? */
  predicate ImageMatches(expected: string, actual: string) {
    if expected == actual then true
    else
      var e, a := NormalizeImageRef(expected), NormalizeImageRef(actual);
      if e == a then true
      else if HasTagOrDigest(e) then false
      else e == RepositoryPart(a)
  }

  // ----- imageMatches is a partial order on normalised references -----

  /** A reference whose first segment names a registry is left alone. */
  lemma NormalizeQualified(host: string, rest: string)
    requires HostLike(host) && '/' !in host
    ensures NormalizeImageRef(host + "/" + rest) == host + "/" + rest
  {
    IndexAfter(host, '/', rest);
  }

  /** What comes before the first slash is a registry exactly when it has a dot or a colon; other names are Docker
      Hub's, and a name without a slash is one of its official images. */
  lemma NormalizeByFirstSegment(first: string, rest: string)
    requires '/' !in first
    ensures NormalizeImageRef(first) == "docker.io/library/" + first
    ensures NormalizeImageRef(first + "/" + rest) ==
            if '.' in first || ':' in first then first + "/" + rest else "docker.io/" + (first + "/" + rest)
  {
    IndexAfter(first, '/', rest);
  }

  lemma NormalizeIdempotent(ref: string)
    ensures NormalizeImageRef(NormalizeImageRef(ref)) == NormalizeImageRef(ref)
  {
    assert "docker.io"[6] == '.';
    NormalizeQualified("docker.io", "library/" + ref);
    NormalizeQualified("docker.io", ref);
    assert "docker.io/library/" + ref == "docker.io" + "/" + ("library/" + ref);
    assert "docker.io/" + ref == "docker.io" + "/" + ref;
  }

  /** imageMatches sees its arguments only through their normal forms. */
  lemma MatchesByNormalForm(expected: string, actual: string)
    ensures ImageMatches(expected, actual) <==>
            var e, a := NormalizeImageRef(expected), NormalizeImageRef(actual);
            e == a || (!HasTagOrDigest(e) && e == RepositoryPart(a))
  {
  }

  /** With no ':' or '@' after its last slash, a reference has no tag to lose. */
  lemma UntaggedColon(repo: string)
    requires !HasTagOrDigest(repo)
    ensures LastIndexByte(repo, ':') <= LastIndexByte(repo, '/')
  {
    var slash := LastIndexByte(repo, '/');
    assert forall k :: slash < k < |repo| ==> repo[k] == repo[slash + 1..][k - slash - 1];
  }

  /** A repository part has no digest left, unless it starts with one. */
  lemma NoDigestLeft(ref: string)
    ensures IndexByte(RepositoryPart(ref), '@') <= 0
  {
    var repo, at := RepositoryPart(ref), IndexByte(ref, '@');
    assert repo <= ref;
    assert forall k :: 0 <= k < |repo| ==> repo[k] == ref[k];
  }

  /** An '@' in front of everything is taken for no digest: the tag goes. */
  lemma LeadingAt(path: string, tag: string)
    requires '/' !in tag && ':' !in tag
    ensures RepositoryPart("@" + path + ":" + tag) == "@" + path
  {
    var repo := "@" + path;
    LastIndexBefore(repo, ':', tag);
    assert repo + ":" + tag == repo + (":" + tag);
    LastIndexAppend(repo, '/', ":" + tag);
    assert (repo + ":" + tag)[0] == '@';
  }

  /** A repository part without a tag is its own repository part. */
  lemma RepositoryPartStable(ref: string)
    requires !HasTagOrDigest(RepositoryPart(ref))
    ensures RepositoryPart(RepositoryPart(ref)) == RepositoryPart(ref)
  {
    UntaggedColon(RepositoryPart(ref));
    NoDigestLeft(ref);
  }

  lemma MatchesReflexive(ref: string)
    ensures ImageMatches(ref, ref)
  {
  }

  lemma MatchesTransitive(a: string, b: string, c: string)
    requires ImageMatches(a, b) && ImageMatches(b, c)
    ensures ImageMatches(a, c)
  {
    var nb, nc := NormalizeImageRef(b), NormalizeImageRef(c);
    MatchesByNormalForm(a, b);
    MatchesByNormalForm(b, c);
    MatchesByNormalForm(a, c);
    if nb != nc {
      RepositoryPartStable(nc);
    }
  }

  lemma MatchesAntisymmetric(a: string, b: string)
    requires ImageMatches(a, b) && ImageMatches(b, a)
    ensures NormalizeImageRef(a) == NormalizeImageRef(b)
  {
    MatchesByNormalForm(a, b);
    MatchesByNormalForm(b, a);
    var na, nb := NormalizeImageRef(a), NormalizeImageRef(b);
    assert RepositoryPart(na) <= na && RepositoryPart(nb) <= nb;
  }

  // ----- what imageMatches decides on well-formed references -----

  datatype Reference = Reference(host: Option<string>, path: string, tag: Option<string>, digest: Option<string>)
  {
    ghost predicate WellFormed() {
      && ':' !in path && '@' !in path
      && (host.Some? ==> HostLike(host.value) && '/' !in host.value && '@' !in host.value)
      && (host.None? ==> !('/' in path && HostLike(path[..IndexByte(path, '/')])))
      && (tag.Some? ==> '/' !in tag.value && ':' !in tag.value && '@' !in tag.value)
      && (digest.Some? ==> '/' !in digest.value && '@' !in digest.value)
    }

    function Repository(): string {
      if host.Some? then host.value + "/" + path else path
    }

    function Suffix(): string {
      (if tag.Some? then ":" + tag.value else "") + (if digest.Some? then "@" + digest.value else "")
    }

    function Print(): string {
      Repository() + Suffix()
    }

    /** The fully qualified reference a Docker Hub short name stands for. */
    function Canonical(): Reference {
      if host.Some? then this
      else if '/' in path then this.(host := Some("docker.io"))
      else this.(host := Some("docker.io"), path := "library/" + path)
    }

    predicate Pinned() {
      tag.Some? || digest.Some?
    }
  }

  lemma SuffixHasNoSlash(r: Reference)
    requires r.WellFormed()
    ensures '/' !in r.Suffix()
  {
  }

  lemma CanonicalWellFormed(r: Reference)
    requires r.WellFormed()
    ensures r.Canonical().WellFormed() && r.Canonical().host.Some?
    ensures r.Canonical().tag == r.tag && r.Canonical().digest == r.digest
  {
    assert "docker.io"[6] == '.';
  }

  /** A Docker Hub user's image gets the Docker Hub host. */
  lemma NormalizeUser(user: string, rest: string)
    requires '/' !in user && !HostLike(user)
    ensures NormalizeImageRef(user + "/" + rest) == "docker.io/" + (user + "/" + rest)
  {
    IndexAfter(user, '/', rest);
  }

  /** Printing then normalising is printing the canonical reference. */
  lemma NormalizePrint(r: Reference)
    requires r.WellFormed()
    ensures NormalizeImageRef(r.Print()) == r.Canonical().Print()
  {
    SuffixHasNoSlash(r);
    if r.host.Some? {
      NormalizeQualified(r.host.value, r.path + r.Suffix());
      Associate(r.host.value + "/", r.path, r.Suffix());
    } else if '/' in r.path {
      var i := IndexByte(r.path, '/');
      NormalizeUser(r.path[..i], r.path[i + 1..] + r.Suffix());
      Regroup(r.path, i, r.Suffix());
    } else {
      NoSlash(r.path, r.Suffix());
    }
  }

  lemma NoSlash(path: string, suffix: string)
    requires '/' !in path && '/' !in suffix
    ensures NormalizeImageRef(path + suffix) == "docker.io" + "/" + ("library/" + path) + suffix
  {
    assert '/' !in path + suffix;
    Associate("docker.io/", "library/" + path, suffix);
    Associate("library/", path, suffix);
    assert "docker.io/library/" == "docker.io/" + "library/";
    assert "docker.io/" == "docker.io" + "/";
    Associate("docker.io/", "library/", path + suffix);
  }

  lemma Associate(a: string, b: string, c: string)
    ensures a + b + c == a + (b + c)
  {
  }

  lemma Regroup(path: string, i: nat, suffix: string)
    requires i < |path| && path[i] == '/'
    ensures path + suffix == path[..i] + "/" + (path[i + 1..] + suffix)
    ensures "docker.io" + "/" + path + suffix == "docker.io/" + (path + suffix)
  {
    assert path == path[..i] + "/" + path[i + 1..];
    assert "docker.io" + "/" == "docker.io/";
  }

  /** Reads a path with its tag and digest. */
  function ParsePath(host: string, rest: string): Reference {
    var at := IndexByte(rest, '@');
    var named := if at >= 0 then rest[..at] else rest;
    var colon := IndexByte(named, ':');
    Reference(Some(host),
              if colon >= 0 then named[..colon] else named,
              if colon >= 0 then Some(named[colon + 1..]) else None,
              if at >= 0 then Some(rest[at + 1..]) else None)
  }

  /** Reads a fully qualified reference back; the inverse of Print. */
  function Parse(s: string): Reference {
    var slash := IndexByte(s, '/');
    if slash >= 0 then ParsePath(s[..slash], s[slash + 1..]) else ParsePath("", s)
  }

  lemma ParseTagged(host: string, path: string, tag: Option<string>)
    requires ':' !in path && '@' !in path && (tag.Some? ==> '@' !in tag.value)
    ensures var named := path + if tag.Some? then ":" + tag.value else "";
            '@' !in named && ParsePath(host, named) == Reference(Some(host), path, tag, None)
  {
    if tag.Some? {
      assert path + (":" + tag.value) == path + ":" + tag.value;
      IndexAfter(path, ':', tag.value);
    } else {
      assert path + "" == path;
    }
  }

  lemma ParseDigest(host: string, named: string, digest: string)
    requires '@' !in named
    ensures ParsePath(host, named + "@" + digest) == ParsePath(host, named).(digest := Some(digest))
  {
    IndexAfter(named, '@', digest);
  }

  lemma ParseParts(host: string, path: string, tag: Option<string>, digest: Option<string>)
    requires ':' !in path && '@' !in path && (tag.Some? ==> '@' !in tag.value)
    ensures var tagged := if tag.Some? then ":" + tag.value else "";
            var digested := if digest.Some? then "@" + digest.value else "";
            ParsePath(host, path + (tagged + digested)) == Reference(Some(host), path, tag, digest)
  {
    var tagged := if tag.Some? then ":" + tag.value else "";
    ParseTagged(host, path, tag);
    if digest.Some? {
      Associate(path, tagged, "@" + digest.value);
      Associate(path + tagged, "@", digest.value);
      ParseDigest(host, path + tagged, digest.value);
    } else {
      assert tagged + "" == tagged;
    }
  }

  lemma ParsePathPrint(r: Reference)
    requires r.WellFormed() && r.host.Some?
    ensures ParsePath(r.host.value, r.path + r.Suffix()) == r
  {
    ParseParts(r.host.value, r.path, r.tag, r.digest);
  }

  lemma ParsePrint(r: Reference)
    requires r.WellFormed() && r.host.Some?
    ensures Parse(r.Print()) == r
  {
    assert r.Print() == r.host.value + "/" + (r.path + r.Suffix());
    IndexAfter(r.host.value, '/', r.path + r.Suffix());
    ParsePathPrint(r);
  }

  /** Where the last slash of a printed reference lies. */
  lemma TailOf(host: string, path: string, suffix: string)
    requires '/' !in suffix
    ensures var s := host + "/" + path + suffix;
            var slash := LastIndexByte(s, '/');
            |host| <= slash <= |host| + |path| && s[slash + 1..] == path[slash - |host|..] + suffix
  {
    var repo := host + "/" + path;
    assert repo[|host|] == '/';
    LastIndexAppend(repo, '/', suffix);
    assert path == repo[|host| + 1..];
  }

  lemma TagTestSeesSuffix(host: string, path: string, suffix: string)
    requires ':' !in path && '@' !in path && '/' !in suffix
    ensures HasTagOrDigest(host + "/" + path + suffix) <==> ':' in suffix || '@' in suffix
  {
    TailOf(host, path, suffix);
    var tail := path[LastIndexByte(host + "/" + path + suffix, '/') - |host|..];
    assert forall c :: c in tail + suffix <==> c in tail || c in suffix;
    assert forall c :: c in tail ==> c in path;
  }

  /** A registry port is never taken for a tag: the test sees exactly the tag and the digest. */
  lemma TagTestIsExact(r: Reference)
    requires r.WellFormed() && r.host.Some?
    ensures HasTagOrDigest(r.Print()) <==> r.Pinned()
  {
    SuffixHasNoSlash(r);
    TagTestSeesSuffix(r.host.value, r.path, r.Suffix());
    SuffixMarks(r);
  }

  lemma SuffixMarks(r: Reference)
    requires r.WellFormed()
    ensures (':' in r.Suffix() || '@' in r.Suffix()) <==> r.Pinned()
  {
    if r.tag.Some? {
      assert r.Suffix()[0] == ':';
    } else if r.digest.Some? {
      assert r.Suffix()[0] == '@';
    }
  }

  /** The repository part of a printed reference loses its digest, or else its tag: never both. */
  lemma RepositoryPartOfPrint(r: Reference)
    requires r.WellFormed() && r.host.Some?
    ensures RepositoryPart(r.Print()) == (if r.digest.Some? then r.(digest := None) else r.(tag := None)).Print()
  {
    if r.digest.Some? {
      var named := r.(digest := None).Print();
      assert r.Print() == named + "@" + r.digest.value;
      assert '@' !in named;
      IndexAfter(named, '@', r.digest.value);
      assert |named| > 0 by { assert '/' in r.Repository(); }
    } else {
      RepositoryPartOfTagged(r);
    }
  }

  lemma RepositoryPartOfTagged(r: Reference)
    requires r.WellFormed() && r.host.Some? && r.digest.None?
    ensures RepositoryPart(r.Print()) == r.(tag := None).Print()
  {
    NoDigestMark(r);
    NoDigestPrint(r);
    if r.tag.Some? {
      TagStripped(r.Repository(), r.tag.value);
    } else {
      TagTestIsExact(r);
      UntaggedColon(r.Print());
    }
  }

  lemma NoDigestPrint(r: Reference)
    requires r.digest.None?
    ensures r.Print() == if r.tag.Some? then r.Repository() + ":" + r.tag.value else r.Repository()
    ensures r.(tag := None).Print() == r.Repository()
  {
    if r.tag.Some? {
      Associate(r.Repository(), ":", r.tag.value);
    }
  }

  lemma TagStripped(repo: string, tag: string)
    requires '/' !in tag && ':' !in tag && '@' !in repo + ":" + tag
    ensures RepositoryPart(repo + ":" + tag) == repo
  {
    LastIndexBefore(repo, ':', tag);
    LastIndexAppend(repo, '/', ":" + tag);
    Associate(repo, ":", tag);
  }

  lemma NoDigestMark(r: Reference)
    requires r.WellFormed() && r.host.Some? && r.digest.None?
    ensures '@' !in r.Print() && '/' !in r.Suffix()
  {
    SuffixHasNoSlash(r);
    assert '@' !in r.Suffix();
    assert '@' !in r.Repository();
  }

  /** An expected image matches the same image, or, when it has neither tag nor digest, any image of
      its repository that carries at most one of the two. */
  lemma MatchesOnReferences(expected: Reference, actual: Reference)
    requires expected.WellFormed() && actual.WellFormed()
    ensures ImageMatches(expected.Print(), actual.Print()) <==>
            var e, a := expected.Canonical(), actual.Canonical();
            e == a || (e.host == a.host && e.path == a.path && !expected.Pinned()
                       && !(actual.tag.Some? && actual.digest.Some?))
  {
    var e, a := expected.Canonical(), actual.Canonical();
    CanonicalWellFormed(expected);
    CanonicalWellFormed(actual);
    NormalizePrint(expected);
    NormalizePrint(actual);
    MatchesByNormalForm(expected.Print(), actual.Print());
    ParsePrint(e);
    ParsePrint(a);
    TagTestIsExact(e);
    RepositoryPartOfPrint(a);
    ParsePrint(if a.digest.Some? then a.(digest := None) else a.(tag := None));
  }
}
