/** References to contract artifacts: how they are normalised, cached under a key, and sent to the
    registry (internal/loader/contract.go, internal/loader/oci.go). */
module OciRef {
  import opened Wrappers
  import opened GoStrings

  const SCHEME := "oci://"

  // ----- net/url.QueryUnescape -----

  predicate IsHex(c: char) {
    '0' <= c <= '9' || 'a' <= c <= 'f' || 'A' <= c <= 'F'
  }

  function HexValue(c: char): (v: int)
    requires IsHex(c)
    ensures 0 <= v < 16
  {
    if '0' <= c <= '9' then c as int - '0' as int
    else if 'a' <= c <= 'f' then c as int - 'a' as int + 10
    else c as int - 'A' as int + 10
  }

  /** Decodes %XX and '+'; None where Go returns an error. */
  function QueryUnescape(s: string): Option<string>
    decreases |s|
  {
    if s == "" then Some("")
    else if s[0] == '%' then
      if |s| >= 3 && IsHex(s[1]) && IsHex(s[2]) then
        match QueryUnescape(s[3..])
        case None => None
        case Some(rest) => Some([(16 * HexValue(s[1]) + HexValue(s[2])) as char] + rest)
      else None
    else
      match QueryUnescape(s[1..])
      case None => None
      case Some(rest) => Some([if s[0] == '+' then ' ' else s[0]] + rest)
  }

  /** normalizeOCIRef */
  function NormalizeOCIRef(ref: string): string {
    var decoded := if '%' in ref then QueryUnescape(ref) else None;
    TrimPrefix(if decoded.Some? then decoded.value else ref, SCHEME)
  }

  // ----- repositories, keys and registry queries -----

  function StripDigest(ref: string): string {
    var at := IndexByte(ref, '@');
    if at >= 0 then ref[..at] else ref
  }

  function StripTag(ref: string): string {
    var colon := LastIndexByte(ref, ':');
    if colon > LastIndexByte(ref, '/') then ref[..colon] else ref
  }

  /** tagCacheKey, on an already normalised reference. */
  function TagCacheKey(ref: string): string {
    "tags:" + StripTag(StripDigest(ref))
  }

  /** The repository OCIPuller.ListTags asks the registry about. */
  function ListTagsQuery(ref: string): string {
    StripTag(StripDigest(TrimPrefix(ref, SCHEME)))
  }

  /** The reference OCIPuller.Pull resolves. */
  function PullQuery(ref: string): string {
    TrimPrefix(ref, SCHEME)
  }

  /** The tagged reference syncAllRevisions builds for one tag of the base reference's repository. */
  function TaggedRef(baseRef: string, tag: string): string {
    StripTag(TrimPrefix(baseRef, SCHEME)) + ":" + tag
  }

  /** cacheKey; `hash` stands for the hexadecimal prefix of SHA-256. */
  function CacheKey(hash: string -> string, ociRef: string, inline: string): string {
    if inline != "" then "inline:" + hash(inline) else "oci:" + NormalizeOCIRef(ociRef)
  }

  /** Where loadUncached takes a contract from. */
  datatype Source = Inline(yaml: string) | Pull(ref: string) | NoSource

  function UncachedSource(ociRef: string, inline: string): Source {
    if inline != "" then Inline(inline)
    else if ociRef != "" then Pull(PullQuery(NormalizeOCIRef(ociRef)))
    else NoSource
  }

  // ----- equal keys mean the same source -----

  /** Two loads share a cache entry only if they read the same source, except that no source at all
      shares its entry with a reference that normalises to nothing. */
  lemma CacheKeyAgrees(hash: string -> string, ociRef: string, inline: string, ociRef': string, inline': string)
    requires hash(inline) == hash(inline') ==> inline == inline'
    requires CacheKey(hash, ociRef, inline) == CacheKey(hash, ociRef', inline')
    ensures UncachedSource(ociRef, inline) == UncachedSource(ociRef', inline') <==>
            (inline != "" || (ociRef == "" <==> ociRef' == ""))
  {
    var k, k' := CacheKey(hash, ociRef, inline), CacheKey(hash, ociRef', inline');
    assert k[0] == k'[0];
    if inline != "" {
      assert k[|"inline:"|..] == hash(inline);
      assert k'[|"inline:"|..] == hash(inline');
    } else {
      assert k[|"oci:"|..] == NormalizeOCIRef(ociRef);
      assert k'[|"oci:"|..] == NormalizeOCIRef(ociRef');
    }
  }

  /** The one shared entry of two different sources. */
  lemma EmptySchemeSharesKey(hash: string -> string)
    ensures CacheKey(hash, "", "") == CacheKey(hash, SCHEME, "")
    ensures UncachedSource("", "") != UncachedSource(SCHEME, "")
  {
    assert SCHEME[|SCHEME|..] == "";
  }

  /** Stripping keeps the scheme prefix in place, or absent. */
  lemma StripKeepsScheme(ref: string)
    ensures SCHEME <= StripTag(StripDigest(ref)) <==> SCHEME <= ref
    ensures SCHEME <= ref ==>
            TrimPrefix(StripTag(StripDigest(ref)), SCHEME) == StripTag(StripDigest(TrimPrefix(ref, SCHEME)))
  {
    if SCHEME <= ref {
      var rest := ref[|SCHEME|..];
      assert ref == SCHEME + rest;
      StripDigestBehindScheme(rest);
      StripTagBehindScheme(StripDigest(rest));
    } else {
      assert StripTag(StripDigest(ref)) <= ref;
    }
  }

  lemma StripDigestBehindScheme(rest: string)
    ensures StripDigest(SCHEME + rest) == SCHEME + StripDigest(rest)
  {
    var s := SCHEME + rest;
    assert forall k :: |SCHEME| <= k < |s| ==> s[k] == rest[k - |SCHEME|];
    var at := IndexByte(rest, '@');
    if at >= 0 {
      assert s[at + |SCHEME|] == '@';
    }
  }

  lemma StripTagBehindScheme(rest: string)
    ensures StripTag(SCHEME + rest) == SCHEME + StripTag(rest)
  {
    var s := SCHEME + rest;
    assert s[5] == '/';
    assert forall k :: |SCHEME| <= k < |s| ==> s[k] == rest[k - |SCHEME|];
    var colon, slash := LastIndexByte(rest, ':'), LastIndexByte(rest, '/');
    assert colon >= 0 ==> s[colon + |SCHEME|] == ':';
    assert slash >= 0 ==> s[slash + |SCHEME|] == '/';
  }

  /** Two normalised references share a tag list exactly when they name the same repository to the
      registry and agree on still carrying a scheme. */
  lemma TagCacheKeyAgrees(ref: string, ref': string)
    ensures TagCacheKey(ref) == TagCacheKey(ref') <==>
            (ListTagsQuery(ref) == ListTagsQuery(ref') && (SCHEME <= ref <==> SCHEME <= ref'))
  {
    var repo, repo' := StripTag(StripDigest(ref)), StripTag(StripDigest(ref'));
    assert TagCacheKey(ref)[|"tags:"|..] == repo && TagCacheKey(ref')[|"tags:"|..] == repo';
    StripKeepsScheme(ref);
    StripKeepsScheme(ref');
    assert SCHEME <= repo ==> repo == SCHEME + TrimPrefix(repo, SCHEME);
    assert SCHEME <= repo' ==> repo' == SCHEME + TrimPrefix(repo', SCHEME);
  }

  /** A repository: no digest, and no ':' once past its last slash. */
  predicate IsRepository(repo: string) {
    '@' !in repo && LastIndexByte(repo, ':') <= LastIndexByte(repo, '/')
  }

  /** A registry tag: none of the characters that delimit or escape a reference occurs in one. */
  predicate IsTag(tag: string) {
    '/' !in tag && ':' !in tag && '@' !in tag && '%' !in tag
  }

  lemma StripAddedTag(repo: string, tag: string)
    requires ':' !in tag && '/' !in tag
    ensures StripTag(repo + ":" + tag) == repo
  {
    LastIndexBefore(repo, ':', tag);
    LastIndexAppend(repo, '/', ":" + tag);
    assert repo + ":" + tag == repo + (":" + tag);
  }

  lemma StripAddedDigest(named: string, digest: string)
    requires '@' !in named
    ensures StripDigest(named + "@" + digest) == named
  {
    IndexAfter(named, '@', digest);
  }

  /** Every form of a repository's references has the repository's one key. */
  lemma RepositoryFormsShareKey(repo: string, tag: string, digest: string)
    requires IsRepository(repo) && IsTag(tag)
    ensures TagCacheKey(repo) == "tags:" + repo
    ensures TagCacheKey(repo + ":" + tag) == "tags:" + repo
    ensures TagCacheKey(repo + "@" + digest) == "tags:" + repo
    ensures TagCacheKey(repo + ":" + tag + "@" + digest) == "tags:" + repo
  {
    StripAddedTag(repo, tag);
    StripAddedDigest(repo, digest);
    assert '@' !in repo + ":" + tag;
    StripAddedDigest(repo + ":" + tag, digest);
  }

  // ----- syncing reads the repository it listed -----

  /** An unescaped base reference without digest: each tag is pulled from the very repository whose
      tags were listed, unless the base carries the scheme three times over. */
  lemma TaggedRefStaysInRepository(baseRef: string, tag: string)
    requires '%' !in baseRef && '@' !in baseRef && IsTag(tag)
    ensures PullQuery(NormalizeOCIRef(TaggedRef(baseRef, tag))) == ListTagsQuery(NormalizeOCIRef(baseRef)) + ":" + tag
            <==> !(SCHEME <= TrimPrefix(TrimPrefix(baseRef, SCHEME), SCHEME))
  {
    var once := TrimPrefix(baseRef, SCHEME);
    assert '%' !in once && '@' !in once;
    var repo := StripTag(once);
    assert '%' !in TaggedRef(baseRef, tag);
    var twice := TrimPrefix(once, SCHEME);
    assert StripDigest(once) == once && StripDigest(twice) == twice;
    StripKeepsScheme(once);
    StripKeepsScheme(twice);
    assert ListTagsQuery(NormalizeOCIRef(baseRef)) == StripTag(twice) == TrimPrefix(repo, SCHEME);
    TrimBeforeTag(repo, tag);
    TrimBeforeTag(TrimPrefix(repo, SCHEME), tag);
    var query := StripTag(twice);
    assert PullQuery(NormalizeOCIRef(TaggedRef(baseRef, tag))) == TrimPrefix(query, SCHEME) + ":" + tag;
    assert |TrimPrefix(query, SCHEME)| < |query| <==> SCHEME <= query;
  }

  lemma TrimBeforeTag(repo: string, tag: string)
    requires '/' !in tag
    ensures TrimPrefix(repo + ":" + tag, SCHEME) == TrimPrefix(repo, SCHEME) + ":" + tag
  {
    var s := repo + ":" + tag;
    if SCHEME <= s {
      assert s[4] == '/' && s[5] == '/';
      assert forall k :: |repo| < k < |s| ==> s[k] == tag[k - |repo| - 1];
      assert SCHEME <= repo;
    }
  }

  /** The tagged reference of a repository in any plain form, with or without the scheme. */
  lemma TaggedRefForms(repo: string, base: string, tag: string)
    requires IsRepository(repo) && IsTag(base) && !(SCHEME <= repo)
    ensures TaggedRef(repo, tag) == repo + ":" + tag == TaggedRef(SCHEME + repo, tag)
    ensures TaggedRef(repo + ":" + base, tag) == repo + ":" + tag == TaggedRef(SCHEME + (repo + ":" + base), tag)
  {
    TrimBeforeTag(repo, base);
    PlainTrim(repo);
    PlainTrim(repo + ":" + base);
    StripAddedTag(repo, base);
  }

  // ----- what is asked of the registry -----

  /** A scheme that was put in front is taken off again, and nothing else. */
  lemma PlainTrim(text: string)
    ensures TrimPrefix(SCHEME + text, SCHEME) == text
    ensures !(SCHEME <= text) ==> TrimPrefix(text, SCHEME) == text
  {
    assert (SCHEME + text)[|SCHEME|..] == text;
  }

  /** An inline contract is read as it is, whatever reference stands beside it. A reference without escapes and
      without a scheme of its own is pulled as it is, tag and digest included, with the scheme or without it. With
      neither there is nothing to read. */
  lemma SourceIsAsDeclared(text: string, yaml: string)
    ensures yaml != "" ==> UncachedSource(text, yaml) == Inline(yaml)
    ensures text != "" && '%' !in text && !(SCHEME <= text) ==>
              UncachedSource(text, "") == Pull(text) == UncachedSource(SCHEME + text, "")
    ensures UncachedSource("", "") == NoSource
  {
    PlainTrim(text);
    assert '%' !in SCHEME;
  }

  /** Conversely, equal sources have equal keys exactly when, normalised, both references or neither still carry a
      scheme. */
  lemma SourceAgrees(hash: string -> string, ociRef: string, inline: string, ociRef': string, inline': string)
    requires UncachedSource(ociRef, inline) == UncachedSource(ociRef', inline')
    ensures CacheKey(hash, ociRef, inline) == CacheKey(hash, ociRef', inline') <==>
            (inline == "" ==> (SCHEME <= NormalizeOCIRef(ociRef) <==> SCHEME <= NormalizeOCIRef(ociRef')))
  {
    if inline == "" {
      var ref, ref' := NormalizeOCIRef(ociRef), NormalizeOCIRef(ociRef');
      assert CacheKey(hash, ociRef, "")[|"oci:"|..] == ref && CacheKey(hash, ociRef', "")[|"oci:"|..] == ref';
      assert PullQuery(ref) == PullQuery(ref');
    }
  }

  /** All plain forms of a repository's references, with or without the scheme, list the repository's tags. */
  lemma ListTagsForms(repo: string, tag: string, digest: string, ref: string)
    requires IsRepository(repo) && IsTag(tag) && !(SCHEME <= repo) && '%' !in repo && '%' !in digest
    requires ref in {repo, repo + ":" + tag, repo + "@" + digest, repo + ":" + tag + "@" + digest}
    ensures ListTagsQuery(NormalizeOCIRef(ref)) == repo == ListTagsQuery(NormalizeOCIRef(SCHEME + ref))
  {
    assert '%' !in SCHEME && '%' !in ref;
    RepositoryFormsShareKey(repo, tag, digest);
    assert ("tags:" + repo)[|"tags:"|..] == repo;
    assert TagCacheKey(ref)[|"tags:"|..] == StripTag(StripDigest(ref));
    StripKeepsScheme(ref);
    PlainTrim(ref);
  }

  // ----- escapes -----

  /** Sixteen digits with their values. */
  ghost predicate Digits(digits: string) {
    |digits| == 16 && forall v :: 0 <= v < 16 ==> IsHex(digits[v]) && HexValue(digits[v]) == v
  }

  lemma HexDigits()
    ensures Digits("0123456789ABCDEF") && Digits("0123456789abcdef")
  {
  }

  /** The text with the characters that are not `plain` percent-encoded, and blanks as plus signs. */
  function Escaped(text: string, plain: char -> bool, digits: string): string
    requires |digits| == 16 && forall i :: 0 <= i < |text| ==> text[i] as int < 256
  {
    if text == "" then "" else EscapedChar(text[0], plain, digits) + Escaped(text[1..], plain, digits)
  }

  function EscapedChar(c: char, plain: char -> bool, digits: string): string
    requires |digits| == 16 && c as int < 256
  {
    if c == ' ' then "+"
    else if plain(c) && c != '%' && c != '+' then [c]
    else ['%', digits[c as int / 16], digits[c as int % 16]]
  }

  lemma UnescapeChar(c: char, plain: char -> bool, digits: string, rest: string, text: string)
    requires Digits(digits) && c as int < 256 && QueryUnescape(rest) == Some(text)
    ensures QueryUnescape(EscapedChar(c, plain, digits) + rest) == Some([c] + text)
  {
    var s := EscapedChar(c, plain, digits) + rest;
    if s[0] == '%' {
      assert s[3..] == rest && s[1] == digits[c as int / 16] && s[2] == digits[c as int % 16];
    } else {
      assert s[1..] == rest;
    }
  }

  /** Unescaping undoes escaping, in capitals or not, whatever is escaped beyond the necessary. */
  lemma {:induction false} UnescapeEscaped(text: string, plain: char -> bool, digits: string)
    requires Digits(digits) && forall i :: 0 <= i < |text| ==> text[i] as int < 256
    ensures QueryUnescape(Escaped(text, plain, digits)) == Some(text)
  {
    if text != "" {
      UnescapeEscaped(text[1..], plain, digits);
      UnescapeChar(text[0], plain, digits, Escaped(text[1..], plain, digits), text[1..]);
      assert text == [text[0]] + text[1..];
    }
  }

  /** A percent sign that two hexadecimal digits do not follow spoils the whole text. */
  lemma {:induction false} BadEscape(before: string, after: string)
    requires '%' !in before && !(|after| >= 2 && IsHex(after[0]) && IsHex(after[1]))
    ensures QueryUnescape(before + "%" + after) == None
  {
    var s := before + "%" + after;
    if before == "" {
      assert s == "%" + after;
    } else {
      BadEscape(before[1..], after);
      assert s[1..] == before[1..] + "%" + after;
    }
  }

  /** An escaped reference is pulled unescaped and without its scheme; a spoilt one is taken as it is. */
  lemma EscapedIsPulledUnescaped(text: string, plain: char -> bool, digits: string)
    requires text != "" && !(SCHEME <= text) && Digits(digits) && forall i :: 0 <= i < |text| ==> text[i] as int < 256
    requires '%' in Escaped(text, plain, digits)
    ensures UncachedSource(Escaped(text, plain, digits), "") == Pull(text)
  {
    UnescapeEscaped(text, plain, digits);
    PlainTrim(text);
  }

  lemma SpoiltIsPulledAsItIs(before: string, after: string)
    requires '%' !in before && !(|after| >= 2 && IsHex(after[0]) && IsHex(after[1]))
    requires !(SCHEME <= before + "%" + after)
    ensures UncachedSource(before + "%" + after, "") == Pull(before + "%" + after)
  {
    BadEscape(before, after);
    assert (before + "%" + after)[|before|] == '%';
  }
}
