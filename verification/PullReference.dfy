/**
  Canonical pull references: splitting a canonical value gives back its parts;
  parsing fixes its own output, and a canonical list is accepted when it is
  canonicalised again, exactly when no digest reference among the inputs has a
  second tag, or a leading colon where the hub's library prefix is added.
*/
module PullReference {
  import opened Common
  import opened Whitespace

  const HUB := "index.docker.io"
  const LIBRARY := "library/"
  const LATEST := "latest"
  const MAX_COUNT := 200
  const MAX_BYTES := 65536

  datatype Ref =
    | TagRef(host: string, repo: string, tag: string)
    | DigestRef(host: string, repo: string, digest: string)

  /** The canonical text of a reference. */
  function Value(r: Ref): string {
    match r
    case TagRef(host, repo, tag) => Join(host, '/', Join(repo, ':', tag))
    case DigestRef(host, repo, digest) => Join(host, '/', Join(repo, '@', digest))
  }

  // ---------------------------------------------------------------- characters

  /** The character does not occur. */
  predicate Lacks(s: string, c: char) {
    forall k | 0 <= k < |s| :: s[k] != c
  }

  predicate IsDigit(c: char) {
    '0' <= c <= '9'
  }

  predicate IsHex(c: char) {
    IsDigit(c) || 'a' <= c <= 'f' || 'A' <= c <= 'F'
  }

  predicate IsAlgorithmChar(c: char) {
    IsDigit(c) || 'a' <= c <= 'z' || 'A' <= c <= 'Z' || c == '+' || c == '.' || c == '_' || c == '-'
  }

  /** The characters, spelled out. */
  lemma CharactersAre(c: char)
    ensures IsDigit(c) <==> c in "0123456789"
    ensures IsHex(c) <==> c in "0123456789abcdefABCDEF"
    ensures IsAlgorithmChar(c) <==> IsDigit(c) || LowerChar(c) in "abcdefghijklmnopqrstuvwxyz" || c in "+._-"
  {
  }

  function FirstFrom(s: string, c: char, i: nat): (r: nat)
    requires i <= |s|
    ensures i <= r <= |s| && (r < |s| ==> s[r] == c)
    ensures forall k | i <= k < r :: s[k] != c
    decreases |s| - i
  {
    if i == |s| || s[i] == c then i else FirstFrom(s, c, i + 1)
  }

  /** The first position of the character, or the length. */
  function FirstOf(s: string, c: char): (i: nat)
    ensures i <= |s| && (i < |s| ==> s[i] == c)
    ensures forall k | 0 <= k < i :: s[k] != c
  {
    FirstFrom(s, c, 0)
  }

  function LastBefore(s: string, c: char, i: nat): (r: int)
    requires i <= |s|
    ensures -1 <= r < i && (r >= 0 ==> s[r] == c)
    ensures forall k | r < k < i :: s[k] != c
  {
    if i == 0 then -1 else if s[i - 1] == c then i - 1 else LastBefore(s, c, i - 1)
  }

  /** The last position of the character, or -1. */
  function LastOf(s: string, c: char): (i: int)
    ensures -1 <= i < |s| && (i >= 0 ==> s[i] == c)
    ensures forall k | i < k < |s| :: s[k] != c
  {
    LastBefore(s, c, |s|)
  }

  lemma FirstIs(s: string, c: char, i: nat)
    requires i <= |s| && (i < |s| ==> s[i] == c) && forall k | 0 <= k < i :: s[k] != c
    ensures FirstOf(s, c) == i
  {
    var j := FirstOf(s, c);
    assert j < |s| ==> s[j] == c;
  }

  lemma LastIs(s: string, c: char, i: nat)
    requires i < |s| && s[i] == c && forall k | i < k < |s| :: s[k] != c
    ensures LastOf(s, c) == i
  {
    var j := LastOf(s, c);
    assert j >= 0 ==> s[j] == c;
  }

  /** The text `a`, the separator and `b`. */
  function Join(a: string, c: char, b: string): (s: string)
    ensures |s| == |a| + 1 + |b|
    ensures s[..|a|] == a && s[|a|] == c && s[|a| + 1..] == b
  {
    a + [c] + b
  }

  lemma JoinAt(a: string, c: char, b: string)
    ensures forall k | 0 <= k < |a| :: Join(a, c, b)[k] == a[k]
    ensures forall k | 0 <= k < |b| :: Join(a, c, b)[|a| + 1 + k] == b[k]
  {
  }

  lemma FirstOfJoin(a: string, c: char, b: string)
    requires Lacks(a, c)
    ensures FirstOf(Join(a, c, b), c) == |a|
  {
    JoinAt(a, c, b);
    FirstIs(Join(a, c, b), c, |a|);
  }

  lemma LastOfJoin(a: string, c: char, b: string)
    requires Lacks(b, c)
    ensures LastOf(Join(a, c, b), c) == |a|
  {
    var s := Join(a, c, b);
    forall k | |a| < k < |s| ensures s[k] != c { assert s[k] == s[|a| + 1..][k - |a| - 1]; }
    LastIs(s, c, |a|);
  }

  lemma JoinLacks(a: string, sep: char, b: string, c: char)
    ensures Lacks(Join(a, sep, b), c) <==> Lacks(a, c) && sep != c && Lacks(b, c)
  {
    var s := Join(a, sep, b);
    JoinAt(a, sep, b);
    if Lacks(s, c) {
      forall k | 0 <= k < |a| ensures a[k] != c { assert s[k] == a[k]; }
      forall k | 0 <= k < |b| ensures b[k] != c { assert s[|a| + 1 + k] == b[k]; }
      assert s[|a|] == sep;
    }
    if Lacks(a, c) && sep != c && Lacks(b, c) {
      forall k | 0 <= k < |s| ensures s[k] != c {
        if k > |a| { assert s[k] == b[k - |a| - 1]; }
      }
    }
  }

  lemma JoinGroups(a: string, c: char, b: string, d: char, e: string)
    ensures Join(a, c, Join(b, d, e)) == Join(Join(a, c, b), d, e)
  {
    assert a + [c] + (b + [d] + e) == a + [c] + b + [d] + e;
  }

  // ------------------------------------------------------------------- parsing

  predicate IsDigest(d: string) {
    var i := FirstOf(d, ':');
    && 0 < i < |d| - 1
    && (forall k | 0 <= k < i :: IsAlgorithmChar(d[k]))
    && (forall k | i < k < |d| :: IsHex(d[k]))
  }

  /** A local image id, `sha256:` and hex digits, is not a pull reference. */
  predicate IsBareImageId(s: string) {
    && |s| > 7
    && (s[0] == 's' || s[0] == 'S') && (s[1] == 'h' || s[1] == 'H') && (s[2] == 'a' || s[2] == 'A')
    && s[3] == '2' && s[4] == '5' && s[5] == '6' && s[6] == ':'
    && forall k | 7 <= k < |s| :: IsHex(s[k])
  }

  /** A colon in the first segment must be followed by a numeric port. */
  predicate PortFits(first: string) {
    var i := LastOf(first, ':');
    i == -1 || (i + 1 < |first| && forall k | i < k < |first| :: IsDigit(first[k]))
  }

  predicate LooksLikeHost(first: string) {
    !Lacks(first, '.') || !Lacks(first, ':') || first == "localhost"
  }

  /** The registry and the repository part of a name; none when the port is not numeric. */
  function Locate(name: string): Option<(string, string)> {
    var slash := FirstOf(name, '/');
    if slash == |name| then Some((HUB, name))
    else if !LooksLikeHost(name[..slash]) then Some((HUB, name))
    else if !PortFits(name[..slash]) then None
    else Some((name[..slash], name[slash + 1..]))
  }

  function WithLibrary(host: string, repo: string): string {
    if host == HUB && Lacks(repo, '/') then LIBRARY + repo else repo
  }

  /** Splits a tag off the repository; a colon at its very start is no separator. */
  function WithoutTag(repo: string): string {
    var colon := LastOf(repo, ':');
    if colon > 0 then repo[..colon] else repo
  }

  function TagOf(repo: string): string {
    var colon := LastOf(repo, ':');
    if colon > 0 then repo[colon + 1..] else LATEST
  }

  function Finish(host: string, repo: string, digest: Option<string>): Option<Ref> {
    var bare := WithoutTag(repo);
    if bare == "" then None
    else if digest.Some? then Some(DigestRef(host, WithLibrary(host, bare), digest.value))
    else Some(TagRef(host, WithLibrary(host, bare), TagOf(repo)))
  }

  function ParseName(normalize: string -> string, name: string, digest: Option<string>): Option<Ref> {
    var located := Locate(name);
    if located.None? then None else Finish(normalize(located.value.0), located.value.1, digest)
  }

  function ParsePullReference(normalize: string -> string, raw: string): Option<Ref> {
    var ref := Trim(raw);
    if ref == "" then None
    else
      var at := FirstOf(ref, '@');
      if at < |ref| then ParsePinned(normalize, ref[..at], ref[at + 1..])
      else if IsBareImageId(ref) then None
      else ParseName(normalize, ref, None)
  }

  function ParsePinned(normalize: string -> string, name: string, digest: string): Option<Ref> {
    if !IsDigest(digest) || name == "" || IsBareImageId(name) then None else ParseName(normalize, name, Some(digest))
  }

  // ------------------------------------------------------------ host normaliser

  /** A host as the first segment of a reference can spell it. */
  predicate IsHost(h: string) {
    h != "" && !IsBlank(h[0]) && Lacks(h, '/') && Lacks(h, '@') && LooksLikeHost(h) && PortFits(h)
  }

  /** What the parser relies on: normalising keeps the form of a host and is done once. */
  ghost predicate IsNormaliser(normalize: string -> string) {
    && normalize(HUB) == HUB
    && forall h | IsHost(h) :: IsHost(normalize(h)) && normalize(normalize(h)) == normalize(h)
  }

  /** Hub aliases and the empty host resolve to the hub. */
  function NormalizeImageHost(host: string): string {
    var lower := Lower(Trim(host));
    if lower == "docker.io" || lower == "registry-1.docker.io" || lower == "" then HUB else lower
  }

  lemma TrimHost(h: string)
    requires IsHost(h)
    ensures IsHost(Trim(h)) && IsTrimmed(Trim(h))
  {
    var t := TrimRight(h);
    assert TrimLeft(h) == h;
    assert t != "";
    assert t[0] == h[0];
    var i := LastOf(h, ':');
    if i >= 0 {
      assert IsDigit(h[|h| - 1]);
      assert t == h;
    } else {
      assert Lacks(t, ':') && LastOf(t, ':') == -1;
      if k :| 0 <= k < |h| && h[k] == '.' {
        assert k < |t| && t[k] == '.';
      } else {
        assert h[|h| - 1] == 't';
        assert t == h;
      }
    }
  }

  lemma LowerHost(h: string)
    requires IsHost(h) && IsTrimmed(h)
    ensures IsHost(Lower(h)) && IsTrimmed(Lower(h)) && Lower(Lower(h)) == Lower(h)
  {
    var r := Lower(h);
    var i := LastOf(h, ':');
    if i >= 0 {
      assert r[i] == ':';
      LastIs(r, ':', i);
    } else {
      assert Lacks(r, ':') && LastOf(r, ':') == -1;
      if k :| 0 <= k < |h| && h[k] == '.' {
        assert r[k] == '.';
      } else {
        assert r == h;
      }
    }
  }

  lemma NormalizedHost(h: string)
    requires IsHost(h)
    ensures IsHost(NormalizeImageHost(h)) && NormalizeImageHost(NormalizeImageHost(h)) == NormalizeImageHost(h)
  {
    NormalizedHub();
    TrimHost(h);
    LowerHost(Trim(h));
  }

  lemma NormalizedHub()
    ensures IsHost(HUB) && NormalizeImageHost(HUB) == HUB
  {
    HubIsHost();
    assert IsTrimmed(HUB);
    assert Lower(HUB) == HUB;
    assert HUB[0] == 'i';
  }

  /** The host normaliser keeps hosts hosts and is idempotent. */
  lemma NormalizeImageHostIs()
    ensures IsNormaliser(NormalizeImageHost)
  {
    NormalizedHub();
    forall h | IsHost(h)
      ensures IsHost(NormalizeImageHost(h)) && NormalizeImageHost(NormalizeImageHost(h)) == NormalizeImageHost(h)
    {
      NormalizedHost(h);
    }
  }

  /** The hub has three other names; every other host is its own spelling in lower case. */
  lemma HostNames(h: string)
    requires IsTrimmed(h)
    ensures NormalizeImageHost(h) == HUB <==> Lower(h) in {HUB, "docker.io", "registry-1.docker.io", ""}
    ensures NormalizeImageHost(h) != HUB ==> NormalizeImageHost(h) == Lower(h)
  {
  }

  // -------------------------------------------------------------- canonical form

  predicate IsTag(tag: string) {
    Lacks(tag, ':') && Lacks(tag, '@') && (tag != "" ==> !IsBlank(tag[|tag| - 1]))
  }

  predicate IsRepo(host: string, repo: string) {
    repo != "" && Lacks(repo, '@') && (host == HUB ==> !Lacks(repo, '/'))
  }

  /** What every parsed reference satisfies. */
  ghost predicate IsCanonical(normalize: string -> string, r: Ref) {
    && IsHost(r.host) && normalize(r.host) == r.host && IsRepo(r.host, r.repo)
    && (r.TagRef? ==> IsTag(r.tag))
    && (r.DigestRef? ==> IsDigest(r.digest))
  }

  lemma HubIsHost()
    ensures IsHost(HUB)
  {
    assert HUB[5] == '.';
    assert Lacks(HUB, ':');
    assert LastOf(HUB, ':') == -1;
  }

  lemma DigestLacksAt(d: string)
    requires IsDigest(d)
    ensures Lacks(d, '@') && !IsBlank(d[|d| - 1])
  {
  }

  /** What a name's registry and repository are like. */
  ghost predicate Located(name: string, host: string, repo: string)
    requires name != ""
  {
    IsHost(host) && Lacks(repo, '@') && (repo != "" ==> repo[|repo| - 1] == name[|name| - 1])
  }

  lemma LocateIs(name: string)
    requires name != "" && Lacks(name, '@') && !IsBlank(name[0]) && Locate(name).Some?
    ensures Located(name, Locate(name).value.0, Locate(name).value.1)
  {
    var slash := FirstOf(name, '/');
    if slash < |name| && LooksLikeHost(name[..slash]) {
      SegmentIsHost(name, slash);
    } else {
      HubIsHost();
    }
  }

  lemma SegmentIsHost(name: string, slash: nat)
    requires name != "" && Lacks(name, '@') && !IsBlank(name[0]) && slash < |name|
    requires forall k | 0 <= k < slash :: name[k] != '/'
    requires LooksLikeHost(name[..slash]) && PortFits(name[..slash])
    ensures Located(name, name[..slash], name[slash + 1..])
  {
    var first, rest := name[..slash], name[slash + 1..];
    assert first != "";
    assert first[0] == name[0];
    assert forall k | 0 <= k < |rest| :: rest[k] == name[slash + 1 + k];
  }

  lemma WithLibraryIs(host: string, repo: string)
    requires Lacks(repo, '@') && repo != ""
    ensures IsRepo(host, WithLibrary(host, repo))
  {
    var more := LIBRARY + repo;
    assert LIBRARY[7] == '/' && more[7] == '/';
    assert Lacks(LIBRARY, '@');
    assert forall k | 0 <= k < |more| :: more[k] == if k < 8 then LIBRARY[k] else repo[k - 8];
  }

  lemma SuffixIsTag(repo: string, colon: nat)
    requires colon < |repo| && Lacks(repo, '@') && !IsBlank(repo[|repo| - 1])
    requires forall k | colon < k < |repo| :: repo[k] != ':'
    ensures IsTag(repo[colon + 1..])
  {
    var tag := repo[colon + 1..];
    assert forall k | 0 <= k < |tag| :: tag[k] == repo[colon + 1 + k];
  }

  lemma LatestIsTag()
    ensures IsTag(LATEST)
  {
    assert LATEST[5] == 't';
  }

  function NamePart(ref: string): string {
    ref[..FirstOf(ref, '@')]
  }

  function DigestPart(ref: string): Option<string> {
    var at := FirstOf(ref, '@');
    if at < |ref| then Some(ref[at + 1..]) else None
  }

  /** A parsed text has a name without `@` and a digest if it has one. */
  lemma PartsOf(normalize: string -> string, raw: string)
    requires ParsePullReference(normalize, raw).Some?
    ensures var name, digest := NamePart(Trim(raw)), DigestPart(Trim(raw));
      && ParsePullReference(normalize, raw) == ParseName(normalize, name, digest)
      && name != "" && !IsBlank(name[0]) && Lacks(name, '@')
      && (if digest.Some? then IsDigest(digest.value) else !IsBlank(name[|name| - 1]))
  {
    var ref := Trim(raw);
    if FirstOf(ref, '@') == |ref| {
      assert NamePart(ref) == ref;
    } else {
      assert NamePart(ref) == "" || NamePart(ref)[0] == ref[0];
    }
  }

  lemma NameIsCanonical(normalize: string -> string, name: string, digest: Option<string>)
    requires IsNormaliser(normalize) && name != "" && !IsBlank(name[0]) && Lacks(name, '@')
    requires ParseName(normalize, name, digest).Some?
    requires if digest.Some? then IsDigest(digest.value) else !IsBlank(name[|name| - 1])
    ensures IsCanonical(normalize, ParseName(normalize, name, digest).value)
  {
    LocateIs(name);
    var host, repo := Locate(name).value.0, Locate(name).value.1;
    WithLibraryIs(normalize(host), WithoutTag(repo));
    LatestIsTag();
    if digest.None? && LastOf(repo, ':') > 0 { SuffixIsTag(repo, LastOf(repo, ':')); }
  }

  /** Every reference the parser returns is canonical. */
  lemma ParsedIsCanonical(normalize: string -> string, raw: string)
    requires IsNormaliser(normalize)
    ensures ParsePullReference(normalize, raw).Some? ==>
      IsCanonical(normalize, ParsePullReference(normalize, raw).value)
  {
    if ParsePullReference(normalize, raw).Some? {
      PartsOf(normalize, raw);
      NameIsCanonical(normalize, NamePart(Trim(raw)), DigestPart(Trim(raw)));
    }
  }

  lemma BareImageIdLacksSlash(s: string)
    requires !Lacks(s, '/')
    ensures !IsBareImageId(s)
  {
  }

  /** The name part of a canonical reference is located again as its host and what follows. */
  lemma LocateAgain(host: string, rest: string)
    requires IsHost(host)
    ensures Locate(Join(host, '/', rest)) == Some((host, rest))
  {
    FirstOfJoin(host, '/', rest);
  }

  lemma FinishTag(host: string, repo: string, tag: string)
    requires IsRepo(host, repo) && IsTag(tag)
    ensures Finish(host, Join(repo, ':', tag), None) == Some(TagRef(host, repo, tag))
  {
    LastOfJoin(repo, ':', tag);
  }

  lemma TrimmedJoin(host: string, rest: string, sep: char, end: string)
    requires host != "" && !IsBlank(host[0]) && !IsBlank(sep) && (end != "" ==> !IsBlank(end[|end| - 1]))
    ensures IsTrimmed(Join(host, '/', Join(rest, sep, end)))
  {
    var tail := Join(rest, sep, end);
    JoinAt(rest, sep, end);
    assert tail[|tail| - 1] == if end == "" then sep else end[|end| - 1];
    LastOfTail(host, tail);
  }

  lemma LastOfTail(host: string, tail: string)
    requires host != "" && tail != ""
    ensures Join(host, '/', tail)[0] == host[0]
    ensures Join(host, '/', tail)[|host| + |tail|] == tail[|tail| - 1]
  {
    JoinAt(host, '/', tail);
    assert Join(host, '/', tail)[|host| + 1 + (|tail| - 1)] == tail[|tail| - 1];
  }

  lemma TrimmedValue(normalize: string -> string, r: Ref)
    requires IsCanonical(normalize, r)
    ensures Trim(Value(r)) == Value(r) && Value(r) != ""
  {
    if r.DigestRef? {
      DigestLacksAt(r.digest);
      TrimmedJoin(r.host, r.repo, '@', r.digest);
    } else {
      TrimmedJoin(r.host, r.repo, ':', r.tag);
    }
  }

  /** A tag reference is fixed by parsing. */
  lemma TagIsFixed(normalize: string -> string, r: Ref)
    requires IsCanonical(normalize, r) && r.TagRef?
    ensures ParsePullReference(normalize, Value(r)) == Some(r)
  {
    var v, rest := Value(r), Join(r.repo, ':', r.tag);
    TrimmedValue(normalize, r);
    JoinLacks(r.repo, ':', r.tag, '@');
    JoinLacks(r.host, '/', rest, '@');
    assert FirstOf(v, '@') == |v|;
    assert v[|r.host|] == '/';
    BareImageIdLacksSlash(v);
    LocateAgain(r.host, rest);
    FinishTag(r.host, r.repo, r.tag);
  }

  lemma ParseAtSign(normalize: string -> string, name: string, digest: string)
    requires Lacks(name, '@') && Trim(Join(name, '@', digest)) == Join(name, '@', digest)
    ensures ParsePullReference(normalize, Join(name, '@', digest)) == ParsePinned(normalize, name, digest)
  {
    FirstOfJoin(name, '@', digest);
  }

  lemma NamePinned(normalize: string -> string, host: string, repo: string, digest: string)
    requires IsHost(host) && IsDigest(digest)
    ensures ParsePinned(normalize, Join(host, '/', repo), digest) == Finish(normalize(host), repo, Some(digest))
  {
    var name := Join(host, '/', repo);
    assert name[|host|] == '/';
    BareImageIdLacksSlash(name);
    LocateAgain(host, repo);
  }

  /** A repository on a host, pinned to a digest. */
  lemma PinnedParses(normalize: string -> string, host: string, repo: string, digest: string)
    requires IsHost(host) && Lacks(repo, '@') && IsDigest(digest)
    ensures ParsePullReference(normalize, Join(Join(host, '/', repo), '@', digest))
      == Finish(normalize(host), repo, Some(digest))
  {
    var name := Join(host, '/', repo);
    JoinLacks(host, '/', repo, '@');
    DigestLacksAt(digest);
    TrimmedJoin(host, repo, '@', digest);
    JoinGroups(host, '/', repo, '@', digest);
    ParseAtSign(normalize, name, digest);
    NamePinned(normalize, host, repo, digest);
  }

  lemma FinishPinned(host: string, repo: string, digest: string)
    requires repo != ""
    ensures Finish(host, repo, Some(digest)) == Some(DigestRef(host, WithLibrary(host, WithoutTag(repo)), digest))
  {
  }

  /** The text of a digest reference parses as its repository pinned to its digest. */
  lemma ValuePinned(normalize: string -> string, host: string, repo: string, digest: string)
    requires IsHost(host) && Lacks(repo, '@') && IsDigest(digest)
    ensures ParsePullReference(normalize, Value(DigestRef(host, repo, digest)))
      == Finish(normalize(host), repo, Some(digest))
  {
    JoinGroups(host, '/', repo, '@', digest);
    PinnedParses(normalize, host, repo, digest);
  }

  /** A digest reference loses whatever still looks like a tag. */
  lemma DigestParsedAgain(normalize: string -> string, r: Ref)
    requires IsCanonical(normalize, r) && r.DigestRef?
    ensures ParsePullReference(normalize, Value(r))
      == Some(DigestRef(r.host, WithLibrary(r.host, WithoutTag(r.repo)), r.digest))
  {
    ValuePinned(normalize, r.host, r.repo, r.digest);
    FinishPinned(r.host, r.repo, r.digest);
  }

  // ------------------------------------------------------- when parsing is final

  function Colons(s: string): nat {
    if s == "" then 0 else Colons(s[..|s| - 1]) + if s[|s| - 1] == ':' then 1 else 0
  }

  lemma {:induction false} ColonsJoin(a: string, b: string)
    ensures Colons(a + b) == Colons(a) + Colons(b)
    decreases |b|
  {
    if b == "" {
      assert a + b == a;
    } else {
      ColonsJoin(a, b[..|b| - 1]);
      assert (a + b)[..|a + b| - 1] == a + b[..|b| - 1];
    }
  }

  lemma {:induction false} NoColons(s: string)
    requires Lacks(s, ':')
    ensures Colons(s) == 0
  {
    if s != "" { NoColons(s[..|s| - 1]); }
  }

  lemma {:induction false} SomeColons(s: string)
    requires s != "" && s[0] == ':'
    ensures Colons(s) > 0
  {
    if |s| > 1 { SomeColons(s[..|s| - 1]); }
  }

  /** Dropping a further tag leaves fewer colons. */
  lemma FewerColons(host: string, repo: string)
    requires LastOf(repo, ':') > 0
    ensures Colons(WithLibrary(host, WithoutTag(repo))) < Colons(repo)
  {
    var c := LastOf(repo, ':');
    var bare := repo[..c];
    assert repo == bare + repo[c..];
    ColonsJoin(bare, repo[c..]);
    SomeColons(repo[c..]);
    ColonsJoin(LIBRARY, bare);
    assert Lacks(LIBRARY, ':');
    NoColons(LIBRARY);
  }

  /** The repository carries no further tag: its only colon, if any, is at its start. */
  predicate HasNoTag(repo: string) {
    LastOf(repo, ':') <= 0
  }

  /** Parsing the value again gives the same reference. */
  predicate IsFixed(normalize: string -> string, r: Ref) {
    ParsePullReference(normalize, Value(r)) == Some(r)
  }

  /** A canonical reference is final exactly when it has a tag, or a digest and no further tag. */
  lemma FixedExactly(normalize: string -> string, r: Ref)
    requires IsCanonical(normalize, r)
    ensures IsFixed(normalize, r) <==> r.TagRef? || HasNoTag(r.repo)
  {
    if r.TagRef? {
      TagIsFixed(normalize, r);
    } else {
      DigestParsedAgain(normalize, r);
      if HasNoTag(r.repo) {
        assert WithLibrary(r.host, WithoutTag(r.repo)) == r.repo;
      } else {
        FewerColons(r.host, r.repo);
      }
    }
  }

  /** At most one colon besides one at the very start: at most one tag. */
  predicate HasOneTagAtMost(repo: string) {
    forall i, j | 0 < i < j < |repo| :: repo[i] != ':' || repo[j] != ':'
  }

  /** The library prefix would be put in front of a leading colon, which then separates a tag. */
  predicate PrefixesColon(normalize: string -> string, host: string, repo: string) {
    repo != "" && repo[0] == ':' && normalize(host) == HUB && Lacks(WithoutTag(repo), '/')
  }

  /** What a caller can see of a reference before parsing it: whether one pass is enough. */
  predicate NeedsOnePass(normalize: string -> string, raw: string) {
    var name := NamePart(Trim(raw));
    DigestPart(Trim(raw)).Some? && Locate(name).Some? ==>
      var (host, repo) := Locate(name).value;
      HasOneTagAtMost(repo) && !PrefixesColon(normalize, host, repo)
  }

  /** Dropping a tag leaves none exactly when there was at most one. */
  lemma OneTagAtMost(repo: string)
    ensures HasNoTag(WithoutTag(repo)) <==> HasOneTagAtMost(repo)
  {
    var c := LastOf(repo, ':');
    if c > 0 {
      var bare := repo[..c];
      var d := LastOf(bare, ':');
      assert forall k | 0 <= k < c :: bare[k] == repo[k];
      if d > 0 { assert repo[d] == ':' && repo[c] == ':'; }
    }
  }

  /** The library prefix adds a tag exactly in front of a leading colon. */
  lemma PrefixedTag(repo: string)
    ensures HasNoTag(LIBRARY + repo) <==> Lacks(repo, ':')
  {
    var more := LIBRARY + repo;
    assert Lacks(LIBRARY, ':');
    assert forall k | 0 <= k < |repo| :: more[8 + k] == repo[k];
    var c := LastOf(more, ':');
    if c >= 0 { assert c >= 8 && repo[c - 8] == ':'; }
  }

  lemma NoTagLeft(normalize: string -> string, host: string, repo: string)
    requires WithoutTag(repo) != ""
    ensures HasNoTag(WithLibrary(normalize(host), WithoutTag(repo))) <==>
      HasOneTagAtMost(repo) && !PrefixesColon(normalize, host, repo)
  {
    var bare := WithoutTag(repo);
    OneTagAtMost(repo);
    PrefixedTag(bare);
    assert bare[0] == repo[0];
    if repo[0] != ':' && HasNoTag(bare) { assert LastOf(bare, ':') == -1; }
  }

  /** Parsing fixes its own output exactly when one pass was enough for the reference given. */
  lemma ParseFixesItsOutput(normalize: string -> string, raw: string)
    requires IsNormaliser(normalize)
    ensures var r := ParsePullReference(normalize, raw);
      r.Some? ==> (IsFixed(normalize, r.value) <==> NeedsOnePass(normalize, raw))
  {
    var r := ParsePullReference(normalize, raw);
    if r.Some? {
      ParsedIsCanonical(normalize, raw);
      FixedExactly(normalize, r.value);
      PartsOf(normalize, raw);
      var located := Locate(NamePart(Trim(raw))).value;
      if r.value.DigestRef? { NoTagLeft(normalize, located.0, located.1); }
    }
  }

  /** A tag in front of a digest is dropped: only the digest is canonical. */
  lemma PinnedTagIsDropped(normalize: string -> string, r: Ref, tag: string)
    requires IsCanonical(normalize, r) && r.DigestRef? && IsTag(tag)
    ensures ParsePullReference(normalize, Join(Join(r.host, '/', Join(r.repo, ':', tag)), '@', r.digest)) == Some(r)
  {
    JoinLacks(r.repo, ':', tag, '@');
    LastOfJoin(r.repo, ':', tag);
    PinnedParses(normalize, r.host, Join(r.repo, ':', tag), r.digest);
  }

  /** With two tags before a digest the parser's output is not final, on any host and for any digest. */
  lemma SecondTagBreaksIt(normalize: string -> string, host: string, digest: string)
    requires IsHost(host) && normalize(host) == host && IsDigest(digest)
    ensures var r := DigestRef(host, "a/b:1", digest);
      && ParsePullReference(normalize, Join(Join(host, '/', "a/b:1:2"), '@', digest)) == Some(r)
      && ParsePullReference(normalize, Value(r)) == Some(DigestRef(host, "a/b", digest))
  {
    var r := DigestRef(host, "a/b:1", digest);
    assert "a/b:1"[1] == '/' && "a/b"[1] == '/';
    assert Lacks("a/b", '@') && Lacks("a/b:1", '@') && Lacks("1", ':') && Lacks("2", ':') && Lacks("2", '@');
    assert Join("a/b", ':', "1") == "a/b:1" && Join("a/b:1", ':', "2") == "a/b:1:2";
    LastOfJoin("a/b", ':', "1");
    PinnedTagIsDropped(normalize, r, "2");
    DigestParsedAgain(normalize, r);
  }

  /** The repository of a reference that starts with a colon, and what becomes of it. */
  lemma ColonRepo()
    ensures IsRepo(HUB, "library/:x") && Lacks(":x", '@') && WithoutTag(":x") == ":x"
    ensures WithLibrary(HUB, ":x") == "library/:x" && WithoutTag("library/:x") == LIBRARY
    ensures WithLibrary(HUB, LIBRARY) == LIBRARY
  {
    LastIs(":x", ':', 0);
    assert Lacks(":x", '@') && Lacks(":x", '/') && Lacks("x", ':');
    assert LIBRARY[7] == '/' && LIBRARY + ":x" == "library/:x" == Join(LIBRARY, ':', "x");
    LastOfJoin(LIBRARY, ':', "x");
    WithLibraryIs(HUB, ":x");
  }

  /** Without any tag, the hub's library prefix in front of a colon is not final either. */
  lemma LeadingColonBreaksIt(normalize: string -> string, digest: string)
    requires normalize(HUB) == HUB && IsDigest(digest)
    ensures var r := DigestRef(HUB, "library/:x", digest);
      && ParsePullReference(normalize, Join(Join(HUB, '/', ":x"), '@', digest)) == Some(r)
      && ParsePullReference(normalize, Value(r)) == Some(DigestRef(HUB, LIBRARY, digest))
  {
    HubIsHost();
    ColonRepo();
    PinnedParses(normalize, HUB, ":x", digest);
    FinishPinned(HUB, ":x", digest);
    DigestParsedAgain(normalize, DigestRef(HUB, "library/:x", digest));
  }

  // ------------------------------------------------------------ defaulted parts

  /** Text with nothing of its own to separate. */
  predicate IsPlain(s: string) {
    s != "" && IsTrimmed(s) && Lacks(s, ':') && Lacks(s, '@')
  }

  lemma FinishPlain(host: string, repo: string)
    requires IsPlain(repo)
    ensures Finish(host, repo, None) == Some(TagRef(host, WithLibrary(host, repo), LATEST))
  {
    assert LastOf(repo, ':') == -1;
  }

  lemma ParsePlain(normalize: string -> string, ref: string)
    requires IsTrimmed(ref) && ref != "" && Lacks(ref, '@') && !IsBareImageId(ref)
    ensures ParsePullReference(normalize, ref) == ParseName(normalize, ref, None)
  {
    assert FirstOf(ref, '@') == |ref|;
  }

  /** A bare name is the hub's official image, tagged latest. */
  lemma BareNameParses(normalize: string -> string, name: string)
    requires normalize(HUB) == HUB && IsPlain(name) && Lacks(name, '/')
    ensures ParsePullReference(normalize, name) == Some(TagRef(HUB, LIBRARY + name, LATEST))
  {
    ParsePlain(normalize, name);
    assert FirstOf(name, '/') == |name|;
    FinishPlain(HUB, name);
  }

  lemma FinishTagged(host: string, repo: string, tag: string)
    requires repo != "" && IsTag(tag)
    ensures Finish(host, Join(repo, ':', tag), None) == Some(TagRef(host, WithLibrary(host, repo), tag))
  {
    LastOfJoin(repo, ':', tag);
  }

  lemma TaggedIsTrimmed(name: string, tag: string)
    requires name != "" && !IsBlank(name[0]) && Lacks(name, '@') && IsTag(tag)
    ensures IsTrimmed(Join(name, ':', tag)) && Lacks(Join(name, ':', tag), '@')
  {
    var ref := Join(name, ':', tag);
    JoinLacks(name, ':', tag, '@');
    JoinAt(name, ':', tag);
    assert tag != "" ==> ref[|name| + 1 + (|tag| - 1)] == tag[|tag| - 1];
  }

  /** With a tag it has exactly that tag, unless the text is a local image id. */
  lemma TaggedNameParses(normalize: string -> string, name: string, tag: string)
    requires normalize(HUB) == HUB && IsPlain(name) && Lacks(name, '/') && IsTag(tag) && Lacks(tag, '/')
    ensures ParsePullReference(normalize, Join(name, ':', tag)) ==
      if IsBareImageId(Join(name, ':', tag)) then None else Some(TagRef(HUB, LIBRARY + name, tag))
  {
    var ref := Join(name, ':', tag);
    TaggedIsTrimmed(name, tag);
    if !IsBareImageId(ref) { ParsePlain(normalize, ref); }
    JoinLacks(name, ':', tag, '/');
    assert FirstOf(ref, '/') == |ref|;
    FinishTagged(HUB, name, tag);
  }

  lemma ImageIdNamed(s: string)
    requires IsBareImageId(s)
    ensures FirstOf(s, ':') == 6
  {
    FirstIs(s, ':', 6);
  }

  /** Only the name `sha256` can be read as a local image id, and then only with a tag of hex digits. */
  lemma ImageIdIs(name: string, tag: string)
    requires IsPlain(name)
    ensures IsBareImageId(Join(name, ':', tag)) <==>
      Lower(name) == "sha256" && tag != "" && forall k | 0 <= k < |tag| :: IsHex(tag[k])
  {
    var ref := Join(name, ':', tag);
    JoinAt(name, ':', tag);
    FirstOfJoin(name, ':', tag);
    if IsBareImageId(ref) {
      ImageIdNamed(ref);
      assert Lower(name) == "sha256";
      forall k | 0 <= k < |tag| ensures IsHex(tag[k]) { assert tag[k] == ref[7 + k]; }
    }
    if Lower(name) == "sha256" && tag != "" && forall k | 0 <= k < |tag| :: IsHex(tag[k]) {
      NamedSha(name);
      forall k | 7 <= k < |ref| ensures IsHex(ref[k]) { assert ref[k] == tag[k - 7]; }
    }
  }

  lemma NamedSha(name: string)
    requires Lower(name) == "sha256"
    ensures |name| == 6 && (name[0] == 's' || name[0] == 'S') && (name[1] == 'h' || name[1] == 'H')
    ensures (name[2] == 'a' || name[2] == 'A') && name[3] == '2' && name[4] == '5' && name[5] == '6'
  {
    assert forall k | 0 <= k < 6 :: LowerChar(name[k]) == "sha256"[k];
  }

  /** A first segment that names no host: it has no dot and is not `localhost`. */
  predicate IsOwner(owner: string) {
    Lacks(owner, '/') && Lacks(owner, '.') && owner != "localhost"
  }

  /** A host is `localhost` or has a dot, or else a port; a port is a number. */
  lemma HostsAre(name: string, port: string)
    requires IsPlain(name) && Lacks(name, '/') && Lacks(port, ':') && Lacks(port, '/') && Lacks(port, '@')
    ensures IsHost(name) <==> name == "localhost" || !Lacks(name, '.')
    ensures IsHost(Join(name, ':', port)) <==> port != "" && forall k | 0 <= k < |port| :: IsDigit(port[k])
  {
    var h := Join(name, ':', port);
    assert LastOf(name, ':') == -1;
    JoinLacks(name, ':', port, '/');
    JoinLacks(name, ':', port, '@');
    LastOfJoin(name, ':', port);
    assert h[|name|] == ':' && h[0] == name[0];
    forall k | 0 <= k < |port| ensures h[|name| + 1 + k] == port[k] { JoinAt(name, ':', port); }
    if forall k | 0 <= k < |port| :: IsDigit(port[k]) {
      forall k | |name| < k < |h| ensures IsDigit(h[k]) { assert h[k] == port[k - |name| - 1]; }
    }
    if PortFits(h) {
      forall k | 0 <= k < |port| ensures IsDigit(port[k]) { assert h[|name| + 1 + k] == port[k]; }
    }
  }

  /** A first segment that cannot be a host belongs to the hub's repository. */
  lemma HubPathParses(normalize: string -> string, owner: string, image: string)
    requires normalize(HUB) == HUB && IsPlain(owner) && IsPlain(image) && IsOwner(owner)
    ensures ParsePullReference(normalize, Join(owner, '/', image)) == Some(TagRef(HUB, Join(owner, '/', image), LATEST))
  {
    var name := Join(owner, '/', image);
    PlainPath(owner, image);
    ParsePlain(normalize, name);
    FirstOfJoin(owner, '/', image);
    FinishPlain(HUB, name);
    assert name[|owner|] == '/';
  }

  lemma LocateOnHub(owner: string, rest: string)
    requires Lacks(owner, '/') && !LooksLikeHost(owner)
    ensures Locate(Join(owner, '/', rest)) == Some((HUB, Join(owner, '/', rest)))
  {
    FirstOfJoin(owner, '/', rest);
  }

  lemma ParseTagged(normalize: string -> string, name: string, tag: string)
    requires name != "" && !IsBlank(name[0]) && Lacks(name, '@') && !Lacks(name, '/') && IsTag(tag)
    ensures ParsePullReference(normalize, Join(name, ':', tag)) == ParseName(normalize, Join(name, ':', tag), None)
  {
    TaggedIsTrimmed(name, tag);
    JoinLacks(name, ':', tag, '/');
    BareImageIdLacksSlash(Join(name, ':', tag));
    ParsePlain(normalize, Join(name, ':', tag));
  }

  lemma TaggedHubPathParses(normalize: string -> string, owner: string, image: string, tag: string)
    requires normalize(HUB) == HUB && IsPlain(owner) && IsPlain(image) && IsOwner(owner)
    requires IsTag(tag)
    ensures ParsePullReference(normalize, Join(Join(owner, '/', image), ':', tag)) ==
      Some(TagRef(HUB, Join(owner, '/', image), tag))
  {
    var name := Join(owner, '/', image);
    PlainPath(owner, image);
    assert name[|owner|] == '/';
    ParseTagged(normalize, name, tag);
    JoinGroups(owner, '/', image, ':', tag);
    LocateOnHub(owner, Join(image, ':', tag));
    FinishTagged(HUB, name, tag);
  }

  /** A host is normalised, and the hub's aliases get the library prefix like the hub. */
  lemma HostedPathParses(normalize: string -> string, host: string, repo: string)
    requires IsHost(host) && IsPlain(repo)
    ensures ParsePullReference(normalize, Join(host, '/', repo)) ==
      Some(TagRef(
        normalize(host), if normalize(host) == HUB && Lacks(repo, '/') then LIBRARY + repo else repo, LATEST))
  {
    var name := Join(host, '/', repo);
    JoinLacks(host, '/', repo, '@');
    LastOfTail(host, repo);
    assert name[|host|] == '/';
    BareImageIdLacksSlash(name);
    ParsePlain(normalize, name);
    LocateAgain(host, repo);
    FinishPlain(normalize(host), repo);
  }

  lemma HostedName(host: string, repo: string)
    requires IsHost(host) && repo != "" && Lacks(repo, '@')
    ensures var name := Join(host, '/', repo); name != "" && name[0] == host[0] && Lacks(name, '@') && !Lacks(name, '/')
  {
    JoinLacks(host, '/', repo, '@');
    JoinAt(host, '/', repo);
    assert Join(host, '/', repo)[|host|] == '/';
  }

  lemma TaggedHostedPathParses(normalize: string -> string, host: string, repo: string, tag: string)
    requires IsHost(host) && repo != "" && Lacks(repo, '@') && IsTag(tag)
    ensures ParsePullReference(normalize, Join(Join(host, '/', repo), ':', tag)) ==
      Some(TagRef(normalize(host), if normalize(host) == HUB && Lacks(repo, '/') then LIBRARY + repo else repo, tag))
  {
    HostedName(host, repo);
    ParseTagged(normalize, Join(host, '/', repo), tag);
    JoinGroups(host, '/', repo, ':', tag);
    LocateAgain(host, Join(repo, ':', tag));
    FinishTagged(normalize(host), repo, tag);
  }

  /** The first segment is a host without a numeric port, or nothing follows it. */
  ghost predicate IsMisplaced(name: string) {
    exists first, rest | name == Join(first, '/', rest) ::
      Lacks(first, '/') && LooksLikeHost(first) && (!PortFits(first) || rest == "")
  }

  lemma MisplacedIs(name: string, first: string, rest: string)
    requires name == Join(first, '/', rest) && Lacks(first, '/')
    ensures Locate(name).None? || Locate(name).value.1 == "" <==>
      LooksLikeHost(first) && (!PortFits(first) || rest == "")
  {
    FirstOfJoin(first, '/', rest);
  }

  lemma LocatedOrMisplaced(name: string)
    requires name != ""
    ensures IsMisplaced(name) <==> Locate(name).None? || Locate(name).value.1 == ""
  {
    var slash := FirstOf(name, '/');
    if slash < |name| {
      var first, rest := name[..slash], name[slash + 1..];
      assert name == Join(first, '/', rest);
      MisplacedIs(name, first, rest);
    }
    if first, rest :| name == Join(first, '/', rest) && Lacks(first, '/') { MisplacedIs(name, first, rest); }
  }

  /** What is not a pull reference: nothing, a local image id, a malformed digest, a host with no port or no name. */
  lemma RefusedExactly(normalize: string -> string, raw: string)
    ensures var ref := Trim(raw);
      ParsePullReference(normalize, raw).None? <==>
        || NamePart(ref) == "" || IsBareImageId(NamePart(ref)) || IsMisplaced(NamePart(ref))
        || (DigestPart(ref).Some? && !IsDigest(DigestPart(ref).value))
  {
    var ref := Trim(raw);
    if NamePart(ref) != "" { LocatedOrMisplaced(NamePart(ref)); }
    if FirstOf(ref, '@') == |ref| { assert NamePart(ref) == ref; }
  }

  /** A digest is an algorithm, a colon and hex digits. */
  lemma DigestIs(algorithm: string, hex: string)
    requires Lacks(algorithm, ':')
    ensures IsDigest(Join(algorithm, ':', hex)) <==>
      && algorithm != "" && hex != ""
      && (forall k | 0 <= k < |algorithm| :: IsAlgorithmChar(algorithm[k]))
      && forall k | 0 <= k < |hex| :: IsHex(hex[k])
  {
    var d := Join(algorithm, ':', hex);
    FirstOfJoin(algorithm, ':', hex);
    JoinAt(algorithm, ':', hex);
    if IsDigest(d) { forall k | 0 <= k < |hex| ensures IsHex(hex[k]) { assert d[|algorithm| + 1 + k] == hex[k]; } }
    if algorithm != "" && forall k | 0 <= k < |hex| :: IsHex(hex[k]) {
      forall k | |algorithm| < k < |d| ensures IsHex(d[k]) { assert d[k] == hex[k - |algorithm| - 1]; }
      forall k | 0 <= k < |algorithm| ensures d[k] == algorithm[k] { }
    }
  }

  lemma PlainPath(owner: string, image: string)
    requires IsPlain(owner) && IsPlain(image)
    ensures IsPlain(Join(owner, '/', image)) && !IsBareImageId(Join(owner, '/', image))
  {
    var name := Join(owner, '/', image);
    JoinLacks(owner, '/', image, '@');
    JoinLacks(owner, '/', image, ':');
    LastOfTail(owner, image);
    assert name[|owner|] == '/';
    BareImageIdLacksSlash(name);
  }

  // ------------------------------------------------------------ probe splitting

  datatype Probe = Probe(host: string, repo: string, tagOrDigest: string)

  /** What follows the host, split at its digest or else at its last colon. */
  function SplitRest(host: string, rest: string): Probe {
    var at, colon := FirstOf(rest, '@'), LastOf(rest, ':');
    if at < |rest| then Probe(host, rest[..at], rest[at + 1..])
    else if colon >= 0 then Probe(host, rest[..colon], rest[colon + 1..])
    else Probe(host, if rest == "" then "" else rest[..|rest| - 1], rest)
  }

  /** The parts a manifest probe needs; none when there is no host. */
  function SplitPullRefForProbe(value: string): Option<Probe> {
    var slash := FirstOf(value, '/');
    if slash == |value| then None else Some(SplitRest(value[..slash], value[slash + 1..]))
  }

  lemma SplitAtSlash(host: string, rest: string)
    requires IsHost(host)
    ensures SplitPullRefForProbe(Join(host, '/', rest)) == Some(SplitRest(host, rest))
  {
    FirstOfJoin(host, '/', rest);
  }

  lemma SplitTag(host: string, repo: string, tag: string)
    requires IsTag(tag) && Lacks(repo, '@')
    ensures SplitRest(host, Join(repo, ':', tag)) == Probe(host, repo, tag)
  {
    JoinLacks(repo, ':', tag, '@');
    LastOfJoin(repo, ':', tag);
  }

  lemma SplitDigest(host: string, repo: string, digest: string)
    requires Lacks(repo, '@')
    ensures SplitRest(host, Join(repo, '@', digest)) == Probe(host, repo, digest)
  {
    FirstOfJoin(repo, '@', digest);
  }

  /** Splitting a canonical value gives back exactly the parts it was printed from. */
  lemma SplitPrintsBack(normalize: string -> string, r: Ref)
    requires IsCanonical(normalize, r)
    ensures SplitPullRefForProbe(Value(r)) == Some(Probe(r.host, r.repo, if r.TagRef? then r.tag else r.digest))
  {
    if r.TagRef? {
      SplitAtSlash(r.host, Join(r.repo, ':', r.tag));
      SplitTag(r.host, r.repo, r.tag);
    } else {
      SplitAtSlash(r.host, Join(r.repo, '@', r.digest));
      SplitDigest(r.host, r.repo, r.digest);
    }
  }

  // ---------------------------------------------------------- the list of refs

  /** The text of a reference, canonicalised. */
  function Canonical(normalize: string -> string, raw: string): Option<string> {
    var r := ParsePullReference(normalize, raw);
    if r.None? then None else Some(Value(r.value))
  }

  function Canonicaliser(normalize: string -> string): string -> Option<string> {
    raw => Canonical(normalize, raw)
  }

  /** The canonical values, each once, in order of appearance. */
  function Distinct(canonical: string -> Option<string>, refs: seq<string>): seq<string> {
    if refs == [] then []
    else
      var init := Distinct(canonical, refs[..|refs| - 1]);
      var v := canonical(refs[|refs| - 1]);
      if v.None? || v.value in init then init else init + [v.value]
  }

  function Insert(xs: seq<string>, x: string): seq<string> {
    if xs == [] || !Less(x, xs[|xs| - 1]) then xs + [x] else Insert(xs[..|xs| - 1], x) + [xs[|xs| - 1]]
  }

  function Sort(xs: seq<string>): seq<string> {
    if xs == [] then [] else Insert(Sort(xs[..|xs| - 1]), xs[|xs| - 1])
  }

  predicate Follows(xs: seq<string>, x: string) {
    xs == [] || !Less(x, xs[|xs| - 1])
  }

  predicate IsSorted(xs: seq<string>) {
    xs == [] || (IsSorted(xs[..|xs| - 1]) && Follows(xs[..|xs| - 1], xs[|xs| - 1]))
  }

  lemma SortedMore(xs: seq<string>, x: string)
    requires IsSorted(xs) && Follows(xs, x)
    ensures IsSorted(xs + [x])
  {
    assert (xs + [x])[..|xs|] == xs;
  }

  lemma {:induction false} InsertSorts(xs: seq<string>, x: string)
    requires IsSorted(xs)
    ensures IsSorted(Insert(xs, x))
    ensures forall y | Follows(xs, y) && !Less(y, x) :: Follows(Insert(xs, x), y)
  {
    if Follows(xs, x) {
      SortedMore(xs, x);
    } else {
      var init, last := xs[..|xs| - 1], xs[|xs| - 1];
      InsertSorts(init, x);
      LessIsAsymmetric(x, last);
      SortedMore(Insert(init, x), last);
    }
  }

  lemma {:induction false} InsertKeeps(xs: seq<string>, x: string)
    ensures multiset(Insert(xs, x)) == multiset(xs) + multiset{x}
  {
    if !Follows(xs, x) {
      InsertKeeps(xs[..|xs| - 1], x);
      assert xs == xs[..|xs| - 1] + [xs[|xs| - 1]];
    }
  }

  lemma {:induction false} SortOrders(xs: seq<string>)
    ensures IsSorted(Sort(xs))
  {
    if xs != [] {
      SortOrders(xs[..|xs| - 1]);
      InsertSorts(Sort(xs[..|xs| - 1]), xs[|xs| - 1]);
    }
  }

  lemma {:induction false} SortKeeps(xs: seq<string>)
    ensures multiset(Sort(xs)) == multiset(xs)
  {
    if xs != [] {
      SortKeeps(xs[..|xs| - 1]);
      InsertKeeps(Sort(xs[..|xs| - 1]), xs[|xs| - 1]);
      assert xs == xs[..|xs| - 1] + [xs[|xs| - 1]];
    }
  }

  lemma {:induction false} SortKeepsSorted(xs: seq<string>)
    requires IsSorted(xs)
    ensures Sort(xs) == xs
  {
    if xs != [] {
      SortKeepsSorted(xs[..|xs| - 1]);
      assert xs == xs[..|xs| - 1] + [xs[|xs| - 1]];
    }
  }

  datatype RefList = Listed(values: seq<string>) | TooMany

  /** `size` is the byte length of a list as JSON. */
  function NormalizedList(canonical: string -> Option<string>, size: seq<string> -> nat, refs: seq<string>): RefList {
    var values := Distinct(canonical, refs);
    if |values| > MAX_COUNT || size(Sort(values)) > MAX_BYTES then TooMany else Listed(Sort(values))
  }

  lemma {:induction false} DistinctGrows(canonical: string -> Option<string>, refs: seq<string>, i: nat)
    requires i <= |refs|
    ensures |Distinct(canonical, refs[..i])| <= |Distinct(canonical, refs)|
    decreases |refs|
  {
    if i < |refs| {
      DistinctGrows(canonical, refs[..|refs| - 1], i);
      assert refs[..|refs| - 1][..i] == refs[..i];
    } else {
      assert refs[..i] == refs;
    }
  }

  /** Canonicalises, removes repeats, sorts, and bounds the count and the size. */
  method NormalizePullRefList(canonical: string -> Option<string>, size: seq<string> -> nat, refs: seq<string>)
    returns (r: RefList)
    ensures r == NormalizedList(canonical, size, refs)
  {
    var seen: set<string> := {};
    var out: seq<string> := [];
    for i := 0 to |refs|
      invariant out == Distinct(canonical, refs[..i]) && |out| <= MAX_COUNT && seen == set v | v in out
    {
      assert refs[..i + 1][..i] == refs[..i];
      var v := canonical(refs[i]);
      if v.Some? && v.value !in seen {
        seen := seen + {v.value};
        out := out + [v.value];
        if |out| > MAX_COUNT {
          DistinctGrows(canonical, refs, i + 1);
          return TooMany;
        }
      }
    }
    assert refs[..|refs|] == refs;
    out := Sort(out);
    r := if size(out) > MAX_BYTES then TooMany else Listed(out);
  }

  // ----------------------------------------------- canonicalising a list again

  lemma {:induction false} DistinctHas(canonical: string -> Option<string>, refs: seq<string>)
    ensures IsDistinct(Distinct(canonical, refs))
    ensures forall v :: v in Distinct(canonical, refs) <==> exists i | 0 <= i < |refs| :: canonical(refs[i]) == Some(v)
  {
    if refs != [] {
      var init := refs[..|refs| - 1];
      DistinctHas(canonical, init);
      assert forall i | 0 <= i < |init| :: init[i] == refs[i];
      forall v ensures v in Distinct(canonical, refs) <==> exists i | 0 <= i < |refs| :: canonical(refs[i]) == Some(v) {
        if v in Distinct(canonical, init) {
          var i :| 0 <= i < |init| && canonical(init[i]) == Some(v);
          assert canonical(refs[i]) == Some(v);
        }
        if i :| 0 <= i < |refs| && canonical(refs[i]) == Some(v) {
          if i < |init| { assert canonical(init[i]) == Some(v); }
        }
      }
    }
  }

  lemma {:induction false} DistinctOfFixed(canonical: string -> Option<string>, xs: seq<string>)
    requires IsDistinct(xs) && forall i | 0 <= i < |xs| :: canonical(xs[i]) == Some(xs[i])
    ensures Distinct(canonical, xs) == xs
  {
    if xs != [] {
      var init := xs[..|xs| - 1];
      assert forall i | 0 <= i < |init| :: init[i] == xs[i];
      DistinctOfFixed(canonical, init);
      assert xs == init + [xs[|xs| - 1]];
    }
  }

  lemma NoRepeatsInMultiset(xs: seq<string>, ys: seq<string>)
    requires IsDistinct(xs) && multiset(ys) == multiset(xs)
    ensures IsDistinct(ys)
  {
    forall i, j | 0 <= i < j < |ys| ensures ys[i] != ys[j] {
      if ys[i] == ys[j] {
        TwiceInMultiset(ys, i, j);
        OnceInMultiset(xs, ys[i]);
      }
    }
  }

  lemma TwiceInMultiset(ys: seq<string>, i: nat, j: nat)
    requires i < j < |ys| && ys[i] == ys[j]
    ensures multiset(ys)[ys[i]] >= 2
  {
    assert ys == ys[..j] + [ys[j]] + ys[j + 1..];
    assert ys[i] in ys[..j] by { assert ys[..j][i] == ys[i]; }
  }

  lemma {:induction false} OnceInMultiset(xs: seq<string>, x: string)
    requires IsDistinct(xs)
    ensures multiset(xs)[x] <= 1
  {
    if xs != [] {
      var init, last := xs[..|xs| - 1], xs[|xs| - 1];
      assert forall i | 0 <= i < |init| :: init[i] == xs[i];
      OnceInMultiset(init, x);
      assert xs == init + [last];
      assert last !in init;
      assert last !in multiset(init);
    }
  }

  /** What the list holds: canonical values, each once, in order. */
  lemma ListedIs(canonical: string -> Option<string>, size: seq<string> -> nat, refs: seq<string>)
    requires NormalizedList(canonical, size, refs).Listed?
    ensures var values := NormalizedList(canonical, size, refs).values;
      && IsSorted(values) && IsDistinct(values) && |values| <= MAX_COUNT && size(values) <= MAX_BYTES
      && forall v :: v in values <==> exists i | 0 <= i < |refs| :: canonical(refs[i]) == Some(v)
  {
    var distinct := Distinct(canonical, refs);
    var values := Sort(distinct);
    DistinctHas(canonical, refs);
    SortOrders(distinct);
    SortKeeps(distinct);
    NoRepeatsInMultiset(distinct, values);
    assert |values| == |multiset(values)| == |multiset(distinct)| == |distinct|;
    forall v ensures v in values <==> v in distinct {
      assert v in multiset(values) <==> v in multiset(distinct);
    }
  }

  lemma ColonsOfValue(r: Ref)
    requires r.DigestRef?
    ensures Colons(Value(r)) == Colons(r.host) + Colons(r.repo) + Colons(r.digest)
  {
    var rest := Join(r.repo, '@', r.digest);
    ColonsJoin(r.host + ['/'], rest);
    ColonsJoin(r.host, ['/']);
    ColonsJoin(r.repo + ['@'], r.digest);
    ColonsJoin(r.repo, ['@']);
    NoColons(['/']);
    NoColons(['@']);
  }

  /** A canonical value that is not final parses to one with fewer colons. */
  lemma ColonsDrop(normalize: string -> string, r: Ref)
    requires IsCanonical(normalize, r)
    ensures var again := Canonical(normalize, Value(r));
      again.Some? && if IsFixed(normalize, r) then again.value == Value(r) else Colons(again.value) < Colons(Value(r))
  {
    FixedExactly(normalize, r);
    if r.DigestRef? && !HasNoTag(r.repo) {
      DigestParsedAgain(normalize, r);
      FewerColons(r.host, r.repo);
      ColonsOfValue(r);
      ColonsOfValue(DigestRef(r.host, WithLibrary(r.host, WithoutTag(r.repo)), r.digest));
    }
  }

  function TotalColons(xs: seq<string>): nat {
    if xs == [] then 0 else TotalColons(xs[..|xs| - 1]) + Colons(xs[|xs| - 1])
  }

  lemma {:induction false} ColonsBelowTotal(xs: seq<string>, i: nat)
    requires i < |xs|
    ensures Colons(xs[i]) <= TotalColons(xs)
  {
    if i < |xs| - 1 { ColonsBelowTotal(xs[..|xs| - 1], i); }
  }

  /** The text comes back as itself or with fewer colons. */
  predicate DropsColons(canonical: string -> Option<string>, x: string) {
    canonical(x).Some? && (canonical(x).value == x || Colons(canonical(x).value) < Colons(x))
  }

  lemma ComesFrom(canonical: string -> Option<string>, xs: seq<string>, x: string) returns (j: nat)
    requires x in Distinct(canonical, xs)
    ensures j < |xs| && canonical(xs[j]) == Some(x)
  {
    DistinctHas(canonical, xs);
    j :| 0 <= j < |xs| && canonical(xs[j]) == Some(x);
  }

  /** Each value comes from a value, and coming from another one costs colons: so each comes from itself. */
  lemma {:induction false} AllFixed(canonical: string -> Option<string>, xs: seq<string>, i: nat)
    requires forall k | 0 <= k < |xs| :: DropsColons(canonical, xs[k]) && xs[k] in Distinct(canonical, xs)
    requires i < |xs|
    ensures canonical(xs[i]) == Some(xs[i])
    decreases TotalColons(xs) - Colons(xs[i])
  {
    var j := ComesFrom(canonical, xs, xs[i]);
    assert DropsColons(canonical, xs[j]);
    if xs[j] != xs[i] {
      ColonsBelowTotal(xs, i);
      ColonsBelowTotal(xs, j);
      AllFixed(canonical, xs, j);
    }
  }

  ghost predicate ValuesAreFixed(canonical: string -> Option<string>, values: seq<string>) {
    forall i | 0 <= i < |values| :: canonical(values[i]) == Some(values[i])
  }

  /** A list the canonicaliser can produce and leaves as it is. */
  ghost predicate IsFinal(canonical: string -> Option<string>, size: seq<string> -> nat, xs: seq<string>) {
    IsSorted(xs) && IsDistinct(xs) && |xs| <= MAX_COUNT && size(xs) <= MAX_BYTES && ValuesAreFixed(canonical, xs)
  }

  lemma ReproducedIsFixed(normalize: string -> string, size: seq<string> -> nat, xs: seq<string>)
    requires IsNormaliser(normalize) && NormalizedList(Canonicaliser(normalize), size, xs) == Listed(xs)
    ensures ValuesAreFixed(Canonicaliser(normalize), xs)
  {
    var canonical := Canonicaliser(normalize);
    forall k | 0 <= k < |xs|
      ensures DropsColons(canonical, xs[k]) && xs[k] in Distinct(canonical, xs)
    {
      SortKeeps(Distinct(canonical, xs));
      assert xs[k] in multiset(xs);
      var i := ComesFrom(canonical, xs, xs[k]);
      ParsedIsCanonical(normalize, xs[i]);
      ColonsDrop(normalize, ParsePullReference(normalize, xs[i]).value);
    }
    forall i | 0 <= i < |xs| ensures canonical(xs[i]) == Some(xs[i]) { AllFixed(canonical, xs, i); }
  }

  /** A list is reproduced exactly when it is sorted, distinct, within the caps and each of its values is final. */
  lemma ReproducedExactly(normalize: string -> string, size: seq<string> -> nat, xs: seq<string>)
    requires IsNormaliser(normalize)
    ensures NormalizedList(Canonicaliser(normalize), size, xs) == Listed(xs) <==>
      IsFinal(Canonicaliser(normalize), size, xs)
  {
    var canonical := Canonicaliser(normalize);
    if NormalizedList(canonical, size, xs) == Listed(xs) {
      ListedIs(canonical, size, xs);
      ReproducedIsFixed(normalize, size, xs);
    }
    if IsFinal(canonical, size, xs) {
      DistinctOfFixed(canonical, xs);
      SortKeepsSorted(xs);
    }
  }

  /** One pass is enough for every reference that parses. */
  ghost predicate AllNeedOnePass(normalize: string -> string, refs: seq<string>) {
    forall i | 0 <= i < |refs| && ParsePullReference(normalize, refs[i]).Some? :: NeedsOnePass(normalize, refs[i])
  }

  lemma ValueIsFixed(normalize: string -> string, raw: string)
    requires IsNormaliser(normalize) && ParsePullReference(normalize, raw).Some?
    ensures var v := Value(ParsePullReference(normalize, raw).value);
      Canonical(normalize, v) == Some(v) <==> NeedsOnePass(normalize, raw)
  {
    ParsedIsCanonical(normalize, raw);
    ParseFixesItsOutput(normalize, raw);
    ColonsDrop(normalize, ParsePullReference(normalize, raw).value);
  }

  /**
    A canonical list is reproduced by a second pass exactly when one pass was enough for each
    reference it was made from.
  */
  lemma ListIsReproduced(normalize: string -> string, size: seq<string> -> nat, refs: seq<string>)
    requires IsNormaliser(normalize) && NormalizedList(Canonicaliser(normalize), size, refs).Listed?
    ensures var values := NormalizedList(Canonicaliser(normalize), size, refs).values;
      NormalizedList(Canonicaliser(normalize), size, values) == Listed(values) <==> AllNeedOnePass(normalize, refs)
  {
    var canonical := Canonicaliser(normalize);
    var values := NormalizedList(canonical, size, refs).values;
    ListedIs(canonical, size, refs);
    ReproducedExactly(normalize, size, values);
    if ValuesAreFixed(canonical, values) {
      forall i | 0 <= i < |refs| && ParsePullReference(normalize, refs[i]).Some?
        ensures NeedsOnePass(normalize, refs[i])
      {
        ValueIsFixed(normalize, refs[i]);
        var v := canonical(refs[i]).value;
        assert v in values;
        var k :| 0 <= k < |values| && values[k] == v;
      }
    }
    if AllNeedOnePass(normalize, refs) {
      forall k | 0 <= k < |values| ensures canonical(values[k]) == Some(values[k]) {
        assert values[k] in values;
        var i :| 0 <= i < |refs| && canonical(refs[i]) == Some(values[k]);
        ValueIsFixed(normalize, refs[i]);
      }
    }
  }

  /** The discover response's check: the list must come back unchanged, position by position. */
  method AcceptsList(canonical: string -> Option<string>, size: seq<string> -> nat, refs: seq<string>)
    returns (ok: bool)
    ensures ok <==> NormalizedList(canonical, size, refs) == Listed(refs)
  {
    var again := NormalizePullRefList(canonical, size, refs);
    if again.TooMany? || |again.values| != |refs| { return false; }
    for i := 0 to |refs|
      invariant again.values[..i] == refs[..i]
    {
      if again.values[i] != refs[i] { return false; }
    }
    assert again.values[..|refs|] == again.values && refs[..|refs|] == refs;
    ok := true;
  }

  /**
    A list built by the target and checked by its peer: accepted exactly when one pass was
    enough for every reference.
  */
  method DiscoverRoundTrip(normalize: string -> string, size: seq<string> -> nat, refs: seq<string>) returns (ok: bool)
    requires IsNormaliser(normalize)
    ensures ok <==> NormalizedList(Canonicaliser(normalize), size, refs).Listed? && AllNeedOnePass(normalize, refs)
  {
    var sent := NormalizePullRefList(Canonicaliser(normalize), size, refs);
    if sent.TooMany? { return false; }
    ListIsReproduced(normalize, size, refs);
    ok := AcceptsList(Canonicaliser(normalize), size, sent.values);
  }
}
