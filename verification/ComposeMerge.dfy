/**
  Merging the parsed layers of a multi-file Compose run in load order. Lists that
  are only ever unioned are sets; everything else is exact.
*/
module ComposeMerge {
  import opened Common

  // ------------------------------------------------------- environment keys

  /** One `environment` entry: its key, and whether it was written with a value. */
  datatype Mention = Mention(key: string, valued: bool)

  datatype EnvironmentKeys = EnvironmentKeys(isSet: seq<string>, unset: seq<string>, needsLookup: bool)

  /** The names the interpolation environment answers; none when there is no lookup. */
  type Lookup = Option<set<string>>

  /** A key without a value counts as set unless a lookup fails to answer it. */
  predicate Sets(m: Mention, lookup: Lookup) {
    m.valued || lookup.None? || m.key in lookup.value
  }

  function EqualsAt(text: string): (at: nat)
    ensures at <= |text| && (at < |text| ==> text[at] == '=')
    ensures forall k | 0 <= k < at :: text[k] != '='
  {
    if text == "" then 0
    else if text[0] == '=' then 0
    else
      1 + EqualsAt(text[1..])
  }

  /** A list entry `KEY=value` or `KEY`. */
  function MentionOf(text: string): Mention {
    var eq := EqualsAt(text);
    Mention(text[..eq], eq < |text|)
  }

  /** The first equals sign ends the key, whatever the value holds. */
  lemma EntryIsRead(key: string, value: string)
    requires '=' !in key
    ensures MentionOf(key) == Mention(key, false) && MentionOf(key + "=" + value) == Mention(key, true)
  {
    var text := key + "=" + value;
    assert text[|key|] == '=' && forall k | 0 <= k < |key| :: text[k] == key[k];
    assert EqualsAt(text) == |key|;
  }

  /** An `environment` as parsed: a list, whose entries may be other than text, a mapping, or anything else. */
  datatype Environment = EntryList(entries: seq<Option<string>>) | EntryMap(pairs: seq<Mention>) | NoEntries

  function ListMentions(entries: seq<Option<string>>): seq<Mention> {
    if entries == [] then []
    else
      var last := entries[|entries| - 1];
      ListMentions(entries[..|entries| - 1]) + if last.Some? then [MentionOf(last.value)] else []
  }

  function Mentions(env: Environment): seq<Mention> {
    match env
    case EntryList(entries) => ListMentions(entries)
    case EntryMap(pairs) => pairs
    case NoEntries => []
  }

  /** The last entry that names the key, as set or unset. */
  function LastMention(ms: seq<Mention>, lookup: Lookup, key: string): Option<bool> {
    if ms == [] then None
    else
      var last := ms[|ms| - 1];
      if last.key == key && key != "" then Some(Sets(last, lookup)) else LastMention(ms[..|ms| - 1], lookup, key)
  }

  /**
    The last entry of a key decides: with a value it is set, without one exactly when the
    variable of that name is, or when there is nothing to look it up in.
  */
  lemma LastEntryDecides(ms: seq<Mention>, m: Mention, lookup: Lookup)
    requires m.key != ""
    ensures LastMention(ms + [m], lookup, m.key) == Some(m.valued || (lookup.Some? ==> m.key in lookup.value))
    ensures forall k | k != m.key :: LastMention(ms + [m], lookup, k) == LastMention(ms, lookup, k)
  {
    assert (ms + [m])[..|ms|] == ms;
  }

  /** Removes the one occurrence of the key, if it is there. */
  method Splice(xs: seq<string>, key: string) returns (r: seq<string>)
    requires IsDistinct(xs)
    ensures IsDistinct(r) && forall x :: x in r <==> x in xs && x != key
  {
    for at := 0 to |xs|
      invariant key !in xs[..at]
    {
      if xs[at] == key {
        r := xs[..at] + xs[at + 1..];
        assert forall i | 0 <= i < |r| :: r[i] == if i < at then xs[i] else xs[i + 1];
        forall x ensures x in r <==> x in xs && x != key {
          if x in xs && x != key {
            var i :| 0 <= i < |xs| && xs[i] == x;
            assert r[if i < at then i else i - 1] == x;
          }
        }
        return;
      }
    }
    assert xs[..|xs|] == xs;
    r := xs;
  }

  /** Puts the key into one list and takes it out of the other. */
  method Place(into: seq<string>, from: seq<string>, key: string) returns (newInto: seq<string>, newFrom: seq<string>)
    requires IsDistinct(into) && IsDistinct(from)
    ensures IsDistinct(newInto) && forall x :: x in newInto <==> x in into || x == key
    ensures IsDistinct(newFrom) && forall x :: x in newFrom <==> x in from && x != key
  {
    newFrom := Splice(from, key);
    newInto := if key in into then into else into + [key];
  }

  ghost predicate KeysTell(keys: EnvironmentKeys, ms: seq<Mention>, lookup: Lookup) {
    && IsDistinct(keys.isSet) && IsDistinct(keys.unset)
    && (forall k :: k in keys.isSet <==> LastMention(ms, lookup, k) == Some(true))
    && (forall k :: k in keys.unset <==> LastMention(ms, lookup, k) == Some(false))
    && (keys.needsLookup <==> exists m | m in ms :: m.key != "" && !m.valued)
  }

  lemma KeysNext(keys: EnvironmentKeys, ms: seq<Mention>, lookup: Lookup, m: Mention, next: EnvironmentKeys)
    requires KeysTell(keys, ms, lookup) && m.key != "" && IsDistinct(next.isSet) && IsDistinct(next.unset)
    requires forall x :: x in next.isSet <==> if x == m.key then Sets(m, lookup) else x in keys.isSet
    requires forall x :: x in next.unset <==> if x == m.key then !Sets(m, lookup) else x in keys.unset
    requires next.needsLookup == (keys.needsLookup || !m.valued)
    ensures KeysTell(next, ms + [m], lookup)
  {
    assert (ms + [m])[..|ms|] == ms;
  }

  lemma KeysSame(keys: EnvironmentKeys, ms: seq<Mention>, lookup: Lookup, m: Mention)
    requires KeysTell(keys, ms, lookup) && m.key == ""
    ensures KeysTell(keys, ms + [m], lookup)
  {
    assert (ms + [m])[..|ms|] == ms;
  }

  /** Takes one more entry into account. */
  method Add(keys: EnvironmentKeys, ghost ms: seq<Mention>, lookup: Lookup, m: Mention) returns (next: EnvironmentKeys)
    requires KeysTell(keys, ms, lookup)
    ensures KeysTell(next, ms + [m], lookup)
  {
    if m.key == "" {
      KeysSame(keys, ms, lookup, m);
      return keys;
    }
    var into, from;
    if Sets(m, lookup) {
      into, from := Place(keys.isSet, keys.unset, m.key);
      next := EnvironmentKeys(into, from, keys.needsLookup || !m.valued);
    } else {
      into, from := Place(keys.unset, keys.isSet, m.key);
      next := EnvironmentKeys(from, into, true);
    }
    KeysNext(keys, ms, lookup, m, next);
  }

  lemma ListMentionsNext(entries: seq<Option<string>>, i: nat)
    requires i < |entries|
    ensures ListMentions(entries[..i + 1])
         == if entries[i].Some? then ListMentions(entries[..i]) + [MentionOf(entries[i].value)]
           else ListMentions(entries[..i])
  {
    assert entries[..i + 1][..i] == entries[..i];
  }

  method ReadList(entries: seq<Option<string>>, lookup: Lookup) returns (keys: EnvironmentKeys)
    ensures KeysTell(keys, ListMentions(entries), lookup)
  {
    keys := EnvironmentKeys([], [], false);
    for i := 0 to |entries|
      invariant KeysTell(keys, ListMentions(entries[..i]), lookup)
    {
      ListMentionsNext(entries, i);
      if entries[i].Some? {
        keys := Add(keys, ListMentions(entries[..i]), lookup, MentionOf(entries[i].value));
      }
    }
    assert entries[..|entries|] == entries;
  }

  method ReadMapping(pairs: seq<Mention>, lookup: Lookup) returns (keys: EnvironmentKeys)
    ensures KeysTell(keys, pairs, lookup)
  {
    keys := EnvironmentKeys([], [], false);
    for i := 0 to |pairs|
      invariant KeysTell(keys, pairs[..i], lookup)
    {
      assert pairs[..i + 1] == pairs[..i] + [pairs[i]];
      keys := Add(keys, pairs[..i], lookup, pairs[i]);
    }
    assert pairs[..|pairs|] == pairs;
  }

  /** A key is in exactly the list its last entry puts it in. */
  method ReadEnvironment(env: Environment, lookup: Lookup) returns (keys: EnvironmentKeys)
    ensures KeysTell(keys, Mentions(env), lookup)
  {
    match env
    case EntryList(entries) => keys := ReadList(entries, lookup);
    case EntryMap(pairs) => keys := ReadMapping(pairs, lookup);
    case NoEntries => keys := EnvironmentKeys([], [], false);
  }

  // ----------------------------------------------------------------- layers

  datatype Service = Service(
    dependsOn: set<string>, networks: set<string>, volumes: set<string>, ports: seq<string>,
    image: Option<string>, networkMode: Option<string>,
    envKeys: set<string>, unsetEnvKeys: set<string>, envFiles: seq<string>,
    commandHints: seq<string>, commandDeclared: bool,
    entrypointHints: seq<string>, entrypointDeclared: bool,
    tailscaleFlags: seq<string>, tailscaleArgsDeclared: bool,
    binds: set<string>, capAdd: set<string>, devices: set<string>,
    needsInterpolation: bool, unresolvedDetection: bool, restart: Option<string>)

  datatype Resource = Resource(name: Option<string>, external: bool)

  datatype Compose =
    | Failed(error: string)
    | Compose(
        services: map<string, Service>, networks: map<string, Resource>, volumes: map<string, Resource>,
        projectName: Option<string>, hasInclude: bool, hasExtends: bool, hasLayerTags: bool)

  const NOTHING := Compose(map[], map[], map[], None, false, false, false)

  function Later<T>(next: Option<T>, prior: Option<T>): Option<T> {
    if next.Some? then next else prior
  }

  function MergeResource(prior: Resource, next: Resource): Resource {
    Resource(Later(next.name, prior.name), prior.external || next.external)
  }

  /** A later declaration of a service over an earlier one. */
  function MergeService(prior: Service, svc: Service): Service {
    Service(
      prior.dependsOn + svc.dependsOn, prior.networks + svc.networks, prior.volumes + svc.volumes,
      prior.ports + svc.ports,
      Later(svc.image, prior.image), Later(svc.networkMode, prior.networkMode),
      (prior.envKeys - svc.unsetEnvKeys) + svc.envKeys,
      (prior.unsetEnvKeys - svc.envKeys) + svc.unsetEnvKeys,
      prior.envFiles + svc.envFiles,
      if svc.commandDeclared then svc.commandHints else prior.commandHints,
      prior.commandDeclared || svc.commandDeclared,
      if svc.entrypointDeclared then svc.entrypointHints else prior.entrypointHints,
      prior.entrypointDeclared || svc.entrypointDeclared,
      if svc.tailscaleArgsDeclared then svc.tailscaleFlags else prior.tailscaleFlags,
      prior.tailscaleArgsDeclared || svc.tailscaleArgsDeclared,
      prior.binds + svc.binds, prior.capAdd + svc.capAdd, prior.devices + svc.devices,
      prior.needsInterpolation || svc.needsInterpolation, prior.unresolvedDetection || svc.unresolvedDetection,
      Later(svc.restart, prior.restart))
  }

  /** Entries of both maps, merged where both have one. */
  function MergeMaps<T>(a: map<string, T>, b: map<string, T>, merge: (T, T) -> T): (r: map<string, T>)
    ensures r.Keys == a.Keys + b.Keys
    ensures forall k | k in r :: r[k] == if k !in a then b[k] else if k !in b then a[k] else merge(a[k], b[k])
  {
    map k | k in a.Keys + b.Keys :: if k !in a then b[k] else if k !in b then a[k] else merge(a[k], b[k])
  }

  /** Two layers in load order; a layer that could not be parsed decides. */
  function Merge(a: Compose, b: Compose): Compose {
    if a.Failed? then a
    else if b.Failed? then b
    else Compose(
      MergeMaps(a.services, b.services, MergeService),
      MergeMaps(a.networks, b.networks, MergeResource),
      MergeMaps(a.volumes, b.volumes, MergeResource),
      Later(b.projectName, a.projectName), a.hasInclude || b.hasInclude, a.hasExtends || b.hasExtends,
      a.hasLayerTags || b.hasLayerTags)
  }

  function MergeAll(layers: seq<Compose>): Compose {
    if layers == [] then NOTHING else Merge(MergeAll(layers[..|layers| - 1]), layers[|layers| - 1])
  }

  // --------------------------------------------------------- the merge's loops

  /** Adds the entries of a layer one at a time. */
  method AddEntries<T>(into: map<string, T>, from: map<string, T>, merge: (T, T) -> T) returns (r: map<string, T>)
    ensures r == MergeMaps(into, from, merge)
  {
    r := into;
    var rest := from.Keys;
    while rest != {}
      invariant rest <= from.Keys && r.Keys == into.Keys + (from.Keys - rest)
      invariant forall k | k in r && k !in rest :: r[k] == MergeMaps(into, from, merge)[k]
      invariant forall k | k in rest && k in into :: r[k] == into[k]
    {
      var k :| k in rest;
      r := r[k := if k in r then merge(r[k], from[k]) else from[k]];
      rest := rest - {k};
    }
  }

  /** The first failed layer decides a merge. */
  lemma MergeFailed(a: Compose, b: Compose)
    ensures a.Failed? ==> Merge(a, b) == a
    ensures !a.Failed? && b.Failed? ==> Merge(a, b) == b
    ensures Merge(a, b).Failed? <==> a.Failed? || b.Failed?
  {
  }

  lemma {:induction false} FirstFailure(layers: seq<Compose>, i: nat)
    requires i < |layers| && layers[i].Failed? && forall j | 0 <= j < i :: !layers[j].Failed?
    ensures MergeAll(layers) == layers[i]
  {
    var init, last := layers[..|layers| - 1], layers[|layers| - 1];
    assert layers == init + [last];
    MergeAllLast(init, last);
    MergeFailed(MergeAll(init), last);
    if i < |init| {
      FirstFailure(init, i);
    } else {
      NoFailure(init);
    }
  }

  lemma {:induction false} NoFailure(layers: seq<Compose>)
    requires forall j | 0 <= j < |layers| :: !layers[j].Failed?
    ensures !MergeAll(layers).Failed?
  {
    if layers != [] { NoFailure(layers[..|layers| - 1]); }
  }

  method MergeDeclaredCompose(layers: seq<Compose>) returns (r: Compose)
    ensures r == MergeAll(layers)
  {
    for i := 0 to |layers|
      invariant forall j | 0 <= j < i :: !layers[j].Failed?
    {
      if layers[i].Failed? {
        FirstFailure(layers, i);
        return layers[i];
      }
    }
    r := NOTHING;
    for i := 0 to |layers|
      invariant r == MergeAll(layers[..i]) && !r.Failed?
    {
      var layer := layers[i];
      assert layers[..i + 1][..i] == layers[..i];
      var networks := AddEntries(r.networks, layer.networks, MergeResource);
      var volumes := AddEntries(r.volumes, layer.volumes, MergeResource);
      var services := AddEntries(r.services, layer.services, MergeService);
      r := Compose(services, networks, volumes, Later(layer.projectName, r.projectName),
                   r.hasInclude || layer.hasInclude, r.hasExtends || layer.hasExtends,
                   r.hasLayerTags || layer.hasLayerTags);
    }
    assert layers[..|layers|] == layers;
  }

  // ----------------------------------------------------------- associativity

  lemma ServiceAssociative(a: Service, b: Service, c: Service)
    ensures MergeService(MergeService(a, b), c) == MergeService(a, MergeService(b, c))
  {
    var l, r := MergeService(MergeService(a, b), c), MergeService(a, MergeService(b, c));
    assert l.dependsOn == r.dependsOn && l.networks == r.networks && l.volumes == r.volumes;
    assert l.ports == r.ports && l.envFiles == r.envFiles;
    assert l.envKeys == r.envKeys && l.unsetEnvKeys == r.unsetEnvKeys;
    assert l.binds == r.binds && l.capAdd == r.capAdd && l.devices == r.devices;
  }

  lemma MapsAssociative<T>(a: map<string, T>, b: map<string, T>, c: map<string, T>, merge: (T, T) -> T)
    requires forall x, y, z :: merge(merge(x, y), z) == merge(x, merge(y, z))
    ensures MergeMaps(MergeMaps(a, b, merge), c, merge) == MergeMaps(a, MergeMaps(b, c, merge), merge)
  {
  }

  /** Merging layers is associative. */
  lemma MergeAssociative(a: Compose, b: Compose, c: Compose)
    ensures Merge(Merge(a, b), c) == Merge(a, Merge(b, c))
  {
    forall x, y, z ensures MergeService(MergeService(x, y), z) == MergeService(x, MergeService(y, z)) {
      ServiceAssociative(x, y, z);
    }
    if !a.Failed? && !b.Failed? && !c.Failed? {
      MapsAssociative(a.services, b.services, c.services, MergeService);
      MapsAssociative(a.networks, b.networks, c.networks, MergeResource);
      MapsAssociative(a.volumes, b.volumes, c.volumes, MergeResource);
    }
  }

  lemma MergeNothing(a: Compose)
    ensures Merge(a, NOTHING) == a == Merge(NOTHING, a)
  {
    if !a.Failed? {
      assert MergeMaps(a.services, map[], MergeService) == a.services == MergeMaps(map[], a.services, MergeService);
      assert MergeMaps(a.networks, map[], MergeResource) == a.networks == MergeMaps(map[], a.networks, MergeResource);
      assert MergeMaps(a.volumes, map[], MergeResource) == a.volumes == MergeMaps(map[], a.volumes, MergeResource);
    }
  }

  lemma MergeAllLast(init: seq<Compose>, last: Compose)
    ensures MergeAll(init + [last]) == Merge(MergeAll(init), last)
  {
    assert (init + [last])[..|init|] == init;
  }

  /** Layers may be merged in any grouping: two runs of layers can be merged first and then together. */
  lemma {:induction false} MergeInGroups(xs: seq<Compose>, ys: seq<Compose>)
    ensures MergeAll(xs + ys) == Merge(MergeAll(xs), MergeAll(ys))
    decreases |ys|
  {
    if ys == [] {
      assert xs + ys == xs;
      MergeNothing(MergeAll(xs));
    } else {
      var init, last := ys[..|ys| - 1], ys[|ys| - 1];
      MergeInGroups(xs, init);
      MergeAllLast(xs + init, last);
      assert xs + ys == xs + init + [last];
      MergeAssociative(MergeAll(xs), MergeAll(init), last);
    }
  }

  // --------------------------------------------------- which layer decides a key

  /** Whether the layer's service sets or unsets the key, or does not mention it. */
  function Says(layer: Compose, service: string, key: string): Option<bool> {
    if layer.Failed? || service !in layer.services then None
    else if key in layer.services[service].envKeys then Some(true)
    else if key in layer.services[service].unsetEnvKeys then Some(false)
    else None
  }

  function LastSays(layers: seq<Compose>, service: string, key: string): Option<bool> {
    if layers == [] then None
    else Later(Says(layers[|layers| - 1], service, key), LastSays(layers[..|layers| - 1], service, key))
  }

  /** What the environment reader guarantees of each layer. */
  ghost predicate IsParsed(layer: Compose) {
    !layer.Failed? && forall s | s in layer.services :: layer.services[s].envKeys !! layer.services[s].unsetEnvKeys
  }

  lemma ParsedMerge(a: Compose, b: Compose)
    requires IsParsed(a) && IsParsed(b)
    ensures IsParsed(Merge(a, b))
  {
    var merged := MergeMaps(a.services, b.services, MergeService);
    forall s | s in merged ensures merged[s].envKeys !! merged[s].unsetEnvKeys {
    }
  }

  lemma KeysOfMerge(a: Compose, b: Compose, service: string, key: string)
    requires IsParsed(a) && IsParsed(b)
    ensures IsParsed(Merge(a, b))
    ensures Says(Merge(a, b), service, key) == Later(Says(b, service, key), Says(a, service, key))
  {
    ParsedMerge(a, b);
    DeclaredByMerge(a, b, service);
    SaysDeclared(a, service, key);
    SaysDeclared(b, service, key);
    SaysDeclared(Merge(a, b), service, key);
  }

  /** What a declaration says of the key. */
  function SaidBy(s: Option<Service>, key: string): Option<bool> {
    if s.None? then None
    else if key in s.value.envKeys then Some(true)
    else if key in s.value.unsetEnvKeys then Some(false)
    else None
  }

  lemma SaysDeclared(layer: Compose, service: string, key: string)
    ensures Says(layer, service, key) == SaidBy(Declared(layer, service), key)
  {
  }

  /**
    A key is set in a merged service exactly when the last layer that mentions it sets it,
    unset when that layer leaves it unset.
  */
  lemma {:induction false} LastLayerDecides(layers: seq<Compose>, service: string, key: string)
    requires forall i | 0 <= i < |layers| :: IsParsed(layers[i])
    ensures IsParsed(MergeAll(layers))
    ensures Says(MergeAll(layers), service, key) == LastSays(layers, service, key)
  {
    if layers != [] {
      var init := layers[..|layers| - 1];
      LastLayerDecides(init, service, key);
      KeysOfMerge(MergeAll(init), layers[|layers| - 1], service, key);
    }
  }

  // ---------------------------------------------- what the other fields become

  /** A service as one layer declares it. */
  function Declared(layer: Compose, service: string): Option<Service> {
    if layer.Failed? || service !in layer.services then None else Some(layer.services[service])
  }

  /** The last layer that says something decides. */
  function LastSaid<T(==)>(layers: seq<Compose>, said: Compose -> Option<T>): Option<T> {
    if layers == [] then None else Later(said(layers[|layers| - 1]), LastSaid(layers[..|layers| - 1], said))
  }

  function Joined(layers: seq<Compose>, list: Compose -> seq<string>): seq<string> {
    if layers == [] then [] else Joined(layers[..|layers| - 1], list) + list(layers[|layers| - 1])
  }

  function United(layers: seq<Compose>, keys: Compose -> set<string>): set<string> {
    if layers == [] then {} else United(layers[..|layers| - 1], keys) + keys(layers[|layers| - 1])
  }

  function Image(service: string): Compose -> Option<string> {
    l => var s := Declared(l, service); if s.Some? then s.value.image else None
  }

  function NetworkMode(service: string): Compose -> Option<string> {
    l => var s := Declared(l, service); if s.Some? then s.value.networkMode else None
  }

  function Restart(service: string): Compose -> Option<string> {
    l => var s := Declared(l, service); if s.Some? then s.value.restart else None
  }

  function Command(service: string): Compose -> Option<seq<string>> {
    l => var s := Declared(l, service); if s.Some? && s.value.commandDeclared then Some(s.value.commandHints) else None
  }

  function Entrypoint(service: string): Compose -> Option<seq<string>> {
    l => var s := Declared(l, service);
      if s.Some? && s.value.entrypointDeclared then Some(s.value.entrypointHints) else None
  }

  function TailscaleFlags(service: string): Compose -> Option<seq<string>> {
    l => var s := Declared(l, service);
      if s.Some? && s.value.tailscaleArgsDeclared then Some(s.value.tailscaleFlags) else None
  }

  function Ports(service: string): Compose -> seq<string> {
    l => var s := Declared(l, service); if s.Some? then s.value.ports else []
  }

  function EnvFiles(service: string): Compose -> seq<string> {
    l => var s := Declared(l, service); if s.Some? then s.value.envFiles else []
  }

  function Networks(service: string): Compose -> set<string> {
    l => var s := Declared(l, service); if s.Some? then s.value.networks else {}
  }

  function DependsOn(service: string): Compose -> set<string> {
    l => var s := Declared(l, service); if s.Some? then s.value.dependsOn else {}
  }

  function Volumes(service: string): Compose -> set<string> {
    l => var s := Declared(l, service); if s.Some? then s.value.volumes else {}
  }

  function Binds(service: string): Compose -> set<string> {
    l => var s := Declared(l, service); if s.Some? then s.value.binds else {}
  }

  function Capabilities(service: string): Compose -> set<string> {
    l => var s := Declared(l, service); if s.Some? then s.value.capAdd else {}
  }

  function Devices(service: string): Compose -> set<string> {
    l => var s := Declared(l, service); if s.Some? then s.value.devices else {}
  }

  /** A service as the merge of two layers declares it. */
  lemma DeclaredByMerge(a: Compose, b: Compose, service: string)
    requires !a.Failed? && !b.Failed?
    ensures Declared(Merge(a, b), service) == MergeDeclared(Declared(a, service), Declared(b, service))
  {
    var merged := MergeMaps(a.services, b.services, MergeService);
    assert service in merged <==> service in a.services || service in b.services;
  }

  /** What the two layers say of the service, merged. */
  function MergeDeclared(x: Option<Service>, y: Option<Service>): Option<Service> {
    if x.None? then y else if y.None? then x else Some(MergeService(x.value, y.value))
  }

  lemma ScalarsOfMerge(a: Compose, b: Compose, service: string)
    requires !a.Failed? && !b.Failed?
    ensures Image(service)(Merge(a, b)) == Later(Image(service)(b), Image(service)(a))
    ensures NetworkMode(service)(Merge(a, b)) == Later(NetworkMode(service)(b), NetworkMode(service)(a))
    ensures Restart(service)(Merge(a, b)) == Later(Restart(service)(b), Restart(service)(a))
  {
    DeclaredByMerge(a, b, service);
  }

  lemma ArgumentsOfMerge(a: Compose, b: Compose, service: string)
    requires !a.Failed? && !b.Failed?
    ensures Command(service)(Merge(a, b)) == Later(Command(service)(b), Command(service)(a))
    ensures Entrypoint(service)(Merge(a, b)) == Later(Entrypoint(service)(b), Entrypoint(service)(a))
  {
    DeclaredByMerge(a, b, service);
  }

  lemma TailscaleOfMerge(a: Compose, b: Compose, service: string)
    requires !a.Failed? && !b.Failed?
    ensures TailscaleFlags(service)(Merge(a, b)) == Later(TailscaleFlags(service)(b), TailscaleFlags(service)(a))
  {
    DeclaredByMerge(a, b, service);
  }

  lemma PortsOfMerge(a: Compose, b: Compose, service: string)
    requires !a.Failed? && !b.Failed?
    ensures Ports(service)(Merge(a, b)) == Ports(service)(a) + Ports(service)(b)
  {
    DeclaredByMerge(a, b, service);
    NothingAdded(Ports(service)(a));
    NothingAdded(Ports(service)(b));
  }

  lemma EnvFilesOfMerge(a: Compose, b: Compose, service: string)
    requires !a.Failed? && !b.Failed?
    ensures EnvFiles(service)(Merge(a, b)) == EnvFiles(service)(a) + EnvFiles(service)(b)
  {
    DeclaredByMerge(a, b, service);
    NothingAdded(EnvFiles(service)(a));
    NothingAdded(EnvFiles(service)(b));
  }

  lemma NothingAdded(list: seq<string>)
    ensures list + [] == list == [] + list
  {
  }

  lemma SetsOfMerge(a: Compose, b: Compose, service: string)
    requires !a.Failed? && !b.Failed?
    ensures Networks(service)(Merge(a, b)) == Networks(service)(a) + Networks(service)(b)
    ensures DependsOn(service)(Merge(a, b)) == DependsOn(service)(a) + DependsOn(service)(b)
  {
    DeclaredByMerge(a, b, service);
  }

  lemma MountsOfMerge(a: Compose, b: Compose, service: string)
    requires !a.Failed? && !b.Failed?
    ensures Volumes(service)(Merge(a, b)) == Volumes(service)(a) + Volumes(service)(b)
    ensures Binds(service)(Merge(a, b)) == Binds(service)(a) + Binds(service)(b)
  {
    DeclaredByMerge(a, b, service);
  }

  lemma PrivilegesOfMerge(a: Compose, b: Compose, service: string)
    requires !a.Failed? && !b.Failed?
    ensures Capabilities(service)(Merge(a, b)) == Capabilities(service)(a) + Capabilities(service)(b)
    ensures Devices(service)(Merge(a, b)) == Devices(service)(a) + Devices(service)(b)
  {
    DeclaredByMerge(a, b, service);
  }

  /** A later scalar, command, entrypoint or Tailscale argument replaces an earlier one; the project name too. */
  lemma {:induction false} LastLayerReplaces(layers: seq<Compose>, service: string)
    requires forall i | 0 <= i < |layers| :: !layers[i].Failed?
    ensures var all := MergeAll(layers);
      && !all.Failed?
      && Image(service)(all) == LastSaid(layers, Image(service))
      && NetworkMode(service)(all) == LastSaid(layers, NetworkMode(service))
      && Restart(service)(all) == LastSaid(layers, Restart(service))
      && Command(service)(all) == LastSaid(layers, Command(service))
      && Entrypoint(service)(all) == LastSaid(layers, Entrypoint(service))
      && TailscaleFlags(service)(all) == LastSaid(layers, TailscaleFlags(service))
      && all.projectName == LastSaid(layers, (l: Compose) => if l.Failed? then None else l.projectName)
  {
    if layers != [] {
      LastLayerReplaces(layers[..|layers| - 1], service);
      ScalarsOfMerge(MergeAll(layers[..|layers| - 1]), layers[|layers| - 1], service);
      ArgumentsOfMerge(MergeAll(layers[..|layers| - 1]), layers[|layers| - 1], service);
      TailscaleOfMerge(MergeAll(layers[..|layers| - 1]), layers[|layers| - 1], service);
    }
  }

  /** Ports and env files append in load order. */
  lemma {:induction false} ListsAppend(layers: seq<Compose>, service: string)
    requires forall i | 0 <= i < |layers| :: !layers[i].Failed?
    ensures !MergeAll(layers).Failed?
    ensures Ports(service)(MergeAll(layers)) == Joined(layers, Ports(service))
    ensures EnvFiles(service)(MergeAll(layers)) == Joined(layers, EnvFiles(service))
  {
    if layers != [] {
      ListsAppend(layers[..|layers| - 1], service);
      PortsOfMerge(MergeAll(layers[..|layers| - 1]), layers[|layers| - 1], service);
      EnvFilesOfMerge(MergeAll(layers[..|layers| - 1]), layers[|layers| - 1], service);
    }
  }

  /** Networks, dependencies, volumes, binds, capabilities and devices unite. */
  lemma {:induction false} ListsUnite(layers: seq<Compose>, service: string)
    requires forall i | 0 <= i < |layers| :: !layers[i].Failed?
    ensures !MergeAll(layers).Failed?
    ensures Networks(service)(MergeAll(layers)) == United(layers, Networks(service))
    ensures DependsOn(service)(MergeAll(layers)) == United(layers, DependsOn(service))
    ensures Volumes(service)(MergeAll(layers)) == United(layers, Volumes(service))
    ensures Binds(service)(MergeAll(layers)) == United(layers, Binds(service))
    ensures Capabilities(service)(MergeAll(layers)) == United(layers, Capabilities(service))
    ensures Devices(service)(MergeAll(layers)) == United(layers, Devices(service))
  {
    if layers != [] {
      ListsUnite(layers[..|layers| - 1], service);
      SetsOfMerge(MergeAll(layers[..|layers| - 1]), layers[|layers| - 1], service);
      MountsOfMerge(MergeAll(layers[..|layers| - 1]), layers[|layers| - 1], service);
      PrivilegesOfMerge(MergeAll(layers[..|layers| - 1]), layers[|layers| - 1], service);
    }
  }

  // --------------------------------------- what is declared at all, and resources

  /** Some layer says so. */
  ghost predicate SomeSays(layers: seq<Compose>, says: Compose -> bool) {
    exists i | 0 <= i < |layers| :: says(layers[i])
  }

  lemma SomeSaysNext(layers: seq<Compose>, says: Compose -> bool)
    requires layers != []
    ensures SomeSays(layers, says) <==> SomeSays(layers[..|layers| - 1], says) || says(layers[|layers| - 1])
  {
    var init := layers[..|layers| - 1];
    if i :| 0 <= i < |layers| && says(layers[i]) {
      if i < |init| { assert says(init[i]); }
    }
    if i :| 0 <= i < |init| && says(init[i]) { assert says(layers[i]); }
  }

  function IsDeclared(service: string): Compose -> bool {
    l => Declared(l, service).Some?
  }

  function NeedsInterpolation(service: string): Compose -> bool {
    l => var s := Declared(l, service); s.Some? && s.value.needsInterpolation
  }

  function IsUnresolved(service: string): Compose -> bool {
    l => var s := Declared(l, service); s.Some? && s.value.unresolvedDetection
  }

  lemma FlagsOfMerge(a: Compose, b: Compose, service: string)
    requires !a.Failed? && !b.Failed?
    ensures IsDeclared(service)(Merge(a, b)) == (IsDeclared(service)(a) || IsDeclared(service)(b))
    ensures NeedsInterpolation(service)(Merge(a, b))
      == (NeedsInterpolation(service)(a) || NeedsInterpolation(service)(b))
    ensures IsUnresolved(service)(Merge(a, b)) == (IsUnresolved(service)(a) || IsUnresolved(service)(b))
  {
    DeclaredByMerge(a, b, service);
  }

  /** A service is declared, and a doubt about it kept, when some layer does so. */
  lemma {:induction false} FlagsAreKept(layers: seq<Compose>, service: string)
    requires forall i | 0 <= i < |layers| :: !layers[i].Failed?
    ensures var all := MergeAll(layers);
      && !all.Failed?
      && (IsDeclared(service)(all) <==> SomeSays(layers, IsDeclared(service)))
      && (NeedsInterpolation(service)(all) <==> SomeSays(layers, NeedsInterpolation(service)))
      && (IsUnresolved(service)(all) <==> SomeSays(layers, IsUnresolved(service)))
  {
    if layers != [] {
      FlagsAreKept(layers[..|layers| - 1], service);
      FlagsOfMerge(MergeAll(layers[..|layers| - 1]), layers[|layers| - 1], service);
      SomeSaysNext(layers, IsDeclared(service));
      SomeSaysNext(layers, NeedsInterpolation(service));
      SomeSaysNext(layers, IsUnresolved(service));
    }
  }

  /** The networks of a layer, or its volumes. */
  function Resources(layer: Compose, networks: bool): map<string, Resource> {
    if layer.Failed? then map[] else if networks then layer.networks else layer.volumes
  }

  function ResourceName(networks: bool, key: string): Compose -> Option<string> {
    l => if key in Resources(l, networks) then Resources(l, networks)[key].name else None
  }

  function IsExternal(networks: bool, key: string): Compose -> bool {
    l => key in Resources(l, networks) && Resources(l, networks)[key].external
  }

  function HasResource(networks: bool, key: string): Compose -> bool {
    l => key in Resources(l, networks)
  }

  lemma ResourceOfMerge(a: Compose, b: Compose, networks: bool, key: string)
    requires !a.Failed? && !b.Failed?
    ensures ResourceName(networks, key)(Merge(a, b))
      == Later(ResourceName(networks, key)(b), ResourceName(networks, key)(a))
    ensures IsExternal(networks, key)(Merge(a, b)) == (IsExternal(networks, key)(a) || IsExternal(networks, key)(b))
    ensures HasResource(networks, key)(Merge(a, b)) == (HasResource(networks, key)(a) || HasResource(networks, key)(b))
  {
    var x, y := Resources(a, networks), Resources(b, networks);
    assert Resources(Merge(a, b), networks) == MergeMaps(x, y, MergeResource);
  }

  /** A network or volume keeps its last name, and is external once some layer says so. */
  lemma {:induction false} ResourcesMerge(layers: seq<Compose>, networks: bool, key: string)
    requires forall i | 0 <= i < |layers| :: !layers[i].Failed?
    ensures var all := MergeAll(layers);
      && !all.Failed?
      && ResourceName(networks, key)(all) == LastSaid(layers, ResourceName(networks, key))
      && (IsExternal(networks, key)(all) <==> SomeSays(layers, IsExternal(networks, key)))
      && (HasResource(networks, key)(all) <==> SomeSays(layers, HasResource(networks, key)))
  {
    if layers != [] {
      ResourcesMerge(layers[..|layers| - 1], networks, key);
      ResourceOfMerge(MergeAll(layers[..|layers| - 1]), layers[|layers| - 1], networks, key);
      SomeSaysNext(layers, IsExternal(networks, key));
      SomeSaysNext(layers, HasResource(networks, key));
    }
  }

  /** Whether a layer includes, extends or tags others is kept too. */
  lemma {:induction false} LayerFlagsAreKept(layers: seq<Compose>)
    requires forall i | 0 <= i < |layers| :: !layers[i].Failed?
    ensures var all := MergeAll(layers);
      && !all.Failed?
      && (all.hasInclude <==> exists i | 0 <= i < |layers| :: layers[i].hasInclude)
      && (all.hasExtends <==> exists i | 0 <= i < |layers| :: layers[i].hasExtends)
      && (all.hasLayerTags <==> exists i | 0 <= i < |layers| :: layers[i].hasLayerTags)
  {
    if layers != [] {
      var init, last := layers[..|layers| - 1], layers[|layers| - 1];
      LayerFlagsAreKept(init);
      assert forall i | 0 <= i < |init| :: layers[i] == init[i];
      assert forall i | 0 <= i < |layers| :: layers[i] == if i < |init| then init[i] else last;
    }
  }
}
