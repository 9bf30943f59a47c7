/**
  The guard's three worklist closures over cyclic graphs: rendered namespace
  owners, recreate links, and the namespace owners of live containers.
*/
module GuardClosures {
  import opened Common
  import opened GuardModel
  import Graph

  // The loop invariants below are passed along folded: each unfolds where `Look`, `Peek` or `Unfold` is mentioned.

  ghost predicate Look(k: int, queue: seq<(string, string)>) {
    true
  }

  ghost predicate Unfold(k: int) {
    true
  }

  ghost predicate Peek(k: int, owners: seq<NamespaceOwner>) {
    true
  }

  // ------------------------------------------------ rendered namespace owners

  ghost function NamespaceEdges(rendered: Rendered): Graph.Edges {
    set a, b | a in rendered && b in rendered[a].namespaceServices :: (a, b)
  }

  function NamespaceOf(rendered: Rendered, name: string): seq<string> {
    if name in rendered then rendered[name].namespaceServices else []
  }

  /** The services behind a list of containers' labels. */
  ghost function Names(services: seq<Option<string>>): set<string> {
    set s | s in services && s.Some? :: s.value
  }

  ghost predicate OwnsFor(rendered: Rendered, roots: set<string>, owner: string) {
    owner !in roots && Graph.ReachedFrom(NamespaceEdges(rendered), roots, owner)
  }

  /** Each owner found so far is reached from the root it is mapped to. */
  ghost predicate OwnersSound(edges: Graph.Edges, roots: set<string>, owners: map<string, string>) {
    forall o | o in owners :: o !in roots && owners[o] in roots && Graph.Reaches(edges, owners[o], o)
  }

  ghost predicate QueueSound(edges: Graph.Edges, roots: set<string>, queue: seq<(string, string)>) {
    forall q | q in queue :: q.1 in roots && Graph.Reaches(edges, q.1, q.0)
  }

  /** Whatever has been expanded has all its owners recorded. */
  ghost predicate OwnersClosed(edges: Graph.Edges, known: set<string>, expanded: set<string>) {
    forall e | e in edges && e.0 in expanded :: e.1 in known
  }

  /** Whatever has not been expanded still waits. */
  ghost predicate AllWaitOrDone(known: set<string>, expanded: set<string>, queue: seq<(string, string)>) {
    forall a | a in known && a !in expanded :: exists via :: (a, via) in queue
  }

  /** The closure with `expanded` behind it and `done` taken off the queue. */
  ghost predicate Closing(edges: Graph.Edges, roots: set<string>, owners: map<string, string>,
      queue: seq<(string, string)>, expanded: set<string>, done: set<string>) {
    forall k | Look(k, queue) ::
      && OwnersSound(edges, roots, owners) && QueueSound(edges, roots, queue)
      && OwnersClosed(edges, roots + owners.Keys, expanded) && AllWaitOrDone(roots + owners.Keys, done, queue)
  }

  lemma OwnersExact(edges: Graph.Edges, roots: set<string>, owners: map<string, string>, expanded: set<string>)
    requires Closing(edges, roots, owners, [], expanded, expanded)
    ensures OwnersSound(edges, roots, owners)
    ensures forall o :: o in owners <==> o !in roots && Graph.ReachedFrom(edges, roots, o)
  {
    assert Look(0, []);
    forall o ensures o in owners <==> o !in roots && Graph.ReachedFrom(edges, roots, o) {
      if o in owners { assert Graph.ReachedFrom(edges, roots, o); }
      if Graph.ReachedFrom(edges, roots, o) {
        var r :| r in roots && Graph.Reaches(edges, r, o);
        Graph.ReachesInside(edges, r, o, roots + owners.Keys);
      }
    }
  }

  lemma AddRoot(edges: Graph.Edges, roots: set<string>, queue: seq<(string, string)>, root: string)
    requires Closing(edges, roots, map[], queue, {}, {})
    ensures Closing(edges, roots + {root}, map[], queue + [(root, root)], {}, {})
  {
    assert Look(0, queue);
    Graph.ReachesSelf(edges, root);
    var none: map<string, string> := map[];
    Waits(roots + none.Keys, {}, queue, root, root);
    assert roots + {root} + none.Keys == roots + none.Keys + {root};
  }

  method RootQueue(services: seq<Option<string>>, ghost edges: Graph.Edges)
    returns (roots: set<string>, queue: seq<(string, string)>)
    ensures roots == Names(services)
    ensures Closing(edges, roots, map[], queue, {}, {})
  {
    roots, queue := {}, [];
    for i := 0 to |services|
      invariant roots == Names(services[..i])
      invariant Closing(edges, roots, map[], queue, {}, {})
    {
      assert services[..i + 1] == services[..i] + [services[i]];
      if services[i].Some? && services[i].value !in roots {
        var root := services[i].value;
        AddRoot(edges, roots, queue, root);
        roots, queue := roots + {root}, queue + [(root, root)];
      }
    }
    assert services[..|services|] == services;
  }

  /**
    The services whose namespace the given ones run in, transitively, each mapped
    to one it was reached from: exactly those reachable and not given.
  */
  method NamespaceOwners(services: seq<Option<string>>, rendered: Rendered) returns (owners: map<string, string>)
    ensures forall o :: o in owners <==> OwnsFor(rendered, Names(services), o)
    ensures OwnersSound(NamespaceEdges(rendered), Names(services), owners)
  {
    ghost var edges := NamespaceEdges(rendered);
    ghost var all := Targets(edges);
    var roots, queue := RootQueue(services, edges);
    owners := map[];
    ghost var expanded: set<string> := {};
    while queue != []
      invariant Closing(edges, roots, owners, queue, expanded, expanded)
      decreases Rest(all, owners), |queue|
    {
      ghost var name := queue[0].0;
      NamespaceExpands(rendered, name);
      owners, queue := ExpandOwner(NamespaceOf(rendered, queue[0].0), edges, all, roots, owners, queue, expanded);
      expanded := expanded + {name};
    }
    OwnersExact(edges, roots, owners, expanded);
  }

  ghost function Targets(edges: Graph.Edges): (all: set<string>)
    ensures forall e | e in edges :: e.1 in all
  {
    set e | e in edges :: e.1
  }

  lemma TakeFirst(edges: Graph.Edges, roots: set<string>, owners: map<string, string>, queue: seq<(string, string)>,
      expanded: set<string>)
    requires queue != [] && Closing(edges, roots, owners, queue, expanded, expanded)
    ensures Closing(edges, roots, owners, queue[1..], expanded, expanded + {queue[0].0})
    ensures queue[0].1 in roots && Graph.Reaches(edges, queue[0].1, queue[0].0)
  {
    assert Look(0, queue);
    assert queue == [queue[0]] + queue[1..];
    assert forall a, via | (a, via) in queue && a != queue[0].0 :: (a, via) in queue[1..];
  }

  /** `next` lists the targets of the edges that leave `name`. */
  ghost predicate Expands(edges: Graph.Edges, all: set<string>, name: string, next: seq<string>) {
    forall k | Unfold(k) ::
      && (forall j | 0 <= j < |next| :: (name, next[j]) in edges && next[j] in all)
      && (forall e | e in edges && e.0 == name :: e.1 in next)
  }

  lemma NamespaceExpands(rendered: Rendered, name: string)
    ensures Expands(NamespaceEdges(rendered), Targets(NamespaceEdges(rendered)), name, NamespaceOf(rendered, name))
  {
    var edges, next := NamespaceEdges(rendered), NamespaceOf(rendered, name);
    forall j | 0 <= j < |next| ensures (name, next[j]) in edges && next[j] in Targets(edges) {
      assert (name, next[j]) in edges;
    }
  }

  ghost function Rest(all: set<string>, owners: map<string, string>): nat {
    |all - owners.Keys|
  }

  lemma Shrinks(all: set<string>, owners: map<string, string>, owner: string, via: string)
    requires owner in all && owner !in owners
    ensures Rest(all, owners[owner := via]) < Rest(all, owners)
  {
    assert owners[owner := via].Keys == owners.Keys + {owner};
    SmallerRest(all, owners.Keys, owner);
  }

  lemma AddOwner(edges: Graph.Edges, roots: set<string>, owners: map<string, string>, queue: seq<(string, string)>,
      expanded: set<string>, done: set<string>,
                 name: string, via: string, owner: string)
    requires Closing(edges, roots, owners, queue, expanded, done)
    requires via in roots && Graph.Reaches(edges, via, name)
    requires (name, owner) in edges && owner !in owners && owner !in roots
    ensures Closing(edges, roots, owners[owner := via], queue + [(owner, via)], expanded, done)
  {
    assert Look(0, queue);
    Graph.ReachesNext(edges, via, name, owner);
    Waits(roots + owners.Keys, done, queue, owner, via);
    assert roots + owners[owner := via].Keys == roots + owners.Keys + {owner};
  }

  lemma Listed(edges: Graph.Edges, all: set<string>, name: string, next: seq<string>, k: nat)
    requires Expands(edges, all, name, next) && k < |next|
    ensures (name, next[k]) in edges && next[k] in all
  {
    assert Unfold(0);
  }

  ghost predicate Recorded(names: seq<string>, roots: set<string>, owners: map<string, string>) {
    forall j | 0 <= j < |names| :: names[j] in roots || names[j] in owners
  }

  lemma RecordedMore(names: seq<string>, roots: set<string>, owners: map<string, string>, owner: string, via: string)
    requires Recorded(names, roots, owners)
    ensures Recorded(names, roots, owners[owner := via])
  {
  }

  lemma RecordedNext(next: seq<string>, k: nat, roots: set<string>, owners: map<string, string>)
    requires k < |next| && Recorded(next[..k], roots, owners) && (next[k] in roots || next[k] in owners)
    ensures Recorded(next[..k + 1], roots, owners)
  {
    assert forall j | 0 <= j < k :: next[..k][j] == next[..k + 1][j];
  }

  lemma Behind(edges: Graph.Edges, all: set<string>, roots: set<string>, owners: map<string, string>,
      queue: seq<(string, string)>, expanded: set<string>,
               name: string, next: seq<string>)
    requires Closing(edges, roots, owners, queue, expanded, expanded + {name})
    requires Expands(edges, all, name, next) && Recorded(next, roots, owners)
    ensures Closing(edges, roots, owners, queue, expanded + {name}, expanded + {name})
  {
    assert Look(0, queue) && Unfold(0);
  }

  /** Takes the first waiting service off the queue and records its unseen owners. */
  method ExpandOwner(next: seq<string>, ghost edges: Graph.Edges, ghost all: set<string>, roots: set<string>,
                     owners0: map<string, string>, queue0: seq<(string, string)>, ghost expanded: set<string>)
    returns (owners: map<string, string>, queue: seq<(string, string)>)
    requires queue0 != [] && Closing(edges, roots, owners0, queue0, expanded, expanded)
    requires Expands(edges, all, queue0[0].0, next)
    ensures Closing(edges, roots, owners, queue, expanded + {queue0[0].0}, expanded + {queue0[0].0})
    ensures Rest(all, owners) < Rest(all, owners0) || (Rest(all, owners) == Rest(all, owners0) && |queue| < |queue0|)
  {
    ghost var name := queue0[0].0;
    var via := queue0[0].1;
    owners, queue := owners0, queue0[1..];
    TakeFirst(edges, roots, owners0, queue0, expanded);
    for k := 0 to |next|
      invariant Closing(edges, roots, owners, queue, expanded, expanded + {name})
      invariant Recorded(next[..k], roots, owners)
      invariant Rest(all, owners) < Rest(all, owners0)
        || (Rest(all, owners) == Rest(all, owners0) && |queue| < |queue0|)
    {
      if next[k] !in owners && next[k] !in roots {
        Listed(edges, all, name, next, k);
        AddOwner(edges, roots, owners, queue, expanded, expanded + {name}, name, via, next[k]);
        Shrinks(all, owners, next[k], via);
        RecordedMore(next[..k], roots, owners, next[k], via);
        owners, queue := owners[next[k] := via], queue + [(next[k], via)];
      }
      RecordedNext(next, k, roots, owners);
    }
    assert next[..|next|] == next;
    Behind(edges, all, roots, owners, queue, expanded, name, next);
  }

  lemma Waits(known: set<string>, done: set<string>, queue: seq<(string, string)>, owner: string, via: string)
    requires AllWaitOrDone(known, done, queue)
    ensures AllWaitOrDone(known + {owner}, done, queue + [(owner, via)])
  {
    assert forall q | q in queue :: q in queue + [(owner, via)];
    assert (owner, via) in queue + [(owner, via)];
  }

  lemma SmallerRest(all: set<string>, seen: set<string>, x: string)
    requires x in all && x !in seen
    ensures |all - (seen + {x})| < |all - seen|
  {
    assert all - seen == (all - (seen + {x})) + {x};
  }

  // ------------------------------------------------------------ recreate links

  /** A link to a service the render does not contain is not followed. */
  ghost function LinkEdges(rendered: Rendered): Graph.Edges {
    set a, b | a in rendered && b in rendered[a].linkedServices && b in rendered :: (a, b)
  }

  function RenderedLinks(rendered: Rendered, links: seq<string>): (r: seq<string>)
    ensures forall s :: s in r <==> s in links && s in rendered
  {
    if links == [] then []
    else (if links[0] in rendered then [links[0]] else []) + RenderedLinks(rendered, links[1..])
  }

  function LinksOf(rendered: Rendered, name: string): (r: seq<string>)
    ensures forall s :: s in r <==> (name, s) in LinkEdges(rendered)
  {
    if name in rendered then RenderedLinks(rendered, rendered[name].linkedServices) else []
  }

  /** Some service the deploy would follow from this one decides `v` by itself. */
  ghost predicate Meets(own: string -> Recreate, rendered: Rendered, service: string, v: Recreate) {
    exists s :: Graph.Reaches(LinkEdges(rendered), service, s) && own(s) == v
  }

  /** The highest decision, in the order yes, unreliable, version, unknown, no, over everything linked. */
  ghost function Verdict(own: string -> Recreate, rendered: Rendered, service: string): Recreate {
    if Meets(own, rendered, service, Yes) then Yes
    else if Meets(own, rendered, service, Unreliable) then Unreliable
    else if Meets(own, rendered, service, Version) then Version
    else if Meets(own, rendered, service, Unknown) then Unknown
    else No
  }

  /** Everything visited or waiting is linked, and the links out of what was visited are kept. */
  ghost predicate Tracing(edges: Graph.Edges, all: set<string>, service: string, visited: set<string>,
      waiting: set<string>) {
    && service in visited + waiting && visited + waiting <= all
    && (forall s | s in visited + waiting :: Graph.Reaches(edges, service, s))
    && (forall e | e in edges && e.0 in visited :: e.1 in visited + waiting)
  }

  /** The decisions met so far. */
  ghost predicate Flags(own: string -> Recreate, visited: set<string>, unreliable: bool, version: bool, unknown: bool) {
    && (forall s | s in visited :: own(s) != Yes)
    && (unreliable <==> exists s | s in visited :: own(s) == Unreliable)
    && (version <==> exists s | s in visited :: own(s) == Version)
    && (unknown <==> exists s | s in visited :: own(s) == Unknown)
  }

  ghost function Queued(queue: seq<string>): set<string> {
    set s | s in queue
  }

  lemma TraceStart(edges: Graph.Edges, all: set<string>, service: string)
    requires service in all
    ensures Tracing(edges, all, service, {}, Queued([service]))
  {
    Graph.ReachesSelf(edges, service);
  }

  lemma TraceSkip(edges: Graph.Edges, all: set<string>, service: string, visited: set<string>, queue: seq<string>)
    requires queue != [] && queue[0] in visited && Tracing(edges, all, service, visited, Queued(queue))
    ensures Tracing(edges, all, service, visited, Queued(queue[1..]))
  {
    assert queue == [queue[0]] + queue[1..];
    assert visited + Queued(queue[1..]) == visited + Queued(queue);
  }

  lemma TraceVisit(edges: Graph.Edges, all: set<string>, service: string, visited: set<string>, queue: seq<string>,
      links: seq<string>)
    requires queue != [] && queue[0] !in visited && Tracing(edges, all, service, visited, Queued(queue))
    requires (forall s :: s in links <==> (queue[0], s) in edges) && forall s | s in links :: s in all
    ensures Graph.Reaches(edges, service, queue[0])
    ensures Tracing(edges, all, service, visited + {queue[0]}, Queued(queue[1..] + links))
    ensures |all - (visited + {queue[0]})| < |all - visited|
  {
    var name, rest := queue[0], queue[1..];
    assert queue == [name] + rest;
    assert name in Queued(queue);
    SmallerRest(all, visited, name);
    forall s | s in links ensures Graph.Reaches(edges, service, s) {
      Graph.ReachesNext(edges, service, name, s);
    }
    assert visited + {name} + Queued(rest + links) == visited + Queued(queue) + Queued(links);
  }

  lemma TraceEnd(own: string -> Recreate, rendered: Rendered, all: set<string>, service: string, visited: set<string>,
                 unreliable: bool, version: bool, unknown: bool)
    requires Tracing(LinkEdges(rendered), all, service, visited, {})
    requires Flags(own, visited, unreliable, version, unknown)
    ensures Verdict(own, rendered, service) == if unreliable then Unreliable else if version then Version
      else if unknown then Unknown else No
  {
    var edges := LinkEdges(rendered);
    forall v ensures Meets(own, rendered, service, v) <==> exists s | s in visited :: own(s) == v {
      if Meets(own, rendered, service, v) {
        var s :| Graph.Reaches(edges, service, s) && own(s) == v;
        Graph.ReachesInside(edges, service, s, visited);
      }
    }
  }

  lemma LinksExpand(rendered: Rendered, name: string)
    ensures forall s :: s in LinksOf(rendered, name) <==> (name, s) in LinkEdges(rendered)
    ensures forall s | s in LinksOf(rendered, name) :: s in rendered.Keys
  {
  }

  function ImageOf(rendered: Rendered, service: string): Option<string> {
    if service in rendered then rendered[service].image else None
  }

  /**
    The container runs the local image of that name, if there is a name, and was made by the
    running Compose version.
  */
  predicate IsCurrentImage(n: Node, image: Option<string>, c: Container) {
    && (image.Some? && image.value != "" ==>
      image.value in n.localImage && ImageIdOf(c) == StripSha(n.localImage[image.value]))
    && NormalizeVersion(Label(c, VERSION_LABEL)) == NormalizeVersion(n.composeVersion) != ""
  }

  /** Every container of the service is what a deploy would create: same hash, same image, same Compose version. */
  ghost predicate AllCurrent(n: Node, stack: seq<Container>, rendered: Rendered, service: string) {
    forall c | c in stack && ServiceOf(c) == Some(service) ::
      service in n.configHash && Label(c, HASH_LABEL) == Some(n.configHash[service])
        && IsCurrentImage(n, ImageOf(rendered, service), c)
  }

  lemma JudgeImageNo(n: Node, existing: seq<Container>, image: Option<string>)
    requires existing != []
    ensures JudgeImage(n, existing, image) == No <==> forall c | c in existing :: IsCurrentImage(n, image, c)
  {
    assert existing[0] in existing;
    if JudgeImage(n, existing, image) == No {
      forall c | c in existing ensures IsCurrentImage(n, image, c) { }
    }
  }

  /** The image a deploy would use is not fixed before it runs. */
  predicate MayReplaceImage(rendered: Rendered, service: string) {
    service in rendered && rendered[service].pullPolicy.Some? && IsReplacingPolicy(rendered[service].pullPolicy.value)
  }

  /**
    A service is left alone exactly when nothing pins or may replace its image, its hash is
    known, and every container of it is current.
  */
  lemma OwnRecreateNo(n: Node, stack: seq<Container>, rendered: Rendered, pinned: set<string>, service: string)
    ensures OwnRecreate(n, stack, rendered, pinned, service) == No <==>
      && service !in pinned && !MayReplaceImage(rendered, service)
      && service in n.configHash && n.configHash[service] != ""
      && AllCurrent(n, stack, rendered, service)
  {
    var existing := Filter(stack, (c: Container) => ServiceOf(c) == Some(service));
    assert forall c :: c in existing <==> c in stack && ServiceOf(c) == Some(service);
    if existing != [] {
      assert existing[0] in existing;
      JudgeImageNo(n, existing, ImageOf(rendered, service));
    }
  }

  /** Some container of the service satisfies it. */
  ghost predicate HasOne(stack: seq<Container>, service: string, p: Container -> bool) {
    exists c | c in stack && ServiceOf(c) == Some(service) :: p(c)
  }

  /** A deploy of the service is decided by its containers alone. */
  predicate IsComparable(n: Node, rendered: Rendered, pinned: set<string>, service: string) {
    && service !in pinned && !MayReplaceImage(rendered, service)
    && service in n.configHash && n.configHash[service] != ""
  }

  predicate HasOtherHash(n: Node, service: string, c: Container) {
    service in n.configHash && Label(c, HASH_LABEL) != Some(n.configHash[service])
  }

  predicate NamesImage(rendered: Rendered, service: string) {
    ImageOf(rendered, service).Some? && ImageOf(rendered, service).value != ""
  }

  /** The image is known locally, and the container runs another one. */
  predicate HasOtherImage(n: Node, rendered: Rendered, service: string, c: Container) {
    && NamesImage(rendered, service) && ImageOf(rendered, service).value in n.localImage
    && ImageIdOf(c) != StripSha(n.localImage[ImageOf(rendered, service).value])
  }

  predicate IsUnreliable(rendered: Rendered, service: string) {
    service in rendered && rendered[service].hashUnreliable
  }

  lemma ExistingIs(stack: seq<Container>, service: string, existing: seq<Container>, p: Container -> bool)
    requires existing == Filter(stack, (c: Container) => ServiceOf(c) == Some(service))
    ensures HasOne(stack, service, p) <==> exists c | c in existing :: p(c)
    ensures existing == [] <==> !HasOne(stack, service, c => true)
  {
    if existing != [] { assert existing[0] in existing; }
    if HasOne(stack, service, p) {
      var c :| c in stack && ServiceOf(c) == Some(service) && p(c);
      assert c in existing;
    }
    if HasOne(stack, service, c => true) {
      var c :| c in stack && ServiceOf(c) == Some(service);
      assert c in existing;
    }
  }

  /** A service is certainly recreated exactly when it is pinned, or a comparable hash or the known image differs. */
  lemma OwnRecreateYes(n: Node, stack: seq<Container>, rendered: Rendered, service: string, pinned: set<string>)
    ensures OwnRecreate(n, stack, rendered, pinned, service) == Yes <==>
      || service in pinned
      || (IsComparable(n, rendered, pinned, service)
        && if HasOne(stack, service, c => HasOtherHash(n, service, c)) then !IsUnreliable(rendered, service)
          else HasOne(stack, service, c => HasOtherImage(n, rendered, service, c)))
  {
    var existing := Filter(stack, (c: Container) => ServiceOf(c) == Some(service));
    ExistingIs(stack, service, existing, c => HasOtherHash(n, service, c));
    ExistingIs(stack, service, existing, c => HasOtherImage(n, rendered, service, c));
  }

  /** It is said to have an unreliable hash exactly when its hash differs and cannot be compared. */
  lemma OwnRecreateUnreliable(n: Node, stack: seq<Container>, rendered: Rendered, service: string, pinned: set<string>)
    ensures OwnRecreate(n, stack, rendered, pinned, service) == Unreliable <==>
      && IsComparable(n, rendered, pinned, service) && IsUnreliable(rendered, service)
      && HasOne(stack, service, c => HasOtherHash(n, service, c))
  {
    var existing := Filter(stack, (c: Container) => ServiceOf(c) == Some(service));
    ExistingIs(stack, service, existing, c => HasOtherHash(n, service, c));
  }

  /** And unknown exactly when its image may be replaced, its hash is not known, or a running one's image is not. */
  lemma OwnRecreateUnknown(n: Node, stack: seq<Container>, rendered: Rendered, service: string, pinned: set<string>)
    ensures OwnRecreate(n, stack, rendered, pinned, service) == Unknown <==>
      && service !in pinned
      && (IsComparable(n, rendered, pinned, service) ==>
        && HasOne(stack, service, c => true) && !HasOne(stack, service, c => HasOtherHash(n, service, c))
        && NamesImage(rendered, service) && ImageOf(rendered, service).value !in n.localImage)
  {
    var existing := Filter(stack, (c: Container) => ServiceOf(c) == Some(service));
    ExistingIs(stack, service, existing, c => HasOtherHash(n, service, c));
  }

  /** Whether `up -d` would stop or recreate the service, by itself or through anything it is wired to. */
  method WouldRecreate(own: string -> Recreate, rendered: Rendered, service: string) returns (r: Recreate)
    ensures r == Verdict(own, rendered, service)
  {
    var unknown, unreliable, version := false, false, false;
    var visited: set<string> := {};
    var queue := [service];
    ghost var edges, all := LinkEdges(rendered), rendered.Keys + {service};
    TraceStart(edges, all, service);
    while queue != []
      invariant Tracing(edges, all, service, visited, Queued(queue))
      invariant Flags(own, visited, unreliable, version, unknown)
      decreases |all - visited|, |queue|
    {
      var name := queue[0];
      if name in visited {
        TraceSkip(edges, all, service, visited, queue);
        queue := queue[1..];
      } else {
        LinksExpand(rendered, name);
        TraceVisit(edges, all, service, visited, queue, LinksOf(rendered, name));
        if own(name) == Yes { return Yes; }
        unknown := unknown || own(name) == Unknown;
        unreliable := unreliable || own(name) == Unreliable;
        version := version || own(name) == Version;
        visited := visited + {name};
        queue := queue[1..] + LinksOf(rendered, name);
      }
    }
    assert Queued(queue) == {};
    TraceEnd(own, rendered, all, service, visited, unreliable, version, unknown);
    r := if unreliable then Unreliable else if version then Version else if unknown then Unknown else No;
  }

  // ---------------------------------------------------- live namespace owners

  const CONTAINER_MODE := "container:"

  /** The reference a mode names, if it runs in another container's namespace. */
  function ModeRef(mode: string): Option<string> {
    if CONTAINER_MODE <= mode && |mode| > |CONTAINER_MODE| then Some(mode[|CONTAINER_MODE|..]) else None
  }

  ghost function RefsOf(info: Inspected): set<string> {
    set m | m in info.modes && ModeRef(m).Some? :: ModeRef(m).value
  }

  ghost function RefEdges(inspects: Inspects): Graph.Edges {
    set a, b | a in inspects && inspects[a].Found? && b in RefsOf(inspects[a].info) :: (a, b)
  }

  datatype Target = Target(containerId: string, containerName: string)

  /** The target is inspected by id and, when that id is gone, by name; `None` when both are gone. */
  function FirstLookup(inspects: Inspects, target: Target): Option<Lookup> {
    if target.containerId in inspects then Some(inspects[target.containerId])
    else if target.containerName != "" && target.containerName in inspects then Some(inspects[target.containerName])
    else None
  }

  /** `ref` owns, through any chain of live namespaces, one the inspected container runs in. */
  ghost predicate LiveOwner(inspects: Inspects, first: Option<Lookup>, ref: string) {
    first.Some? && first.value.Found? && Graph.ReachedFrom(RefEdges(inspects), RefsOf(first.value.info), ref)
  }

  /** Some inspect on the way, other than of a missing container, failed. */
  ghost predicate Unreadable(inspects: Inspects, target: Target) {
    var first := FirstLookup(inspects, target);
    || (first.Some? && first.value.Failed?)
    || exists ref :: LiveOwner(inspects, first, ref) && ref in inspects && inspects[ref].Failed?
  }

  datatype NamespaceOwner = NamespaceOwner(ref: string, id: Option<string>, name: Option<string>)

  function OwnerNamed(inspects: Inspects, ref: string): NamespaceOwner {
    if ref in inspects && inspects[ref].Found? then
      var info := inspects[ref].info;
      NamespaceOwner(ref, info.id, if info.name.Some? && info.name.value != "" then Some(BareName(info.name.value))
        else None)
    else NamespaceOwner(ref, None, None)
  }

  datatype OwnerRefs = Read(owners: seq<NamespaceOwner>) | Unread

  /** Every reference that owns a namespace the inspected container runs in. */
  ghost function OwnedBy(inspects: Inspects, first: Inspected): (owned: set<string>)
    ensures forall ref :: ref in owned <==> LiveOwner(inspects, Some(Found(first)), ref)
  {
    var all := RefsOf(first) + Targets(RefEdges(inspects));
    forall ref | LiveOwner(inspects, Some(Found(first)), ref) ensures ref in all {
      LiveOwnerNamed(inspects, first, ref, all);
    }
    set ref | ref in all && LiveOwner(inspects, Some(Found(first)), ref)
  }

  lemma LiveOwnerNamed(inspects: Inspects, first: Inspected, ref: string, inside: set<string>)
    requires LiveOwner(inspects, Some(Found(first)), ref) && RefsOf(first) <= inside
    requires forall e | e in RefEdges(inspects) && e.0 in inside :: e.1 in inside
    ensures ref in inside
  {
    var r :| r in RefsOf(first) && Graph.Reaches(RefEdges(inspects), r, ref);
    Graph.ReachesInside(RefEdges(inspects), r, ref, inside);
  }

  /** `owned` holds what the inspected containers in it run in. */
  ghost predicate Owned(inspects: Inspects, first: Inspected, owned: set<string>) {
    && RefsOf(first) <= owned
    && forall ref | ref in owned && ref in inspects && inspects[ref].Found? :: RefsOf(inspects[ref].info) <= owned
  }

  ghost predicate LeastOwned(inspects: Inspects, first: Inspected, owned: set<string>) {
    forall k | Unfold(k) ::
      && Owned(inspects, first, owned)
      && forall seen | Owned(inspects, first, seen) :: owned <= seen
  }

  lemma OwnedByOwned(inspects: Inspects, first: Inspected)
    ensures Owned(inspects, first, OwnedBy(inspects, first))
  {
    var edges := RefEdges(inspects);
    forall ref | ref in RefsOf(first) ensures ref in OwnedBy(inspects, first) {
      Graph.ReachesSelf(edges, ref);
    }
    forall ref, next | ref in OwnedBy(inspects, first) && (ref, next) in edges
      ensures next in OwnedBy(inspects, first)
    {
      var r :| r in RefsOf(first) && Graph.Reaches(edges, r, ref);
      Graph.ReachesNext(edges, r, ref, next);
    }
    forall ref | ref in OwnedBy(inspects, first) && ref in inspects && inspects[ref].Found?
      ensures RefsOf(inspects[ref].info) <= OwnedBy(inspects, first)
    {
      forall next | next in RefsOf(inspects[ref].info) ensures next in OwnedBy(inspects, first) {
        assert (ref, next) in edges;
      }
    }
  }

  lemma OwnedByLeast(inspects: Inspects, first: Inspected, seen: set<string>)
    requires Owned(inspects, first, seen)
    ensures OwnedBy(inspects, first) <= seen
  {
    forall ref | ref in OwnedBy(inspects, first) ensures ref in seen {
      LiveOwnerNamed(inspects, first, ref, seen);
    }
  }

  /** What has been seen is owned, answered its inspect, and waits or has been expanded. */
  ghost predicate SeenSound(inspects: Inspects, owned: set<string>, seen: set<string>, waiting: set<Inspected>) {
    forall ref | ref in seen ::
      && ref in owned
      && (ref in inspects ==>
        inspects[ref].Found? && (inspects[ref].info in waiting || RefsOf(inspects[ref].info) <= seen))
  }

  ghost predicate OwnersOf(inspects: Inspects, seen: set<string>, owners: seq<NamespaceOwner>) {
    forall o :: o in owners <==> o.ref in seen && o == OwnerNamed(inspects, o.ref)
  }

  ghost predicate Following(inspects: Inspects, first: Inspected, owned: set<string>, seen: set<string>,
      waiting: set<Inspected>, owners: seq<NamespaceOwner>) {
    forall k | Peek(k, owners) ::
      && SeenSound(inspects, owned, seen, waiting)
      && (forall info | info in waiting :: RefsOf(info) <= owned)
      && (first in waiting || RefsOf(first) <= seen)
      && OwnersOf(inspects, seen, owners)
  }

  lemma SeenOne(inspects: Inspects, first: Inspected, owned: set<string>, seen: set<string>, waiting: set<Inspected>,
      owners: seq<NamespaceOwner>, ref: string)
    requires LeastOwned(inspects, first, owned) && Following(inspects, first, owned, seen, waiting, owners)
    requires ref in owned && ref !in seen && (ref in inspects ==> inspects[ref].Found?)
    ensures Following(inspects, first, owned, seen + {ref},
      waiting + (if ref in inspects then {inspects[ref].info} else {}), owners + [OwnerNamed(inspects, ref)])
  {
    assert Unfold(0) && Peek(0, owners);
  }

  ghost function Waiting(queue: seq<Inspected>): set<Inspected> {
    set info | info in queue
  }

  lemma Enqueued(queue: seq<Inspected>, info: Inspected)
    ensures Waiting(queue + [info]) == Waiting(queue) + {info}
    ensures Waiting([info] + queue) == Waiting(queue) + {info}
  {
  }

  /** The first `k` references of the container have been seen. */
  ghost predicate SeenUpTo(info: Inspected, k: nat, seen: set<string>)
    requires k <= |info.modes|
  {
    forall j | 0 <= j < k && ModeRef(info.modes[j]).Some? :: ModeRef(info.modes[j]).value in seen
  }

  lemma SeenOneMore(info: Inspected, k: nat, seen: set<string>, more: set<string>)
    requires k < |info.modes| && SeenUpTo(info, k, seen) && seen <= more
    requires ModeRef(info.modes[k]).Some? ==> ModeRef(info.modes[k]).value in more
    ensures SeenUpTo(info, k + 1, more)
  {
  }

  ghost function Unseen(owned: set<string>, seen: set<string>): nat {
    |owned - seen|
  }

  /** Inspects one reference and records its container, unless the inspect fails. */
  method FollowRef(inspects: Inspects, ghost first: Inspected, ghost owned: set<string>,
                   seen0: set<string>, queue0: seq<Inspected>, owners0: seq<NamespaceOwner>, ghost info: Inspected,
                   ref: string)
    returns (ok: bool, seen: set<string>, queue: seq<Inspected>, owners: seq<NamespaceOwner>)
    requires LeastOwned(inspects, first, owned) && ref in owned && ref !in seen0
    requires Following(inspects, first, owned, seen0, Waiting(queue0) + {info}, owners0)
    ensures ok ==> Following(inspects, first, owned, seen, Waiting(queue) + {info}, owners)
    ensures ok ==> seen == seen0 + {ref} && Unseen(owned, seen) < Unseen(owned, seen0)
    ensures !ok ==> ref in inspects && inspects[ref].Failed?
  {
    ok, seen, queue, owners := true, seen0, queue0, owners0;
    if ref in inspects && inspects[ref].Failed? { return false, seen, queue, owners; }
    SeenOne(inspects, first, owned, seen, Waiting(queue) + {info}, owners, ref);
    SmallerRest(owned, seen, ref);
    seen, owners := seen + {ref}, owners + [OwnerNamed(inspects, ref)];
    if ref in inspects {
      Enqueued(queue, inspects[ref].info);
      assert Waiting(queue) + {info} + {inspects[ref].info} == Waiting(queue) + {inspects[ref].info} + {info};
      queue := queue + [inspects[ref].info];
    } else {
      assert Waiting(queue) + {info} + {} == Waiting(queue) + {info};
    }
  }

  /** Follows every reference of one inspected container, unless an inspect fails. */
  method ExpandRefs(inspects: Inspects, ghost first: Inspected, ghost owned: set<string>,
                    seen0: set<string>, queue0: seq<Inspected>, owners0: seq<NamespaceOwner>, info: Inspected)
    returns (ok: bool, seen: set<string>, queue: seq<Inspected>, owners: seq<NamespaceOwner>)
    requires LeastOwned(inspects, first, owned)
    requires Following(inspects, first, owned, seen0, Waiting(queue0) + {info}, owners0)
    ensures ok ==> Following(inspects, first, owned, seen, Waiting(queue), owners)
    ensures ok ==>
      Unseen(owned, seen) < Unseen(owned, seen0)
      || (Unseen(owned, seen) == Unseen(owned, seen0) && |queue| == |queue0|)
    ensures !ok ==> exists ref :: ref in owned && ref in inspects && inspects[ref].Failed?
  {
    ok, seen, queue, owners := true, seen0, queue0, owners0;
    for k := 0 to |info.modes|
      invariant Following(inspects, first, owned, seen, Waiting(queue) + {info}, owners) && SeenUpTo(info, k, seen)
      invariant Unseen(owned, seen) < Unseen(owned, seen0)
        || (Unseen(owned, seen) == Unseen(owned, seen0) && |queue| == |queue0|)
    {
      var reference := ModeRef(info.modes[k]);
      ghost var was := seen;
      if reference.Some? && reference.value !in seen {
        RefOwned(inspects, first, owned, seen, Waiting(queue) + {info}, owners, info, k);
        ok, seen, queue, owners := FollowRef(inspects, first, owned, seen, queue, owners, info, reference.value);
        if !ok { return; }
      }
      SeenOneMore(info, k, was, seen);
    }
    ok := true;
    ExpandedRefs(inspects, first, owned, seen, Waiting(queue), owners, info);
  }

  lemma ExpandedRefs(inspects: Inspects, first: Inspected, owned: set<string>, seen: set<string>,
      waiting: set<Inspected>, owners: seq<NamespaceOwner>, info: Inspected)
    requires Following(inspects, first, owned, seen, waiting + {info}, owners)
    requires SeenUpTo(info, |info.modes|, seen)
    ensures Following(inspects, first, owned, seen, waiting, owners)
  {
    assert Unfold(0) && Peek(0, owners);
    assert RefsOf(info) <= seen;
  }

  lemma RefOwned(inspects: Inspects, first: Inspected, owned: set<string>, seen: set<string>, waiting: set<Inspected>,
      owners: seq<NamespaceOwner>, info: Inspected, k: nat)
    requires Following(inspects, first, owned, seen, waiting, owners) && info in waiting
    requires k < |info.modes| && ModeRef(info.modes[k]).Some?
    ensures ModeRef(info.modes[k]).value in owned
  {
    assert Unfold(0) && Peek(0, owners);
    assert ModeRef(info.modes[k]).value in RefsOf(info);
  }

  lemma FollowedAll(inspects: Inspects, first: Inspected, owned: set<string>, seen: set<string>,
      owners: seq<NamespaceOwner>)
    requires LeastOwned(inspects, first, owned) && Following(inspects, first, owned, seen, {}, owners)
    ensures OwnersOf(inspects, owned, owners)
    ensures forall ref | ref in owned && ref in inspects :: inspects[ref].Found?
  {
    assert Unfold(0) && Peek(0, owners);
    assert Owned(inspects, first, seen);
    assert seen == owned;
  }

  lemma FollowFrom(inspects: Inspects, first: Inspected, owned: set<string>)
    requires LeastOwned(inspects, first, owned)
    ensures Following(inspects, first, owned, {}, Waiting([first]), [])
  {
    assert Unfold(0);
  }

  /**
    The containers whose namespace the target runs in, through any chain of owners:
    exactly the references reachable from its own modes, or unread when one of the
    inspects on the way failed for another reason than a missing container.
  */
  method NamespaceOwnerRefs(inspects: Inspects, target: Target) returns (r: OwnerRefs)
    ensures r.Unread? <==> Unreadable(inspects, target)
    ensures r.Read? ==> forall o :: o in r.owners <==>
      LiveOwner(inspects, FirstLookup(inspects, target), o.ref) && o == OwnerNamed(inspects, o.ref)
  {
    var lookup := FirstLookup(inspects, target);
    if lookup.None? { return Read([]); }
    if lookup.value.Failed? { return Unread; }
    var first := lookup.value.info;
    ghost var owned := OwnedBy(inspects, first);
    OwnedByOwned(inspects, first);
    forall seen | Owned(inspects, first, seen) ensures owned <= seen { OwnedByLeast(inspects, first, seen); }
    var ok, owners := FollowRefs(inspects, first, owned);
    assert lookup == Some(Found(first));
    r := if ok then Read(owners) else Unread;
  }

  method FollowRefs(inspects: Inspects, first: Inspected, ghost owned: set<string>)
    returns (ok: bool, owners: seq<NamespaceOwner>)
    requires LeastOwned(inspects, first, owned)
    ensures !ok ==> exists ref :: ref in owned && ref in inspects && inspects[ref].Failed?
    ensures ok ==> forall ref | ref in owned && ref in inspects :: inspects[ref].Found?
    ensures ok ==> OwnersOf(inspects, owned, owners)
  {
    owners := [];
    var seen: set<string> := {};
    var queue := [first];
    FollowFrom(inspects, first, owned);
    while queue != []
      invariant Following(inspects, first, owned, seen, Waiting(queue), owners)
      decreases Unseen(owned, seen), |queue|
    {
      var info, rest := queue[0], queue[1..];
      assert queue == [info] + rest;
      Enqueued(rest, info);
      ok, seen, queue, owners := ExpandRefs(inspects, first, owned, seen, rest, owners, info);
      if !ok { return; }
    }
    assert Waiting(queue) == {};
    FollowedAll(inspects, first, owned, seen, owners);
    ok := true;
  }
}
