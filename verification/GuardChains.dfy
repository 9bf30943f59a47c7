/**
  How far a permission reaches along chains of namespaces, rendered, live or mixed.

  A stop or an update leaves no such chain into the stack. A deploy recreates
  nothing a spared service is wired to; what else it spares on a chain the guard
  does not follow to its end is stated exactly.
*/
module GuardChains {
  import opened Common
  import opened GuardModel
  import opened GuardClosures
  import opened EndpointGuard
  import opened GuardSafety
  import Graph

  /** What reading a rendered file guarantees: a namespace is a link, and makes the hash unreliable. */
  ghost predicate IsReadRender(rendered: Rendered) {
    forall s | s in rendered ::
      && (forall o | o in rendered[s].namespaceServices :: o in rendered[s].linkedServices)
      && (rendered[s].namespaceServices != [] ==> rendered[s].hashUnreliable)
  }

  /** The deploy neither removes the container as a live orphan nor recreates its service. */
  ghost predicate Spared(n: ListedNode, m: Mutation, c: Container)
    requires m.Up?
  {
    !IsLiveOrphan(n, c)
      && (IsRendered(n, c) ==> Verdict(Own(n, m.pinnedServices), RenderedOf(n), ServiceOf(c).value) == No)
  }

  // ---------------------------------------------------------- recreate verdicts

  lemma {:induction false} ReachesThrough(edges: Graph.Edges, a: string, b: string, w: seq<string>)
    requires Graph.Reaches(edges, a, b) && Graph.IsWalk(edges, w) && w[0] == b
    ensures Graph.Reaches(edges, a, w[|w| - 1])
    decreases |w|
  {
    if |w| > 1 {
      Graph.ReachesNext(edges, a, b, w[1]);
      ReachesThrough(edges, a, w[1], w[1..]);
    }
  }

  /** A service with verdict no is wired only to services with verdict no. */
  lemma NoIsInherited(own: string -> Recreate, rendered: Rendered, service: string, linked: string)
    requires Verdict(own, rendered, service) == No && Graph.Reaches(LinkEdges(rendered), service, linked)
    ensures Verdict(own, rendered, linked) == No
  {
    var edges := LinkEdges(rendered);
    forall v | Meets(own, rendered, linked, v) ensures Meets(own, rendered, service, v) {
      var s :| Graph.Reaches(edges, linked, s) && own(s) == v;
      var w: seq<string> :| Graph.Connects(edges, w, linked, s);
      ReachesThrough(edges, service, linked, w);
    }
  }

  /** A chain of namespaces to a rendered service is a chain of links. */
  lemma NamespacesAreLinks(rendered: Rendered, a: string, b: string)
    requires IsReadRender(rendered) && Graph.Reaches(NamespaceEdges(rendered), a, b) && b in rendered
    ensures Graph.Reaches(LinkEdges(rendered), a, b)
  {
    var w: seq<string> :| Graph.Connects(NamespaceEdges(rendered), w, a, b);
    forall i | 0 <= i < |w| - 1 ensures (w[i], w[i + 1]) in LinkEdges(rendered) {
      assert (w[i], w[i + 1]) in NamespaceEdges(rendered);
      if i + 1 < |w| - 1 { assert (w[i + 1], w[i + 2]) in NamespaceEdges(rendered); }
    }
    assert Graph.Connects(LinkEdges(rendered), w, a, b);
  }

  /**
    A permitted deploy recreates nothing that anything endangered is wired to, nor any owner of
    a namespace it is rendered into.
  */
  lemma UpSparesWiring(n: Node, m: Mutation, c: Container, linked: string)
    requires !n.remote && DockerIds(n) && m.Up? && Permitted(n, m) && Endangered(n, c) && IsRendered(n, c)
    requires || Graph.Reaches(LinkEdges(RenderedOf(n)), ServiceOf(c).value, linked)
             || (IsReadRender(RenderedOf(n)) && linked in RenderedOf(n)
               && Graph.Reaches(NamespaceEdges(RenderedOf(n)), ServiceOf(c).value, linked))
    ensures Verdict(Own(n, m.pinnedServices), RenderedOf(n), linked) == No
  {
    UpPermitted(n, m);
    if !Graph.Reaches(LinkEdges(RenderedOf(n)), ServiceOf(c).value, linked) {
      NamespacesAreLinks(RenderedOf(n), ServiceOf(c).value, linked);
    }
    NoIsInherited(Own(n, m.pinnedServices), RenderedOf(n), ServiceOf(c).value, linked);
  }

  // --------------------------------------------------- rendered owners, siblings included

  /** Some service of the entry runs, through rendered namespaces, in one the container's service owns. */
  ghost predicate OwnsThrough(n: ListedNode, e: Entry, c: Container) {
    && e in Followed(n) && c in Stack(n) && c !in e.containers && ServiceOf(c).Some?
    && exists root :: root in Names(Services(e.containers)) && root != ServiceOf(c).value
                      && Graph.Reaches(NamespaceEdges(RenderedOf(n)), root, ServiceOf(c).value)
  }

  /** The owner's service is itself one of the entry's: the guard does not list it as an owner. */
  ghost predicate OwnsAsSibling(n: ListedNode, e: Entry, c: Container) {
    OwnsThrough(n, e, c) && ServiceOf(c).value in Names(Services(e.containers))
  }

  /** Every protected container of the service has stopped or is outside the project. */
  ghost predicate IsRetired(e: Entry, service: string) {
    forall p | p in e.containers && ServiceOf(p) == Some(service) ::
      IsStopped(p) || Label(p, PROJECT_LABEL).None? || Label(p, PROJECT_LABEL).value == ""
  }

  lemma EntryIsEndangered(n: ListedNode, e: Entry, p: Container)
    requires e in Followed(n) && p in e.containers
    ensures Endangered(n, p)
  {
    assert p in Members(Followed(n));
    FollowedMembers(n, p);
  }

  lemma NamedMember(cs: seq<Container>, service: string) returns (p: Container)
    requires service in Names(Services(cs))
    ensures p in cs && ServiceOf(p) == Some(service)
  {
    var i :| 0 <= i < |cs| && Services(cs)[i] == Some(service);
    p := cs[i];
  }

  /** A sibling is never recreated, and never a live orphan unless its service's protected containers are retired. */
  lemma SiblingsAreSpared(n: Node, m: Mutation, e: Entry, c: Container)
    requires !n.remote && DockerIds(n) && m.Up? && Permitted(n, m) && OwnsAsSibling(n, e, c)
    ensures IsRendered(n, c) ==> Spared(n, m, c)
    ensures !IsRetired(e, ServiceOf(c).value) ==> Spared(n, m, c)
  {
    UpPermitted(n, m);
    var p := NamedMember(e.containers, ServiceOf(c).value);
    EntryIsEndangered(n, e, p);
    if !IsRetired(e, ServiceOf(c).value) {
      var q :| q in e.containers && ServiceOf(q) == ServiceOf(c)
        && !(IsStopped(q) || Label(q, PROJECT_LABEL).None? || Label(q, PROJECT_LABEL).value == "");
      EntryIsEndangered(n, e, q);
    }
  }

  lemma OwnerIsSpared(n: Node, m: Mutation, e: Entry, c: Container)
    requires !n.remote && DockerIds(n) && m.Up? && Permitted(n, m) && OwnsThrough(n, e, c)
    ensures IsRendered(n, c) ==> Spared(n, m, c)
    ensures !(OwnsAsSibling(n, e, c) && IsRetired(e, ServiceOf(c).value)) ==> Spared(n, m, c)
  {
    if OwnsAsSibling(n, e, c) {
      SiblingsAreSpared(n, m, e, c);
    } else {
      assert OwnsRendered(n, e, c) && Endangered(n, c);
      UpPermitted(n, m);
    }
  }

  /**
    A permitted deploy recreates no rendered owner. It removes none as a live orphan
    exactly where no sibling is a live orphan whose service's protected containers
    have all stopped or are outside the project.
  */
  lemma RenderedOwnersAreSpared(n: Node, m: Mutation)
    requires !n.remote && DockerIds(n) && m.Up? && Permitted(n, m)
    ensures (forall e, c | OwnsThrough(n, e, c) :: Spared(n, m, c)) <==>
            (forall e, c | OwnsAsSibling(n, e, c) && IsRetired(e, ServiceOf(c).value) :: !IsLiveOrphan(n, c))
    ensures forall e, c | OwnsThrough(n, e, c) && IsRendered(n, c) :: Spared(n, m, c)
  {
    forall e, c | OwnsThrough(n, e, c) ensures IsRendered(n, c) ==> Spared(n, m, c) { OwnerIsSpared(n, m, e, c); }
    if forall e, c | OwnsAsSibling(n, e, c) && IsRetired(e, ServiceOf(c).value) :: !IsLiveOrphan(n, c) {
      forall e, c | OwnsThrough(n, e, c) ensures Spared(n, m, c) { OwnerIsSpared(n, m, e, c); }
    }
  }

  // -------------------------------------------------------------- mixed chains

  function TargetOf(x: Container): Target {
    Target(IdOrEmpty(x), NameOf(x))
  }

  /** The second container's service owns, through rendered namespaces, one the first one's service runs in. */
  ghost predicate RenderedStep(n: ListedNode, x: Container, c: Container) {
    && ServiceOf(x).Some? && ServiceOf(c).Some? && ServiceOf(x) != ServiceOf(c)
    && Graph.Reaches(NamespaceEdges(RenderedOf(n)), ServiceOf(x).value, ServiceOf(c).value)
  }

  ghost predicate LiveStep(n: ListedNode, x: Container, c: Container) {
    OwnsLive(n, TargetOf(x), c)
  }

  /**
    Containers of the stack, the first endangered, each owning a namespace the one before runs
    in, rendered or live.
  */
  ghost predicate IsChain(n: ListedNode, w: seq<Container>) {
    && w != [] && Endangered(n, w[0]) && (forall i | 0 <= i < |w| :: w[i] in Stack(n))
    && forall i | 0 <= i < |w| - 1 :: RenderedStep(n, w[i], w[i + 1]) || LiveStep(n, w[i], w[i + 1])
  }

  ghost predicate OnChain(n: ListedNode, c: Container) {
    exists w: seq<Container> :: IsChain(n, w) && w[|w| - 1] == c
  }

  /** A permitted stop or update leaves no chain into the stack, however mixed. */
  lemma StopLeavesNoChain(n: Node, m: Mutation, c: Container)
    requires !n.remote && DockerIds(n) && (m.Stop? || m.Update?) && Permitted(n, m)
    ensures !OnChain(n, c)
  {
    StopPermitted(n, m);
  }

  /** The guard has not found the container, which owns a namespace a container on a chain runs in. */
  ghost predicate IsLate(n: ListedNode, x: Container, c: Container) {
    OnChain(n, x) && c in Stack(n) && !Endangered(n, c) && (RenderedStep(n, x, c) || LiveStep(n, x, c))
  }

  /** It is no live orphan, and where it owns a live namespace its rendered service is not recreated. */
  ghost predicate IsBenign(n: ListedNode, m: Mutation, x: Container, c: Container)
    requires m.Up?
  {
    !IsLiveOrphan(n, c) && (LiveStep(n, x, c) ==> Spared(n, m, c))
  }

  /** A rendered step from a spared container leads to a service with verdict no, if it is rendered at all. */
  lemma RenderedStepIsSpared(n: ListedNode, m: Mutation, x: Container, c: Container)
    requires IsReadRender(RenderedOf(n)) && m.Up? && Spared(n, m, x) && RenderedStep(n, x, c) && !IsLiveOrphan(n, c)
    ensures Spared(n, m, c)
  {
    if IsRendered(n, c) {
      StepIsRendered(RenderedOf(n), ServiceOf(x).value, ServiceOf(c).value);
      NamespacesAreLinks(RenderedOf(n), ServiceOf(x).value, ServiceOf(c).value);
      NoIsInherited(Own(n, m.pinnedServices), RenderedOf(n), ServiceOf(x).value, ServiceOf(c).value);
    }
  }

  /** A service that runs in another's namespace is rendered with one. */
  lemma StepIsRendered(rendered: Rendered, a: string, b: string)
    requires Graph.Reaches(NamespaceEdges(rendered), a, b) && a != b
    ensures a in rendered && rendered[a].namespaceServices != []
  {
    var w: seq<string> :| Graph.Connects(NamespaceEdges(rendered), w, a, b);
    assert (w[0], w[1]) in NamespaceEdges(rendered);
  }

  lemma ChainPrefix(n: ListedNode, w: seq<Container>, init: seq<Container>)
    requires IsChain(n, w) && init != [] && init <= w
    ensures IsChain(n, init)
  {
    forall i | 0 <= i < |init| - 1 ensures RenderedStep(n, init[i], init[i + 1]) || LiveStep(n, init[i], init[i + 1]) {
      assert init[i] == w[i] && init[i + 1] == w[i + 1];
    }
  }

  lemma ChainEnd(n: ListedNode, w: seq<Container>)
    requires IsChain(n, w)
    ensures OnChain(n, w[|w| - 1]) && w[|w| - 1] in Stack(n)
    ensures |w| > 1 ==> RenderedStep(n, w[|w| - 2], w[|w| - 1]) || LiveStep(n, w[|w| - 2], w[|w| - 1])
  {
    var k := |w| - 2;
    assert k >= 0 ==> RenderedStep(n, w[k], w[k + 1]) || LiveStep(n, w[k], w[k + 1]);
  }

  lemma ChainInit(n: ListedNode, w: seq<Container>)
    requires IsChain(n, w) && |w| > 1
    ensures IsChain(n, w[..|w| - 1]) && OnChain(n, w[|w| - 2])
    ensures w[|w| - 1] in Stack(n) && (RenderedStep(n, w[|w| - 2], w[|w| - 1]) || LiveStep(n, w[|w| - 2], w[|w| - 1]))
  {
    var init := w[..|w| - 1];
    ChainPrefix(n, w, init);
    ChainEnd(n, init);
    ChainEnd(n, w);
  }

  lemma StepIsSpared(n: Node, m: Mutation, x: Container, c: Container)
    requires !n.remote && DockerIds(n) && m.Up? && Permitted(n, m) && IsReadRender(RenderedOf(n))
    requires Spared(n, m, x) && OnChain(n, x) && c in Stack(n) && (RenderedStep(n, x, c) || LiveStep(n, x, c))
    requires IsLate(n, x, c) ==> IsBenign(n, m, x, c)
    ensures Spared(n, m, c)
  {
    if Endangered(n, c) {
      UpPermitted(n, m);
    } else if RenderedStep(n, x, c) {
      RenderedStepIsSpared(n, m, x, c);
    }
  }

  lemma {:induction false} ChainIsSpared(n: Node, m: Mutation, w: seq<Container>)
    requires !n.remote && DockerIds(n) && m.Up? && Permitted(n, m) && IsReadRender(RenderedOf(n)) && IsChain(n, w)
    requires forall x, c | IsLate(n, x, c) :: IsBenign(n, m, x, c)
    ensures Spared(n, m, w[|w| - 1])
    decreases |w|
  {
    if |w| == 1 {
      UpPermitted(n, m);
    } else {
      ChainInit(n, w);
      ChainIsSpared(n, m, w[..|w| - 1]);
      StepIsSpared(n, m, w[|w| - 2], w[|w| - 1]);
    }
  }

  lemma ChainNext(n: ListedNode, w: seq<Container>, c: Container)
    requires IsChain(n, w) && c in Stack(n) && (RenderedStep(n, w[|w| - 1], c) || LiveStep(n, w[|w| - 1], c))
    ensures IsChain(n, w + [c])
  {
    var u := w + [c];
    assert u[0] == w[0];
    forall i | 0 <= i < |u| ensures u[i] in Stack(n) { assert i < |w| ==> u[i] == w[i]; }
    forall i | 0 <= i < |u| - 1 ensures RenderedStep(n, u[i], u[i + 1]) || LiveStep(n, u[i], u[i + 1]) {
      assert u[i] == w[i];
      if i < |w| - 1 { assert u[i + 1] == w[i + 1]; }
    }
  }

  lemma LateIsOnChain(n: ListedNode, x: Container, c: Container)
    requires IsLate(n, x, c)
    ensures OnChain(n, c)
  {
    var w: seq<Container> :| IsChain(n, w) && w[|w| - 1] == x;
    ChainNext(n, w, c);
    assert (w + [c])[|w|] == c;
  }

  /** A permitted deploy spares everything on every chain exactly where each owner the guard did not find is benign. */
  lemma ChainsAreSpared(n: Node, m: Mutation)
    requires !n.remote && DockerIds(n) && m.Up? && Permitted(n, m) && IsReadRender(RenderedOf(n))
    ensures (forall c | OnChain(n, c) :: Spared(n, m, c)) <==> (forall x, c | IsLate(n, x, c) :: IsBenign(n, m, x, c))
  {
    if forall x, c | IsLate(n, x, c) :: IsBenign(n, m, x, c) {
      forall c | OnChain(n, c) ensures Spared(n, m, c) {
        var w: seq<Container> :| IsChain(n, w) && w[|w| - 1] == c;
        ChainIsSpared(n, m, w);
      }
    }
    if forall c | OnChain(n, c) :: Spared(n, m, c) {
      forall x, c | IsLate(n, x, c) ensures IsBenign(n, m, x, c) { LateIsOnChain(n, x, c); }
    }
  }

  // ------------------------------------------------- where the guard sees them all

  /** Compose labels no container of a service that names a namespace with the hash it renders for it. */
  ghost predicate HashesDiffer(n: ListedNode) {
    forall c | c in Stack(n) && IsRendered(n, c) && RenderedOf(n)[ServiceOf(c).value].namespaceServices != [] ::
      ServiceOf(c).value in n.configHash ==> Label(c, HASH_LABEL) != Some(n.configHash[ServiceOf(c).value])
  }

  /** Whatever a reference is called, it answers as the container it names. */
  ghost predicate InspectsAgree(n: ListedNode) {
    forall x, ref | x in Stack(n) && NamesOwner(OwnerNamed(n.inspects, ref), IdOrEmpty(x), FirstName(x)) ::
      FirstLookup(n.inspects, TargetOf(x)) == if ref in n.inspects then Some(n.inspects[ref]) else None
  }

  /** A permitted deploy follows a rendered namespace only out of a service whose containers carry the rendered hash. */
  lemma NamespaceNeedsEqualHash(n: Node, m: Mutation, x: Container)
    requires !n.remote && DockerIds(n) && m.Up? && Permitted(n, m) && Endangered(n, x)
    requires IsRendered(n, x) && RenderedOf(n)[ServiceOf(x).value].namespaceServices != []
    ensures ServiceOf(x).value in n.configHash && Label(x, HASH_LABEL) == Some(n.configHash[ServiceOf(x).value])
  {
    var rendered, s := RenderedOf(n), ServiceOf(x).value;
    var own := Own(n, m.pinnedServices);
    UpPermitted(n, m);
    Graph.ReachesSelf(LinkEdges(rendered), s);
    if own(s) != No { assert Meets(own, rendered, s, own(s)); }
    OwnRecreateNo(n, Stack(n), rendered, m.pinnedServices, s);
  }

  lemma NoRenderedStep(n: Node, m: Mutation, x: Container, c: Container)
    requires !n.remote && DockerIds(n) && m.Up? && Permitted(n, m) && Endangered(n, x) && HashesDiffer(n)
    ensures !RenderedStep(n, x, c)
  {
    if RenderedStep(n, x, c) {
      StepIsRendered(RenderedOf(n), ServiceOf(x).value, ServiceOf(c).value);
      NamespaceNeedsEqualHash(n, m, x);
    }
  }

  lemma NoRenderedOwner(n: Node, m: Mutation, e: Entry, c: Container)
    requires !n.remote && DockerIds(n) && m.Up? && Permitted(n, m) && HashesDiffer(n) && e in Followed(n)
    ensures !OwnsRendered(n, e, c)
  {
    if OwnsRendered(n, e, c) {
      var root :|
        root in Names(Services(e.containers))
        && Graph.Reaches(NamespaceEdges(RenderedOf(n)), root, ServiceOf(c).value);
      var p := NamedMember(e.containers, root);
      EntryIsEndangered(n, e, p);
      NoRenderedStep(n, m, p, c);
    }
  }

  lemma LiveOwnerThrough(inspects: Inspects, first: Option<Lookup>, ref: string, next: string)
    requires LiveOwner(inspects, first, ref) && ref in inspects && LiveOwner(inspects, Some(inspects[ref]), next)
    ensures LiveOwner(inspects, first, next)
  {
    var edges := RefEdges(inspects);
    var r :| r in RefsOf(first.value.info) && Graph.Reaches(edges, r, ref);
    var q :| q in RefsOf(inspects[ref].info) && Graph.Reaches(edges, q, next);
    assert (ref, q) in edges;
    Graph.ReachesNext(edges, r, ref, q);
    var w: seq<string> :| Graph.Connects(edges, w, q, next);
    ReachesThrough(edges, r, q, w);
  }

  lemma AgreedLookup(n: ListedNode, x: Container, ref: string)
    requires InspectsAgree(n) && x in Stack(n) && NamesOwner(OwnerNamed(n.inspects, ref), IdOrEmpty(x), FirstName(x))
    ensures FirstLookup(n.inspects, TargetOf(x)) == if ref in n.inspects then Some(n.inspects[ref]) else None
  {
  }

  /** A live owner of a live owner is a live owner. */
  lemma LiveOwnersCompose(n: ListedNode, t: Target, x: Container, c: Container)
    requires InspectsAgree(n) && x in Stack(n) && OwnsLive(n, t, x) && LiveStep(n, x, c)
    ensures OwnsLive(n, t, c)
  {
    var ref :| LiveOwner(n.inspects, FirstLookup(n.inspects, t), ref)
      && NamesOwner(OwnerNamed(n.inspects, ref), IdOrEmpty(x), FirstName(x));
    AgreedLookup(n, x, ref);
    LiveOwnersComposeAt(n, t, TargetOf(x), c, ref);
  }

  lemma LiveOwnersComposeAt(n: ListedNode, t: Target, u: Target, c: Container, ref: string)
    requires LiveOwner(n.inspects, FirstLookup(n.inspects, t), ref) && OwnsLive(n, u, c)
    requires FirstLookup(n.inspects, u) == if ref in n.inspects then Some(n.inspects[ref]) else None
    ensures OwnsLive(n, t, c)
  {
    var next :|
      LiveOwner(n.inspects, FirstLookup(n.inspects, u), next)
      && NamesOwner(OwnerNamed(n.inspects, next), IdOrEmpty(c), FirstName(c));
    LiveOwnerThrough(n.inspects, FirstLookup(n.inspects, t), ref, next);
  }

  lemma LiveStepIsEndangered(n: Node, m: Mutation, x: Container, c: Container)
    requires !n.remote && DockerIds(n) && m.Up? && Permitted(n, m) && HashesDiffer(n) && InspectsAgree(n)
    requires !n.provider.ProviderUnresolved?
    requires Endangered(n, x) && c in Stack(n) && LiveStep(n, x, c)
    ensures Endangered(n, c)
  {
    forall e | e in Followed(n) ensures !OwnsRendered(n, e, x) { NoRenderedOwner(n, m, e, x); }
    if IsProtected(n, x) {
      assert IsListedRoot(n, x) && IsListedTarget(n, TargetOf(x));
    } else {
      var t :| IsProtectedTarget(n, t) && OwnsLive(n, t, x);
      LiveOwnersCompose(n, t, x, c);
    }
  }

  lemma StepIsEndangered(n: Node, m: Mutation, x: Container, c: Container)
    requires !n.remote && DockerIds(n) && m.Up? && Permitted(n, m) && HashesDiffer(n) && InspectsAgree(n)
    requires !n.provider.ProviderUnresolved?
    requires Endangered(n, x) && c in Stack(n) && (RenderedStep(n, x, c) || LiveStep(n, x, c))
    ensures Endangered(n, c)
  {
    NoRenderedStep(n, m, x, c);
    LiveStepIsEndangered(n, m, x, c);
  }

  lemma EndangeredStays(n: Node, m: Mutation, c: Container)
    requires !n.remote && DockerIds(n) && m.Up? && Permitted(n, m) && Endangered(n, c)
    ensures Spared(n, m, c)
  {
    UpPermitted(n, m);
  }

  /**
    With hashes as Compose labels them and inspects that agree, the guard has found every
    container on every chain, and a permitted deploy spares them all.
  */
  lemma {:induction false} UpSparesEveryChain(n: Node, m: Mutation, w: seq<Container>)
    requires !n.remote && DockerIds(n) && m.Up? && Permitted(n, m) && HashesDiffer(n) && InspectsAgree(n)
    requires !n.provider.ProviderUnresolved?
    requires IsChain(n, w)
    ensures Endangered(n, w[|w| - 1]) && Spared(n, m, w[|w| - 1])
    decreases |w|
  {
    if |w| > 1 {
      ChainInit(n, w);
      UpSparesEveryChain(n, m, w[..|w| - 1]);
      StepIsEndangered(n, m, w[|w| - 2], w[|w| - 1]);
    }
    EndangeredStays(n, m, w[|w| - 1]);
  }
}
