/**
  Two nodes on which a permitted deploy removes a running container that owns,
  along a chain the guard does not follow to its end, a namespace something
  protected is rendered into.

  In both the proxy's container carries the hash Compose renders for its service.
  Where it does not, the deploy is refused: see `GuardChains.NamespaceNeedsEqualHash`.
*/
module GuardLimits {
  import opened Common
  import opened GuardModel
  import opened GuardClosures
  import opened EndpointGuard
  import opened GuardSafety
  import opened GuardChains
  import Graph

  // ------------------------------------------------------------ a sibling slips

  const PROXY := Container(
    Some("1"), ["/proxy"],
    map[PROJECT_LABEL := "edge", SERVICE_LABEL := "proxy", INFRASTRUCTURE_LABEL := "true", HASH_LABEL := "h",
      VERSION_LABEL := "2"],
    Some("running"), None, [])
  const STOPPED_VPN := Container(
    Some("2"), ["/vpn-1"], map[PROJECT_LABEL := "edge", SERVICE_LABEL := "vpn", INFRASTRUCTURE_LABEL := "true"],
    Some("exited"), None, [])
  const LIVE_VPN := Container(
    Some("3"), ["/vpn-2"], map[PROJECT_LABEL := "edge", SERVICE_LABEL := "vpn"], Some("running"), None, [])

  const VIEW := RenderedService(None, None, None, ["vpn"], ["vpn"], true)

  function Bridged(id: string, name: string): Lookup {
    Found(Inspected(Some(id), Some(name), ["bridge"]))
  }

  /** A labeled proxy in the namespace of `vpn`, whose profile the deploy does not enable. */
  const EDGE := Node(
    false, "edge", {}, Some([PROXY, STOPPED_VPN, LIVE_VPN]),
    map["1" := Bridged("1", "/proxy"), "2" := Bridged("2", "/vpn-1"), "3" := Bridged("3", "/vpn-2")],
    Self(NotInDocker, None, None, None, {}), [], NoProvider,
    Some(map["proxy" := VIEW]), map["proxy" := "h"], map[], Some("2"))

  lemma EdgeStack()
    ensures EDGE.list.Some? && forall c :: c in Stack(EDGE) <==> c == PROXY || c == STOPPED_VPN || c == LIVE_VPN
  {
  }

  lemma BridgedHasNoOwner(inspects: Inspects, id: string, name: string, ref: string)
    ensures !LiveOwner(inspects, Some(Bridged(id, name)), ref)
  {
    assert RefsOf(Inspected(Some(id), Some(name), ["bridge"])) == {};
  }

  /** No container of the node runs in another one's namespace, and every inspect answers. */
  lemma EdgeIsQuiet(t: Target, ref: string)
    ensures !LiveOwner(EDGE.inspects, FirstLookup(EDGE.inspects, t), ref) && !Unreadable(EDGE.inspects, t)
  {
    forall r ensures !LiveOwner(EDGE.inspects, FirstLookup(EDGE.inspects, t), r) {
      BridgedHasNoOwner(EDGE.inspects, "1", "/proxy", r);
      BridgedHasNoOwner(EDGE.inspects, "2", "/vpn-1", r);
      BridgedHasNoOwner(EDGE.inspects, "3", "/vpn-2", r);
    }
  }

  lemma LabelsDiffer()
    ensures PROJECT_LABEL != SERVICE_LABEL && PROJECT_LABEL != INFRASTRUCTURE_LABEL && PROJECT_LABEL != HASH_LABEL
    ensures PROJECT_LABEL != VERSION_LABEL
    ensures SERVICE_LABEL != INFRASTRUCTURE_LABEL && SERVICE_LABEL != HASH_LABEL && SERVICE_LABEL != VERSION_LABEL
    ensures INFRASTRUCTURE_LABEL != HASH_LABEL && INFRASTRUCTURE_LABEL != VERSION_LABEL && HASH_LABEL != VERSION_LABEL
  {
    assert PROJECT_LABEL[19] == 'p' && SERVICE_LABEL[19] == 's' && HASH_LABEL[19] == 'c' && VERSION_LABEL[19] == 'v';
    assert INFRASTRUCTURE_LABEL[0] == 'i'
      && PROJECT_LABEL[0] == SERVICE_LABEL[0] == HASH_LABEL[0] == VERSION_LABEL[0] == 'c';
  }

  lemma EdgeServices()
    ensures ServiceOf(PROXY) == Some("proxy") && ServiceOf(STOPPED_VPN) == Some("vpn")
    ensures ServiceOf(LIVE_VPN) == Some("vpn")
    ensures Label(PROXY, INFRASTRUCTURE_LABEL) == Some("true")
    ensures Label(STOPPED_VPN, INFRASTRUCTURE_LABEL) == Some("true")
    ensures Label(LIVE_VPN, INFRASTRUCTURE_LABEL) == None
    ensures Label(LIVE_VPN, PROJECT_LABEL) == Some("edge")
    ensures Label(PROXY, HASH_LABEL) == Some("h") && Label(PROXY, VERSION_LABEL) == Some("2")
  {
    LabelsDiffer();
  }

  lemma EdgeRoles(c: Container, role: Role)
    requires c == PROXY || c == STOPPED_VPN || c == LIVE_VPN
    ensures DirectlyProtected(EDGE, c, role) <==> role == Carrier && c != LIVE_VPN
  {
    EdgeServices();
    assert "vpn" != "proxy";
  }

  lemma FirstIsMember(cs: seq<Container>)
    requires cs != []
    ensures exists c :: c in cs
  {
    assert cs[0] in cs;
  }

  lemma NoneKept(stack: seq<Container>, keep: Container -> bool, role: Role)
    requires forall c | c in stack :: !keep(c)
    ensures EntryOf(stack, keep, role) == []
  {
    var containers := Filter(stack, keep);
    if containers != [] { FirstIsMember(containers); }
  }

  lemma EdgeEntries()
    ensures Followed(EDGE) == LabeledEntry(EDGE)
    ensures forall c | c in Stack(EDGE) :: IsLabeled(EDGE, c) <==> c != LIVE_VPN
  {
    EdgeStack();
    forall c | c in Stack(EDGE)
      ensures !IsOwnContainer(EDGE.self, c) && !IsProvider(EDGE, c) && (IsLabeled(EDGE, c) <==> c != LIVE_VPN)
    {
      EdgeRoles(c, Sencho);
      EdgeRoles(c, Carrier);
    }
    NoneKept(Stack(EDGE), c => IsOwnContainer(EDGE.self, c), Sencho);
    NoneKept(Stack(EDGE), c => IsProvider(EDGE, c), Carrier);
  }

  lemma EdgeHolds(e: Entry)
    requires e in Followed(EDGE)
    ensures forall c :: c in e.containers <==> c == PROXY || c == STOPPED_VPN
  {
    EdgeStack();
    EdgeEntries();
    assert STOPPED_VPN != LIVE_VPN && PROXY != LIVE_VPN;
  }

  /** The names of two containers' services. */
  lemma TwoNames(cs: seq<Container>, a: Container, b: Container, x: string, y: string)
    requires (forall c :: c in cs <==> c == a || c == b) && ServiceOf(a) == Some(x) && ServiceOf(b) == Some(y)
    ensures Names(Services(cs)) == {x, y}
  {
    var services := Services(cs);
    assert a in cs && b in cs;
    var i :| 0 <= i < |cs| && cs[i] == a;
    var j :| 0 <= j < |cs| && cs[j] == b;
    assert services[i] == Some(x) && services[j] == Some(y);
    forall s | s in services ensures s == Some(x) || s == Some(y) {
      var k :| 0 <= k < |services| && services[k] == s;
      assert cs[k] in cs;
    }
  }

  lemma EdgeFollowed(e: Entry)
    requires e in Followed(EDGE)
    ensures forall c :: c in e.containers <==> c == PROXY || c == STOPPED_VPN
    ensures Names(Services(e.containers)) == {"proxy", "vpn"}
  {
    EdgeHolds(e);
    EdgeServices();
    assert PROXY in e.containers && STOPPED_VPN in e.containers;
    TwoNames(e.containers, PROXY, STOPPED_VPN, "proxy", "vpn");
  }

  lemma EdgeProtects(c: Container, role: Role, direct: bool)
    requires Protected(EDGE, c, role, direct)
    ensures c == PROXY || c == STOPPED_VPN
  {
    EdgeStack();
    EdgeRoles(c, role);
    forall t, ref ensures !LiveOwner(EDGE.inspects, FirstLookup(EDGE.inspects, t), ref) { EdgeIsQuiet(t, ref); }
    if e :| e in Followed(EDGE) && OwnsRendered(EDGE, e, c) {
      EdgeFollowed(e);
      EdgeServices();
    }
  }

  /** A service whose links stay among services left alone is left alone. */
  lemma VerdictInside(own: string -> Recreate, rendered: Rendered, service: string, inside: set<string>)
    requires service in inside && forall s | s in inside :: own(s) == No
    requires forall e | e in LinkEdges(rendered) && e.0 in inside :: e.1 in inside
    ensures Verdict(own, rendered, service) == No
  {
    forall s | Graph.Reaches(LinkEdges(rendered), service, s) ensures own(s) == No {
      Graph.ReachesInside(LinkEdges(rendered), service, s, inside);
    }
  }

  lemma EdgeLinks()
    ensures LinkEdges(RenderedOf(EDGE)) == {}
  {
    assert "vpn" != "proxy";
  }

  lemma EdgeVerdict(pinned: set<string>)
    requires pinned == {}
    ensures Verdict(Own(EDGE, pinned), RenderedOf(EDGE), "proxy") == No
  {
    EdgeLinks();
    EdgeOwn(pinned);
    VerdictInside(Own(EDGE, pinned), RenderedOf(EDGE), "proxy", {"proxy"});
  }

  lemma EdgeOwn(pinned: set<string>)
    requires pinned == {}
    ensures OwnRecreate(EDGE, Stack(EDGE), RenderedOf(EDGE), pinned, "proxy") == No
  {
    EdgeStack();
    EdgeServices();
    assert "vpn" != "proxy";
    var existing := Filter(Stack(EDGE), (c: Container) => ServiceOf(c) == Some("proxy"));
    assert PROXY in existing && forall c | c in existing :: c == PROXY;
    assert NormalizeVersion(Some("2")) == "2";
  }

  lemma ProxyStays(role: Role, direct: bool)
    ensures Harmless(EDGE, Up({}), PROXY, role, direct)
  {
    EdgeServices();
    EdgeVerdict({});
    assert IsRendered(EDGE, PROXY);
  }

  lemma StoppedStays(role: Role, direct: bool)
    ensures Harmless(EDGE, Up({}), STOPPED_VPN, role, direct)
  {
    EdgeServices();
    assert "vpn" != "proxy" && !IsRendered(EDGE, STOPPED_VPN);
  }

  lemma EdgeHarmless()
    ensures AllHarmless(EDGE, Up({}))
  {
    forall c, role, direct | Protected(EDGE, c, role, direct) ensures Harmless(EDGE, Up({}), c, role, direct) {
      EdgeProtects(c, role, direct);
      ProxyStays(role, direct);
      StoppedStays(role, direct);
    }
  }

  /** Where every inspect answers, everything is readable. */
  lemma AllFound(n: ListedNode)
    requires forall ref | ref in n.inspects :: n.inspects[ref].Found?
    ensures RootsReadable(n)
  {
  }

  lemma EdgeReadable()
    ensures RootsReadable(EDGE)
  {
    AllFound(EDGE);
  }

  lemma EdgePermits()
    ensures Permitted(EDGE, Up({}))
  {
    EdgeStack();
    EdgeHarmless();
    EdgeReadable();
  }

  lemma EdgeSibling(e: Entry)
    requires e in Followed(EDGE)
    ensures OwnsAsSibling(EDGE, e, LIVE_VPN) && IsRetired(e, "vpn")
  {
    EdgeStack();
    EdgeServices();
    EdgeFollowed(e);
    assert STOPPED_VPN != LIVE_VPN && PROXY != LIVE_VPN;
    var edges := NamespaceEdges(RenderedOf(EDGE));
    Graph.ReachesSelf(edges, "proxy");
    assert ("proxy", "vpn") in edges;
    Graph.ReachesNext(edges, "proxy", "proxy", "vpn");
    assert "vpn" != "proxy";
  }

  lemma EdgeIds()
    ensures DockerIds(EDGE)
  {
    assert "1"[0] == '1' && "2"[0] == '2' && "3"[0] == '3';
    assert forall c :: c in EDGE.list.value <==> c == PROXY || c == STOPPED_VPN || c == LIVE_VPN;
  }

  lemma EdgeOrphan()
    ensures LIVE_VPN in Stack(EDGE) && IsLiveOrphan(EDGE, LIVE_VPN)
  {
    EdgeStack();
    EdgeServices();
    assert "vpn" != "proxy" && "running"[0] == 'r';
  }

  /**
    A running replica of `vpn` that carries no label is removed by a permitted deploy, although
    the labeled proxy is rendered into its namespace.
  */
  lemma SiblingSlips()
    ensures Permitted(EDGE, Up({})) && DockerIds(EDGE) && IsReadRender(RenderedOf(EDGE))
    ensures LIVE_VPN in Stack(EDGE) && IsLiveOrphan(EDGE, LIVE_VPN)
    ensures exists e :: OwnsAsSibling(EDGE, e, LIVE_VPN) && IsRetired(e, "vpn")
  {
    EdgePermits();
    EdgeIds();
    EdgeOrphan();
    EdgeRender();
    var e := EdgeEntry();
    EdgeSibling(e);
  }

  lemma EdgeRender()
    ensures IsReadRender(RenderedOf(EDGE))
  {
  }

  lemma EdgeEntry() returns (e: Entry)
    ensures e in Followed(EDGE)
  {
    EdgeStack();
    EdgeRoles(PROXY, Carrier);
    e := Entry(Filter(Stack(EDGE), c => IsLabeled(EDGE, c)), Carrier, None);
    assert e in LabeledEntry(EDGE);
  }

  // --------------------------------------------- a live owner of a rendered owner

  const VPN := Container(
    Some("2"), ["/vpn"],
    map[PROJECT_LABEL := "edge", SERVICE_LABEL := "vpn", HASH_LABEL := "h", VERSION_LABEL := "2"], Some("running"),
    None, [])
  const NET := Container(
    Some("3"), ["/net"], map[PROJECT_LABEL := "edge", SERVICE_LABEL := "net"], Some("running"), None, [])

  const PLAIN := RenderedService(None, None, None, [], [], false)

  const IN_NET := Found(Inspected(Some("2"), Some("/vpn"), ["container:3"]))

  /** The proxy is rendered into `vpn`, which runs in the network of a container whose service left the file. */
  const MIXED := Node(
    false, "edge", {}, Some([PROXY, VPN, NET]),
    map["1" := Bridged("1", "/proxy"), "2" := IN_NET, "3" := Bridged("3", "/net")],
    Self(NotInDocker, None, None, None, {}), [], NoProvider,
    Some(map["proxy" := VIEW, "vpn" := PLAIN]), map["proxy" := "h", "vpn" := "h"], map[], Some("2"))

  lemma MixedStack()
    ensures MIXED.list.Some? && forall c :: c in Stack(MIXED) <==> c == PROXY || c == VPN || c == NET
  {
  }

  lemma MixedServices()
    ensures ServiceOf(PROXY) == Some("proxy") && ServiceOf(VPN) == Some("vpn") && ServiceOf(NET) == Some("net")
    ensures Label(PROXY, INFRASTRUCTURE_LABEL) == Some("true") && Label(VPN, INFRASTRUCTURE_LABEL) == None
    ensures Label(NET, INFRASTRUCTURE_LABEL) == None
    ensures Label(NET, PROJECT_LABEL) == Some("edge")
    ensures Label(PROXY, HASH_LABEL) == Some("h") && Label(PROXY, VERSION_LABEL) == Some("2")
    ensures Label(VPN, HASH_LABEL) == Some("h") && Label(VPN, VERSION_LABEL) == Some("2")
  {
    LabelsDiffer();
  }

  lemma NamesDiffer()
    ensures "vpn" != "proxy" && "net" != "proxy" && "net" != "vpn"
  {
    assert "vpn"[0] == 'v' && "proxy"[0] == 'p' && "net"[0] == 'n';
  }

  lemma MixedRoles(c: Container, role: Role)
    requires c == PROXY || c == VPN || c == NET
    ensures DirectlyProtected(MIXED, c, role) <==> role == Carrier && c == PROXY
  {
    MixedServices();
    NamesDiffer();
  }

  lemma MixedIds()
    ensures DockerIds(MIXED)
  {
    assert "1"[0] == '1' && "2"[0] == '2' && "3"[0] == '3';
    assert forall c :: c in MIXED.list.value <==> c == PROXY || c == VPN || c == NET;
  }

  /** The proxy is the only container whose live namespaces are followed, and it runs in none. */
  lemma MixedRoots(id: string, ref: string)
    requires id in RootsOf(MIXED)
    ensures !LiveOwner(MIXED.inspects, FirstLookup(MIXED.inspects, RootsOf(MIXED)[id].target), ref)
  {
    var t := RootsOf(MIXED)[id].target;
    MixedIds();
    RootIdIsTargetId(MIXED, id);
    RootsAreTargets(MIXED, t);
    MixedTargets(t);
    BridgedHasNoOwner(MIXED.inspects, "1", "/proxy", ref);
  }

  lemma MixedTargets(t: Target)
    requires IsProtectedTarget(MIXED, t)
    ensures t.containerId == "1"
  {
    MixedStack();
    MixedServices();
    forall c | IsListedRoot(MIXED, c) ensures c == PROXY {
      MixedRoles(c, Sencho);
      MixedRoles(c, Carrier);
    }
  }

  lemma MixedEntry(e: Entry)
    requires e in Followed(MIXED)
    ensures forall c :: c in e.containers <==> c == PROXY
    ensures Names(Services(e.containers)) == {"proxy"}
  {
    MixedStack();
    MixedServices();
    forall c | c in Stack(MIXED)
      ensures !IsOwnContainer(MIXED.self, c) && !IsProvider(MIXED, c) && (IsLabeled(MIXED, c) <==> c == PROXY)
    {
      MixedRoles(c, Sencho);
      MixedRoles(c, Carrier);
    }
    NoneKept(Stack(MIXED), c => IsOwnContainer(MIXED.self, c), Sencho);
    NoneKept(Stack(MIXED), c => IsProvider(MIXED, c), Carrier);
    assert e in LabeledEntry(MIXED);
    assert PROXY in e.containers;
    var services := Services(e.containers);
    forall s | s in services ensures s == Some("proxy") {
      var k :| 0 <= k < |services| && services[k] == s;
      assert e.containers[k] in e.containers;
    }
    var i :| 0 <= i < |e.containers| && e.containers[i] == PROXY;
    assert services[i] == Some("proxy");
  }

  lemma MixedReach(s: string)
    requires Graph.Reaches(NamespaceEdges(RenderedOf(MIXED)), "proxy", s)
    ensures s == "proxy" || s == "vpn"
  {
    NamesDiffer();
    Graph.ReachesInside(NamespaceEdges(RenderedOf(MIXED)), "proxy", s, {"proxy", "vpn"});
  }

  lemma MixedNotLive(id: string, c: Container)
    requires id in RootsOf(MIXED)
    ensures !OwnsForRoot(MIXED, RootsOf(MIXED)[id], c)
  {
    forall ref ensures !LiveOwner(MIXED.inspects, FirstLookup(MIXED.inspects, RootsOf(MIXED)[id].target), ref) {
      MixedRoots(id, ref);
    }
  }

  lemma MixedRendered(e: Entry, c: Container)
    requires e in Followed(MIXED) && OwnsRendered(MIXED, e, c) && c in Stack(MIXED)
    ensures c == VPN
  {
    MixedStack();
    MixedServices();
    NamesDiffer();
    MixedEntry(e);
    var root :|
      root in Names(Services(e.containers))
      && Graph.Reaches(NamespaceEdges(RenderedOf(MIXED)), root, ServiceOf(c).value);
    MixedReach(ServiceOf(c).value);
  }

  lemma MixedProtects(c: Container, role: Role, direct: bool)
    requires Protected(MIXED, c, role, direct)
    ensures c == PROXY || c == VPN
  {
    MixedStack();
    MixedRoles(c, role);
    forall id | id in RootsOf(MIXED) ensures !OwnsForRoot(MIXED, RootsOf(MIXED)[id], c) { MixedNotLive(id, c); }
    if e :| e in Followed(MIXED) && e.role == role && OwnsRendered(MIXED, e, c) {
      MixedRendered(e, c);
    }
  }

  lemma MixedOwn(pinned: set<string>, s: string)
    requires pinned == {} && (s == "proxy" || s == "vpn")
    ensures OwnRecreate(MIXED, Stack(MIXED), RenderedOf(MIXED), pinned, s) == No
  {
    MixedStack();
    MixedServices();
    NamesDiffer();
    assert NormalizeVersion(Some("2")) == "2";
    OwnRecreateNo(MIXED, Stack(MIXED), RenderedOf(MIXED), pinned, s);
  }

  lemma MixedLinks()
    ensures forall e | e in LinkEdges(RenderedOf(MIXED)) :: e.1 == "proxy" || e.1 == "vpn"
  {
  }

  lemma MixedVerdict(pinned: set<string>, s: string)
    requires pinned == {} && (s == "proxy" || s == "vpn")
    ensures Verdict(Own(MIXED, pinned), RenderedOf(MIXED), s) == No
  {
    MixedLinks();
    MixedOwn(pinned, "proxy");
    MixedOwn(pinned, "vpn");
    VerdictInside(Own(MIXED, pinned), RenderedOf(MIXED), s, {"proxy", "vpn"});
  }

  lemma MixedStays(c: Container, role: Role, direct: bool)
    requires c == PROXY || c == VPN
    ensures Harmless(MIXED, Up({}), c, role, direct)
  {
    MixedServices();
    MixedVerdict({}, if c == PROXY then "proxy" else "vpn");
    assert IsRendered(MIXED, c);
  }

  lemma MixedHarmless()
    ensures AllHarmless(MIXED, Up({}))
  {
    forall c, role, direct | Protected(MIXED, c, role, direct) ensures Harmless(MIXED, Up({}), c, role, direct) {
      MixedProtects(c, role, direct);
      MixedStays(c, role, direct);
    }
  }

  lemma MixedReadable()
    ensures RootsReadable(MIXED)
  {
    AllFound(MIXED);
  }

  lemma MixedPermits()
    ensures Permitted(MIXED, Up({}))
  {
    MixedStack();
    MixedHarmless();
    MixedReadable();
  }

  lemma MixedEndangered()
    ensures Endangered(MIXED, PROXY)
  {
    MixedStack();
    MixedRoles(PROXY, Carrier);
    assert IsProtected(MIXED, PROXY);
  }

  lemma MixedRenderedStep()
    ensures RenderedStep(MIXED, PROXY, VPN)
  {
    MixedServices();
    NamesDiffer();
    var edges := NamespaceEdges(RenderedOf(MIXED));
    Graph.ReachesSelf(edges, "proxy");
    assert ("proxy", "vpn") in edges;
    Graph.ReachesNext(edges, "proxy", "proxy", "vpn");
  }

  lemma MixedChain()
    ensures OnChain(MIXED, NET)
  {
    MixedStack();
    MixedEndangered();
    MixedRenderedStep();
    MixedLiveStep();
    var w := [PROXY, VPN, NET];
    assert IsChain(MIXED, w) && w[|w| - 1] == NET;
  }

  lemma MixedLiveStep()
    ensures LiveStep(MIXED, VPN, NET)
  {
    var first := FirstLookup(MIXED.inspects, TargetOf(VPN));
    assert first == Some(IN_NET);
    assert "container:3"[10..] == "3" && ModeRef("container:3") == Some("3");
    assert "container:3" in IN_NET.info.modes && "3" in RefsOf(IN_NET.info);
    Graph.ReachesSelf(RefEdges(MIXED.inspects), "3");
    assert LiveOwner(MIXED.inspects, first, "3");
    assert NamesOwner(OwnerNamed(MIXED.inspects, "3"), IdOrEmpty(NET), FirstName(NET));
  }

  /** A permitted deploy removes the container whose network the proxy's rendered owner runs in. */
  lemma LateOwnerSlips()
    ensures Permitted(MIXED, Up({})) && DockerIds(MIXED) && IsReadRender(RenderedOf(MIXED))
    ensures OnChain(MIXED, NET) && IsLiveOrphan(MIXED, NET)
  {
    MixedPermits();
    MixedIds();
    MixedChain();
    MixedOrphan();
    MixedRender();
  }

  lemma MixedOrphan()
    ensures IsLiveOrphan(MIXED, NET)
  {
    MixedServices();
    NamesDiffer();
    assert "running"[0] == 'r';
  }

  lemma MixedRender()
    ensures IsReadRender(RenderedOf(MIXED))
  {
    NamesDiffer();
  }

  // ------------------------------------------------- a Sencho without a name

  const SENCHO := Container(Some("1"), ["/"], map[PROJECT_LABEL := "edge"], Some("running"), None, [])
  const OWNER := Container(
    Some("2"), ["/vpn"], map[PROJECT_LABEL := "edge", SERVICE_LABEL := "vpn"], Some("running"), None, [])

  const IN_OWNER := Found(Inspected(Some("1"), Some("/"), ["container:2"]))

  /** Sencho is listed under the name "/", has no service, and runs in the network of another container of its stack. */
  const NAMELESS := Node(
    false, "edge", {}, Some([SENCHO, OWNER]), map["1" := IN_OWNER, "2" := Bridged("2", "/vpn")],
    Self(SelfResolved, Some("1"), None, None, {}), [], NoProvider, Some(map[]), map[], map[], Some("2"))

  lemma NamelessServices()
    ensures ServiceOf(SENCHO) == None && ServiceOf(OWNER) == Some("vpn") && NameOf(SENCHO) == ""
    ensures !HasLabel(SENCHO) && !HasLabel(OWNER) && InStack(NAMELESS, SENCHO) && InStack(NAMELESS, OWNER)
  {
    LabelsDiffer();
  }

  lemma NamelessSelf()
    ensures IsOwnContainer(NAMELESS.self, SENCHO) && !IsOwnContainer(NAMELESS.self, OWNER)
  {
    assert "1" != "2" && !IsHexId("2");
  }

  lemma FilterTwo(a: Container, b: Container, keep: Container -> bool)
    ensures Filter([a, b], keep) == (if keep(a) then [a] else []) + if keep(b) then [b] else []
  {
    assert [a, b][1..] == [b] && [b][1..] == [];
    assert Filter([b], keep) == (if keep(b) then [b] else []) + Filter([], keep);
  }

  lemma NamelessStack()
    ensures Stack(NAMELESS) == [SENCHO, OWNER]
  {
    NamelessServices();
    FilterTwo(SENCHO, OWNER, c => InStack(NAMELESS, c));
  }

  lemma NamelessRoles(c: Container, role: Role)
    requires c == SENCHO || c == OWNER
    ensures DirectlyProtected(NAMELESS, c, role) <==> role == Sencho && c == SENCHO
  {
    NamelessServices();
    NamelessSelf();
  }

  lemma FirstIsSelf(n: ListedNode, a: Container, b: Container)
    requires Stack(n) == [a, b] && IsOwnContainer(n.self, a) && !IsOwnContainer(n.self, b)
    ensures SelfEntry(n) == [Entry([a], Sencho, None)]
  {
    var isOwn := (c: Container) => IsOwnContainer(n.self, c);
    FilterTwo(a, b, isOwn);
    assert [a] + [] == [a];
    assert SelfEntry(n) == EntryOf(Stack(n), isOwn, Sencho);
  }

  lemma NamelessFollowed()
    ensures Followed(NAMELESS) == [Entry([SENCHO], Sencho, None)]
  {
    NamelessStack();
    NamelessSelf();
    forall c | c in Stack(NAMELESS) ensures !IsProvider(NAMELESS, c) && !IsLabeled(NAMELESS, c) {
      NamelessRoles(c, Carrier);
    }
    FirstIsSelf(NAMELESS, SENCHO, OWNER);
    NoneKept(Stack(NAMELESS), c => IsProvider(NAMELESS, c), Carrier);
    NoneKept(Stack(NAMELESS), c => IsLabeled(NAMELESS, c), Carrier);
    assert ProviderEntry(NAMELESS) == [];
    assert LabeledEntry(NAMELESS) == [];
  }

  lemma PutOne(c: Container, role: Role)
    requires c.id.Some?
    ensures PutEntries(map[], [Entry([c], role, None)]) == map[c.id.value := RootOf(c, role)]
  {
    var none: Roots := map[];
    assert PutContainers(none, [c], role) == PutContainers(none[c.id.value := RootOf(c, role)], [], role);
  }

  lemma NoneLabeled(roots: Roots, a: Container, b: Container)
    requires !HasLabel(a) && !HasLabel(b)
    ensures PutLabeled(roots, [a, b]) == roots
  {
    assert [a, b][1..] == [b] && [b][1..] == [];
    assert PutLabeled(roots, [b]) == PutLabeled(roots, []);
  }

  lemma NamelessRoots()
    ensures RootsOf(NAMELESS) == map["1" := Root(Sencho, Target("1", ""), "")]
  {
    NamelessFollowed();
    NamelessServices();
    PutOne(SENCHO, Sencho);
    NoneLabeled(map["1" := RootOf(SENCHO, Sencho)], SENCHO, OWNER);
  }

  lemma NamelessOwns()
    ensures OwnsLive(NAMELESS, Target("1", ""), OWNER)
  {
    var first := FirstLookup(NAMELESS.inspects, Target("1", ""));
    assert first == Some(IN_OWNER);
    assert "container:2"[10..] == "2" && ModeRef("container:2") == Some("2");
    assert "container:2" in IN_OWNER.info.modes && "2" in RefsOf(IN_OWNER.info);
    Graph.ReachesSelf(RefEdges(NAMELESS.inspects), "2");
    assert LiveOwner(NAMELESS.inspects, first, "2");
    assert NamesOwner(OwnerNamed(NAMELESS.inspects, "2"), IdOrEmpty(OWNER), FirstName(OWNER));
  }

  lemma NamelessOwnsNothing(e: Entry, c: Container)
    requires e in Followed(NAMELESS)
    ensures !OwnsRendered(NAMELESS, e, c)
  {
    NamelessFollowed();
    NamelessServices();
    assert Names(Services([SENCHO])) == {};
  }

  lemma NamelessProtects(c: Container, role: Role, direct: bool)
    requires Protected(NAMELESS, c, role, direct)
    ensures role == Sencho && direct
  {
    NamelessStack();
    NamelessRoots();
    NamelessRoles(c, role);
    forall e | e in Followed(NAMELESS) ensures !OwnsRendered(NAMELESS, e, c) { NamelessOwnsNothing(e, c); }
  }

  lemma NamelessPermits()
    ensures Permitted(NAMELESS, Restart) && DockerIds(NAMELESS)
  {
    NamelessStack();
    AllFound(NAMELESS);
    assert "1"[0] == '1' && "2"[0] == '2';
    forall c, role, direct | Protected(NAMELESS, c, role, direct) ensures Harmless(NAMELESS, Restart, c, role, direct) {
      NamelessProtects(c, role, direct);
    }
  }

  /**
    A permitted restart stops the owner of the network a Sencho without a name runs in: the
    guard takes it for Sencho.
  */
  lemma NamelessOwnerSlips()
    ensures Permitted(NAMELESS, Restart) && DockerIds(NAMELESS)
    ensures Endangered(NAMELESS, OWNER) && !IsOwnContainer(NAMELESS.self, OWNER) && PassesAsSencho(NAMELESS, OWNER)
  {
    NamelessPermits();
    NamelessStack();
    NamelessSelf();
    NamelessRoots();
    NamelessOwns();
    RootsAreTargets(NAMELESS, Target("1", ""));
    SparedRestart(NAMELESS, Restart, OWNER);
  }
}
