/**
  What a permission of the Docker endpoint guard guarantees, stated on the
  snapshot alone: which containers carry the connection, and which own a
  namespace one of them runs in through any chain of namespaces.
*/
module GuardSafety {
  import opened Common
  import opened GuardModel
  import opened GuardClosures
  import opened EndpointGuard
  import Whitespace
  import Graph

  /** Docker lists every container under its own non-empty id. */
  ghost predicate DockerIds(n: Node) {
    && n.list.Some?
    && (forall c | c in n.list.value :: c.id.Some? && c.id.value != "")
    && (forall c, d | c in n.list.value && d in n.list.value && c.id == d.id :: c == d)
    && (n.provider.ProviderResolved? ==> n.provider.provider.containerId != "")
  }

  /** The container is Sencho, the provider, or carries the label, whatever its value. */
  ghost predicate IsProtected(n: Node, c: Container) {
    exists role :: DirectlyProtected(n, c, role)
  }

  /** A listed container whose live namespaces matter. */
  ghost predicate IsListedRoot(n: ListedNode, c: Container) {
    c.id.Some? && ((c in n.list.value && HasLabel(c))
      || (c in Stack(n) && (DirectlyProtected(n, c, Sencho) || DirectlyProtected(n, c, Carrier))))
  }

  ghost predicate IsListedId(n: ListedNode, id: string) {
    exists c :: IsListedRoot(n, c) && c.id.value == id
  }

  ghost predicate IsProviderTarget(n: ListedNode, t: Target) {
    n.provider.ProviderResolved? && t == Target(n.provider.provider.containerId, n.provider.provider.containerName)
      && !IsListedId(n, t.containerId)
  }

  ghost predicate IsSelfTarget(n: ListedNode, t: Target) {
    && n.self.state == SelfResolved && n.self.containerId == Some(t.containerId) && t.containerId != ""
    && t.containerName == (if n.self.containerName.Some? then n.self.containerName.value else "")
    && !IsListedId(n, t.containerId)
    && !(n.provider.ProviderResolved? && n.provider.provider.containerId == t.containerId)
  }

  /** Sencho, the provider, and every labeled container on the node, listed or only identified. */
  ghost predicate IsProtectedTarget(n: ListedNode, t: Target) {
    || IsListedTarget(n, t)
    || IsProviderTarget(n, t)
    || IsSelfTarget(n, t)
  }

  /** The container is protected, or owns a namespace a protected one runs in, rendered or live, through any chain. */
  ghost predicate Endangered(n: ListedNode, c: Container) {
    && c in Stack(n)
    && (|| IsProtected(n, c)
        || (exists e | e in Followed(n) :: OwnsRendered(n, e, c))
        || (exists t :: IsProtectedTarget(n, t) && OwnsLive(n, t, c)))
  }

  // ------------------------------------------------- the roots are the targets

  /** Each id is mapped to a container of `from` with that id. */
  ghost predicate TakenFrom(roots: Roots, from: set<Container>) {
    forall id | id in roots :: exists c | c in from :: c.id == Some(id) && roots[id].target == Target(id, NameOf(c))
  }

  ghost predicate AllTaken(roots: Roots, from: set<Container>) {
    forall c | c in from && c.id.Some? :: c.id.value in roots
  }

  ghost function AsSet(cs: seq<Container>): set<Container> {
    set c | c in cs
  }

  lemma TakeContainer(roots: Roots, c: Container, root: Root, from: set<Container>)
    requires TakenFrom(roots, from) && AllTaken(roots, from) && c.id.Some?
    requires root.target == Target(c.id.value, NameOf(c))
    ensures TakenFrom(roots[c.id.value := root], from + {c}) && AllTaken(roots[c.id.value := root], from + {c})
  {
    var put := roots[c.id.value := root];
    forall id | id in put
      ensures exists d | d in from + {c} :: d.id == Some(id) && put[id].target == Target(id, NameOf(d))
    {
      if c.id == Some(id) {
        assert c in from + {c};
      } else {
        var d :| d in from && d.id == Some(id) && roots[id].target == Target(id, NameOf(d));
        assert d in from + {c};
      }
    }
  }

  lemma TakeNothing(roots: Roots, c: Container, from: set<Container>)
    requires TakenFrom(roots, from) && AllTaken(roots, from) && (c.id.None? || c.id.value in roots)
    ensures TakenFrom(roots, from + {c}) && AllTaken(roots, from + {c})
  {
    forall id | id in roots
      ensures exists d | d in from + {c} :: d.id == Some(id) && roots[id].target == Target(id, NameOf(d))
    {
      var d :| d in from && d.id == Some(id) && roots[id].target == Target(id, NameOf(d));
      assert d in from + {c};
    }
  }

  lemma AsSetNext(cs: seq<Container>, from: set<Container>)
    requires cs != []
    ensures from + AsSet(cs) == from + {cs[0]} + AsSet(cs[1..])
  {
    assert cs == [cs[0]] + cs[1..];
  }

  lemma PutContainersNext(roots: Roots, cs: seq<Container>, role: Role)
    requires cs != []
    ensures PutContainers(roots, cs, role)
      == PutContainers(if cs[0].id.Some? then roots[cs[0].id.value := RootOf(cs[0], role)] else roots, cs[1..], role)
  {
  }

  lemma {:induction false} PutContainersTakes(roots: Roots, cs: seq<Container>, role: Role, from: set<Container>)
    requires TakenFrom(roots, from) && AllTaken(roots, from)
    ensures TakenFrom(PutContainers(roots, cs, role), from + AsSet(cs))
    ensures AllTaken(PutContainers(roots, cs, role), from + AsSet(cs))
    decreases |cs|
  {
    if cs == [] {
      assert from + AsSet(cs) == from;
    } else {
      var c := cs[0];
      AsSetNext(cs, from);
      PutContainersNext(roots, cs, role);
      if c.id.Some? {
        TakeContainer(roots, c, RootOf(c, role), from);
        PutContainersTakes(roots[c.id.value := RootOf(c, role)], cs[1..], role, from + {c});
      } else {
        TakeNothing(roots, c, from);
        PutContainersTakes(roots, cs[1..], role, from + {c});
      }
    }
  }

  ghost function Members(es: seq<Entry>): set<Container> {
    set e, c | e in es && c in e.containers :: c
  }

  lemma {:induction false} PutEntriesTakes(roots: Roots, es: seq<Entry>, from: set<Container>)
    requires TakenFrom(roots, from) && AllTaken(roots, from)
    ensures TakenFrom(PutEntries(roots, es), from + Members(es)) && AllTaken(PutEntries(roots, es), from + Members(es))
    decreases |es|
  {
    if es == [] {
      assert from + Members(es) == from;
    } else {
      PutContainersTakes(roots, es[0].containers, es[0].role, from);
      PutEntriesTakes(PutContainers(roots, es[0].containers, es[0].role), es[1..], from + AsSet(es[0].containers));
      assert es == [es[0]] + es[1..];
      assert from + AsSet(es[0].containers) + Members(es[1..]) == from + Members(es);
    }
  }

  ghost function LabeledIn(cs: seq<Container>): set<Container> {
    set c | c in cs && HasLabel(c)
  }

  lemma LabeledNext(cs: seq<Container>, from: set<Container>)
    requires cs != []
    ensures from + LabeledIn(cs) == (if HasLabel(cs[0]) then from + {cs[0]} else from) + LabeledIn(cs[1..])
  {
    assert cs == [cs[0]] + cs[1..];
  }

  lemma {:induction false} PutLabeledTakes(roots: Roots, cs: seq<Container>, from: set<Container>)
    requires TakenFrom(roots, from) && AllTaken(roots, from)
    ensures TakenFrom(PutLabeled(roots, cs), from + LabeledIn(cs))
    ensures AllTaken(PutLabeled(roots, cs), from + LabeledIn(cs))
    decreases |cs|
  {
    if cs == [] {
      assert from + LabeledIn(cs) == from;
    } else {
      var c := cs[0];
      LabeledNext(cs, from);
      if HasLabel(c) && c.id.Some? && c.id.value !in roots {
        TakeContainer(roots, c, LabeledRoot(c), from);
        PutLabeledTakes(roots[c.id.value := LabeledRoot(c)], cs[1..], from + {c});
      } else {
        if HasLabel(c) { TakeNothing(roots, c, from); }
        PutLabeledTakes(roots, cs[1..], if HasLabel(c) then from + {c} else from);
      }
    }
  }

  ghost function ListedRoots(n: ListedNode): set<Container> {
    Members(Followed(n)) + LabeledIn(n.list.value)
  }

  lemma FollowedMembers(n: ListedNode, c: Container)
    ensures c in Members(Followed(n)) <==>
      c in Stack(n) && (DirectlyProtected(n, c, Sencho) || DirectlyProtected(n, c, Carrier))
  {
    InMore(SelfEntry(n) + ProviderEntry(n), LabeledEntry(n), c, Sencho, true);
    InMore(SelfEntry(n), ProviderEntry(n), c, Sencho, true);
    InMore(SelfEntry(n) + ProviderEntry(n), LabeledEntry(n), c, Carrier, true);
    InMore(SelfEntry(n), ProviderEntry(n), c, Carrier, true);
    InEntryOf(Stack(n), c => IsOwnContainer(n.self, c), Sencho, c, Sencho, true);
    InEntryOf(Stack(n), c => IsProvider(n, c), Carrier, c, Carrier, true);
    InEntryOf(Stack(n), c => IsLabeled(n, c), Carrier, c, Carrier, true);
    if c in Members(Followed(n)) {
      var e :| e in Followed(n) && c in e.containers;
      assert Holds(e, c, e.role, true);
    }
  }

  ghost function ListedMap(n: ListedNode): Roots {
    PutLabeled(PutEntries(map[], Followed(n)), n.list.value)
  }

  lemma ListedMapTakes(n: ListedNode)
    ensures TakenFrom(ListedMap(n), ListedRoots(n)) && AllTaken(ListedMap(n), ListedRoots(n))
    ensures forall c :: c in ListedRoots(n) && c.id.Some? <==> IsListedRoot(n, c)
    ensures forall id :: id in ListedMap(n) <==> IsListedId(n, id)
  {
    PutEntriesTakes(map[], Followed(n), {});
    assert {} + Members(Followed(n)) == Members(Followed(n));
    PutLabeledTakes(PutEntries(map[], Followed(n)), n.list.value, Members(Followed(n)));
    forall c ensures c in ListedRoots(n) && c.id.Some? <==> IsListedRoot(n, c) {
      FollowedMembers(n, c);
    }
  }

  function SelfTarget(self: Self): Target
    requires self.containerId.Some?
  {
    Target(self.containerId.value, if self.containerName.Some? then self.containerName.value else "")
  }

  predicate AddsProvider(listed: Roots, view: ProviderView) {
    view.ProviderResolved? && view.provider.containerId !in listed
  }

  predicate AddsSelf(listed: Roots, view: ProviderView, self: Self) {
    && self.state == SelfResolved && self.containerId.Some? && self.containerId.value != ""
      && self.containerId.value !in listed
    && !(view.ProviderResolved? && view.provider.containerId == self.containerId.value)
  }

  lemma PutIdentified(listed: Roots, view: ProviderView, self: Self, id: string)
    ensures var roots := PutSelf(PutProvider(listed, view), self);
      && (id in listed ==> id in roots && roots[id] == listed[id])
      && (id !in listed && AddsProvider(listed, view) && id == view.provider.containerId ==>
            id in roots && roots[id].target == Target(id, view.provider.containerName))
      && (id !in listed && AddsSelf(listed, view, self) && id == self.containerId.value ==>
        id in roots && roots[id].target == SelfTarget(self))
      && (id in roots && id !in listed ==>
            (AddsProvider(listed, view) && id == view.provider.containerId)
              || (AddsSelf(listed, view, self) && id == self.containerId.value))
  {
  }

  ghost predicate IsListedTarget(n: ListedNode, t: Target) {
    exists c :: IsListedRoot(n, c) && t == Target(c.id.value, NameOf(c))
  }

  lemma ListedTargets(n: Node, t: Target)
    requires DockerIds(n)
    ensures IsListedTarget(n, t) <==> t.containerId in ListedMap(n) && ListedMap(n)[t.containerId].target == t
  {
    ListedMapTakes(n);
    var listed, from := ListedMap(n), ListedRoots(n);
    if t.containerId in listed {
      var d :| d in from && d.id == Some(t.containerId)
        && listed[t.containerId].target == Target(t.containerId, NameOf(d));
      assert IsListedRoot(n, d);
      forall c | IsListedRoot(n, c) && c.id.value == t.containerId ensures c == d {
        assert c in n.list.value && d in n.list.value;
      }
    }
  }

  /** The roots the guard follows are exactly the protected containers. */
  lemma RootsAreTargets(n: Node, t: Target)
    requires DockerIds(n)
    ensures IsProtectedTarget(n, t) <==> t.containerId in RootsOf(n) && RootsOf(n)[t.containerId].target == t
  {
    ListedTargets(n, t);
    IdentifiedTargets(n, t);
    PutIdentified(ListedMap(n), n.provider, n.self, t.containerId);
  }

  lemma RootIdIsTargetId(n: ListedNode, id: string)
    requires id in RootsOf(n)
    ensures RootsOf(n)[id].target.containerId == id
  {
    ListedMapTakes(n);
    PutIdentified(ListedMap(n), n.provider, n.self, id);
  }

  lemma IdentifiedTargets(n: ListedNode, t: Target)
    ensures t.containerId in ListedMap(n) <==> IsListedId(n, t.containerId)
    ensures IsProviderTarget(n, t) <==>
      AddsProvider(ListedMap(n), n.provider)
        && t == Target(n.provider.provider.containerId, n.provider.provider.containerName)
    ensures IsSelfTarget(n, t) <==> AddsSelf(ListedMap(n), n.provider, n.self) && t == SelfTarget(n.self)
  {
    ListedMapTakes(n);
  }

  // ------------------------------------------------------------ what is spared

  lemma RootIdIsProtected(n: Node, c: Container)
    requires DockerIds(n) && c in Stack(n) && c.id.value in RootsOf(n)
    ensures IsProtected(n, c)
  {
    var id := c.id.value;
    ListedMapTakes(n);
    PutIdentified(ListedMap(n), n.provider, n.self, id);
    assert AddsProvider(ListedMap(n), n.provider) && id == n.provider.provider.containerId ==>
      DirectlyProtected(n, c, Carrier);
    assert AddsSelf(ListedMap(n), n.provider, n.self) && id == n.self.containerId.value ==>
      DirectlyProtected(n, c, Sencho);
    if id in ListedMap(n) {
      var d :| IsListedRoot(n, d) && d.id.value == id;
      assert d in n.list.value && d == c;
      ListedIsProtected(n, c);
    }
  }

  lemma ListedIsProtected(n: ListedNode, c: Container)
    requires IsListedRoot(n, c)
    ensures IsProtected(n, c)
  {
    if DirectlyProtected(n, c, Sencho) || DirectlyProtected(n, c, Carrier) {
    } else {
      assert DirectlyProtected(n, c, Mislabeled);
    }
  }

  /** Whatever is endangered the guard has found. */
  lemma EndangeredIsFound(n: Node, c: Container)
    requires DockerIds(n) && Endangered(n, c)
    ensures exists role, direct :: Protected(n, c, role, direct)
  {
    if IsProtected(n, c) {
      var role :| DirectlyProtected(n, c, role);
      assert Protected(n, c, role, true);
    } else if e :| e in Followed(n) && OwnsRendered(n, e, c) {
      assert Protected(n, c, e.role, false);
    } else {
      var t :| IsProtectedTarget(n, t) && OwnsLive(n, t, c);
      LiveOwnerIsFound(n, c, t);
    }
  }

  lemma LiveOwnerIsFound(n: Node, c: Container, t: Target)
    requires DockerIds(n) && c in Stack(n) && !IsProtected(n, c)
    requires IsProtectedTarget(n, t) && OwnsLive(n, t, c)
    ensures t.containerId in RootsOf(n) && RootsOf(n)[t.containerId].target == t
    ensures Protected(n, c, RootsOf(n)[t.containerId].role, RootsOf(n)[t.containerId].shownAs == "")
  {
    RootsAreTargets(n, t);
    if c.id.value in RootsOf(n) { RootIdIsProtected(n, c); }
    assert OwnsForRoot(n, RootsOf(n)[t.containerId], c);
  }

  lemma EndangeredIsSpared(n: Node, m: Mutation, c: Container)
    requires !n.remote && DockerIds(n) && Permitted(n, m) && Endangered(n, c)
    ensures exists role, direct :: Protected(n, c, role, direct) && Harmless(n, m, c, role, direct)
  {
    EndangeredIsFound(n, c);
    var role, direct :| Protected(n, c, role, direct);
    assert Harmless(n, m, c, role, direct);
  }

  /**
    A stop or an update runs only on a stack that holds nothing protected and no owner of a
    namespace something protected runs in.
  */
  lemma StopPermitted(n: Node, m: Mutation)
    requires !n.remote && DockerIds(n) && (m.Stop? || m.Update?) && Permitted(n, m)
    ensures forall c :: !Endangered(n, c)
  {
    forall c ensures !Endangered(n, c) {
      if Endangered(n, c) {
        EndangeredIsSpared(n, m, c);
      }
    }
  }

  /** A deploy removes none of them as a live orphan and recreates none of their services. */
  lemma UpPermitted(n: Node, m: Mutation)
    requires !n.remote && DockerIds(n) && m.Up? && Permitted(n, m)
    ensures forall c | Endangered(n, c) ::
      && !IsLiveOrphan(n, c)
      && (IsRendered(n, c) ==> Verdict(Own(n, m.pinnedServices), RenderedOf(n), ServiceOf(c).value) == No)
  {
    forall c | Endangered(n, c) ensures
      && !IsLiveOrphan(n, c)
      && (IsRendered(n, c) ==> Verdict(Own(n, m.pinnedServices), RenderedOf(n), ServiceOf(c).value) == No)
    {
      EndangeredIsSpared(n, m, c);
    }
  }

  /**
    Only a Sencho with an empty name and no service runs in the container's namespace: the
    guard then takes the owner for Sencho itself.
  */
  ghost predicate OwnsForNameless(n: ListedNode, c: Container) {
    exists id | id in RootsOf(n) ::
      RootsOf(n)[id].role == Sencho && RootsOf(n)[id].shownAs == "" && OwnsForRoot(n, RootsOf(n)[id], c)
  }

  /** What a restart of Sencho is let through for. */
  ghost predicate PassesAsSencho(n: ListedNode, c: Container) {
    && (IsOwnContainer(n.self, c) || OwnsForNameless(n, c))
    && !IsProvider(n, c) && !IsLabeled(n, c) && !HasLabel(c)
    && forall e | e in Followed(n) :: !OwnsRendered(n, e, c)
  }

  lemma SparedRestart(n: Node, m: Mutation, c: Container)
    requires !n.remote && DockerIds(n) && RestartsSelf(m) && Permitted(n, m) && Endangered(n, c)
    requires m.ServiceOp? ==> m.service == ReportedServiceOf(c)
    ensures PassesAsSencho(n, c)
  {
    assert Protected(n, c, Carrier, true) || !DirectlyProtected(n, c, Carrier);
    assert Protected(n, c, Mislabeled, true) || !DirectlyProtected(n, c, Mislabeled);
    forall e | e in Followed(n) ensures !OwnsRendered(n, e, c) {
      assert Protected(n, c, e.role, false) || !OwnsRendered(n, e, c);
    }
    EndangeredIsSpared(n, m, c);
  }

  /**
    A service operation leaves alone the service of everything endangered, except a restart of
    Sencho that plays no other part.
  */
  lemma ServiceOpPermitted(n: Node, m: Mutation)
    requires !n.remote && DockerIds(n) && m.ServiceOp? && Permitted(n, m)
    ensures forall c | Endangered(n, c) && m.service == ReportedServiceOf(c) :: m.restart && PassesAsSencho(n, c)
  {
    forall c | Endangered(n, c) && m.service == ReportedServiceOf(c) ensures m.restart && PassesAsSencho(n, c) {
      EndangeredIsSpared(n, m, c);
      SparedRestart(n, m, c);
    }
  }

  /** A restart runs only where everything endangered is Sencho itself, and Sencho plays no other part. */
  lemma RestartPermitted(n: Node)
    requires !n.remote && DockerIds(n) && Permitted(n, Restart)
    ensures forall c | Endangered(n, c) :: PassesAsSencho(n, c)
  {
    forall c | Endangered(n, c) ensures PassesAsSencho(n, c) { SparedRestart(n, Restart, c); }
  }

  /** Where every root is shown under some name, only Sencho itself is let through. */
  lemma NamedRootsPass(n: ListedNode, c: Container)
    requires PassesAsSencho(n, c) && forall id | id in RootsOf(n) :: RootsOf(n)[id].shownAs != ""
    ensures IsOwnContainer(n.self, c)
  {
  }

  /** A failed inspect on the way to a namespace owner of anything protected is never permission. */
  lemma UnreadableRefused(n: Node, m: Mutation, t: Target)
    requires !n.remote && DockerIds(n) && Stack(n) != []
    requires IsProtectedTarget(n, t) && Unreadable(n.inspects, t)
    ensures !Permitted(n, m)
  {
    RootsAreTargets(n, t);
  }

  /**
    While Sencho does not know which container it is, nothing of a stack may be touched that
    could be it: with no candidate ids that is every stack, otherwise one with a candidate.
  */
  lemma UnidentifiedIsElsewhere(n: ListedNode, m: Mutation, c: Container)
    requires Permitted(n, m) && !n.remote && n.self.state == SelfUnresolved
    requires c in n.list.value && InStack(n, c)
    ensures n.candidates != []
    ensures forall id | id in n.candidates && c.id.Some? :: !MatchesContainerId(c.id.value, id)
  {
    assert c in Stack(n);
  }

  // ------------------------------------------------- nothing else is refused

  lemma RootIsTarget(n: ListedNode, id: string) returns (t: Target)
    requires DockerIds(n) && id in RootsOf(n)
    ensures t == RootsOf(n)[id].target && IsProtectedTarget(n, t)
  {
    t := RootsOf(n)[id].target;
    RootIdIsTargetId(n, id);
    RootsAreTargets(n, t);
  }

  lemma RootOwnerIsEndangered(n: ListedNode, c: Container, id: string)
    requires DockerIds(n) && c in Stack(n) && id in RootsOf(n) && OwnsForRoot(n, RootsOf(n)[id], c)
    ensures Endangered(n, c)
  {
    var t := RootIsTarget(n, id);
    assert OwnsLive(n, t, c);
  }

  /** Whatever the guard has found is endangered. */
  lemma FoundIsEndangered(n: ListedNode, c: Container, role: Role, direct: bool)
    requires DockerIds(n) && Protected(n, c, role, direct)
    ensures Endangered(n, c)
  {
    if direct && DirectlyProtected(n, c, role) {
      assert IsProtected(n, c);
    } else if id :| id in RootsOf(n) && OwnsForRoot(n, RootsOf(n)[id], c) {
      RootOwnerIsEndangered(n, c, id);
    }
  }

  /** What a deploy may not touch. */
  ghost predicate IsSparedByUp(n: ListedNode, m: Mutation, c: Container)
    requires m.Up?
  {
    && !IsLiveOrphan(n, c)
    && (IsRendered(n, c) ==> Verdict(Own(n, m.pinnedServices), RenderedOf(n), ServiceOf(c).value) == No)
  }

  /** Only Sencho itself, or the owner of a namespace of a nameless Sencho's, and nothing else that is protected. */
  ghost predicate PlaysNoOtherPart(n: ListedNode, c: Container) {
    && !IsProvider(n, c) && !IsLabeled(n, c) && !IsMislabeled(n, c) && !MayBeProvider(n, c)
    && (forall e | e in Followed(n) :: !OwnsRendered(n, e, c))
    && (forall id | id in RootsOf(n) && OwnsForRoot(n, RootsOf(n)[id], c) ::
      RootsOf(n)[id].role == Sencho && RootsOf(n)[id].shownAs == "")
  }

  /** The mutation leaves the container running, or restarts Sencho. */
  ghost predicate IsSpared(n: ListedNode, m: Mutation, c: Container) {
    if m.Up? then IsSparedByUp(n, m, c)
    else (m.ServiceOp? && m.service != ReportedServiceOf(c)) || (RestartsSelf(m) && PlaysNoOtherPart(n, c))
  }

  lemma HarmlessParts(n: ListedNode, m: Mutation, c: Container)
    requires c in Stack(n) && !m.Up? && !(m.ServiceOp? && m.service != ReportedServiceOf(c))
    requires forall role, direct | Protected(n, c, role, direct) :: Harmless(n, m, c, role, direct)
    ensures PlaysNoOtherPart(n, c)
  {
    assert DirectlyProtected(n, c, Carrier) ==> Protected(n, c, Carrier, true);
    assert DirectlyProtected(n, c, Mislabeled) ==> Protected(n, c, Mislabeled, true);
    assert DirectlyProtected(n, c, UnknownCarrier) ==> Protected(n, c, UnknownCarrier, true);
    forall e | e in Followed(n) ensures !OwnsRendered(n, e, c) {
      assert OwnsRendered(n, e, c) ==> Protected(n, c, e.role, false);
    }
    forall id | id in RootsOf(n) && OwnsForRoot(n, RootsOf(n)[id], c)
      ensures RootsOf(n)[id].role == Sencho && RootsOf(n)[id].shownAs == ""
    {
      assert Protected(n, c, RootsOf(n)[id].role, RootsOf(n)[id].shownAs == "");
    }
  }

  lemma PartsAreSencho(n: ListedNode, c: Container, role: Role, direct: bool)
    requires PlaysNoOtherPart(n, c) && Protected(n, c, role, direct)
    ensures role == Sencho && direct
  {
  }

  lemma SparedIsHarmless(n: ListedNode, m: Mutation, c: Container)
    requires DockerIds(n) && Endangered(n, c)
    ensures IsSpared(n, m, c) <==> forall role, direct | Protected(n, c, role, direct) ::
      Harmless(n, m, c, role, direct)
  {
    EndangeredIsFound(n, c);
    var role0, direct0 :| Protected(n, c, role0, direct0);
    if forall role, direct | Protected(n, c, role, direct) :: Harmless(n, m, c, role, direct) {
      assert Harmless(n, m, c, role0, direct0);
      if !m.Up? && !(m.ServiceOp? && m.service != ReportedServiceOf(c)) { HarmlessParts(n, m, c); }
    }
    if IsSpared(n, m, c) {
      forall role, direct | Protected(n, c, role, direct) ensures Harmless(n, m, c, role, direct) {
        if !m.Up? && PlaysNoOtherPart(n, c) { PartsAreSencho(n, c, role, direct); }
      }
    }
  }

  lemma HarmlessExactly(n: ListedNode, m: Mutation)
    requires DockerIds(n)
    ensures AllHarmless(n, m) <==> forall c | Endangered(n, c) :: IsSpared(n, m, c)
  {
    if AllHarmless(n, m) {
      forall c | Endangered(n, c) ensures IsSpared(n, m, c) { SparedIsHarmless(n, m, c); }
    }
    if forall c | Endangered(n, c) :: IsSpared(n, m, c) {
      forall c, role, direct | Protected(n, c, role, direct) ensures Harmless(n, m, c, role, direct) {
        FoundIsEndangered(n, c, role, direct);
        SparedIsHarmless(n, m, c);
      }
    }
  }

  lemma ReadableExactly(n: ListedNode)
    requires DockerIds(n)
    ensures RootsReadable(n) <==> forall t | IsProtectedTarget(n, t) :: !Unreadable(n.inspects, t)
  {
    if RootsReadable(n) {
      forall t | IsProtectedTarget(n, t) ensures !Unreadable(n.inspects, t) { RootsAreTargets(n, t); }
    }
    if forall t | IsProtectedTarget(n, t) :: !Unreadable(n.inspects, t) {
      forall id | id in RootsOf(n) ensures !Unreadable(n.inspects, RootsOf(n)[id].target) {
        var t := RootIsTarget(n, id);
      }
    }
  }

  /**
    A mutation of a stack with containers is permitted exactly when Sencho cannot
    be in it unknown, what is rendered is known where it is needed and well labeled, every
    namespace of something protected could be read, and everything endangered is spared.
  */
  lemma PermittedExactly(n: Node, m: Mutation)
    requires !n.remote && DockerIds(n) && Stack(n) != []
    ensures Permitted(n, m) <==>
      && (n.self.state == SelfUnresolved ==> n.candidates != [] && forall c, id | c in Stack(n) && id in n.candidates ::
        c.id.None? || !MatchesContainerId(c.id.value, id))
      && (n.render.Some? || IsEngineDriven(m))
      && (forall s | s in RenderedOf(n) :: RenderedOf(n)[s].infrastructure in {None, Some("true")})
      && (forall t | IsProtectedTarget(n, t) :: !Unreadable(n.inspects, t))
      && (forall c | Endangered(n, c) :: IsSpared(n, m, c))
  {
    HarmlessExactly(n, m);
    ReadableExactly(n);
  }

  // --------------------------------------------------- how containers are told

  /** Docker lists a name with a slash in front. */
  lemma BareNameIs(name: string, x: string)
    requires x != "" && x[0] != '/'
    ensures BareName(name) == x <==> name == x || name == "/" + x
  {
    if BareName(name) == x && name != x { assert name == "/" + name[1..]; }
    if name == "/" + x { assert name[1..] == x; }
  }

  /** The provider is told by its id, by its name, or by its Compose project and service. */
  lemma ProviderIs(c: Container, p: Provider, x: string)
    requires x != "" && x[0] != '/' && (p.containerName == x || p.containerName == "/" + x) && p.containerId != ""
    ensures IsProviderContainer(c, p) <==>
      || c.id == Some(p.containerId) || x in c.names || "/" + x in c.names
      || (p.project.Some? && p.service.Some?
        && PROJECT_LABEL in c.labels && c.labels[PROJECT_LABEL] == p.project.value
        && SERVICE_LABEL in c.labels && c.labels[SERVICE_LABEL] == p.service.value)
  {
    BareNameIs(p.containerName, x);
    forall name | name in c.names ensures BareName(name) == x <==> name == x || name == "/" + x { BareNameIs(name, x); }
  }

  /** Ids match when they are equal, or one hex id is the beginning of the other; in either order. */
  lemma IdsMatch(id: string, short: string)
    ensures MatchesContainerId(id, short) <==> MatchesContainerId(short, id)
    ensures IsHexId(id) && IsHexId(short) ==> (MatchesContainerId(id, short) <==> short <= id || id <= short)
    ensures !(IsHexId(id) && IsHexId(short)) ==> (MatchesContainerId(id, short) <==> id == short != "")
  {
  }

  lemma HexIdIs(s: string)
    ensures IsHexId(s) <==> 12 <= |s| <= 64 && forall i | 0 <= i < |s| :: s[i] in "0123456789abcdefABCDEF"
  {
  }

  /** A container is reported under its service, else its name, else its id. */
  lemma ReportedAs(c: Container, x: string)
    requires x != "" && x[0] != '/'
    ensures SERVICE_LABEL in c.labels && c.labels[SERVICE_LABEL] == x ==> ReportedServiceOf(c) == x
    ensures SERVICE_LABEL !in c.labels && c.names != [] && c.names[0] == "/" + x ==> ReportedServiceOf(c) == x
    ensures SERVICE_LABEL !in c.labels && c.names == [] && c.id == Some(x) ==> ReportedServiceOf(c) == x
    ensures SERVICE_LABEL !in c.labels && c.names == [] && c.id.None? ==> ReportedServiceOf(c) == "unknown"
  {
    assert ("/" + x)[1..] == x;
  }

  /** Image ids are compared without their algorithm, Compose versions without a leading `v`. */
  lemma SpellingsAgree(x: string)
    ensures StripSha("sha256:" + x) == x && (!("sha256:" <= x) ==> StripSha(x) == x)
    ensures x != "" && Whitespace.IsTrimmed(x) && x[0] != 'v' ==> NormalizeVersion(Some("v" + x)) == x
    ensures x != "" && Whitespace.IsTrimmed(x) && x[0] != 'v' ==> NormalizeVersion(Some(x)) == x
  {
    assert ("sha256:" + x)[7..] == x;
    if x != "" && Whitespace.IsTrimmed(x) {
      var v := "v" + x;
      assert v[|v| - 1] == x[|x| - 1] && v[1..] == x;
    }
  }

  predicate IsLine(s: string) {
    s != "" && forall k | 0 <= k < |s| :: !IsLineEnd(s[k])
  }

  lemma EveryIs(p: string)
    ensures ("every_" <= p && |p| > 6 && forall k | 6 <= k < |p| :: !IsLineEnd(p[k])) <==>
      "every_" <= p && IsLine(p[6..])
  {
    if "every_" <= p && IsLine(p[6..]) {
      forall k | 6 <= k < |p| ensures !IsLineEnd(p[k]) { assert p[k] == p[6..][k - 6]; }
    }
  }

  /** A pull policy that may bring another image: a named one, or `every_` and an interval. */
  lemma ReplacingPolicies(policy: string)
    ensures IsReplacingPolicy(policy) <==>
      || Lower(policy) in ["always", "refresh", "daily", "weekly", "build"]
      || ("every_" <= Lower(policy) && IsLine(Lower(policy)[6..]))
  {
    EveryIs(Lower(policy));
  }

  /** A namespace mode names a container by a reference behind `container:`. */
  lemma ModeNames(ref: string)
    ensures ModeRef("container:" + ref) == if ref == "" then None else Some(ref)
  {
    assert ("container:" + ref)[10..] == ref;
  }

  /**
    Who is protected for what it is: Sencho, the provider, any container that carries the label,
    whatever its value, or that the render labels, and, while the provider is not known, any
    container on a network of Sencho's, or any at all while Sencho is not known either.
  */
  lemma ProtectedExactly(n: Node, c: Container)
    ensures IsProtected(n, c) <==>
      || IsOwnContainer(n.self, c)
      || (n.provider.ProviderResolved? && IsProviderContainer(c, n.provider.provider))
      || INFRASTRUCTURE_LABEL in c.labels
      || (ServiceOf(c).Some? && ServiceOf(c).value in RenderedOf(n)
        && RenderedOf(n)[ServiceOf(c).value].infrastructure == Some("true"))
      || (n.provider.ProviderUnresolved? && (n.self.state == SelfResolved ==> SharesSenchoNetwork(c, n.self)))
  {
    assert DirectlyProtected(n, c, Sencho) <==> IsOwnContainer(n.self, c);
    assert DirectlyProtected(n, c, Carrier) <==> IsProvider(n, c) || IsLabeled(n, c);
    assert DirectlyProtected(n, c, UnknownCarrier) <==> MayBeProvider(n, c);
    assert DirectlyProtected(n, c, Mislabeled) <==> IsMislabeled(n, c);
  }

  /** A protected container whose id is gone is followed under its name, if it has one. */
  lemma FollowedByName(inspects: Inspects, t: Target, ref: string)
    requires t.containerId !in inspects
    ensures LiveOwner(inspects, FirstLookup(inspects, t), ref) <==>
      && t.containerName != "" && t.containerName in inspects && inspects[t.containerName].Found?
      && Graph.ReachedFrom(RefEdges(inspects), RefsOf(inspects[t.containerName].info), ref)
  {
  }

  /**
    A listed container is the owner a namespace mode refers to when the reference is its id, long
    or short, or its name, or when what was inspected there is it.
  */
  lemma OwnerIs(o: NamespaceOwner, id: string, x: string)
    requires x != "" && x[0] != '/'
    ensures NamesOwner(o, id, Some("/" + x)) <==>
      || MatchesContainerId(id, o.ref) || o.ref == x || o.ref == "/" + x
      || o.name == Some(x) || (o.id.Some? && (MatchesContainerId(o.id.value, id) || o.id.value == "/" + x))
  {
    var name := "/" + x;
    BareNameIs(name, x);
    BareNameIs(o.ref, x);
    assert name[0] == '/' && !IsHexId(name);
  }
}
