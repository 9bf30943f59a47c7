/**
  The Docker endpoint guard over a fixed snapshot of the node: it permits exactly what
  `Permitted` says, container by container, and a refusal is the one `Refuses` says.
*/
module EndpointGuard {
  import opened Common
  import opened GuardModel
  import opened GuardClosures
  import Graph

  datatype Role = Sencho | Carrier | UnknownCarrier | Mislabeled

  /** `via` names the protected service when the containers only own a namespace it runs in. */
  datatype Entry = Entry(containers: seq<Container>, role: Role, via: Option<string>)

  datatype Root = Root(role: Role, target: Target, shownAs: string)

  type Roots = map<string, Root>

  datatype Reason = SenchoItself | TheProvider | InvalidLabel | Unresolved

  datatype Refusal = Refusal(reason: Reason, service: Option<string>)

  function ReasonOf(role: Role): Reason {
    match role
    case Sencho => SenchoItself
    case Carrier => TheProvider
    case Mislabeled => InvalidLabel
    case UnknownCarrier => Unresolved
  }

  /** An empty `via` counts as none. */
  predicate IsDirect(via: Option<string>) {
    via.None? || via.value == ""
  }

  // ------------------------------------------------ who is protected in the stack

  function Stack(n: ListedNode): (r: seq<Container>)
    ensures forall c :: c in r <==> c in n.list.value && InStack(n, c)
  {
    Filter(n.list.value, c => InStack(n, c))
  }

  /** A failed render falls back to no services. */
  function RenderedOf(n: Node): Rendered {
    if n.render.Some? then n.render.value else map[]
  }

  predicate IsProvider(n: Node, c: Container) {
    n.provider.ProviderResolved? && IsProviderContainer(c, n.provider.provider)
  }

  predicate MayBeProvider(n: Node, c: Container) {
    && n.provider.ProviderUnresolved? && !IsOwnContainer(n.self, c)
    && (n.self.state != SelfResolved || SharesSenchoNetwork(c, n.self))
  }

  predicate IsLabeled(n: Node, c: Container) {
    && !IsProvider(n, c)
    && (|| Label(c, INFRASTRUCTURE_LABEL) == Some("true")
        || (ServiceOf(c).Some? && ServiceOf(c).value in RenderedOf(n)
          && RenderedOf(n)[ServiceOf(c).value].infrastructure == Some("true")))
  }

  predicate IsMislabeled(n: Node, c: Container) {
    && Label(c, INFRASTRUCTURE_LABEL).Some? && Label(c, INFRASTRUCTURE_LABEL).value != "true"
    && !IsProvider(n, c) && !IsLabeled(n, c)
  }

  /** The container is protected by what it is. */
  predicate DirectlyProtected(n: Node, c: Container, role: Role) {
    match role
    case Sencho => IsOwnContainer(n.self, c)
    case Carrier => IsProvider(n, c) || IsLabeled(n, c)
    case UnknownCarrier => MayBeProvider(n, c)
    case Mislabeled => IsMislabeled(n, c)
  }

  function EntryOf(stack: seq<Container>, keep: Container -> bool, role: Role): (r: seq<Entry>)
    ensures forall e | e in r :: e.role == role && e.via == None && e.containers == Filter(stack, keep)
    ensures (exists c :: c in stack && keep(c)) ==> Entry(Filter(stack, keep), role, None) in r
  {
    var containers := Filter(stack, keep);
    if containers == [] then [] else [Entry(containers, role, None)]
  }

  function SelfEntry(n: ListedNode): seq<Entry> {
    EntryOf(Stack(n), c => IsOwnContainer(n.self, c), Sencho)
  }

  function ProviderEntry(n: ListedNode): seq<Entry> {
    EntryOf(Stack(n), c => IsProvider(n, c), Carrier)
  }

  function LabeledEntry(n: ListedNode): seq<Entry> {
    EntryOf(Stack(n), c => IsLabeled(n, c), Carrier)
  }

  /** The entries whose namespaces are followed: Sencho, the provider and labeled containers. */
  function Followed(n: ListedNode): seq<Entry> {
    SelfEntry(n) + ProviderEntry(n) + LabeledEntry(n)
  }

  /** Everything protected by what it is, in the order it is judged. */
  function DirectEntries(n: ListedNode): seq<Entry> {
    SelfEntry(n) + ProviderEntry(n) + EntryOf(Stack(n), c => MayBeProvider(n, c), UnknownCarrier)
    + LabeledEntry(n) + EntryOf(Stack(n), c => IsMislabeled(n, c), Mislabeled)
  }

  function Services(cs: seq<Container>): (r: seq<Option<string>>)
    ensures |r| == |cs| && forall i | 0 <= i < |cs| :: r[i] == ServiceOf(cs[i])
  {
    seq(|cs|, i requires 0 <= i < |cs| => ServiceOf(cs[i]))
  }

  /** The container's service owns, through rendered namespaces, one a service of the entry runs in. */
  ghost predicate OwnsRendered(n: Node, e: Entry, c: Container) {
    && ServiceOf(c).Some? && c !in e.containers
    && OwnsFor(RenderedOf(n), Names(Services(e.containers)), ServiceOf(c).value)
  }

  // ------------------------------------------------------------ namespace roots

  function FirstName(c: Container): Option<string> {
    if c.names == [] then None else Some(c.names[0])
  }

  function RootOf(c: Container, role: Role): Root
    requires c.id.Some?
  {
    var id := c.id.value;
    Root(role, Target(id, NameOf(c)), if ServiceOf(c).Some? then ServiceOf(c).value
      else if c.names != [] then NameOf(c) else id)
  }

  function LabeledRoot(c: Container): Root
    requires c.id.Some?
  {
    var id := c.id.value;
    Root(Carrier, Target(id, NameOf(c)), if ServiceOf(c).Some? then ServiceOf(c).value
      else if NameOf(c) != "" then NameOf(c) else id)
  }

  function PutContainers(roots: Roots, cs: seq<Container>, role: Role): (r: Roots)
    decreases |cs|
  {
    if cs == [] then roots
    else PutContainers(if cs[0].id.Some? then roots[cs[0].id.value := RootOf(cs[0], role)] else roots, cs[1..], role)
  }

  function PutEntries(roots: Roots, es: seq<Entry>): (r: Roots)
    decreases |es|
  {
    if es == [] then roots else PutEntries(PutContainers(roots, es[0].containers, es[0].role), es[1..])
  }

  predicate HasLabel(c: Container) {
    Label(c, INFRASTRUCTURE_LABEL).Some?
  }

  function PutLabeled(roots: Roots, cs: seq<Container>): (r: Roots)
    decreases |cs|
  {
    if cs == [] then roots
    else
      var c := cs[0];
      PutLabeled(if HasLabel(c) && c.id.Some? && c.id.value !in roots then roots[c.id.value := LabeledRoot(c)]
        else roots, cs[1..])
  }

  function PutProvider(roots: Roots, view: ProviderView): Roots {
    if view.ProviderResolved? && view.provider.containerId !in roots then
      var p := view.provider;
      roots[p.containerId :=
        Root(Carrier, Target(p.containerId, p.containerName), if p.service.Some? then p.service.value
        else p.containerName)]
    else roots
  }

  function PutSelf(roots: Roots, self: Self): Roots {
    if self.state == SelfResolved && self.containerId.Some? && self.containerId.value != ""
      && self.containerId.value !in roots then
      var id := self.containerId.value;
      roots[id :=
        Root(Sencho, Target(id, if self.containerName.Some? then self.containerName.value else ""),
        if self.service.Some? then self.service.value else "sencho")]
    else roots
  }

  /** The containers whose live namespaces are followed, by id. */
  function RootsOf(n: ListedNode): Roots {
    PutSelf(PutProvider(PutLabeled(PutEntries(map[], Followed(n)), n.list.value), n.provider), n.self)
  }

  /** Whether the owner is the container with this id and first name. */
  predicate NamesContainer(o: NamespaceOwner, id: string, reference: string) {
    || (o.id.Some? && o.id.value != ""
      && (MatchesContainerId(o.id.value, id) || MatchesContainerId(o.id.value, reference)))
    || (o.name.Some? && o.name.value != "" && o.name.value == BareName(reference))
  }

  predicate NamesOwner(o: NamespaceOwner, id: string, name: Option<string>) {
    || MatchesContainerId(id, o.ref)
    || (name.Some? && BareName(name.value) != "" && BareName(name.value) == BareName(o.ref))
    || NamesContainer(o, id, if name.Some? then name.value else id)
  }

  function IdOrEmpty(c: Container): string {
    if c.id.Some? then c.id.value else ""
  }

  /** The container owns, through any chain of live namespaces, one the target runs in. */
  ghost predicate OwnsLive(n: Node, target: Target, c: Container) {
    exists ref ::
      LiveOwner(n.inspects, FirstLookup(n.inspects, target), ref)
      && NamesOwner(OwnerNamed(n.inspects, ref), IdOrEmpty(c), FirstName(c))
  }

  ghost predicate OwnsForRoot(n: ListedNode, root: Root, c: Container) {
    IdOrEmpty(c) !in RootsOf(n) && OwnsLive(n, root.target, c)
  }

  /** Every way a container of the stack is protected; `direct` unless a namespace owner. */
  ghost predicate Protected(n: ListedNode, c: Container, role: Role, direct: bool) {
    && c in Stack(n)
    && (|| (direct && DirectlyProtected(n, c, role))
        || (!direct && exists e | e in Followed(n) :: e.role == role && OwnsRendered(n, e, c))
        || (exists id | id in RootsOf(n) ::
          RootsOf(n)[id].role == role && direct == (RootsOf(n)[id].shownAs == "")
          && OwnsForRoot(n, RootsOf(n)[id], c)))
  }

  // ------------------------------------------------------------------ verdict

  function Own(n: ListedNode, pinned: set<string>): string -> Recreate {
    s => OwnRecreate(n, Stack(n), RenderedOf(n), pinned, s)
  }

  predicate IsLiveOrphan(n: Node, c: Container) {
    !IsStopped(c) && IsRemovableOrphan(c, RenderedOf(n))
  }

  predicate IsRendered(n: Node, c: Container) {
    ServiceOf(c).Some? && ServiceOf(c).value in RenderedOf(n)
  }

  predicate RestartsSelf(m: Mutation) {
    m.Restart? || (m.ServiceOp? && m.restart)
  }

  /** The mutation leaves this protected container running. */
  ghost predicate Harmless(n: ListedNode, m: Mutation, c: Container, role: Role, direct: bool) {
    if m.Up? then
      && !IsLiveOrphan(n, c)
      && (IsRendered(n, c) ==> Verdict(Own(n, m.pinnedServices), RenderedOf(n), ServiceOf(c).value) == No)
    else
      || (m.ServiceOp? && m.service != ReportedServiceOf(c))
      || (RestartsSelf(m) && role == Sencho && direct)
  }

  /** Sencho does not know which container it is, and the stack may hold it. */
  predicate MayHoldSelf(n: ListedNode) {
    && n.self.state == SelfUnresolved
    && (n.candidates == [] || exists c, id | c in Stack(n) && id in n.candidates ::
      c.id.Some? && MatchesContainerId(c.id.value, id))
  }

  predicate HasInvalidLabel(rendered: Rendered) {
    exists s | s in rendered :: IsInvalidLabel(rendered[s])
  }

  ghost predicate RootsReadable(n: ListedNode) {
    forall id | id in RootsOf(n) :: !Unreadable(n.inspects, RootsOf(n)[id].target)
  }

  ghost predicate AllHarmless(n: ListedNode, m: Mutation) {
    forall c, role, direct | Protected(n, c, role, direct) :: Harmless(n, m, c, role, direct)
  }

  ghost predicate Permitted(n: Node, m: Mutation) {
    || n.remote
    || (&& n.list.Some?
        && (if Stack(n) == [] then
              IsEngineDriven(m) || (n.render.Some? && !HasInvalidLabel(n.render.value))
            else
              && !MayHoldSelf(n)
              && (n.render.Some? || IsEngineDriven(m)) && !HasInvalidLabel(RenderedOf(n))
              && RootsReadable(n) && AllHarmless(n, m)))
  }

  // ------------------------------------------------------------- the evaluation

  /** The refusal a protected container brings. */
  ghost function RefusalOf(n: ListedNode, m: Mutation, c: Container, role: Role): Refusal {
    var unsure :=
      m.Up? && !IsLiveOrphan(n, c) && IsRendered(n, c)
      && Verdict(Own(n, m.pinnedServices), RenderedOf(n), ServiceOf(c).value) != Yes;
    Refusal(if unsure then Unresolved else ReasonOf(role), Some(ReportedServiceOf(c)))
  }

  ghost predicate EntryHarmless(n: ListedNode, m: Mutation, e: Entry) {
    forall c | c in e.containers :: Harmless(n, m, c, e.role, IsDirect(e.via))
  }

  /** The first container of the entry that decides: on a deploy a live orphan before anything else. */
  ghost predicate Decides(n: ListedNode, m: Mutation, e: Entry, i: nat)
    requires i < |e.containers|
  {
    if m.Up? && exists c | c in e.containers :: IsLiveOrphan(n, c) then
      IsLiveOrphan(n, e.containers[i]) && forall j | 0 <= j < i :: !IsLiveOrphan(n, e.containers[j])
    else
      && !Harmless(n, m, e.containers[i], e.role, IsDirect(e.via))
      && forall j | 0 <= j < i :: Harmless(n, m, e.containers[j], e.role, IsDirect(e.via))
  }

  ghost predicate EntryCauses(n: ListedNode, m: Mutation, e: Entry, r: Refusal) {
    exists i | 0 <= i < |e.containers| :: Decides(n, m, e, i) && r == RefusalOf(n, m, e.containers[i], e.role)
  }

  /** The first entry that is harmed gives the refusal. */
  ghost predicate FirstCauses(n: ListedNode, m: Mutation, found: seq<Entry>, r: Refusal) {
    exists k | 0 <= k < |found| :: EntryCauses(n, m, found[k], r) && forall j | 0 <= j < k ::
      EntryHarmless(n, m, found[j])
  }

  ghost predicate AllEntriesHarmless(n: ListedNode, m: Mutation, found: seq<Entry>) {
    forall e | e in found :: EntryHarmless(n, m, e)
  }

  /** An owner of a rendered namespace is harmed, and gives the refusal. */
  ghost predicate RenderedCauses(n: ListedNode, m: Mutation, r: Refusal) {
    exists c, role | IsRenderedOwner(n, c, role) :: !Harmless(n, m, c, role, false) && r == RefusalOf(n, m, c, role)
  }

  ghost predicate IsRenderedOwner(n: ListedNode, c: Container, role: Role) {
    c in Stack(n) && exists e | e in Followed(n) :: e.role == role && OwnsRendered(n, e, c)
  }

  /** An owner of a live namespace is harmed, and gives the refusal. */
  ghost predicate LiveCauses(n: ListedNode, m: Mutation, r: Refusal) {
    exists c, role, direct | c in Stack(n) && LiveFor(n, RootsOf(n).Keys, c, role, direct) ::
      !Harmless(n, m, c, role, direct) && r == RefusalOf(n, m, c, role)
  }

  ghost predicate NamesInvalid(rendered: Rendered, r: Refusal) {
    && r.reason == InvalidLabel && r.service.Some?
    && r.service.value in rendered && IsInvalidLabel(rendered[r.service.value])
  }

  /** What is protected by what it is comes before the owners of rendered namespaces, and these before the live ones. */
  ghost predicate GroupCauses(n: ListedNode, m: Mutation, direct: seq<Entry>, r: Refusal) {
    if !AllEntriesHarmless(n, m, direct) then FirstCauses(n, m, direct, r)
    else if exists c, role | IsRenderedOwner(n, c, role) :: !Harmless(n, m, c, role, false) then RenderedCauses(n, m, r)
    else LiveCauses(n, m, r)
  }

  const CANNOT_TELL := Refusal(Unresolved, None)

  /** The refusal of a mutation that is not permitted: the first cause in the order the guard looks. */
  ghost predicate Refuses(n: Node, m: Mutation, r: Refusal) {
    if n.list.None? then r == CANNOT_TELL
    else if Stack(n) == [] then if n.render.None? then r == CANNOT_TELL else NamesInvalid(n.render.value, r)
    else if MayHoldSelf(n) || (n.render.None? && !IsEngineDriven(m)) then r == CANNOT_TELL
    else if HasInvalidLabel(RenderedOf(n)) then NamesInvalid(RenderedOf(n), r)
    else if !RootsReadable(n) then r == CANNOT_TELL
    else GroupCauses(n, m, DirectEntries(n), r)
  }

  /** The first service of the rendered file with another label value than "true". */
  method InvalidRenderedLabel(rendered: Rendered) returns (r: Option<Refusal>)
    ensures r.None? <==> !HasInvalidLabel(rendered)
    ensures r.Some? ==> NamesInvalid(rendered, r.value)
  {
    var rest := rendered.Keys;
    while rest != {}
      invariant rest <= rendered.Keys
      invariant forall s | s in rendered && s !in rest :: !IsInvalidLabel(rendered[s])
    {
      var s :| s in rest;
      if IsInvalidLabel(rendered[s]) { return Some(Refusal(InvalidLabel, Some(s))); }
      rest := rest - {s};
    }
    r := None;
  }

  /** Judges one protected service of an entry. */
  method JudgeService(n: ListedNode, m: Mutation, c: Container, role: Role, via: Option<string>)
    returns (r: Option<Refusal>)
    requires (m.Up? ==> !IsLiveOrphan(n, c) && IsRendered(n, c))
    ensures r.None? <==> Harmless(n, m, c, role, IsDirect(via))
    ensures r.Some? ==> r.value == RefusalOf(n, m, c, role)
  {
    var service := ReportedServiceOf(c);
    if m.ServiceOp? && m.service != service { return None; }
    if RestartsSelf(m) && role == Sencho && IsDirect(via) { return None; }
    if m.Up? {
      var recreate := WouldRecreate(Own(n, m.pinnedServices), RenderedOf(n), service);
      if recreate == No { return None; }
      if recreate != Yes { return Some(Refusal(Unresolved, Some(service))); }
    }
    r := Some(Refusal(ReasonOf(role), Some(service)));
  }

  method FindOrphan(n: Node, cs: seq<Container>) returns (r: Option<nat>)
    ensures r.None? ==> forall c | c in cs :: !IsLiveOrphan(n, c)
    ensures r.Some? ==> r.value < |cs| && IsLiveOrphan(n, cs[r.value]) && forall j | 0 <= j < r.value ::
      !IsLiveOrphan(n, cs[j])
  {
    for i := 0 to |cs|
      invariant forall j | 0 <= j < i :: !IsLiveOrphan(n, cs[j])
    {
      if IsLiveOrphan(n, cs[i]) { return Some(i); }
    }
    r := None;
  }

  /** Judges one entry: on a deploy a live orphan first, then what the file renders; otherwise every container. */
  method JudgeEntry(n: ListedNode, m: Mutation, e: Entry) returns (r: Option<Refusal>)
    ensures r.None? <==> EntryHarmless(n, m, e)
    ensures r.Some? ==> EntryCauses(n, m, e, r.value)
  {
    if m.Up? {
      var orphan := FindOrphan(n, e.containers);
      if orphan.Some? {
        ghost var c := e.containers[orphan.value];
        assert c in e.containers && !Harmless(n, m, c, e.role, IsDirect(e.via));
        assert Decides(n, m, e, orphan.value);
        return Some(Refusal(ReasonOf(e.role), Some(ReportedServiceOf(e.containers[orphan.value]))));
      }
    }
    for i := 0 to |e.containers|
      invariant forall j | 0 <= j < i :: Harmless(n, m, e.containers[j], e.role, IsDirect(e.via))
    {
      var c := e.containers[i];
      if !m.Up? || IsRendered(n, c) {
        r := JudgeService(n, m, c, e.role, e.via);
        if r.Some? {
          assert c in e.containers && Decides(n, m, e, i);
          return;
        }
      }
    }
    r := None;
  }

  method JudgeEntries(n: ListedNode, m: Mutation, found: seq<Entry>) returns (r: Option<Refusal>)
    ensures r.None? <==> AllEntriesHarmless(n, m, found)
    ensures r.Some? ==> FirstCauses(n, m, found, r.value)
  {
    for i := 0 to |found|
      invariant forall j | 0 <= j < i :: EntryHarmless(n, m, found[j])
    {
      r := JudgeEntry(n, m, found[i]);
      if r.Some? {
        assert found[i] in found;
        return;
      }
    }
    r := None;
  }

  // ------------------------------------------------------- finding the entries

  ghost predicate Holds(e: Entry, c: Container, role: Role, direct: bool) {
    c in e.containers && e.role == role && IsDirect(e.via) == direct
  }

  ghost predicate InEntries(found: seq<Entry>, c: Container, role: Role, direct: bool) {
    exists e | e in found :: Holds(e, c, role, direct)
  }

  lemma InMore(a: seq<Entry>, b: seq<Entry>, c: Container, role: Role, direct: bool)
    ensures InEntries(a + b, c, role, direct) <==> InEntries(a, c, role, direct) || InEntries(b, c, role, direct)
  {
  }

  lemma InEntryOf(stack: seq<Container>, keep: Container -> bool, as_: Role, c: Container, role: Role, direct: bool)
    ensures InEntries(EntryOf(stack, keep, as_), c, role, direct) <==> direct && role == as_ && c in stack && keep(c)
  {
    if direct && role == as_ && c in stack && keep(c) {
      assert Holds(Entry(Filter(stack, keep), as_, None), c, role, direct);
    }
  }

  lemma InDirectEntries(n: ListedNode, c: Container, role: Role, direct: bool)
    ensures InEntries(DirectEntries(n), c, role, direct) <==> direct && c in Stack(n) && DirectlyProtected(n, c, role)
  {
    var self, provider, labeled := SelfEntry(n), ProviderEntry(n), LabeledEntry(n);
    var maybe := EntryOf(Stack(n), c => MayBeProvider(n, c), UnknownCarrier);
    var wrong := EntryOf(Stack(n), c => IsMislabeled(n, c), Mislabeled);
    InMore(self + provider + maybe + labeled, wrong, c, role, direct);
    InMore(self + provider + maybe, labeled, c, role, direct);
    InMore(self + provider, maybe, c, role, direct);
    InMore(self, provider, c, role, direct);
    InEntryOf(Stack(n), c => IsOwnContainer(n.self, c), Sencho, c, role, direct);
    InEntryOf(Stack(n), c => IsProvider(n, c), Carrier, c, role, direct);
    InEntryOf(Stack(n), c => IsLabeled(n, c), Carrier, c, role, direct);
    InEntryOf(Stack(n), c => MayBeProvider(n, c), UnknownCarrier, c, role, direct);
    InEntryOf(Stack(n), c => IsMislabeled(n, c), Mislabeled, c, role, direct);
  }

  predicate OwnerVia(owners: map<string, string>, e: Entry, via: string, c: Container) {
    ServiceOf(c).Some? && ServiceOf(c).value in owners && owners[ServiceOf(c).value] == via && c !in e.containers
  }

  ghost predicate OwnerOf(owners: map<string, string>, e: Entry, c: Container) {
    ServiceOf(c).Some? && ServiceOf(c).value in owners && c !in e.containers
  }

  /** The owners mapped to a service outside `vias` are in the entries, and nothing else is. */
  ghost predicate Entered(stack: seq<Container>, owners: map<string, string>, e: Entry, vias: set<string>,
      es: seq<Entry>) {
    && (forall x | x in es :: x.role == e.role && !IsDirect(x.via) && forall c | c in x.containers ::
      c in stack && OwnerOf(owners, e, c))
    && (forall c | c in stack && OwnerOf(owners, e, c) && owners[ServiceOf(c).value] !in vias ::
      InEntries(es, c, e.role, false))
  }

  lemma EnterVia(stack: seq<Container>, owners: map<string, string>, e: Entry, vias: set<string>, es: seq<Entry>,
      via: string, extra: seq<Container>)
    requires Entered(stack, owners, e, vias, es) && via != ""
    requires forall c :: c in extra <==> c in stack && OwnerVia(owners, e, via, c)
    ensures Entered(stack, owners, e, vias - {via}, if extra != [] then es + [Entry(extra, e.role, Some(via))] else es)
  {
    var entry := Entry(extra, e.role, Some(via));
    var more := if extra != [] then es + [entry] else es;
    forall c | c in stack && OwnerOf(owners, e, c) && owners[ServiceOf(c).value] !in vias - {via}
      ensures InEntries(more, c, e.role, false)
    {
      if owners[ServiceOf(c).value] == via {
        assert c in extra && Holds(entry, c, e.role, false);
      } else {
        InMore(es, [entry], c, e.role, false);
      }
    }
  }

  lemma EnteredAll(n: ListedNode, owners: map<string, string>, e: Entry, es: seq<Entry>)
    requires Entered(Stack(n), owners, e, {}, es)
    requires forall o :: o in owners <==> OwnsFor(RenderedOf(n), Names(Services(e.containers)), o)
    ensures forall c, role, direct :: InEntries(es, c, role, direct) <==>
      !direct && c in Stack(n) && role == e.role && OwnsRendered(n, e, c)
  {
    forall c ensures OwnerOf(owners, e, c) <==> OwnsRendered(n, e, c) {
    }
  }

  /** One entry per protected service, so each refusal names the service it protects. */
  method RenderedOwnersOf(n: ListedNode, e: Entry) returns (es: seq<Entry>)
    requires e in Followed(n)
    ensures forall c, role, direct :: InEntries(es, c, role, direct) <==>
      !direct && c in Stack(n) && role == e.role && OwnsRendered(n, e, c)
  {
    var owners := NamespaceOwners(Services(e.containers), RenderedOf(n));
    es := EnterOwners(n, Stack(n), owners, e);
    EnteredAll(n, owners, e, es);
  }

  method EnterOwners(ghost n: Node, stack: seq<Container>, owners: map<string, string>, e: Entry)
    returns (es: seq<Entry>)
    requires OwnersSound(NamespaceEdges(RenderedOf(n)), Names(Services(e.containers)), owners)
    ensures Entered(stack, owners, e, {}, es)
  {
    es := [];
    var vias := owners.Values;
    while vias != {}
      invariant vias <= owners.Values
      invariant Entered(stack, owners, e, vias, es)
    {
      var via :| via in vias;
      ViaNamed(n, e, owners, via);
      var extra := Filter(stack, c => OwnerVia(owners, e, via, c));
      EnterVia(stack, owners, e, vias, es, via, extra);
      if extra != [] { es := es + [Entry(extra, e.role, Some(via))]; }
      vias := vias - {via};
    }
  }

  lemma ViaNamed(n: Node, e: Entry, owners: map<string, string>, via: string)
    requires via in owners.Values && OwnersSound(NamespaceEdges(RenderedOf(n)), Names(Services(e.containers)), owners)
    ensures via != ""
  {
    var o :| o in owners && owners[o] == via;
    assert owners[o] in Names(Services(e.containers));
    var i :| 0 <= i < |e.containers| && ServiceOf(e.containers[i]) == Some(via);
  }

  method RenderedOwners(n: ListedNode) returns (es: seq<Entry>)
    ensures forall c, role, direct :: InEntries(es, c, role, direct) <==>
      !direct && c in Stack(n) && exists e | e in Followed(n) :: e.role == role && OwnsRendered(n, e, c)
  {
    var followed := Followed(n);
    es := [];
    for i := 0 to |followed|
      invariant forall c, role, direct :: InEntries(es, c, role, direct) <==>
        !direct && c in Stack(n) && exists j | 0 <= j < i :: followed[j].role == role && OwnsRendered(n, followed[j], c)
    {
      var more := RenderedOwnersOf(n, followed[i]);
      forall c, role, direct
        ensures InEntries(es + more, c, role, direct) <==>
          InEntries(es, c, role, direct) || InEntries(more, c, role, direct)
      {
        InMore(es, more, c, role, direct);
      }
      es := es + more;
    }
  }

  ghost predicate LiveFor(n: ListedNode, ids: set<string>, c: Container, role: Role, direct: bool) {
    exists id | id in ids && id in RootsOf(n) ::
      RootsOf(n)[id].role == role && direct == (RootsOf(n)[id].shownAs == "") && OwnsForRoot(n, RootsOf(n)[id], c)
  }

  method LiveOwnersOf(n: ListedNode, root: Root) returns (ok: bool, es: seq<Entry>)
    ensures ok <==> !Unreadable(n.inspects, root.target)
    ensures ok ==> forall c, role, direct :: InEntries(es, c, role, direct) <==>
      c in Stack(n) && root.role == role && direct == (root.shownAs == "") && OwnsForRoot(n, root, c)
  {
    var refs := NamespaceOwnerRefs(n.inspects, root.target);
    if refs.Unread? { return false, []; }
    var roots := RootsOf(n);
    var extra :=
      Filter(Stack(n), c => IdOrEmpty(c) !in roots && exists o | o in refs.owners ::
      NamesOwner(o, IdOrEmpty(c), FirstName(c)));
    ok, es := true, if extra == [] then [] else [Entry(extra, root.role, Some(root.shownAs))];
    forall c ensures c in extra <==> c in Stack(n) && OwnsForRoot(n, root, c) {
      OwnerListed(n, root, refs.owners, c);
    }
    forall c, role, direct | c in extra && root.role == role && direct == (root.shownAs == "")
      ensures InEntries(es, c, role, direct)
    {
      assert Holds(es[0], c, role, direct);
    }
  }

  lemma OwnerListed(n: Node, root: Root, owners: seq<NamespaceOwner>, c: Container)
    requires forall o :: o in owners <==>
      LiveOwner(n.inspects, FirstLookup(n.inspects, root.target), o.ref) && o == OwnerNamed(n.inspects, o.ref)
    ensures (exists o | o in owners :: NamesOwner(o, IdOrEmpty(c), FirstName(c))) <==> OwnsLive(n, root.target, c)
  {
    if OwnsLive(n, root.target, c) {
      var ref :| LiveOwner(n.inspects, FirstLookup(n.inspects, root.target), ref)
        && NamesOwner(OwnerNamed(n.inspects, ref), IdOrEmpty(c), FirstName(c));
      assert OwnerNamed(n.inspects, ref) in owners;
    }
  }

  method LiveOwners(n: ListedNode) returns (ok: bool, es: seq<Entry>)
    ensures ok <==> RootsReadable(n)
    ensures ok ==> forall c, role, direct :: InEntries(es, c, role, direct) <==>
      c in Stack(n) && LiveFor(n, RootsOf(n).Keys, c, role, direct)
  {
    var roots := RootsOf(n);
    es := [];
    var rest := roots.Keys;
    while rest != {}
      invariant rest <= roots.Keys
      invariant forall id | id in roots && id !in rest :: !Unreadable(n.inspects, roots[id].target)
      invariant forall c, role, direct :: InEntries(es, c, role, direct) <==>
        c in Stack(n) && LiveFor(n, roots.Keys - rest, c, role, direct)
    {
      var id :| id in rest;
      var more;
      ok, more := LiveOwnersOf(n, roots[id]);
      if !ok { return false, []; }
      forall c, role, direct
        ensures InEntries(es + more, c, role, direct) <==>
          c in Stack(n) && LiveFor(n, roots.Keys - (rest - {id}), c, role, direct)
      {
        InMore(es, more, c, role, direct);
      }
      es := es + more;
      rest := rest - {id};
    }
    ok := true;
    assert roots.Keys - rest == roots.Keys;
  }

  lemma FoundExactly(n: ListedNode, rendered: seq<Entry>, live: seq<Entry>, c: Container, role: Role, direct: bool)
    requires InEntries(rendered, c, role, direct) <==> !direct && c in Stack(n) && exists e | e in Followed(n) ::
      e.role == role && OwnsRendered(n, e, c)
    requires InEntries(live, c, role, direct) <==> c in Stack(n) && LiveFor(n, RootsOf(n).Keys, c, role, direct)
    ensures InEntries(DirectEntries(n) + rendered + live, c, role, direct) <==> Protected(n, c, role, direct)
  {
    InMore(DirectEntries(n) + rendered, live, c, role, direct);
    InMore(DirectEntries(n), rendered, c, role, direct);
    InDirectEntries(n, c, role, direct);
  }

  lemma JudgedAll(n: ListedNode, m: Mutation, found: seq<Entry>)
    requires forall c, role, direct :: InEntries(found, c, role, direct) <==> Protected(n, c, role, direct)
    ensures AllEntriesHarmless(n, m, found) <==> AllHarmless(n, m)
  {
    if AllHarmless(n, m) {
      forall e, c | e in found && c in e.containers ensures Harmless(n, m, c, e.role, IsDirect(e.via)) {
        assert Holds(e, c, e.role, IsDirect(e.via));
        assert InEntries(found, c, e.role, IsDirect(e.via));
      }
    }
  }

  /** The first harmed entry of two runs is in the first run, if any there is harmed. */
  lemma FirstOfTwo(n: ListedNode, m: Mutation, a: seq<Entry>, b: seq<Entry>, r: Refusal)
    requires FirstCauses(n, m, a + b, r)
    ensures if AllEntriesHarmless(n, m, a) then FirstCauses(n, m, b, r) else FirstCauses(n, m, a, r)
  {
    var k :| 0 <= k < |a + b| && EntryCauses(n, m, (a + b)[k], r) && forall j | 0 <= j < k ::
      EntryHarmless(n, m, (a + b)[j]);
    EntryIsHarmed(n, m, (a + b)[k], r);
    if k < |a| {
      assert a[k] in a && (a + b)[k] == a[k];
      forall j | 0 <= j < k ensures EntryHarmless(n, m, a[j]) { assert (a + b)[j] == a[j]; }
    } else {
      forall e | e in a ensures EntryHarmless(n, m, e) {
        var j :| 0 <= j < |a| && a[j] == e;
        assert (a + b)[j] == e;
      }
      assert (a + b)[k] == b[k - |a|];
      forall j | 0 <= j < k - |a| ensures EntryHarmless(n, m, b[j]) { assert (a + b)[|a| + j] == b[j]; }
    }
  }

  lemma EntryIsHarmed(n: ListedNode, m: Mutation, e: Entry, r: Refusal)
    requires EntryCauses(n, m, e, r)
    ensures exists c | c in e.containers ::
      !Harmless(n, m, c, e.role, IsDirect(e.via)) && r == RefusalOf(n, m, c, e.role)
  {
    var i :| 0 <= i < |e.containers| && Decides(n, m, e, i) && r == RefusalOf(n, m, e.containers[i], e.role);
    assert e.containers[i] in e.containers;
  }

  /** A harmed entry holds a harmed container. */
  lemma CauseIsHeld(n: ListedNode, m: Mutation, found: seq<Entry>, r: Refusal)
    requires FirstCauses(n, m, found, r)
    ensures exists c, role, direct ::
      InEntries(found, c, role, direct) && !Harmless(n, m, c, role, direct) && r == RefusalOf(n, m, c, role)
  {
    var k :| 0 <= k < |found| && EntryCauses(n, m, found[k], r);
    EntryIsHarmed(n, m, found[k], r);
    var c :| c in found[k].containers && !Harmless(n, m, c, found[k].role, IsDirect(found[k].via))
      && r == RefusalOf(n, m, c, found[k].role);
    assert Holds(found[k], c, found[k].role, IsDirect(found[k].via));
    assert InEntries(found, c, found[k].role, IsDirect(found[k].via));
  }

  lemma RenderedIsJudged(n: ListedNode, m: Mutation, rendered: seq<Entry>)
    requires forall c, role, direct :: InEntries(rendered, c, role, direct) <==> !direct && IsRenderedOwner(n, c, role)
    ensures AllEntriesHarmless(n, m, rendered) <==> forall c, role | IsRenderedOwner(n, c, role) ::
      Harmless(n, m, c, role, false)
  {
    if AllEntriesHarmless(n, m, rendered) {
      forall c, role | IsRenderedOwner(n, c, role) ensures Harmless(n, m, c, role, false) {
        assert InEntries(rendered, c, role, false);
      }
    } else {
      var e :| e in rendered && !EntryHarmless(n, m, e);
      var c :| c in e.containers && !Harmless(n, m, c, e.role, IsDirect(e.via));
      assert Holds(e, c, e.role, IsDirect(e.via));
      assert InEntries(rendered, c, e.role, IsDirect(e.via));
    }
  }

  lemma RenderedIsCause(n: ListedNode, m: Mutation, rendered: seq<Entry>, r: Refusal)
    requires forall c, role, direct :: InEntries(rendered, c, role, direct) <==> !direct && IsRenderedOwner(n, c, role)
    requires FirstCauses(n, m, rendered, r)
    ensures RenderedCauses(n, m, r)
  {
    CauseIsHeld(n, m, rendered, r);
    var c, role, direct :|
      InEntries(rendered, c, role, direct) && !Harmless(n, m, c, role, direct) && r == RefusalOf(n, m, c, role);
  }

  lemma LiveIsCause(n: ListedNode, m: Mutation, live: seq<Entry>, r: Refusal)
    requires forall c, role, direct :: InEntries(live, c, role, direct) <==>
      c in Stack(n) && LiveFor(n, RootsOf(n).Keys, c, role, direct)
    requires FirstCauses(n, m, live, r)
    ensures LiveCauses(n, m, r)
  {
    CauseIsHeld(n, m, live, r);
    var c, role, direct :|
      InEntries(live, c, role, direct) && !Harmless(n, m, c, role, direct) && r == RefusalOf(n, m, c, role);
  }

  lemma Regroup(a: seq<Entry>, b: seq<Entry>, c: seq<Entry>)
    ensures a + b + c == a + (b + c)
  {
  }

  lemma FirstOfThree(n: ListedNode, m: Mutation, a: seq<Entry>, b: seq<Entry>, c: seq<Entry>, r: Refusal)
    requires FirstCauses(n, m, a + b + c, r)
    ensures if !AllEntriesHarmless(n, m, a) then FirstCauses(n, m, a, r)
      else if !AllEntriesHarmless(n, m, b) then FirstCauses(n, m, b, r)
      else FirstCauses(n, m, c, r)
  {
    Regroup(a, b, c);
    FirstOfTwo(n, m, a, b + c, r);
    if AllEntriesHarmless(n, m, a) { FirstOfTwo(n, m, b, c, r); }
  }

  /** The refusal of the first harmed entry is the one of the first of the three groups that is harmed. */
  lemma FirstOfGroups(n: ListedNode, m: Mutation, direct: seq<Entry>, rendered: seq<Entry>, live: seq<Entry>,
      r: Refusal)
    requires forall c, role, direct :: InEntries(rendered, c, role, direct) <==> !direct && IsRenderedOwner(n, c, role)
    requires forall c, role, direct :: InEntries(live, c, role, direct) <==>
      c in Stack(n) && LiveFor(n, RootsOf(n).Keys, c, role, direct)
    requires FirstCauses(n, m, direct + rendered + live, r)
    ensures GroupCauses(n, m, direct, r)
  {
    FirstOfThree(n, m, direct, rendered, live, r);
    RenderedIsJudged(n, m, rendered);
    if AllEntriesHarmless(n, m, direct) {
      if AllEntriesHarmless(n, m, rendered) { LiveIsCause(n, m, live, r); } else { RenderedIsCause(n, m, rendered, r); }
    }
  }

  /** What may run is exactly what is permitted, and what is refused is refused for the first cause found. */
  method EvaluateGuard(n: Node, m: Mutation) returns (r: Option<Refusal>)
    ensures r.None? <==> Permitted(n, m)
    ensures r.Some? ==> Refuses(n, m, r.value)
  {
    if n.remote { return None; }
    if n.list.None? { return Some(CANNOT_TELL); }
    if Stack(n) == [] {
      if IsEngineDriven(m) { return None; }
      if n.render.None? { return Some(CANNOT_TELL); }
      r := InvalidRenderedLabel(n.render.value);
      return;
    }
    if MayHoldSelf(n) { return Some(CANNOT_TELL); }
    if n.render.None? && !IsEngineDriven(m) { return Some(CANNOT_TELL); }
    r := InvalidRenderedLabel(RenderedOf(n));
    if r.Some? { return; }
    r := JudgeStack(n, m);
  }

  /** Finds everything protected and judges it. */
  method JudgeStack(n: ListedNode, m: Mutation) returns (r: Option<Refusal>)
    requires Stack(n) != [] && !MayHoldSelf(n) && (n.render.Some? || IsEngineDriven(m))
    requires !HasInvalidLabel(RenderedOf(n))
    ensures r.None? <==> RootsReadable(n) && AllHarmless(n, m)
    ensures r.Some? ==> Refuses(n, m, r.value)
  {
    var rendered := RenderedOwners(n);
    var ok, live := LiveOwners(n);
    if !ok { return Some(CANNOT_TELL); }
    var found := DirectEntries(n) + rendered + live;
    forall c, role, direct ensures InEntries(found, c, role, direct) <==> Protected(n, c, role, direct) {
      FoundExactly(n, rendered, live, c, role, direct);
    }
    JudgedAll(n, m, found);
    r := JudgeEntries(n, m, found);
    if r.Some? { FirstOfGroups(n, m, DirectEntries(n), rendered, live, r.value); }
  }
}
