/**
  What one evaluation of the Docker endpoint guard reads: the container list, the
  inspect answers, the rendered services and the probes, fixed for the evaluation.
*/
module GuardModel {
  import opened Common
  import Whitespace

  const PROJECT_LABEL := "com.docker.compose.project"
  const SERVICE_LABEL := "com.docker.compose.service"
  const HASH_LABEL := "com.docker.compose.config-hash"
  const VERSION_LABEL := "com.docker.compose.version"
  const WORKING_DIR_LABEL := "com.docker.compose.project.working_dir"
  const INFRASTRUCTURE_LABEL := "io.sencho.infrastructure"

  datatype Container = Container(
    id: Option<string>, names: seq<string>, labels: map<string, string>, state: Option<string>,
    imageId: Option<string>, networks: seq<(string, Option<string>)>)

  datatype RenderedService = RenderedService(
    infrastructure: Option<string>, image: Option<string>, pullPolicy: Option<string>,
    linkedServices: seq<string>, namespaceServices: seq<string>, hashUnreliable: bool)

  type Rendered = map<string, RenderedService>

  datatype Mutation =
    | Up(pinnedServices: set<string>)
    | Update
    | Stop
    | Restart
    | ServiceOp(service: string, restart: bool, engineOnly: bool)

  /** A stop, restart, take down or delete is judged from the deployed containers alone. */
  predicate IsEngineDriven(m: Mutation) {
    m.Stop? || m.Restart? || (m.ServiceOp? && m.engineOnly)
  }

  datatype Provider = Provider(containerId: string, containerName: string, project: Option<string>,
    service: Option<string>)

  datatype ProviderView = ProviderResolved(provider: Provider) | ProviderUnresolved | NoProvider

  datatype SelfState = SelfResolved | SelfUnresolved | NotInDocker

  datatype Self = Self(state: SelfState, containerId: Option<string>, containerName: Option<string>,
    service: Option<string>, networks: set<string>)

  /** An inspected container and its network, pid and ipc modes. */
  datatype Inspected = Inspected(id: Option<string>, name: Option<string>, modes: seq<string>)

  /** A reference outside the map answers 404. */
  datatype Lookup = Found(info: Inspected) | Failed

  type Inspects = map<string, Lookup>

  datatype Node = Node(
    remote: bool,
    stackName: string,
    stackDirs: set<string>,
    list: Option<seq<Container>>,
    inspects: Inspects,
    self: Self,
    candidates: seq<string>,
    provider: ProviderView,
    render: Option<Rendered>,
    configHash: map<string, string>,
    localImage: map<string, string>,
    composeVersion: Option<string>)

  /** A node whose containers could be listed. */
  type ListedNode = n: Node | n.list.Some?
    witness Node(false, "", {}, Some([]), map[], Self(NotInDocker, None, None, None, {}), [], NoProvider, None, map[],
      map[], None)

  // --------------------------------------------------------------- strings

  function BareName(name: string): string {
    if name != "" && name[0] == '/' then name[1..] else name
  }

  predicate IsHexId(s: string) {
    12 <= |s| <= 64 && forall i | 0 <= i < |s| :: '0' <= s[i] <= '9' || 'a' <= s[i] <= 'f' || 'A' <= s[i] <= 'F'
  }

  predicate MatchesContainerId(full: string, candidate: string) {
    && full != "" && candidate != ""
    && (full == candidate || (IsHexId(full) && IsHexId(candidate) && (candidate <= full || full <= candidate)))
  }

  function Label(c: Container, key: string): Option<string> {
    if key in c.labels then Some(c.labels[key]) else None
  }

  /** An empty label is no label. */
  function ServiceOf(c: Container): Option<string> {
    var l := Label(c, SERVICE_LABEL);
    if l.Some? && l.value != "" then l else None
  }

  function NameOf(c: Container): string {
    if c.names == [] then "" else BareName(c.names[0])
  }

  function ReportedServiceOf(c: Container): string {
    if ServiceOf(c).Some? then ServiceOf(c).value
    else if NameOf(c) != "" then NameOf(c)
    else if c.id.Some? && c.id.value != "" then c.id.value
    else "unknown"
  }

  predicate IsStopped(c: Container) {
    c.state == Some("exited") || c.state == Some("created") || c.state == Some("dead")
  }

  // --------------------------------------------------- protected containers

  predicate InStack(n: Node, c: Container) {
    || Label(c, PROJECT_LABEL) == Some(n.stackName)
    || (Label(c, WORKING_DIR_LABEL).Some? && Label(c, WORKING_DIR_LABEL).value in n.stackDirs)
  }

  function Filter(cs: seq<Container>, keep: Container -> bool): (r: seq<Container>)
    ensures forall c :: c in r <==> c in cs && keep(c)
  {
    if cs == [] then [] else (if keep(cs[0]) then [cs[0]] else []) + Filter(cs[1..], keep)
  }

  /** The kept containers stay in order. */
  lemma {:induction false} FilterNext(cs: seq<Container>, c: Container, keep: Container -> bool)
    ensures Filter(cs + [c], keep) == Filter(cs, keep) + if keep(c) then [c] else []
    decreases |cs|
  {
    if cs == [] {
      assert cs + [c] == [c] && [c][1..] == [];
    } else {
      assert (cs + [c])[1..] == cs[1..] + [c];
      FilterNext(cs[1..], c, keep);
    }
  }

  predicate IsOwn(self: Self, idOrName: string) {
    && idOrName != ""
    && ((self.containerId.Some? && MatchesContainerId(self.containerId.value, idOrName))
      || self.containerName == Some(idOrName))
  }

  predicate IsOwnContainer(self: Self, c: Container) {
    c.id.Some? && IsOwn(self, c.id.value)
  }

  predicate IsProviderContainer(c: Container, p: Provider) {
    || (c.id.Some? && c.id.value != "" && c.id.value == p.containerId)
    || (BareName(p.containerName) != "" && exists name | name in c.names :: BareName(name) == BareName(p.containerName))
    || (p.project.Some? && p.service.Some? && Label(c, PROJECT_LABEL) == p.project
      && Label(c, SERVICE_LABEL) == p.service)
  }

  predicate SharesSenchoNetwork(c: Container, self: Self) {
    exists e | e in c.networks :: e.0 in self.networks || (e.1.Some? && e.1.value in self.networks)
  }

  predicate IsRemovableOrphan(c: Container, rendered: Rendered) {
    && Label(c, PROJECT_LABEL).Some? && Label(c, PROJECT_LABEL).value != ""
    && (ServiceOf(c).None? || ServiceOf(c).value !in rendered)
  }

  /** The only accepted value of the infrastructure label is "true". */
  predicate IsInvalidLabel(view: RenderedService) {
    view.infrastructure.Some? && view.infrastructure.value != "true"
  }

  // --------------------------------------------------------- recreate verdict

  datatype Recreate = Yes | No | Unknown | Unreliable | Version

  /** The characters a regular expression's dot does not match. */
  predicate IsLineEnd(c: char) {
    c == '\n' || c == '\r' || c == '\U{2028}' || c == '\U{2029}'
  }

  /** Pull policies that can replace the image on `up`. */
  predicate IsReplacingPolicy(policy: string) {
    var p := Lower(policy);
    || p == "always" || p == "refresh" || p == "daily" || p == "weekly" || p == "build"
    || ("every_" <= p && |p| > 6 && forall k | 6 <= k < |p| :: !IsLineEnd(p[k]))
  }

  function NormalizeVersion(version: Option<string>): string {
    var v := if version.Some? then Whitespace.Trim(version.value) else "";
    if v != "" && v[0] == 'v' then v[1..] else v
  }

  function StripSha(id: string): string {
    if "sha256:" <= id then id[7..] else id
  }

  function ImageIdOf(c: Container): string {
    if c.imageId.Some? then StripSha(c.imageId.value) else ""
  }

  /** What `up -d` decides for the service by itself. */
  function OwnRecreate(n: Node, stack: seq<Container>, rendered: Rendered, pinned: set<string>,
      service: string): Recreate {
    var view := if service in rendered then Some(rendered[service]) else None;
    var existing := Filter(stack, (c: Container) => ServiceOf(c) == Some(service));
    if service in pinned then Yes
    else if view.Some? && view.value.pullPolicy.Some? && IsReplacingPolicy(view.value.pullPolicy.value) then Unknown
    else if service !in n.configHash || n.configHash[service] == "" then Unknown
    else if existing == [] then No
    else if exists c | c in existing :: Label(c, HASH_LABEL) != Some(n.configHash[service]) then
      if view.Some? && view.value.hashUnreliable then Unreliable else Yes
    else JudgeImage(n, existing, if view.Some? then view.value.image else None)
  }

  /** The hash agrees: the image behind the tag and the Compose version decide. */
  function JudgeImage(n: Node, existing: seq<Container>, image: Option<string>): Recreate {
    if image.Some? && image.value != "" && image.value !in n.localImage then Unknown
    else if image.Some? && image.value != "" && exists c | c in existing ::
      ImageIdOf(c) != StripSha(n.localImage[image.value]) then Yes
    else
      var running := NormalizeVersion(n.composeVersion);
      if running == "" then Version
      else if exists c | c in existing :: NormalizeVersion(Label(c, VERSION_LABEL)) != running then Version
      else No
  }
}
