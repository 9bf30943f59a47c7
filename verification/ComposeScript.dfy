/**
  What one Compose file asks the walk to do: a script of reports to make and files
  to visit, in document order.

  A script depends on the file, the context it is expanded in and what can be read,
  and on nothing the walk has done before. It visits exactly the declared targets
  that can be read, reports the others, and whatever it lists as materialised stays
  inside the repository and the runtime root.
*/
module ComposeScript {
  import opened Common
  import opened ComposePaths
  import Whitespace

  const MAX_PARSE_LENGTH := 1_048_576
  const MAX_INCLUDE_DEPTH := 16

  datatype Kind =
    | EnvFile | LabelFile | BuildContext | Dockerfile | BuildSecret | AdditionalContext | BindMount | ConfigFile
    | SecretFile | Include | Extends | IncludeEnv | InterpolationEnv

  /** One file-backed declaration of a service or resource, in document order. */
  datatype Declaration =
    | ProjectRelative(raw: string, kind: Kind)
    | Unmanaged(text: Option<string>, kind: Kind)
    | EnvFileWithoutPath

  datatype Service = Service(declarations: seq<Declaration>, extendsFile: Option<string>)

  datatype IncludeItem =
    | IncludeItem(paths: seq<string>, envFiles: seq<string>, projectDirectory: Option<string>, interpolation: bool)
    | Ignored

  datatype Yaml = Unparseable | NotAMapping
    | Mapping(includes: seq<IncludeItem>, services: seq<Service>, resources: seq<Declaration>)

  datatype Content = Content(length: nat, yaml: Yaml)

  /** `files` answers the read callback; a path outside it is unreadable. */
  datatype Options = Options(projectRoot: Option<string>, files: map<string, Content>, reportUnenumerable: bool)

  datatype FileContext = FileContext(
    repoPath: string, runtimePath: string, projectBase: Option<string>, runtimeProjectBase: Option<string>)

  /** An include or extends target in both coordinate systems, or neither. */
  datatype Resolved = Resolved(source: Option<string>, materialized: Option<string>)

  const NOT_FOLLOWED := Resolved(None, None)

  datatype Input = Input(source: Option<string>, materialized: Option<string>, kind: Kind, fromFile: string)

  datatype WalkError =
    | Cycle(path: string) | TooDeep(path: string) | TooLong(path: string) | BadYaml(path: string)
    | NoIncludePath(path: string) | EscapingProject(directory: string, path: string) | Unreadable(path: string)
    | NoEnvFilePath(path: string)

  // ------------------------------------------------------------- raw paths

  predicate IsLetter(c: char) {
    'A' <= c <= 'Z' || 'a' <= c <= 'z'
  }

  /** Holds a `$VAR` or `${VAR}` form. */
  predicate IsDynamicPath(p: string) {
    exists i | 0 <= i < |p| - 1 :: p[i] == '$' && (p[i + 1] == '{' || p[i + 1] == '_' || IsLetter(p[i + 1]))
  }

  predicate IsHostAbsolutePath(p: string) {
    p != "" && (p[0] == '/' || p[0] == '~' || p[0] == '\\' || (|p| > 1 && IsLetter(p[0]) && p[1] == ':'))
  }

  predicate IsUrl(p: string) {
    p != "" && IsLetter(p[0]) && SchemeEnds(p, 1)
  }

  predicate IsSchemeChar(c: char) {
    IsLetter(c) || '0' <= c <= '9' || c == '+' || c == '.' || c == '-'
  }

  predicate SchemeEnds(p: string, i: nat)
    requires i <= |p|
    decreases |p| - i
  {
    "://" <= p[i..] || (i < |p| && IsSchemeChar(p[i]) && SchemeEnds(p, i + 1))
  }

  lemma {:induction false} SchemeEndsAt(p: string, i: nat)
    requires i <= |p|
    ensures SchemeEnds(p, i) <==> exists n | i <= n <= |p| :: "://" <= p[n..] && forall j | i <= j < n ::
      IsSchemeChar(p[j])
    decreases |p| - i
  {
    if i < |p| { SchemeEndsAt(p, i + 1); }
  }

  /** A letter, characters of a scheme, then `://`. */
  lemma UrlIs(p: string)
    ensures IsUrl(p) <==>
      && p != "" && IsLetter(p[0])
      && exists n | 1 <= n <= |p| :: "://" <= p[n..] && forall j | 1 <= j < n :: IsSchemeChar(p[j])
  {
    if p != "" { SchemeEndsAt(p, 1); }
  }

  // ---------------------------------------------------------- what is declared

  /** Where an include, extends or include-env path points. */
  function FileTarget(ctx: FileContext, raw: string): Resolved {
    if IsHostAbsolutePath(raw) || IsUrl(raw) then NOT_FOLLOWED
    else
      var source := ResolveWithinBase(ctx.projectBase, raw);
      var materialized := ResolveWithinBase(ctx.runtimeProjectBase, raw);
      if source.None? || materialized.None? then NOT_FOLLOWED else Resolved(source, materialized)
  }

  function Followed(opts: Options, ctx: FileContext, raw: string): Resolved {
    if opts.reportUnenumerable && IsDynamicPath(raw) then NOT_FOLLOWED else FileTarget(ctx, raw)
  }

  /** The targets of an include entry's path list, in order. */
  function FollowedAll(opts: Options, ctx: FileContext, paths: seq<string>): (targets: seq<Resolved>)
    ensures |targets| == |paths|
  {
    if paths == [] then [] else FollowedAll(opts, ctx, paths[..|paths| - 1]) + [Followed(opts, ctx, paths[|paths| - 1])]
  }

  lemma {:induction false} FollowedAllAt(opts: Options, ctx: FileContext, paths: seq<string>, j: nat)
    requires j < |paths|
    ensures FollowedAll(opts, ctx, paths)[j] == Followed(opts, ctx, paths[j])
  {
    if j < |paths| - 1 { FollowedAllAt(opts, ctx, paths[..|paths| - 1], j); }
  }

  datatype Child = NoProject | Project(projectBase: Option<string>, runtimeProjectBase: Option<string>)

  /** The included project's bases, when the entry is walked at all. */
  function ChildProject(opts: Options, ctx: FileContext, item: IncludeItem): Child
    requires item.IncludeItem? && item.paths != []
  {
    if item.projectDirectory.Some? then
      var dir := item.projectDirectory.value;
      if opts.reportUnenumerable && IsDynamicPath(dir) then NoProject
      else
        var base := ResolveWithinBase(ctx.projectBase, dir);
        var runtime := ResolveWithinBase(ctx.runtimeProjectBase, dir);
        if base.None? || runtime.None? then NoProject else Project(base, runtime)
    else
      var first := Followed(opts, ctx, item.paths[0]);
      if first.source.Some? && first.materialized.Some? then
        Project(DirOf(first.source.value), DirOf(first.materialized.value))
      else NoProject
  }

  predicate IncludesPath(opts: Options, ctx: FileContext, item: IncludeItem, t: string) {
    && item.IncludeItem? && item.paths != [] && ChildProject(opts, ctx, item).Project?
    && exists p | p in item.paths :: Followed(opts, ctx, p).source == Some(t)
  }

  predicate ExtendsPath(opts: Options, ctx: FileContext, service: Service, t: string) {
    service.extendsFile.Some? && Followed(opts, ctx, service.extendsFile.value).source == Some(t)
  }

  /** How a file is expanded: in which context, with which content, how deep. */
  datatype Expansion = Expansion(ctx: FileContext, content: Content, depth: nat)

  /** The file's declarations are walked at all. */
  predicate IsWalked(o: Expansion) {
    o.depth <= MAX_INCLUDE_DEPTH && o.content.length <= MAX_PARSE_LENGTH && o.content.yaml.Mapping?
  }

  /** Expanding the file this way leads the walk to repository file `t`. */
  predicate LeadsTo(opts: Options, o: Expansion, t: string) {
    && IsWalked(o)
    && ((exists item | item in o.content.yaml.includes :: IncludesPath(opts, o.ctx, item, t))
        || (exists s | s in o.content.yaml.services :: ExtendsPath(opts, o.ctx, s, t)))
  }

  /** The context a target is walked in: the entry's bases, or the file's own directory where it has none. */
  function ChildContext(source: string, materialized: string, child: Child): (ctx: FileContext)
    ensures ctx.repoPath == source
  {
    FileContext(
      source, materialized,
      if child.Project? && child.projectBase.Some? then child.projectBase else DirOf(source),
      if child.Project? && child.runtimeProjectBase.Some? then child.runtimeProjectBase else DirOf(materialized))
  }

  /** The target, resolved in both coordinate systems, is walked in this context. */
  predicate WalkedIn(r: Resolved, child: Child, ctx: FileContext) {
    r.source.Some? && r.materialized.Some? && ctx == ChildContext(r.source.value, r.materialized.value, child)
  }

  predicate ItemRoutes(opts: Options, parent: FileContext, item: IncludeItem, ctx: FileContext) {
    && item.IncludeItem? && item.paths != [] && ChildProject(opts, parent, item).Project?
    && exists raw | raw in item.paths :: WalkedIn(Followed(opts, parent, raw), ChildProject(opts, parent, item), ctx)
  }

  /** Some include or extends of the file hands this context to its target. */
  predicate RoutesTo(opts: Options, o: Expansion, ctx: FileContext) {
    && IsWalked(o)
    && ((exists item | item in o.content.yaml.includes :: ItemRoutes(opts, o.ctx, item, ctx))
        || (exists s | s in o.content.yaml.services ::
          s.extendsFile.Some? && WalkedIn(Followed(opts, o.ctx, s.extendsFile.value), NoProject, ctx)))
  }

  // -------------------------------------------------------- what is reported

  /** An entry of one of the three lists the walk returns. */
  datatype Report = AnInput(input: Input) | ADynamic(path: string) | AnError(error: WalkError)

  /** A path that holds a variable is listed as dynamic. */
  function EmitReport(raw: Option<string>, input: Input): Report {
    if raw.Some? && IsDynamicPath(raw.value) then ADynamic(raw.value) else AnInput(input)
  }

  function ProjectRelativeReport(ctx: FileContext, raw: string, kind: Kind, fromFile: string): Report {
    var source := ResolveWithinBase(ctx.projectBase, raw);
    var materialized := ResolveWithinBase(ctx.runtimeProjectBase, raw);
    if IsHostAbsolutePath(raw) || source.None? || materialized.None? then
      EmitReport(Some(raw), Input(Some(raw), None, kind, fromFile))
    else EmitReport(Some(raw), Input(source, materialized, kind, fromFile))
  }

  function FileRelativeReport(ctx: FileContext, raw: string, kind: Kind, fromFile: string): Report {
    var target := FileTarget(ctx, raw);
    if IsUrl(raw) && !IsHostAbsolutePath(raw) then
      EmitReport(Some(raw), Input(Some(Whitespace.Trim(raw)), None, kind, fromFile))
    else if target == NOT_FOLLOWED then EmitReport(Some(raw), Input(Some(raw), None, kind, fromFile))
    else EmitReport(Some(raw), Input(target.source, target.materialized, kind, fromFile))
  }

  function DeclarationReport(ctx: FileContext, d: Declaration, fromFile: string): Report {
    match d
    case ProjectRelative(raw, kind) => ProjectRelativeReport(ctx, raw, kind, fromFile)
    case Unmanaged(text, kind) => EmitReport(text, Input(text, None, kind, fromFile))
    case EnvFileWithoutPath => AnError(NoEnvFilePath(fromFile))
  }

  // ------------------------------------------------------------------ scripts

  datatype Event = Say(report: Report) | Visit(ctx: FileContext, content: Content)

  function Says(reports: seq<Report>): (events: seq<Event>)
    ensures |events| == |reports| && forall i | 0 <= i < |reports| :: events[i] == Say(reports[i])
  {
    seq(|reports|, i requires 0 <= i < |reports| => Say(reports[i]))
  }

  /** The scripts of the parts, one after the other. */
  function Chain<A>(parts: seq<A>, script: A -> seq<Event>): seq<Event> {
    if parts == [] then [] else Chain(parts[..|parts| - 1], script) + script(parts[|parts| - 1])
  }

  function Mapped<A>(parts: seq<A>, report: A -> Report): (log: seq<Report>)
    ensures |log| == |parts| && forall i | 0 <= i < |parts| :: log[i] == report(parts[i])
  {
    seq(|parts|, i requires 0 <= i < |parts| => report(parts[i]))
  }

  lemma MappedNext<A>(parts: seq<A>, report: A -> Report, i: nat)
    requires i < |parts|
    ensures Mapped(parts[..i + 1], report) == Mapped(parts[..i], report) + [report(parts[i])]
  {
  }

  function DeclarationReports(ctx: FileContext, fromFile: string): Declaration -> Report {
    d => DeclarationReport(ctx, d, fromFile)
  }

  function PathReports(ctx: FileContext, kind: Kind, fromFile: string): string -> Report {
    raw => FileRelativeReport(ctx, raw, kind, fromFile)
  }

  function DeclarationLog(ctx: FileContext, ds: seq<Declaration>, fromFile: string): seq<Report> {
    Mapped(ds, DeclarationReports(ctx, fromFile))
  }

  function PathLog(ctx: FileContext, paths: seq<string>, kind: Kind, fromFile: string): seq<Report> {
    Mapped(paths, PathReports(ctx, kind, fromFile))
  }

  /** What deriving an included project reports: its default `.env`, or why there is no project. */
  function ProjectLog(opts: Options, ctx: FileContext, item: IncludeItem, fromFile: string): seq<Report>
    requires item.IncludeItem? && item.paths != []
  {
    var child := ChildProject(opts, ctx, item);
    if child.Project? then
      if item.interpolation
        && !(child.projectBase == ctx.projectBase && child.runtimeProjectBase == ctx.runtimeProjectBase) then
        [AnInput(EnvOf(child, fromFile))]
      else []
    else if item.projectDirectory.None? then []
    else
      var dir := item.projectDirectory.value;
      if !opts.reportUnenumerable then [AnError(EscapingProject(dir, fromFile))]
      else if IsDynamicPath(dir) then [ADynamic(dir)]
      else if Followed(opts, ctx, item.paths[0]).source.Some? then [AnInput(Input(Some(dir), None, Include, fromFile))]
      else []
  }

  /** The included project's default `.env`. */
  function EnvOf(child: Child, fromFile: string): Input
    requires child.Project?
  {
    Input(
      ResolveWithinBase(child.projectBase, ".env"), ResolveWithinBase(child.runtimeProjectBase, ".env"),
      InterpolationEnv, fromFile)
  }

  /** Everything an include entry reports before its targets are read; all of it where there is no project. */
  function EarlyLog(opts: Options, ctx: FileContext, item: IncludeItem, fromFile: string): seq<Report>
    requires item.IncludeItem? && item.paths != []
  {
    PathLog(ctx, item.paths, Include, fromFile) + ProjectLog(opts, ctx, item, fromFile)
    + if ChildProject(opts, ctx, item).NoProject? && opts.reportUnenumerable then
      PathLog(ctx, item.envFiles, IncludeEnv, fromFile) else []
  }

  /** A target that was resolved is visited with what can be read there, or reported. */
  function TargetScript(opts: Options, child: Child, r: Resolved): seq<Event> {
    if r.source.None? || r.materialized.None? then []
    else if r.source.value !in opts.files then [Say(AnError(Unreadable(r.source.value)))]
    else [Visit(ChildContext(r.source.value, r.materialized.value, child), opts.files[r.source.value])]
  }

  function TargetsScript(opts: Options, child: Child): Resolved -> seq<Event> {
    r => TargetScript(opts, child, r)
  }

  function ItemScript(opts: Options, ctx: FileContext, item: IncludeItem, fromFile: string): seq<Event> {
    if !item.IncludeItem? then []
    else if item.paths == [] then [Say(AnError(NoIncludePath(fromFile)))]
    else
      var child := ChildProject(opts, ctx, item);
      var early, env :=
        Says(EarlyLog(opts, ctx, item, fromFile)), Says(PathLog(ctx, item.envFiles, IncludeEnv, fromFile));
      if child.NoProject? then early
      else early + (Chain(FollowedAll(opts, ctx, item.paths), TargetsScript(opts, child)) + env)
  }

  function ItemsScript(opts: Options, ctx: FileContext, fromFile: string): IncludeItem -> seq<Event> {
    item => ItemScript(opts, ctx, item, fromFile)
  }

  function ExtendsScript(opts: Options, ctx: FileContext, raw: string, fromFile: string): seq<Event> {
    Says([FileRelativeReport(ctx, raw, Kind.Extends, fromFile)])
      + TargetScript(opts, NoProject, Followed(opts, ctx, raw))
  }

  function ServiceScript(opts: Options, ctx: FileContext, service: Service, fromFile: string): seq<Event> {
    Says(DeclarationLog(ctx, service.declarations, fromFile))
    + if service.extendsFile.Some? then ExtendsScript(opts, ctx, service.extendsFile.value, fromFile) else []
  }

  function ServicesScript(opts: Options, ctx: FileContext, fromFile: string): Service -> seq<Event> {
    service => ServiceScript(opts, ctx, service, fromFile)
  }

  function MappingScript(opts: Options, o: Expansion, fromFile: string): seq<Event>
    requires o.content.yaml.Mapping?
  {
    Chain(o.content.yaml.includes, ItemsScript(opts, o.ctx, fromFile))
    + Chain(o.content.yaml.services, ServicesScript(opts, o.ctx, fromFile))
    + Says(DeclarationLog(o.ctx, o.content.yaml.resources, fromFile))
  }

  /** Everything one file has the walk do. */
  function Script(opts: Options, o: Expansion, fromFile: string): seq<Event> {
    if o.depth > MAX_INCLUDE_DEPTH then [Say(AnError(TooDeep(fromFile)))]
    else if o.content.length > MAX_PARSE_LENGTH then [Say(AnError(TooLong(fromFile)))]
    else match o.content.yaml
      case Unparseable => [Say(AnError(BadYaml(fromFile)))]
      case NotAMapping => []
      case Mapping(_, _, _) => MappingScript(opts, o, fromFile)
  }

  // ----------------------------------------------------- what a script asks for

  lemma {:induction false} InChain<A>(parts: seq<A>, script: A -> seq<Event>, e: Event)
    ensures e in Chain(parts, script) <==> exists a | a in parts :: e in script(a)
  {
    if parts != [] {
      InChain(parts[..|parts| - 1], script, e);
      assert parts == parts[..|parts| - 1] + [parts[|parts| - 1]];
    }
  }

  lemma ChainNext<A>(parts: seq<A>, script: A -> seq<Event>, i: nat)
    requires i < |parts|
    ensures Chain(parts[..i + 1], script) == Chain(parts[..i], script) + script(parts[i])
  {
    assert parts[..i + 1][..i] == parts[..i];
  }

  lemma InItems(opts: Options, ctx: FileContext, items: seq<IncludeItem>, p: string, e: Event)
    ensures e in Chain(items, ItemsScript(opts, ctx, p)) <==> exists item | item in items ::
      e in ItemScript(opts, ctx, item, p)
  {
    InChain(items, ItemsScript(opts, ctx, p), e);
  }

  lemma InServices(opts: Options, ctx: FileContext, services: seq<Service>, p: string, e: Event)
    ensures e in Chain(services, ServicesScript(opts, ctx, p)) <==> exists s | s in services ::
      e in ServiceScript(opts, ctx, s, p)
  {
    InChain(services, ServicesScript(opts, ctx, p), e);
  }

  lemma InParts(opts: Options, o: Expansion, p: string, e: Event)
    requires IsWalked(o)
    ensures e in Script(opts, o, p) <==>
      || e in Chain(o.content.yaml.includes, ItemsScript(opts, o.ctx, p))
      || e in Chain(o.content.yaml.services, ServicesScript(opts, o.ctx, p))
      || e in Says(DeclarationLog(o.ctx, o.content.yaml.resources, p))
  {
  }

  lemma InMapping(opts: Options, o: Expansion, p: string, e: Event)
    requires IsWalked(o)
    ensures e in Script(opts, o, p) <==>
      || (exists item | item in o.content.yaml.includes :: e in ItemScript(opts, o.ctx, item, p))
      || (exists service | service in o.content.yaml.services :: e in ServiceScript(opts, o.ctx, service, p))
      || e in Says(DeclarationLog(o.ctx, o.content.yaml.resources, p))
  {
    InParts(opts, o, p, e);
    InItems(opts, o.ctx, o.content.yaml.includes, p, e);
    InServices(opts, o.ctx, o.content.yaml.services, p, e);
  }

  /** The file's content as read for this context. */
  predicate IsReadAs(opts: Options, ctx: FileContext, content: Content) {
    ctx.repoPath in opts.files && content == opts.files[ctx.repoPath]
  }

  lemma TargetVisits(opts: Options, child: Child, r: Resolved, ctx: FileContext, content: Content)
    ensures Visit(ctx, content) in TargetScript(opts, child, r) <==>
      WalkedIn(r, child, ctx) && IsReadAs(opts, ctx, content)
  {
  }

  lemma InFollowedAll(opts: Options, ctx: FileContext, paths: seq<string>, r: Resolved)
    ensures r in FollowedAll(opts, ctx, paths) <==> exists raw | raw in paths :: r == Followed(opts, ctx, raw)
  {
    var rs := FollowedAll(opts, ctx, paths);
    forall j | 0 <= j < |paths| ensures rs[j] == Followed(opts, ctx, paths[j]) { FollowedAllAt(opts, ctx, paths, j); }
    if r in rs {
      var j :| 0 <= j < |rs| && rs[j] == r;
      assert paths[j] in paths;
    }
    if raw :| raw in paths && r == Followed(opts, ctx, raw) {
      var j :| 0 <= j < |paths| && paths[j] == raw;
      assert rs[j] == r;
    }
  }

  lemma InTargets(opts: Options, ctx: FileContext, paths: seq<string>, child: Child, e: Event)
    ensures e in Chain(FollowedAll(opts, ctx, paths), TargetsScript(opts, child)) <==>
      exists raw | raw in paths :: e in TargetScript(opts, child, Followed(opts, ctx, raw))
  {
    var targets := FollowedAll(opts, ctx, paths);
    InChain(targets, TargetsScript(opts, child), e);
    forall r ensures r in targets <==> exists raw | raw in paths :: r == Followed(opts, ctx, raw) {
      InFollowedAll(opts, ctx, paths, r);
    }
    if raw :| raw in paths && e in TargetScript(opts, child, Followed(opts, ctx, raw)) {
      assert Followed(opts, ctx, raw) in targets;
    }
  }

  lemma InItem(opts: Options, ctx: FileContext, item: IncludeItem, p: string, e: Event)
    requires item.IncludeItem? && item.paths != [] && ChildProject(opts, ctx, item).Project?
    ensures e in ItemScript(opts, ctx, item, p) <==>
      || e in Says(EarlyLog(opts, ctx, item, p))
      || (exists raw | raw in item.paths ::
        e in TargetScript(opts, ChildProject(opts, ctx, item), Followed(opts, ctx, raw)))
      || e in Says(PathLog(ctx, item.envFiles, IncludeEnv, p))
  {
    InTargets(opts, ctx, item.paths, ChildProject(opts, ctx, item), e);
  }

  lemma ItemVisits(opts: Options, parent: FileContext, item: IncludeItem, p: string, ctx: FileContext, content: Content)
    ensures Visit(ctx, content) in ItemScript(opts, parent, item, p) <==>
      ItemRoutes(opts, parent, item, ctx) && IsReadAs(opts, ctx, content)
  {
    if item.IncludeItem? && item.paths != [] && ChildProject(opts, parent, item).Project? {
      var child := ChildProject(opts, parent, item);
      InItem(opts, parent, item, p, Visit(ctx, content));
      forall raw ensures Visit(ctx, content) in TargetScript(opts, child, Followed(opts, parent, raw)) <==>
          WalkedIn(Followed(opts, parent, raw), child, ctx) && IsReadAs(opts, ctx, content) {
        TargetVisits(opts, child, Followed(opts, parent, raw), ctx, content);
      }
    }
  }

  lemma ServiceVisits(opts: Options, parent: FileContext, service: Service, p: string, ctx: FileContext,
      content: Content)
    ensures Visit(ctx, content) in ServiceScript(opts, parent, service, p) <==>
      service.extendsFile.Some? && WalkedIn(Followed(opts, parent, service.extendsFile.value), NoProject, ctx)
        && IsReadAs(opts, ctx, content)
  {
    if service.extendsFile.Some? {
      TargetVisits(opts, NoProject, Followed(opts, parent, service.extendsFile.value), ctx, content);
    }
  }

  /** A file is visited exactly where an include or extends routes to it and it can be read. */
  lemma ScriptVisits(opts: Options, o: Expansion, p: string, ctx: FileContext, content: Content)
    ensures Visit(ctx, content) in Script(opts, o, p) <==> RoutesTo(opts, o, ctx) && IsReadAs(opts, ctx, content)
  {
    if IsWalked(o) {
      InMapping(opts, o, p, Visit(ctx, content));
      forall item
        ensures Visit(ctx, content) in ItemScript(opts, o.ctx, item, p) <==>
          ItemRoutes(opts, o.ctx, item, ctx) && IsReadAs(opts, ctx, content)
      {
        ItemVisits(opts, o.ctx, item, p, ctx, content);
      }
      forall s ensures Visit(ctx, content) in ServiceScript(opts, o.ctx, s, p) <==>
          s.extendsFile.Some? && WalkedIn(Followed(opts, o.ctx, s.extendsFile.value), NoProject, ctx)
            && IsReadAs(opts, ctx, content) {
        ServiceVisits(opts, o.ctx, s, p, ctx, content);
      }
    }
  }

  lemma BothOrNeither(opts: Options, ctx: FileContext, raw: string)
    ensures Followed(opts, ctx, raw).source.Some? <==> Followed(opts, ctx, raw).materialized.Some?
  {
  }

  lemma ItemLeads(opts: Options, parent: FileContext, item: IncludeItem, t: string)
    ensures IncludesPath(opts, parent, item, t) <==> exists ctx ::
      ItemRoutes(opts, parent, item, ctx) && ctx.repoPath == t
  {
    if IncludesPath(opts, parent, item, t) {
      var raw :| raw in item.paths && Followed(opts, parent, raw).source == Some(t);
      BothOrNeither(opts, parent, raw);
      var ctx := ChildContext(t, Followed(opts, parent, raw).materialized.value, ChildProject(opts, parent, item));
      assert WalkedIn(Followed(opts, parent, raw), ChildProject(opts, parent, item), ctx);
      assert ItemRoutes(opts, parent, item, ctx);
    }
  }

  lemma ServiceLeads(opts: Options, parent: FileContext, s: Service, t: string)
    requires s.extendsFile.Some?
    ensures ExtendsPath(opts, parent, s, t) <==> exists ctx ::
      WalkedIn(Followed(opts, parent, s.extendsFile.value), NoProject, ctx) && ctx.repoPath == t
  {
    var r := Followed(opts, parent, s.extendsFile.value);
    BothOrNeither(opts, parent, s.extendsFile.value);
    if r.source == Some(t) { assert WalkedIn(r, NoProject, ChildContext(t, r.materialized.value, NoProject)); }
  }

  /** A file leads to the targets it routes to. */
  lemma LeadsWhereItRoutes(opts: Options, o: Expansion, t: string)
    ensures LeadsTo(opts, o, t) <==> exists ctx :: RoutesTo(opts, o, ctx) && ctx.repoPath == t
  {
    if LeadsTo(opts, o, t) {
      if item :| item in o.content.yaml.includes && IncludesPath(opts, o.ctx, item, t) {
        ItemLeads(opts, o.ctx, item, t);
        var ctx :| ItemRoutes(opts, o.ctx, item, ctx) && ctx.repoPath == t;
        assert RoutesTo(opts, o, ctx);
      } else {
        var s :| s in o.content.yaml.services && ExtendsPath(opts, o.ctx, s, t);
        ServiceLeads(opts, o.ctx, s, t);
        var ctx :| WalkedIn(Followed(opts, o.ctx, s.extendsFile.value), NoProject, ctx) && ctx.repoPath == t;
        assert RoutesTo(opts, o, ctx);
      }
    }
    if ctx :| RoutesTo(opts, o, ctx) && ctx.repoPath == t {
      if item :| item in o.content.yaml.includes && ItemRoutes(opts, o.ctx, item, ctx) {
        ItemLeads(opts, o.ctx, item, t);
      } else {
        var s :| s in o.content.yaml.services && s.extendsFile.Some?
          && WalkedIn(Followed(opts, o.ctx, s.extendsFile.value), NoProject, ctx);
        ServiceLeads(opts, o.ctx, s, t);
      }
    }
  }

  lemma ItemIsRead(opts: Options, ctx: FileContext, item: IncludeItem, p: string, t: string)
    requires IncludesPath(opts, ctx, item, t) && t !in opts.files
    ensures Say(AnError(Unreadable(t))) in ItemScript(opts, ctx, item, p)
  {
    var raw :| raw in item.paths && Followed(opts, ctx, raw).source == Some(t);
    BothOrNeither(opts, ctx, raw);
    InItem(opts, ctx, item, p, Say(AnError(Unreadable(t))));
    assert Say(AnError(Unreadable(t))) in TargetScript(opts, ChildProject(opts, ctx, item), Followed(opts, ctx, raw));
  }

  lemma ServiceIsRead(opts: Options, ctx: FileContext, s: Service, p: string, t: string)
    requires ExtendsPath(opts, ctx, s, t) && t !in opts.files
    ensures Say(AnError(Unreadable(t))) in ServiceScript(opts, ctx, s, p)
  {
    BothOrNeither(opts, ctx, s.extendsFile.value);
    assert Say(AnError(Unreadable(t))) in TargetScript(opts, NoProject, Followed(opts, ctx, s.extendsFile.value));
  }

  /** A target that cannot be read is reported. */
  lemma TargetIsRead(opts: Options, o: Expansion, p: string, t: string)
    requires LeadsTo(opts, o, t) && t !in opts.files
    ensures Say(AnError(Unreadable(t))) in Script(opts, o, p)
  {
    InMapping(opts, o, p, Say(AnError(Unreadable(t))));
    if item :| item in o.content.yaml.includes && IncludesPath(opts, o.ctx, item, t) {
      ItemIsRead(opts, o.ctx, item, p, t);
    } else {
      var s :| s in o.content.yaml.services && ExtendsPath(opts, o.ctx, s, t);
      ServiceIsRead(opts, o.ctx, s, p, t);
    }
  }

  /** A file that is not walked, and is no empty document, is reported. */
  lemma UnwalkedIsReported(opts: Options, o: Expansion, p: string)
    requires !IsWalked(o) && !o.content.yaml.NotAMapping?
    ensures exists e :: Say(AnError(e)) in Script(opts, o, p)
  {
    if o.depth > MAX_INCLUDE_DEPTH {
      assert Say(AnError(TooDeep(p))) in Script(opts, o, p);
    } else if o.content.length > MAX_PARSE_LENGTH {
      assert Say(AnError(TooLong(p))) in Script(opts, o, p);
    } else {
      assert Say(AnError(BadYaml(p))) in Script(opts, o, p);
    }
  }

  // -------------------------------------------------------------- clean paths

  /** Mentioned where a folded definition is to be unfolded. */
  ghost predicate Look(p: string) {
    true
  }

  ghost predicate Inside(p: string) {
    forall x: string :: Look(x) && x == p ==> Clean(x)
  }

  lemma InsideMeans(p: string)
    ensures Inside(p) <==> Clean(p)
  {
    assert Look(p);
  }

  ghost predicate CleanBase(base: Option<string>) {
    base.Some? ==> Inside(base.value)
  }

  lemma CleanBaseMeans(base: Option<string>)
    ensures CleanBase(base) <==> (base.Some? ==> Clean(base.value))
  {
    if base.Some? { InsideMeans(base.value); }
  }

  ghost predicate CleanContext(ctx: FileContext) {
    CleanBase(ctx.projectBase) && CleanBase(ctx.runtimeProjectBase)
  }

  ghost predicate CleanResolved(r: Resolved) {
    (r.source.Some? <==> r.materialized.Some?) && CleanBase(r.source) && CleanBase(r.materialized)
  }

  /** A declaration that is materialised stays inside both roots. */
  ghost predicate CleanInput(i: Input) {
    i.materialized.Some? ==> i.source.Some? && Inside(i.source.value) && Inside(i.materialized.value)
  }

  lemma ResolvedInside(base: Option<string>, target: string)
    ensures CleanBase(ResolveWithinBase(base, target))
  {
    ResolvedIsClean(base, target);
    CleanBaseMeans(ResolveWithinBase(base, target));
  }

  lemma DirInside(p: string)
    requires Inside(p)
    ensures CleanBase(DirOf(p))
  {
    InsideMeans(p);
    DirOfClean(p);
    CleanBaseMeans(DirOf(p));
  }

  lemma EnvInside(base: Option<string>)
    requires CleanBase(base)
    ensures ResolveWithinBase(base, ".env").Some? && CleanBase(ResolveWithinBase(base, ".env"))
  {
    CleanBaseMeans(base);
    EnvResolves(base);
    ResolvedInside(base, ".env");
  }

  lemma FileTargetClean(ctx: FileContext, raw: string)
    ensures CleanResolved(FileTarget(ctx, raw))
  {
    ResolvedInside(ctx.projectBase, raw);
    ResolvedInside(ctx.runtimeProjectBase, raw);
  }

  lemma ChildProjectClean(opts: Options, ctx: FileContext, item: IncludeItem)
    requires item.IncludeItem? && item.paths != []
    ensures ChildProject(opts, ctx, item).Project? ==>
      CleanBase(ChildProject(opts, ctx, item).projectBase)
        && CleanBase(ChildProject(opts, ctx, item).runtimeProjectBase)
  {
    if item.projectDirectory.Some? {
      ResolvedInside(ctx.projectBase, item.projectDirectory.value);
      ResolvedInside(ctx.runtimeProjectBase, item.projectDirectory.value);
    } else {
      FileTargetClean(ctx, item.paths[0]);
      var first := Followed(opts, ctx, item.paths[0]);
      if first.source.Some? {
        DirInside(first.source.value);
        DirInside(first.materialized.value);
      }
    }
  }

  lemma ChildContextClean(source: string, materialized: string, child: Child)
    requires Inside(source) && Inside(materialized)
    requires child.Project? ==> CleanBase(child.projectBase) && CleanBase(child.runtimeProjectBase)
    ensures CleanContext(ChildContext(source, materialized, child))
  {
    DirInside(source);
    DirInside(materialized);
  }

  lemma EnvIsNotDynamic()
    ensures !IsDynamicPath(".env")
  {
    assert forall i | 0 <= i < |".env"| :: ".env"[i] != '$';
  }

  predicate IsCycle(r: Report) {
    r.AnError? && r.error.Cycle?
  }

  /** No script reports a cycle, and what it lists as materialised is clean. */
  ghost predicate IsFair(r: Report) {
    !IsCycle(r) && (r.AnInput? ==> CleanInput(r.input))
  }

  ghost predicate AllFair(log: seq<Report>) {
    forall i | 0 <= i < |log| :: IsFair(log[i])
  }

  lemma DeclarationIsFair(ctx: FileContext, d: Declaration, fromFile: string)
    ensures IsFair(DeclarationReport(ctx, d, fromFile))
  {
    if d.ProjectRelative? {
      ResolvedInside(ctx.projectBase, d.raw);
      ResolvedInside(ctx.runtimeProjectBase, d.raw);
    }
  }

  lemma DeclarationsAreFair(ctx: FileContext, ds: seq<Declaration>, fromFile: string)
    ensures AllFair(DeclarationLog(ctx, ds, fromFile))
  {
    forall i | 0 <= i < |ds| ensures IsFair(DeclarationLog(ctx, ds, fromFile)[i]) {
      DeclarationIsFair(ctx, ds[i], fromFile);
    }
  }

  lemma PathIsFair(ctx: FileContext, raw: string, kind: Kind, fromFile: string)
    ensures IsFair(FileRelativeReport(ctx, raw, kind, fromFile))
  {
    FileTargetClean(ctx, raw);
  }

  lemma PathsAreFair(ctx: FileContext, paths: seq<string>, kind: Kind, fromFile: string)
    ensures AllFair(PathLog(ctx, paths, kind, fromFile))
  {
    forall i | 0 <= i < |paths| ensures IsFair(PathLog(ctx, paths, kind, fromFile)[i]) {
      PathIsFair(ctx, paths[i], kind, fromFile);
    }
  }

  lemma ProjectIsFair(opts: Options, ctx: FileContext, item: IncludeItem, fromFile: string)
    requires item.IncludeItem? && item.paths != []
    ensures AllFair(ProjectLog(opts, ctx, item, fromFile))
  {
    var child := ChildProject(opts, ctx, item);
    if child.Project? {
      ChildProjectClean(opts, ctx, item);
      EnvInside(child.projectBase);
      EnvInside(child.runtimeProjectBase);
    }
  }

  lemma EarlyIsFair(opts: Options, ctx: FileContext, item: IncludeItem, fromFile: string)
    requires item.IncludeItem? && item.paths != []
    ensures AllFair(EarlyLog(opts, ctx, item, fromFile))
  {
    PathsAreFair(ctx, item.paths, Include, fromFile);
    ProjectIsFair(opts, ctx, item, fromFile);
    PathsAreFair(ctx, item.envFiles, IncludeEnv, fromFile);
  }

  lemma SaidIsFair(log: seq<Report>, r: Report)
    requires AllFair(log) && Say(r) in Says(log)
    ensures IsFair(r)
  {
  }

  lemma TargetIsFair(opts: Options, child: Child, t: Resolved, r: Report)
    requires Say(r) in TargetScript(opts, child, t)
    ensures IsFair(r)
  {
  }

  lemma ProjectItemIsFair(opts: Options, ctx: FileContext, item: IncludeItem, fromFile: string, r: Report)
    requires item.IncludeItem? && item.paths != [] && ChildProject(opts, ctx, item).Project?
    requires Say(r) in ItemScript(opts, ctx, item, fromFile)
    ensures IsFair(r)
  {
    var early, env := EarlyLog(opts, ctx, item, fromFile), PathLog(ctx, item.envFiles, IncludeEnv, fromFile);
    InItem(opts, ctx, item, fromFile, Say(r));
    EarlyIsFair(opts, ctx, item, fromFile);
    PathsAreFair(ctx, item.envFiles, IncludeEnv, fromFile);
    if Say(r) in Says(early) {
      SaidIsFair(early, r);
    } else if Say(r) in Says(env) {
      SaidIsFair(env, r);
    } else {
      var child := ChildProject(opts, ctx, item);
      var raw :| raw in item.paths && Say(r) in TargetScript(opts, child, Followed(opts, ctx, raw));
      TargetIsFair(opts, child, Followed(opts, ctx, raw), r);
    }
  }

  lemma ItemIsFair(opts: Options, ctx: FileContext, item: IncludeItem, fromFile: string, r: Report)
    requires Say(r) in ItemScript(opts, ctx, item, fromFile)
    ensures IsFair(r)
  {
    if item.paths != [] {
      if ChildProject(opts, ctx, item).Project? {
        ProjectItemIsFair(opts, ctx, item, fromFile, r);
      } else {
        EarlyIsFair(opts, ctx, item, fromFile);
        SaidIsFair(EarlyLog(opts, ctx, item, fromFile), r);
      }
    }
  }

  lemma ServiceIsFair(opts: Options, ctx: FileContext, service: Service, fromFile: string, r: Report)
    requires Say(r) in ServiceScript(opts, ctx, service, fromFile)
    ensures IsFair(r)
  {
    var log := DeclarationLog(ctx, service.declarations, fromFile);
    DeclarationsAreFair(ctx, service.declarations, fromFile);
    if Say(r) in Says(log) {
      SaidIsFair(log, r);
    } else {
      PathIsFair(ctx, service.extendsFile.value, Kind.Extends, fromFile);
    }
  }

  /**
    A file reports no cycle by itself, and a materialised input of any file, in any context,
    stays inside both roots.
  */
  lemma ScriptIsFair(opts: Options, o: Expansion, p: string, r: Report)
    requires Say(r) in Script(opts, o, p)
    ensures IsFair(r)
  {
    if IsWalked(o) {
      InMapping(opts, o, p, Say(r));
      if item :| item in o.content.yaml.includes && Say(r) in ItemScript(opts, o.ctx, item, p) {
        ItemIsFair(opts, o.ctx, item, p, r);
      } else if service :| service in o.content.yaml.services && Say(r) in ServiceScript(opts, o.ctx, service, p) {
        ServiceIsFair(opts, o.ctx, service, p, r);
      } else {
        DeclarationsAreFair(o.ctx, o.content.yaml.resources, p);
        SaidIsFair(DeclarationLog(o.ctx, o.content.yaml.resources, p), r);
      }
    }
  }

  /** Every context handed down to a target has clean bases. */
  lemma RoutedContextClean(opts: Options, o: Expansion, ctx: FileContext)
    requires RoutesTo(opts, o, ctx)
    ensures CleanContext(ctx)
  {
    if item :| item in o.content.yaml.includes && ItemRoutes(opts, o.ctx, item, ctx) {
      var child := ChildProject(opts, o.ctx, item);
      var raw :| raw in item.paths && WalkedIn(Followed(opts, o.ctx, raw), child, ctx);
      var r := Followed(opts, o.ctx, raw);
      FileTargetClean(o.ctx, raw);
      ChildProjectClean(opts, o.ctx, item);
      ChildContextClean(r.source.value, r.materialized.value, child);
    } else {
      var service :|
        service in o.content.yaml.services && service.extendsFile.Some?
        && WalkedIn(Followed(opts, o.ctx, service.extendsFile.value), NoProject, ctx);
      var r := Followed(opts, o.ctx, service.extendsFile.value);
      FileTargetClean(o.ctx, service.extendsFile.value);
      ChildContextClean(r.source.value, r.materialized.value, NoProject);
    }
  }
}
