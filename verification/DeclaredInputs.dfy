/**
  What the three lists of a finished walk hold, declaration by declaration.

  A path with a variable is dynamic. Any other one is listed with its kind and the
  file that declares it: as the place it leads to below the repository's project base
  and the same path below the runtime base, or under its own spelling when it is a
  host path or leaves either base. Nothing else is listed but the project's `.env`.
*/
module DeclaredInputs {
  import opened Common
  import opened ComposePaths
  import opened ComposeScript
  import opened PathMeaning
  import opened WalkPlay
  import Whitespace

  // ----------------------------------------------------------- kinds of paths

  lemma LettersAre(c: char)
    ensures IsLetter(c) <==> LowerChar(c) in "abcdefghijklmnopqrstuvwxyz"
    ensures IsSchemeChar(c) <==> IsLetter(c) || c in "0123456789+.-"
  {
  }

  /** A path holds a variable when a dollar sign stands before a brace, an underscore or a letter. */
  lemma DynamicIs(p: string)
    ensures IsDynamicPath(p) <==> exists a: string, c: char, b: string ::
      p == a + ['$', c] + b && (c == '{' || c == '_' || IsLetter(c))
  {
    if IsDynamicPath(p) {
      var i :| 0 <= i < |p| - 1 && p[i] == '$' && (p[i + 1] == '{' || p[i + 1] == '_' || IsLetter(p[i + 1]));
      assert p == p[..i] + ['$', p[i + 1]] + p[i + 2..];
    }
    if a: string, c: char, b: string :| p == a + ['$', c] + b && (c == '{' || c == '_' || IsLetter(c)) {
      assert p[|a|] == '$' && p[|a| + 1] == c;
    }
  }

  /** A host path starts with a slash of either kind, a tilde, or a drive letter and a colon. */
  lemma HostPathIs(p: string)
    ensures IsHostAbsolutePath(p) <==>
      || "/" <= p || "~" <= p || "\\" <= p
      || exists drive: char, rest: string :: IsLetter(drive) && p == [drive, ':'] + rest
  {
    if |p| > 1 && IsLetter(p[0]) && p[1] == ':' { assert p == [p[0], ':'] + p[2..]; }
  }

  // ------------------------------------------------------------ one declaration

  /** The path leads to `source` in the repository and to `materialized` at runtime. */
  predicate IsInside(ctx: FileContext, raw: string, source: string, materialized: string) {
    && !IsHostAbsolutePath(raw)
    && ResolveWithinBase(ctx.projectBase, raw) == Some(source)
    && ResolveWithinBase(ctx.runtimeProjectBase, raw) == Some(materialized)
  }

  predicate Escapes(ctx: FileContext, raw: string) {
    ResolveWithinBase(ctx.projectBase, raw).None? || ResolveWithinBase(ctx.runtimeProjectBase, raw).None?
  }

  /** A path below the project. */
  ghost predicate PathGives(ctx: FileContext, raw: string, kind: Kind, p: string, r: Report) {
    if IsDynamicPath(raw) then r == ADynamic(raw)
    else
      || ((IsHostAbsolutePath(raw) || Escapes(ctx, raw)) && r == AnInput(Input(Some(raw), None, kind, p)))
      || exists source, materialized | IsInside(ctx, raw, source, materialized) ::
        r == AnInput(Input(Some(source), Some(materialized), kind, p))
  }

  /** An include, extends or include env path, which may also be a URL. */
  ghost predicate ReferenceGives(ctx: FileContext, raw: string, kind: Kind, p: string, r: Report) {
    if !IsDynamicPath(raw) && IsUrl(raw) && !IsHostAbsolutePath(raw) then
      r == AnInput(Input(Some(Whitespace.Trim(raw)), None, kind, p))
    else PathGives(ctx, raw, kind, p, r)
  }

  ghost predicate DeclarationGives(ctx: FileContext, d: Declaration, p: string, r: Report) {
    match d
    case ProjectRelative(raw, kind) => PathGives(ctx, raw, kind, p, r)
    case Unmanaged(None, kind) => r == AnInput(Input(None, None, kind, p))
    case Unmanaged(Some(text), kind) =>
      r == if IsDynamicPath(text) then ADynamic(text) else AnInput(Input(Some(text), None, kind, p))
    case EnvFileWithoutPath => r == AnError(NoEnvFilePath(p))
  }

  /** The path is read as a repository file. */
  predicate IsFollowed(opts: Options, ctx: FileContext, raw: string, source: string, materialized: string) {
    && IsInside(ctx, raw, source, materialized)
    && !IsUrl(raw) && !(opts.reportUnenumerable && IsDynamicPath(raw))
  }

  /** The included project lies here: in its project directory, or where its main file is. */
  ghost predicate ProjectAt(opts: Options, ctx: FileContext, item: IncludeItem, base: Option<string>,
      runtime: Option<string>)
    requires item.IncludeItem? && item.paths != []
  {
    if item.projectDirectory.Some? then
      var dir := item.projectDirectory.value;
      && !(opts.reportUnenumerable && IsDynamicPath(dir)) && !Escapes(ctx, dir)
      && base == ResolveWithinBase(ctx.projectBase, dir) && runtime == ResolveWithinBase(ctx.runtimeProjectBase, dir)
    else
      exists source, materialized | IsFollowed(opts, ctx, item.paths[0], source, materialized) ::
        base == DirOf(source) && runtime == DirOf(materialized)
  }

  ghost predicate HasProject(opts: Options, ctx: FileContext, item: IncludeItem)
    requires item.IncludeItem? && item.paths != []
  {
    exists base, runtime :: ProjectAt(opts, ctx, item, base, runtime)
  }

  /** The included project's `.env`, unless it is the includer's own. */
  ghost predicate EnvGives(opts: Options, ctx: FileContext, item: IncludeItem, p: string, r: Report)
    requires item.IncludeItem? && item.paths != []
  {
    item.interpolation
    && exists base, runtime | ProjectAt(opts, ctx, item, base, runtime) ::
      (base != ctx.projectBase || runtime != ctx.runtimeProjectBase)
        && r == AnInput(
          Input(ResolveWithinBase(base, ".env"), ResolveWithinBase(runtime, ".env"), InterpolationEnv, p))
  }

  /** A project directory that cannot be used: dynamic, or outside a base. */
  ghost predicate DirectoryGives(opts: Options, ctx: FileContext, item: IncludeItem, p: string, r: Report)
    requires item.IncludeItem? && item.paths != []
  {
    item.projectDirectory.Some?
    && var dir := item.projectDirectory.value;
      if opts.reportUnenumerable then
        if IsDynamicPath(dir) then r == ADynamic(dir)
        else
          && Escapes(ctx, dir) && r == AnInput(Input(Some(dir), None, Include, p))
          && exists source, materialized :: IsFollowed(opts, ctx, item.paths[0], source, materialized)
      else Escapes(ctx, dir) && r == AnError(EscapingProject(dir, p))
  }

  /** A followed path that cannot be read. */
  ghost predicate UnreadableGives(opts: Options, ctx: FileContext, raw: string, r: Report) {
    exists source, materialized | IsFollowed(opts, ctx, raw, source, materialized) ::
      source !in opts.files && r == AnError(Unreadable(source))
  }

  ghost predicate ItemGives(opts: Options, ctx: FileContext, item: IncludeItem, p: string, r: Report) {
    item.IncludeItem?
    && if item.paths == [] then r == AnError(NoIncludePath(p))
      else
        || (exists raw | raw in item.paths :: ReferenceGives(ctx, raw, Include, p, r))
        || EnvGives(opts, ctx, item, p, r)
        || DirectoryGives(opts, ctx, item, p, r)
        || (HasProject(opts, ctx, item) && exists raw | raw in item.paths :: UnreadableGives(opts, ctx, raw, r))
        || ((HasProject(opts, ctx, item) || opts.reportUnenumerable)
            && exists raw | raw in item.envFiles :: ReferenceGives(ctx, raw, IncludeEnv, p, r))
  }

  ghost predicate ServiceGives(opts: Options, ctx: FileContext, s: Service, p: string, r: Report) {
    || (exists d | d in s.declarations :: DeclarationGives(ctx, d, p, r))
    || (s.extendsFile.Some?
        && (ReferenceGives(ctx, s.extendsFile.value, Kind.Extends, p, r)
            || UnreadableGives(opts, ctx, s.extendsFile.value, r)))
  }

  /** What the file puts on the lists. */
  ghost predicate FileGives(opts: Options, o: Expansion, p: string, r: Report) {
    if o.depth > MAX_INCLUDE_DEPTH then r == AnError(TooDeep(p))
    else if o.content.length > MAX_PARSE_LENGTH then r == AnError(TooLong(p))
    else match o.content.yaml
      case Unparseable => r == AnError(BadYaml(p))
      case NotAMapping => false
      case Mapping(includes, services, resources) =>
        || (exists item | item in includes :: ItemGives(opts, o.ctx, item, p, r))
        || (exists s | s in services :: ServiceGives(opts, o.ctx, s, p, r))
        || (exists d | d in resources :: DeclarationGives(o.ctx, d, p, r))
  }

  // ------------------------------------------------------- what a script reports

  lemma PathReportIs(ctx: FileContext, raw: string, kind: Kind, p: string, source: Option<string>,
      materialized: Option<string>)
    requires source == ResolveWithinBase(ctx.projectBase, raw)
    requires materialized == ResolveWithinBase(ctx.runtimeProjectBase, raw)
    ensures ProjectRelativeReport(ctx, raw, kind, p) ==
      if IsDynamicPath(raw) then ADynamic(raw)
      else if IsHostAbsolutePath(raw) || source.None? || materialized.None? then
        AnInput(Input(Some(raw), None, kind, p))
      else AnInput(Input(source, materialized, kind, p))
  {
  }

  lemma PathSays(ctx: FileContext, raw: string, kind: Kind, p: string, r: Report)
    ensures r == ProjectRelativeReport(ctx, raw, kind, p) <==> PathGives(ctx, raw, kind, p, r)
  {
    var source, materialized := ResolveWithinBase(ctx.projectBase, raw), ResolveWithinBase(ctx.runtimeProjectBase, raw);
    PathReportIs(ctx, raw, kind, p, source, materialized);
    if source.Some? && materialized.Some? && !IsHostAbsolutePath(raw) {
      assert IsInside(ctx, raw, source.value, materialized.value);
    }
  }

  lemma ReferenceSays(ctx: FileContext, raw: string, kind: Kind, p: string, r: Report)
    ensures r == FileRelativeReport(ctx, raw, kind, p) <==> ReferenceGives(ctx, raw, kind, p, r)
  {
    PathSays(ctx, raw, kind, p, r);
  }

  lemma DeclarationSays(ctx: FileContext, d: Declaration, p: string, r: Report)
    ensures r == DeclarationReport(ctx, d, p) <==> DeclarationGives(ctx, d, p, r)
  {
    if d.ProjectRelative? { PathSays(ctx, d.raw, d.kind, p, r); }
  }

  lemma InMapped<A>(parts: seq<A>, report: A -> Report, r: Report)
    ensures Say(r) in Says(Mapped(parts, report)) <==> exists a | a in parts :: r == report(a)
  {
    var log := Mapped(parts, report);
    if a :| a in parts && r == report(a) {
      var i :| 0 <= i < |parts| && parts[i] == a;
      assert Says(log)[i] == Say(r);
    }
    if Say(r) in Says(log) {
      var i :| 0 <= i < |log| && Says(log)[i] == Say(r);
      assert parts[i] in parts;
    }
  }

  lemma DeclarationsSay(ctx: FileContext, ds: seq<Declaration>, p: string, r: Report)
    ensures Say(r) in Says(DeclarationLog(ctx, ds, p)) <==> exists d | d in ds :: DeclarationGives(ctx, d, p, r)
  {
    InMapped(ds, DeclarationReports(ctx, p), r);
    forall d ensures r == DeclarationReports(ctx, p)(d) <==> DeclarationGives(ctx, d, p, r) {
      DeclarationSays(ctx, d, p, r);
    }
  }

  lemma PathsSay(ctx: FileContext, paths: seq<string>, kind: Kind, p: string, r: Report)
    ensures Say(r) in Says(PathLog(ctx, paths, kind, p)) <==>
      exists raw | raw in paths :: ReferenceGives(ctx, raw, kind, p, r)
  {
    InMapped(paths, PathReports(ctx, kind, p), r);
    forall raw ensures r == PathReports(ctx, kind, p)(raw) <==> ReferenceGives(ctx, raw, kind, p, r) {
      ReferenceSays(ctx, raw, kind, p, r);
    }
  }

  lemma FollowedIs(opts: Options, ctx: FileContext, raw: string, source: string, materialized: string)
    ensures IsFollowed(opts, ctx, raw, source, materialized) <==>
      Followed(opts, ctx, raw) == Resolved(Some(source), Some(materialized))
  {
  }

  /** The bases an included project is walked with are the ones it lies at. */
  lemma ProjectIs(opts: Options, ctx: FileContext, item: IncludeItem, base: Option<string>, runtime: Option<string>)
    requires item.IncludeItem? && item.paths != []
    ensures ProjectAt(opts, ctx, item, base, runtime) <==> ChildProject(opts, ctx, item) == Project(base, runtime)
  {
    if item.projectDirectory.None? {
      var first := Followed(opts, ctx, item.paths[0]);
      BothOrNeither(opts, ctx, item.paths[0]);
      forall source, materialized
        ensures IsFollowed(opts, ctx, item.paths[0], source, materialized) <==>
          first == Resolved(Some(source), Some(materialized))
      {
        FollowedIs(opts, ctx, item.paths[0], source, materialized);
      }
      if first.source.Some? {
        assert IsFollowed(opts, ctx, item.paths[0], first.source.value, first.materialized.value);
      }
    }
  }

  lemma ProjectExists(opts: Options, ctx: FileContext, item: IncludeItem)
    requires item.IncludeItem? && item.paths != []
    ensures HasProject(opts, ctx, item) <==> ChildProject(opts, ctx, item).Project?
  {
    var child := ChildProject(opts, ctx, item);
    if child.Project? { ProjectIs(opts, ctx, item, child.projectBase, child.runtimeProjectBase); }
    if base, runtime :| ProjectAt(opts, ctx, item, base, runtime) { ProjectIs(opts, ctx, item, base, runtime); }
  }

  lemma TargetSays(opts: Options, child: Child, to: Resolved, r: Report)
    requires to.source.Some? <==> to.materialized.Some?
    ensures Say(r) in TargetScript(opts, child, to) <==>
      to.source.Some? && to.source.value !in opts.files && r == AnError(Unreadable(to.source.value))
  {
  }

  /** Where the path is followed to, if it is. */
  lemma FollowedTo(opts: Options, ctx: FileContext, raw: string) returns (to: Resolved)
    ensures to == Followed(opts, ctx, raw) && (to.source.Some? <==> to.materialized.Some?)
    ensures forall source, materialized ::
      IsFollowed(opts, ctx, raw, source, materialized) <==> to == Resolved(Some(source), Some(materialized))
  {
    to := Followed(opts, ctx, raw);
    BothOrNeither(opts, ctx, raw);
    forall source, materialized
      ensures IsFollowed(opts, ctx, raw, source, materialized) <==> to == Resolved(Some(source), Some(materialized))
    {
      FollowedIs(opts, ctx, raw, source, materialized);
    }
  }

  lemma UnreadableSays(opts: Options, ctx: FileContext, raw: string, child: Child, r: Report)
    ensures Say(r) in TargetScript(opts, child, Followed(opts, ctx, raw)) <==> UnreadableGives(opts, ctx, raw, r)
  {
    var to := FollowedTo(opts, ctx, raw);
    TargetSays(opts, child, to, r);
    if to.source.Some? { assert IsFollowed(opts, ctx, raw, to.source.value, to.materialized.value); }
  }

  lemma EnvLog(opts: Options, ctx: FileContext, item: IncludeItem, p: string, child: Child, env: Input, r: Report)
    requires item.IncludeItem? && item.paths != [] && child == ChildProject(opts, ctx, item) && child.Project?
    requires env == EnvOf(child, p)
    ensures r in ProjectLog(opts, ctx, item, p) <==>
      && item.interpolation && r == AnInput(env)
      && (child.projectBase != ctx.projectBase || child.runtimeProjectBase != ctx.runtimeProjectBase)
  {
  }

  lemma EnvSays(opts: Options, ctx: FileContext, item: IncludeItem, p: string, r: Report)
    requires item.IncludeItem? && item.paths != [] && ChildProject(opts, ctx, item).Project?
    ensures r in ProjectLog(opts, ctx, item, p) <==> EnvGives(opts, ctx, item, p, r)
  {
    var child := ChildProject(opts, ctx, item);
    EnvLog(opts, ctx, item, p, child, EnvOf(child, p), r);
    ProjectIs(opts, ctx, item, child.projectBase, child.runtimeProjectBase);
    if base, runtime :|
      ProjectAt(opts, ctx, item, base, runtime) && (base != child.projectBase || runtime != child.runtimeProjectBase)
    {
      ProjectIs(opts, ctx, item, base, runtime);
    }
  }

  lemma StrayLog(opts: Options, ctx: FileContext, item: IncludeItem, p: string, dir: string, to: Resolved, r: Report)
    requires item.IncludeItem? && item.paths != [] && ChildProject(opts, ctx, item).NoProject?
    requires item.projectDirectory == Some(dir) && to == Followed(opts, ctx, item.paths[0])
    ensures r in ProjectLog(opts, ctx, item, p) <==>
      if !opts.reportUnenumerable then r == AnError(EscapingProject(dir, p))
      else if IsDynamicPath(dir) then r == ADynamic(dir)
      else to.source.Some? && r == AnInput(Input(Some(dir), None, Include, p))
  {
  }

  lemma StrayEscapes(opts: Options, ctx: FileContext, item: IncludeItem, dir: string)
    requires item.IncludeItem? && item.paths != [] && ChildProject(opts, ctx, item).NoProject?
    requires item.projectDirectory == Some(dir) && !(opts.reportUnenumerable && IsDynamicPath(dir))
    ensures Escapes(ctx, dir)
  {
  }

  lemma DirectorySays(opts: Options, ctx: FileContext, item: IncludeItem, p: string, r: Report)
    requires item.IncludeItem? && item.paths != [] && ChildProject(opts, ctx, item).NoProject?
    ensures r in ProjectLog(opts, ctx, item, p) <==> DirectoryGives(opts, ctx, item, p, r)
  {
    if item.projectDirectory.Some? {
      var dir := item.projectDirectory.value;
      var to := FollowedTo(opts, ctx, item.paths[0]);
      StrayLog(opts, ctx, item, p, dir, to, r);
      if !(opts.reportUnenumerable && IsDynamicPath(dir)) { StrayEscapes(opts, ctx, item, dir); }
      if to.source.Some? { assert IsFollowed(opts, ctx, item.paths[0], to.source.value, to.materialized.value); }
    }
  }

  lemma ProjectSays(opts: Options, ctx: FileContext, item: IncludeItem, p: string, r: Report)
    requires item.IncludeItem? && item.paths != []
    ensures r in ProjectLog(opts, ctx, item, p) <==>
      EnvGives(opts, ctx, item, p, r) || DirectoryGives(opts, ctx, item, p, r)
  {
    ProjectExists(opts, ctx, item);
    if ChildProject(opts, ctx, item).Project? {
      EnvSays(opts, ctx, item, p, r);
    } else {
      DirectorySays(opts, ctx, item, p, r);
    }
  }

  lemma InSays(log: seq<Report>, r: Report)
    ensures Say(r) in Says(log) <==> r in log
  {
    if r in log {
      var i :| 0 <= i < |log| && log[i] == r;
      assert Says(log)[i] == Say(r);
    }
  }

  lemma EarlySays(opts: Options, ctx: FileContext, item: IncludeItem, p: string, r: Report)
    requires item.IncludeItem? && item.paths != []
    ensures Say(r) in Says(EarlyLog(opts, ctx, item, p)) <==>
      || (exists raw | raw in item.paths :: ReferenceGives(ctx, raw, Include, p, r))
      || EnvGives(opts, ctx, item, p, r) || DirectoryGives(opts, ctx, item, p, r)
      || (!HasProject(opts, ctx, item) && opts.reportUnenumerable
          && exists raw | raw in item.envFiles :: ReferenceGives(ctx, raw, IncludeEnv, p, r))
  {
    InSays(EarlyLog(opts, ctx, item, p), r);
    InSays(PathLog(ctx, item.paths, Include, p), r);
    InSays(PathLog(ctx, item.envFiles, IncludeEnv, p), r);
    PathsSay(ctx, item.paths, Include, p, r);
    PathsSay(ctx, item.envFiles, IncludeEnv, p, r);
    ProjectSays(opts, ctx, item, p, r);
    ProjectExists(opts, ctx, item);
  }

  lemma ItemSays(opts: Options, ctx: FileContext, item: IncludeItem, p: string, r: Report)
    ensures Say(r) in ItemScript(opts, ctx, item, p) <==> ItemGives(opts, ctx, item, p, r)
  {
    if item.IncludeItem? && item.paths != [] {
      var child := ChildProject(opts, ctx, item);
      EarlySays(opts, ctx, item, p, r);
      ProjectExists(opts, ctx, item);
      if child.Project? {
        InItem(opts, ctx, item, p, Say(r));
        PathsSay(ctx, item.envFiles, IncludeEnv, p, r);
        forall raw
          ensures Say(r) in TargetScript(opts, child, Followed(opts, ctx, raw)) <==> UnreadableGives(opts, ctx, raw, r)
        {
          UnreadableSays(opts, ctx, raw, child, r);
        }
      }
    }
  }

  lemma ExtendsSays(opts: Options, ctx: FileContext, raw: string, p: string, r: Report)
    ensures Say(r) in ExtendsScript(opts, ctx, raw, p) <==>
      ReferenceGives(ctx, raw, Kind.Extends, p, r) || UnreadableGives(opts, ctx, raw, r)
  {
    var said := FileRelativeReport(ctx, raw, Kind.Extends, p);
    InSays([said], r);
    ReferenceSays(ctx, raw, Kind.Extends, p, r);
    UnreadableSays(opts, ctx, raw, NoProject, r);
  }

  lemma ServiceSays(opts: Options, ctx: FileContext, s: Service, p: string, r: Report)
    ensures Say(r) in ServiceScript(opts, ctx, s, p) <==> ServiceGives(opts, ctx, s, p, r)
  {
    DeclarationsSay(ctx, s.declarations, p, r);
    if s.extendsFile.Some? { ExtendsSays(opts, ctx, s.extendsFile.value, p, r); }
  }

  /** A file's script reports exactly what its declarations give. */
  lemma FileSays(opts: Options, o: Expansion, p: string, r: Report)
    ensures Say(r) in Script(opts, o, p) <==> FileGives(opts, o, p, r)
  {
    if IsWalked(o) {
      InMapping(opts, o, p, Say(r));
      forall item ensures Say(r) in ItemScript(opts, o.ctx, item, p) <==> ItemGives(opts, o.ctx, item, p, r) {
        ItemSays(opts, o.ctx, item, p, r);
      }
      forall s ensures Say(r) in ServiceScript(opts, o.ctx, s, p) <==> ServiceGives(opts, o.ctx, s, p, r) {
        ServiceSays(opts, o.ctx, s, p, r);
      }
      DeclarationsSay(o.ctx, o.content.yaml.resources, p, r);
    }
  }

  // -------------------------------------------------------- what the walk reports

  /** Some expanded file puts it on the lists. */
  ghost predicate IsGiven(opts: Options, s: Snapshot, r: Report) {
    exists p | p in s.expanded :: FileGives(opts, s.expanded[p], p, r)
  }

  /** Cycles apart, a finished walk reports exactly what the expanded files' declarations give. */
  lemma ReportsAreGiven(opts: Options, tops: Tops, s: Snapshot, r: Report)
    requires Finished(opts, tops, s)
    ensures IsGiven(opts, s, r) ==> !IsCycle(r)
    ensures !IsCycle(r) ==> (r in s.reports <==> IsGiven(opts, s, r))
  {
    forall p | p in s.expanded
      ensures Allows(opts, s.expanded[p], p, r) <==> FileGives(opts, s.expanded[p], p, r)
      ensures FileGives(opts, s.expanded[p], p, r) ==> !IsCycle(r)
    {
      AllowsMeans(opts, s.expanded[p], p, r);
      FileSays(opts, s.expanded[p], p, r);
      if FileGives(opts, s.expanded[p], p, r) { ScriptIsFair(opts, s.expanded[p], p, r); }
    }
  }

  // ------------------------------------------------------- contexts of the files

  /** What a file is walked in when another one reaches it by this path. */
  predicate IsChildContext(ctx: FileContext, source: string, materialized: string, base: Option<string>,
      runtime: Option<string>)
  {
    && ctx.repoPath == source && ctx.runtimePath == materialized
    && ctx.projectBase == (if base.Some? then base else DirOf(source))
    && ctx.runtimeProjectBase == (if runtime.Some? then runtime else DirOf(materialized))
  }

  ghost predicate ItemHands(opts: Options, parent: FileContext, item: IncludeItem, ctx: FileContext) {
    && item.IncludeItem? && item.paths != []
    && exists raw, base, runtime | raw in item.paths && ProjectAt(opts, parent, item, base, runtime) ::
      && IsFollowed(opts, parent, raw, ctx.repoPath, ctx.runtimePath)
      && IsChildContext(ctx, ctx.repoPath, ctx.runtimePath, base, runtime)
  }

  ghost predicate ServiceHands(opts: Options, parent: FileContext, s: Service, ctx: FileContext) {
    && s.extendsFile.Some?
    && IsFollowed(opts, parent, s.extendsFile.value, ctx.repoPath, ctx.runtimePath)
    && IsChildContext(ctx, ctx.repoPath, ctx.runtimePath, None, None)
  }

  /** The file hands this context down: by an include to its project, by an extends to the target's own directory. */
  ghost predicate HandsDown(opts: Options, o: Expansion, ctx: FileContext) {
    && IsWalked(o)
    && ((exists item | item in o.content.yaml.includes :: ItemHands(opts, o.ctx, item, ctx))
        || (exists s | s in o.content.yaml.services :: ServiceHands(opts, o.ctx, s, ctx)))
  }

  lemma WalkedInIs(opts: Options, parent: FileContext, raw: string, child: Child, ctx: FileContext)
    ensures WalkedIn(Followed(opts, parent, raw), child, ctx) <==>
      && IsFollowed(opts, parent, raw, ctx.repoPath, ctx.runtimePath)
      && IsChildContext(ctx, ctx.repoPath, ctx.runtimePath,
        if child.Project? then child.projectBase else None, if child.Project? then child.runtimeProjectBase else None)
  {
    var to := FollowedTo(opts, parent, raw);
  }

  lemma ItemRoutesIs(opts: Options, parent: FileContext, item: IncludeItem, ctx: FileContext)
    ensures ItemRoutes(opts, parent, item, ctx) <==> ItemHands(opts, parent, item, ctx)
  {
    if item.IncludeItem? && item.paths != [] {
      var child := ChildProject(opts, parent, item);
      forall raw { WalkedInIs(opts, parent, raw, child, ctx); }
      if child.Project? { ProjectIs(opts, parent, item, child.projectBase, child.runtimeProjectBase); }
      forall base, runtime { ProjectIs(opts, parent, item, base, runtime); }
    }
  }

  /** A target is walked exactly in the contexts its file hands down. */
  lemma RoutesAreHandedDown(opts: Options, o: Expansion, ctx: FileContext)
    ensures RoutesTo(opts, o, ctx) <==> HandsDown(opts, o, ctx)
  {
    if IsWalked(o) {
      forall item { ItemRoutesIs(opts, o.ctx, item, ctx); }
      forall raw { WalkedInIs(opts, o.ctx, raw, NoProject, ctx); }
    }
  }

  /** Every expanded file is an ordered one, or stands where a file with an edge to it put it. */
  lemma ExpandedFrom(opts: Options, tops: Tops, s: Snapshot, p: string)
    requires Finished(opts, tops, s) && p in s.expanded
    ensures NormalizeRepoPath(s.expanded[p].ctx.repoPath) == p
    ensures (p, s.expanded[p]) in tops || exists q | q in s.expanded && (q, p) in s.trace.edges ::
      && HandsDown(opts, s.expanded[q], s.expanded[p].ctx)
      && s.expanded[p].depth == s.expanded[q].depth + 1
      && IsReadAs(opts, s.expanded[p].ctx, s.expanded[p].content)
  {
    var o := s.expanded[p];
    KeyMeans(o.ctx.repoPath, p);
    if (p, o) !in tops {
      var q :| q in s.expanded && (q, p) in s.trace.edges && ChildOf(opts, q, s.expanded[q], o);
      VisitsMeans(opts, s.expanded[q], q, o.ctx, o.content);
      ScriptVisits(opts, s.expanded[q], q, o.ctx, o.content);
      RoutesAreHandedDown(opts, s.expanded[q], o.ctx);
    }
  }

  // -------------------------------------------------- plain paths of a first file

  /** The file lies in `d`, and `d` is where the project runs. */
  predicate IsRootedAt(ctx: FileContext, d: string) {
    IsBase(d) && ctx.projectBase == Some(d) && ctx.runtimeProjectBase == None
  }

  lemma PlainIsInside(ctx: FileContext, d: string, raw: string)
    requires IsRootedAt(ctx, d) && IsBase(raw) && !IsHostAbsolutePath(raw)
    ensures IsInside(ctx, raw, d + "/" + raw, raw) && !Escapes(ctx, raw)
  {
    PlainBelowBase(d, raw);
    PlainAlone(raw);
  }

  /** A plain path of such a file is listed below `d`, and as it stands at runtime. */
  lemma PlainPathGives(ctx: FileContext, d: string, raw: string, kind: Kind, p: string, r: Report)
    requires IsRootedAt(ctx, d) && IsBase(raw) && !IsHostAbsolutePath(raw) && !IsDynamicPath(raw)
    ensures PathGives(ctx, raw, kind, p, r) <==> r == AnInput(Input(Some(d + "/" + raw), Some(raw), kind, p))
  {
    PlainIsInside(ctx, d, raw);
  }

  /** One that climbs leaves the runtime base, wherever it leads in the repository. */
  lemma ClimbingPathGives(ctx: FileContext, d: string, t: string, kind: Kind, p: string, r: Report)
    requires IsRootedAt(ctx, d) && !IsDynamicPath("../" + t)
    ensures PathGives(ctx, "../" + t, kind, p, r) <==> r == AnInput(Input(Some("../" + t), None, kind, p))
  {
    var raw := "../" + t;
    ResolveIs(None, raw);
    ClimbSegments(t);
    GoJoin(Some([]), [".."], Split(Slashes(t)));
    GoOne(Some([]), "..");
    GoNowhere(Split(Slashes(t)));
    assert raw[0] == '.' && raw != "";
  }

  lemma SplitFile(dir: string, file: string)
    requires IsBase(dir) && IsName(file) && NoSlash(file) && '\\' !in file
    ensures IsBase(dir + "/" + file)
  {
    NameIsBase(file);
    BaseBelowBase(dir, file);
  }

  /** An entry whose main file is `dir/file`, without a project directory. */
  predicate MainFileIs(item: IncludeItem, dir: string, file: string) {
    && item.IncludeItem? && item.projectDirectory.None? && item.paths != [] && item.paths[0] == dir + "/" + file
    && IsBase(dir) && IsName(file) && NoSlash(file) && '\\' !in file
    && !IsHostAbsolutePath(item.paths[0]) && !IsUrl(item.paths[0]) && !IsDynamicPath(item.paths[0])
  }

  lemma Deeper(d: string, dir: string, file: string)
    ensures d + "/" + (dir + "/" + file) == d + "/" + dir + "/" + file
  {
  }

  /** Following `dir/file` from `d`. */
  lemma PlainFollowed(opts: Options, ctx: FileContext, d: string, raw: string, dir: string, file: string)
    requires IsRootedAt(ctx, d) && IsBase(dir) && IsName(file) && NoSlash(file) && '\\' !in file
    requires raw == dir + "/" + file && !IsHostAbsolutePath(raw) && !IsUrl(raw) && !IsDynamicPath(raw)
    ensures IsFollowed(opts, ctx, raw, d + "/" + raw, raw)
    ensures DirOf(d + "/" + raw) == Some(d + "/" + dir) && DirOf(raw) == Some(dir)
  {
    SplitFile(dir, file);
    PlainIsInside(ctx, d, raw);
    Deeper(d, dir, file);
    DirOfFile(d + "/" + dir, file);
    DirOfFile(dir, file);
  }

  /** The project of `dir/file`, included by a file in `d`, lies in `d/dir`, and in `dir` at runtime. */
  lemma PlainProjectAt(opts: Options, ctx: FileContext, d: string, item: IncludeItem, dir: string, file: string)
    requires IsRootedAt(ctx, d) && MainFileIs(item, dir, file)
    ensures ProjectAt(opts, ctx, item, Some(d + "/" + dir), Some(dir))
  {
    PlainFollowed(opts, ctx, d, item.paths[0], dir, file);
  }

  lemma EnvIsBase()
    ensures IsBase(".env")
  {
    assert forall i | 0 <= i < 4 :: ".env"[i] != '/' && ".env"[i] != '\\';
    NameIsBase(".env");
  }

  lemma EnvSpelled(base: string)
    ensures base + "/" + ".env" == base + "/.env"
  {
    assert "/" + ".env" == "/.env";
    assert base + "/" + ".env" == base + ("/" + ".env");
  }

  lemma EnvBelow(base: string)
    requires IsBase(base)
    ensures ResolveWithinBase(Some(base), ".env") == Some(base + "/.env")
  {
    EnvIsBase();
    PlainBelowBase(base, ".env");
    EnvSpelled(base);
  }

  /** Its `.env` is looked for there. */
  lemma PlainEnvGives(opts: Options, ctx: FileContext, d: string, item: IncludeItem, dir: string, file: string,
      p: string)
    requires IsRootedAt(ctx, d) && MainFileIs(item, dir, file) && item.interpolation
    ensures EnvGives(opts, ctx, item, p,
      AnInput(Input(Some(d + "/" + dir + "/.env"), Some(dir + "/.env"), InterpolationEnv, p)))
  {
    PlainProjectAt(opts, ctx, d, item, dir, file);
    BaseBelowBase(d, dir);
    EnvBelow(d + "/" + dir);
    EnvBelow(dir);
  }
}
