/**
  The walk over Compose files and their `include` and `extends.file` targets, as the
  code runs it: sets of visited and open files, and three lists that are appended to.
  It computes exactly the play of the files' scripts.
*/
module ComposeWalk {
  import opened Common
  import opened ComposePaths
  import opened ComposeScript
  import opened WalkTrace
  import opened WalkPlay
  import Whitespace

  // ------------------------------------------------------------ the three lists

  function Inputs(log: seq<Report>): seq<Input> {
    if log == [] then []
    else
      var last := log[|log| - 1];
      Inputs(log[..|log| - 1]) + if last.AnInput? then [last.input] else []
  }

  function Dynamics(log: seq<Report>): seq<string> {
    if log == [] then []
    else
      var last := log[|log| - 1];
      Dynamics(log[..|log| - 1]) + if last.ADynamic? then [last.path] else []
  }

  function Errors(log: seq<Report>): seq<WalkError> {
    if log == [] then []
    else
      var last := log[|log| - 1];
      Errors(log[..|log| - 1]) + if last.AnError? then [last.error] else []
  }

  lemma ListsNext(log: seq<Report>, r: Report)
    ensures Inputs(log + [r]) == Inputs(log) + if r.AnInput? then [r.input] else []
    ensures Dynamics(log + [r]) == Dynamics(log) + if r.ADynamic? then [r.path] else []
    ensures Errors(log + [r]) == Errors(log) + if r.AnError? then [r.error] else []
  {
    assert (log + [r])[..|log|] == log;
  }

  lemma {:induction false} InLists(log: seq<Report>)
    ensures forall i :: i in Inputs(log) <==> AnInput(i) in log
    ensures forall path :: path in Dynamics(log) <==> ADynamic(path) in log
    ensures forall e :: e in Errors(log) <==> AnError(e) in log
  {
    if log != [] {
      var init, last := log[..|log| - 1], log[|log| - 1];
      InLists(init);
      assert log == init + [last];
    }
  }

  lemma LoggedTwice(s: State, a: seq<Report>, b: seq<Report>)
    ensures Logged(Logged(s, a), b) == Logged(s, a + b)
  {
    assert s.log + a + b == s.log + (a + b);
  }

  lemma LoggedNone(s: State)
    ensures Logged(s, []) == s
  {
    assert s.log + [] == s.log;
  }

  lemma DeclarationsNext(ctx: FileContext, ds: seq<Declaration>, i: nat, fromFile: string)
    requires i < |ds|
    ensures DeclarationLog(ctx, ds[..i + 1], fromFile)
         == DeclarationLog(ctx, ds[..i], fromFile) + [DeclarationReport(ctx, ds[i], fromFile)]
  {
    MappedNext(ds, DeclarationReports(ctx, fromFile), i);
  }

  lemma PathsNext(ctx: FileContext, paths: seq<string>, i: nat, kind: Kind, fromFile: string)
    requires i < |paths|
    ensures PathLog(ctx, paths[..i + 1], kind, fromFile)
         == PathLog(ctx, paths[..i], kind, fromFile) + [FileRelativeReport(ctx, paths[i], kind, fromFile)]
  {
    MappedNext(paths, PathReports(ctx, kind, fromFile), i);
  }

  lemma FollowedNext(opts: Options, ctx: FileContext, paths: seq<string>, i: nat)
    requires i < |paths|
    ensures FollowedAll(opts, ctx, paths[..i + 1]) == FollowedAll(opts, ctx, paths[..i])
      + [Followed(opts, ctx, paths[i])]
  {
    assert paths[..i + 1][..i] == paths[..i];
  }

  // --------------------------------------------------- the parts of a script, played

  lemma ItemPlays(opts: Options, ctx: FileContext, item: IncludeItem, fromFile: string, depth: nat, s: State,
      t: State, u: State)
    requires depth <= MAX_INCLUDE_DEPTH && item.IncludeItem? && item.paths != []
    requires ChildProject(opts, ctx, item).Project?
    requires t == Logged(s, EarlyLog(opts, ctx, item, fromFile))
    requires Plays(opts, t,
      Chain(FollowedAll(opts, ctx, item.paths), TargetsScript(opts, ChildProject(opts, ctx, item))), depth, u)
    ensures Plays(opts, s, ItemScript(opts, ctx, item, fromFile), depth,
      Logged(u, PathLog(ctx, item.envFiles, IncludeEnv, fromFile)))
  {
    var early, env := EarlyLog(opts, ctx, item, fromFile), PathLog(ctx, item.envFiles, IncludeEnv, fromFile);
    var targets := Chain(FollowedAll(opts, ctx, item.paths), TargetsScript(opts, ChildProject(opts, ctx, item)));
    PlaysSays(opts, s, early, depth);
    PlaysSays(opts, u, env, depth);
    PlaysJoin(opts, t, targets, depth, u, Says(env), Logged(u, env));
    PlaysJoin(opts, s, Says(early), depth, t, targets + Says(env), Logged(u, env));
  }

  lemma EarlyPlays(opts: Options, ctx: FileContext, item: IncludeItem, fromFile: string, depth: nat, s: State)
    requires depth <= MAX_INCLUDE_DEPTH && item.IncludeItem? && item.paths != []
    requires ChildProject(opts, ctx, item).NoProject?
    ensures Plays(opts, s, ItemScript(opts, ctx, item, fromFile), depth, Logged(s, EarlyLog(opts, ctx, item, fromFile)))
  {
    PlaysSays(opts, s, EarlyLog(opts, ctx, item, fromFile), depth);
    assert ItemScript(opts, ctx, item, fromFile) == Says(EarlyLog(opts, ctx, item, fromFile));
  }

  lemma ServicePlays(opts: Options, ctx: FileContext, service: Service, fromFile: string, depth: nat, s: State,
      u: State)
    requires depth <= MAX_INCLUDE_DEPTH
    requires var t := Logged(s, DeclarationLog(ctx, service.declarations, fromFile));
      if service.extendsFile.Some? then
        Plays(opts, t, ExtendsScript(opts, ctx, service.extendsFile.value, fromFile), depth, u) else u == t
    ensures Plays(opts, s, ServiceScript(opts, ctx, service, fromFile), depth, u)
  {
    var log := DeclarationLog(ctx, service.declarations, fromFile);
    PlaysSays(opts, s, log, depth);
    if service.extendsFile.Some? {
      PlaysJoin(opts, s, Says(log), depth, Logged(s, log),
        ExtendsScript(opts, ctx, service.extendsFile.value, fromFile), u);
    } else {
      assert ServiceScript(opts, ctx, service, fromFile) == Says(log);
    }
  }

  lemma ExtendsPlays(opts: Options, ctx: FileContext, raw: string, fromFile: string, depth: nat, s: State, u: State)
    requires depth <= MAX_INCLUDE_DEPTH
    requires PlaysTarget(opts, Logged(s, [FileRelativeReport(ctx, raw, Kind.Extends, fromFile)]), NoProject,
      Followed(opts, ctx, raw), depth, u)
    ensures Plays(opts, s, ExtendsScript(opts, ctx, raw, fromFile), depth, u)
  {
    var log := [FileRelativeReport(ctx, raw, Kind.Extends, fromFile)];
    PlaysSays(opts, s, log, depth);
    PlaysTargetMeans(opts, Logged(s, log), NoProject, Followed(opts, ctx, raw), depth, u);
    PlaysJoin(opts, s, Says(log), depth, Logged(s, log), TargetScript(opts, NoProject, Followed(opts, ctx, raw)), u);
  }

  lemma MappingPlays(opts: Options, o: Expansion, fromFile: string, s: State, t: State, u: State)
    requires IsWalked(o)
    requires Plays(opts, s, Chain(o.content.yaml.includes, ItemsScript(opts, o.ctx, fromFile)), o.depth, t)
    requires Plays(opts, t, Chain(o.content.yaml.services, ServicesScript(opts, o.ctx, fromFile)), o.depth, u)
    ensures Plays(opts, s, Script(opts, o, fromFile), o.depth,
      Logged(u, DeclarationLog(o.ctx, o.content.yaml.resources, fromFile)))
  {
    var includes := Chain(o.content.yaml.includes, ItemsScript(opts, o.ctx, fromFile));
    var services := Chain(o.content.yaml.services, ServicesScript(opts, o.ctx, fromFile));
    var log := DeclarationLog(o.ctx, o.content.yaml.resources, fromFile);
    PlaysJoin(opts, s, includes, o.depth, t, services, u);
    PlaysSays(opts, u, log, o.depth);
    PlaysJoin(opts, s, includes + services, o.depth, u, Says(log), Logged(u, log));
  }

  lemma ChainPlays<A>(opts: Options, parts: seq<A>, script: A -> seq<Event>, i: nat, depth: nat, s: State, t: State,
      u: State)
    requires i < |parts| && Plays(opts, s, Chain(parts[..i], script), depth, t)
    requires Plays(opts, t, script(parts[i]), depth, u)
    ensures Plays(opts, s, Chain(parts[..i + 1], script), depth, u)
  {
    ChainNext(parts, script, i);
    PlaysJoin(opts, s, Chain(parts[..i], script), depth, t, script(parts[i]), u);
  }

  lemma SayPlays(opts: Options, r: Report, depth: nat, s: State)
    requires depth <= MAX_INCLUDE_DEPTH + 1
    ensures Plays(opts, s, [Say(r)], depth, Logged(s, [r]))
  {
    PlaysSays(opts, s, [r], depth);
    assert Says([r]) == [Say(r)];
  }

  lemma VisitPlays(opts: Options, ctx: FileContext, content: Content, depth: nat, s: State, u: State)
    requires depth <= MAX_INCLUDE_DEPTH && Expands(opts, s, Expansion(ctx, content, depth + 1), u)
    ensures Plays(opts, s, [Visit(ctx, content)], depth, u)
  {
    PlaysNone(opts, s, depth, s);
    PlaysVisit(opts, s, ctx, content, depth, u);
    PlaysNext(opts, s, [], depth, s, Visit(ctx, content), u);
    assert [] + [Visit(ctx, content)] == [Visit(ctx, content)];
  }

  /** The script of one target, played; unfolded only where `Touch` is mentioned. */
  ghost predicate PlaysTarget(opts: Options, s: State, child: Child, to: Resolved, depth: nat, u: State) {
    forall x: State :: Touch(x) && x == s ==> Plays(opts, x, TargetScript(opts, child, to), depth, u)
  }

  lemma PlaysTargetMeans(opts: Options, s: State, child: Child, to: Resolved, depth: nat, u: State)
    ensures PlaysTarget(opts, s, child, to, depth, u) <==> Plays(opts, s, TargetScript(opts, child, to), depth, u)
  {
    assert Touch(s);
  }

  lemma NoTargetPlays(opts: Options, child: Child, to: Resolved, depth: nat, s: State)
    requires depth <= MAX_INCLUDE_DEPTH && (to.source.None? || to.materialized.None?)
    ensures PlaysTarget(opts, s, child, to, depth, s)
  {
    PlaysNone(opts, s, depth, s);
    PlaysTargetMeans(opts, s, child, to, depth, s);
  }

  lemma UnreadablePlays(opts: Options, child: Child, to: Resolved, depth: nat, s: State)
    requires depth <= MAX_INCLUDE_DEPTH && to.source.Some? && to.materialized.Some? && to.source.value !in opts.files
    ensures PlaysTarget(opts, s, child, to, depth, Logged(s, [AnError(Unreadable(to.source.value))]))
  {
    SayPlays(opts, AnError(Unreadable(to.source.value)), depth, s);
    PlaysTargetMeans(opts, s, child, to, depth, Logged(s, [AnError(Unreadable(to.source.value))]));
  }

  /** The context and content a target is expanded with, folded likewise. */
  ghost predicate IsTarget(opts: Options, child: Child, to: Resolved, o: Expansion) {
    && to.source.Some? && to.materialized.Some? && o.depth <= MAX_INCLUDE_DEPTH + 1
    && forall x: string :: Look(x) && x == to.source.value ==>
      x in opts.files && o.content == opts.files[x] && o.ctx == ChildContext(x, to.materialized.value, child)
  }

  method TargetOf(opts: Options, child: Child, to: Resolved, depth: nat) returns (o: Expansion)
    requires to.source.Some? && to.materialized.Some? && to.source.value in opts.files && depth <= MAX_INCLUDE_DEPTH
    ensures IsTarget(opts, child, to, o) && o.depth == depth + 1
  {
    var source := to.source.value;
    o := Expansion(ChildContext(source, to.materialized.value, child), opts.files[source], depth + 1);
  }

  lemma TargetScriptIs(opts: Options, child: Child, to: Resolved, o: Expansion) returns (script: seq<Event>)
    requires IsTarget(opts, child, to, o)
    ensures script == [Visit(o.ctx, o.content)] && script == TargetScript(opts, child, to)
  {
    assert Look(to.source.value);
    script := TargetScript(opts, child, to);
  }

  lemma ScriptPlaysTarget(opts: Options, s: State, child: Child, to: Resolved, script: seq<Event>, depth: nat, u: State)
    requires script == TargetScript(opts, child, to) && Plays(opts, s, script, depth, u)
    ensures PlaysTarget(opts, s, child, to, depth, u)
  {
  }

  lemma TargetPlays(opts: Options, child: Child, to: Resolved, o: Expansion, depth: nat, s: State, u: State)
    requires IsTarget(opts, child, to, o) && o.depth == depth + 1 && Expands(opts, s, o, u)
    ensures PlaysTarget(opts, s, child, to, depth, u)
  {
    var script := TargetScriptIs(opts, child, to, o);
    VisitPlays(opts, o.ctx, o.content, depth, s, u);
    ScriptPlaysTarget(opts, s, child, to, script, depth, u);
  }

  lemma ChildInDirectory(opts: Options, ctx: FileContext, item: IncludeItem, dir: string, base: Option<string>,
      runtime: Option<string>)
    requires item.IncludeItem? && item.paths != [] && item.projectDirectory == Some(dir)
    requires base == ResolveWithinBase(ctx.projectBase, dir)
    requires runtime == ResolveWithinBase(ctx.runtimeProjectBase, dir)
    ensures ChildProject(opts, ctx, item) ==
      if (opts.reportUnenumerable && IsDynamicPath(dir)) || base.None? || runtime.None? then NoProject
      else Project(base, runtime)
  {
  }

  lemma StrayProjectLog(opts: Options, ctx: FileContext, item: IncludeItem, dir: string, first: Resolved, p: string)
    requires item.IncludeItem? && item.paths != [] && item.projectDirectory == Some(dir)
    requires first == Followed(opts, ctx, item.paths[0]) && ChildProject(opts, ctx, item).NoProject?
    ensures ProjectLog(opts, ctx, item, p) ==
      if !opts.reportUnenumerable then [AnError(EscapingProject(dir, p))]
      else if IsDynamicPath(dir) then [ADynamic(dir)]
      else if first.source.Some? then [AnInput(Input(Some(dir), None, Include, p))]
      else []
  {
  }

  class Walk {
    const opts: Options
    var inputs: seq<Input>
    var dynamic: seq<string>
    var errors: seq<WalkError>
    var visited: set<string>
    var stack: set<string>
    ghost var run: State

    /** The fields are what the play so far determines. */
    ghost predicate Valid()
      reads this
    {
      && inputs == Inputs(run.log) && dynamic == Dynamics(run.log) && errors == Errors(run.log)
      && stack == Elements(run.trace.path) && visited == Elements(run.trace.order) && IsDistinct(run.trace.path)
    }

    constructor (opts: Options)
      ensures Valid() && this.opts == opts && run == NOTHING_YET
    {
      this.opts := opts;
      inputs, dynamic, errors := [], [], [];
      visited, stack := {}, {};
      run := NOTHING_YET;
    }

    // ------------------------------------------------------ one entry of a list

    method EmitInput(raw: Option<string>, source: Option<string>, materialized: Option<string>, kind: Kind,
        fromFile: string)
      requires Valid()
      modifies this`inputs, this`dynamic, this`run
      ensures Valid() && run == Logged(old(run), [EmitReport(raw, Input(source, materialized, kind, fromFile))])
    {
      if raw.Some? && IsDynamicPath(raw.value) {
        EmitDynamic(raw.value);
        return;
      }
      ListsNext(run.log, AnInput(Input(source, materialized, kind, fromFile)));
      inputs := inputs + [Input(source, materialized, kind, fromFile)];
      run := Logged(run, [AnInput(Input(source, materialized, kind, fromFile))]);
    }

    method EmitDynamic(path: string)
      requires Valid()
      modifies this`dynamic, this`run
      ensures Valid() && run == Logged(old(run), [ADynamic(path)])
    {
      ListsNext(run.log, ADynamic(path));
      dynamic := dynamic + [path];
      run := Logged(run, [ADynamic(path)]);
    }

    method EmitError(e: WalkError)
      requires Valid()
      modifies this`errors, this`run
      ensures Valid() && run == Logged(old(run), [AnError(e)])
    {
      ListsNext(run.log, AnError(e));
      errors := errors + [e];
      run := Logged(run, [AnError(e)]);
    }

    method EmitProjectRelative(raw: string, kind: Kind, fromFile: string, ctx: FileContext)
      requires Valid()
      modifies this`inputs, this`dynamic, this`run
      ensures Valid() && run == Logged(old(run), [ProjectRelativeReport(ctx, raw, kind, fromFile)])
    {
      if IsHostAbsolutePath(raw) {
        EmitInput(Some(raw), Some(raw), None, kind, fromFile);
        return;
      }
      var source := ResolveWithinBase(ctx.projectBase, raw);
      var materialized := ResolveWithinBase(ctx.runtimeProjectBase, raw);
      if source.None? || materialized.None? {
        EmitInput(Some(raw), Some(raw), None, kind, fromFile);
        return;
      }
      EmitInput(Some(raw), source, materialized, kind, fromFile);
    }

    method EmitFileRelative(raw: string, kind: Kind, fromFile: string, ctx: FileContext) returns (r: Resolved)
      requires Valid()
      modifies this`inputs, this`dynamic, this`run
      ensures r == FileTarget(ctx, raw)
      ensures Valid() && run == Logged(old(run), [FileRelativeReport(ctx, raw, kind, fromFile)])
    {
      if IsHostAbsolutePath(raw) {
        EmitInput(Some(raw), Some(raw), None, kind, fromFile);
        return NOT_FOLLOWED;
      }
      if IsUrl(raw) {
        EmitInput(Some(raw), Some(Whitespace.Trim(raw)), None, kind, fromFile);
        return NOT_FOLLOWED;
      }
      var source := ResolveWithinBase(ctx.projectBase, raw);
      var materialized := ResolveWithinBase(ctx.runtimeProjectBase, raw);
      if source.None? || materialized.None? {
        EmitInput(Some(raw), Some(raw), None, kind, fromFile);
        return NOT_FOLLOWED;
      }
      EmitInput(Some(raw), source, materialized, kind, fromFile);
      r := Resolved(source, materialized);
    }

    /** A service's or the resources' declarations; a malformed `env_file` entry is an error. */
    method EmitDeclarations(ds: seq<Declaration>, fromFile: string, ctx: FileContext)
      requires Valid()
      modifies this`inputs, this`dynamic, this`errors, this`run
      ensures Valid() && run == Logged(old(run), DeclarationLog(ctx, ds, fromFile))
    {
      LoggedNone(run);
      for i := 0 to |ds|
        invariant Valid() && run == Logged(old(run), DeclarationLog(ctx, ds[..i], fromFile))
      {
        DeclarationsNext(ctx, ds, i, fromFile);
        LoggedTwice(old(run), DeclarationLog(ctx, ds[..i], fromFile), [DeclarationReport(ctx, ds[i], fromFile)]);
        match ds[i] {
          case ProjectRelative(raw, kind) => EmitProjectRelative(raw, kind, fromFile, ctx);
          case Unmanaged(text, kind) => EmitInput(text, text, None, kind, fromFile);
          case EnvFileWithoutPath => EmitError(NoEnvFilePath(fromFile));
        }
      }
      assert ds[..|ds|] == ds;
    }

    method EmitIncludeEnvFiles(item: IncludeItem, fromFile: string, ctx: FileContext)
      requires Valid() && item.IncludeItem?
      modifies this`inputs, this`dynamic, this`run
      ensures Valid() && run == Logged(old(run), PathLog(ctx, item.envFiles, IncludeEnv, fromFile))
    {
      var paths := item.envFiles;
      LoggedNone(run);
      for i := 0 to |paths|
        invariant Valid() && run == Logged(old(run), PathLog(ctx, paths[..i], IncludeEnv, fromFile))
      {
        PathsNext(ctx, paths, i, IncludeEnv, fromFile);
        LoggedTwice(old(run), PathLog(ctx, paths[..i], IncludeEnv, fromFile),
          [FileRelativeReport(ctx, paths[i], IncludeEnv, fromFile)]);
        var _ := EmitFileRelative(paths[i], IncludeEnv, fromFile, ctx);
      }
      assert paths[..|paths|] == paths;
    }

    method ResolveIncludePaths(item: IncludeItem, ctx: FileContext, fromFile: string)
      returns (resolvedPaths: seq<Resolved>)
      requires Valid() && item.IncludeItem?
      modifies this`inputs, this`dynamic, this`run
      ensures resolvedPaths == FollowedAll(opts, ctx, item.paths)
      ensures Valid() && run == Logged(old(run), PathLog(ctx, item.paths, Include, fromFile))
    {
      resolvedPaths := [];
      var paths := item.paths;
      LoggedNone(run);
      for i := 0 to |paths|
        invariant resolvedPaths == FollowedAll(opts, ctx, paths[..i])
        invariant Valid() && run == Logged(old(run), PathLog(ctx, paths[..i], Include, fromFile))
      {
        PathsNext(ctx, paths, i, Include, fromFile);
        LoggedTwice(old(run), PathLog(ctx, paths[..i], Include, fromFile),
          [FileRelativeReport(ctx, paths[i], Include, fromFile)]);
        FollowedNext(opts, ctx, paths, i);
        var resolved := EmitFileRelative(paths[i], Include, fromFile, ctx);
        resolvedPaths :=
          resolvedPaths + [if opts.reportUnenumerable && IsDynamicPath(paths[i]) then NOT_FOLLOWED else resolved];
      }
      assert paths[..|paths|] == paths;
    }

    /** The included project's bases and its `.env`; where there is none, what cannot be enumerated is reported. */
    method DeriveProject(item: IncludeItem, first: Resolved, ctx: FileContext, fromFile: string) returns (child: Child)
      requires Valid() && item.IncludeItem? && item.paths != [] && first == Followed(opts, ctx, item.paths[0])
      modifies this`inputs, this`dynamic, this`errors, this`run
      ensures child == ChildProject(opts, ctx, item)
      ensures Valid() && run == Logged(old(run), ProjectLog(opts, ctx, item, fromFile))
    {
      if item.projectDirectory.Some? {
        child := DeriveFromDirectory(item, item.projectDirectory.value, first, ctx, fromFile);
      } else if first.source.Some? && first.materialized.Some? {
        child := Project(DirOf(first.source.value), DirOf(first.materialized.value));
        EmitProjectEnv(item, child, ctx, fromFile);
      } else {
        LoggedNone(run);
        child := NoProject;
      }
    }

    method DeriveFromDirectory(item: IncludeItem, projectDir: string, first: Resolved, ctx: FileContext,
        fromFile: string) returns (child: Child)
      requires Valid() && item.IncludeItem? && item.paths != [] && item.projectDirectory == Some(projectDir)
      requires first == Followed(opts, ctx, item.paths[0])
      modifies this`inputs, this`dynamic, this`errors, this`run
      ensures child == ChildProject(opts, ctx, item)
      ensures Valid() && run == Logged(old(run), ProjectLog(opts, ctx, item, fromFile))
    {
      LoggedNone(run);
      var childProjectBase := ResolveWithinBase(ctx.projectBase, projectDir);
      var childRuntimeProjectBase := ResolveWithinBase(ctx.runtimeProjectBase, projectDir);
      ChildInDirectory(opts, ctx, item, projectDir, childProjectBase, childRuntimeProjectBase);
      if opts.reportUnenumerable && IsDynamicPath(projectDir) {
        EmitDynamic(projectDir);
        StrayProjectLog(opts, ctx, item, projectDir, first, fromFile);
        return NoProject;
      }
      if childProjectBase.None? || childRuntimeProjectBase.None? {
        StrayProjectLog(opts, ctx, item, projectDir, first, fromFile);
        if !opts.reportUnenumerable {
          EmitError(EscapingProject(projectDir, fromFile));
        } else if first.source.Some? {
          EmitInput(Some(projectDir), Some(projectDir), None, Include, fromFile);
        }
        return NoProject;
      }
      child := Project(childProjectBase, childRuntimeProjectBase);
      EmitProjectEnv(item, child, ctx, fromFile);
    }

    /** The included project's default `.env`, unless the parent already declares the same one. */
    method EmitProjectEnv(item: IncludeItem, child: Child, ctx: FileContext, fromFile: string)
      requires Valid() && item.IncludeItem? && item.paths != [] && child == ChildProject(opts, ctx, item)
      requires child.Project?
      modifies this`inputs, this`dynamic, this`run
      ensures Valid() && run == Logged(old(run), ProjectLog(opts, ctx, item, fromFile))
    {
      LoggedNone(run);
      if item.interpolation
        && !(child.projectBase == ctx.projectBase && child.runtimeProjectBase == ctx.runtimeProjectBase) {
        ChildProjectClean(opts, ctx, item);
        EnvInside(child.projectBase);
        EnvInside(child.runtimeProjectBase);
        var source := ResolveWithinBase(child.projectBase, ".env");
        var materialized := ResolveWithinBase(child.runtimeProjectBase, ".env");
        EnvIsNotDynamic();
        EmitInput(Some(".env"), Some(source.value), Some(materialized.value), InterpolationEnv, fromFile);
      }
    }

    /** Everything an include entry reports before its targets are read. */
    method BeginInclude(item: IncludeItem, ctx: FileContext, fromFile: string)
      returns (resolvedPaths: seq<Resolved>, child: Child)
      requires Valid() && item.IncludeItem? && item.paths != []
      modifies this`inputs, this`dynamic, this`errors, this`run
      ensures resolvedPaths == FollowedAll(opts, ctx, item.paths) && child == ChildProject(opts, ctx, item)
      ensures Valid() && run == Logged(old(run), EarlyLog(opts, ctx, item, fromFile))
    {
      ghost var paths, project := PathLog(ctx, item.paths, Include, fromFile), ProjectLog(opts, ctx, item, fromFile);
      ghost var env := PathLog(ctx, item.envFiles, IncludeEnv, fromFile);
      resolvedPaths := ResolveIncludePaths(item, ctx, fromFile);
      FollowedAllAt(opts, ctx, item.paths, 0);
      child := DeriveProject(item, resolvedPaths[0], ctx, fromFile);
      LoggedTwice(old(run), paths, project);
      if child.NoProject? && opts.reportUnenumerable {
        EmitIncludeEnvFiles(item, fromFile, ctx);
        LoggedTwice(old(run), paths + project, env);
      } else {
        assert EarlyLog(opts, ctx, item, fromFile) == paths + project;
      }
    }

    // -------------------------------------------------------------- the recursion

    /** Expand one file, or recognise it as a cycle or as already expanded. */
    method ParseFile(ctx: FileContext, content: Content, depth: nat)
      requires Valid() && depth <= MAX_INCLUDE_DEPTH + 1
      modifies this
      ensures Valid() && run.trace.path == old(run.trace.path)
      ensures Expands(opts, old(run), Expansion(ctx, content, depth), run)
      decreases MAX_INCLUDE_DEPTH + 2 - depth, 6
    {
      var normalized := NormalizeRepoPath(ctx.repoPath);
      KeyMeans(ctx.repoPath, normalized);
      ParseKeyed(normalized, ctx, content, depth);
    }

    method ParseKeyed(normalized: string, ctx: FileContext, content: Content, depth: nat)
      requires Valid() && depth <= MAX_INCLUDE_DEPTH + 1 && KeyIs(ctx.repoPath, normalized)
      modifies this
      ensures Valid() && run.trace.path == old(run.trace.path)
      ensures Expands(opts, old(run), Expansion(ctx, content, depth), run)
      decreases MAX_INCLUDE_DEPTH + 2 - depth, 5
    {
      ghost var s, o := run, Expansion(ctx, content, depth);
      var walkIt := Enter(normalized, o);
      if !walkIt { return; }
      ParseFileInner(ctx, content, depth, normalized);
      ghost var played := run;
      Leave(normalized, s);
      PlayedExpands(opts, s, normalized, o, played);
    }

    /** A file on the stack is a cycle, a completed one is shared; any other is pushed. */
    method Enter(normalized: string, ghost o: Expansion) returns (walkIt: bool)
      requires Valid() && o.depth <= MAX_INCLUDE_DEPTH + 1 && KeyIs(o.ctx.repoPath, normalized)
      modifies this`stack, this`errors, this`run
      ensures Valid() && (walkIt <==> normalized !in old(stack) && normalized !in old(visited))
      ensures if walkIt then run == Began(old(run), normalized, o) && normalized !in old(run.trace.path)
        && normalized !in old(run.trace.order)
        else run.trace.path == old(run.trace.path) && Expands(opts, old(run), o, run)
    {
      ghost var s := run;
      PathElements(run.trace, normalized);
      if normalized in stack {
        ghost var closed := Close(run.trace, normalized);
        EmitError(Cycle(normalized));
        run := run.(trace := closed);
        ExpandsClosed(opts, s, normalized, o, run);
        return false;
      }
      if normalized in visited {
        run := run.(trace := Revisit(run.trace, normalized));
        ExpandsShared(opts, s, normalized, o, run);
        return false;
      }
      stack := stack + {normalized};
      run := Began(run, normalized, o);
      walkIt := true;
    }

    method Leave(normalized: string, ghost s: State)
      requires Valid() && run.trace.path == s.trace.path + [normalized]
      modifies this`stack, this`visited, this`run
      ensures Valid() && run == old(run).(trace := Pop(old(run).trace)) && run.trace.path == s.trace.path
    {
      PathElements(run.trace, normalized);
      stack := stack - {normalized};
      visited := visited + {normalized};
      run := run.(trace := Pop(run.trace));
      assert run.trace.path == s.trace.path;
    }

    method ParseFileInner(ctx: FileContext, content: Content, depth: nat, normalized: string)
      requires Valid() && depth <= MAX_INCLUDE_DEPTH + 1
      modifies this
      ensures Valid() && run.trace.path == old(run.trace.path)
      ensures Plays(opts, old(run), Script(opts, Expansion(ctx, content, depth), normalized), depth, run)
      decreases MAX_INCLUDE_DEPTH + 2 - depth, 4
    {
      ghost var s := run;
      if depth > MAX_INCLUDE_DEPTH {
        EmitError(TooDeep(normalized));
        SayPlays(opts, AnError(TooDeep(normalized)), depth, s);
        return;
      }
      if content.length > MAX_PARSE_LENGTH {
        EmitError(TooLong(normalized));
        SayPlays(opts, AnError(TooLong(normalized)), depth, s);
        return;
      }
      match content.yaml {
        case Unparseable =>
          EmitError(BadYaml(normalized));
          SayPlays(opts, AnError(BadYaml(normalized)), depth, s);
        case NotAMapping => PlaysNone(opts, s, depth, run);
        case Mapping(_, _, _) => WalkMapping(ctx, content, depth, normalized);
      }
    }

    method WalkMapping(ctx: FileContext, content: Content, depth: nat, normalized: string)
      requires Valid() && IsWalked(Expansion(ctx, content, depth))
      modifies this
      ensures Valid() && run.trace.path == old(run.trace.path)
      ensures Plays(opts, old(run), Script(opts, Expansion(ctx, content, depth), normalized), depth, run)
      decreases MAX_INCLUDE_DEPTH + 2 - depth, 3
    {
      ghost var s := run;
      WalkIncludes(content.yaml.includes, ctx, depth, normalized);
      ghost var t := run;
      WalkServices(content.yaml.services, ctx, depth, normalized);
      MappingPlays(opts, Expansion(ctx, content, depth), normalized, s, t, run);
      EmitDeclarations(content.yaml.resources, normalized, ctx);
    }

    method WalkIncludes(items: seq<IncludeItem>, ctx: FileContext, depth: nat, fromFile: string)
      requires Valid() && depth <= MAX_INCLUDE_DEPTH
      modifies this
      ensures Valid() && run.trace.path == old(run.trace.path)
      ensures Plays(opts, old(run), Chain(items, ItemsScript(opts, ctx, fromFile)), depth, run)
      decreases MAX_INCLUDE_DEPTH + 2 - depth, 2
    {
      ghost var script := ItemsScript(opts, ctx, fromFile);
      PlaysNone(opts, run, depth, run);
      for i := 0 to |items|
        invariant Valid() && run.trace.path == old(run.trace.path)
        invariant Plays(opts, old(run), Chain(items[..i], script), depth, run)
      {
        ghost var before := run;
        WalkInclude(items[i], ctx, depth, fromFile);
        ChainPlays(opts, items, script, i, depth, old(run), before, run);
      }
      assert items[..|items|] == items;
    }

    method WalkInclude(item: IncludeItem, ctx: FileContext, depth: nat, fromFile: string)
      requires Valid() && depth <= MAX_INCLUDE_DEPTH
      modifies this
      ensures Valid() && run.trace.path == old(run.trace.path)
      ensures Plays(opts, old(run), ItemScript(opts, ctx, item, fromFile), depth, run)
      decreases MAX_INCLUDE_DEPTH + 2 - depth, 1, 2
    {
      ghost var s := run;
      if !item.IncludeItem? {
        PlaysNone(opts, s, depth, s);
        return;
      }
      if item.paths == [] {
        EmitError(NoIncludePath(fromFile));
        SayPlays(opts, AnError(NoIncludePath(fromFile)), depth, s);
        return;
      }
      ProcessIncludeEntry(item, ctx, depth, fromFile);
    }

    /** One include entry: resolve its paths, derive the included project, declare its `.env`, recurse. */
    method ProcessIncludeEntry(item: IncludeItem, ctx: FileContext, depth: nat, fromFile: string)
      requires Valid() && depth <= MAX_INCLUDE_DEPTH && item.IncludeItem? && item.paths != []
      modifies this
      ensures Valid() && run.trace.path == old(run.trace.path)
      ensures Plays(opts, old(run), ItemScript(opts, ctx, item, fromFile), depth, run)
      decreases MAX_INCLUDE_DEPTH + 2 - depth, 1, 1
    {
      ghost var s := run;
      var resolvedPaths, child := BeginInclude(item, ctx, fromFile);
      ghost var t := run;
      if child.NoProject? {
        EarlyPlays(opts, ctx, item, fromFile, depth, s);
        return;
      }
      FollowIncludes(resolvedPaths, child, depth);
      ItemPlays(opts, ctx, item, fromFile, depth, s, t, run);
      EmitIncludeEnvFiles(item, fromFile, ctx);
    }

    method FollowIncludes(resolvedPaths: seq<Resolved>, child: Child, depth: nat)
      requires Valid() && depth <= MAX_INCLUDE_DEPTH
      modifies this
      ensures Valid() && run.trace.path == old(run.trace.path)
      ensures Plays(opts, old(run), Chain(resolvedPaths, TargetsScript(opts, child)), depth, run)
      decreases MAX_INCLUDE_DEPTH + 2 - depth, 1, 0
    {
      ghost var script := TargetsScript(opts, child);
      PlaysNone(opts, run, depth, run);
      for i := 0 to |resolvedPaths|
        invariant Valid() && run.trace.path == old(run.trace.path)
        invariant Plays(opts, old(run), Chain(resolvedPaths[..i], script), depth, run)
      {
        ghost var before := run;
        ReadAndRecurse(resolvedPaths[i], child, depth);
        PlaysTargetMeans(opts, before, child, resolvedPaths[i], depth, run);
        ChainPlays(opts, resolvedPaths, script, i, depth, old(run), before, run);
      }
      assert resolvedPaths[..|resolvedPaths|] == resolvedPaths;
    }

    /** Read a resolved target and recurse when it is a repository file. */
    method ReadAndRecurse(resolved: Resolved, child: Child, depth: nat)
      requires Valid() && depth <= MAX_INCLUDE_DEPTH
      modifies this
      ensures Valid() && run.trace.path == old(run.trace.path)
      ensures PlaysTarget(opts, old(run), child, resolved, depth, run)
      decreases MAX_INCLUDE_DEPTH + 2 - depth, 0
    {
      ghost var s := run;
      if resolved.source.None? || resolved.materialized.None? {
        NoTargetPlays(opts, child, resolved, depth, s);
        return;
      }
      var source := resolved.source.value;
      if source !in opts.files {
        EmitError(Unreadable(source));
        UnreadablePlays(opts, child, resolved, depth, s);
        return;
      }
      var target := TargetOf(opts, child, resolved, depth);
      ParseFile(target.ctx, target.content, depth + 1);
      TargetPlays(opts, child, resolved, target, depth, s, run);
    }

    method WalkServices(services: seq<Service>, ctx: FileContext, depth: nat, fromFile: string)
      requires Valid() && depth <= MAX_INCLUDE_DEPTH
      modifies this
      ensures Valid() && run.trace.path == old(run.trace.path)
      ensures Plays(opts, old(run), Chain(services, ServicesScript(opts, ctx, fromFile)), depth, run)
      decreases MAX_INCLUDE_DEPTH + 2 - depth, 2
    {
      ghost var script := ServicesScript(opts, ctx, fromFile);
      PlaysNone(opts, run, depth, run);
      for i := 0 to |services|
        invariant Valid() && run.trace.path == old(run.trace.path)
        invariant Plays(opts, old(run), Chain(services[..i], script), depth, run)
      {
        ghost var before := run;
        WalkService(services[i], ctx, depth, fromFile);
        ChainPlays(opts, services, script, i, depth, old(run), before, run);
      }
      assert services[..|services|] == services;
    }

    method WalkService(service: Service, ctx: FileContext, depth: nat, fromFile: string)
      requires Valid() && depth <= MAX_INCLUDE_DEPTH
      modifies this
      ensures Valid() && run.trace.path == old(run.trace.path)
      ensures Plays(opts, old(run), ServiceScript(opts, ctx, service, fromFile), depth, run)
      decreases MAX_INCLUDE_DEPTH + 2 - depth, 1, 1
    {
      ghost var s := run;
      EmitDeclarations(service.declarations, fromFile, ctx);
      if service.extendsFile.Some? { FollowExtends(service.extendsFile.value, ctx, depth, fromFile); }
      ServicePlays(opts, ctx, service, fromFile, depth, s, run);
    }

    method FollowExtends(target: string, ctx: FileContext, depth: nat, fromFile: string)
      requires Valid() && depth <= MAX_INCLUDE_DEPTH
      modifies this
      ensures Valid() && run.trace.path == old(run.trace.path)
      ensures Plays(opts, old(run), ExtendsScript(opts, ctx, target, fromFile), depth, run)
      decreases MAX_INCLUDE_DEPTH + 2 - depth, 1, 0
    {
      ghost var s := run;
      var resolved := EmitFileRelative(target, Kind.Extends, fromFile, ctx);
      var followed := if opts.reportUnenumerable && IsDynamicPath(target) then NOT_FOLLOWED else resolved;
      ReadAndRecurse(followed, NoProject, depth);
      ExtendsPlays(opts, ctx, target, fromFile, depth, s, run);
    }
  }

  // --------------------------------------------------------------- the entry point

  /** The top project's base: the project root, or the first file's directory. */
  function TopBase(ordered: seq<(string, Content)>, opts: Options): Option<string> {
    if opts.projectRoot.Some? then opts.projectRoot else if ordered == [] then None else DirOf(ordered[0].0)
  }

  /** The merged files share the top project's bases; the primary lands at the stack root. */
  function TopExpansion(ordered: seq<(string, Content)>, opts: Options, i: nat): Expansion
    requires i < |ordered|
  {
    Expansion(
      FileContext(ordered[i].0, if i == 0 then "" else ordered[i].0, TopBase(ordered, opts), opts.projectRoot),
      ordered[i].1, 0)
  }

  function Tops(ordered: seq<(string, Content)>, opts: Options): (tops: seq<Expansion>)
    ensures |tops| == |ordered| && forall i | 0 <= i < |ordered| :: tops[i] == TopExpansion(ordered, opts, i)
  {
    seq(|ordered|, i requires 0 <= i < |ordered| => TopExpansion(ordered, opts, i))
  }

  /** The play of the ordered files' scripts. */
  ghost function Walked(ordered: seq<(string, Content)>, opts: Options): State {
    ExpandAll(opts, NOTHING_YET, Tops(ordered, opts))
  }

  method WalkOrdered(walk: Walk, ordered: seq<(string, Content)>)
    requires walk.Valid() && walk.run == NOTHING_YET
    modifies walk
    ensures walk.Valid() && ExpandsAll(walk.opts, NOTHING_YET, Tops(ordered, walk.opts), walk.run)
  {
    var base: Option<string> := walk.opts.projectRoot;
    if base.None? && ordered != [] {
      base := DirOf(ordered[0].0);
    }
    ghost var tops := Tops(ordered, walk.opts);
    ExpandsNone(walk.opts, NOTHING_YET, walk.run);
    for i := 0 to |ordered|
      invariant walk.Valid() && ExpandsAll(walk.opts, NOTHING_YET, tops[..i], walk.run)
    {
      ghost var before := walk.run;
      var ctx := FileContext(ordered[i].0, if i == 0 then "" else ordered[i].0, base, walk.opts.projectRoot);
      walk.ParseFile(ctx, ordered[i].1, 0);
      ExpandsNext(walk.opts, NOTHING_YET, tops[..i], before, tops[i], walk.run);
      assert tops[..i + 1] == tops[..i] + [tops[i]];
    }
    assert tops[..|ordered|] == tops;
  }

  lemma WalkedIs(ordered: seq<(string, Content)>, opts: Options, u: State)
    requires ExpandsAll(opts, NOTHING_YET, Tops(ordered, opts), u)
    ensures u == Walked(ordered, opts)
  {
    assert Touch(NOTHING_YET);
  }

  lemma TopsAtDepthZero(ordered: seq<(string, Content)>, opts: Options)
    ensures forall o | o in Tops(ordered, opts) :: o.depth == 0
  {
  }

  /** What the walk of these files reports, expands and follows. */
  lemma WalkFinishes(ordered: seq<(string, Content)>, opts: Options)
    ensures Finished(opts, TopSet(Tops(ordered, opts)), Seen(Walked(ordered, opts)))
  {
    TopsAtDepthZero(ordered, opts);
    PlayFinishes(opts, Tops(ordered, opts));
  }
}
