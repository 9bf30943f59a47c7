/**
  The lists spelled out for ordered files: without a project root the first file `d/f`
  is read below `d` and lands at the stack root; with one, every ordered file that no
  other file leads to is read below the root.
*/
module FirstFile {
  import opened Common
  import opened ComposePaths
  import opened ComposeScript
  import opened PathMeaning
  import opened WalkPlay
  import opened DeclaredInputs
  import opened ComposeWalk
  import opened ParseInputs
  import Graph

  /** The first file is `d/f`, its name plain, and its declarations are walked. */
  ghost predicate StartsAt(ordered: seq<(string, Content)>, opts: Options, d: string, f: string) {
    && ordered != [] && opts.projectRoot.None? && ordered[0].0 == d + "/" + f
    && IsBase(d) && IsName(f) && NoSlash(f) && '\\' !in f
    && ordered[0].1.length <= MAX_PARSE_LENGTH && ordered[0].1.yaml.Mapping?
  }

  /** The returned lists of such a run. */
  ghost predicate IsResult(ordered: seq<(string, Content)>, opts: Options, inputs: seq<Input>, dynamic: seq<string>,
      errors: seq<WalkError>)
  {
    Holds(opts, Seen(Walked(ordered, opts)), inputs, dynamic, errors)
  }

  ghost predicate Declares(yaml: Yaml, d: Declaration)
    requires yaml.Mapping?
  {
    d in yaml.resources || exists s | s in yaml.services :: d in s.declarations
  }

  /** The path is an include's, or an extends'. */
  ghost predicate RefersTo(yaml: Yaml, raw: string, kind: Kind)
    requires yaml.Mapping?
  {
    || (kind == Include && exists item | item in yaml.includes :: item.IncludeItem? && raw in item.paths)
    || (kind == Kind.Extends && exists s | s in yaml.services :: s.extendsFile == Some(raw))
  }

  /** The first file is expanded as an ordered file, whatever includes it later. */
  lemma FirstFileIsTop(ordered: seq<(string, Content)>, opts: Options, p: string)
    requires ordered != [] && NormalizeRepoPath(ordered[0].0) == p
    ensures p in Walked(ordered, opts).expanded
    ensures Walked(ordered, opts).expanded[p] == TopExpansion(ordered, opts, 0)
  {
    var tops, u := ComposeWalk.Tops(ordered, opts), Walked(ordered, opts);
    KeyMeans(ordered[0].0, p);
    assert ExpandsAll(opts, NOTHING_YET, tops, u);
    FirstExpanded(opts, tops, tops, p, u);
  }

  lemma FirstFileIsRooted(ordered: seq<(string, Content)>, opts: Options, d: string, f: string) returns (o: Expansion)
    requires StartsAt(ordered, opts, d, f)
    ensures d + "/" + f in Walked(ordered, opts).expanded && o == Walked(ordered, opts).expanded[d + "/" + f]
    ensures IsRootedAt(o.ctx, d) && IsWalked(o) && o.content == ordered[0].1
  {
    SplitFile(d, f);
    PlainAlone(d + "/" + f);
    FirstFileIsTop(ordered, opts, d + "/" + f);
    DirOfFile(d, f);
    o := TopExpansion(ordered, opts, 0);
  }

  lemma DeclaredGives(opts: Options, o: Expansion, p: string, d: Declaration, r: Report)
    requires IsWalked(o) && Declares(o.content.yaml, d) && DeclarationGives(o.ctx, d, p, r)
    ensures FileGives(opts, o, p, r)
  {
    if d !in o.content.yaml.resources {
      var s :| s in o.content.yaml.services && d in s.declarations;
      assert ServiceGives(opts, o.ctx, s, p, r);
    }
  }

  lemma ReferredGives(opts: Options, o: Expansion, p: string, raw: string, kind: Kind, r: Report)
    requires IsWalked(o) && RefersTo(o.content.yaml, raw, kind) && ReferenceGives(o.ctx, raw, kind, p, r)
    ensures FileGives(opts, o, p, r)
  {
    if kind == Include {
      var item :| item in o.content.yaml.includes && item.IncludeItem? && raw in item.paths;
      assert ItemGives(opts, o.ctx, item, p, r);
    } else {
      var s :| s in o.content.yaml.services && s.extendsFile == Some(raw);
      assert ServiceGives(opts, o.ctx, s, p, r);
    }
  }

  /** Listed as this: an input, a dynamic path or an error. */
  predicate IsListed(r: Report, inputs: seq<Input>, dynamic: seq<string>, errors: seq<WalkError>) {
    match r
    case AnInput(i) => i in inputs
    case ADynamic(path) => path in dynamic
    case AnError(e) => e in errors
  }

  lemma GivenIsListed(ordered: seq<(string, Content)>, opts: Options, p: string, r: Report, inputs: seq<Input>,
      dynamic: seq<string>, errors: seq<WalkError>)
    requires IsResult(ordered, opts, inputs, dynamic, errors) && p in Walked(ordered, opts).expanded
    requires FileGives(opts, Walked(ordered, opts).expanded[p], p, r)
    ensures IsListed(r, inputs, dynamic, errors)
  {
    WalkFinishes(ordered, opts);
    assert IsGiven(opts, Seen(Walked(ordered, opts)), r);
    ReportsAreGiven(opts, TopSet(ComposeWalk.Tops(ordered, opts)), Seen(Walked(ordered, opts)), r);
  }

  /** A path of plain names is listed below `d`, and as it stands at runtime. */
  lemma PlainPathIsListed(ordered: seq<(string, Content)>, opts: Options, d: string, f: string, raw: string, kind: Kind,
      inputs: seq<Input>, dynamic: seq<string>, errors: seq<WalkError>)
    requires StartsAt(ordered, opts, d, f) && IsResult(ordered, opts, inputs, dynamic, errors)
    requires Declares(ordered[0].1.yaml, ProjectRelative(raw, kind)) || RefersTo(ordered[0].1.yaml, raw, kind)
    requires IsBase(raw) && !IsHostAbsolutePath(raw) && !IsUrl(raw) && !IsDynamicPath(raw)
    ensures Input(Some(d + "/" + raw), Some(raw), kind, d + "/" + f) in inputs
  {
    var p, i := d + "/" + f, Input(Some(d + "/" + raw), Some(raw), kind, d + "/" + f);
    var o := FirstFileIsRooted(ordered, opts, d, f);
    PlainPathGives(o.ctx, d, raw, kind, p, AnInput(i));
    if Declares(o.content.yaml, ProjectRelative(raw, kind)) {
      DeclaredGives(opts, o, p, ProjectRelative(raw, kind), AnInput(i));
    } else {
      ReferredGives(opts, o, p, raw, kind, AnInput(i));
    }
    GivenIsListed(ordered, opts, p, AnInput(i), inputs, dynamic, errors);
  }

  lemma HostPathGives(ctx: FileContext, d: string, raw: string, kind: Kind, p: string)
    requires IsRootedAt(ctx, d) && (IsHostAbsolutePath(raw) || "../" <= raw) && !IsDynamicPath(raw)
    ensures PathGives(ctx, raw, kind, p, AnInput(Input(Some(raw), None, kind, p)))
    ensures ReferenceGives(ctx, raw, kind, p, AnInput(Input(Some(raw), None, kind, p)))
  {
    if "../" <= raw {
      assert raw == "../" + raw[3..];
      ClimbingPathGives(ctx, d, raw[3..], kind, p, AnInput(Input(Some(raw), None, kind, p)));
    }
  }

  /** A host path, or one that climbs out of the stack root, is listed under its own spelling. */
  lemma HostPathIsListed(ordered: seq<(string, Content)>, opts: Options, d: string, f: string, raw: string, kind: Kind,
      inputs: seq<Input>, dynamic: seq<string>, errors: seq<WalkError>)
    requires StartsAt(ordered, opts, d, f) && IsResult(ordered, opts, inputs, dynamic, errors)
    requires Declares(ordered[0].1.yaml, ProjectRelative(raw, kind)) || RefersTo(ordered[0].1.yaml, raw, kind)
    requires (IsHostAbsolutePath(raw) || "../" <= raw) && !IsDynamicPath(raw)
    ensures Input(Some(raw), None, kind, d + "/" + f) in inputs
  {
    var p, i := d + "/" + f, Input(Some(raw), None, kind, d + "/" + f);
    var o := FirstFileIsRooted(ordered, opts, d, f);
    HostPathGives(o.ctx, d, raw, kind, p);
    if Declares(o.content.yaml, ProjectRelative(raw, kind)) {
      DeclaredGives(opts, o, p, ProjectRelative(raw, kind), AnInput(i));
    } else {
      ReferredGives(opts, o, p, raw, kind, AnInput(i));
    }
    GivenIsListed(ordered, opts, p, AnInput(i), inputs, dynamic, errors);
  }

  /** A path with a variable is listed as dynamic. */
  lemma VariableIsListed(ordered: seq<(string, Content)>, opts: Options, d: string, f: string, raw: string, kind: Kind,
      inputs: seq<Input>, dynamic: seq<string>, errors: seq<WalkError>)
    requires StartsAt(ordered, opts, d, f) && IsResult(ordered, opts, inputs, dynamic, errors)
    requires Declares(ordered[0].1.yaml, ProjectRelative(raw, kind)) || RefersTo(ordered[0].1.yaml, raw, kind)
    requires IsDynamicPath(raw)
    ensures raw in dynamic
  {
    var p := d + "/" + f;
    var o := FirstFileIsRooted(ordered, opts, d, f);
    if Declares(o.content.yaml, ProjectRelative(raw, kind)) {
      DeclaredGives(opts, o, p, ProjectRelative(raw, kind), ADynamic(raw));
    } else {
      ReferredGives(opts, o, p, raw, kind, ADynamic(raw));
    }
    GivenIsListed(ordered, opts, p, ADynamic(raw), inputs, dynamic, errors);
  }

  /** An include of `dir/file` has the `.env` of `dir` listed, below `d` and as it stands at runtime. */
  lemma IncludedEnvIsListed(ordered: seq<(string, Content)>, opts: Options, d: string, f: string, item: IncludeItem,
      dir: string, file: string, inputs: seq<Input>, dynamic: seq<string>, errors: seq<WalkError>)
    requires StartsAt(ordered, opts, d, f) && IsResult(ordered, opts, inputs, dynamic, errors)
    requires item in ordered[0].1.yaml.includes && MainFileIs(item, dir, file) && item.interpolation
    ensures Input(Some(d + "/" + dir + "/.env"), Some(dir + "/.env"), InterpolationEnv, d + "/" + f) in inputs
  {
    var p, i := d + "/" + f, Input(Some(d + "/" + dir + "/.env"), Some(dir + "/.env"), InterpolationEnv, d + "/" + f);
    var o := FirstFileIsRooted(ordered, opts, d, f);
    PlainEnvGives(opts, o.ctx, d, item, dir, file, p);
    assert ItemGives(opts, o.ctx, item, p, AnInput(i));
    assert FileGives(opts, o, p, AnInput(i));
    GivenIsListed(ordered, opts, p, AnInput(i), inputs, dynamic, errors);
  }

  // ------------------------------------------------------------ ordered files

  /** The file is ordered once, and no file leads to it. */
  ghost predicate IsOrderedOnly(ordered: seq<(string, Content)>, opts: Options, i: nat, p: string) {
    && i < |ordered| && NormalizeRepoPath(ordered[i].0) == p
    && (forall j | 0 <= j < |ordered| && j != i :: NormalizeRepoPath(ordered[j].0) != p)
    && forall q :: (q, p) !in Walked(ordered, opts).trace.edges
  }

  lemma TopIsExpanded(opts: Options, tops: Tops, s: Snapshot, p: string, o: Expansion)
    requires Finished(opts, tops, s) && (p, o) in tops
    ensures p in s.expanded
  {
    assert p in Roots(tops);
    Graph.ReachesSelf(s.trace.edges, p);
  }

  lemma UnledIsTop(opts: Options, tops: Tops, s: Snapshot, p: string)
    requires Finished(opts, tops, s) && p in s.expanded && forall q :: (q, p) !in s.trace.edges
    ensures (p, s.expanded[p]) in tops
  {
    assert Grounded(opts, tops, s, p);
  }

  lemma TopOf(tops: seq<Expansion>, p: string, o: Expansion) returns (j: nat)
    requires (p, o) in TopSet(tops)
    ensures j < |tops| && tops[j] == o && NormalizeRepoPath(o.ctx.repoPath) == p
  {
    j :| 0 <= j < |tops| && tops[j] == o;
  }

  /** It is walked with its own content, below the root or else the first file's directory. */
  lemma OrderedFileIsRooted(ordered: seq<(string, Content)>, opts: Options, i: nat, p: string) returns (o: Expansion)
    requires IsOrderedOnly(ordered, opts, i, p)
    ensures p in Walked(ordered, opts).expanded && o == Walked(ordered, opts).expanded[p]
    ensures o.content == ordered[i].1 && o.depth == 0 && o.ctx.repoPath == ordered[i].0
    ensures o.ctx.runtimePath == if i == 0 then "" else ordered[i].0
    ensures o.ctx.projectBase == (if opts.projectRoot.Some? then opts.projectRoot else DirOf(ordered[0].0))
    ensures o.ctx.runtimeProjectBase == opts.projectRoot
  {
    var tops, s := ComposeWalk.Tops(ordered, opts), Seen(Walked(ordered, opts));
    WalkFinishes(ordered, opts);
    assert tops[i] in tops;
    TopIsExpanded(opts, TopSet(tops), s, p, tops[i]);
    UnledIsTop(opts, TopSet(tops), s, p);
    o := s.expanded[p];
    var j := TopOf(tops, p, o);
    assert NormalizeRepoPath(ordered[j].0) == p && j == i;
  }

  /** With a project root a plain path is listed below it, in the repository and at runtime. */
  lemma RootedPathIsListed(ordered: seq<(string, Content)>, opts: Options, i: nat, p: string, raw: string, kind: Kind,
      inputs: seq<Input>, dynamic: seq<string>, errors: seq<WalkError>)
    requires IsOrderedOnly(ordered, opts, i, p) && IsResult(ordered, opts, inputs, dynamic, errors)
    requires opts.projectRoot.Some? && IsBase(opts.projectRoot.value)
    requires ordered[i].1.length <= MAX_PARSE_LENGTH && ordered[i].1.yaml.Mapping?
    requires Declares(ordered[i].1.yaml, ProjectRelative(raw, kind)) || RefersTo(ordered[i].1.yaml, raw, kind)
    requires IsBase(raw) && !IsHostAbsolutePath(raw) && !IsUrl(raw) && !IsDynamicPath(raw)
    ensures var path := opts.projectRoot.value + "/" + raw; Input(Some(path), Some(path), kind, p) in inputs
  {
    var path := opts.projectRoot.value + "/" + raw;
    var r := AnInput(Input(Some(path), Some(path), kind, p));
    var o := OrderedFileIsRooted(ordered, opts, i, p);
    PlainBelowBase(opts.projectRoot.value, raw);
    assert IsInside(o.ctx, raw, path, path);
    if Declares(o.content.yaml, ProjectRelative(raw, kind)) {
      DeclaredGives(opts, o, p, ProjectRelative(raw, kind), r);
    } else {
      ReferredGives(opts, o, p, raw, kind, r);
    }
    GivenIsListed(ordered, opts, p, r, inputs, dynamic, errors);
  }
}
