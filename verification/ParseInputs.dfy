/**
  The entry point: the walk over the ordered files, then the project's own `.env`, and
  what the three returned lists hold.
*/
module ParseInputs {
  import opened Common
  import opened ComposePaths
  import opened ComposeScript
  import opened WalkPlay
  import opened DeclaredInputs
  import opened ComposeWalk

  /** `.env` at the project root. */
  function InterpolationPath(root: Option<string>): string {
    if root.Some? && root.value != "" then root.value + "/.env" else ".env"
  }

  function InterpolationInput(opts: Options): Input {
    var path := InterpolationPath(opts.projectRoot);
    Input(Some(path), Some(path), InterpolationEnv, "<project>")
  }

  lemma InterpolationPathClean(root: Option<string>)
    requires CleanBase(root)
    ensures Inside(InterpolationPath(root))
  {
    CleanBaseMeans(root);
    InsideMeans(InterpolationPath(root));
    SplitPlain(".env");
    if root.Some? && root.value != "" {
      SplitAtSlash(root.value, ".env");
      assert root.value + "/.env" == root.value + "/" + ".env";
    }
  }

  lemma WalkedClean(ordered: seq<(string, Content)>, opts: Options, i: Input)
    requires i in Inputs(Walked(ordered, opts).log)
    ensures CleanInput(i)
  {
    WalkFinishes(ordered, opts);
    InLists(Walked(ordered, opts).log);
    FinishedClean(opts, TopSet(ComposeWalk.Tops(ordered, opts)), Seen(Walked(ordered, opts)), i);
  }

  // ------------------------------------------------------- what the lists hold

  /** The project's own `.env`, listed last. */
  ghost predicate ProjectGives(opts: Options, r: Report) {
    var path := if opts.projectRoot.Some? && opts.projectRoot.value != "" then opts.projectRoot.value + "/.env"
      else ".env";
    if IsDynamicPath(path) then r == ADynamic(path)
    else r == AnInput(Input(Some(path), Some(path), InterpolationEnv, "<project>"))
  }

  /** The lists hold what the expanded files' declarations give and the project's `.env`, and the cycles of the walk. */
  ghost predicate Holds(opts: Options, s: Snapshot, inputs: seq<Input>, dynamic: seq<string>, errors: seq<WalkError>) {
    && (forall i :: i in inputs <==> IsGiven(opts, s, AnInput(i)) || ProjectGives(opts, AnInput(i)))
    && (forall path :: path in dynamic <==> IsGiven(opts, s, ADynamic(path)) || ProjectGives(opts, ADynamic(path)))
    && (forall e :: e in errors <==>
      if e.Cycle? then AnError(e) in s.reports else IsGiven(opts, s, AnError(e)))
  }

  function FullLog(log: seq<Report>, opts: Options): seq<Report> {
    log + [EmitReport(Some(InterpolationPath(opts.projectRoot)), InterpolationInput(opts))]
  }

  lemma InFullLog(log: seq<Report>, opts: Options, r: Report)
    ensures r in FullLog(log, opts) <==> r in log || ProjectGives(opts, r)
  {
  }

  lemma ListsHold(opts: Options, tops: Tops, s: State)
    requires Finished(opts, tops, Seen(s))
    ensures var log := FullLog(s.log, opts); Holds(opts, Seen(s), Inputs(log), Dynamics(log), Errors(log))
  {
    InLists(FullLog(s.log, opts));
    forall r
      ensures r in FullLog(s.log, opts) <==>
        (if IsCycle(r) then r in Seen(s).reports else IsGiven(opts, Seen(s), r)) || ProjectGives(opts, r)
    {
      InFullLog(s.log, opts, r);
      ReportsAreGiven(opts, tops, Seen(s), r);
    }
  }

  /**
    Walk the ordered Compose files, then declare the project's own `.env`. The three
    lists are exactly those of the play, in its order and with its repetitions, and hold
    exactly what the declarations of the expanded files give; every materialised
    input stays inside both roots, the project's `.env` when the project root does.
  */
  method ParseDeclaredInputs(ordered: seq<(string, Content)>, opts: Options)
    returns (inputs: seq<Input>, dynamic: seq<string>, errors: seq<WalkError>)
    ensures var log := FullLog(Walked(ordered, opts).log, opts);
      inputs == Inputs(log) && dynamic == Dynamics(log) && errors == Errors(log)
    ensures Holds(opts, Seen(Walked(ordered, opts)), inputs, dynamic, errors)
    ensures Finished(opts, TopSet(ComposeWalk.Tops(ordered, opts)), Seen(Walked(ordered, opts)))
    ensures forall i | i in inputs :: CleanInput(i) || (i == InterpolationInput(opts) && !CleanBase(opts.projectRoot))
  {
    var walk := new Walk(opts);
    WalkOrdered(walk, ordered);
    WalkedIs(ordered, opts, walk.run);
    WalkFinishes(ordered, opts);
    ListsHold(opts, TopSet(ComposeWalk.Tops(ordered, opts)), walk.run);
    forall i | i in walk.inputs ensures CleanInput(i) { WalkedClean(ordered, opts, i); }
    if CleanBase(opts.projectRoot) { InterpolationPathClean(opts.projectRoot); }
    var path := InterpolationPath(opts.projectRoot);
    ListsNext(walk.run.log, EmitReport(Some(path), InterpolationInput(opts)));
    walk.EmitInput(Some(path), Some(path), Some(path), InterpolationEnv, "<project>");
    inputs, dynamic, errors := walk.inputs, walk.dynamic, walk.errors;
  }
}
