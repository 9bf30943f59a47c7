/**
  The walk as a function: a file's script is played event by event, and a file that
  is visited for the first time has its own script played in place.

  The order of the reports, their repetitions, and the context a file is expanded in
  all follow from the play. An invariant kept by every step then says what the play
  amounts to: which files it expands, which edges it follows, which reports it makes
  and when it reports a cycle, all in terms of the given files alone.
*/
module WalkPlay {
  import opened Common
  import opened ComposePaths
  import opened ComposeScript
  import opened WalkTrace
  import Graph

  // ---------------------------------------------------------------- the play

  /** The reports in order, the files being walked and completed, and how each was expanded. */
  datatype State = State(log: seq<Report>, trace: Trace, expanded: map<string, Expansion>)

  ghost function Logged(s: State, reports: seq<Report>): State {
    s.(log := s.log + reports)
  }

  /** Plays the events of a file at this depth. */
  ghost function Play(opts: Options, s: State, events: seq<Event>, depth: nat): (u: State)
    requires depth <= MAX_INCLUDE_DEPTH + 1
    ensures u.trace.path == s.trace.path
    decreases MAX_INCLUDE_DEPTH + 1 - depth, 0, |events|
  {
    if events == [] then s
      else PlayEvent(opts, Play(opts, s, events[..|events| - 1], depth), events[|events| - 1], depth)
  }

  ghost function PlayEvent(opts: Options, s: State, e: Event, depth: nat): (u: State)
    requires depth <= MAX_INCLUDE_DEPTH + 1
    ensures u.trace.path == s.trace.path
    decreases MAX_INCLUDE_DEPTH + 1 - depth, 0, 0
  {
    match e
    case Say(r) => Logged(s, [r])
    case Visit(ctx, content) =>
      if depth <= MAX_INCLUDE_DEPTH then Expand(opts, s, Expansion(ctx, content, depth + 1)) else s
  }

  /** A file on the path is a cycle, a completed one is shared, any other has its script played. */
  ghost function Expand(opts: Options, s: State, o: Expansion): (u: State)
    requires o.depth <= MAX_INCLUDE_DEPTH + 1
    ensures u.trace.path == s.trace.path
    decreases MAX_INCLUDE_DEPTH + 1 - o.depth, 1, 0
  {
    var c := NormalizeRepoPath(o.ctx.repoPath);
    if c in s.trace.path then Logged(s, [AnError(Cycle(c))]).(trace := Close(s.trace, c))
    else if c in s.trace.order then s.(trace := Revisit(s.trace, c))
    else
      var u := Play(opts, Began(s, c, o), Script(opts, o, c), o.depth);
      u.(trace := Pop(u.trace))
  }

  /** The file is on the path, expanded this way. */
  ghost function Began(s: State, c: string, o: Expansion): State {
    s.(trace := Push(s.trace, c), expanded := s.expanded[c := o])
  }

  /** The files of a run, one after the other. */
  ghost function ExpandAll(opts: Options, s: State, tops: seq<Expansion>): (u: State)
    requires forall o | o in tops :: o.depth == 0
    ensures u.trace.path == s.trace.path
  {
    if tops == [] then s else Expand(opts, ExpandAll(opts, s, tops[..|tops| - 1]), tops[|tops| - 1])
  }

  const NOTHING_YET := State([], Trace([], [], {}, []), map[])

  // The same as relations, unfolded only where `Touch` is mentioned.

  ghost predicate Touch(s: State) {
    true
  }

  ghost predicate Plays(opts: Options, s: State, events: seq<Event>, depth: nat, u: State) {
    depth <= MAX_INCLUDE_DEPTH + 1 && forall x: State :: Touch(x) && x == s ==> u == Play(opts, x, events, depth)
  }

  ghost predicate PlaysEvent(opts: Options, s: State, e: Event, depth: nat, u: State) {
    depth <= MAX_INCLUDE_DEPTH + 1 && forall x: State :: Touch(x) && x == s ==> u == PlayEvent(opts, x, e, depth)
  }

  ghost predicate Expands(opts: Options, s: State, o: Expansion, u: State) {
    o.depth <= MAX_INCLUDE_DEPTH + 1 && forall x: State :: Touch(x) && x == s ==> u == Expand(opts, x, o)
  }

  lemma PlaysNone(opts: Options, s: State, depth: nat, u: State)
    requires depth <= MAX_INCLUDE_DEPTH + 1
    ensures Plays(opts, s, [], depth, u) <==> u == s
  {
    assert Touch(s);
  }

  lemma PlaysInit(opts: Options, s: State, events: seq<Event>, depth: nat, u: State) returns (t: State)
    requires Plays(opts, s, events, depth, u) && events != []
    ensures Plays(opts, s, events[..|events| - 1], depth, t) && PlaysEvent(opts, t, events[|events| - 1], depth, u)
  {
    assert Touch(s);
    t := Play(opts, s, events[..|events| - 1], depth);
  }

  lemma PlaysNext(opts: Options, s: State, events: seq<Event>, depth: nat, t: State, e: Event, u: State)
    requires Plays(opts, s, events, depth, t) && PlaysEvent(opts, t, e, depth, u)
    ensures Plays(opts, s, events + [e], depth, u)
  {
    assert Touch(s) && Touch(t);
    assert (events + [e])[..|events|] == events;
  }

  lemma PlaysSay(opts: Options, s: State, r: Report, depth: nat, u: State)
    requires depth <= MAX_INCLUDE_DEPTH + 1
    ensures PlaysEvent(opts, s, Say(r), depth, u) <==> u == Logged(s, [r])
  {
    assert Touch(s);
  }

  lemma PlaysVisit(opts: Options, s: State, ctx: FileContext, content: Content, depth: nat, u: State)
    requires depth <= MAX_INCLUDE_DEPTH
    ensures PlaysEvent(opts, s, Visit(ctx, content), depth, u) <==>
      Expands(opts, s, Expansion(ctx, content, depth + 1), u)
  {
    assert Touch(s);
  }

  /** The file is known under this key. */
  ghost predicate KeyIs(t: string, key: string) {
    forall x: string :: Look(x) && x == t ==> NormalizeRepoPath(x) == key
  }

  lemma KeyMeans(t: string, key: string)
    ensures KeyIs(t, key) <==> NormalizeRepoPath(t) == key
  {
    assert Look(t);
  }

  /** The three ways a file is expanded. */
  lemma ExpandsClosed(opts: Options, s: State, c: string, o: Expansion, u: State)
    requires o.depth <= MAX_INCLUDE_DEPTH + 1 && KeyIs(o.ctx.repoPath, c) && c in s.trace.path
    ensures Expands(opts, s, o, u) <==> u == Logged(s, [AnError(Cycle(c))]).(trace := Close(s.trace, c))
  {
    KeyMeans(o.ctx.repoPath, c);
    assert Touch(s);
  }

  lemma ExpandsShared(opts: Options, s: State, c: string, o: Expansion, u: State)
    requires o.depth <= MAX_INCLUDE_DEPTH + 1 && KeyIs(o.ctx.repoPath, c) && c !in s.trace.path && c in s.trace.order
    ensures Expands(opts, s, o, u) <==> u == s.(trace := Revisit(s.trace, c))
  {
    KeyMeans(o.ctx.repoPath, c);
    assert Touch(s);
  }

  lemma ExpandsPlayed(opts: Options, s: State, c: string, o: Expansion, u: State) returns (script: seq<Event>, t: State)
    requires Expands(opts, s, o, u) && KeyIs(o.ctx.repoPath, c) && c !in s.trace.path && c !in s.trace.order
    ensures script == Script(opts, o, c) && Plays(opts, Began(s, c, o), script, o.depth, t)
    ensures t.trace.path != [] && u == t.(trace := Pop(t.trace))
  {
    KeyMeans(o.ctx.repoPath, c);
    assert Touch(s);
    script := Script(opts, o, c);
    t := Play(opts, Began(s, c, o), script, o.depth);
  }

  lemma PlayedExpands(opts: Options, s: State, c: string, o: Expansion, t: State)
    requires Plays(opts, Began(s, c, o), Script(opts, o, c), o.depth, t) && t.trace.path != []
    requires KeyIs(o.ctx.repoPath, c) && c !in s.trace.path && c !in s.trace.order
    ensures Expands(opts, s, o, t.(trace := Pop(t.trace)))
  {
    KeyMeans(o.ctx.repoPath, c);
    assert Touch(s) && Touch(Began(s, c, o));
  }

  /** One script after another. */
  lemma {:induction false} PlaysJoin(opts: Options, s: State, a: seq<Event>, depth: nat, t: State, b: seq<Event>,
      u: State)
    requires Plays(opts, s, a, depth, t) && Plays(opts, t, b, depth, u)
    ensures Plays(opts, s, a + b, depth, u)
    decreases |b|
  {
    if b == [] {
      PlaysNone(opts, t, depth, u);
      assert a + b == a;
    } else {
      var v := PlaysInit(opts, t, b, depth, u);
      PlaysJoin(opts, s, a, depth, t, b[..|b| - 1], v);
      PlaysNext(opts, s, a + b[..|b| - 1], depth, v, b[|b| - 1], u);
      assert a + b == a + b[..|b| - 1] + [b[|b| - 1]];
    }
  }

  lemma {:induction false} PlaysSays(opts: Options, s: State, reports: seq<Report>, depth: nat)
    requires depth <= MAX_INCLUDE_DEPTH + 1
    ensures Plays(opts, s, Says(reports), depth, Logged(s, reports))
    decreases |reports|
  {
    if reports == [] {
      assert Logged(s, reports) == s;
      PlaysNone(opts, s, depth, s);
    } else {
      var init, last := reports[..|reports| - 1], reports[|reports| - 1];
      PlaysSays(opts, s, init, depth);
      assert Logged(Logged(s, init), [last]) == Logged(s, reports);
      PlaysSay(opts, Logged(s, init), last, depth, Logged(s, reports));
      PlaysNext(opts, s, Says(init), depth, Logged(s, init), Say(last), Logged(s, reports));
      assert Says(reports) == Says(init) + [Say(last)];
    }
  }

  // ------------------------------------------------- what a script asks, folded

  // The definitions are kept folded: the predicates below unfold only where `Look`
  // or `Peek` is mentioned.

  ghost predicate Peek(o: Expansion) {
    true
  }

  /** The file's script visits this file with this content. */
  ghost predicate Visits(opts: Options, o: Expansion, p: string, ctx: FileContext, content: Content) {
    forall x: Expansion :: Peek(x) && x == o ==> Visit(ctx, content) in Script(opts, x, p)
  }

  lemma VisitsMeans(opts: Options, o: Expansion, p: string, ctx: FileContext, content: Content)
    ensures Visits(opts, o, p, ctx, content) <==> Visit(ctx, content) in Script(opts, o, p)
  {
    assert Peek(o);
  }

  ghost predicate FollowsKey(opts: Options, o: Expansion, p: string, key: string) {
    exists ctx, content :: Visits(opts, o, p, ctx, content) && KeyIs(ctx.repoPath, key)
  }

  /** `o` is how the walk expands a file visited by `q`, itself expanded as `parent`: one level deeper. */
  ghost predicate ChildOf(opts: Options, q: string, parent: Expansion, o: Expansion) {
    o.depth == parent.depth + 1 && Visits(opts, parent, q, o.ctx, o.content)
  }

  /** The file's script makes the report. */
  ghost predicate Allows(opts: Options, o: Expansion, p: string, r: Report) {
    forall x: Expansion :: Peek(x) && x == o ==> Say(r) in Script(opts, x, p)
  }

  lemma AllowsMeans(opts: Options, o: Expansion, p: string, r: Report)
    ensures Allows(opts, o, p, r) <==> Say(r) in Script(opts, o, p)
  {
    assert Peek(o);
  }

  /** Every report of the file's script is among these. */
  ghost predicate Exhausts(opts: Options, o: Expansion, p: string, reports: set<Report>) {
    forall x: Expansion :: Peek(x) && x == o ==> forall r | Say(r) in Script(opts, x, p) :: r in reports
  }

  lemma ExhaustsMeans(opts: Options, o: Expansion, p: string, reports: set<Report>)
    ensures Exhausts(opts, o, p, reports) <==> forall r | Say(r) in Script(opts, o, p) :: r in reports
  {
    assert Peek(o);
  }

  /** The event is in the file's script. */
  ghost predicate Asks(opts: Options, o: Expansion, p: string, e: Event) {
    match e
    case Say(r) => Allows(opts, o, p, r)
    case Visit(ctx, content) => Visits(opts, o, p, ctx, content)
  }

  lemma AsksMeans(opts: Options, o: Expansion, p: string, e: Event)
    ensures Asks(opts, o, p, e) <==> e in Script(opts, o, p)
  {
    match e
    case Say(r) => AllowsMeans(opts, o, p, r);
    case Visit(ctx, content) => VisitsMeans(opts, o, p, ctx, content);
  }

  lemma AllAsked(opts: Options, o: Expansion, p: string, script: seq<Event>)
    requires script == Script(opts, o, p)
    ensures forall e :: Asks(opts, o, p, e) <==> e in script
  {
    forall e ensures Asks(opts, o, p, e) <==> e in script { AsksMeans(opts, o, p, e); }
  }

  lemma VisitIsShallow(opts: Options, o: Expansion, p: string, ctx: FileContext, content: Content) returns (key: string)
    requires Visits(opts, o, p, ctx, content)
    ensures o.depth <= MAX_INCLUDE_DEPTH && KeyIs(ctx.repoPath, key)
  {
    VisitsMeans(opts, o, p, ctx, content);
    ScriptVisits(opts, o, p, ctx, content);
    key := NormalizeRepoPath(ctx.repoPath);
    KeyMeans(ctx.repoPath, key);
  }

  // ------------------------------------------------------------ the invariant


  // --------------------------------------------------------------- the walk

  /** A top-level file's key and how it is expanded. */
  type Tops = set<(string, Expansion)>

  ghost function Roots(tops: Tops): set<string> {
    set x | x in tops :: x.0
  }

  /** Everything the walk's invariant speaks about. */
  datatype Snapshot = Snapshot(trace: Trace, expanded: map<string, Expansion>, reports: set<Report>)

  predicate HasCycle(reports: set<Report>) {
    exists r | r in reports :: IsCycle(r)
  }

  ghost predicate OnCycle(edges: Graph.Edges, c: string) {
    exists w: seq<string> :: Graph.IsCycle(edges, w) && w[0] == c
  }

  /** The expansion of `p` is a top-level file's, or comes from a file with an edge to `p`. */
  ghost predicate Grounded(opts: Options, tops: Tops, s: Snapshot, p: string)
    requires p in s.expanded
  {
    || (p, s.expanded[p]) in tops
    || exists q | q in s.expanded && (q, p) in s.trace.edges :: ChildOf(opts, q, s.expanded[q], s.expanded[p])
  }

  ghost predicate AllGrounded(opts: Options, tops: Tops, s: Snapshot) {
    forall p | p in s.expanded :: KeyIs(s.expanded[p].ctx.repoPath, p) && Grounded(opts, tops, s, p)
  }

  /** Only followable edges are followed, and each leads to an expanded file. */
  ghost predicate EdgesFollowed(opts: Options, s: Snapshot) {
    forall e | e in s.trace.edges ::
      e.0 in s.expanded && e.1 in s.expanded && FollowsKey(opts, s.expanded[e.0], e.0, e.1)
  }

  ghost predicate AllReached(tops: Tops, s: Snapshot) {
    forall p | p in s.expanded :: Graph.ReachedFrom(s.trace.edges, Roots(tops), p)
  }

  /** Some expanded file contributes the report. */
  ghost predicate Contributed(opts: Options, s: Snapshot, r: Report) {
    exists p | p in s.expanded :: Allows(opts, s.expanded[p], p, r)
  }

  ghost predicate ReportsSound(opts: Options, s: Snapshot) {
    forall r | r in s.reports :: if IsCycle(r) then OnCycle(s.trace.edges, r.error.path) else Contributed(opts, s, r)
  }

  /** An edge from `p` to the file at `t`. */
  ghost predicate Linked(s: Snapshot, p: string, t: string) {
    exists key :: KeyIs(t, key) && (p, key) in s.trace.edges
  }

  /** All the file contributes is reported, and all it can lead to is followed. */
  ghost predicate Complete(opts: Options, s: Snapshot, p: string)
    requires p in s.expanded
  {
    && Exhausts(opts, s.expanded[p], p, s.reports)
    && forall ctx, content | Visits(opts, s.expanded[p], p, ctx, content) :: Linked(s, p, ctx.repoPath)
  }

  ghost predicate AllComplete(opts: Options, s: Snapshot) {
    forall p | p in s.trace.order :: p in s.expanded && Complete(opts, s, p)
  }

  ghost predicate Shape(s: Snapshot) {
    && Wf(s.trace)
    && s.expanded.Keys == Elements(s.trace.path) + Elements(s.trace.order)
    && (s.trace.cycle != [] <==> HasCycle(s.reports))
  }

  ghost predicate Facts(opts: Options, tops: Tops, s: Snapshot) {
    && AllGrounded(opts, tops, s)
    && EdgesFollowed(opts, s)
    && AllReached(tops, s)
    && ReportsSound(opts, s)
    && AllComplete(opts, s)
  }

  ghost predicate Invariant(opts: Options, tops: Tops, s: Snapshot) {
    Shape(s) && Facts(opts, tops, s)
  }

  /** Later in the same activation: the path is as before, everything else has only grown. */
  ghost predicate Grown(a: Snapshot, b: Snapshot) {
    && b.trace.path == a.trace.path
    && a.trace.order <= b.trace.order
    && More(a, b)
  }

  ghost predicate More(a: Snapshot, b: Snapshot) {
    && a.trace.edges <= b.trace.edges
    && (forall p | p in a.expanded :: p in b.expanded && b.expanded[p] == a.expanded[p])
    && a.reports <= b.reports
  }

  // ------------------------------------------- what survives when more is known

  lemma ReachMore(edges: Graph.Edges, more: Graph.Edges, roots: set<string>, p: string)
    requires Graph.ReachedFrom(edges, roots, p) && edges <= more
    ensures Graph.ReachedFrom(more, roots, p)
  {
    var r :| r in roots && Graph.Reaches(edges, r, p);
    Graph.ReachesMore(edges, more, r, p);
  }

  lemma ReachNext(edges: Graph.Edges, roots: set<string>, p: string, c: string)
    requires Graph.ReachedFrom(edges, roots, p) && (p, c) in edges
    ensures Graph.ReachedFrom(edges, roots, c)
  {
    var r :| r in roots && Graph.Reaches(edges, r, p);
    Graph.ReachesNext(edges, r, p, c);
  }

  lemma MoreReached(tops: Tops, s: Snapshot, u: Snapshot, p: string)
    requires AllReached(tops, s) && More(s, u) && p in s.expanded
    ensures Graph.ReachedFrom(u.trace.edges, Roots(tops), p)
  {
    ReachMore(s.trace.edges, u.trace.edges, Roots(tops), p);
  }

  lemma MoreGrounded(opts: Options, tops: Tops, s: Snapshot, u: Snapshot, p: string)
    requires p in s.expanded && More(s, u) && Grounded(opts, tops, s, p)
    ensures Grounded(opts, tops, u, p)
  {
    if (p, s.expanded[p]) !in tops {
      var q :| q in s.expanded && (q, p) in s.trace.edges && ChildOf(opts, q, s.expanded[q], s.expanded[p]);
      assert u.expanded[q] == s.expanded[q];
    }
  }

  lemma ExhaustsMore(opts: Options, o: Expansion, p: string, rs: set<Report>, more: set<Report>)
    requires Exhausts(opts, o, p, rs) && rs <= more
    ensures Exhausts(opts, o, p, more)
  {
    ExhaustsMeans(opts, o, p, rs);
    ExhaustsMeans(opts, o, p, more);
  }

  lemma MoreComplete(opts: Options, s: Snapshot, u: Snapshot, p: string)
    requires p in s.expanded && More(s, u) && Complete(opts, s, p)
    ensures Complete(opts, u, p)
  {
    ExhaustsMore(opts, s.expanded[p], p, s.reports, u.reports);
    forall ctx, content | Visits(opts, u.expanded[p], p, ctx, content) ensures Linked(u, p, ctx.repoPath) {
      assert Linked(s, p, ctx.repoPath);
    }
  }

  lemma MoreContributed(opts: Options, s: Snapshot, u: Snapshot, r: Report)
    requires More(s, u) && Contributed(opts, s, r)
    ensures Contributed(opts, u, r)
  {
    var p :| p in s.expanded && Allows(opts, s.expanded[p], p, r);
    assert u.expanded[p] == s.expanded[p];
  }

  lemma MoreOnCycle(edges: Graph.Edges, more: Graph.Edges, c: string)
    requires edges <= more && OnCycle(edges, c)
    ensures OnCycle(more, c)
  {
    var w: seq<string> :| Graph.IsCycle(edges, w) && w[0] == c;
    assert Graph.IsCycle(more, w);
  }

  /** Reports already justified stay justified. */
  lemma MoreSound(opts: Options, s: Snapshot, u: Snapshot, r: Report)
    requires More(s, u) && ReportsSound(opts, s) && r in s.reports
    ensures if IsCycle(r) then OnCycle(u.trace.edges, r.error.path) else Contributed(opts, u, r)
  {
    if IsCycle(r) { MoreOnCycle(s.trace.edges, u.trace.edges, r.error.path); } else { MoreContributed(opts, s, u, r); }
  }

  /** What an added edge, file or report leaves to be shown. */
  lemma MoreKept(opts: Options, tops: Tops, s: Snapshot, u: Snapshot)
    requires Facts(opts, tops, s) && More(s, u)
    ensures forall p | p in s.expanded :: Graph.ReachedFrom(u.trace.edges, Roots(tops), p)
    ensures forall p | p in s.expanded :: KeyIs(u.expanded[p].ctx.repoPath, p) && Grounded(opts, tops, u, p)
    ensures forall p | p in s.trace.order :: p in u.expanded && Complete(opts, u, p)
    ensures forall r | r in s.reports ::
      if IsCycle(r) then OnCycle(u.trace.edges, r.error.path) else Contributed(opts, u, r)
  {
    forall p | p in s.expanded ensures Graph.ReachedFrom(u.trace.edges, Roots(tops), p) { MoreReached(tops, s, u, p); }
    forall p | p in s.expanded ensures Grounded(opts, tops, u, p) { MoreGrounded(opts, tops, s, u, p); }
    forall p | p in s.trace.order ensures p in u.expanded && Complete(opts, u, p) { MoreComplete(opts, s, u, p); }
    forall r | r in s.reports
      ensures if IsCycle(r) then OnCycle(u.trace.edges, r.error.path) else Contributed(opts, u, r)
    {
      MoreSound(opts, s, u, r);
    }
  }

  // ------------------------------------------------------- the walk's steps

  /** A top-level file at the outset, or a followed target of the file being walked. */
  ghost predicate MayEnter(opts: Options, tops: Tops, s: Snapshot, c: string, o: Expansion) {
    && KeyIs(o.ctx.repoPath, c)
    && (s.trace.path == [] ==> (c, o) in tops)
    && (s.trace.path != [] ==>
          Top(s.trace) in s.expanded && ChildOf(opts, Top(s.trace), s.expanded[Top(s.trace)], o))
  }

  ghost function Reporting(s: Snapshot, r: Report): Snapshot {
    s.(reports := s.reports + {r})
  }

  ghost function Closed(s: Snapshot, c: string): Snapshot
    requires c in s.trace.path
  {
    s.(trace := Close(s.trace, c), reports := s.reports + {AnError(Cycle(c))})
  }

  ghost function Pushed(s: Snapshot, c: string, o: Expansion): Snapshot {
    s.(trace := Push(s.trace, c), expanded := s.expanded[c := o])
  }

  /** The file being walked reports something of its own. */
  lemma ReportStep(opts: Options, tops: Tops, s: Snapshot, r: Report)
    requires Invariant(opts, tops, s) && s.trace.path != [] && Top(s.trace) in s.expanded
    requires Allows(opts, s.expanded[Top(s.trace)], Top(s.trace), r)
    ensures Invariant(opts, tops, Reporting(s, r))
  {
    var u, p := Reporting(s, r), Top(s.trace);
    AllowsMeans(opts, s.expanded[p], p, r);
    ScriptIsFair(opts, s.expanded[p], p, r);
    MoreKept(opts, tops, s, u);
    assert Contributed(opts, u, r);
  }

  lemma CloseShape(s: Snapshot, c: string)
    requires Shape(s) && c in s.trace.path
    ensures Shape(Closed(s, c)) && OnCycle(Closed(s, c).trace.edges, c)
  {
    CloseWf(s.trace, c);
    assert AnError(Cycle(c)) in Closed(s, c).reports;
  }

  lemma TopFollows(opts: Options, tops: Tops, s: Snapshot, c: string, o: Expansion)
    requires MayEnter(opts, tops, s, c, o) && s.trace.path != []
    ensures FollowsKey(opts, s.expanded[Top(s.trace)], Top(s.trace), c)
  {
    assert Visits(opts, s.expanded[Top(s.trace)], Top(s.trace), o.ctx, o.content);
  }

  lemma CloseFacts(opts: Options, tops: Tops, s: Snapshot, c: string, o: Expansion)
    requires Facts(opts, tops, s) && MayEnter(opts, tops, s, c, o) && c in s.trace.path && c in s.expanded
    requires OnCycle(Closed(s, c).trace.edges, c)
    ensures Facts(opts, tops, Closed(s, c))
  {
    MoreKept(opts, tops, s, Closed(s, c));
    TopFollows(opts, tops, s, c, o);
  }

  /** Entering a file on the stack closes a cycle through it. */
  lemma CloseStep(opts: Options, tops: Tops, s: Snapshot, c: string, o: Expansion)
    requires Invariant(opts, tops, s) && MayEnter(opts, tops, s, c, o) && c in s.trace.path
    ensures Invariant(opts, tops, Closed(s, c))
  {
    assert c in Elements(s.trace.path);
    CloseShape(s, c);
    CloseFacts(opts, tops, s, c, o);
  }

  lemma RevisitFacts(opts: Options, tops: Tops, s: Snapshot, c: string, o: Expansion)
    requires Facts(opts, tops, s) && MayEnter(opts, tops, s, c, o) && c in s.expanded
    ensures Facts(opts, tops, s.(trace := Revisit(s.trace, c)))
  {
    MoreKept(opts, tops, s, s.(trace := Revisit(s.trace, c)));
    if s.trace.path != [] { TopFollows(opts, tops, s, c, o); }
  }

  /** Reaching a completed file again is not a cycle. */
  lemma RevisitStep(opts: Options, tops: Tops, s: Snapshot, c: string, o: Expansion)
    requires Invariant(opts, tops, s) && MayEnter(opts, tops, s, c, o) && c in s.trace.order
    ensures Invariant(opts, tops, s.(trace := Revisit(s.trace, c)))
  {
    assert c in Elements(s.trace.order);
    RevisitWf(s.trace, c);
    RevisitFacts(opts, tops, s, c, o);
  }

  lemma PushShape(s: Snapshot, c: string, o: Expansion)
    requires Shape(s) && c !in s.trace.path && c !in s.trace.order
    ensures Shape(Pushed(s, c, o))
  {
    PushWf(s.trace, c);
    PathElements(s.trace, c);
  }

  lemma PushFacts(opts: Options, tops: Tops, s: Snapshot, c: string, o: Expansion)
    requires Facts(opts, tops, s) && MayEnter(opts, tops, s, c, o) && c !in s.expanded
    ensures Facts(opts, tops, Pushed(s, c, o))
  {
    MoreKept(opts, tops, s, Pushed(s, c, o));
    PushGrounded(opts, tops, s, c, o);
    if s.trace.path != [] { TopFollows(opts, tops, s, c, o); }
  }

  lemma PushStep(opts: Options, tops: Tops, s: Snapshot, c: string, o: Expansion)
    requires Invariant(opts, tops, s) && MayEnter(opts, tops, s, c, o) && c !in s.trace.path && c !in s.trace.order
    ensures Invariant(opts, tops, Pushed(s, c, o)) && c !in s.expanded
  {
    assert c !in Elements(s.trace.path) + Elements(s.trace.order);
    PushShape(s, c, o);
    PushFacts(opts, tops, s, c, o);
  }

  lemma PushGrounded(opts: Options, tops: Tops, s: Snapshot, c: string, o: Expansion)
    requires Facts(opts, tops, s) && MayEnter(opts, tops, s, c, o) && c !in s.expanded
    ensures Grounded(opts, tops, Pushed(s, c, o), c)
    ensures Graph.ReachedFrom(Pushed(s, c, o).trace.edges, Roots(tops), c)
  {
    var u := Pushed(s, c, o);
    if s.trace.path == [] {
      assert c in Roots(tops);
      Graph.ReachesSelf(u.trace.edges, c);
    } else {
      var q := Top(s.trace);
      assert (q, c) in u.trace.edges && u.expanded[q] == s.expanded[q];
      MoreReached(tops, s, u, q);
      ReachNext(u.trace.edges, Roots(tops), q, c);
    }
  }

  lemma PopShape(s: Snapshot)
    requires Shape(s) && s.trace.path != []
    ensures Shape(s.(trace := Pop(s.trace)))
  {
    PopWf(s.trace);
    PathElements(s.trace, Top(s.trace));
    assert Top(s.trace) in Elements(s.trace.path);
  }

  lemma PopFacts(opts: Options, tops: Tops, s: Snapshot)
    requires Facts(opts, tops, s) && s.trace.path != [] && Top(s.trace) in s.expanded && Complete(opts, s, Top(s.trace))
    ensures Facts(opts, tops, s.(trace := Pop(s.trace)))
  {
    var u := s.(trace := Pop(s.trace));
    MoreKept(opts, tops, s, u);
    MoreComplete(opts, s, u, Top(s.trace));
    assert AllReached(tops, u) && EdgesFollowed(opts, u);
  }

  lemma PopStep(opts: Options, tops: Tops, s: Snapshot)
    requires Invariant(opts, tops, s) && s.trace.path != [] && Top(s.trace) in s.expanded
    requires Complete(opts, s, Top(s.trace))
    ensures Invariant(opts, tops, s.(trace := Pop(s.trace)))
  {
    PopShape(s);
    PopFacts(opts, tops, s);
  }


  // ------------------------------------------------- the play keeps the invariant

  /** What the invariant sees of a state: the reports without their order. */
  ghost function Seen(s: State): Snapshot {
    Snapshot(s.trace, s.expanded, set r | r in s.log)
  }

  lemma SeenLogged(s: State, r: Report)
    ensures Seen(Logged(s, [r])) == Reporting(Seen(s), r)
  {
  }

  // `Good` is the invariant, unfolded only where `Unfold` is mentioned.

  ghost predicate Unfold(s: Snapshot) {
    true
  }

  ghost predicate Good(opts: Options, tops: Tops, s: Snapshot) {
    forall x: Snapshot :: Unfold(x) && x == s ==> Invariant(opts, tops, x)
  }

  lemma GoodMeans(opts: Options, tops: Tops, s: Snapshot)
    ensures Good(opts, tops, s) <==> Invariant(opts, tops, s)
  {
    assert Unfold(s);
  }

  /** The file at the top of the path is being expanded this way. */
  ghost predicate Expanding(s: Snapshot, p: string, o: Expansion) {
    s.trace.path != [] && Top(s.trace) == p && p in s.expanded && s.expanded[p] == o
  }

  /** The event has left its mark: a report, or an edge. */
  ghost predicate IsDone(s: Snapshot, p: string, e: Event) {
    match e
    case Say(r) => r in s.reports
    case Visit(ctx, content) => Linked(s, p, ctx.repoPath)
  }

  ghost predicate AllDone(s: Snapshot, p: string, events: seq<Event>) {
    forall e | e in events :: IsDone(s, p, e)
  }

  lemma DoneMore(a: Snapshot, b: Snapshot, p: string, events: seq<Event>)
    requires More(a, b) && AllDone(a, p, events)
    ensures AllDone(b, p, events)
  {
    forall e | e in events ensures IsDone(b, p, e) {
      assert IsDone(a, p, e);
    }
  }

  lemma DoneNext(s: Snapshot, p: string, events: seq<Event>)
    requires events != [] && AllDone(s, p, events[..|events| - 1]) && IsDone(s, p, events[|events| - 1])
    ensures AllDone(s, p, events)
  {
    assert events == events[..|events| - 1] + [events[|events| - 1]];
  }

  lemma SayGood(opts: Options, tops: Tops, s: State, p: string, o: Expansion, r: Report)
    requires Good(opts, tops, Seen(s)) && Expanding(Seen(s), p, o) && Allows(opts, o, p, r)
    ensures Good(opts, tops, Seen(Logged(s, [r]))) && Grown(Seen(s), Seen(Logged(s, [r])))
    ensures IsDone(Seen(Logged(s, [r])), p, Say(r))
  {
    GoodMeans(opts, tops, Seen(s));
    ReportStep(opts, tops, Seen(s), r);
    SeenLogged(s, r);
    GoodMeans(opts, tops, Reporting(Seen(s), r));
  }

  lemma CloseGood(opts: Options, tops: Tops, s: State, c: string, o: Expansion)
    requires Good(opts, tops, Seen(s)) && MayEnter(opts, tops, Seen(s), c, o) && c in s.trace.path
    ensures var u := Logged(s, [AnError(Cycle(c))]).(trace := Close(s.trace, c));
      Good(opts, tops, Seen(u)) && Grown(Seen(s), Seen(u))
  {
    var u := Logged(s, [AnError(Cycle(c))]).(trace := Close(s.trace, c));
    GoodMeans(opts, tops, Seen(s));
    CloseStep(opts, tops, Seen(s), c, o);
    SeenLogged(s, AnError(Cycle(c)));
    assert Seen(u) == Closed(Seen(s), c);
    GoodMeans(opts, tops, Seen(u));
  }

  lemma RevisitGood(opts: Options, tops: Tops, s: State, c: string, o: Expansion)
    requires Good(opts, tops, Seen(s)) && MayEnter(opts, tops, Seen(s), c, o) && c in s.trace.order
    ensures var u := s.(trace := Revisit(s.trace, c)); Good(opts, tops, Seen(u)) && Grown(Seen(s), Seen(u))
  {
    var u := s.(trace := Revisit(s.trace, c));
    GoodMeans(opts, tops, Seen(s));
    RevisitStep(opts, tops, Seen(s), c, o);
    assert Seen(u) == Seen(s).(trace := Revisit(s.trace, c));
    GoodMeans(opts, tops, Seen(u));
  }

  lemma BeganGood(opts: Options, tops: Tops, s: State, c: string, o: Expansion)
    requires Good(opts, tops, Seen(s)) && MayEnter(opts, tops, Seen(s), c, o) && c !in s.trace.path
    requires c !in s.trace.order
    ensures Good(opts, tops, Seen(Began(s, c, o))) && Expanding(Seen(Began(s, c, o)), c, o) && c !in s.expanded
  {
    GoodMeans(opts, tops, Seen(s));
    PushStep(opts, tops, Seen(s), c, o);
    assert Seen(Began(s, c, o)) == Pushed(Seen(s), c, o);
    GoodMeans(opts, tops, Seen(Began(s, c, o)));
  }

  lemma ScriptIsDone(opts: Options, s: Snapshot, p: string, o: Expansion, script: seq<Event>)
    requires Expanding(s, p, o) && script == Script(opts, o, p) && AllDone(s, p, script)
    ensures Complete(opts, s, p)
  {
    ExhaustsMeans(opts, o, p, s.reports);
    forall r | Say(r) in script ensures r in s.reports { assert IsDone(s, p, Say(r)); }
    forall ctx, content | Visits(opts, o, p, ctx, content) ensures Linked(s, p, ctx.repoPath) {
      VisitsMeans(opts, o, p, ctx, content);
      assert IsDone(s, p, Visit(ctx, content));
    }
  }

  lemma StillExpanding(s: State, c: string, o: Expansion, u: State)
    requires Grown(Seen(Began(s, c, o)), Seen(u))
    ensures u.trace.path == s.trace.path + [c] && Expanding(Seen(u), c, o)
  {
    assert c in Seen(Began(s, c, o)).expanded;
  }

  lemma PopGrown(s: State, c: string, o: Expansion, u: State)
    requires Grown(Seen(Began(s, c, o)), Seen(u)) && c !in s.expanded && u.trace.path == s.trace.path + [c]
    ensures Grown(Seen(s), Seen(u.(trace := Pop(u.trace)))) && c in u.expanded
    ensures s.trace.path != [] ==> (Top(s.trace), c) in u.trace.edges
  {
    assert Seen(u.(trace := Pop(u.trace))) == Seen(u).(trace := Pop(u.trace));
    assert u.trace.path[..|s.trace.path|] == s.trace.path;
    assert forall p | p in s.expanded :: p in Seen(Began(s, c, o)).expanded;
  }

  lemma PopGood(opts: Options, tops: Tops, s: State, c: string, o: Expansion, script: seq<Event>, u: State)
    requires Good(opts, tops, Seen(u)) && Grown(Seen(Began(s, c, o)), Seen(u)) && c !in s.expanded
    requires script == Script(opts, o, c) && AllDone(Seen(u), c, script)
    ensures u.trace.path != [] && Good(opts, tops, Seen(u.(trace := Pop(u.trace))))
    ensures Grown(Seen(s), Seen(u.(trace := Pop(u.trace))))
    ensures c in u.expanded && (s.trace.path != [] ==> (Top(s.trace), c) in u.trace.edges)
  {
    StillExpanding(s, c, o, u);
    ScriptIsDone(opts, Seen(u), c, o, script);
    GoodMeans(opts, tops, Seen(u));
    PopStep(opts, tops, Seen(u));
    GoodMeans(opts, tops, Seen(u).(trace := Pop(u.trace)));
    PopGrown(s, c, o, u);
    assert Seen(u.(trace := Pop(u.trace))) == Seen(u).(trace := Pop(u.trace));
  }

  /** Playing a file's script keeps the invariant and leaves everything in it done. */
  lemma {:induction false} PlayGood(opts: Options, tops: Tops, s: State, p: string, o: Expansion, events: seq<Event>,
      u: State)
    requires Plays(opts, s, events, o.depth, u) && Good(opts, tops, Seen(s)) && Expanding(Seen(s), p, o)
    requires forall e | e in events :: Asks(opts, o, p, e)
    ensures Good(opts, tops, Seen(u)) && Grown(Seen(s), Seen(u)) && AllDone(Seen(u), p, events)
    decreases MAX_INCLUDE_DEPTH + 1 - o.depth, 0, 1 + |events|
  {
    if events == [] {
      PlaysNone(opts, s, o.depth, u);
    } else {
      var init, last := events[..|events| - 1], events[|events| - 1];
      var t := PlaysInit(opts, s, events, o.depth, u);
      PlayGood(opts, tops, s, p, o, init, t);
      EventGood(opts, tops, t, p, o, last, u);
      DoneTwice(Seen(s), Seen(t), Seen(u), p, events);
    }
  }

  lemma DoneTwice(a: Snapshot, b: Snapshot, c: Snapshot, p: string, events: seq<Event>)
    requires Grown(a, b) && Grown(b, c) && events != [] && AllDone(b, p, events[..|events| - 1])
    requires IsDone(c, p, events[|events| - 1])
    ensures Grown(a, c) && AllDone(c, p, events)
  {
    DoneMore(b, c, p, events[..|events| - 1]);
    DoneNext(c, p, events);
  }

  lemma VisitMayEnter(opts: Options, tops: Tops, s: Snapshot, p: string, o: Expansion, ctx: FileContext,
      content: Content, key: string)
    requires Expanding(s, p, o) && Visits(opts, o, p, ctx, content) && KeyIs(ctx.repoPath, key)
    ensures MayEnter(opts, tops, s, key, Expansion(ctx, content, o.depth + 1))
  {
  }

  lemma LinkedBy(s: Snapshot, p: string, ctx: FileContext, content: Content, key: string)
    requires (p, key) in s.trace.edges && KeyIs(ctx.repoPath, key)
    ensures IsDone(s, p, Visit(ctx, content))
  {
  }

  lemma SaidGood(opts: Options, tops: Tops, t: State, p: string, o: Expansion, r: Report, u: State)
    requires PlaysEvent(opts, t, Say(r), o.depth, u) && Good(opts, tops, Seen(t)) && Expanding(Seen(t), p, o)
    requires Allows(opts, o, p, r)
    ensures Good(opts, tops, Seen(u)) && Grown(Seen(t), Seen(u)) && IsDone(Seen(u), p, Say(r))
  {
    PlaysSay(opts, t, r, o.depth, u);
    SayGood(opts, tops, t, p, o, r);
  }

  lemma {:induction false} VisitedGood(opts: Options, tops: Tops, t: State, p: string, o: Expansion, ctx: FileContext,
      content: Content, u: State)
    requires PlaysEvent(opts, t, Visit(ctx, content), o.depth, u) && Good(opts, tops, Seen(t))
    requires Expanding(Seen(t), p, o)
    requires Visits(opts, o, p, ctx, content)
    ensures Good(opts, tops, Seen(u)) && Grown(Seen(t), Seen(u)) && IsDone(Seen(u), p, Visit(ctx, content))
    decreases MAX_INCLUDE_DEPTH + 1 - o.depth, 0, 0
  {
    var key := VisitIsShallow(opts, o, p, ctx, content);
    PlaysVisit(opts, t, ctx, content, o.depth, u);
    VisitMayEnter(opts, tops, Seen(t), p, o, ctx, content, key);
    ExpandGood(opts, tops, t, key, Expansion(ctx, content, o.depth + 1), u);
    LinkedBy(Seen(u), p, ctx, content, key);
  }

  lemma {:induction false} EventGood(opts: Options, tops: Tops, t: State, p: string, o: Expansion, e: Event, u: State)
    requires PlaysEvent(opts, t, e, o.depth, u) && Good(opts, tops, Seen(t)) && Expanding(Seen(t), p, o)
    requires Asks(opts, o, p, e)
    ensures Good(opts, tops, Seen(u)) && Grown(Seen(t), Seen(u)) && IsDone(Seen(u), p, e)
    decreases MAX_INCLUDE_DEPTH + 1 - o.depth, 0, 1
  {
    match e
    case Say(r) => SaidGood(opts, tops, t, p, o, r, u);
    case Visit(ctx, content) => VisitedGood(opts, tops, t, p, o, ctx, content, u);
  }

  /** Expanding a file keeps the invariant, records the edge to it and leaves it expanded. */
  lemma {:induction false} ExpandGood(opts: Options, tops: Tops, s: State, c: string, o: Expansion, u: State)
    requires Expands(opts, s, o, u) && Good(opts, tops, Seen(s)) && MayEnter(opts, tops, Seen(s), c, o)
    ensures Good(opts, tops, Seen(u)) && Grown(Seen(s), Seen(u)) && c in u.expanded
    ensures s.trace.path != [] ==> (Top(s.trace), c) in u.trace.edges
    decreases MAX_INCLUDE_DEPTH + 1 - o.depth, 1, 0
  {
    KeyMeans(o.ctx.repoPath, c);
    HoldsFiles(opts, tops, s);
    if c in s.trace.path {
      ExpandsClosed(opts, s, c, o, u);
      CloseGood(opts, tops, s, c, o);
    } else if c in s.trace.order {
      ExpandsShared(opts, s, c, o, u);
      RevisitGood(opts, tops, s, c, o);
    } else {
      var script, t := ExpandsPlayed(opts, s, c, o, u);
      BeganGood(opts, tops, s, c, o);
      AllAsked(opts, o, c, script);
      PlayGood(opts, tops, Began(s, c, o), c, o, script, t);
      PopGood(opts, tops, s, c, o, script, t);
    }
  }

  lemma HoldsFiles(opts: Options, tops: Tops, s: State)
    requires Good(opts, tops, Seen(s))
    ensures forall c | c in s.trace.path || c in s.trace.order :: c in s.expanded
  {
    GoodMeans(opts, tops, Seen(s));
    forall c | c in s.trace.path || c in s.trace.order ensures c in s.expanded {
      assert c in Elements(s.trace.path) + Elements(s.trace.order);
    }
  }

  // ------------------------------------------------------------ the whole walk

  /** Exactly the files reached from the ordered ones are expanded, each once. */
  ghost predicate ExpandedExactly(tops: Tops, s: Snapshot) {
    && IsDistinct(s.trace.order) && s.expanded.Keys == Elements(s.trace.order)
    && forall p :: p in s.expanded <==> Graph.ReachedFrom(s.trace.edges, Roots(tops), p)
  }

  /** The edges are exactly the readable targets the expanded files declare. */
  ghost predicate EdgesExactly(opts: Options, s: Snapshot) {
    forall p, key :: (p, key) in s.trace.edges <==> p in s.expanded && FollowsKey(opts, s.expanded[p], p, key)
  }

  /** Cycles apart, the reports are exactly those of the expanded files. */
  ghost predicate ReportsExactly(opts: Options, s: Snapshot) {
    forall r | !IsCycle(r) :: r in s.reports <==> Contributed(opts, s, r)
  }

  /** A cycle is reported exactly when the edges have one, and only at a file on one. */
  ghost predicate CyclesExactly(s: Snapshot) {
    && (HasCycle(s.reports) <==> Graph.Cyclic(s.trace.edges))
    && forall r | r in s.reports && IsCycle(r) :: OnCycle(s.trace.edges, r.error.path)
  }

  /**
    What a finished walk established. Each file is expanded as an ordered file, or
    as a target of a file with an edge to it, with what was read there; so all of
    it is a statement about the given files.
  */
  ghost predicate Finished(opts: Options, tops: Tops, s: Snapshot) {
    ExpandedExactly(tops, s) && AllGrounded(opts, tops, s) && EdgesExactly(opts, s) && ReportsExactly(opts, s)
      && CyclesExactly(s)
  }

  lemma ReachedIsExpanded(opts: Options, tops: Tops, s: Snapshot, p: string)
    requires EdgesFollowed(opts, s) && Roots(tops) <= s.expanded.Keys
    requires Graph.ReachedFrom(s.trace.edges, Roots(tops), p)
    ensures p in s.expanded
  {
    var r :| r in Roots(tops) && Graph.Reaches(s.trace.edges, r, p);
    Graph.ReachesInside(s.trace.edges, r, p, s.expanded.Keys);
  }

  lemma ContributedIsReported(opts: Options, tops: Tops, s: Snapshot, r: Report)
    requires Invariant(opts, tops, s) && s.trace.path == [] && Contributed(opts, s, r)
    ensures r in s.reports
  {
    var p :| p in s.expanded && Allows(opts, s.expanded[p], p, r);
    IsComplete(opts, tops, s, p);
    AllowsMeans(opts, s.expanded[p], p, r);
    ExhaustsMeans(opts, s.expanded[p], p, s.reports);
  }

  lemma IsComplete(opts: Options, tops: Tops, s: Snapshot, p: string)
    requires Invariant(opts, tops, s) && s.trace.path == [] && p in s.expanded
    ensures Complete(opts, s, p)
  {
    assert p in Elements(s.trace.path) + Elements(s.trace.order);
    assert p in s.trace.order;
  }

  lemma SameKey(s: Snapshot, p: string, t: string, key: string)
    requires Linked(s, p, t) && KeyIs(t, key)
    ensures (p, key) in s.trace.edges
  {
    var linked :| KeyIs(t, linked) && (p, linked) in s.trace.edges;
    KeyMeans(t, key);
    KeyMeans(t, linked);
  }

  lemma FollowedIsLinked(opts: Options, s: Snapshot, p: string, key: string)
    requires p in s.expanded && Complete(opts, s, p) && FollowsKey(opts, s.expanded[p], p, key)
    ensures (p, key) in s.trace.edges
  {
    var ctx, content :| Visits(opts, s.expanded[p], p, ctx, content) && KeyIs(ctx.repoPath, key);
    SameKey(s, p, ctx.repoPath, key);
  }

  lemma ClosedExactly(s: Snapshot)
    requires Shape(s) && s.trace.path == []
    requires forall r | r in s.reports && IsCycle(r) :: OnCycle(s.trace.edges, r.error.path)
    ensures CyclesExactly(s)
  {
    CycleExact(s.trace);
  }

  lemma AllReachedExpanded(opts: Options, tops: Tops, s: Snapshot)
    requires EdgesFollowed(opts, s) && Roots(tops) <= s.expanded.Keys
    ensures forall p | Graph.ReachedFrom(s.trace.edges, Roots(tops), p) :: p in s.expanded
  {
    forall p | Graph.ReachedFrom(s.trace.edges, Roots(tops), p) ensures p in s.expanded {
      ReachedIsExpanded(opts, tops, s, p);
    }
  }

  lemma WalkedExactly(tops: Tops, s: Snapshot)
    requires IsDistinct(s.trace.order) && s.expanded.Keys == Elements([]) + Elements(s.trace.order)
    requires AllReached(tops, s)
    requires forall p | Graph.ReachedFrom(s.trace.edges, Roots(tops), p) :: p in s.expanded
    ensures ExpandedExactly(tops, s)
  {
    assert Elements([]) == {};
  }

  lemma FollowedExactly(opts: Options, tops: Tops, s: Snapshot)
    requires Invariant(opts, tops, s) && s.trace.path == []
    ensures EdgesExactly(opts, s) && ReportsExactly(opts, s)
  {
    forall p, key | p in s.expanded && FollowsKey(opts, s.expanded[p], p, key) ensures (p, key) in s.trace.edges {
      IsComplete(opts, tops, s, p);
      FollowedIsLinked(opts, s, p, key);
    }
    forall r | Contributed(opts, s, r) ensures r in s.reports { ContributedIsReported(opts, tops, s, r); }
  }

  lemma FinishedWalk(opts: Options, tops: Tops, s: Snapshot)
    requires Good(opts, tops, s) && s.trace.path == [] && Roots(tops) <= s.expanded.Keys
    ensures Finished(opts, tops, s)
  {
    GoodMeans(opts, tops, s);
    ClosedExactly(s);
    AllReachedExpanded(opts, tops, s);
    WalkedExactly(tops, s);
    FollowedExactly(opts, tops, s);
  }

  // --------------------------------------------------- what a finished walk means


  /** The ordered files, by key. */
  ghost function TopSet(tops: seq<Expansion>): Tops {
    set o | o in tops :: (NormalizeRepoPath(o.ctx.repoPath), o)
  }

  lemma NothingIsGood(opts: Options, tops: Tops)
    ensures Good(opts, tops, Seen(NOTHING_YET))
  {
    GoodMeans(opts, tops, Seen(NOTHING_YET));
  }

  ghost predicate IsExpanded(s: State, o: Expansion) {
    exists key :: KeyIs(o.ctx.repoPath, key) && key in s.expanded
  }

  ghost predicate ExpandsAll(opts: Options, s: State, tops: seq<Expansion>, u: State) {
    (forall o | o in tops :: o.depth == 0) && forall x: State :: Touch(x) && x == s ==> u == ExpandAll(opts, x, tops)
  }

  lemma ExpandsNone(opts: Options, s: State, u: State)
    ensures ExpandsAll(opts, s, [], u) <==> u == s
  {
    assert Touch(s);
  }

  lemma ExpandsInit(opts: Options, s: State, tops: seq<Expansion>, u: State) returns (t: State)
    requires ExpandsAll(opts, s, tops, u) && tops != []
    ensures ExpandsAll(opts, s, tops[..|tops| - 1], t) && Expands(opts, t, tops[|tops| - 1], u)
  {
    assert Touch(s) && tops[|tops| - 1] in tops;
    t := ExpandAll(opts, s, tops[..|tops| - 1]);
  }

  lemma ExpandsNext(opts: Options, s: State, tops: seq<Expansion>, t: State, o: Expansion, u: State)
    requires ExpandsAll(opts, s, tops, t) && Expands(opts, t, o, u) && o.depth == 0
    ensures ExpandsAll(opts, s, tops + [o], u)
  {
    assert Touch(s) && Touch(t);
    assert (tops + [o])[..|tops|] == tops;
  }

  /** Expanding one more of the ordered files. */
  lemma TopGood(opts: Options, tops: seq<Expansion>, s: State, o: Expansion, u: State)
    requires Good(opts, TopSet(tops), Seen(s)) && s.trace.path == [] && o in tops && Expands(opts, s, o, u)
    ensures Good(opts, TopSet(tops), Seen(u)) && u.trace.path == [] && IsExpanded(u, o)
    ensures forall x | IsExpanded(s, x) :: IsExpanded(u, x)
  {
    var key := NormalizeRepoPath(o.ctx.repoPath);
    KeyMeans(o.ctx.repoPath, key);
    ExpandGood(opts, TopSet(tops), s, key, o, u);
  }

  lemma {:induction false} TopsGood(opts: Options, tops: seq<Expansion>, done: seq<Expansion>, u: State)
    requires done <= tops && ExpandsAll(opts, NOTHING_YET, done, u)
    ensures Good(opts, TopSet(tops), Seen(u)) && u.trace.path == [] && forall o | o in done :: IsExpanded(u, o)
    decreases |done|
  {
    if done == [] {
      ExpandsNone(opts, NOTHING_YET, u);
      NothingIsGood(opts, TopSet(tops));
    } else {
      var init, last := done[..|done| - 1], done[|done| - 1];
      var t := ExpandsInit(opts, NOTHING_YET, done, u);
      TopsGood(opts, tops, init, t);
      assert last in tops && done == init + [last];
      TopGood(opts, tops, t, last, u);
    }
  }

  /** A file that is new to the walk is expanded this way. */
  lemma ExpandedAfresh(opts: Options, tops: Tops, s: State, c: string, o: Expansion, u: State)
    requires Expands(opts, s, o, u) && Good(opts, tops, Seen(s)) && MayEnter(opts, tops, Seen(s), c, o)
    requires c !in s.trace.path && c !in s.trace.order
    ensures c in u.expanded && u.expanded[c] == o
  {
    var script, t := ExpandsPlayed(opts, s, c, o, u);
    BeganGood(opts, tops, s, c, o);
    AllAsked(opts, o, c, script);
    PlayGood(opts, tops, Began(s, c, o), c, o, script, t);
    StillExpanding(s, c, o, t);
  }

  /** The first ordered file is expanded as such. */
  lemma {:induction false} FirstExpanded(opts: Options, tops: seq<Expansion>, done: seq<Expansion>, c: string, u: State)
    requires done <= tops && done != [] && ExpandsAll(opts, NOTHING_YET, done, u) && KeyIs(tops[0].ctx.repoPath, c)
    ensures c in u.expanded && u.expanded[c] == tops[0]
    decreases |done|
  {
    var init, last := done[..|done| - 1], done[|done| - 1];
    var key := NormalizeRepoPath(last.ctx.repoPath);
    KeyMeans(last.ctx.repoPath, key);
    var t := ExpandsInit(opts, NOTHING_YET, done, u);
    TopsGood(opts, tops, init, t);
    assert last in tops;
    if init == [] {
      ExpandsNone(opts, NOTHING_YET, t);
      KeyMeans(last.ctx.repoPath, c);
      ExpandedAfresh(opts, TopSet(tops), t, c, last, u);
    } else {
      FirstExpanded(opts, tops, init, c, t);
      ExpandGood(opts, TopSet(tops), t, key, last, u);
    }
  }

  lemma RootsExpanded(tops: seq<Expansion>, s: State)
    requires forall o | o in tops :: IsExpanded(s, o)
    ensures Roots(TopSet(tops)) <= s.expanded.Keys
  {
    forall key | key in Roots(TopSet(tops)) ensures key in s.expanded {
      var o :| o in tops && NormalizeRepoPath(o.ctx.repoPath) == key;
      var k :| KeyIs(o.ctx.repoPath, k) && k in s.expanded;
      KeyMeans(o.ctx.repoPath, k);
    }
  }

  /** What the play of a whole run establishes. */
  lemma PlayFinishes(opts: Options, tops: seq<Expansion>)
    requires forall o | o in tops :: o.depth == 0
    ensures Finished(opts, TopSet(tops), Seen(ExpandAll(opts, NOTHING_YET, tops)))
  {
    var u := ExpandAll(opts, NOTHING_YET, tops);
    assert ExpandsAll(opts, NOTHING_YET, tops, u);
    TopsGood(opts, tops, tops, u);
    RootsExpanded(tops, u);
    FinishedWalk(opts, TopSet(tops), Seen(u));
  }

  // --------------------------------------------------- what a finished walk means

  /** Nothing but cycles went wrong: no limit, no unreadable or malformed file, no escaping project. */
  ghost predicate OnlyCycles(s: Snapshot) {
    forall r | r in s.reports && r.AnError? :: IsCycle(r)
  }

  /** The edges out of a file are its declared targets that can be read. */
  lemma EdgesAreDeclared(opts: Options, o: Expansion, p: string, key: string)
    ensures FollowsKey(opts, o, p, key) <==> exists t ::
      LeadsTo(opts, o, t) && t in opts.files && NormalizeRepoPath(t) == key
  {
    if ctx, content :| Visits(opts, o, p, ctx, content) && KeyIs(ctx.repoPath, key) {
      VisitsMeans(opts, o, p, ctx, content);
      ScriptVisits(opts, o, p, ctx, content);
      KeyMeans(ctx.repoPath, key);
      LeadsWhereItRoutes(opts, o, ctx.repoPath);
    }
    if t :| LeadsTo(opts, o, t) && t in opts.files && NormalizeRepoPath(t) == key {
      LeadsWhereItRoutes(opts, o, t);
      var ctx :| RoutesTo(opts, o, ctx) && ctx.repoPath == t;
      ScriptVisits(opts, o, p, ctx, opts.files[t]);
      VisitsMeans(opts, o, p, ctx, opts.files[t]);
      KeyMeans(t, key);
    }
  }

  lemma SaidIsReported(opts: Options, tops: Tops, s: Snapshot, p: string, r: Report)
    requires Finished(opts, tops, s) && p in s.expanded && Say(r) in Script(opts, s.expanded[p], p)
    ensures r in s.reports && !IsCycle(r)
  {
    ScriptIsFair(opts, s.expanded[p], p, r);
    AllowsMeans(opts, s.expanded[p], p, r);
    assert Contributed(opts, s, r);
  }

  lemma LedToIsExpanded(opts: Options, tops: Tops, s: Snapshot, p: string, t: string)
    requires Finished(opts, tops, s) && p in s.expanded && LeadsTo(opts, s.expanded[p], t) && t in opts.files
    ensures (p, NormalizeRepoPath(t)) in s.trace.edges && NormalizeRepoPath(t) in s.expanded
  {
    EdgesAreDeclared(opts, s.expanded[p], p, NormalizeRepoPath(t));
    ReachNext(s.trace.edges, Roots(tops), p, NormalizeRepoPath(t));
  }

  /**
    Unless something other than a cycle went wrong, every file is walked and every declared
    target is read, followed and expanded.
  */
  lemma NothingIsSkipped(opts: Options, tops: Tops, s: Snapshot, p: string)
    requires Finished(opts, tops, s) && OnlyCycles(s) && p in s.expanded
    ensures IsWalked(s.expanded[p]) || s.expanded[p].content.yaml.NotAMapping?
    ensures forall t | LeadsTo(opts, s.expanded[p], t) ::
      t in opts.files && (p, NormalizeRepoPath(t)) in s.trace.edges && NormalizeRepoPath(t) in s.expanded
  {
    var o := s.expanded[p];
    forall r | Say(r) in Script(opts, o, p) ensures r in s.reports && !IsCycle(r) {
      SaidIsReported(opts, tops, s, p, r);
    }
    if !IsWalked(o) && !o.content.yaml.NotAMapping? {
      UnwalkedIsReported(opts, o, p);
    }
    forall t | LeadsTo(opts, o, t)
      ensures t in opts.files && (p, NormalizeRepoPath(t)) in s.trace.edges && NormalizeRepoPath(t) in s.expanded
    {
      if t !in opts.files { TargetIsRead(opts, o, p, t); }
      LedToIsExpanded(opts, tops, s, p, t);
    }
  }

  lemma FinishedClean(opts: Options, tops: Tops, s: Snapshot, i: Input)
    requires Finished(opts, tops, s) && AnInput(i) in s.reports
    ensures CleanInput(i)
  {
    assert Contributed(opts, s, AnInput(i));
    var p :| p in s.expanded && Allows(opts, s.expanded[p], p, AnInput(i));
    AllowsMeans(opts, s.expanded[p], p, AnInput(i));
    ScriptIsFair(opts, s.expanded[p], p, AnInput(i));
  }
}
