/**
  Fleet prune: the reviewed roster, the preflight comparison, and every
  interleaving of prune runs over the shared set of locks.
*/
module FleetPrune {
  import opened Common

  datatype Node = Node(id: int, local: bool)

  datatype Reviewed = Reviewed(nodeId: int, reachable: bool)

  datatype ReviewedPlan = ReviewedPlan(nodeId: int, fingerprint: string)

  datatype Request = Request(reviewedNodes: seq<Reviewed>, plans: seq<ReviewedPlan>)

  /** What a node answered just before execution; `fingerprint` is none when its plan could not be rebuilt. */
  datatype Preflight = Preflight(node: Node, reachable: bool, fingerprint: Option<string>)

  datatype Conflict = RosterChanged | ReachabilityChanged(nodeId: int) | PlanFailed(nodeId: int)
    | PlanStale(nodeId: int)

  // ------------------------------------------------------------------ roster

  function NodeIds(nodes: seq<Node>): seq<int> {
    seq(|nodes|, i requires 0 <= i < |nodes| => nodes[i].id)
  }

  function ReviewedIds(rs: seq<Reviewed>): seq<int> {
    seq(|rs|, i requires 0 <= i < |rs| => rs[i].nodeId)
  }

  function PlanIds(ps: seq<ReviewedPlan>): seq<int> {
    seq(|ps|, i requires 0 <= i < |ps| => ps[i].nodeId)
  }

  function Reachable(rs: seq<Reviewed>): seq<Reviewed> {
    if rs == [] then [] else Reachable(rs[..|rs| - 1]) + if rs[|rs| - 1].reachable then [rs[|rs| - 1]] else []
  }

  ghost predicate Bounded(m: multiset<int>, x: int) {
    forall y | y in m :: y <= x
  }

  ghost predicate IsSorted(xs: seq<int>) {
    xs == [] || (IsSorted(xs[..|xs| - 1]) && Bounded(multiset(xs[..|xs| - 1]), xs[|xs| - 1]))
  }

  lemma SplitLast(init: seq<int>, last: int)
    ensures (init + [last])[..|init|] == init
    ensures multiset(init + [last]) == multiset(init) + multiset{last}
  {
  }

  function Insert(xs: seq<int>, x: int): (r: seq<int>)
    requires IsSorted(xs)
    ensures IsSorted(r) && multiset(r) == multiset(xs) + multiset{x}
  {
    if xs == [] then [x]
    else
      var init, last := xs[..|xs| - 1], xs[|xs| - 1];
      assert xs == init + [last];
      SplitLast(init, last);
      SplitLast(xs, x);
      if last <= x then xs + [x]
      else
        var r := Insert(init, x);
        SplitLast(r, last);
        r + [last]
  }

  function Sort(xs: seq<int>): (r: seq<int>)
    ensures IsSorted(r) && multiset(r) == multiset(xs)
  {
    if xs == [] then []
    else
      var init, last := xs[..|xs| - 1], xs[|xs| - 1];
      assert xs == init + [last];
      SplitLast(init, last);
      Insert(Sort(init), last)
  }

  lemma {:induction false} SortedIsUnique(a: seq<int>, b: seq<int>)
    requires IsSorted(a) && IsSorted(b) && multiset(a) == multiset(b)
    ensures a == b
    decreases |a|
  {
    assert |a| == |multiset(a)| == |multiset(b)| == |b|;
    if a != [] {
      var i, x := a[..|a| - 1], a[|a| - 1];
      var j, y := b[..|b| - 1], b[|b| - 1];
      assert a == i + [x] && b == j + [y];
      SplitLast(i, x);
      SplitLast(j, y);
      SameLast(multiset(i), x, multiset(j), y);
      SortedIsUnique(i, j);
    }
  }

  lemma SameLast(i: multiset<int>, x: int, j: multiset<int>, y: int)
    requires i + multiset{x} == j + multiset{y} && Bounded(i, x) && Bounded(j, y)
    ensures x == y && i == j
  {
    assert x in j + multiset{y} && y in i + multiset{x};
    assert i == i + multiset{x} - multiset{x} && j == j + multiset{y} - multiset{y};
  }

  lemma SortedEqual(a: seq<int>, b: seq<int>)
    ensures Sort(a) == Sort(b) <==> multiset(a) == multiset(b)
  {
    if multiset(a) == multiset(b) { SortedIsUnique(Sort(a), Sort(b)); }
  }

  /** Compares position by position. */
  method SameLists(x: seq<int>, y: seq<int>) returns (same: bool)
    ensures same <==> x == y
  {
    if |x| != |y| { return false; }
    for i := 0 to |x|
      invariant x[..i] == y[..i]
    {
      if x[i] != y[i] { return false; }
    }
    same := true;
  }

  /** Sorted lists are equal exactly when the same ids are listed equally often. */
  method SameIds(a: seq<int>, b: seq<int>) returns (same: bool)
    ensures same <==> multiset(a) == multiset(b)
  {
    SortedEqual(a, b);
    same := SameLists(Sort(a), Sort(b));
  }

  /** The current nodes are the reviewed ones, and the plans cover exactly the reachable ones. */
  ghost predicate RosterMatches(nodes: seq<Node>, request: Request) {
    && multiset(NodeIds(nodes)) == multiset(ReviewedIds(request.reviewedNodes))
    && multiset(ReviewedIds(Reachable(request.reviewedNodes))) == multiset(PlanIds(request.plans))
  }

  method ValidateReviewedRoster(nodes: seq<Node>, request: Request) returns (ok: bool)
    ensures ok <==> RosterMatches(nodes, request)
  {
    ok := SameIds(NodeIds(nodes), ReviewedIds(request.reviewedNodes));
    if !ok { return; }
    ok := SameIds(ReviewedIds(Reachable(request.reviewedNodes)), PlanIds(request.plans));
  }

  // --------------------------------------------------------------- preflight

  /** What the request parser guarantees: no node is reviewed or planned twice. */
  predicate IsParsed(request: Request) {
    IsDistinct(ReviewedIds(request.reviewedNodes)) && IsDistinct(PlanIds(request.plans))
  }

  /** Reads the reviewed nodes; none of the entries may be malformed or repeat a node. */
  method ParseReviewedNodes(entries: seq<Option<Reviewed>>) returns (r: Option<seq<Reviewed>>)
    ensures r.Some? <==>
      entries != [] && (forall i | 0 <= i < |entries| :: entries[i].Some?) && IsDistinct(EntryIds(entries))
    ensures r.Some? ==> |r.value| == |entries| && forall i | 0 <= i < |entries| :: entries[i] == Some(r.value[i])
    ensures r.Some? ==> IsDistinct(ReviewedIds(r.value))
  {
    if entries == [] { return None; }
    var parsed: seq<Reviewed> := [];
    var seen: set<int> := {};
    for i := 0 to |entries|
      invariant |parsed| == i && forall j | 0 <= j < i :: entries[j] == Some(parsed[j])
      invariant IsDistinct(ReviewedIds(parsed)) && seen == set j | 0 <= j < i :: parsed[j].nodeId
    {
      if entries[i].None? { return None; }
      var e := entries[i].value;
      if e.nodeId in seen {
        var j :| 0 <= j < i && parsed[j].nodeId == e.nodeId;
        assert EntryIds(entries)[j] == EntryIds(entries)[i];
        return None;
      }
      assert forall j | 0 <= j < i :: ReviewedIds(parsed)[j] == parsed[j].nodeId && parsed[j].nodeId in seen;
      seen := seen + {e.nodeId};
      parsed := parsed + [e];
    }
    assert forall j | 0 <= j < |entries| :: EntryIds(entries)[j] == ReviewedIds(parsed)[j];
    r := Some(parsed);
  }

  function EntryIds(entries: seq<Option<Reviewed>>): seq<int> {
    seq(|entries|, i requires 0 <= i < |entries| => if entries[i].Some? then entries[i].value.nodeId else 0)
  }

  function ReviewedById(rs: seq<Reviewed>): map<int, Reviewed> {
    if rs == [] then map[] else ReviewedById(rs[..|rs| - 1])[rs[|rs| - 1].nodeId := rs[|rs| - 1]]
  }

  function PlansById(ps: seq<ReviewedPlan>): map<int, ReviewedPlan> {
    if ps == [] then map[] else PlansById(ps[..|ps| - 1])[ps[|ps| - 1].nodeId := ps[|ps| - 1]]
  }

  lemma {:induction false} ReviewedByIdIs(rs: seq<Reviewed>, id: int, r: Reviewed)
    requires IsDistinct(ReviewedIds(rs))
    ensures id in ReviewedById(rs) && ReviewedById(rs)[id] == r <==> r in rs && r.nodeId == id
  {
    if rs != [] {
      var init, last := rs[..|rs| - 1], rs[|rs| - 1];
      assert forall i | 0 <= i < |init| :: ReviewedIds(init)[i] == ReviewedIds(rs)[i];
      ReviewedByIdIs(init, id, r);
      assert rs == init + [last];
      if r in init && r.nodeId == id {
        var i :| 0 <= i < |init| && init[i] == r;
        assert ReviewedIds(rs)[i] != ReviewedIds(rs)[|rs| - 1];
      }
    }
  }

  lemma {:induction false} PlansByIdIs(ps: seq<ReviewedPlan>, id: int, p: ReviewedPlan)
    requires IsDistinct(PlanIds(ps))
    ensures id in PlansById(ps) && PlansById(ps)[id] == p <==> p in ps && p.nodeId == id
  {
    if ps != [] {
      var init, last := ps[..|ps| - 1], ps[|ps| - 1];
      assert forall i | 0 <= i < |init| :: PlanIds(init)[i] == PlanIds(ps)[i];
      PlansByIdIs(init, id, p);
      assert ps == init + [last];
      if p in init && p.nodeId == id {
        var i :| 0 <= i < |init| && init[i] == p;
        assert PlanIds(ps)[i] != PlanIds(ps)[|ps| - 1];
      }
    }
  }

  /** The node is as it was reviewed: as reachable, and with the plan that was approved. */
  ghost predicate Agrees(e: Preflight, request: Request) {
    && Reviewed(e.node.id, e.reachable) in request.reviewedNodes
    && (e.reachable ==> e.fingerprint.Some? && ReviewedPlan(e.node.id, e.fingerprint.value) in request.plans)
  }

  ghost predicate AllAgree(preflights: seq<Preflight>, request: Request) {
    forall i | 0 <= i < |preflights| :: Agrees(preflights[i], request)
  }

  ghost predicate Explains(c: Conflict, e: Preflight, request: Request) {
    match c
    case RosterChanged => e.node.id !in ReviewedById(request.reviewedNodes)
    case ReachabilityChanged(id) => id == e.node.id && Reviewed(id, !e.reachable) in request.reviewedNodes
    case PlanFailed(id) => id == e.node.id && e.reachable && e.fingerprint.None?
    case PlanStale(id) =>
      id == e.node.id && e.reachable && e.fingerprint.Some? && ReviewedPlan(id, e.fingerprint.value) !in request.plans
  }

  /** Refuses exactly when some node is not as reviewed, and says how the first such node differs. */
  method ComparePreflight(preflights: seq<Preflight>, request: Request) returns (r: Option<Conflict>)
    requires IsParsed(request)
    ensures r.None? <==> AllAgree(preflights, request)
    ensures r.Some? ==> exists i | 0 <= i < |preflights| ::
      AllAgree(preflights[..i], request) && Explains(r.value, preflights[i], request)
  {
    var reviewedById, plansById := ReviewedById(request.reviewedNodes), PlansById(request.plans);
    for i := 0 to |preflights|
      invariant forall j | 0 <= j < i :: Agrees(preflights[j], request)
    {
      var e := preflights[i];
      var id := e.node.id;
      ReviewedByIdIs(request.reviewedNodes, id, Reviewed(id, e.reachable));
      if id !in reviewedById { return Some(RosterChanged); }
      ReviewedByIdIs(request.reviewedNodes, id, reviewedById[id]);
      if e.reachable != reviewedById[id].reachable { return Some(ReachabilityChanged(id)); }
      if reviewedById[id].reachable {
        if e.fingerprint.None? { return Some(PlanFailed(id)); }
        PlansByIdIs(request.plans, id, ReviewedPlan(id, e.fingerprint.value));
        if id !in plansById || e.fingerprint.value != plansById[id].fingerprint {
          if id in plansById { PlansByIdIs(request.plans, id, plansById[id]); }
          return Some(PlanStale(id));
        }
        PlansByIdIs(request.plans, id, plansById[id]);
      }
    }
    r := None;
  }

  function ReachableIds(rs: seq<Reviewed>): set<int> {
    set r | r in rs && r.reachable :: r.nodeId
  }

  function Executable(preflights: seq<Preflight>, reachable: set<int>): (r: seq<Node>)
    ensures forall n :: n in r <==> exists i | 0 <= i < |preflights| :: preflights[i].node == n && n.id in reachable
  {
    if preflights == [] then []
    else
      var init, last := preflights[..|preflights| - 1], preflights[|preflights| - 1];
      assert forall i | 0 <= i < |init| :: init[i] == preflights[i];
      Executable(init, reachable) + if last.node.id in reachable then [last.node] else []
  }

  // -------------------------------------------------------------------- runs

  datatype Phase = Rejected | Checking | Executing(preflights: seq<Preflight>, on: seq<Node>) | Over

  datatype Run = Run(nodes: seq<Node>, request: Request, phase: Phase)

  /** The locks, by node id; `others` are held by single-node prunes. */
  datatype State = State(locks: set<int>, others: set<int>, runs: seq<Run>)

  datatype Step =
    | Begin(nodes: seq<Node>, request: Request)
    | Answer(run: nat, preflights: seq<Preflight>)
    | Throw(run: nat)
    | Finish(run: nat)
    | TakeOther(id: int)
    | FreeOther(id: int)

  const START := State({}, {}, [])

  function LocalIds(nodes: seq<Node>): set<int> {
    set n | n in nodes && n.local :: n.id
  }

  predicate IsRunning(run: Run) {
    run.phase.Checking? || run.phase.Executing?
  }

  function Held(run: Run): set<int> {
    if IsRunning(run) then LocalIds(run.nodes) else {}
  }

  ghost predicate AnswersFor(run: Run, preflights: seq<Preflight>) {
    |preflights| == |run.nodes| && forall i | 0 <= i < |preflights| :: preflights[i].node == run.nodes[i]
  }

  ghost predicate Enabled(s: State, step: Step) {
    match step
    case Begin(_, request) => IsParsed(request)
    case Answer(r, preflights) => r < |s.runs| && s.runs[r].phase.Checking? && AnswersFor(s.runs[r], preflights)
    case Throw(r) => r < |s.runs| && IsRunning(s.runs[r])
    case Finish(r) => r < |s.runs| && s.runs[r].phase.Executing?
    case TakeOther(id) => id !in s.locks
    case FreeOther(id) => id in s.others
  }

  function Ended(s: State, r: nat): State
    requires r < |s.runs|
  {
    s.(locks := s.locks - LocalIds(s.runs[r].nodes), runs := s.runs[r := s.runs[r].(phase := Over)])
  }

  ghost function Apply(s: State, step: Step): State
    requires Enabled(s, step)
  {
    match step
    case Begin(nodes, request) =>
      if RosterMatches(nodes, request) && s.locks !! LocalIds(nodes) then
        s.(locks := s.locks + LocalIds(nodes), runs := s.runs + [Run(nodes, request, Checking)])
      else s.(runs := s.runs + [Run(nodes, request, Rejected)])
    case Answer(r, preflights) =>
      var run := s.runs[r];
      if AllAgree(preflights, run.request) then
        s.(runs := s.runs[r :=
          run.(phase := Executing(preflights, Executable(preflights, ReachableIds(run.request.reviewedNodes))))])
      else Ended(s, r)
    case Throw(r) => Ended(s, r)
    case Finish(r) => Ended(s, r)
    case TakeOther(id) => s.(locks := s.locks + {id}, others := s.others + {id})
    case FreeOther(id) => s.(locks := s.locks - {id}, others := s.others - {id})
  }

  /** A run that has begun was reviewed; one that executes was also found unchanged. */
  ghost predicate RunOk(run: Run) {
    && (IsRunning(run) ==> IsParsed(run.request) && RosterMatches(run.nodes, run.request))
    && (run.phase.Executing? ==>
          && AnswersFor(run, run.phase.preflights) && AllAgree(run.phase.preflights, run.request)
          && run.phase.on == Executable(run.phase.preflights, ReachableIds(run.request.reviewedNodes)))
  }

  ghost predicate IsHeld(s: State, id: int) {
    exists i | 0 <= i < |s.runs| :: id in Held(s.runs[i])
  }

  /** Each lock has exactly one holder: a running prune or a single-node prune. */
  ghost predicate Inv(s: State) {
    && (forall i | 0 <= i < |s.runs| :: RunOk(s.runs[i]))
    && (forall i, j | 0 <= i < j < |s.runs| :: Held(s.runs[i]) !! Held(s.runs[j]))
    && (forall i | 0 <= i < |s.runs| :: Held(s.runs[i]) !! s.others)
    && (forall id :: id in s.locks <==> id in s.others || IsHeld(s, id))
  }

  lemma LocksEnded(s: State, r: nat, id: int)
    requires Inv(s) && r < |s.runs| && IsRunning(s.runs[r])
    ensures id in Ended(s, r).locks <==> id in s.others || IsHeld(Ended(s, r), id)
  {
    var t := Ended(s, r);
    assert forall i | 0 <= i < |s.runs| :: Held(t.runs[i]) == if i == r then {} else Held(s.runs[i]);
    if id in Held(s.runs[r]) {
      forall i | 0 <= i < |t.runs| ensures id !in Held(t.runs[i]) {
        if i != r { assert if i < r then Held(s.runs[i]) !! Held(s.runs[r]) else Held(s.runs[r]) !! Held(s.runs[i]); }
      }
    } else if IsHeld(s, id) {
      var i :| 0 <= i < |s.runs| && id in Held(s.runs[i]);
      assert id in Held(t.runs[i]);
    }
  }

  lemma InvEnded(s: State, r: nat)
    requires Inv(s) && r < |s.runs| && IsRunning(s.runs[r])
    ensures Inv(Ended(s, r))
  {
    var t := Ended(s, r);
    assert forall i | 0 <= i < |s.runs| :: t.runs[i] == if i == r then s.runs[r].(phase := Over) else s.runs[i];
    forall id ensures id in t.locks <==> id in t.others || IsHeld(t, id) { LocksEnded(s, r, id); }
  }

  lemma InvBegin(s: State, run: Run)
    requires Inv(s) && RunOk(run) && s.locks !! Held(run)
    ensures Inv(s.(locks := s.locks + Held(run), runs := s.runs + [run]))
  {
    var t := s.(locks := s.locks + Held(run), runs := s.runs + [run]);
    assert t.runs[|s.runs|] == run;
    forall i, id | 0 <= i < |s.runs| && id in Held(s.runs[i]) ensures id in s.locks {
      assert IsHeld(s, id);
    }
    forall id ensures id in t.locks <==> id in t.others || IsHeld(t, id) {
      if IsHeld(s, id) {
        var i :| 0 <= i < |s.runs| && id in Held(s.runs[i]);
        assert t.runs[i] == s.runs[i];
      }
    }
  }

  /** Going on with a run keeps what it holds. */
  lemma InvRun(s: State, r: nat, run: Run)
    requires Inv(s) && r < |s.runs| && RunOk(run) && Held(run) == Held(s.runs[r])
    ensures Inv(s.(runs := s.runs[r := run]))
  {
    var t := s.(runs := s.runs[r := run]);
    assert forall i | 0 <= i < |s.runs| :: Held(t.runs[i]) == Held(s.runs[i]);
    forall id ensures IsHeld(t, id) <==> IsHeld(s, id) {
      if IsHeld(s, id) {
        var i :| 0 <= i < |s.runs| && id in Held(s.runs[i]);
        assert id in Held(t.runs[i]);
      }
    }
  }

  lemma InvOthers(s: State, id: int)
    requires Inv(s)
    ensures id !in s.locks ==> Inv(s.(locks := s.locks + {id}, others := s.others + {id}))
    ensures id in s.others ==> Inv(s.(locks := s.locks - {id}, others := s.others - {id}))
  {
    var taken := s.(locks := s.locks + {id}, others := s.others + {id});
    var freed := s.(locks := s.locks - {id}, others := s.others - {id});
    assert forall x :: IsHeld(taken, x) == IsHeld(s, x) == IsHeld(freed, x);
    if id !in s.locks {
      forall i | 0 <= i < |s.runs| ensures id !in Held(s.runs[i]) {
        if id in Held(s.runs[i]) { assert IsHeld(s, id); }
      }
    }
  }

  /** Every step keeps the invariant. */
  lemma InvStep(s: State, step: Step)
    requires Inv(s) && Enabled(s, step)
    ensures Inv(Apply(s, step))
  {
    match step
    case Begin(nodes, request) =>
      var ok := RosterMatches(nodes, request) && s.locks !! LocalIds(nodes);
      var run := Run(nodes, request, if ok then Checking else Rejected);
      InvBegin(s, run);
      assert Apply(s, step) == s.(locks := s.locks + Held(run), runs := s.runs + [run]);
    case Answer(r, preflights) =>
      var run := s.runs[r];
      if AllAgree(preflights, run.request) {
        InvRun(s, r,
          run.(phase := Executing(preflights, Executable(preflights, ReachableIds(run.request.reviewedNodes)))));
      } else {
        InvEnded(s, r);
      }
    case Throw(r) => InvEnded(s, r);
    case Finish(r) => InvEnded(s, r);
    case TakeOther(id) => InvOthers(s, id);
    case FreeOther(id) => InvOthers(s, id);
  }

  ghost predicate IsHistory(states: seq<State>, steps: seq<Step>) {
    && |states| == |steps| + 1 && states[0] == START
    && (forall i {:trigger steps[i]} | 0 <= i < |steps| ::
      Enabled(states[i], steps[i]) && states[i + 1] == Apply(states[i], steps[i]))
  }

  lemma {:induction false} HistoryInv(states: seq<State>, steps: seq<Step>, i: nat)
    requires IsHistory(states, steps) && i < |states|
    ensures Inv(states[i])
  {
    if i > 0 {
      HistoryInv(states, steps, i - 1);
      InvStep(states[i - 1], steps[i - 1]);
    }
  }

  // ---------------------------------------------------- what every history keeps

  /** Two running prunes never share a local node. */
  lemma LocalNodesAreExclusive(states: seq<State>, steps: seq<Step>, k: nat, i: nat, j: nat)
    requires IsHistory(states, steps) && k < |states| && i < |states[k].runs| && j < |states[k].runs| && i != j
    requires IsRunning(states[k].runs[i]) && IsRunning(states[k].runs[j])
    ensures LocalIds(states[k].runs[i].nodes) !! LocalIds(states[k].runs[j].nodes)
  {
    HistoryInv(states, steps, k);
    var a, b := Held(states[k].runs[i]), Held(states[k].runs[j]);
    assert if i < j then a !! b else b !! a;
  }

  /** A lock is held only for a run still going or a single-node prune: every way a run ends frees its locks. */
  lemma LocksAreReleased(states: seq<State>, steps: seq<Step>, k: nat, id: int)
    requires IsHistory(states, steps) && k < |states| && id in states[k].locks
    ensures id in states[k].others || exists i | 0 <= i < |states[k].runs| ::
      IsRunning(states[k].runs[i]) && id in LocalIds(states[k].runs[i].nodes)
  {
    HistoryInv(states, steps, k);
    if id !in states[k].others {
      assert IsHeld(states[k], id);
      var i :| 0 <= i < |states[k].runs| && id in Held(states[k].runs[i]);
      assert IsRunning(states[k].runs[i]);
    }
  }

  /** A prune executes only on an unchanged roster, with every node as reachable and every plan as reviewed. */
  lemma ExecutesOnlyAsReviewed(states: seq<State>, steps: seq<Step>, k: nat, r: nat)
    requires IsHistory(states, steps) && k < |states| && r < |states[k].runs| && states[k].runs[r].phase.Executing?
    ensures var run := states[k].runs[r];
      && multiset(NodeIds(run.nodes)) == multiset(ReviewedIds(run.request.reviewedNodes))
      && |run.phase.preflights| == |run.nodes|
      && forall i | 0 <= i < |run.nodes| ::
        run.phase.preflights[i].node == run.nodes[i] && Agrees(run.phase.preflights[i], run.request)
  {
    HistoryInv(states, steps, k);
    assert RunOk(states[k].runs[r]);
  }

  /** It executes on exactly the reviewed reachable nodes, which are exactly the planned ones. */
  lemma ExecutesExactlyReviewed(states: seq<State>, steps: seq<Step>, k: nat, r: nat, id: int)
    requires IsHistory(states, steps) && k < |states| && r < |states[k].runs| && states[k].runs[r].phase.Executing?
    ensures var run := states[k].runs[r];
      && (id in NodeIds(run.phase.on) <==> Reviewed(id, true) in run.request.reviewedNodes)
      && (id in NodeIds(run.phase.on) <==> id in PlanIds(run.request.plans))
  {
    HistoryInv(states, steps, k);
    var run := states[k].runs[r];
    assert RunOk(run);
    ReachableHas(run.request.reviewedNodes, id);
    InMultiset(PlanIds(run.request.plans), id);
    InMultiset(ReviewedIds(Reachable(run.request.reviewedNodes)), id);
    ExecutableHas(run, id);
  }

  lemma InMultiset(xs: seq<int>, x: int)
    ensures x in xs <==> x in multiset(xs)
  {
  }

  lemma {:induction false} ReachableHas(rs: seq<Reviewed>, id: int)
    ensures id in ReviewedIds(Reachable(rs)) <==> Reviewed(id, true) in rs
  {
    if rs != [] {
      var init, last := rs[..|rs| - 1], rs[|rs| - 1];
      ReachableHas(init, id);
      assert rs == init + [last];
      var more := if last.reachable then [last] else [];
      assert ReviewedIds(Reachable(rs)) == ReviewedIds(Reachable(init)) + ReviewedIds(more);
      assert ReviewedIds(more) == if last.reachable then [last.nodeId] else [];
    }
  }

  lemma ExecutableHas(run: Run, id: int)
    requires RunOk(run) && run.phase.Executing?
    ensures id in NodeIds(run.phase.on) <==> Reviewed(id, true) in run.request.reviewedNodes
  {
    var reviewed, on := run.request.reviewedNodes, run.phase.on;
    var reachable := ReachableIds(reviewed);
    if id in NodeIds(on) {
      var i :| 0 <= i < |on| && NodeIds(on)[i] == id;
      assert on[i] in on && id in reachable;
      var r :| r in reviewed && r.reachable && r.nodeId == id;
      assert r == Reviewed(id, true);
    }
    if Reviewed(id, true) in reviewed {
      var k :| 0 <= k < |reviewed| && reviewed[k] == Reviewed(id, true);
      assert ReviewedIds(reviewed)[k] == id;
      InMultiset(ReviewedIds(reviewed), id);
      InMultiset(NodeIds(run.nodes), id);
      var i :| 0 <= i < |run.nodes| && NodeIds(run.nodes)[i] == id;
      assert run.phase.preflights[i].node == run.nodes[i] && id in reachable;
      assert run.nodes[i] in on;
      var j :| 0 <= j < |on| && on[j] == run.nodes[i];
      assert NodeIds(on)[j] == id;
    }
  }

  // ---------------------------------------------------------- the shared locks

  /** The code between two suspension points of a prune runs undisturbed; each such stretch is one method. */
  class FleetPruner {
    var activeLocks: set<int>
    var runs: seq<Run>
    ghost var others: set<int>

    ghost function Now(): State
      reads this
    {
      State(activeLocks, others, runs)
    }

    constructor ()
      ensures Now() == START
    {
      activeLocks, runs, others := {}, [], {};
    }

    /** Checks the roster and the locks, and takes them all or none. */
    method BeginRun(nodes: seq<Node>, request: Request) returns (r: nat)
      requires Enabled(Now(), Begin(nodes, request))
      modifies this
      ensures Now() == Apply(old(Now()), Begin(nodes, request)) && r == |old(runs)|
    {
      r := |runs|;
      var matches := ValidateReviewedRoster(nodes, request);
      var busy := FindBusy(nodes);
      if !matches || busy {
        runs := runs + [Run(nodes, request, Rejected)];
        return;
      }
      for i := 0 to |nodes|
        invariant activeLocks == old(activeLocks) + LocalIds(nodes[..i]) && runs == old(runs) && others == old(others)
      {
        assert nodes[..i + 1] == nodes[..i] + [nodes[i]];
        if nodes[i].local { activeLocks := activeLocks + {nodes[i].id}; }
      }
      assert nodes[..|nodes|] == nodes;
      runs := runs + [Run(nodes, request, Checking)];
    }

    method FindBusy(nodes: seq<Node>) returns (busy: bool)
      ensures busy <==> !(activeLocks !! LocalIds(nodes))
    {
      for i := 0 to |nodes|
        invariant activeLocks !! LocalIds(nodes[..i])
      {
        assert nodes[..i + 1] == nodes[..i] + [nodes[i]];
        if nodes[i].local && nodes[i].id in activeLocks { return true; }
      }
      assert nodes[..|nodes|] == nodes;
      busy := false;
    }

    /** Frees every lock the run took; both a return and a thrown error pass here. */
    method EndRun(r: nat)
      requires r < |runs|
      modifies this
      ensures Now() == Ended(old(Now()), r)
    {
      var nodes := runs[r].nodes;
      for i := 0 to |nodes|
        invariant activeLocks == old(activeLocks) - LocalIds(nodes[..i]) && runs == old(runs) && others == old(others)
      {
        assert nodes[..i + 1] == nodes[..i] + [nodes[i]];
        if nodes[i].local { activeLocks := activeLocks - {nodes[i].id}; }
      }
      assert nodes[..|nodes|] == nodes;
      runs := runs[r := runs[r].(phase := Over)];
    }

    /** Compares what the nodes answered with what was reviewed: execution or the end. */
    method Preflighted(r: nat, preflights: seq<Preflight>)
      requires Inv(Now()) && Enabled(Now(), Answer(r, preflights))
      modifies this
      ensures Now() == Apply(old(Now()), Answer(r, preflights))
    {
      assert RunOk(runs[r]);
      var request := runs[r].request;
      var conflict := ComparePreflight(preflights, request);
      if conflict.Some? {
        EndRun(r);
        return;
      }
      runs := runs[r :=
        runs[r].(phase := Executing(preflights, Executable(preflights, ReachableIds(request.reviewedNodes))))];
    }
  }
}
