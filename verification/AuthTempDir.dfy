/**
  Credential directories for Docker logins: the marker is published before the
  payload and removed after it, so a crash at any point leaves no payload without
  a marker. Every state the directory passes through is kept in a trail.
*/
module AuthTempDir {
  import opened Common
  import opened CallHistory

  const LOCAL_PREFIX := "local-"
  const DELIVERED_PREFIX := "delivered-"

  /** What a child directory holds: the marker file and `config.json`. */
  datatype Child = Child(marker: bool, config: bool)

  type Dirs = map<string, Child>

  datatype Kind = Local | Delivered

  /** The kind a child's name tells. */
  function KindOf(name: string): Option<Kind> {
    if LOCAL_PREFIX <= name then Some(Local)
    else if DELIVERED_PREFIX <= name then Some(Delivered)
    else None
  }

  predicate IsTyped(name: string) {
    KindOf(name).Some?
  }

  /** A child is named after its kind and random digits, and the name tells the kind. */
  function ChildName(kind: Kind, random: string): (name: string)
    ensures KindOf(name) == Some(kind)
  {
    var prefix := if kind.Local? then LOCAL_PREFIX else DELIVERED_PREFIX;
    assert (prefix + random)[0] == prefix[0] && LOCAL_PREFIX[0] == 'l' && DELIVERED_PREFIX[0] == 'd';
    prefix + random
  }

  /** A payload is never without its marker. */
  predicate Marked(d: Dirs) {
    forall name | name in d :: d[name].config ==> d[name].marker
  }

  ghost predicate AllMarked(trail: seq<Dirs>) {
    AllGood(Marked, trail)
  }

  // --------------------------------------------------------------- removing

  /** Which calls of a removal fail although the file or directory is there. */
  datatype RemoveFaults = RemoveFaults(config: bool, marker: bool, rmdir: bool)

  function AfterConfig(c: Child, f: RemoveFaults): Child {
    c.(config := c.config && f.config)
  }

  function AfterMarker(c: Child, f: RemoveFaults): Child {
    AfterConfig(c, f).(marker := c.marker && f.marker)
  }

  /** `rmdir` refuses a directory that is not empty. */
  function AfterRmdir(d: Dirs, name: string, f: RemoveFaults): Dirs
    requires name in d
  {
    var c := AfterMarker(d[name], f);
    if f.rmdir || c.config || c.marker then d[name := c] else d - {name}
  }

  /** The states a removal passes through: payload, marker, directory. */
  function RemoveTrail(d: Dirs, name: string, f: RemoveFaults): seq<Dirs>
    requires name in d
  {
    [d[name := AfterConfig(d[name], f)], d[name := AfterMarker(d[name], f)], AfterRmdir(d, name, f)]
  }

  /** The payload stays behind while the marker goes. */
  predicate Strands(c: Child, f: RemoveFaults) {
    c.config && f.config && !f.marker
  }

  /** A removal keeps every crash point marked exactly unless the payload cannot be unlinked while the marker can. */
  lemma RemoveIsSafe(d: Dirs, name: string, f: RemoveFaults)
    requires Marked(d) && name in d
    ensures AllMarked(RemoveTrail(d, name, f)) <==> !Strands(d[name], f)
  {
    var t := RemoveTrail(d, name, f);
    if Strands(d[name], f) {
      assert name in t[1];
    }
  }

  /** So a payload without its marker is possible: a stranded payload is one. */
  lemma UnlinkFailureStrands()
    ensures exists d: Dirs, name, f :: Marked(d) && name in d && !AllMarked(RemoveTrail(d, name, f))
  {
    var d: Dirs, f := map["local-1" := Child(true, true)], RemoveFaults(true, false, false);
    RemoveIsSafe(d, "local-1", f);
  }

  // --------------------------------------------------------------- creating

  /** Where a creation fails, if it does. A failed write leaves the file it opened behind. */
  datatype CreateFault = NoFault | MkdirFails | MarkerOpenFails | MarkerWriteFails | ConfigOpenFails | ConfigWriteFails

  /** What the child holds when the creation stops. */
  function Published(fault: CreateFault): Child {
    match fault
    case NoFault => Child(true, true)
    case MkdirFails => Child(false, false)
    case MarkerOpenFails => Child(false, false)
    case MarkerWriteFails => Child(true, false)
    case ConfigOpenFails => Child(true, false)
    case ConfigWriteFails => Child(true, true)
  }

  /** The states up to that point: an empty directory, then the marker, then the payload. */
  function PublishTrail(d: Dirs, name: string, fault: CreateFault): seq<Dirs> {
    if fault == MkdirFails then []
    else
      [d[name := Child(false, false)]]
      + (if Published(fault).marker then [d[name := Child(true, false)]] else [])
      + (if Published(fault).config then [d[name := Child(true, true)]] else [])
  }

  lemma PublishIsSafe(d: Dirs, name: string, fault: CreateFault)
    requires Marked(d)
    ensures AllMarked(PublishTrail(d, name, fault))
  {
  }

  // ------------------------------------------------------------------ calls

  /** One creation, with its fault and those of its undoing, or one removal. */
  datatype Call = Made(name: string, fault: CreateFault, undo: RemoveFaults)
    | Removed(name: string, faults: RemoveFaults)

  /** A creation that stops halfway is undone. */
  predicate IsUndone(fault: CreateFault) {
    fault != NoFault && fault != MkdirFails
  }

  /** The states a call passes through; a name that is taken, or gone, is left as it is. */
  function Passed(d: Dirs, c: Call): seq<Dirs> {
    match c
    case Made(name, fault, undo) =>
      if name in d then []
      else PublishTrail(d, name, fault) + if IsUndone(fault) then RemoveTrail(d[name := Published(fault)], name, undo)
        else []
    case Removed(name, faults) => if name in d then RemoveTrail(d, name, faults) else []
  }

  function After(d: Dirs, c: Call): Dirs {
    Last(d, Passed(d, c))
  }

  /** The call unlinks a marker and fails to unlink the payload beside it. */
  predicate StrandsAt(d: Dirs, c: Call) {
    match c
    case Made(name, fault, undo) => name !in d && IsUndone(fault) && Strands(Published(fault), undo)
    case Removed(name, faults) => name in d && Strands(d[name], faults)
  }

  ghost predicate NeverStrands(d: Dirs, calls: seq<Call>) {
    Avoids(Passed, StrandsAt, d, calls)
  }

  /** An unlink fails only for a file that is not there. */
  predicate IsReliable(c: Call) {
    var f := if c.Made? then c.undo else c.faults;
    !f.config && !f.marker
  }

  lemma PublishedMarked(d: Dirs, name: string, fault: CreateFault)
    requires Marked(d)
    ensures Marked(d[name := Published(fault)])
  {
  }

  /** A call keeps every crash point marked exactly unless it strands a payload. */
  lemma CallIsSafe(d: Dirs, c: Call)
    requires Marked(d)
    ensures AllMarked(Passed(d, c)) <==> !StrandsAt(d, c)
  {
    match c
    case Made(name, fault, undo) =>
      if name !in d {
        PublishIsSafe(d, name, fault);
        if IsUndone(fault) {
          PublishedMarked(d, name, fault);
          RemoveIsSafe(d[name := Published(fault)], name, undo);
          JoinGood(Marked, PublishTrail(d, name, fault), RemoveTrail(d[name := Published(fault)], name, undo));
        } else {
          assert Passed(d, c) == PublishTrail(d, name, fault);
        }
      }
    case Removed(name, faults) =>
      if name in d { RemoveIsSafe(d, name, faults); }
  }

  /** Over any history: every crash point is marked exactly unless some call strands a payload. */
  lemma TrailIsSafe(d: Dirs, calls: seq<Call>)
    requires Marked(d)
    ensures AllMarked(Trail(Passed, d, calls)) <==> NeverStrands(d, calls)
    ensures AllMarked(Trail(Passed, d, calls)) ==> Marked(End(Passed, d, calls))
  {
    forall x, c ensures Marked(x) ==> (AllGood(Marked, Passed(x, c)) <==> !StrandsAt(x, c)) {
      if Marked(x) { CallIsSafe(x, c); }
    }
    TrailAvoids(Passed, Marked, StrandsAt, d, calls);
  }

  /** A history whose unlinks fail only for absent files keeps every crash point marked. */
  lemma ReliableIsSafe(d: Dirs, calls: seq<Call>)
    requires Marked(d) && forall c | c in calls :: IsReliable(c)
    ensures AllMarked(Trail(Passed, d, calls)) && Marked(End(Passed, d, calls))
  {
    forall i | 0 <= i < |calls| ensures !StrandsAt(End(Passed, d, calls[..i]), calls[i]) { assert calls[i] in calls; }
    TrailIsSafe(d, calls);
  }

  /** A call leaves every other child as it is. */
  lemma CallFrame(d: Dirs, c: Call, other: string)
    requires other != c.name
    ensures (other in After(d, c) <==> other in d) && (other in d ==> After(d, c)[other] == d[other])
  {
  }

  /** Where unlinks are reliable, a removal and a failed creation leave at most an empty directory. */
  lemma CallEmpties(d: Dirs, c: Call)
    requires IsReliable(c) && (c.Made? ==> c.name !in d && c.fault != NoFault)
    ensures c.name in After(d, c) ==> After(d, c)[c.name] == Child(false, false)
  {
  }

  // ----------------------------------------------------------------- sweeping

  /** The child is one a sweep removes. */
  predicate IsRemnant(d: Dirs, name: string) {
    name in d && IsTyped(name) && d[name].marker
  }

  /** The calls remove these children, one after the other. */
  ghost predicate Removes(calls: seq<Call>, names: seq<string>) {
    |calls| == |names| && forall i | 0 <= i < |names| :: calls[i].Removed? && calls[i].name == names[i]
  }

  /** The calls remove exactly the marked typed children, each once. */
  ghost predicate IsSweep(d: Dirs, calls: seq<Call>, swept: seq<string>) {
    Removes(calls, swept) && IsDistinct(swept) && forall n :: n in swept <==> IsRemnant(d, n)
  }

  /** Removing some children leaves the others as they are. */
  lemma {:induction false} RemovesFrame(d: Dirs, calls: seq<Call>, names: seq<string>, other: string)
    requires Removes(calls, names) && other !in names
    ensures (other in End(Passed, d, calls) <==> other in d)
    ensures (other in d ==> End(Passed, d, calls)[other] == d[other])
  {
    if calls != [] {
      var k := |calls| - 1;
      assert names[k] in names;
      RemovesFrame(d, calls[..k], names[..k], other);
      CallFrame(End(Passed, d, calls[..k]), calls[k], other);
    }
  }

  /** Where unlinks are reliable, each child removed is gone or empty. */
  lemma {:induction false} RemovesEmpty(d: Dirs, calls: seq<Call>, names: seq<string>, name: string)
    requires Removes(calls, names) && name in names && forall c | c in calls :: IsReliable(c)
    ensures name in End(Passed, d, calls) ==> End(Passed, d, calls)[name] == Child(false, false)
  {
    var k := |calls| - 1;
    assert calls[k] in calls;
    if name == names[k] {
      CallEmpties(End(Passed, d, calls[..k]), calls[k]);
    } else {
      RemovesEmpty(d, calls[..k], names[..k], name);
      CallFrame(End(Passed, d, calls[..k]), calls[k], name);
    }
  }

  /** After a sweep with reliable unlinks no typed child holds a payload, and nothing else has changed. */
  lemma SweepClears(d: Dirs, calls: seq<Call>, swept: seq<string>, n: string)
    requires Marked(d) && IsSweep(d, calls, swept) && forall c | c in calls :: IsReliable(c)
    ensures n in End(Passed, d, calls) && IsTyped(n) ==> !End(Passed, d, calls)[n].config
    ensures !IsRemnant(d, n) ==>
      (n in End(Passed, d, calls) <==> n in d) && (n in d ==> End(Passed, d, calls)[n] == d[n])
  {
    if n in swept {
      RemovesEmpty(d, calls, swept, n);
    } else {
      RemovesFrame(d, calls, swept, n);
    }
  }

  // -------------------------------------------------------------- the parent

  class AuthParent {
    var dirs: Dirs
    ghost var trail: seq<Dirs>

    constructor ()
      ensures dirs == map[] && trail == [map[]]
    {
      dirs, trail := map[], [map[]];
    }

    /** Unlinks the payload, then the marker, then removes the directory; failures are ignored. */
    method RemoveChildDir(name: string) returns (ghost f: RemoveFaults)
      requires name in dirs
      modifies this
      ensures dirs == AfterRmdir(old(dirs), name, f)
      ensures trail == old(trail) + RemoveTrail(old(dirs), name, f)
    {
      var c := dirs[name];
      var config: bool, marker: bool, rmdir: bool := *, *, *;
      f := RemoveFaults(config, marker, rmdir);
      if !config { c := c.(config := false); }
      dirs := dirs[name := c];
      trail := trail + [dirs];
      if !marker { c := c.(marker := false); }
      dirs := dirs[name := c];
      assert dirs == old(dirs)[name := AfterMarker(old(dirs)[name], f)];
      trail := trail + [dirs];
      if !rmdir && !c.config && !c.marker { dirs := dirs - {name}; }
      trail := trail + [dirs];
    }

    /** mkdir, then the marker, then the payload, as far as it goes. */
    method Publish(name: string) returns (ok: bool, ghost fault: CreateFault)
      requires name !in dirs
      modifies this
      ensures ok <==> fault == NoFault
      ensures trail == old(trail) + PublishTrail(old(dirs), name, fault)
      ensures dirs == if fault == MkdirFails then old(dirs) else old(dirs)[name := Published(fault)]
    {
      var works: bool := *;
      if !works { return false, MkdirFails; }
      dirs := dirs[name := Child(false, false)];
      trail := trail + [dirs];
      works := *;
      if !works { return false, MarkerOpenFails; }
      dirs := dirs[name := Child(true, false)];
      assert dirs == old(dirs)[name := Child(true, false)];
      trail := trail + [dirs];
      works := *;
      if !works { return false, MarkerWriteFails; }
      works := *;
      if !works { return false, ConfigOpenFails; }
      dirs := dirs[name := Child(true, true)];
      assert dirs == old(dirs)[name := Child(true, true)];
      trail := trail + [dirs];
      works := *;
      if !works { return false, ConfigWriteFails; }
      return true, NoFault;
    }

    /** Creates a typed child, marker before payload; on a failure the child is removed again. */
    method CreateDockerAuthTempDir(kind: Kind, random: string) returns (ok: bool, ghost call: Call)
      modifies this
      ensures call.Made? && call.name == ChildName(kind, random)
      ensures dirs == After(old(dirs), call) && trail == old(trail) + Passed(old(dirs), call)
      ensures ok <==> call.name !in old(dirs) && call.fault == NoFault
      ensures ok ==> dirs == old(dirs)[call.name := Child(true, true)]
    {
      var name := ChildName(kind, random);
      ghost var undo := RemoveFaults(false, false, false);
      if name in dirs { return false, Made(name, NoFault, undo); }
      ghost var fault;
      ok, fault := Publish(name);
      if !ok && name in dirs { undo := RemoveChildDir(name); }
      call := Made(name, fault, undo);
    }

    /** What the handle of a created child runs; the child may be gone already. */
    method Cleanup(name: string) returns (ghost call: Call)
      modifies this
      ensures call.Removed? && call.name == name
      ensures dirs == After(old(dirs), call) && trail == old(trail) + Passed(old(dirs), call)
    {
      ghost var f := RemoveFaults(false, false, false);
      if name in dirs { f := RemoveChildDir(name); }
      call := Removed(name, f);
    }

    /** Removes every marked typed child and preserves the markerless ones, unless the listing fails. */
    method Sweep() returns (complete: bool, swept: seq<string>, preserved: seq<string>, ghost calls: seq<Call>)
      modifies this
      ensures Recorded(Passed, old(dirs), old(trail), calls, dirs, trail)
      ensures if complete then IsSweep(old(dirs), calls, swept) else calls == [] && swept == preserved == []
      ensures IsDistinct(preserved)
      ensures complete ==> forall n :: n in preserved <==> n in old(dirs) && IsTyped(n) && !old(dirs)[n].marker
    {
      swept, preserved, calls := [], [], [];
      complete := *;
      if !complete { return; }
      var rest := dirs.Keys;
      ghost var start := dirs;
      while rest != {}
        invariant rest <= start.Keys && Recorded(Passed, start, old(trail), calls, dirs, trail)
        invariant Removes(calls, swept) && IsDistinct(swept) && IsDistinct(preserved)
        invariant forall n :: n in swept <==> n !in rest && IsRemnant(start, n)
        invariant forall n :: n in preserved <==> n in start && n !in rest && IsTyped(n) && !start[n].marker
      {
        var name :| name in rest;
        RemovesFrame(start, calls, swept, name);
        if IsTyped(name) {
          if !dirs[name].marker {
            preserved := preserved + [name];
          } else {
            ghost var d1, t1 := dirs, trail;
            ghost var call := Cleanup(name);
            RecordedNext(Passed, start, old(trail), calls, d1, t1, call);
            calls, swept := calls + [call], swept + [name];
          }
        }
        rest := rest - {name};
      }
    }
  }

  // ------------------------------------------------------------ whole histories

  datatype Action = Create(kind: Kind, random: string) | Clean(name: string) | SweepAll

  /** The calls an action makes on the directories it finds. */
  ghost predicate Fits(d: Dirs, action: Action, calls: seq<Call>) {
    match action
    case Create(kind, random) => |calls| == 1 && calls[0].Made? && calls[0].name == ChildName(kind, random)
    case Clean(name) => |calls| == 1 && calls[0].Removed? && calls[0].name == name
    case SweepAll => calls == [] || exists swept :: IsSweep(d, calls, swept)
  }

  ghost predicate AllFit(d: Dirs, actions: seq<Action>, calls: seq<Call>)
    decreases |actions|
  {
    if actions == [] then calls == []
    else exists k | 0 <= k <= |calls| ::
      && AllFit(d, actions[..|actions| - 1], calls[..k])
      && Fits(End(Passed, d, calls[..k]), actions[|actions| - 1], calls[k..])
  }

  lemma FitNext(d: Dirs, actions: seq<Action>, action: Action, calls: seq<Call>, more: seq<Call>)
    requires AllFit(d, actions, calls) && Fits(End(Passed, d, calls), action, more)
    ensures AllFit(d, actions + [action], calls + more)
  {
    var all, k := calls + more, |calls|;
    assert (actions + [action])[..|actions|] == actions;
    assert all[..k] == calls && all[k..] == more;
  }

  /** The actions lead from `d` and `t` to `d1` and `t1` by these calls. */
  ghost predicate Ran(d: Dirs, t: seq<Dirs>, actions: seq<Action>, calls: seq<Call>, d1: Dirs, t1: seq<Dirs>) {
    AllFit(d, actions, calls) && Recorded(Passed, d, t, calls, d1, t1)
  }

  lemma RanNext(d: Dirs, t: seq<Dirs>, actions: seq<Action>, action: Action, calls: seq<Call>, d1: Dirs,
      t1: seq<Dirs>, more: seq<Call>, d2: Dirs, t2: seq<Dirs>)
    requires Ran(d, t, actions, calls, d1, t1) && Fits(d1, action, more) && Recorded(Passed, d1, t1, more, d2, t2)
    ensures Ran(d, t, actions + [action], calls + more, d2, t2)
  {
    FitNext(d, actions, action, calls, more);
    RecordedMore(Passed, d, t, calls, d1, t1, more);
  }

  lemma RanIsSafe(d: Dirs, t: seq<Dirs>, actions: seq<Action>, calls: seq<Call>, d1: Dirs, t1: seq<Dirs>)
    requires AllMarked(t) && Marked(d) && Ran(d, t, actions, calls, d1, t1)
    ensures AllMarked(t1) <==> NeverStrands(d, calls)
  {
    JoinGood(Marked, t, Trail(Passed, d, calls));
    TrailIsSafe(d, calls);
  }

  /** One action records exactly the states its calls pass through. */
  method RunAction(parent: AuthParent, action: Action) returns (ghost calls: seq<Call>)
    modifies parent
    ensures Fits(old(parent.dirs), action, calls)
    ensures Recorded(Passed, old(parent.dirs), old(parent.trail), calls, parent.dirs, parent.trail)
  {
    ghost var call;
    match action
    case Create(kind, random) =>
      var ok;
      ok, call := parent.CreateDockerAuthTempDir(kind, random);
      RecordedOne(Passed, old(parent.dirs), old(parent.trail), call);
      calls := [call];
    case Clean(name) =>
      call := parent.Cleanup(name);
      RecordedOne(Passed, old(parent.dirs), old(parent.trail), call);
      calls := [call];
    case SweepAll =>
      var complete, swept, preserved;
      complete, swept, preserved, calls := parent.Sweep();
  }

  /**
    Whatever is created, cleaned up and swept, in whatever order: the trail grows by every state
    passed through, and all of them are marked exactly unless some removal strands a payload.
  */
  method RunActions(parent: AuthParent, actions: seq<Action>) returns (ghost calls: seq<Call>)
    requires AllMarked(parent.trail) && Marked(parent.dirs)
    modifies parent
    ensures Ran(old(parent.dirs), old(parent.trail), actions, calls, parent.dirs, parent.trail)
    ensures AllMarked(parent.trail) <==> NeverStrands(old(parent.dirs), calls)
  {
    calls := [];
    for i := 0 to |actions|
      invariant Ran(old(parent.dirs), old(parent.trail), actions[..i], calls, parent.dirs, parent.trail)
    {
      ghost var d1, t1 := parent.dirs, parent.trail;
      ghost var more := RunAction(parent, actions[i]);
      RanNext(old(parent.dirs), old(parent.trail), actions[..i], actions[i], calls, d1, t1, more, parent.dirs,
        parent.trail);
      assert actions[..i + 1] == actions[..i] + [actions[i]];
      calls := calls + more;
    }
    assert actions[..|actions|] == actions;
    RanIsSafe(old(parent.dirs), old(parent.trail), actions, calls, parent.dirs, parent.trail);
  }
}
