/**
  One hub-local build shared between the readers of a key, in every interleaving
  of reads, settlements, failures, timeouts and expiries.
*/
module BuildShare {
  import opened Common

  const READ_DEADLINE_MS := 25_000
  const SHARE_TTL_MS := 10_000
  const MAX_AGE_MS := READ_DEADLINE_MS + SHARE_TTL_MS

  /** A build. The last three fields are history the code keeps no record of. */
  datatype Entry = Entry(
    key: string, startedAt: int, settledAt: Option<int>, expiry: Option<int>, failed: bool, received: bool,
    cleared: bool)

  datatype Reader = Reader(key: string, joined: nat, kept: Option<bool>)

  /** Builds are known by their position in `entries`, which holds every build ever started. */
  datatype State = State(builds: map<string, nat>, entries: seq<Entry>, readers: seq<Reader>, clock: int)

  datatype Step =
    | Join(key: string)
    | Settle(id: nat)
    | Reject(id: nat)
    | DropFailed(id: nat)
    | Receive(reader: nat)
    | TimeOut(reader: nat)
    | Expire(id: nat)
    | Tick(ms: nat)
    | Clear

  const START := State(map[], [], [], 0)

  predicate Sane(s: State) {
    && (forall r | r in s.readers :: r.joined < |s.entries|)
    && (forall key | key in s.builds :: s.builds[key] < |s.entries|)
  }

  // ------------------------------------------------------------------ steps

  predicate Joinable(e: Entry, now: int) {
    if e.settledAt.None? then now - e.startedAt < MAX_AGE_MS else now - e.settledAt.value < SHARE_TTL_MS
  }

  /** Stops the build's timer and removes it, unless a newer build took its key. */
  function Dropped(s: State, id: nat): State
    requires id < |s.entries|
  {
    var e := s.entries[id];
    s.(entries := s.entries[id := e.(expiry := None)],
       builds := if e.key in s.builds && s.builds[e.key] == id then s.builds - {e.key} else s.builds)
  }

  function Fresh(key: string, now: int): Entry {
    Entry(key, now, None, Some(now + MAX_AGE_MS), false, false, false)
  }

  /** The build a reader of `key` is handed. */
  function JoinedId(s: State, key: string): nat
    requires Sane(s)
  {
    if key in s.builds && Joinable(s.entries[s.builds[key]], s.clock) then s.builds[key] else |s.entries|
  }

  function AfterJoin(s: State, key: string): State
    requires Sane(s)
  {
    if JoinedId(s, key) < |s.entries| then s
    else
      var t := if key in s.builds then Dropped(s, s.builds[key]) else s;
      t.(entries := t.entries + [Fresh(key, t.clock)], builds := t.builds[key := |t.entries|])
  }

  predicate IsKept(s: State, r: Reader) {
    r.key in s.builds && s.builds[r.key] == r.joined
  }

  predicate Enabled(s: State, step: Step) {
    && Sane(s)
    && match step
       case Join(_) => true
       case Settle(id) => id < |s.entries| && s.entries[id].settledAt.None? && !s.entries[id].failed
       case Reject(id) => id < |s.entries| && s.entries[id].settledAt.None? && !s.entries[id].failed
       case DropFailed(id) => id < |s.entries| && s.entries[id].failed
       case Receive(r) => r < |s.readers| && s.entries[s.readers[r].joined].settledAt.Some? && s.readers[r].kept.None?
       case TimeOut(r) => r < |s.readers| && s.readers[r].kept.None?
       case Expire(id) => id < |s.entries| && s.entries[id].expiry.Some? && s.entries[id].expiry.value <= s.clock
       case Tick(_) => true
       case Clear => true
  }

  function Cleared(s: State): (t: State)
    requires Sane(s)
    ensures |t.entries| == |s.entries|
  {
    s.(builds := map[], entries := seq(|s.entries|, i requires 0 <= i < |s.entries| => ClearedEntry(s, i, {})))
  }

  function ClearedEntry(s: State, i: nat, rest: set<string>): Entry
    requires i < |s.entries|
  {
    if IsOffered(s, i) && s.entries[i].key !in rest then s.entries[i].(expiry := None, cleared := true)
      else s.entries[i]
  }

  function Apply(s: State, step: Step): State
    requires Enabled(s, step)
  {
    match step
    case Join(key) => AfterJoin(s, key).(readers := s.readers + [Reader(key, JoinedId(s, key), None)])
    case Settle(id) =>
      var e := s.entries[id].(settledAt := Some(s.clock), expiry := Some(s.clock + SHARE_TTL_MS));
      s.(entries := s.entries[id := e])
    case Reject(id) => s.(entries := s.entries[id := s.entries[id].(failed := true)])
    case DropFailed(id) => Dropped(s, id)
    case Receive(r) =>
      var id := s.readers[r].joined;
      var t := Dropped(s, id);
      t.(entries := t.entries[id := t.entries[id].(received := true)])
    case TimeOut(r) => s.(readers := s.readers[r := s.readers[r].(kept := Some(IsKept(s, s.readers[r])))])
    case Expire(id) => Dropped(s, id)
    case Tick(ms) => s.(clock := s.clock + ms)
    case Clear => Cleared(s)
  }

  // -------------------------------------------------------------- invariants

  ghost predicate Registered(s: State, id: nat) {
    exists key | key in s.builds :: s.builds[key] == id
  }

  /** Why a build is no longer offered. */
  predicate HasLeft(e: Entry, clock: int) {
    e.settledAt.Some? || e.failed || e.cleared || e.startedAt + MAX_AGE_MS <= clock
  }

  /** The timer a build has armed: its maximum age until it settles, the share window from then on. */
  predicate TimerSet(e: Entry) {
    e.expiry.Some? ==> e.expiry.value == if e.settledAt.None? then e.startedAt + MAX_AGE_MS
      else e.settledAt.value + SHARE_TTL_MS
  }

  predicate EntryOk(e: Entry, clock: int) {
    && e.startedAt <= clock && TimerSet(e)
    && (e.settledAt.Some? ==> e.startedAt <= e.settledAt.value <= clock)
    && (e.received ==> e.settledAt.Some?)
  }

  ghost predicate Inv(s: State) {
    && Sane(s)
    && (forall i | 0 <= i < |s.entries| :: EntryOk(s.entries[i], s.clock))
    && (forall key | key in s.builds :: OfferOk(s, key))
    && (forall i | 0 <= i < |s.entries| :: IsOffered(s, i) || HasLeft(s.entries[i], s.clock))
    && (forall r | r in s.readers :: s.entries[r.joined].key == r.key)
  }

  predicate IsOffered(s: State, id: nat)
    requires id < |s.entries|
  {
    s.entries[id].key in s.builds && s.builds[s.entries[id].key] == id
  }

  predicate OfferOk(s: State, key: string)
    requires Sane(s) && key in s.builds
  {
    var e := s.entries[s.builds[key]];
    e.key == key && e.expiry.Some? && !e.received && !e.cleared
  }

  lemma InvDropped(s: State, id: nat)
    requires Inv(s) && id < |s.entries| && HasLeft(s.entries[id], s.clock)
    ensures Inv(Dropped(s, id))
  {
  }

  lemma InvJoin(s: State, key: string)
    requires Inv(s)
    ensures Inv(AfterJoin(s, key)) && JoinedId(s, key) < |AfterJoin(s, key).entries|
    ensures AfterJoin(s, key).entries[JoinedId(s, key)].key == key
  {
    if JoinedId(s, key) < |s.entries| {
      assert OfferOk(s, key);
    } else {
      var t := if key in s.builds then Dropped(s, s.builds[key]) else s;
      if key in s.builds { InvDropped(s, s.builds[key]); }
      InvFresh(t, key);
    }
  }

  /** A fresh build under a key that offers none. */
  lemma InvFresh(s: State, key: string)
    requires Inv(s) && key !in s.builds
    ensures Inv(s.(entries := s.entries + [Fresh(key, s.clock)], builds := s.builds[key := |s.entries|]))
  {
    var t := s.(entries := s.entries + [Fresh(key, s.clock)], builds := s.builds[key := |s.entries|]);
    forall i | 0 <= i < |t.entries| ensures IsOffered(t, i) || HasLeft(t.entries[i], t.clock) {
      if i < |s.entries| { assert t.entries[i] == s.entries[i] && (IsOffered(s, i) || HasLeft(s.entries[i], s.clock)); }
    }
    forall k | k in t.builds ensures OfferOk(t, k) { if k != key { assert OfferOk(s, k); } }
  }

  /** A build's record may change as long as it keeps its key, its offer and its reason for leaving. */
  lemma InvEntry(s: State, id: nat, e: Entry)
    requires Inv(s) && id < |s.entries| && EntryOk(e, s.clock) && e.key == s.entries[id].key
    requires IsOffered(s, id) ==> e.expiry.Some? && !e.received && !e.cleared
    requires HasLeft(s.entries[id], s.clock) ==> HasLeft(e, s.clock)
    ensures Inv(s.(entries := s.entries[id := e]))
  {
  }

  lemma InvReaders(s: State, readers: seq<Reader>)
    requires Inv(s) && forall r | r in readers :: r.joined < |s.entries| && s.entries[r.joined].key == r.key
    ensures Inv(s.(readers := readers))
  {
  }

  lemma InvTick(s: State, ms: nat)
    requires Inv(s)
    ensures Inv(s.(clock := s.clock + ms))
  {
    var t := s.(clock := s.clock + ms);
    forall i | 0 <= i < |t.entries| ensures IsOffered(t, i) || HasLeft(t.entries[i], t.clock) {
      assert IsOffered(s, i) || HasLeft(s.entries[i], s.clock);
    }
    forall key | key in t.builds ensures OfferOk(t, key) { assert OfferOk(s, key); }
  }

  lemma InvClear(s: State)
    requires Inv(s)
    ensures Inv(Cleared(s))
  {
    var t := Cleared(s);
    forall i | 0 <= i < |t.entries| ensures IsOffered(t, i) || HasLeft(t.entries[i], t.clock) {
      assert IsOffered(s, i) || HasLeft(s.entries[i], s.clock);
    }
  }

  lemma InvReceive(s: State, r: nat)
    requires Inv(s) && Enabled(s, Receive(r))
    ensures Inv(Apply(s, Receive(r)))
  {
    var id := s.readers[r].joined;
    InvDropped(s, id);
    var t := Dropped(s, id);
    InvEntry(t, id, t.entries[id].(received := true));
  }

  /** A build is handed out exactly until its timer is due, fired or not. */
  lemma JoinedUntilDue(s: State, key: string)
    requires Inv(s)
    ensures JoinedId(s, key) < |s.entries| <==>
      key in s.builds && s.clock < s.entries[s.builds[key]].expiry.value
    ensures key in s.builds ==> (JoinedId(s, key) == s.builds[key] <==> JoinedId(s, key) < |s.entries|)
  {
    if key in s.builds { assert OfferOk(s, key) && EntryOk(s.entries[s.builds[key]], s.clock); }
  }

  /** A rejected build is taken off offer by its own failure handler. */
  lemma RejectedIsDropped(s: State, id: nat)
    requires Inv(s) && Enabled(s, Reject(id))
    ensures var t := Apply(s, Reject(id)); Enabled(t, DropFailed(id)) && !IsOffered(Apply(t, DropFailed(id)), id)
  {
  }

  /** A reader that joined may give up, and receives once its build has settled. */
  lemma ReaderMayEnd(s: State, key: string)
    requires Inv(s)
    ensures var t := Apply(s, Join(key));
      && Enabled(t, TimeOut(|s.readers|))
      && (t.entries[JoinedId(s, key)].settledAt.Some? ==> Enabled(t, Receive(|s.readers|)))
      && (t.entries[JoinedId(s, key)].settledAt.None? && !t.entries[JoinedId(s, key)].failed ==>
        Enabled(t, Settle(JoinedId(s, key))))
  {
    InvJoin(s, key);
    JoinGrows(s, key);
  }

  lemma JoinGrows(s: State, key: string)
    requires Inv(s)
    ensures |s.entries| <= |AfterJoin(s, key).entries| && AfterJoin(s, key).readers == s.readers
    ensures forall i | 0 <= i < |s.entries| :: AfterJoin(s, key).entries[i].key == s.entries[i].key
  {
  }

  lemma InvJoinStep(s: State, key: string)
    requires Inv(s)
    ensures Inv(Apply(s, Join(key)))
  {
    InvJoin(s, key);
    JoinGrows(s, key);
    InvReaders(AfterJoin(s, key), s.readers + [Reader(key, JoinedId(s, key), None)]);
  }

  lemma InvSettle(s: State, id: nat)
    requires Inv(s) && Enabled(s, Settle(id))
    ensures Inv(Apply(s, Settle(id)))
  {
    InvEntry(s, id, s.entries[id].(settledAt := Some(s.clock), expiry := Some(s.clock + SHARE_TTL_MS)));
  }

  lemma InvReject(s: State, id: nat)
    requires Inv(s) && Enabled(s, Reject(id))
    ensures Inv(Apply(s, Reject(id)))
  {
    InvEntry(s, id, s.entries[id].(failed := true));
  }

  lemma InvTimeOut(s: State, r: nat)
    requires Inv(s) && Enabled(s, TimeOut(r))
    ensures Inv(Apply(s, TimeOut(r)))
  {
    InvReaders(s, s.readers[r := s.readers[r].(kept := Some(IsKept(s, s.readers[r])))]);
  }

  /** Every step keeps the invariant. */
  lemma InvStep(s: State, step: Step)
    requires Inv(s) && Enabled(s, step)
    ensures Inv(Apply(s, step))
  {
    match step
    case Join(key) => InvJoinStep(s, key);
    case Settle(id) => InvSettle(s, id);
    case Reject(id) => InvReject(s, id);
    case DropFailed(id) => InvDropped(s, id);
    case Receive(r) => InvReceive(s, r);
    case TimeOut(r) => InvTimeOut(s, r);
    case Expire(id) => InvDropped(s, id);
    case Tick(ms) => InvTick(s, ms);
    case Clear => InvClear(s);
  }

  // -------------------------------------------------------------------- runs

  /** A run from a state: each state follows from the one before by an enabled step. */
  ghost predicate IsRunFrom(s: State, states: seq<State>, steps: seq<Step>) {
    && |states| == |steps| + 1 && states[0] == s
    && (forall i {:trigger steps[i]} | 0 <= i < |steps| ::
      Enabled(states[i], steps[i]) && states[i + 1] == Apply(states[i], steps[i]))
  }

  ghost predicate IsRun(states: seq<State>, steps: seq<Step>) {
    IsRunFrom(START, states, steps)
  }

  lemma StepIs(states: seq<State>, steps: seq<Step>, i: nat)
    requires IsRun(states, steps) && i < |steps|
    ensures Enabled(states[i], steps[i]) && states[i + 1] == Apply(states[i], steps[i])
  {
  }

  lemma {:induction false} RunInv(states: seq<State>, steps: seq<Step>, i: nat)
    requires IsRun(states, steps) && i < |states|
    ensures Inv(states[i])
  {
    if i > 0 {
      RunInv(states, steps, i - 1);
      InvStep(states[i - 1], steps[i - 1]);
    }
  }

  /** A build that is not offered is never offered again, and keeps its record of having been received. */
  lemma GoneStaysGone(s: State, step: Step, id: nat)
    requires Inv(s) && Enabled(s, step) && id < |s.entries|
    ensures id < |Apply(s, step).entries|
    ensures !IsOffered(s, id) ==> !IsOffered(Apply(s, step), id)
    ensures s.entries[id].received ==> Apply(s, step).entries[id].received
    ensures Apply(s, step).entries[id].key == s.entries[id].key
  {
  }

  lemma GoneNext(states: seq<State>, steps: seq<Step>, j: nat, id: nat)
    requires IsRun(states, steps) && j < |steps| && id < |states[j].entries| && !IsOffered(states[j], id)
    ensures id < |states[j + 1].entries| && !IsOffered(states[j + 1], id)
  {
    RunInv(states, steps, j);
    StepIs(states, steps, j);
    GoneStaysGone(states[j], steps[j], id);
  }

  lemma {:induction false} GoneForGood(states: seq<State>, steps: seq<Step>, i: nat, j: nat, id: nat)
    requires IsRun(states, steps) && i <= j < |states| && id < |states[i].entries| && !IsOffered(states[i], id)
    ensures id < |states[j].entries| && !IsOffered(states[j], id)
  {
    if i < j {
      GoneForGood(states, steps, i, j - 1, id);
      GoneNext(states, steps, j - 1, id);
    }
  }

  /** At most one build per key is offered. */
  lemma OneBuildPerKey(states: seq<State>, steps: seq<Step>, i: nat, a: nat, b: nat)
    requires IsRun(states, steps) && i < |states| && a < |states[i].entries| && b < |states[i].entries|
    requires Registered(states[i], a) && Registered(states[i], b)
    requires states[i].entries[a].key == states[i].entries[b].key
    ensures a == b
  {
    RunInv(states, steps, i);
    var s := states[i];
    var k :| k in s.builds && s.builds[k] == a;
    var l :| l in s.builds && s.builds[l] == b;
    assert OfferOk(s, k) && OfferOk(s, l);
  }

  /**
    A build stops being offered only for a cause of its own: a step about a replaced build
    leaves the newer one alone.
  */
  lemma UnregisterCause(states: seq<State>, steps: seq<Step>, i: nat, id: nat)
    requires IsRun(states, steps) && i < |steps| && id < |states[i].entries|
    requires IsOffered(states[i], id) && !(id < |states[i + 1].entries| && IsOffered(states[i + 1], id))
    ensures match steps[i]
            case Expire(x) => x == id
            case DropFailed(x) => x == id && states[i].entries[id].failed
            case Receive(r) => states[i].readers[r].joined == id
            case Join(key) => key == states[i].entries[id].key && !Joinable(states[i].entries[id], states[i].clock)
            case Clear => true
            case _ => false
  {
    RunInv(states, steps, i);
  }

  /** Once a reader has received a build's answer, no later read joins that build. */
  lemma ReceivedIsNotJoined(states: seq<State>, steps: seq<Step>, i: nat, j: nat, r: nat, key: string)
    requires IsRun(states, steps) && i < j < |steps| && steps[i] == Receive(r) && steps[j] == Join(key)
    ensures Enabled(states[i], steps[i]) && JoinedId(states[j], key) != states[i].readers[r].joined
  {
    var id := states[i].readers[r].joined;
    RunInv(states, steps, i);
    assert !IsOffered(states[i + 1], id);
    GoneForGood(states, steps, i + 1, j, id);
    RunInv(states, steps, j);
    assert key in states[j].builds ==> OfferOk(states[j], key);
  }

  /** A timed-out read reports its build as kept exactly when the share still offers that build. */
  lemma KeptIsRegistered(states: seq<State>, steps: seq<Step>, i: nat, r: nat)
    requires IsRun(states, steps) && i < |steps| && steps[i] == TimeOut(r)
    ensures Enabled(states[i], steps[i])
    ensures states[i + 1].readers[r].kept == Some(Registered(states[i], states[i].readers[r].joined))
  {
    RunInv(states, steps, i);
    var s, reader := states[i], states[i].readers[r];
    assert reader in s.readers;
    if Registered(s, reader.joined) {
      var key :| key in s.builds && s.builds[key] == reader.joined;
      assert OfferOk(s, key);
    }
  }

  /**
    Two builds of one key that both still run, neither failed nor cleared and both below the
    maximum age, are the same build.
  */
  lemma WorkIsShared(states: seq<State>, steps: seq<Step>, i: nat, a: nat, b: nat)
    requires IsRun(states, steps) && i < |states| && a < |states[i].entries| && b < |states[i].entries|
    requires states[i].entries[a].key == states[i].entries[b].key
    requires !HasLeft(states[i].entries[a], states[i].clock) && !HasLeft(states[i].entries[b], states[i].clock)
    ensures a == b
  {
    RunInv(states, steps, i);
    assert IsOffered(states[i], a) && IsOffered(states[i], b);
  }

  // ---------------------------------------------------------- timers on time

  /** Time never passes an armed timer that has not fired. */
  ghost predicate OnTime(s: State, step: Step) {
    step.Tick? ==> forall i | 0 <= i < |s.entries| :: s.entries[i].expiry.Some? ==>
      s.clock + step.ms <= s.entries[i].expiry.value
  }

  ghost predicate Timely(s: State) {
    && (forall i | 0 <= i < |s.entries| :: s.entries[i].expiry.Some? ==> s.clock <= s.entries[i].expiry.value)
    && (forall i | 0 <= i < |s.entries| && IsOffered(s, i) && s.entries[i].settledAt.Some? ::
          s.entries[i].settledAt.value <= s.entries[i].startedAt + MAX_AGE_MS)
  }

  lemma TimelyDropped(s: State, id: nat)
    requires Inv(s) && Timely(s) && id < |s.entries|
    ensures Timely(Dropped(s, id))
  {
    var t := Dropped(s, id);
    assert forall i | 0 <= i < |t.entries| && IsOffered(t, i) :: IsOffered(s, i);
  }

  lemma TimelyJoin(s: State, key: string)
    requires Inv(s) && Timely(s)
    ensures Timely(AfterJoin(s, key))
  {
    if JoinedId(s, key) == |s.entries| && key in s.builds {
      TimelyDropped(s, s.builds[key]);
    }
  }

  lemma TimelySettle(s: State, id: nat)
    requires Inv(s) && Timely(s) && Enabled(s, Settle(id))
    ensures Timely(Apply(s, Settle(id)))
  {
    var t := Apply(s, Settle(id));
    assert forall i | 0 <= i < |t.entries| :: IsOffered(t, i) == IsOffered(s, i);
    assert IsOffered(s, id) ==> OfferOk(s, s.entries[id].key);
  }

  lemma TimelySame(s: State, t: State)
    requires Timely(s) && t.builds == s.builds && t.clock == s.clock && |t.entries| == |s.entries|
    requires forall i | 0 <= i < |s.entries| ::
      t.entries[i] == s.entries[i].(failed := t.entries[i].failed, received := t.entries[i].received)
    ensures Timely(t)
  {
    assert forall i | 0 <= i < |t.entries| :: IsOffered(t, i) == IsOffered(s, i);
  }

  lemma TimelyStep(s: State, step: Step)
    requires Inv(s) && Timely(s) && Enabled(s, step) && OnTime(s, step)
    ensures Timely(Apply(s, step))
  {
    match step
    case Join(key) =>
      TimelyJoin(s, key);
      TimelySame(AfterJoin(s, key), Apply(s, step));
    case Settle(id) => TimelySettle(s, id);
    case Reject(id) => TimelySame(s, Apply(s, step));
    case DropFailed(id) => TimelyDropped(s, id);
    case Receive(r) =>
      TimelyDropped(s, s.readers[r].joined);
      TimelySame(Dropped(s, s.readers[r].joined), Apply(s, step));
    case TimeOut(r) => TimelySame(s, Apply(s, step));
    case Expire(id) => TimelyDropped(s, id);
    case Tick(ms) => assert forall i | 0 <= i < |s.entries| :: IsOffered(Apply(s, step), i) == IsOffered(s, i);
    case Clear =>
  }

  lemma {:induction false} TimelyRun(states: seq<State>, steps: seq<Step>, i: nat)
    requires IsRun(states, steps) && i < |states| && forall k | 0 <= k < |steps| :: OnTime(states[k], steps[k])
    ensures Timely(states[i])
  {
    if i > 0 {
      RunInv(states, steps, i - 1);
      TimelyRun(states, steps, i - 1);
      StepIs(states, steps, i - 1);
      TimelyStep(states[i - 1], steps[i - 1]);
    }
  }

  /** With timers on time, a read never joins a build older than the maximum age plus the share window. */
  lemma JoinedAgeBound(states: seq<State>, steps: seq<Step>, i: nat, key: string)
    requires IsRun(states, steps) && i < |steps| && steps[i] == Join(key)
    requires forall k | 0 <= k < |steps| :: OnTime(states[k], steps[k])
    ensures Enabled(states[i], steps[i]) && JoinedId(states[i], key) < |states[i + 1].entries|
    ensures states[i].clock - states[i + 1].entries[JoinedId(states[i], key)].startedAt < MAX_AGE_MS + SHARE_TTL_MS
  {
    RunInv(states, steps, i);
    TimelyRun(states, steps, i);
    var s := states[i];
    if key in s.builds {
      assert OfferOk(s, key);
      assert IsOffered(s, s.builds[key]);
    }
  }

  /** A build that settles after `late` milliseconds. */
  function SettledLate(late: nat): State {
    var e := Fresh("hub", 0).(settledAt := Some(late), expiry := Some(late + SHARE_TTL_MS));
    State(map["hub" := 0], [e], [Reader("hub", 0, None)], late)
  }

  lemma SettlesLate(late: nat)
    ensures var s1 := Apply(START, Join("hub"));
      var s2 := Apply(s1, Tick(late));
      Enabled(s2, Settle(0)) && Apply(s2, Settle(0)) == SettledLate(late)
  {
    assert START.entries + [Fresh("hub", 0)] == [Fresh("hub", 0)];
  }

  lemma FourSteps(s: State, a: Step, b: Step, c: Step, d: Step)
    requires Enabled(s, a) && Enabled(Apply(s, a), b) && Enabled(Apply(Apply(s, a), b), c)
    requires Enabled(Apply(Apply(Apply(s, a), b), c), d)
    ensures var s1 := Apply(s, a);
      var s2 := Apply(s1, b);
      var s3 := Apply(s2, c);
      IsRunFrom(s, [s, s1, s2, s3, Apply(s3, d)], [a, b, c, d])
  {
  }

  /** A timer that fires late lets a build settle past its maximum age and be joined at any age. */
  lemma LateTimerBreaksBound(late: nat)
    requires late >= MAX_AGE_MS + SHARE_TTL_MS
    ensures exists states: seq<State>, steps: seq<Step> ::
      && IsRun(states, steps) && |steps| == 4 && steps[3] == Join("hub") && JoinedId(states[3], "hub") == 0
      && 0 < |states[3].entries| && states[3].clock - states[3].entries[0].startedAt == late
  {
    var s1 := Apply(START, Join("hub"));
    var s2 := Apply(s1, Tick(late));
    var s3 := SettledLate(late);
    SettlesLate(late);
    FourSteps(START, Join("hub"), Tick(late), Settle(0), Join("hub"));
    var states, steps := [START, s1, s2, s3, Apply(s3, Join("hub"))], [Join("hub"), Tick(late), Settle(0), Join("hub")];
    assert IsRun(states, steps);
  }

  /** A settled build keeps its times. */
  lemma SettledStays(s: State, step: Step, id: nat)
    requires Enabled(s, step) && id < |s.entries| && s.entries[id].settledAt.Some?
    ensures id < |Apply(s, step).entries|
    ensures Apply(s, step).entries[id].startedAt == s.entries[id].startedAt
    ensures Apply(s, step).entries[id].settledAt == s.entries[id].settledAt
  {
  }

  lemma {:induction false} SettledAlong(s: State, states: seq<State>, steps: seq<Step>, i: nat, id: nat)
    requires IsRunFrom(s, states, steps) && i < |states| && id < |s.entries| && s.entries[id].settledAt.Some?
    ensures id < |states[i].entries|
    ensures states[i].entries[id].startedAt == s.entries[id].startedAt
    ensures states[i].entries[id].settledAt == s.entries[id].settledAt
  {
    if i > 0 {
      SettledAlong(s, states, steps, i - 1, id);
      assert Enabled(states[i - 1], steps[i - 1]);
      SettledStays(states[i - 1], steps[i - 1], id);
    }
  }

  /** The read at this step joins the build. */
  ghost predicate JoinsAt(states: seq<State>, steps: seq<Step>, i: nat, key: string, id: nat) {
    i < |steps| && i < |states| && steps[i] == Join(key) && Sane(states[i]) && JoinedId(states[i], key) == id
  }

  /** However the run goes on, the build is joined only below the maximum age plus the share window. */
  ghost predicate JoinedInTime(s: State, key: string, id: nat)
    requires id < |s.entries|
  {
    forall states: seq<State>, steps, i: nat | IsRunFrom(s, states, steps) && JoinsAt(states, steps, i, key, id) ::
      states[i].clock - s.entries[id].startedAt < MAX_AGE_MS + SHARE_TTL_MS
  }

  lemma SettledInTime(s: State, key: string, states: seq<State>, steps: seq<Step>, i: nat)
    requires Inv(s) && key in s.builds && s.entries[s.builds[key]].settledAt.Some?
    requires s.entries[s.builds[key]].settledAt.value <= s.entries[s.builds[key]].startedAt + MAX_AGE_MS
    requires IsRunFrom(s, states, steps) && JoinsAt(states, steps, i, key, s.builds[key])
    ensures states[i].clock - s.entries[s.builds[key]].startedAt < MAX_AGE_MS + SHARE_TTL_MS
  {
    SettledAlong(s, states, steps, i, s.builds[key]);
  }

  /** Waiting until just before the share window closes breaks the bound. */
  lemma NotInTime(s: State, key: string)
    requires Inv(s) && key in s.builds && s.entries[s.builds[key]].settledAt.Some?
    requires Joinable(s.entries[s.builds[key]], s.clock)
    requires s.entries[s.builds[key]].settledAt.value > s.entries[s.builds[key]].startedAt + MAX_AGE_MS
    ensures !JoinedInTime(s, key, s.builds[key])
  {
    var end := s.entries[s.builds[key]].settledAt.value + SHARE_TTL_MS - 1;
    var t := Apply(s, Tick(end - s.clock));
    var states, steps := [s, t, Apply(t, Join(key))], [Tick(end - s.clock), Join(key)];
    assert IsRunFrom(s, states, steps) && JoinsAt(states, steps, 1, key, s.builds[key]);
  }

  /**
    A settled build meets the age bound in every continuation exactly when it settled by its
    maximum age, or is too old to be joined at all.
  */
  lemma AgeBoundExactly(s: State, key: string)
    requires Inv(s) && key in s.builds && s.entries[s.builds[key]].settledAt.Some?
    ensures var e := s.entries[s.builds[key]];
      JoinedInTime(s, key, s.builds[key]) <==> !Joinable(e, s.clock) || e.settledAt.value <= e.startedAt + MAX_AGE_MS
  {
    var e := s.entries[s.builds[key]];
    if e.settledAt.value <= e.startedAt + MAX_AGE_MS {
      forall states: seq<State>, steps, i: nat | IsRunFrom(s, states, steps)
        && JoinsAt(states, steps, i, key, s.builds[key])
        ensures states[i].clock - e.startedAt < MAX_AGE_MS + SHARE_TTL_MS { SettledInTime(s, key, states, steps, i); }
    } else if Joinable(e, s.clock) {
      NotInTime(s, key);
    } else {
      NeverJoined(s, key);
    }
  }

  lemma {:induction false} ClockGrows(s: State, states: seq<State>, steps: seq<Step>, i: nat)
    requires IsRunFrom(s, states, steps) && i < |states|
    ensures s.clock <= states[i].clock
  {
    if i > 0 {
      ClockGrows(s, states, steps, i - 1);
      assert Enabled(states[i - 1], steps[i - 1]);
    }
  }

  lemma StaysUnjoinable(s: State, key: string, states: seq<State>, steps: seq<Step>, i: nat)
    requires Inv(s) && key in s.builds && s.entries[s.builds[key]].settledAt.Some?
    requires !Joinable(s.entries[s.builds[key]], s.clock)
    requires IsRunFrom(s, states, steps) && i < |steps| && steps[i] == Join(key) && Sane(states[i])
    ensures JoinedId(states[i], key) != s.builds[key]
  {
    SettledAlong(s, states, steps, i, s.builds[key]);
    ClockGrows(s, states, steps, i);
  }

  lemma NeverJoined(s: State, key: string)
    requires Inv(s) && key in s.builds && s.entries[s.builds[key]].settledAt.Some?
    requires !Joinable(s.entries[s.builds[key]], s.clock)
    ensures forall states: seq<State>, steps, i: nat | IsRunFrom(s, states, steps) ::
      !JoinsAt(states, steps, i, key, s.builds[key])
  {
    forall states: seq<State>, steps, i: nat | IsRunFrom(s, states, steps)
      ensures !JoinsAt(states, steps, i, key, s.builds[key])
    {
      if i < |steps| && steps[i] == Join(key) && Sane(states[i]) { StaysUnjoinable(s, key, states, steps, i); }
    }
  }

  // --------------------------------------------------------------- the share

  class LocalFleetBuildShare {
    var builds: map<string, nat>
    var entries: seq<Entry>
    var readers: seq<Reader>
    var clock: int

    ghost function Now(): State
      reads this
    {
      State(builds, entries, readers, clock)
    }

    constructor ()
      ensures Now() == START
    {
      builds, entries, readers, clock := map[], [], [], 0;
    }

    /** Removes the build unless a newer one has already replaced it under its key. */
    method Drop(id: nat)
      requires id < |entries|
      modifies this
      ensures Now() == Dropped(old(Now()), id)
    {
      var key := entries[id].key;
      entries := entries[id := entries[id].(expiry := None)];
      if key in builds && builds[key] == id { builds := builds - {key}; }
    }

    /** Joins the running or unread build of the key, or starts one. */
    method JoinBuild(key: string) returns (id: nat)
      requires Sane(Now())
      modifies this
      ensures Now() == AfterJoin(old(Now()), key) && id == JoinedId(old(Now()), key)
    {
      if key in builds {
        id := builds[key];
        if Joinable(entries[id], clock) { return; }
        Drop(id);
      }
      id := |entries|;
      entries := entries + [Fresh(key, clock)];
      builds := builds[key := id];
    }

    method BeginRead(key: string) returns (reader: nat)
      requires Enabled(Now(), Join(key))
      modifies this
      ensures Now() == Apply(old(Now()), Join(key)) && reader == |old(readers)|
    {
      var id := JoinBuild(key);
      reader := |readers|;
      readers := readers + [Reader(key, id, None)];
    }

    /** The reader got the answer: the next read builds again. */
    method EndRead(reader: nat)
      requires Enabled(Now(), Receive(reader))
      modifies this
      ensures Now() == Apply(old(Now()), Receive(reader))
    {
      var id := readers[reader].joined;
      Drop(id);
      entries := entries[id := entries[id].(received := true)];
    }

    /** The reader's deadline fired; says whether asking again is cheap. */
    method GiveUp(reader: nat) returns (kept: bool)
      requires Enabled(Now(), TimeOut(reader))
      modifies this
      ensures Now() == Apply(old(Now()), TimeOut(reader)) && Now().readers[reader].kept == Some(kept)
    {
      var r := readers[reader];
      kept := r.key in builds && builds[r.key] == r.joined;
      readers := readers[reader := r.(kept := Some(kept))];
    }

    /** The build finished: its timer is armed again, for the share window. */
    method SettleBuild(id: nat)
      requires Enabled(Now(), Settle(id))
      modifies this
      ensures Now() == Apply(old(Now()), Settle(id))
    {
      entries := entries[id := entries[id].(settledAt := Some(clock))];
      entries := entries[id := entries[id].(expiry := Some(clock + SHARE_TTL_MS))];
    }

    method ExpireBuild(id: nat)
      requires Enabled(Now(), Expire(id))
      modifies this
      ensures Now() == Apply(old(Now()), Expire(id))
    {
      Drop(id);
    }

    /** Cancels the timer of every offered build and offers none. */
    method ClearBuilds()
      requires Inv(Now())
      modifies this
      ensures Now() == Apply(old(Now()), Clear)
    {
      ghost var s := Now();
      var rest := builds.Keys;
      while rest != {}
        invariant rest <= builds.Keys && builds == s.builds && readers == s.readers && clock == s.clock
        invariant |entries| == |s.entries|
        invariant forall i | 0 <= i < |entries| :: entries[i] == ClearedEntry(s, i, rest)
      {
        var key :| key in rest;
        var id := builds[key];
        assert OfferOk(s, key);
        entries := entries[id := entries[id].(expiry := None, cleared := true)];
        rest := rest - {key};
      }
      builds := map[];
      assert Now().entries == Cleared(s).entries;
    }
  }
}
