/**
  The helper that replaces the container carrying the node's Docker API. Any call may
  fail; `Allowed` says what must precede it, and each call is checked against that.
*/
module ProviderReplace {
  import opened Common

  const FIRST_PAUSE_MS := 3_000
  const RUNNING_POLL_MS := 2_000
  const ACK_POLL_MS := 2_000

  datatype Plan = Plan(
    operationId: string, providerOnly: bool, composeCopy: bool, pruneOnUpdate: bool, providerReadySeconds: nat,
    ackSeconds: nat)

  datatype Snapshot = Snapshot(id: string, name: string, image: string, networks: seq<string>)

  datatype Health = NoHealthcheck | Starting | Healthy | Unhealthy

  datatype State = State(running: bool, health: Health)

  datatype Phase = ProviderPhase | SenchoPhase | VerifyPhase

  datatype Rollback = NotAttempted | Attempted(restored: bool)

  datatype Outcome = Success | Failure(phase: Phase, rollback: Rollback)

  /** What the ack file may hold; an entry without a boolean verdict has `ok` none. */
  datatype AckFile = NoFile | AckFile(operationId: string, ok: Option<bool>)

  /** The calls a restore makes; `None` and `false` stand for a thrown error. */
  datatype Step =
    | ReadSnapshot(answer: Option<Option<Snapshot>>)
    | ListContainers(ids: Option<seq<string>>)
    | Remove(id: string, ok: bool)
    | Create(snapshot: Snapshot, joined: Option<string>, newId: Option<string>)
    | Connect(network: string, id: string, ok: bool)
    | Start(id: string, ok: bool)
    | Inspect(id: string, at: int, state: Option<State>)
    | PauseRejected
    | OutOfTime

  /** `Polls` and the events around it are stamped with the clock. */
  datatype Event =
    | Copied(ok: bool)
    | ProviderUp(answer: Option<bool>)
    | MarkerWritten(ok: bool)
    | SenchoUp(answer: Option<bool>)
    | WaitBegan(at: int)
    | Polls(at: int)
    | AckRead(file: Option<AckFile>)
    | Waited(ok: bool)
    | DeadlinePassed(at: int)
    | RestoreBegan
    | Restoring(step: Step)
    | RestoreEnded(restored: bool)
    | MarkerRemoved(ok: bool)
    | OutcomeWritten(outcome: Outcome, ok: bool)
    | Pruned(ok: bool)

  // ------------------------------------------------------------ the protocol

  /** The Compose call that recreates the provider came back, whatever it answered. */
  ghost predicate RecreateReturned(h: seq<Event>) {
    ProviderUp(Some(true)) in h || ProviderUp(Some(false)) in h
  }

  function PositiveAck(plan: Plan): Event {
    AckRead(Some(AckFile(plan.operationId, Some(true))))
  }

  /** The event makes the run a failure: a call that failed, a negative ack, a rejected pause or a passed deadline. */
  predicate IsCause(plan: Plan, e: Event) {
    match e
    case Copied(ok) => !ok
    case ProviderUp(answer) => answer != Some(true)
    case MarkerWritten(ok) => !ok
    case SenchoUp(answer) => answer != Some(true)
    case AckRead(file) => file.None? || file.value == AckFile(plan.operationId, Some(false))
    case Waited(ok) => !ok
    case DeadlinePassed(_) => true
    case OutcomeWritten(o, ok) => o.Success? && !ok
    case _ => false
  }

  ghost predicate HasCause(plan: Plan, h: seq<Event>) {
    exists e | e in h :: IsCause(plan, e)
  }

  /** A verdict of this operation, for or against. */
  predicate Decides(plan: Plan, file: AckFile) {
    file.AckFile? && file.operationId == plan.operationId && file.ok.Some?
  }

  /** The ack may be polled again: the wait has just begun, or a pause is over. */
  ghost predicate MayPoll(h: seq<Event>) {
    h != [] && (h[|h| - 1].WaitBegan? || h[|h| - 1] == Waited(true))
  }

  ghost predicate Before(plan: Plan, h: seq<Event>, at: int) {
    exists since | WaitBegan(since) in h :: at < since + plan.ackSeconds * 1000
  }

  ghost predicate NotBefore(plan: Plan, h: seq<Event>, at: int) {
    exists since | WaitBegan(since) in h :: at >= since + plan.ackSeconds * 1000
  }

  ghost predicate NoVerdict(h: seq<Event>) {
    forall o :: OutcomeWritten(o, true) !in h
  }

  ghost predicate RestoreOver(h: seq<Event>, restored: bool) {
    RestoreEnded(restored) in h && RestoreEnded(!restored) !in h
      && (MarkerRemoved(true) in h || MarkerRemoved(false) in h)
  }

  /** What a failure verdict may say after `h`. */
  ghost predicate Accounts(h: seq<Event>, phase: Phase, rollback: Rollback) {
    && (rollback.Attempted? <==> RecreateReturned(h))
    && (rollback.Attempted? ==> RestoreOver(h, rollback.restored))
    && PhaseFits(h, phase)
  }

  /** What the call `e` requires of the history `h`. */
  ghost predicate Allowed(plan: Plan, h: seq<Event>, e: Event) {
    match e
    case Copied(_) => plan.composeCopy && h == []
    case ProviderUp(_) => h == if plan.composeCopy then [Copied(true)] else []
    case MarkerWritten(_) => ProviderUp(Some(true)) in h && forall x | x in h :: x.Copied? || x.ProviderUp?
    case SenchoUp(_) =>
      !plan.providerOnly && MarkerWritten(true) in h
      && (forall x | x in h :: x.Copied? || x.ProviderUp? || x.MarkerWritten?)
    case WaitBegan(_) =>
      MarkerWritten(true) in h && (plan.providerOnly || SenchoUp(Some(true)) in h) && !HasCause(plan, h)
      && (forall x | x in h :: x.Copied? || x.ProviderUp? || x.MarkerWritten? || x.SenchoUp?)
    case Polls(at) => MayPoll(h) && Before(plan, h, at) && !HasCause(plan, h) && PositiveAck(plan) !in h
    case AckRead(_) =>
      h != [] && h[|h| - 1].Polls? && MarkerWritten(true) in h && (plan.providerOnly || SenchoUp(Some(true)) in h)
      && NoVerdict(h) && PositiveAck(plan) !in h && !HasCause(plan, h)
    case Waited(_) =>
      h != [] && h[|h| - 1].AckRead? && h[|h| - 1].file.Some? && !Decides(plan, h[|h| - 1].file.value)
      && PositiveAck(plan) !in h
    case DeadlinePassed(at) => MayPoll(h) && NotBefore(plan, h, at) && PositiveAck(plan) !in h
    case RestoreBegan => RecreateReturned(h) && RestoreBegan !in h && NoVerdict(h) && HasCause(plan, h)
    case Restoring(_) => RestoreBegan in h && forall b :: RestoreEnded(b) !in h
    case RestoreEnded(restored) =>
      RestoreBegan in h && (restored <==> EndsPutBack(h)) && (restored || EndsGivenUp(h))
      && forall b :: RestoreEnded(b) !in h
    case MarkerRemoved(_) => (exists b :: RestoreEnded(b) in h) && NoVerdict(h)
    case OutcomeWritten(o, _) =>
      && NoVerdict(h)
      && (if o.Success? then PositiveAck(plan) in h && RestoreBegan !in h && !HasCause(plan, h)
        else HasCause(plan, h) && Accounts(h, o.phase, o.rollback))
    case Pruned(_) => plan.pruneOnUpdate && OutcomeWritten(Success, true) in h
  }

  /** Passed along folded by the methods: it unfolds where `Look` is mentioned. */
  ghost predicate Obeys(plan: Plan, t: seq<Event>) {
    forall k, i | Look(k, t) && 0 <= i < |t| :: Allowed(plan, t[..i], t[i])
  }

  ghost predicate Look(k: int, t: seq<Event>) {
    true
  }

  lemma AllowedAt(plan: Plan, t: seq<Event>, i: nat)
    requires Obeys(plan, t) && i < |t|
    ensures Allowed(plan, t[..i], t[i])
  {
    assert Look(0, t);
  }

  /** A finished run returned `o`: a failure exactly where something in it is a cause of one. */
  ghost predicate Concludes(plan: Plan, t: seq<Event>, o: Outcome) {
    && (o.Failure? <==> HasCause(plan, t))
    && (forall v :: OutcomeWritten(v, true) in t ==> v == o)
    && (o.Success? ==> OutcomeWritten(Success, true) in t && RestoreBegan !in t)
    && (o.Success? && plan.pruneOnUpdate ==> Pruned(true) in t || Pruned(false) in t)
    && (o.Failure? ==>
      Accounts(t, o.phase, o.rollback) && (OutcomeWritten(o, true) in t || OutcomeWritten(o, false) in t))
    && (o.Failure? ==> (RestoreBegan in t <==> RecreateReturned(t)))
  }

  lemma ObeysMore(plan: Plan, t: seq<Event>, e: Event)
    requires Obeys(plan, t) && Allowed(plan, t, e)
    ensures Obeys(plan, t + [e])
  {
    forall i | 0 <= i < |t + [e]| ensures Allowed(plan, (t + [e])[..i], (t + [e])[i]) {
      if i < |t| {
        AllowedAt(plan, t, i);
        assert (t + [e])[..i] == t[..i];
      } else {
        assert (t + [e])[..i] == t;
      }
    }
  }

  // ------------------------------------------------------------ restore steps

  function IsReady(state: Option<State>): bool {
    state.Some? && state.value.running && (state.value.health == NoHealthcheck || state.value.health == Healthy)
  }

  /** The step failed, and with it the restore. */
  predicate StepFailed(step: Step) {
    match step
    case ReadSnapshot(answer) => answer.None? || answer.value.None?
    case ListContainers(ids) => ids.None?
    case Remove(_, ok) => !ok
    case Create(_, _, newId) => newId.None?
    case Connect(_, _, ok) => !ok
    case Start(_, ok) => !ok
    case Inspect(_, _, state) => state.Some? && state.value.health == Unhealthy
    case PauseRejected => true
    case OutOfTime => true
  }

  /** The same call, whatever it answered. */
  predicate SameCall(a: Step, b: Step) {
    match a
    case ReadSnapshot(_) => b.ReadSnapshot?
    case ListContainers(_) => b.ListContainers?
    case Remove(id, _) => b.Remove? && b.id == id
    case Create(snapshot, joined, _) => b.Create? && b.snapshot == snapshot && b.joined == joined
    case Connect(network, id, _) => b.Connect? && b.network == network && b.id == id
    case Start(id, _) => b.Start? && b.id == id
    case Inspect(id, _, _) => b.Inspect? && b.id == id
    case _ => a == b
  }

  /** The steps are the script, or stop at the first of its calls that failed. */
  ghost predicate Ran(steps: seq<Step>, script: seq<Step>, ok: bool) {
    if ok then steps == script
    else
      && 0 < |steps| <= |script| && steps[..|steps| - 1] == script[..|steps| - 1]
      && SameCall(steps[|steps| - 1], script[|steps| - 1]) && StepFailed(steps[|steps| - 1])
  }

  lemma RanBoth(a: seq<Step>, first: seq<Step>, b: seq<Step>, second: seq<Step>, ok: bool)
    requires Ran(a, first, true) && Ran(b, second, ok)
    ensures Ran(a + b, first + second, ok)
  {
    if !ok {
      var steps, script := a + b, first + second;
      assert steps[..|steps| - 1] == a + b[..|b| - 1] && script[..|steps| - 1] == first + second[..|b| - 1];
      assert steps[|steps| - 1] == b[|b| - 1] && script[|steps| - 1] == second[|b| - 1];
    }
  }

  lemma RanShort(a: seq<Step>, first: seq<Step>, second: seq<Step>)
    requires Ran(a, first, false)
    ensures Ran(a, first + second, false)
  {
    assert (first + second)[..|a| - 1] == first[..|a| - 1];
  }

  lemma RanNotReady(steps: seq<Step>, script: seq<Step>, ok: bool)
    requires Ran(steps, script, ok) && (forall step | step in script :: !step.Inspect?)
    ensures !EndsReady(Steps(steps))
  {
    if steps != [] {
      var last := steps[|steps| - 1];
      if ok { assert last in script; } else { assert script[|steps| - 1] in script; }
    }
  }

  function Removals(ids: seq<string>): seq<Step> {
    seq(|ids|, i requires 0 <= i < |ids| => Remove(ids[i], true))
  }

  function Connects(networks: seq<string>, id: string): seq<Step> {
    seq(|networks|, i requires 0 <= i < |networks| => Connect(networks[i], id, true))
  }

  function FirstNetwork(s: Snapshot): Option<string> {
    if s.networks == [] then None else Some(s.networks[0])
  }

  function ExtraNetworks(s: Snapshot): seq<string> {
    if s.networks == [] then [] else s.networks[1..]
  }

  function Dismantling(ids: seq<string>): seq<Step> {
    [ListContainers(Some(ids))] + Removals(ids)
  }

  function Assembling(s: Snapshot, newId: string): seq<Step> {
    [Create(s, FirstNetwork(s), Some(newId))] + Connects(ExtraNetworks(s), newId) + [Start(newId, true)]
  }

  /** The calls up to the readiness wait of a restore that met no error. */
  function Rebuild(s: Snapshot, ids: seq<string>, newId: string): seq<Step> {
    [ReadSnapshot(Some(Some(s)))] + (Dismantling(ids) + Assembling(s, newId))
  }

  /**
    A readiness wait: inspects that settle nothing, then one that finds the container ready, or
    the end of the wait.
  */
  ghost predicate Awaits(polls: seq<Step>, id: string, ok: bool) {
    && polls != []
    && (forall i | 0 <= i < |polls| - 1 ::
      polls[i].Inspect? && polls[i].id == id && !IsReady(polls[i].state) && !StepFailed(polls[i]))
    && var last := polls[|polls| - 1];
      && (last.Inspect? ==> last.id == id)
      && if ok then last.Inspect? && IsReady(last.state)
         else StepFailed(last) && (last.Inspect? || last.PauseRejected? || last.OutOfTime?)
  }

  /** The old container was put back: rebuilt without an error, and found ready. */
  ghost predicate PutBack(steps: seq<Step>, s: Snapshot, ids: seq<string>, newId: string) {
    var rebuild := Rebuild(s, ids, newId);
    rebuild <= steps && Awaits(steps[|rebuild|..], newId, true)
  }

  /** The restore gave up: at the first call that failed, or in the readiness wait. */
  ghost predicate GaveUp(steps: seq<Step>, s: Snapshot, ids: seq<string>, newId: string) {
    var rebuild := Rebuild(s, ids, newId);
    Ran(steps, rebuild, false) || (rebuild <= steps && Awaits(steps[|rebuild|..], newId, false))
  }

  /** The last call was an inspect that found the container ready. */
  ghost predicate EndsReady(h: seq<Event>) {
    h != [] && h[|h| - 1].Restoring? && h[|h| - 1].step.Inspect? && IsReady(h[|h| - 1].step.state)
  }

  /** The calls put the old container back. */
  ghost predicate PutsBack(calls: seq<Event>) {
    exists steps, s, ids, newId :: PutBack(steps, s, ids, newId) && calls == Steps(steps)
  }

  ghost predicate GivesUp(calls: seq<Event>) {
    exists steps, s, ids, newId :: GaveUp(steps, s, ids, newId) && calls == Steps(steps)
  }

  /** The calls since the restore began gave up for a cause. */
  ghost predicate EndsGivenUp(h: seq<Event>) {
    exists i | 0 <= i < |h| :: h[i] == RestoreBegan && GivesUp(h[i + 1..])
  }

  /** The calls since the restore began put the old container back. */
  ghost predicate EndsPutBack(h: seq<Event>) {
    exists i | 0 <= i < |h| :: h[i] == RestoreBegan && PutsBack(h[i + 1..])
  }

  lemma LastIsReady(steps: seq<Step>, s: Snapshot, ids: seq<string>, newId: string)
    requires PutBack(steps, s, ids, newId)
    ensures EndsReady(Steps(steps))
  {
    var rebuild := Rebuild(s, ids, newId);
    assert steps[|steps| - 1] == steps[|rebuild|..][|steps| - |rebuild| - 1];
  }

  lemma PutBackIsReady(calls: seq<Event>)
    requires PutsBack(calls)
    ensures EndsReady(calls)
  {
    var steps, s, ids, newId :| PutBack(steps, s, ids, newId) && calls == Steps(steps);
    LastIsReady(steps, s, ids, newId);
  }

  lemma PutBackEndsReady(h: seq<Event>)
    requires EndsPutBack(h)
    ensures EndsReady(h)
  {
    var i :| 0 <= i < |h| && h[i] == RestoreBegan && PutsBack(h[i + 1..]);
    PutBackIsReady(h[i + 1..]);
  }

  lemma EndsAsSteps(h: seq<Event>, steps: seq<Step>)
    requires EndsReady(h + [RestoreBegan] + Steps(steps))
    ensures EndsReady(Steps(steps))
  {
    var t := h + [RestoreBegan] + Steps(steps);
    assert t[|t| - 1] == if steps == [] then RestoreBegan else Steps(steps)[|steps| - 1];
  }

  lemma StepsPutBack(h: seq<Event>, steps: seq<Step>)
    requires PutsBack(Steps(steps))
    ensures EndsPutBack(h + [RestoreBegan] + Steps(steps))
  {
    var t := h + [RestoreBegan] + Steps(steps);
    assert t[|h|] == RestoreBegan && t[|h| + 1..] == Steps(steps);
  }

  lemma StepsGaveUp(h: seq<Event>, steps: seq<Step>)
    requires GivesUp(Steps(steps))
    ensures EndsGivenUp(h + [RestoreBegan] + Steps(steps))
  {
    var t := h + [RestoreBegan] + Steps(steps);
    assert t[|h|] == RestoreBegan && t[|h| + 1..] == Steps(steps);
  }

  /** A restore came to a ready container exactly when its calls put the old one back. */
  lemma ReadyIsPutBack(h: seq<Event>, steps: seq<Step>, ok: bool)
    requires ok <==> EndsReady(Steps(steps))
    requires ok ==> PutsBack(Steps(steps))
    ensures ok <==> EndsPutBack(h + [RestoreBegan] + Steps(steps))
  {
    if ok { StepsPutBack(h, steps); }
    if EndsPutBack(h + [RestoreBegan] + Steps(steps)) {
      PutBackEndsReady(h + [RestoreBegan] + Steps(steps));
      EndsAsSteps(h, steps);
    }
  }

  function Steps(steps: seq<Step>): (r: seq<Event>) {
    seq(|steps|, i requires 0 <= i < |steps| => Restoring(steps[i]))
  }

  lemma StepsOnly(h: seq<Event>, steps: seq<Step>)
    ensures forall e: Event | !e.Restoring? :: e in h + Steps(steps) <==> e in h
  {
  }

  lemma NoInspects(s: Snapshot, ids: seq<string>, newId: string)
    ensures forall step | step in Rebuild(s, ids, newId) :: !step.Inspect?
  {
  }

  lemma Awaited(s: Snapshot, ids: seq<string>, newId: string, polls: seq<Step>, ok: bool)
    requires Awaits(polls, newId, ok)
    ensures ok <==> EndsReady(Steps(Rebuild(s, ids, newId) + polls))
    ensures ok ==> PutBack(Rebuild(s, ids, newId) + polls, s, ids, newId)
    ensures !ok ==> GaveUp(Rebuild(s, ids, newId) + polls, s, ids, newId)
  {
    var rebuild := Rebuild(s, ids, newId);
    assert (rebuild + polls)[|rebuild|..] == polls;
    assert (rebuild + polls)[|rebuild| + |polls| - 1] == polls[|polls| - 1];
  }

  lemma Stopped(s: Snapshot, ids: seq<string>, newId: string, steps: seq<Step>)
    requires Ran(steps, Rebuild(s, ids, newId), false)
    ensures !EndsReady(Steps(steps)) && GaveUp(steps, s, ids, newId)
  {
    NoInspects(s, ids, newId);
    RanNotReady(steps, Rebuild(s, ids, newId), false);
  }

  /** The calls of a restore may follow one another until it ends. */
  lemma {:induction false} ObeysSteps(plan: Plan, h: seq<Event>, steps: seq<Step>)
    requires Obeys(plan, h) && RestoreBegan in h && forall b :: RestoreEnded(b) !in h
    ensures Obeys(plan, h + Steps(steps))
    ensures forall e: Event | !e.Restoring? :: e in h + Steps(steps) <==> e in h
    decreases |steps|
  {
    StepsOnly(h, steps);
    if steps == [] {
      assert h + Steps(steps) == h;
    } else {
      var last := |steps| - 1;
      ObeysSteps(plan, h, steps[..last]);
      ObeysMore(plan, h + Steps(steps[..last]), Restoring(steps[last]));
      assert h + Steps(steps) == h + Steps(steps[..last]) + [Restoring(steps[last])];
    }
  }

  ghost function Restored(h: seq<Event>, steps: seq<Step>, ok: bool): seq<Event> {
    h + [RestoreBegan] + Steps(steps) + [RestoreEnded(ok)]
  }

  lemma ObeysRestore(plan: Plan, h: seq<Event>, steps: seq<Step>, ok: bool)
    requires Obeys(plan, h) && Allowed(plan, h, RestoreBegan) && forall b :: RestoreEnded(b) !in h
    requires ok <==> EndsPutBack(h + [RestoreBegan] + Steps(steps))
    requires ok || EndsGivenUp(h + [RestoreBegan] + Steps(steps))
    ensures Obeys(plan, Restored(h, steps, ok))
  {
    ObeysMore(plan, h, RestoreBegan);
    ObeysSteps(plan, h + [RestoreBegan], steps);
    ObeysMore(plan, h + [RestoreBegan] + Steps(steps), RestoreEnded(ok));
  }

  lemma RestoredHas(h: seq<Event>, steps: seq<Step>, ok: bool)
    ensures forall e: Event | !e.Restoring? :: e in Restored(h, steps, ok) <==>
      e in h || e == RestoreBegan || e == RestoreEnded(ok)
  {
    StepsOnly(h + [RestoreBegan], steps);
  }

  /** Nothing has been restored, decided or pruned. */
  ghost predicate Quiet(h: seq<Event>) {
    forall e | e in h :: IsForward(e) || e == OutcomeWritten(Success, false)
  }

  predicate IsForward(e: Event) {
    || e.Copied? || e.ProviderUp? || e.MarkerWritten? || e.SenchoUp?
    || e.WaitBegan? || e.Polls? || e.AckRead? || e.Waited? || e.DeadlinePassed?
  }

  ghost predicate PhaseFits(h: seq<Event>, phase: Phase) {
    match phase
    case ProviderPhase => ProviderUp(Some(true)) !in h
    case SenchoPhase => SenchoUp(Some(false)) in h
    case VerifyPhase => ProviderUp(Some(true)) in h && SenchoUp(Some(false)) !in h
  }

  /** The provider was recreated and announced, and Sencho too unless it stays running. */
  ghost predicate Installed(plan: Plan, h: seq<Event>) {
    && ProviderUp(Some(true)) in h && MarkerWritten(true) in h && SenchoUp(Some(false)) !in h
    && (plan.providerOnly || SenchoUp(Some(true)) in h)
  }

  lemma RestoreKeeps(plan: Plan, h: seq<Event>, t: seq<Event>, phase: Phase, restored: bool)
    requires Quiet(h) && RecreateReturned(h) && PhaseFits(h, phase) && HasCause(plan, h)
    requires forall e: Event | !e.Restoring? :: e in t <==> e in h || e == RestoreBegan || e == RestoreEnded(restored)
    ensures RecreateReturned(t) && PhaseFits(t, phase) && NoVerdict(t) && HasCause(plan, t)
    ensures RestoreBegan in t && RestoreEnded(restored) in t && RestoreEnded(!restored) !in t
  {
    var e :| e in h && IsCause(plan, e);
    assert e in t;
  }

  lemma CauseNext(plan: Plan, h: seq<Event>, e: Event)
    ensures HasCause(plan, h + [e]) <==> HasCause(plan, h) || IsCause(plan, e)
  {
    if x :| x in h && IsCause(plan, x) { assert x in h + [e]; }
  }

  /** What polling for the ack came to so far. */
  datatype Answer = NoAnswer | Confirmed | Denied | Broken

  /** A file that cannot be read breaks the wait; one without a verdict on this operation says nothing. */
  function AnswerOf(plan: Plan, file: Option<AckFile>): Answer {
    if file.None? then Broken
    else if !Decides(plan, file.value) then NoAnswer
    else if file.value.ok.value then Confirmed
    else Denied
  }

  lemma AnswerIs(plan: Plan, file: Option<AckFile>)
    ensures AnswerOf(plan, file) == Confirmed <==> AckRead(file) == PositiveAck(plan)
    ensures AnswerOf(plan, file) == Denied || AnswerOf(plan, file) == Broken <==> IsCause(plan, AckRead(file))
  {
    if AnswerOf(plan, file) == Confirmed { assert file.value.ok == Some(true); }
    if AnswerOf(plan, file) == Denied { assert file.value.ok == Some(false); }
  }

  /** The run waits for its ack: everything is installed, and nothing restored or decided. */
  ghost predicate Waiting(plan: Plan, h: seq<Event>) {
    Obeys(plan, h) && Quiet(h) && Installed(plan, h) && NoVerdict(h)
  }

  ghost predicate Answered(plan: Plan, h: seq<Event>, answer: Answer) {
    && (answer.Confirmed? <==> PositiveAck(plan) in h)
    && (answer.Denied? || answer.Broken? <==> HasCause(plan, h))
    && (answer.NoAnswer? ==> MayPoll(h))
  }

  class Helper {
    ghost var trace: seq<Event>
    ghost var rejections: nat
    var clock: int

    constructor (now: int)
      ensures trace == [] && rejections == 0 && clock == now
    {
      trace, rejections, clock := [], 0, now;
    }

    /** Waits at least `ms`, unless the wait is rejected. */
    method Sleep(ms: nat) returns (ok: bool)
      modifies this`clock, this`rejections
      ensures clock >= old(clock) && (ok ==> clock >= old(clock) + ms)
      ensures rejections == old(rejections) + if ok then 0 else 1
    {
      var late: int := *;
      ok := *;
      clock := clock + ms + if late > 0 then late else 0;
      if !ok { rejections := rejections + 1; }
    }

    /** Some call takes its time and answers anything, a thrown error included. */
    method Call<T(0)>() returns (answer: T)
      modifies this`clock
      ensures clock >= old(clock)
    {
      var late: int := *;
      answer := *;
      clock := clock + if late > 0 then late else 0;
    }

    ghost method Record(plan: Plan, e: Event)
      requires Obeys(plan, trace) && Allowed(plan, trace, e)
      requires e.WaitBegan? || e.Polls? || e.DeadlinePassed? ==> e.at == clock
      modifies this`trace
      ensures trace == old(trace) + [e] && Obeys(plan, trace)
      ensures HasCause(plan, trace) <==> HasCause(plan, old(trace)) || IsCause(plan, e)
    {
      ObeysMore(plan, trace, e);
      CauseNext(plan, trace, e);
      trace := trace + [e];
    }

    method RemoveAll(ids: seq<string>) returns (ok: bool, ghost steps: seq<Step>)
      modifies this`clock
      ensures clock >= old(clock)
      ensures Ran(steps, Removals(ids), ok)
    {
      steps := [];
      for i := 0 to |ids|
        invariant clock >= old(clock)
        invariant steps == Removals(ids[..i])
      {
        ok := Call();
        steps := steps + [Remove(ids[i], ok)];
        if !ok {
          assert Removals(ids)[..i] == Removals(ids[..i]) == steps[..i];
          return;
        }
      }
      assert ids[..|ids|] == ids;
      ok := true;
    }

    method ConnectAll(networks: seq<string>, id: string) returns (ok: bool, ghost steps: seq<Step>)
      modifies this`clock
      ensures clock >= old(clock)
      ensures Ran(steps, Connects(networks, id), ok)
    {
      steps := [];
      for i := 0 to |networks|
        invariant clock >= old(clock)
        invariant steps == Connects(networks[..i], id)
      {
        ok := Call();
        steps := steps + [Connect(networks[i], id, ok)];
        if !ok {
          assert Connects(networks, id)[..i] == Connects(networks[..i], id) == steps[..i];
          return;
        }
      }
      assert networks[..|networks|] == networks;
      ok := true;
    }

    /** Polls until the container runs and is healthy, reports unhealthy, or the time is up. */
    method WaitReady(id: string, seconds: nat) returns (ok: bool, ghost steps: seq<Step>)
      modifies this`clock, this`rejections
      ensures clock >= old(clock)
      ensures Awaits(steps, id, ok)
      ensures forall i | 0 <= i < |steps| && steps[i].Inspect? :: steps[i].at < old(clock) + seconds * 1000
      ensures steps[|steps| - 1].OutOfTime? ==> clock >= old(clock) + seconds * 1000
      ensures rejections == old(rejections) + if steps[|steps| - 1].PauseRejected? then 1 else 0
    {
      var deadline := clock + seconds * 1000;
      steps := [];
      while clock < deadline
        invariant clock >= old(clock) && rejections == old(rejections)
        invariant forall i | 0 <= i < |steps| ::
          steps[i].Inspect? && steps[i].id == id && !IsReady(steps[i].state) && !StepFailed(steps[i])
        invariant forall i | 0 <= i < |steps| :: steps[i].at < deadline
        decreases deadline - clock
      {
        ghost var at := clock;
        var state: Option<State> := Call();
        steps := steps + [Inspect(id, at, state)];
        if IsReady(state) { return true, steps; }
        if state.Some? && state.value.health == Unhealthy { return false, steps; }
        var slept := Sleep(RUNNING_POLL_MS);
        if !slept { return false, steps + [PauseRejected]; }
      }
      return false, steps + [OutOfTime];
    }

    /** Removes whatever now holds the service. */
    method Dismantle() returns (ok: bool, ghost ids: seq<string>, ghost steps: seq<Step>)
      modifies this`clock
      ensures clock >= old(clock)
      ensures Ran(steps, Dismantling(ids), ok)
    {
      var listed: Option<seq<string>> := Call();
      steps, ids := [ListContainers(listed)], [];
      if listed.None? { return false, ids, steps; }
      ids := listed.value;
      ghost var more;
      ok, more := RemoveAll(listed.value);
      RanBoth(steps, [ListContainers(Some(ids))], more, Removals(ids), ok);
      steps := steps + more;
    }

    /** Creates the old container with its first network, joins it to the others and starts it. */
    method Assemble(s: Snapshot) returns (ok: bool, newId: string, ghost steps: seq<Step>)
      modifies this`clock
      ensures clock >= old(clock)
      ensures Ran(steps, Assembling(s, newId), ok)
    {
      newId := "";
      var created: Option<string> := Call();
      steps := [Create(s, FirstNetwork(s), created)];
      if created.None? { return false, newId, steps; }
      newId := created.value;
      ghost var creation, joins := steps, Connects(ExtraNetworks(s), newId);
      ghost var more;
      ok, more := ConnectAll(ExtraNetworks(s), newId);
      RanBoth(creation, creation, more, joins, ok);
      steps := creation + more;
      if !ok {
        RanShort(steps, creation + joins, [Start(newId, true)]);
        return;
      }
      ok := Call();
      RanBoth(steps, creation + joins, [Start(newId, ok)], [Start(newId, true)], ok);
      steps := steps + [Start(newId, ok)];
    }

    /** Recreates the old container from its snapshot and waits for it. */
    method Recreate(plan: Plan, s: Snapshot)
      returns (ok: bool, ghost ids: seq<string>, ghost newId: string, ghost steps: seq<Step>)
      modifies this`clock, this`rejections
      ensures clock >= old(clock)
      ensures var all := [ReadSnapshot(Some(Some(s)))] + steps;
        && (ok <==> EndsReady(Steps(all)))
        && (if ok then PutBack(all, s, ids, newId) else GaveUp(all, s, ids, newId))
    {
      newId := "";
      ok, ids, steps := Dismantle();
      ghost var read := [ReadSnapshot(Some(Some(s)))];
      if !ok {
        RanShort(steps, Dismantling(ids), Assembling(s, newId));
        RanBoth(read, read, steps, Dismantling(ids) + Assembling(s, newId), ok);
        Stopped(s, ids, newId, read + steps);
        return;
      }
      ghost var removal, more := steps, [];
      var made;
      ok, made, more := Assemble(s);
      newId := made;
      steps := removal + more;
      RanBoth(removal, Dismantling(ids), more, Assembling(s, newId), ok);
      RanBoth(read, read, steps, Dismantling(ids) + Assembling(s, newId), ok);
      if !ok {
        Stopped(s, ids, newId, read + steps);
        return;
      }
      ghost var polls;
      ok, polls := WaitReady(made, plan.providerReadySeconds);
      Awaited(s, ids, newId, polls, ok);
      assert read + (steps + polls) == Rebuild(s, ids, newId) + polls;
      steps := steps + polls;
    }

    method TryRestore(plan: Plan) returns (ok: bool, ghost steps: seq<Step>)
      modifies this`clock, this`rejections
      ensures clock >= old(clock)
      ensures ok <==> EndsReady(Steps(steps))
      ensures if ok then PutsBack(Steps(steps)) else GivesUp(Steps(steps))
    {
      var read: Option<Option<Snapshot>> := Call();
      steps := [ReadSnapshot(read)];
      if read.None? || read.value.None? {
        ghost var any := Snapshot("", "", "", []);
        assert Ran(steps, Rebuild(any, [], ""), false);
        Stopped(any, [], "", steps);
        return false, steps;
      }
      ghost var ids, newId, more;
      ok, ids, newId, more := Recreate(plan, read.value.value);
      steps := steps + more;
      assert ok ==> PutBack(steps, read.value.value, ids, newId);
      assert !ok ==> GaveUp(steps, read.value.value, ids, newId);
    }

    /** Puts the snapshot back; true exactly when every call worked and the old container came up ready. */
    method RestoreProvider(plan: Plan) returns (ok: bool, ghost steps: seq<Step>)
      requires Obeys(plan, trace) && Allowed(plan, trace, RestoreBegan) && forall b :: RestoreEnded(b) !in trace
      modifies this
      ensures Obeys(plan, trace) && trace == Restored(old(trace), steps, ok)
      ensures ok <==> EndsReady(Steps(steps))
      ensures if ok then PutsBack(Steps(steps)) else GivesUp(Steps(steps))
    {
      ok, steps := TryRestore(plan);
      ReadyIsPutBack(trace, steps, ok);
      if !ok { StepsGaveUp(trace, steps); }
      ObeysRestore(plan, trace, steps, ok);
      trace := Restored(trace, steps, ok);
    }

    /** Writes the outcome file; a failed write is only logged. */
    method PublishOutcome(plan: Plan, o: Outcome)
      requires Obeys(plan, trace) && Allowed(plan, trace, OutcomeWritten(o, true)) && o.Failure?
      requires RestoreBegan in trace <==> RecreateReturned(trace)
      modifies this
      ensures Obeys(plan, trace) && Concludes(plan, trace, o)
    {
      var ok: bool := Call();
      assert Allowed(plan, trace, OutcomeWritten(o, ok));
      Record(plan, OutcomeWritten(o, ok));
    }

    /** The restore of a failed run, and what it leaves of the run's history. */
    method Rollback(plan: Plan, ghost phase: Phase) returns (restored: bool)
      requires Obeys(plan, trace) && Quiet(trace) && RecreateReturned(trace) && PhaseFits(trace, phase)
      requires HasCause(plan, trace)
      modifies this
      ensures Obeys(plan, trace) && RecreateReturned(trace) && PhaseFits(trace, phase) && NoVerdict(trace)
      ensures HasCause(plan, trace)
      ensures RestoreBegan in trace && RestoreEnded(restored) in trace && RestoreEnded(!restored) !in trace
    {
      ghost var steps, before := [], trace;
      restored, steps := RestoreProvider(plan);
      RestoredHas(before, steps, restored);
      RestoreKeeps(plan, before, trace, phase, restored);
    }

    /** Restores the previous endpoint, takes the marker away and records the failure. */
    method Fail(plan: Plan, phase: Phase) returns (o: Outcome)
      requires Obeys(plan, trace) && Quiet(trace) && RecreateReturned(trace) && PhaseFits(trace, phase)
      requires HasCause(plan, trace)
      modifies this
      ensures Obeys(plan, trace) && Concludes(plan, trace, o) && o.Failure?
    {
      var restored := Rollback(plan, phase);
      var removed: bool := Call();
      Record(plan, MarkerRemoved(removed));
      o := Failure(phase, Attempted(restored));
      PublishOutcome(plan, o);
    }

    /** Waits for the ack and decides the outcome from it. */
    method AwaitAck(plan: Plan) returns (o: Outcome)
      requires Obeys(plan, trace) && Allowed(plan, trace, WaitBegan(clock)) && Installed(plan, trace)
      modifies this
      ensures Obeys(plan, trace) && Concludes(plan, trace, o)
    {
      Record(plan, WaitBegan(clock));
      ghost var since := clock;
      var deadline := clock + plan.ackSeconds * 1000;
      var answer := NoAnswer;
      while answer.NoAnswer? && clock < deadline
        invariant Waiting(plan, trace) && WaitBegan(since) in trace && deadline == since + plan.ackSeconds * 1000
        invariant Answered(plan, trace, answer)
        decreases if answer.NoAnswer? then 1 else 0, deadline - clock
      {
        answer := Poll(plan, since);
      }
      if answer.NoAnswer? { Record(plan, DeadlinePassed(clock)); }
      if !answer.Confirmed? {
        o := Fail(plan, VerifyPhase);
        return;
      }
      o := Conclude(plan);
    }

    /** Reads the ack file once, and pauses unless it decides. */
    method Poll(plan: Plan, ghost since: int) returns (answer: Answer)
      requires Waiting(plan, trace) && Answered(plan, trace, NoAnswer)
      requires WaitBegan(since) in trace && clock < since + plan.ackSeconds * 1000
      modifies this
      ensures Waiting(plan, trace) && WaitBegan(since) in trace && Answered(plan, trace, answer)
      ensures answer.NoAnswer? ==> clock > old(clock)
    {
      Record(plan, Polls(clock));
      answer := ReadAck(plan);
      if answer.NoAnswer? {
        var slept := Sleep(ACK_POLL_MS);
        Record(plan, Waited(slept));
        if !slept { answer := Broken; }
      }
    }

    /** What the ack file says of this operation; none unless it has a verdict. */
    method ReadAck(plan: Plan) returns (answer: Answer)
      requires Waiting(plan, trace) && Allowed(plan, trace, AckRead(None))
      modifies this
      ensures Waiting(plan, trace) && clock >= old(clock)
      ensures exists file :: trace == old(trace) + [AckRead(file)] && AnswerOf(plan, file) == answer
      ensures answer.Confirmed? <==> PositiveAck(plan) in trace
      ensures answer.Denied? || answer.Broken? <==> HasCause(plan, trace)
    {
      var file: Option<AckFile> := Call();
      assert Allowed(plan, trace, AckRead(file));
      Record(plan, AckRead(file));
      AnswerIs(plan, file);
      if file.None? { return Broken; }
      if !file.value.AckFile? || file.value.operationId != plan.operationId || file.value.ok.None? { return NoAnswer; }
      answer := if file.value.ok.value then Confirmed else Denied;
    }

    /** Makes the success verdict durable, and prunes only then. */
    method Conclude(plan: Plan) returns (o: Outcome)
      requires Obeys(plan, trace) && Quiet(trace) && Installed(plan, trace) && PositiveAck(plan) in trace
      requires NoVerdict(trace) && !HasCause(plan, trace)
      modifies this
      ensures Obeys(plan, trace) && Concludes(plan, trace, o)
    {
      var written: bool := Call();
      Record(plan, OutcomeWritten(Success, written));
      if !written {
        o := Fail(plan, VerifyPhase);
        return;
      }
      if plan.pruneOnUpdate {
        var pruned: bool := Call();
        Record(plan, Pruned(pruned));
      }
      o := Success;
    }

    /** Announces the new provider, recreates Sencho unless it stays running, and waits. */
    method Verify(plan: Plan) returns (o: Outcome)
      requires Obeys(plan, trace) && ProviderUp(Some(true)) in trace && !HasCause(plan, trace)
      requires forall e | e in trace :: e.Copied? || e.ProviderUp?
      modifies this
      ensures Obeys(plan, trace) && Concludes(plan, trace, o)
    {
      var marked: bool := Call();
      Record(plan, MarkerWritten(marked));
      if !marked {
        o := Fail(plan, VerifyPhase);
        return;
      }
      if !plan.providerOnly {
        var up: Option<bool> := Call();
        Record(plan, SenchoUp(up));
        if up.None? {
          o := Fail(plan, VerifyPhase);
          return;
        }
        if !up.value {
          assert up == Some(false);
          o := Fail(plan, SenchoPhase);
          return;
        }
        assert up == Some(true);
      }
      o := AwaitAck(plan);
    }

    /** The whole replacement. `None` is the one run that throws: its first pause was rejected. */
    method ReplaceProvider(plan: Plan) returns (r: Option<Outcome>)
      requires trace == []
      modifies this
      ensures Obeys(plan, trace)
      ensures r.None? ==> trace == [] && rejections == old(rejections) + 1
      ensures r.Some? ==> Concludes(plan, trace, r.value)
    {
      var slept := Sleep(FIRST_PAUSE_MS);
      if !slept { return None; }
      var notStarted := Failure(ProviderPhase, NotAttempted);
      if plan.composeCopy {
        var copied: bool := Call();
        Record(plan, Copied(copied));
        if !copied {
          PublishOutcome(plan, notStarted);
          return Some(notStarted);
        }
      }
      var up: Option<bool> := Call();
      Record(plan, ProviderUp(up));
      var o;
      if up.None? {
        PublishOutcome(plan, notStarted);
        o := notStarted;
      } else if !up.value {
        o := Fail(plan, ProviderPhase);
      } else {
        o := Verify(plan);
      }
      r := Some(o);
    }
  }

  // ------------------------------------------------- what every run guarantees

  /** Success means a matching positive ack was read, and read before the verdict became durable. */
  lemma SuccessIsAcked(plan: Plan, t: seq<Event>, ok: bool, j: nat)
    requires Obeys(plan, t) && j < |t| && t[j] == OutcomeWritten(Success, ok)
    ensures exists i, k | 0 <= i < k < j :: t[i] == ProviderUp(Some(true)) && t[k] == PositiveAck(plan)
  {
    AllowedAt(plan, t, j);
    var k :| 0 <= k < j && t[..j][k] == PositiveAck(plan);
    AckFollowsInstall(plan, t, k);
  }

  /** No ack is read before the provider was recreated and the marker written. */
  lemma AckFollowsInstall(plan: Plan, t: seq<Event>, k: nat)
    requires Obeys(plan, t) && k < |t| && t[k].AckRead?
    ensures exists i, m | 0 <= i < m < k :: t[i] == ProviderUp(Some(true)) && t[m] == MarkerWritten(true)
  {
    AllowedAt(plan, t, k);
    var m :| 0 <= m < k && t[..k][m] == MarkerWritten(true);
    AllowedAt(plan, t, m);
    var i :| 0 <= i < m && t[..m][i] == ProviderUp(Some(true));
    assert t[i] == ProviderUp(Some(true)) && t[m] == MarkerWritten(true);
  }

  /** At most one outcome write takes effect, and nothing is written after it. */
  lemma OneVerdict(plan: Plan, t: seq<Event>, i: nat, j: nat)
    requires Obeys(plan, t) && i < j < |t| && t[i].OutcomeWritten? && t[i].ok
    ensures !t[j].OutcomeWritten? && !t[j].RestoreBegan? && !t[j].MarkerRemoved? && !t[j].AckRead?
  {
    AllowedAt(plan, t, j);
    assert t[..j][i] == OutcomeWritten(t[i].outcome, true);
    assert OutcomeWritten(t[i].outcome, true) in t[..j];
  }

  /** Pruning happens only after the success verdict is durable, and never in a run that restores. */
  lemma PruneAfterVerdict(plan: Plan, t: seq<Event>, j: nat)
    requires Obeys(plan, t) && j < |t| && t[j].Pruned?
    ensures exists i | 0 <= i < j :: t[i] == OutcomeWritten(Success, true)
    ensures forall k | 0 <= k < |t| :: !t[k].RestoreBegan?
  {
    AllowedAt(plan, t, j);
    var i :| 0 <= i < j && t[..j][i] == OutcomeWritten(Success, true);
    forall k | 0 <= k < |t| ensures !t[k].RestoreBegan? {
      if i < k {
        OneVerdict(plan, t, i, k);
      } else {
        AllowedAt(plan, t, i);
        assert k < i ==> t[k] == t[..i][k];
      }
    }
  }

  lemma RestoreHasBegun(plan: Plan, t: seq<Event>, b: nat)
    requires Obeys(plan, t) && b < |t| && t[b].RestoreEnded?
    ensures exists a | 0 <= a < b :: t[a] == RestoreBegan
  {
    AllowedAt(plan, t, b);
    var a :| 0 <= a < b && t[..b][a] == RestoreBegan;
    assert t[a] == RestoreBegan;
  }

  lemma MarkerGoesAfter(plan: Plan, t: seq<Event>, c: nat)
    requires Obeys(plan, t) && c < |t| && t[c].MarkerRemoved?
    ensures exists b | 0 <= b < c :: t[b].RestoreEnded?
  {
    AllowedAt(plan, t, c);
    var restored :| RestoreEnded(restored) in t[..c];
    var b :| 0 <= b < c && t[..c][b] == RestoreEnded(restored);
    assert t[b].RestoreEnded?;
  }

  lemma VerdictAccounts(plan: Plan, t: seq<Event>, o: Outcome, j: nat)
    requires Obeys(plan, t) && j < |t| && t[j] == OutcomeWritten(o, true) && o.Failure? && o.rollback.Attempted?
    ensures exists c | 0 <= c < j :: t[c].MarkerRemoved?
    ensures forall b | 0 <= b < j && t[b].RestoreEnded? :: t[b] == RestoreEnded(o.rollback.restored)
  {
    AllowedAt(plan, t, j);
    var c :| 0 <= c < j && t[..j][c].MarkerRemoved?;
    assert t[c].MarkerRemoved?;
    forall b | 0 <= b < j && t[b].RestoreEnded? ensures t[b] == RestoreEnded(o.rollback.restored) { InPrefix(t, b, j); }
  }

  /** A failure verdict that reports a rollback is written after that rollback, and reports how it ended. */
  lemma FailureIsAccounted(plan: Plan, t: seq<Event>, o: Outcome, j: nat)
    requires Obeys(plan, t) && j < |t| && t[j] == OutcomeWritten(o, true) && o.Failure? && o.rollback.Attempted?
    ensures exists a, b, c | 0 <= a < b < c < j ::
      t[a] == RestoreBegan && t[b] == RestoreEnded(o.rollback.restored) && t[c].MarkerRemoved?
  {
    VerdictAccounts(plan, t, o, j);
    var c :| 0 <= c < j && t[c].MarkerRemoved?;
    MarkerGoesAfter(plan, t, c);
    var b :| 0 <= b < c && t[b].RestoreEnded?;
    RestoreHasBegun(plan, t, b);
    var a :| 0 <= a < b && t[a] == RestoreBegan;
    assert t[a] == RestoreBegan && t[b] == RestoreEnded(o.rollback.restored) && t[c].MarkerRemoved?;
  }

  lemma NoLaterRestore(plan: Plan, t: seq<Event>, i: nat, k: nat)
    requires Obeys(plan, t) && i < k < |t| && t[i] == RestoreBegan
    ensures t[k] != RestoreBegan
  {
    AllowedAt(plan, t, k);
    assert t[..k][i] == RestoreBegan;
  }

  lemma RestoresOnce(plan: Plan, t: seq<Event>)
    requires Obeys(plan, t)
    ensures forall i, k | 0 <= i < k < |t| && t[i] == RestoreBegan :: t[k] != RestoreBegan
  {
    forall i, k | 0 <= i < k < |t| && t[i] == RestoreBegan ensures t[k] != RestoreBegan {
      NoLaterRestore(plan, t, i, k);
    }
  }

  /**
    A restore is reported as done exactly when the calls since it began rebuilt the snapshot and
    found it ready, and otherwise gave up at a call that failed or in the readiness wait.
  */
  lemma ReportedRestoreIsPutBack(plan: Plan, t: seq<Event>, restored: bool, i: nat, j: nat)
    requires Obeys(plan, t) && i < j < |t| && t[i] == RestoreBegan && t[j] == RestoreEnded(restored)
    ensures restored <==> PutsBack(t[i + 1..j])
    ensures restored || GivesUp(t[i + 1..j])
  {
    AllowedAt(plan, t, j);
    RestoresOnce(plan, t);
    var h := t[..j];
    assert h[i] == RestoreBegan && h[i + 1..] == t[i + 1..j];
    OneBegan(t, i, j);
  }

  /** Where a restore begins once, what ends with it is what follows it. */
  lemma OneBegan(t: seq<Event>, i: nat, j: nat)
    requires i < j <= |t| && t[i] == RestoreBegan
    requires forall x, k | 0 <= x < k < |t| && t[x] == RestoreBegan :: t[k] != RestoreBegan
    ensures EndsPutBack(t[..j]) <==> PutsBack(t[i + 1..j])
    ensures EndsGivenUp(t[..j]) <==> GivesUp(t[i + 1..j])
  {
    var h := t[..j];
    assert forall k | 0 <= k < |h| && h[k] == RestoreBegan :: k == i;
    assert h[i] == RestoreBegan && h[i + 1..] == t[i + 1..j];
  }

  /** A failure verdict says the old container is back exactly when the calls of the restore before it put it back. */
  lemma RolledBackIsPutBack(plan: Plan, t: seq<Event>, o: Outcome, j: nat)
    requires Obeys(plan, t) && j < |t| && t[j] == OutcomeWritten(o, true) && o.Failure? && o.rollback.Attempted?
    ensures exists a, b | 0 <= a < b < j ::
      t[a] == RestoreBegan && t[b] == RestoreEnded(o.rollback.restored)
      && (o.rollback.restored <==> PutsBack(t[a + 1..b]))
  {
    FailureIsAccounted(plan, t, o, j);
    var a, b, c :|
      0 <= a < b < c < j && t[a] == RestoreBegan && t[b] == RestoreEnded(o.rollback.restored) && t[c].MarkerRemoved?;
    ReportedRestoreIsPutBack(plan, t, o.rollback.restored, a, b);
  }

  /** The header's "any failure restores" misses the recreate call that throws: a run that fails without a restore. */
  lemma ThrownRecreateIsNotRestored(plan: Plan)
    requires !plan.composeCopy
    ensures var o := Failure(ProviderPhase, NotAttempted);
      var t := [ProviderUp(None), OutcomeWritten(o, true)];
      Obeys(plan, t) && Concludes(plan, t, o) && RestoreBegan !in t
  {
    var o := Failure(ProviderPhase, NotAttempted);
    var h: seq<Event> := [ProviderUp(None)];
    assert Obeys(plan, []);
    ObeysMore(plan, [], ProviderUp(None));
    assert [] + [ProviderUp(None)] == h;
    assert ProviderUp(None) in h && IsCause(plan, ProviderUp(None));
    assert Allowed(plan, h, OutcomeWritten(o, true));
    ObeysMore(plan, h, OutcomeWritten(o, true));
    assert h + [OutcomeWritten(o, true)] == [ProviderUp(None), OutcomeWritten(o, true)];
  }

  lemma InPrefix(t: seq<Event>, k: nat, j: nat)
    requires k < |t| && j <= |t|
    ensures k < j ==> t[k] in t[..j]
  {
    assert k < j ==> t[..j][k] == t[k];
  }

  lemma NoCauseBeforeAck(plan: Plan, t: seq<Event>, k: nat)
    requires Obeys(plan, t) && k < |t| && t[k].AckRead?
    ensures forall j | 0 <= j < k :: !IsCause(plan, t[j])
  {
    AllowedAt(plan, t, k);
    forall j | 0 <= j < k ensures !IsCause(plan, t[j]) { assert t[j] in t[..k] by { assert t[..k][j] == t[j]; } }
  }

  /** In a run with a positive ack nothing is a cause of failure, except a success verdict that cannot be written. */
  lemma NoCauseAfterAck(plan: Plan, t: seq<Event>, k: nat, j: nat)
    requires Obeys(plan, t) && k < |t| && t[k] == PositiveAck(plan) && j < |t| && IsCause(plan, t[j])
    ensures t[j] == OutcomeWritten(Success, false)
  {
    NoCauseBeforeAck(plan, t, k);
    AllowedAt(plan, t, j);
    InPrefix(t, k, j);
  }

  /** A run that reads its positive ack and can write its verdict succeeds. */
  lemma AckedRunSucceeds(plan: Plan, t: seq<Event>, o: Outcome)
    requires Obeys(plan, t) && Concludes(plan, t, o) && PositiveAck(plan) in t && OutcomeWritten(Success, false) !in t
    ensures o.Success?
  {
    var k :| 0 <= k < |t| && t[k] == PositiveAck(plan);
    if HasCause(plan, t) {
      var e :| e in t && IsCause(plan, e);
      var j :| 0 <= j < |t| && t[j] == e;
      NoCauseAfterAck(plan, t, k, j);
    }
  }
}
