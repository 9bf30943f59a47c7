/**
  Prune plans and outcomes: what an accepted plan's dry-run rows add up to, and
  what an accepted list of remote outcomes says about the plan's items.
*/
module FleetPlan {
  import opened Common

  /** `described` says that its name, reason, labels and target's metadata are of the right types. */
  datatype Item = Item(target: string, id: string, sizeBytes: Option<int>, described: bool)

  /** A node id that is no integer, and a creation time that is no finite number, are none. */
  datatype Plan = Plan(
    scope: string, targets: seq<string>, items: seq<Item>, reclaimableBytes: int, fingerprint: string,
    nodeId: Option<int>, createdAt: Option<int>)

  datatype Status = Removed(sizeBytes: Option<int>) | Skipped | Failed

  datatype Outcome = Outcome(target: string, id: string, status: Status)

  datatype PlannedRow = PlannedRow(target: string, reclaimedBytes: int)

  datatype OutcomeRow = OutcomeRow(target: string, success: bool, reclaimedBytes: int, removed: nat, skipped: nat,
    failed: nat)

  predicate IsFleetTarget(t: string) {
    t == "images" || t == "volumes" || t == "networks"
  }

  /** What the request parser lets through: at least one target, each known and listed once. */
  predicate AreTargets(targets: seq<string>) {
    && targets != []
    && (forall t | t in targets :: IsFleetTarget(t))
    && (forall i, j | 0 <= i < j < |targets| :: targets[i] != targets[j])
  }

  function Bytes(size: Option<int>): int {
    if size.Some? then size.value else 0
  }

  // ------------------------------------------------------ sums over the targets

  /** A list of amounts, each booked to a target. */
  type Amounts = seq<(string, int)>

  function Total(ws: Amounts): int {
    if ws == [] then 0 else Total(ws[..|ws| - 1]) + ws[|ws| - 1].1
  }

  /** The amounts booked to one target, added up. */
  function TargetSum(ws: Amounts, target: string): int {
    if ws == [] then 0
    else TargetSum(ws[..|ws| - 1], target) + if ws[|ws| - 1].0 == target then ws[|ws| - 1].1 else 0
  }

  function SumOver(targets: seq<string>, ws: Amounts): int {
    if targets == [] then 0 else SumOver(targets[..|targets| - 1], ws) + TargetSum(ws, targets[|targets| - 1])
  }

  lemma {:induction false} SumOverNext(targets: seq<string>, ws: Amounts, w: (string, int))
    requires IsDistinct(targets)
    ensures SumOver(targets, ws + [w]) == SumOver(targets, ws) + if w.0 in targets then w.1 else 0
  {
    if targets != [] {
      var init, last := targets[..|targets| - 1], targets[|targets| - 1];
      assert forall i | 0 <= i < |init| :: init[i] == targets[i];
      SumOverNext(init, ws, w);
      assert (ws + [w])[..|ws|] == ws;
      assert targets == init + [last];
    }
  }

  /** The sums of distinct targets that cover every amount add up to the total. */
  lemma {:induction false} SumsAddUp(targets: seq<string>, ws: Amounts)
    requires IsDistinct(targets) && forall i | 0 <= i < |ws| :: ws[i].0 in targets
    ensures SumOver(targets, ws) == Total(ws)
  {
    if ws == [] {
      NothingToSum(targets);
    } else {
      var init, last := ws[..|ws| - 1], ws[|ws| - 1];
      assert forall i | 0 <= i < |init| :: init[i] == ws[i];
      SumsAddUp(targets, init);
      SumOverNext(targets, init, last);
      assert ws == init + [last];
    }
  }

  lemma {:induction false} NothingToSum(targets: seq<string>)
    ensures SumOver(targets, []) == 0
  {
    if targets != [] { NothingToSum(targets[..|targets| - 1]); }
  }

  function ItemBytes(items: seq<Item>): Amounts {
    seq(|items|, i requires 0 <= i < |items| => (items[i].target, Bytes(items[i].sizeBytes)))
  }

  // ------------------------------------------------------------ plan acceptance

  function KeyOf(target: string, id: string): string {
    target + ['\0'] + id
  }

  predicate IsItem(i: Item) {
    (IsFleetTarget(i.target) || i.target == "containers") && (i.sizeBytes.Some? ==> i.sizeBytes.value >= 0)
      && i.described
  }

  function AsSet(xs: seq<string>): set<string> {
    set x | x in xs
  }

  type Pair = (string, string)

  function Keys(pairs: seq<Pair>): seq<string> {
    seq(|pairs|, i requires 0 <= i < |pairs| => KeyOf(pairs[i].0, pairs[i].1))
  }

  function ItemPairs(items: seq<Item>): seq<Pair> {
    seq(|items|, i requires 0 <= i < |items| => (items[i].target, items[i].id))
  }

  ghost function PairSet(pairs: seq<Pair>): set<Pair> {
    set x | x in pairs
  }

  /** Every item is well formed, of a requested target, and listed once. */
  ghost predicate ItemsFit(items: seq<Item>, targets: seq<string>) {
    && (forall i | 0 <= i < |items| ::
      items[i].target in targets && items[i].described && (items[i].sizeBytes.Some? ==> items[i].sizeBytes.value >= 0))
    && IsDistinct(ItemPairs(items))
  }

  lemma FirstNul(t: string, a: string, i: nat)
    requires i < |t| && '\0' !in t
    ensures (t + ['\0'] + a)[i] == t[i] && t[i] != '\0'
    ensures (t + ['\0'] + a)[|t|] == '\0'
  {
    assert t[i] in t;
  }

  /** No known target holds a NUL, so a key names one target and one id. */
  lemma KeyInjective(t: string, a: string, u: string, b: string)
    requires '\0' !in t && '\0' !in u
    ensures KeyOf(t, a) == KeyOf(u, b) <==> t == u && a == b
  {
    if KeyOf(t, a) == KeyOf(u, b) {
      if |t| < |u| {
        FirstNul(u, b, |t|);
      } else if |u| < |t| {
        FirstNul(t, a, |u|);
      } else {
        assert KeyOf(t, a)[..|t|] == t && KeyOf(u, b)[..|u|] == u;
        assert KeyOf(t, a)[|t| + 1..] == a && KeyOf(u, b)[|u| + 1..] == b;
      }
    }
  }

  /** Every pair names a target the fleet knows. */
  ghost predicate AreKnown(pairs: seq<Pair>) {
    forall i | 0 <= i < |pairs| :: IsFleetTarget(pairs[i].0)
  }

  lemma TargetsHaveNoNul(t: string)
    requires IsFleetTarget(t)
    ensures '\0' !in t
  {
  }

  lemma KeyTells(pairs: seq<Pair>, x: Pair)
    requires AreKnown(pairs) && IsFleetTarget(x.0)
    ensures KeyOf(x.0, x.1) in AsSet(Keys(pairs)) <==> x in PairSet(pairs)
  {
    var keys := Keys(pairs);
    TargetsHaveNoNul(x.0);
    forall j | 0 <= j < |pairs| ensures keys[j] == KeyOf(x.0, x.1) <==> pairs[j] == x {
      TargetsHaveNoNul(pairs[j].0);
      KeyInjective(pairs[j].0, pairs[j].1, x.0, x.1);
    }
    if x in PairSet(pairs) {
      var j :| 0 <= j < |pairs| && pairs[j] == x;
      assert keys[j] in keys;
    }
  }

  /** A list is refused as soon as a prefix of it repeats a pair. */
  lemma DistinctPrefix(pairs: seq<Pair>, i: nat)
    requires i < |pairs| && pairs[i] in PairSet(pairs[..i])
    ensures !IsDistinct(pairs)
  {
    var j :| 0 <= j < i && pairs[..i][j] == pairs[i];
    assert pairs[j] == pairs[i];
  }

  /** The item pass: stops at a malformed, foreign or repeated item. */
  method CheckItems(items: seq<Item>, targets: seq<string>) returns (ok: bool)
    requires AreTargets(targets)
    ensures ok <==> ItemsFit(items, targets)
  {
    var itemKeys: set<string> := {};
    var pairs := ItemPairs(items);
    for i := 0 to |items|
      invariant forall j | 0 <= j < i :: IsItem(items[j]) && items[j].target in targets
      invariant itemKeys == AsSet(Keys(pairs[..i])) && IsDistinct(pairs[..i])
    {
      if !IsItem(items[i]) || items[i].target !in targets { return false; }
      KeyTells(pairs[..i], pairs[i]);
      var key := KeyOf(items[i].target, items[i].id);
      if key in itemKeys {
        DistinctPrefix(pairs, i);
        return false;
      }
      assert pairs[..i + 1] == pairs[..i] + [pairs[i]];
      assert Keys(pairs[..i + 1]) == Keys(pairs[..i]) + [key];
      DistinctNext(pairs[..i], pairs[i]);
      itemKeys := itemKeys + {key};
    }
    assert pairs[..|items|] == pairs;
    ok := true;
  }

  ghost predicate IsAccepted(plan: Plan, targets: seq<string>, scope: string) {
    && plan.scope == scope && plan.fingerprint != "" && plan.nodeId.Some? && plan.createdAt.Some?
      && plan.createdAt.value >= 0
    && IsDistinct(plan.targets) && AsSet(plan.targets) == AsSet(targets)
    && plan.reclaimableBytes == Total(ItemBytes(plan.items)) >= 0
    && ItemsFit(plan.items, targets)
  }

  lemma AsSetNext(init: seq<string>, last: string)
    ensures AsSet(init + [last]) == AsSet(init) + {last}
    ensures |AsSet(init + [last])| == |AsSet(init)| + if last in init then 0 else 1
  {
    assert AsSet(init + [last]) == AsSet(init) + {last};
    if last in init { assert AsSet(init) + {last} == AsSet(init); }
  }

  lemma {:induction false} SetSizes(xs: seq<string>)
    ensures |AsSet(xs)| <= |xs|
    ensures |AsSet(xs)| == |xs| <==> IsDistinct(xs)
  {
    if xs != [] {
      var init, last := xs[..|xs| - 1], xs[|xs| - 1];
      SetSizes(init);
      assert xs == init + [last];
      AsSetNext(init, last);
      DistinctNext(init, last);
    }
  }

  /** Equally long lists without repeats, one inside the other, hold the same. */
  lemma SameTargets(xs: seq<string>, ys: seq<string>)
    requires IsDistinct(ys)
    ensures |xs| == |AsSet(ys)| && |AsSet(xs)| == |AsSet(ys)| && (forall x | x in xs :: x in ys) <==>
            IsDistinct(xs) && AsSet(xs) == AsSet(ys)
  {
    SetSizes(xs);
    SetSizes(ys);
    if |AsSet(xs)| == |AsSet(ys)| && forall x | x in xs :: x in ys {
      SubsetOfSameSize(AsSet(xs), AsSet(ys));
    }
    if AsSet(xs) == AsSet(ys) {
      forall x | x in xs ensures x in ys { assert x in AsSet(ys); }
    }
  }

  lemma SubsetOfSameSize<T>(a: set<T>, b: set<T>)
    requires a <= b && |a| == |b|
    ensures a == b
  {
    assert |b - a| == |b| - |a|;
  }

  /** Whether a remote answer is the plan that was asked for. */
  method IsPrunePlan(plan: Plan, targets: seq<string>, scope: string) returns (ok: bool)
    requires AreTargets(targets)
    ensures ok <==> IsAccepted(plan, targets, scope)
  {
    var requested := AsSet(targets);
    SameTargets(plan.targets, targets);
    assert forall t :: t in requested <==> t in targets;
    if plan.scope != scope || |plan.targets| != |requested| || |AsSet(plan.targets)| != |requested| { return false; }
    if exists t | t in plan.targets :: t !in requested { return false; }
    if plan.nodeId.None? || plan.createdAt.None? || plan.createdAt.value < 0 { return false; }
    if plan.fingerprint == "" || plan.reclaimableBytes < 0 || plan.reclaimableBytes != Total(ItemBytes(plan.items)) {
      return false;
    }
    ok := CheckItems(plan.items, targets);
  }

  function PlannedRows(plan: Plan, targets: seq<string>): (r: seq<PlannedRow>)
    ensures |r| == |targets|
  {
    seq(|targets|, i requires 0 <= i < |targets| =>
      PlannedRow(targets[i], TargetSum(ItemBytes(plan.items), targets[i])))
  }

  function PlannedBytes(rows: seq<PlannedRow>): int {
    if rows == [] then 0 else PlannedBytes(rows[..|rows| - 1]) + rows[|rows| - 1].reclaimedBytes
  }

  lemma {:induction false} PlannedBytesAre(plan: Plan, targets: seq<string>)
    ensures PlannedBytes(PlannedRows(plan, targets)) == SumOver(targets, ItemBytes(plan.items))
  {
    if targets != [] {
      PlannedBytesAre(plan, targets[..|targets| - 1]);
      assert PlannedRows(plan, targets)[..|targets| - 1] == PlannedRows(plan, targets[..|targets| - 1]);
    }
  }

  /** The dry-run rows of an accepted plan add up to its reclaimable bytes. */
  lemma DryRunAddsUp(plan: Plan, targets: seq<string>, scope: string)
    requires AreTargets(targets) && IsAccepted(plan, targets, scope)
    ensures PlannedBytes(PlannedRows(plan, targets)) == plan.reclaimableBytes
  {
    PlannedBytesAre(plan, targets);
    SumsAddUp(targets, ItemBytes(plan.items));
  }

  lemma {:induction false} FirstAmount(w: (string, int), rest: Amounts, target: string)
    ensures TargetSum([w] + rest, target) == (if w.0 == target then w.1 else 0) + TargetSum(rest, target)
    decreases |rest|
  {
    if rest == [] {
      assert [w] + rest == [w] && [w][..0] == [];
    } else {
      FirstAmount(w, rest[..|rest| - 1], target);
      assert ([w] + rest)[..|rest|] == [w] + rest[..|rest| - 1];
    }
  }

  /** The known sizes of one target's items. */
  function BytesAt(items: seq<Item>, target: string): int {
    if items == [] then 0
    else
      var first := items[0];
      (if first.target == target && first.sizeBytes.Some? then first.sizeBytes.value else 0)
      + BytesAt(items[1..], target)
  }

  lemma {:induction false} BytesAre(items: seq<Item>, target: string)
    ensures TargetSum(ItemBytes(items), target) == BytesAt(items, target)
  {
    if items != [] {
      BytesAre(items[1..], target);
      assert ItemBytes(items) == [ItemBytes(items)[0]] + ItemBytes(items[1..]);
      FirstAmount(ItemBytes(items)[0], ItemBytes(items[1..]), target);
    }
  }

  /** Each dry-run row is for its own target, with the bytes of that target's items. */
  lemma PlannedRowTells(plan: Plan, targets: seq<string>, i: nat)
    requires i < |targets|
    ensures PlannedRows(plan, targets)[i] == PlannedRow(targets[i], BytesAt(plan.items, targets[i]))
  {
    BytesAre(plan.items, targets[i]);
  }

  // ---------------------------------------------------------------- outcomes

  predicate IsOutcome(o: Outcome) {
    o.status.Removed? && o.status.sizeBytes.Some? ==> o.status.sizeBytes.value >= 0
  }

  ghost predicate AreOutcomes(outcomes: seq<Outcome>, targets: seq<string>) {
    forall i | 0 <= i < |outcomes| ::
      outcomes[i].target in targets
        && match outcomes[i].status
           case Removed(Some(bytes)) => bytes >= 0
           case _ => true
  }

  function OutcomePairs(outcomes: seq<Outcome>): seq<Pair> {
    seq(|outcomes|, i requires 0 <= i < |outcomes| => (outcomes[i].target, outcomes[i].id))
  }

  /** One outcome for each item and no other: no item is reported twice, and the same items are named. */
  ghost predicate Answers(outcomes: seq<Outcome>, items: seq<Item>) {
    && |outcomes| == |items|
    && IsDistinct(OutcomePairs(outcomes))
    && PairSet(OutcomePairs(outcomes)) == PairSet(ItemPairs(items))
  }

  /** The outcomes passed so far are known, report different items, and nothing else was seen. */
  ghost predicate Matched(pairs: seq<Pair>, items: seq<Pair>, seen: set<string>) {
    AreKnown(pairs) && IsDistinct(pairs) && PairSet(pairs) <= PairSet(items) && seen == AsSet(Keys(pairs))
      && |seen| == |pairs|
  }

  lemma MatchNext(pairs: seq<Pair>, items: seq<Pair>, seen: set<string>, x: Pair)
    requires Matched(pairs, items, seen) && AreKnown(items) && IsFleetTarget(x.0)
    ensures KeyOf(x.0, x.1) in AsSet(Keys(items)) <==> x in PairSet(items)
    ensures KeyOf(x.0, x.1) in seen <==> x in PairSet(pairs)
    ensures x in PairSet(items) && x !in PairSet(pairs) ==> Matched(pairs + [x], items, seen + {KeyOf(x.0, x.1)})
  {
    KeyTells(items, x);
    KeyTells(pairs, x);
    DistinctNext(pairs, x);
    assert Keys(pairs + [x]) == Keys(pairs) + [KeyOf(x.0, x.1)];
  }

  lemma MatchAll(pairs: seq<Pair>, items: seq<Pair>, seen: set<string>)
    requires Matched(pairs, items, seen) && AreKnown(items) && IsDistinct(items) && |pairs| == |items|
    ensures PairSet(pairs) == PairSet(items) && |seen| == |AsSet(Keys(items))|
  {
    DistinctSizes(items);
    DistinctSizes(pairs);
    SubsetOfSameSize(PairSet(pairs), PairSet(items));
    DistinctKeys(items);
  }

  lemma OutcomesNext(outcomes: seq<Outcome>, i: nat, targets: seq<string>)
    requires i < |outcomes| && AreOutcomes(outcomes[..i], targets) && IsOutcome(outcomes[i])
    requires outcomes[i].target in targets
    ensures AreOutcomes(outcomes[..i + 1], targets)
  {
    forall j | 0 <= j < i + 1 ensures IsOutcome(outcomes[j]) && outcomes[j].target in targets {
      if j < i { assert outcomes[..i][j] == outcomes[j]; }
    }
  }

  /** Why the pass over the outcomes stopped at the i-th. */
  lemma StoppedAt(outcomes: seq<Outcome>, items: seq<Pair>, targets: seq<string>, i: nat)
    requires i < |outcomes|
    requires || !IsOutcome(outcomes[i]) || outcomes[i].target !in targets
             || OutcomePairs(outcomes)[i] !in PairSet(items)
               || OutcomePairs(outcomes)[i] in PairSet(OutcomePairs(outcomes)[..i])
    ensures !Fits(outcomes, targets, items)
  {
    var pairs := OutcomePairs(outcomes);
    assert pairs[i] in PairSet(pairs);
    if pairs[i] in PairSet(pairs[..i]) { DistinctPrefix(pairs, i); }
  }

  /** The outcomes up to the i-th have passed. */
  ghost predicate Passed(outcomes: seq<Outcome>, targets: seq<string>, items: seq<Pair>, i: nat, seen: set<string>) {
    && i <= |outcomes| && AreOutcomes(outcomes[..i], targets)
    && |OutcomePairs(outcomes)| == |outcomes| && Matched(OutcomePairs(outcomes)[..i], items, seen)
  }

  lemma PassedNext(outcomes: seq<Outcome>, targets: seq<string>, items: seq<Pair>, i: nat, seen: set<string>)
    requires Passed(outcomes, targets, items, i, seen) && i < |outcomes| && AreTargets(targets) && AreKnown(items)
    requires IsOutcome(outcomes[i]) && outcomes[i].target in targets
    ensures var key := KeyOf(outcomes[i].target, outcomes[i].id);
      if key in AsSet(Keys(items)) && key !in seen then Passed(outcomes, targets, items, i + 1, seen + {key})
      else !Fits(outcomes, targets, items)
  {
    var pairs := OutcomePairs(outcomes);
    MatchNext(pairs[..i], items, seen, pairs[i]);
    OutcomesNext(outcomes, i, targets);
    assert pairs[..i + 1] == pairs[..i] + [pairs[i]];
    if pairs[i] !in PairSet(items) || pairs[i] in PairSet(pairs[..i]) { StoppedAt(outcomes, items, targets, i); }
  }

  /** Well-formed outcomes of different items. */
  ghost predicate Fits(outcomes: seq<Outcome>, targets: seq<string>, items: seq<Pair>) {
    && AreOutcomes(outcomes, targets) && IsDistinct(OutcomePairs(outcomes))
    && PairSet(OutcomePairs(outcomes)) <= PairSet(items)
  }

  method MatchOutcomes(outcomes: seq<Outcome>, targets: seq<string>, ghost items: seq<Pair>, expected: set<string>)
    returns (ok: bool, seen: set<string>)
    requires AreTargets(targets) && AreKnown(items) && expected == AsSet(Keys(items))
    ensures ok ==> AreOutcomes(outcomes, targets) && Matched(OutcomePairs(outcomes), items, seen)
    ensures !ok ==> !Fits(outcomes, targets, items)
  {
    seen := {};
    for i := 0 to |outcomes|
      invariant Passed(outcomes, targets, items, i, seen)
    {
      var o := outcomes[i];
      if !IsOutcome(o) || o.target !in targets {
        StoppedAt(outcomes, items, targets, i);
        return false, seen;
      }
      PassedNext(outcomes, targets, items, i, seen);
      var key := KeyOf(o.target, o.id);
      if key !in expected || key in seen { return false, seen; }
      seen := seen + {key};
    }
    assert OutcomePairs(outcomes)[..|outcomes|] == OutcomePairs(outcomes) && outcomes[..|outcomes|] == outcomes;
    ok := true;
  }

  /** Accepts a remote's outcomes exactly when they answer the plan item by item. */
  method ValidateRemoteOutcomes(outcomes: seq<Outcome>, plan: Plan, targets: seq<string>) returns (ok: bool)
    requires AreTargets(targets) && ItemsFit(plan.items, targets)
    ensures ok <==> AreOutcomes(outcomes, targets) && Answers(outcomes, plan.items)
  {
    if |outcomes| != |plan.items| { return false; }
    var expected := AsSet(Keys(ItemPairs(plan.items)));
    ghost var items := ItemPairs(plan.items);
    var seen;
    ok, seen := MatchOutcomes(outcomes, targets, items, expected);
    if ok {
      MatchAll(OutcomePairs(outcomes), items, seen);
      ok := |seen| == |expected|;
    }
  }

  lemma {:induction false} DistinctSizes(pairs: seq<Pair>)
    requires IsDistinct(pairs)
    ensures |PairSet(pairs)| == |pairs|
  {
    if pairs != [] {
      var init, last := pairs[..|pairs| - 1], pairs[|pairs| - 1];
      assert pairs == init + [last];
      DistinctNext(init, last);
      DistinctSizes(init);
      assert PairSet(pairs) == PairSet(init) + {last};
    }
  }

  lemma {:induction false} DistinctKeys(pairs: seq<Pair>)
    requires IsDistinct(pairs) && AreKnown(pairs)
    ensures |AsSet(Keys(pairs))| == |pairs|
  {
    if pairs != [] {
      var init, last := pairs[..|pairs| - 1], pairs[|pairs| - 1];
      assert pairs == init + [last];
      DistinctNext(init, last);
      DistinctKeys(init);
      KeyTells(init, last);
      assert Keys(pairs) == Keys(init) + [KeyOf(last.0, last.1)];
      assert AsSet(Keys(pairs)) == AsSet(Keys(init)) + {KeyOf(last.0, last.1)};
    }
  }

  // ------------------------------------------------------------ outcome rows

  /** One amount for each outcome of a kind, booked to its target. */
  function CountOf(outcomes: seq<Outcome>, kind: Status -> bool): Amounts {
    seq(|outcomes|, i requires 0 <= i < |outcomes| => (outcomes[i].target, if kind(outcomes[i].status) then 1 else 0))
  }

  function RemovedBytes(outcomes: seq<Outcome>): Amounts {
    seq(|outcomes|, i requires 0 <= i < |outcomes| =>
      (outcomes[i].target, if outcomes[i].status.Removed? then Bytes(outcomes[i].status.sizeBytes) else 0))
  }

  lemma {:induction false} CountNotNegative(outcomes: seq<Outcome>, kind: Status -> bool, target: string)
    ensures TargetSum(CountOf(outcomes, kind), target) >= 0
  {
    if outcomes != [] {
      var init := outcomes[..|outcomes| - 1];
      CountNotNegative(init, kind, target);
      assert CountOf(outcomes, kind)[..|outcomes| - 1] == CountOf(init, kind);
    }
  }

  function Count(outcomes: seq<Outcome>, kind: Status -> bool, target: string): nat {
    CountNotNegative(outcomes, kind, target);
    TargetSum(CountOf(outcomes, kind), target)
  }

  function OutcomeRowOf(outcomes: seq<Outcome>, fallback: bool, target: string): OutcomeRow {
    var failed := Count(outcomes, (s: Status) => s.Failed?, target);
    OutcomeRow(
      target,
      if outcomes == [] then fallback else failed == 0,
      if outcomes == [] then 0 else TargetSum(RemovedBytes(outcomes), target),
      Count(outcomes, (s: Status) => s.Removed?, target),
      Count(outcomes, (s: Status) => s.Skipped?, target),
      failed)
  }

  function OutcomeRows(targets: seq<string>, outcomes: seq<Outcome>, fallback: bool): (r: seq<OutcomeRow>)
    ensures |r| == |targets|
  {
    seq(|targets|, i requires 0 <= i < |targets| => OutcomeRowOf(outcomes, fallback, targets[i]))
  }

  function Counted(rows: seq<OutcomeRow>): nat {
    if rows == [] then 0
    else var last := rows[|rows| - 1]; Counted(rows[..|rows| - 1]) + last.removed + last.skipped + last.failed
  }

  function Reclaimed(rows: seq<OutcomeRow>): int {
    if rows == [] then 0 else Reclaimed(rows[..|rows| - 1]) + rows[|rows| - 1].reclaimedBytes
  }

  function Each(outcomes: seq<Outcome>): Amounts {
    seq(|outcomes|, i requires 0 <= i < |outcomes| => (outcomes[i].target, 1))
  }

  lemma {:induction false} KindsPartition(outcomes: seq<Outcome>, target: string)
    ensures Count(outcomes, (s: Status) => s.Removed?, target) + Count(outcomes, (s: Status) => s.Skipped?, target)
            + Count(outcomes, (s: Status) => s.Failed?, target) == TargetSum(Each(outcomes), target)
  {
    if outcomes != [] {
      var init := outcomes[..|outcomes| - 1];
      KindsPartition(init, target);
      assert Each(outcomes)[..|init|] == Each(init);
      assert CountOf(outcomes, (s: Status) => s.Removed?)[..|init|] == CountOf(init, (s: Status) => s.Removed?);
      assert CountOf(outcomes, (s: Status) => s.Skipped?)[..|init|] == CountOf(init, (s: Status) => s.Skipped?);
      assert CountOf(outcomes, (s: Status) => s.Failed?)[..|init|] == CountOf(init, (s: Status) => s.Failed?);
    }
  }

  lemma {:induction false} CountedIs(targets: seq<string>, outcomes: seq<Outcome>, fallback: bool)
    ensures Counted(OutcomeRows(targets, outcomes, fallback)) == SumOver(targets, Each(outcomes))
  {
    if targets != [] {
      var init := targets[..|targets| - 1];
      CountedIs(init, outcomes, fallback);
      assert OutcomeRows(targets, outcomes, fallback)[..|init|] == OutcomeRows(init, outcomes, fallback);
      KindsPartition(outcomes, targets[|targets| - 1]);
    }
  }

  lemma {:induction false} ReclaimedIs(targets: seq<string>, outcomes: seq<Outcome>, fallback: bool)
    ensures Reclaimed(OutcomeRows(targets, outcomes, fallback)) == SumOver(targets, RemovedBytes(outcomes))
  {
    if targets != [] {
      var init := targets[..|targets| - 1];
      ReclaimedIs(init, outcomes, fallback);
      assert OutcomeRows(targets, outcomes, fallback)[..|init|] == OutcomeRows(init, outcomes, fallback);
    }
  }

  lemma {:induction false} TotalOfEach(outcomes: seq<Outcome>)
    ensures Total(Each(outcomes)) == |outcomes|
  {
    if outcomes != [] {
      var init := outcomes[..|outcomes| - 1];
      TotalOfEach(init);
      assert Each(outcomes)[..|init|] == Each(init);
    }
  }

  /**
    Over the target rows, removed, skipped and failed add up to the plan's items, and the bytes
    to everything removed.
  */
  lemma OutcomesAddUp(outcomes: seq<Outcome>, plan: Plan, targets: seq<string>, fallback: bool)
    requires AreTargets(targets) && AreOutcomes(outcomes, targets) && Answers(outcomes, plan.items)
    ensures Counted(OutcomeRows(targets, outcomes, fallback)) == |plan.items|
    ensures Reclaimed(OutcomeRows(targets, outcomes, fallback)) == Total(RemovedBytes(outcomes))
  {
    CountedIs(targets, outcomes, fallback);
    ReclaimedIs(targets, outcomes, fallback);
    SumsAddUp(targets, Each(outcomes));
    SumsAddUp(targets, RemovedBytes(outcomes));
    TotalOfEach(outcomes);
  }

  /** The positions of a target's outcomes of one kind. */
  ghost function Positions(outcomes: seq<Outcome>, kind: Status -> bool, target: string): set<nat> {
    set i: nat | i < |outcomes| && outcomes[i].target == target && kind(outcomes[i].status)
  }

  lemma CountNext(init: seq<Outcome>, last: Outcome, kind: Status -> bool, target: string)
    ensures Count(init + [last], kind, target) == Count(init, kind, target) + if last.target == target
      && kind(last.status) then 1 else 0
  {
    assert CountOf(init + [last], kind)[..|init|] == CountOf(init, kind);
  }

  lemma PositionsNext(init: seq<Outcome>, last: Outcome, kind: Status -> bool, target: string)
    ensures |Positions(init + [last], kind, target)| == |Positions(init, kind, target)| + if last.target == target
      && kind(last.status) then 1 else 0
  {
    var more: set<nat> := if last.target == target && kind(last.status) then {|init|} else {};
    assert forall i | 0 <= i < |init| :: (init + [last])[i] == init[i];
    assert Positions(init + [last], kind, target) == Positions(init, kind, target) + more;
  }

  lemma {:induction false} CountIsPositions(outcomes: seq<Outcome>, kind: Status -> bool, target: string)
    ensures Count(outcomes, kind, target) == |Positions(outcomes, kind, target)|
  {
    if outcomes == [] {
      assert Positions(outcomes, kind, target) == {};
    } else {
      var init, last := outcomes[..|outcomes| - 1], outcomes[|outcomes| - 1];
      assert outcomes == init + [last];
      CountIsPositions(init, kind, target);
      CountNext(init, last, kind, target);
      PositionsNext(init, last, kind, target);
    }
  }

  /** The known sizes of what was removed of one target. */
  function RemovedAt(outcomes: seq<Outcome>, target: string): int {
    if outcomes == [] then 0
    else
      var o := outcomes[0];
      (if o.target == target && o.status.Removed? && o.status.sizeBytes.Some? then o.status.sizeBytes.value else 0)
      + RemovedAt(outcomes[1..], target)
  }

  lemma {:induction false} RemovedAre(outcomes: seq<Outcome>, target: string)
    ensures TargetSum(RemovedBytes(outcomes), target) == RemovedAt(outcomes, target)
  {
    if outcomes != [] {
      RemovedAre(outcomes[1..], target);
      assert RemovedBytes(outcomes) == [RemovedBytes(outcomes)[0]] + RemovedBytes(outcomes[1..]);
      FirstAmount(RemovedBytes(outcomes)[0], RemovedBytes(outcomes[1..]), target);
    }
  }

  /**
    A row counts its target's outcomes by kind, adds up what was removed, and succeeds exactly when none of them failed
    (or, with no outcomes, as reported).
  */
  lemma RowTells(targets: seq<string>, outcomes: seq<Outcome>, fallback: bool, i: nat)
    requires i < |targets|
    ensures var row := OutcomeRows(targets, outcomes, fallback)[i];
      && row.target == targets[i]
      && row.removed == |Positions(outcomes, (s: Status) => s.Removed?, row.target)|
      && row.skipped == |Positions(outcomes, (s: Status) => s.Skipped?, row.target)|
      && row.failed == |Positions(outcomes, (s: Status) => s.Failed?, row.target)|
      && row.reclaimedBytes == RemovedAt(outcomes, row.target)
      && (outcomes == [] ==> row.success == fallback)
      && (outcomes != [] ==>
        (row.success <==> forall k | 0 <= k < |outcomes| && outcomes[k].target == row.target ::
        !outcomes[k].status.Failed?))
  {
    var t := targets[i];
    RemovedAre(outcomes, t);
    CountIsPositions(outcomes, (s: Status) => s.Removed?, t);
    CountIsPositions(outcomes, (s: Status) => s.Skipped?, t);
    CountIsPositions(outcomes, (s: Status) => s.Failed?, t);
    var failed := Positions(outcomes, (s: Status) => s.Failed?, t);
    assert |failed| == 0 <==> failed == {};
    forall k: nat | k < |outcomes| && outcomes[k].target == t ensures outcomes[k].status.Failed? <==> k in failed {
    }
  }
}
