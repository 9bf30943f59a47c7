/**
  Histories of calls on a state, where a call passes through several states on its
  way: the state they end in, and the trail of all states a crash could leave.
*/
module CallHistory {
  type Stepper<!D, !C> = (D, C) -> seq<D>

  function Last<D>(d: D, states: seq<D>): D {
    if states == [] then d else states[|states| - 1]
  }

  /** The state after the calls. */
  function End<D, C>(step: Stepper<D, C>, d: D, calls: seq<C>): D {
    if calls == [] then d
    else
      var before := End(step, d, calls[..|calls| - 1]);
      Last(before, step(before, calls[|calls| - 1]))
  }

  /** Every state the calls pass through. */
  function Trail<D, C>(step: Stepper<D, C>, d: D, calls: seq<C>): seq<D> {
    if calls == [] then []
    else Trail(step, d, calls[..|calls| - 1]) + step(End(step, d, calls[..|calls| - 1]), calls[|calls| - 1])
  }

  /** From state `d` and trail `t` the calls lead to `d1` and `t1`: nothing passed through is missing from the trail. */
  ghost predicate Recorded<D, C>(step: Stepper<D, C>, d: D, t: seq<D>, calls: seq<C>, d1: D, t1: seq<D>) {
    d1 == End(step, d, calls) && t1 == t + Trail(step, d, calls)
  }

  lemma EndNext<D, C>(step: Stepper<D, C>, d: D, calls: seq<C>, c: C)
    ensures var before := End(step, d, calls);
      && End(step, d, calls + [c]) == Last(before, step(before, c))
      && Trail(step, d, calls + [c]) == Trail(step, d, calls) + step(before, c)
  {
    assert (calls + [c])[..|calls|] == calls;
  }

  lemma RecordedNext<D, C>(step: Stepper<D, C>, d: D, t: seq<D>, calls: seq<C>, d1: D, t1: seq<D>, c: C)
    requires Recorded(step, d, t, calls, d1, t1)
    ensures Recorded(step, d, t, calls + [c], Last(d1, step(d1, c)), t1 + step(d1, c))
  {
    EndNext(step, d, calls, c);
  }

  lemma RecordedOne<D, C>(step: Stepper<D, C>, d: D, t: seq<D>, c: C)
    ensures Recorded(step, d, t, [c], Last(d, step(d, c)), t + step(d, c))
  {
    assert [c][..0] == [];
  }

  /** Two histories, one after the other. */
  lemma {:induction false} RecordedMore<D, C>(step: Stepper<D, C>, d: D, t: seq<D>, calls: seq<C>, d1: D, t1: seq<D>,
      more: seq<C>)
    requires Recorded(step, d, t, calls, d1, t1)
    ensures Recorded(step, d, t, calls + more, End(step, d1, more), t1 + Trail(step, d1, more))
    decreases |more|
  {
    if more == [] {
      assert calls + more == calls;
    } else {
      var init, last := more[..|more| - 1], more[|more| - 1];
      RecordedMore(step, d, t, calls, d1, t1, init);
      RecordedNext(step, d, t, calls + init, End(step, d1, init), t1 + Trail(step, d1, init), last);
      assert calls + more == calls + init + [last];
    }
  }

  // ---------------------------------------------------------------- safety

  ghost predicate AllGood<D>(good: D -> bool, states: seq<D>) {
    forall i | 0 <= i < |states| :: good(states[i])
  }

  lemma JoinGood<D>(good: D -> bool, a: seq<D>, b: seq<D>)
    ensures AllGood(good, a + b) <==> AllGood(good, a) && AllGood(good, b)
  {
    if AllGood(good, a + b) {
      forall i | 0 <= i < |a| ensures good(a[i]) { assert (a + b)[i] == a[i]; }
      forall i | 0 <= i < |b| ensures good(b[i]) { assert (a + b)[|a| + i] == b[i]; }
    }
  }

  /** No call meets the condition `bad` in the state it is made in. */
  ghost predicate Avoids<D, C>(step: Stepper<D, C>, bad: (D, C) -> bool, d: D, calls: seq<C>) {
    forall i | 0 <= i < |calls| :: !bad(End(step, d, calls[..i]), calls[i])
  }

  lemma AvoidsNext<D, C>(step: Stepper<D, C>, bad: (D, C) -> bool, d: D, calls: seq<C>, c: C)
    ensures Avoids(step, bad, d, calls + [c]) <==> Avoids(step, bad, d, calls) && !bad(End(step, d, calls), c)
  {
    var more := calls + [c];
    assert forall i | 0 <= i < |calls| :: more[..i] == calls[..i] && more[i] == calls[i];
    assert more[..|calls|] == calls && more[|calls|] == c;
    if Avoids(step, bad, d, more) {
      forall i | 0 <= i < |calls| ensures !bad(End(step, d, calls[..i]), calls[i]) {
        assert !bad(End(step, d, more[..i]), more[i]);
      }
      assert !bad(End(step, d, more[..|calls|]), more[|calls|]);
    }
  }

  /** If `bad` says exactly which calls leave the good states, the trail is good exactly when no call is bad. */
  lemma {:induction false} TrailAvoids<D(!new), C(!new)>(step: Stepper<D, C>, good: D -> bool, bad: (D, C) -> bool,
      d: D, calls: seq<C>)
    requires good(d)
    requires forall x, c :: good(x) ==> (AllGood(good, step(x, c)) <==> !bad(x, c))
    ensures AllGood(good, Trail(step, d, calls)) <==> Avoids(step, bad, d, calls)
    ensures AllGood(good, Trail(step, d, calls)) ==> good(End(step, d, calls))
  {
    if calls != [] {
      var init, last := calls[..|calls| - 1], calls[|calls| - 1];
      assert calls == init + [last];
      TrailAvoids(step, good, bad, d, init);
      AvoidsNext(step, bad, d, init, last);
      EndNext(step, d, init, last);
      JoinGood(good, Trail(step, d, init), step(End(step, d, init), last));
    }
  }
}
