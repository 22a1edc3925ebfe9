/**
 Presentation feedback of a surface: every present with an info block asks for one feedback, which the
 compositor answers once; answers are counted when they are dispatched and handed out by the next call.
 */
module PresentFeedback {
  /** One dispatch of the feedback queue: for each event dispatched, whether present_update_callback took
      it (false: its info block was overwritten meanwhile), and whether the dispatch succeeded. */
  datatype Dispatch = Dispatch(taken: seq<bool>, ok: bool)

  /** What a call returns: the events it hands out, a dispatch error, or nothing yet. */
  datatype Outcome = Events(n: nat) | DispatchError | StillWaiting

  /** The surface's two counters, and what became of all requests: handed out, or overwritten. */
  datatype State = State(inFlight: int, landed: int, requests: nat, reported: int, superseded: nat)

  const NEW := State(0, 0, 0, 0, 0)

  function Count(taken: seq<bool>): nat {
    if taken == [] then 0 else Count(taken[..|taken| - 1]) + (if taken[|taken| - 1] then 1 else 0)
  }

  lemma {:induction false} CountBound(taken: seq<bool>)
    ensures Count(taken) <= |taken|
    ensures Count(taken) > 0 <==> true in taken
  {
    if taken != [] {
      CountBound(taken[..|taken| - 1]);
      assert taken == taken[..|taken| - 1] + [taken[|taken| - 1]];
    }
  }

  /** The listener has run for each of the events. */
  function Dispatched(s: State, taken: seq<bool>): State {
    s.(inFlight := s.inFlight - |taken|, landed := s.landed + Count(taken),
       superseded := s.superseded + (CountBound(taken); |taken| - Count(taken)))
  }

  /** The end of both calls that hand events out. */
  function HandOut(s: State): State {
    s.(landed := 0, reported := s.reported + s.landed)
  }

  /** wlEglPostPresentExport2 with an info block; `queue`: the compositor has wp_presentation. */
  function Post(s: State, queue: bool, listening: bool): State {
    if !queue then s.(landed := s.landed + 1, requests := s.requests + 1)
    else if listening then s.(inFlight := s.inFlight + 1, requests := s.requests + 1)
    else s
  }

  datatype Result = Result(state: State, outcome: Outcome)

  /** wlEglProcessPresentationFeedbacksExport. */
  function Process(s: State, queue: bool, d: Dispatch): Result
    requires s.landed >= 0
  {
    if !queue then Result(HandOut(s), Events(s.landed))
    else
      var after := Dispatched(s, d.taken);
      if !d.ok then Result(after, DispatchError) else Result(HandOut(after), Events(after.landed))
  }

  /** The loop of wlEglWaitAllPresentationFeedbacksExport, over what the dispatches bring. */
  function WaitLoop(s: State, script: seq<Dispatch>): Result
    requires s.landed >= 0
    decreases |script|
  {
    if s.inFlight <= 0 then Result(HandOut(s), Events(s.landed))
    else if script == [] then Result(s, StillWaiting)
    else
      var after := Dispatched(s, script[0].taken);
      if !script[0].ok then Result(after, DispatchError) else WaitLoop(after, script[1..])
  }

  function WaitAll(s: State, queue: bool, script: seq<Dispatch>): Result
    requires s.landed >= 0
  {
    if queue then WaitLoop(s, script) else Result(HandOut(s), Events(s.landed))
  }

  // ------------------------------------------------------------------ in place

  class Surface {
    var inFlightPresentFeedbackCount: int
    var landedPresentFeedbackCount: int
    ghost var requests: nat
    ghost var reported: int
    ghost var superseded: nat
    const queue: bool

    ghost function View(): State
      reads this
    {
      State(inFlightPresentFeedbackCount, landedPresentFeedbackCount, requests, reported, superseded)
    }

    constructor (queue: bool)
      ensures this.queue == queue && View() == NEW
    {
      this.queue := queue;
      inFlightPresentFeedbackCount, landedPresentFeedbackCount := 0, 0;
      requests, reported, superseded := 0, 0, 0;
    }

    /** present_feedback_discarded, which present_feedback_presented calls too. */
    method Discarded(taken: bool)
      modifies this
      ensures View() == Dispatched(old(View()), [taken])
    {
      if taken {
        landedPresentFeedbackCount := landedPresentFeedbackCount + 1;
      } else {
        superseded := superseded + 1;
      }
      inFlightPresentFeedbackCount := inFlightPresentFeedbackCount - 1;
      CountOne(taken);
    }

    method DispatchQueue(d: Dispatch) returns (ok: bool)
      modifies this
      ensures View() == Dispatched(old(View()), d.taken) && ok == d.ok
    {
      var i := 0;
      while i < |d.taken|
        invariant 0 <= i <= |d.taken|
        invariant View() == Dispatched(old(View()), d.taken[..i])
      {
        DispatchedOneMore(old(View()), d.taken[..i], d.taken[i]);
        assert d.taken[..i + 1] == d.taken[..i] + [d.taken[i]];
        Discarded(d.taken[i]);
        i := i + 1;
      }
      assert d.taken[..i] == d.taken;
      return d.ok;
    }

    method PostPresent(listening: bool) returns (ok: bool)
      modifies this
      ensures View() == Post(old(View()), queue, listening) && ok == (!queue || listening)
    {
      if queue {
        if !listening {
          return false;
        }
        inFlightPresentFeedbackCount := inFlightPresentFeedbackCount + 1;
      } else {
        landedPresentFeedbackCount := landedPresentFeedbackCount + 1;
      }
      requests := requests + 1;
      return true;
    }

    method ProcessPresentationFeedbacks(d: Dispatch) returns (outcome: Outcome)
      requires landedPresentFeedbackCount >= 0
      modifies this
      ensures Result(View(), outcome) == Process(old(View()), queue, d)
    {
      if queue {
        var ok := DispatchQueue(d);
        if !ok {
          return DispatchError;
        }
      }
      outcome := Events(landedPresentFeedbackCount);
      reported := reported + landedPresentFeedbackCount;
      landedPresentFeedbackCount := 0;
    }

    method WaitAllPresentationFeedbacks(script: seq<Dispatch>) returns (outcome: Outcome)
      requires landedPresentFeedbackCount >= 0
      modifies this
      ensures Result(View(), outcome) == WaitAll(old(View()), queue, script)
    {
      if queue {
        var i := 0;
        while inFlightPresentFeedbackCount > 0
          invariant 0 <= i <= |script| && landedPresentFeedbackCount >= 0
          invariant WaitLoop(View(), script[i..]) == WaitLoop(old(View()), script)
          decreases |script| - i
        {
          if i == |script| {
            return StillWaiting;
          }
          var ok := DispatchQueue(script[i]);
          if !ok {
            return DispatchError;
          }
          i := i + 1;
        }
      }
      outcome := Events(landedPresentFeedbackCount);
      reported := reported + landedPresentFeedbackCount;
      landedPresentFeedbackCount := 0;
    }
  }

  lemma CountOne(taken: bool)
    ensures Count([taken]) == if taken then 1 else 0
  {
    assert [taken][..0] == [];
  }

  lemma DispatchedOneMore(s: State, taken: seq<bool>, one: bool)
    ensures Dispatched(s, taken + [one]) == Dispatched(Dispatched(s, taken), [one])
  {
    assert (taken + [one])[..|taken|] == taken;
    CountOne(one);
  }

  // ------------------------------------------------------------------ every run

  datatype Op = Present(listening: bool) | ProcessEvents(d: Dispatch) | WaitForAll(script: seq<Dispatch>)

  /** The compositor answers no request twice. */
  predicate WithinFlight(inFlight: int, script: seq<Dispatch>)
    decreases |script|
  {
    script == [] || (|script[0].taken| <= inFlight && WithinFlight(inFlight - |script[0].taken|, script[1..]))
  }

  predicate Possible(s: State, op: Op) {
    match op
    case Present(_) => true
    case ProcessEvents(d) => WithinFlight(s.inFlight, [d])
    case WaitForAll(script) => WithinFlight(s.inFlight, script)
  }

  /** The assertion both calls start with, where there is a queue. */
  predicate AssertHolds(s: State, queue: bool, op: Op) {
    queue && !op.Present? ==> s.landed == 0
  }

  function Apply(s: State, queue: bool, op: Op): Result
    requires s.landed >= 0
  {
    match op
    case Present(listening) => Result(Post(s, queue, listening), Events(0))
    case ProcessEvents(d) => Process(s, queue, d)
    case WaitForAll(script) => WaitAll(s, queue, script)
  }

  /** Every request is in flight, landed, handed out or superseded; without a queue none is in flight. */
  predicate Inv(s: State, queue: bool) {
    && s.inFlight >= 0 && s.landed >= 0
    && s.requests == s.inFlight + s.landed + s.reported + s.superseded
    && (!queue ==> s.inFlight == 0)
  }

  lemma DispatchKeepsInv(s: State, taken: seq<bool>)
    requires Inv(s, true) && |taken| <= s.inFlight
    ensures Inv(Dispatched(s, taken), true)
  {
    CountBound(taken);
  }

  /** Waiting ends with nothing in flight or an error; while dispatches bring events it does end. */
  lemma {:induction false} WaitLoopKeepsInv(s: State, script: seq<Dispatch>)
    requires Inv(s, true) && WithinFlight(s.inFlight, script)
    ensures var r := WaitLoop(s, script);
      && Inv(r.state, true)
      && (r.outcome.Events? ==> r.state.inFlight == 0 && r.state.landed == 0)
      && (r.outcome.StillWaiting? ==> r.state.inFlight > 0 && forall k :: 0 <= k < |script| ==> script[k].ok)
      && (r.outcome.DispatchError? ==> exists k :: 0 <= k < |script| && !script[k].ok)
    decreases |script|
  {
    if s.inFlight > 0 && script != [] {
      DispatchKeepsInv(s, script[0].taken);
      if script[0].ok {
        WaitLoopKeepsInv(Dispatched(s, script[0].taken), script[1..]);
      }
    }
  }

  /** The events all dispatches of a script bring. */
  function AllTaken(script: seq<Dispatch>): seq<bool>
    decreases |script|
  {
    if script == [] then [] else script[0].taken + AllTaken(script[1..])
  }

  lemma {:induction false} CountJoin(a: seq<bool>, b: seq<bool>)
    ensures Count(a + b) == Count(a) + Count(b)
  {
    if b == [] {
      assert a + b == a;
    } else {
      CountJoin(a, b[..|b| - 1]);
      assert (a + b)[..|a + b| - 1] == a + b[..|b| - 1];
    }
  }

  /** Once every request in flight has been answered, and no dispatch failed, waiting returns with the
      number of answers that count. */
  lemma {:induction false} WaitReturns(s: State, script: seq<Dispatch>)
    requires Inv(s, true) && WithinFlight(s.inFlight, script)
    requires |AllTaken(script)| == s.inFlight && forall k :: 0 <= k < |script| ==> script[k].ok
    ensures WaitLoop(s, script).outcome == Events(s.landed + Count(AllTaken(script)))
    decreases |script|
  {
    if script == [] {
    } else {
      var after := Dispatched(s, script[0].taken);
      DispatchKeepsInv(s, script[0].taken);
      CountJoin(script[0].taken, AllTaken(script[1..]));
      if s.inFlight == 0 {
        assert AllTaken(script) == [];
      } else {
        WaitReturns(after, script[1..]);
      }
    }
  }

  lemma ApplyKeepsInv(s: State, queue: bool, op: Op)
    requires Inv(s, queue) && Possible(s, op)
    ensures Inv(Apply(s, queue, op).state, queue)
  {
    if queue {
      match op {
        case Present(_) =>
        case ProcessEvents(d) => DispatchKeepsInv(s, d.taken);
        case WaitForAll(script) => WaitLoopKeepsInv(s, script);
      }
    }
  }

  /** A run of calls, each of which returned before the next. */
  predicate CanRun(s: State, queue: bool, ops: seq<Op>)
    decreases |ops|
  {
    ops == [] ||
    (s.landed >= 0 && Possible(s, ops[0]) && !Apply(s, queue, ops[0]).outcome.StillWaiting? &&
     CanRun(Apply(s, queue, ops[0]).state, queue, ops[1..]))
  }

  /** Every call got past its assertion, as it must in a build that has assertions. */
  predicate Asserted(s: State, queue: bool, ops: seq<Op>)
    requires CanRun(s, queue, ops)
    decreases |ops|
  {
    ops == [] || (AssertHolds(s, queue, ops[0]) && Asserted(Apply(s, queue, ops[0]).state, queue, ops[1..]))
  }

  function Run(s: State, queue: bool, ops: seq<Op>): State
    requires CanRun(s, queue, ops)
    decreases |ops|
  {
    if ops == [] then s else Run(Apply(s, queue, ops[0]).state, queue, ops[1..])
  }

  /** Over every run, whether or not assertions hold, nothing is lost and nothing is handed out twice: the law
      that Inv states, and that a new surface meets, stays. */
  lemma {:induction false} Conservation(s: State, queue: bool, ops: seq<Op>)
    requires Inv(s, queue) && CanRun(s, queue, ops)
    ensures Inv(Run(s, queue, ops), queue)
    decreases |ops|
  {
    if ops != [] {
      ApplyKeepsInv(s, queue, ops[0]);
      Conservation(Apply(s, queue, ops[0]).state, queue, ops[1..]);
    }
  }

  // ------------------------------------------------------------------ what callers see

  /** The events a waiting loop gets to see: it stops when nothing is in flight, or at an error. */
  function WaitEvents(inFlight: int, script: seq<Dispatch>): seq<bool>
    decreases |script|
  {
    if inFlight <= 0 || script == [] then []
    else
      var taken := script[0].taken;
      taken + if script[0].ok then WaitEvents(inFlight - |taken|, script[1..]) else []
  }

  function EventsBy(s: State, queue: bool, op: Op): seq<bool> {
    match op
    case Present(_) => []
    case ProcessEvents(d) => if queue then d.taken else []
    case WaitForAll(script) => if queue then WaitEvents(s.inFlight, script) else []
  }

  /** All events the compositor's answers brought in a run. */
  function EventsIn(s: State, queue: bool, ops: seq<Op>): seq<bool>
    requires CanRun(s, queue, ops)
    decreases |ops|
  {
    if ops == [] then []
    else EventsBy(s, queue, ops[0]) + EventsIn(Apply(s, queue, ops[0]).state, queue, ops[1..])
  }

  function Given(outcome: Outcome): int {
    if outcome.Events? then outcome.n else 0
  }

  /** The sum of the numbers the calls of a run returned. */
  function HandedOut(s: State, queue: bool, ops: seq<Op>): int
    requires CanRun(s, queue, ops)
    decreases |ops|
  {
    if ops == [] then 0
    else Given(Apply(s, queue, ops[0]).outcome) + HandedOut(Apply(s, queue, ops[0]).state, queue, ops[1..])
  }

  /** The presents that asked for feedback: with a queue those whose feedback object could be had. */
  function Accepted(queue: bool, ops: seq<Op>): nat {
    if ops == [] then 0
    else (if ops[0].Present? && (queue ==> ops[0].listening) then 1 else 0) + Accepted(queue, ops[1..])
  }

  lemma {:induction false} WaitDelivers(s: State, script: seq<Dispatch>)
    requires Inv(s, true) && WithinFlight(s.inFlight, script)
    ensures var r, events := WaitLoop(s, script), WaitEvents(s.inFlight, script);
      && Given(r.outcome) + r.state.landed == s.landed + Count(events)
      && r.state.reported == s.reported + Given(r.outcome)
      && r.state.inFlight == s.inFlight - |events|
    decreases |script|
  {
    if s.inFlight > 0 && script != [] {
      var taken := script[0].taken;
      DispatchKeepsInv(s, taken);
      if script[0].ok {
        WaitDelivers(Dispatched(s, taken), script[1..]);
        CountJoin(taken, WaitEvents(s.inFlight - |taken|, script[1..]));
      } else {
        assert taken + [] == taken;
      }
    }
  }

  lemma OpDelivers(s: State, queue: bool, op: Op)
    requires Inv(s, queue) && Possible(s, op)
    ensures var r, events := Apply(s, queue, op), EventsBy(s, queue, op);
      && Given(r.outcome) + r.state.landed == s.landed + (if queue then Count(events) else Accepted(queue, [op]))
      && r.state.reported == s.reported + Given(r.outcome)
      && r.state.inFlight == s.inFlight + (if queue then Accepted(queue, [op]) - |events| else 0)
  {
    assert [op][1..] == [];
    if queue && op.WaitForAll? {
      WaitDelivers(s, op.script);
    }
  }

  lemma {:induction false} RunDelivers(s: State, queue: bool, ops: seq<Op>)
    requires Inv(s, queue) && CanRun(s, queue, ops)
    ensures var t, events, given := Run(s, queue, ops), EventsIn(s, queue, ops), HandedOut(s, queue, ops);
      && given + t.landed == s.landed + (if queue then Count(events) else Accepted(queue, ops))
      && t.reported == s.reported + given
      && t.inFlight == s.inFlight + (if queue then Accepted(queue, ops) - |events| else 0)
    decreases |ops|
  {
    if ops != [] {
      var next := Apply(s, queue, ops[0]).state;
      OpDelivers(s, queue, ops[0]);
      ApplyKeepsInv(s, queue, ops[0]);
      RunDelivers(next, queue, ops[1..]);
      CountJoin(EventsBy(s, queue, ops[0]), EventsIn(next, queue, ops[1..]));
      AcceptedFirst(queue, ops);
    }
  }

  lemma AcceptedFirst(queue: bool, ops: seq<Op>)
    requires ops != []
    ensures Accepted(queue, ops) == Accepted(queue, [ops[0]]) + Accepted(queue, ops[1..])
  {}

  lemma CallEmpties(s: State, queue: bool, op: Op)
    requires Inv(s, queue) && Possible(s, op) && !op.Present? && Apply(s, queue, op).outcome.Events?
    ensures Apply(s, queue, op).state.landed == 0
    ensures queue && op.WaitForAll? ==> Apply(s, queue, op).state.inFlight == 0
  {
    if queue && op.WaitForAll? {
      WaitLoopKeepsInv(s, op.script);
    }
  }

  lemma NoneAccepted(queue: bool, op: Op)
    requires !op.Present?
    ensures Accepted(queue, [op]) == 0
  {}

  /** What a call that succeeds after any run hands out: together with the calls before it exactly one event for
      every answer taken since nothing was outstanding, none twice and none left behind; without a queue one for
      every present.  A wait returns only when every present with a feedback object has been answered. */
  lemma {:induction false} EachEventHandedOutOnce(s: State, queue: bool, ops: seq<Op>, op: Op)
    requires Inv(s, queue) && s.inFlight == 0 && s.landed == 0
    requires CanRun(s, queue, ops) && Possible(Run(s, queue, ops), op) && !op.Present?
    ensures Inv(Run(s, queue, ops), queue)
    ensures var t := Run(s, queue, ops);
      var outcome, events := Apply(t, queue, op).outcome, EventsIn(s, queue, ops) + EventsBy(t, queue, op);
      && t.reported == s.reported + HandedOut(s, queue, ops)
      && (outcome.Events? ==>
            && HandedOut(s, queue, ops) + outcome.n == (if queue then Count(events) else Accepted(queue, ops))
            && (queue && op.WaitForAll? ==> |events| == Accepted(queue, ops)))
  {
    var t := Run(s, queue, ops);
    Conservation(s, queue, ops);
    RunDelivers(s, queue, ops);
    OpDelivers(t, queue, op);
    NoneAccepted(queue, op);
    CountJoin(EventsIn(s, queue, ops), EventsBy(t, queue, op));
    if Apply(t, queue, op).outcome.Events? {
      CallEmpties(t, queue, op);
    }
  }

  /** The loop meets a failing dispatch after an event was taken. */
  predicate WaitStrands(inFlight: int, script: seq<Dispatch>, taken: bool)
    decreases |script|
  {
    && inFlight > 0 && script != []
    && var taken := taken || true in script[0].taken;
       if script[0].ok then WaitStrands(inFlight - |script[0].taken|, script[1..], taken) else taken
  }

  /** A call that fails after it dispatched events that were taken. */
  predicate Strands(s: State, op: Op) {
    match op
    case Present(_) => false
    case ProcessEvents(d) => !d.ok && true in d.taken
    case WaitForAll(script) => WaitStrands(s.inFlight, script, false)
  }

  predicate AnyStrands(s: State, ops: seq<Op>)
    requires CanRun(s, true, ops)
    decreases |ops|
  {
    ops != [] && (Strands(s, ops[0]) || AnyStrands(Apply(s, true, ops[0]).state, ops[1..]))
  }

  lemma {:induction false} WaitLeavesLanded(s: State, script: seq<Dispatch>)
    requires Inv(s, true) && WithinFlight(s.inFlight, script)
    requires !WaitLoop(s, script).outcome.StillWaiting?
    ensures WaitLoop(s, script).state.landed > 0 <==> WaitStrands(s.inFlight, script, s.landed > 0)
    decreases |script|
  {
    if s.inFlight > 0 && script != [] {
      DispatchKeepsInv(s, script[0].taken);
      CountBound(script[0].taken);
      if script[0].ok {
        WaitLeavesLanded(Dispatched(s, script[0].taken), script[1..]);
      }
    }
  }

  lemma OpLeavesLanded(s: State, op: Op)
    requires Inv(s, true) && Possible(s, op) && AssertHolds(s, true, op)
    requires !Apply(s, true, op).outcome.StillWaiting?
    ensures Apply(s, true, op).state.landed > 0 <==> Strands(s, op) || (op.Present? && s.landed > 0)
  {
    match op {
      case Present(_) =>
      case ProcessEvents(d) => CountBound(d.taken);
      case WaitForAll(script) => WaitLeavesLanded(s, script);
    }
  }

  /** A landed count left over is never cleared before the next call that asserts there is none. */
  lemma {:induction false} LandedIffStranded(s: State, ops: seq<Op>)
    requires Inv(s, true) && CanRun(s, true, ops) && Asserted(s, true, ops)
    ensures Run(s, true, ops).landed > 0 ==> s.landed > 0 || AnyStrands(s, ops)
    ensures AnyStrands(s, ops) ==> Run(s, true, ops).landed > 0
    ensures s.landed > 0 ==> Run(s, true, ops).landed > 0
    decreases |ops|
  {
    if ops != [] {
      ApplyKeepsInv(s, true, ops[0]);
      OpLeavesLanded(s, ops[0]);
      LandedIffStranded(Apply(s, true, ops[0]).state, ops[1..]);
    }
  }

  /** With a queue, the assertions that nothing has landed yet hold at the next call exactly if no call so
      far failed after dispatching an event that was taken. */
  lemma AssertHoldsIff(ops: seq<Op>, op: Op)
    requires CanRun(NEW, true, ops) && Asserted(NEW, true, ops) && !op.Present?
    ensures AssertHolds(Run(NEW, true, ops), true, op) <==> !AnyStrands(NEW, ops)
  {
    LandedIffStranded(NEW, ops);
    Conservation(NEW, true, ops);
  }

  /** Such a call: one feedback lands, the connection fails, and the next call's assertion does not hold. */
  lemma FailedDispatchStrands()
    ensures var ops := [Present(true), ProcessEvents(Dispatch([true], false))];
      CanRun(NEW, true, ops) && Asserted(NEW, true, ops) && !AssertHolds(Run(NEW, true, ops), true, WaitForAll([]))
  {
    var d := Dispatch([true], false);
    CountOne(true);
    var first := Apply(NEW, true, Present(true)).state;
    var ops := [Present(true), ProcessEvents(d)];
    assert ops[1..] == [ProcessEvents(d)];
    assert [d][1..] == [] && [ProcessEvents(d)][1..] == [];
    var second := Apply(first, true, ProcessEvents(d)).state;
    assert second.landed == 1;
    assert Possible(first, ProcessEvents(d)) by {
      assert WithinFlight(0, []);
    }
    assert CanRun(second, true, []) && Run(second, true, []) == second;
    assert CanRun(first, true, [ProcessEvents(d)]);
    assert Run(first, true, [ProcessEvents(d)]) == second;
  }
}
