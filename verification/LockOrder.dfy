/**
 Deadlock freedom by lock ranking, and freedom from data races by guarding.

 The locking structure of a hook, or of a worker thread, is a program of properly nested critical
 sections, waits for a worker (a thread join, or the condition variable that announces a processed
 frame), the worker's announcements, and uses of shared data.  A program is well nested if every
 acquisition and every wait made inside a section has a higher rank than the section's lock, and every
 use of shared data is inside a section of its guard.  That is checked for the hooks of this library,
 and proved to be enough: threads that run such programs never wait in a cycle and never race.
 */
module LockOrder {
  datatype Lock =
    | ExternalLock            // wlExternalApiLock
    | DisplayMutex(d: nat)    // display->mutex
    | SurfaceLock(s: nat)     // surface->mutexLock
    | FrameSync(s: nat)       // surface->mutexFrameSync
    | ImagesMutex(s: nat)     // surface->ctx.streamImagesMutex

  /** What a hook can wait for a worker thread to do; `g` tells the threads of one surface apart. */
  datatype Event =
    | FrameProcessed(s: nat, n: nat)
    | DamageThreadDone(s: nat, g: nat)
    | ReleaseThreadDone(s: nat, g: nat)

  /** Shared data, each with the lock that guards it. */
  datatype Data =
    | DisplayList                // the list of displays and their reference counts
    | DisplayState(d: nat)       // initCount, the list of surfaces and their reference counts
    | Context(s: nat)            // the context of a listed surface, framesProduced and the feedback counts
    | FramesProcessed(s: nat)    // where a swap reads it and the damage thread steps it
    | StreamImageList(s: nat)    // streamImages, while another thread may be at it

  function Guard(x: Data): Lock {
    match x
    case DisplayList => ExternalLock
    case DisplayState(d) => DisplayMutex(d)
    case Context(s) => SurfaceLock(s)
    case FramesProcessed(s) => FrameSync(s)
    case StreamImageList(s) => ImagesMutex(s)
  }

  function Rank(l: Lock): nat {
    match l
    case ExternalLock => 0
    case DisplayMutex(_) => 1
    case SurfaceLock(_) => 2
    case FrameSync(_) => 4
    case ImagesMutex(_) => 5
  }

  const WAIT_RANK := 3
  const TOP_RANK := 6

  // ------------------------------------------------------------------ programs and ranking

  datatype Program =
    | Skip
    | Then(first: Program, second: Program)
    | Critical(lock: Lock, body: Program)
    | Await(event: Event)
    | Post(event: Event)
    | Use(data: Data)

  /** The condition a swap waits for is on data of the surface, so it waits with the surface locked. */
  predicate MayAwait(held: set<Lock>, e: Event) {
    e.FrameProcessed? ==> SurfaceLock(e.s) in held
  }

  /** With `held` locked, everything `p` acquires or waits for ranks above `floor`, and it uses only data whose
      guard is locked; and so on inside its sections. */
  predicate Nested(p: Program, floor: int, held: set<Lock>) {
    match p
    case Skip => true
    case Then(a, b) => Nested(a, floor, held) && Nested(b, floor, held)
    case Critical(l, body) => floor < Rank(l) && Nested(body, Rank(l), held + {l})
    case Await(e) => floor < WAIT_RANK && MayAwait(held, e)
    case Post(_) => true
    case Use(x) => Guard(x) in held
  }

  datatype Op =
    | Acquire(lock: Lock)
    | Release(lock: Lock)
    | Wait(event: Event)
    | Signal(event: Event)
    | Touch(data: Data)

  function Compile(p: Program): seq<Op> {
    match p
    case Skip => []
    case Then(a, b) => Compile(a) + Compile(b)
    case Critical(l, body) => [Acquire(l)] + Compile(body) + [Release(l)]
    case Await(e) => [Wait(e)]
    case Post(e) => [Signal(e)]
    case Use(x) => [Touch(x)]
  }

  /** What a program does somewhere in its course. */
  predicate Does(p: Program, op: Op) {
    match p
    case Skip => false
    case Then(a, b) => Does(a, op) || Does(b, op)
    case Critical(l, body) => op == Acquire(l) || op == Release(l) || Does(body, op)
    case Await(e) => op == Wait(e)
    case Post(e) => op == Signal(e)
    case Use(x) => op == Touch(x)
  }

  lemma {:induction false} DoesCompiled(p: Program, op: Op)
    ensures Does(p, op) <==> op in Compile(p)
    decreases p
  {
    match p
    case Then(a, b) =>
      DoesCompiled(a, op);
      DoesCompiled(b, op);
    case Critical(l, body) => DoesCompiled(body, op);
    case _ =>
  }

  /** The dynamic discipline: with `held` locked, `ops` acquires and waits upwards only, touches data only
      under its guard, releases what it holds and ends holding nothing. */
  predicate Ordered(held: set<Lock>, ops: seq<Op>)
    decreases |ops|
  {
    if ops == [] then held == {}
    else match ops[0]
      case Acquire(l) => (forall h :: h in held ==> Rank(h) < Rank(l)) && Ordered(held + {l}, ops[1..])
      case Release(l) => l in held && Ordered(held - {l}, ops[1..])
      case Wait(e) => (forall h :: h in held ==> Rank(h) < WAIT_RANK) && MayAwait(held, e) && Ordered(held, ops[1..])
      case Signal(_) => Ordered(held, ops[1..])
      case Touch(x) => Guard(x) in held && Ordered(held, ops[1..])
  }

  lemma {:induction false} NestedIsOrdered(p: Program, floor: int, held: set<Lock>, rest: seq<Op>)
    requires Nested(p, floor, held) && (forall h :: h in held ==> Rank(h) <= floor) && Ordered(held, rest)
    ensures Ordered(held, Compile(p) + rest)
    decreases p
  {
    match p
    case Skip =>
      assert Compile(p) + rest == rest;
    case Then(a, b) =>
      NestedIsOrdered(b, floor, held, rest);
      NestedIsOrdered(a, floor, held, Compile(b) + rest);
      assert Compile(p) + rest == Compile(a) + (Compile(b) + rest);
    case Critical(l, body) =>
      var after := [Release(l)] + rest;
      assert after[1..] == rest && (held + {l}) - {l} == held;
      NestedIsOrdered(body, Rank(l), held + {l}, after);
      var inside := Compile(body) + after;
      assert Compile(p) + rest == [Acquire(l)] + inside;
      assert ([Acquire(l)] + inside)[1..] == inside;
    case Await(e) =>
      assert ([Wait(e)] + rest)[1..] == rest;
    case Post(e) =>
      assert ([Signal(e)] + rest)[1..] == rest;
    case Use(x) =>
      assert ([Touch(x)] + rest)[1..] == rest;
  }

  /** A worker neither waits nor takes a lock that ranks below waiting for a worker. */
  predicate WorkerOp(op: Op) {
    match op
    case Acquire(l) => WAIT_RANK < Rank(l)
    case Wait(_) => false
    case _ => true
  }

  lemma {:induction false} NestedAboveWaitIsWorker(p: Program, floor: int, held: set<Lock>)
    requires Nested(p, floor, held) && WAIT_RANK <= floor
    ensures forall i :: 0 <= i < |Compile(p)| ==> WorkerOp(Compile(p)[i])
    decreases p
  {
    match p
    case Then(a, b) =>
      NestedAboveWaitIsWorker(a, floor, held);
      NestedAboveWaitIsWorker(b, floor, held);
    case Critical(l, body) =>
      NestedAboveWaitIsWorker(body, Rank(l), held + {l});
    case _ =>
  }

  // ------------------------------------------------------------------ systems of threads

  datatype Thread = Thread(held: set<Lock>, rest: seq<Op>)

  datatype System = System(threads: seq<Thread>, posted: set<Event>)

  predicate Finished(t: Thread) {
    t.rest == []
  }

  /** Thread i can take its next step. */
  predicate CanStep(sys: System, i: nat)
    requires i < |sys.threads|
  {
    var t := sys.threads[i];
    !Finished(t) &&
    match t.rest[0]
    case Acquire(l) => forall j :: 0 <= j < |sys.threads| ==> l !in sys.threads[j].held
    case Wait(e) => e in sys.posted
    case _ => true
  }

  function Step(sys: System, i: nat): System
    requires i < |sys.threads| && CanStep(sys, i)
  {
    var t := sys.threads[i];
    var held := match t.rest[0]
                case Acquire(l) => t.held + {l}
                case Release(l) => t.held - {l}
                case _ => t.held;
    var posted := match t.rest[0]
                  case Signal(e) => sys.posted + {e}
                  case _ => sys.posted;
    System(sys.threads[i := Thread(held, t.rest[1..])], posted)
  }

  predicate Worker(t: Thread) {
    && (forall i :: 0 <= i < |t.rest| ==> WorkerOp(t.rest[i]))
    && (forall h :: h in t.held ==> WAIT_RANK < Rank(h))
  }

  /** Some worker still has to announce e. */
  ghost predicate Promised(sys: System, e: Event) {
    exists j :: 0 <= j < |sys.threads| && Worker(sys.threads[j]) && Signal(e) in sys.threads[j].rest
  }

  ghost predicate Inv(sys: System) {
    && (forall i :: 0 <= i < |sys.threads| ==> Ordered(sys.threads[i].held, sys.threads[i].rest))
    && (forall i, j :: 0 <= i < j < |sys.threads| ==> sys.threads[i].held !! sys.threads[j].held)
    && (forall i, e :: 0 <= i < |sys.threads| && Wait(e) in sys.threads[i].rest ==>
          e in sys.posted || Promised(sys, e))
  }

  lemma PromiseKept(sys: System, i: nat, e: Event)
    requires i < |sys.threads| && CanStep(sys, i) && Promised(sys, e)
    ensures e in Step(sys, i).posted || Promised(Step(sys, i), e)
  {
    var next := Step(sys, i);
    var j :| 0 <= j < |sys.threads| && Worker(sys.threads[j]) && Signal(e) in sys.threads[j].rest;
    if j == i {
      var t := sys.threads[i];
      assert WorkerOp(t.rest[0]);
      assert t.rest == [t.rest[0]] + t.rest[1..];
      assert Worker(next.threads[j]);
      if t.rest[0] != Signal(e) {
        assert Signal(e) in next.threads[j].rest;
      }
    } else {
      assert next.threads[j] == sys.threads[j];
    }
  }

  lemma StepKeepsInv(sys: System, i: nat)
    requires Inv(sys) && i < |sys.threads| && CanStep(sys, i)
    ensures Inv(Step(sys, i))
  {
    var next := Step(sys, i);
    assert Ordered(sys.threads[i].held, sys.threads[i].rest);
    forall k, e | 0 <= k < |next.threads| && Wait(e) in next.threads[k].rest
      ensures e in next.posted || Promised(next, e)
    {
      assert Wait(e) in sys.threads[k].rest;
      if e !in sys.posted { PromiseKept(sys, i, e); }
    }
  }

  /** No data race: two threads about to touch shared data hold its guards, so the data is not the same.  Nor do
      two threads ever wait for frames of the same surface, of which one would miss the signal. */
  lemma NoRace(sys: System, i: nat, j: nat)
    requires Inv(sys) && i < |sys.threads| && j < |sys.threads| && i != j
    requires !Finished(sys.threads[i]) && !Finished(sys.threads[j])
    ensures sys.threads[i].rest[0].Touch? ==> Guard(sys.threads[i].rest[0].data) in sys.threads[i].held
    ensures var a, b := sys.threads[i].rest[0], sys.threads[j].rest[0];
      && (a.Touch? && b.Touch? ==> Guard(a.data) != Guard(b.data))
      && (a.Wait? && b.Wait? && a.event.FrameProcessed? && b.event.FrameProcessed? ==> a.event.s != b.event.s)
  {
    assert Ordered(sys.threads[i].held, sys.threads[i].rest) && Ordered(sys.threads[j].held, sys.threads[j].rest);
    assert sys.threads[i].held !! sys.threads[j].held;
  }

  function HeadRank(t: Thread): nat
    requires !Finished(t)
  {
    match t.rest[0]
    case Acquire(l) => Rank(l)
    case Wait(_) => WAIT_RANK
    case _ => TOP_RANK
  }

  /** No deadlock: follow what an unfinished thread waits for; ranks only go up, so some thread can step. */
  lemma {:induction false} SomeThreadSteps(sys: System, i: nat) returns (k: nat)
    requires Inv(sys) && i < |sys.threads| && !Finished(sys.threads[i])
    ensures k < |sys.threads| && CanStep(sys, k)
    decreases TOP_RANK - HeadRank(sys.threads[i])
  {
    if CanStep(sys, i) {
      return i;
    }
    var t := sys.threads[i];
    match t.rest[0]
    case Acquire(l) =>
      var j :| 0 <= j < |sys.threads| && l in sys.threads[j].held;
      assert Ordered(sys.threads[j].held, sys.threads[j].rest);
      k := SomeThreadSteps(sys, j);
    case Wait(e) =>
      assert Wait(e) in t.rest;
      var j :| 0 <= j < |sys.threads| && Worker(sys.threads[j]) && Signal(e) in sys.threads[j].rest;
      assert WorkerOp(sys.threads[j].rest[0]);
      k := SomeThreadSteps(sys, j);
  }

  function TotalOps(threads: seq<Thread>): nat {
    if threads == [] then 0 else |threads[0].rest| + TotalOps(threads[1..])
  }

  lemma {:induction false} StepUsesOneOp(threads: seq<Thread>, i: nat, t: Thread)
    requires i < |threads| && |threads[i].rest| == |t.rest| + 1
    ensures TotalOps(threads[i := t]) == TotalOps(threads) - 1
  {
    if i == 0 {
      assert threads[i := t][1..] == threads[1..];
    } else {
      assert threads[i := t][1..] == threads[1..][i - 1 := t];
      StepUsesOneOp(threads[1..], i - 1, t);
    }
  }

  ghost predicate CanRun(sys: System, schedule: seq<nat>)
    decreases |schedule|
  {
    schedule == [] ||
    (schedule[0] < |sys.threads| && CanStep(sys, schedule[0]) && CanRun(Step(sys, schedule[0]), schedule[1..]))
  }

  ghost function Run(sys: System, schedule: seq<nat>): System
    requires CanRun(sys, schedule)
    decreases |schedule|
  {
    if schedule == [] then sys else Run(Step(sys, schedule[0]), schedule[1..])
  }

  /** Every interleaving keeps the invariant, has at most as many steps as there are operations, and
      stops only when every thread has finished. */
  lemma {:induction false} EveryRunCompletes(sys: System, schedule: seq<nat>)
    requires Inv(sys) && CanRun(sys, schedule)
    ensures var end := Run(sys, schedule);
            && Inv(end)
            && |schedule| + TotalOps(end.threads) == TotalOps(sys.threads)
            && ((forall k :: 0 <= k < |end.threads| ==> !CanStep(end, k)) ==>
                  forall i :: 0 <= i < |end.threads| ==> Finished(end.threads[i]))
    decreases |schedule|
  {
    if schedule == [] {
      forall i | 0 <= i < |sys.threads| && !Finished(sys.threads[i])
        ensures exists k :: 0 <= k < |sys.threads| && CanStep(sys, k)
      {
        var k := SomeThreadSteps(sys, i);
      }
    } else {
      var i := schedule[0];
      StepKeepsInv(sys, i);
      StepUsesOneOp(sys.threads, i, Step(sys, i).threads[i]);
      EveryRunCompletes(Step(sys, i), schedule[1..]);
    }
  }
}
