/**
 The frame hand-over between eglSwapBuffers and the damage thread of one window surface.

 Two threads share a surface: the application thread, which swaps, flushes or shuts the
 damage thread down (always under the surface lock, so one operation at a time), and the
 damage thread, which watches the stream for new frames and commits them.  Each C statement
 that touches shared state is one atomic step; program counters name the statement about
 to run.  The EGL stream is the environment: producing a frame bumps the producer counter
 and signals the new-frame sync in one step, and a failed swap produces nothing.
 */
module FrameSync {

  datatype Sync = Unsignaled | Signaled

  /** The owner of surface->mutexFrameSync. */
  datatype Owner = Nobody | App | Damage

  /** The statement of damage_thread about to run. */
  datatype DamagePc =
    | Unsignal        // signalSync(EGL_UNSIGNALED_KHR)
    | QueryFrame      // queryStreamu64(EGL_PRODUCER_FRAME_KHR, &framesFinished)
    | QueryState      // queryStream(EGL_STREAM_STATE_KHR)
    | CheckFlush      // if (damageThreadFlush)
    | CheckDrained    //   if (framesProcessed == framesProduced) damageThreadShutdown = 1
    | CheckShutdown   // if (damageThreadShutdown) ok = 0
    | CheckWindow     // native window still valid?
    | LockFrameSync   // pthread_mutex_lock(&mutexFrameSync)
    | Compare         // framesFinished != framesProcessed
    | SendDamage      // wlEglSendDamageEvent
    | CountProcessed  // framesProcessed++
    | SignalCond      // pthread_cond_signal(&condFrameSync)
    | UnlockSent      // unlock after a damage event
    | UnlockIdle      // unlock when there was no new frame
    | ClientWait      // clientWaitSync(EGL_FOREVER_KHR)
    | Exited

  /** The statement of the application thread about to run. */
  datatype AppPc =
    | Idle
    | SwapLock        // lock mutexFrameSync
    | SwapTest        // while (framesProduced != framesProcessed)
    | SwapSleep       // inside pthread_cond_wait, mutex released
    | SwapWoken       // pthread_cond_wait is about to take the mutex back
    | SwapUnlock      // loop left, unlock mutexFrameSync
    | Swapping        // inside the driver's eglSwapBuffers
    | SwapCount       // framesProduced++
    | FinishRequest   // set damageThreadShutdown or damageThreadFlush
    | FinishSignal    // signalSync(EGL_SIGNALED_KHR)
    | FinishJoin      // pthread_join
    | Finished        // thread joined, sync destroyed

  datatype State = State(
    sync: Sync,
    streamFrames: nat,       // the stream's producer frame
    produced: nat,           // ctx.framesProduced
    finished: nat,           // ctx.framesFinished
    processed: nat,          // ctx.framesProcessed
    sends: nat,              // history: calls of wlEglSendDamageEvent
    flush: bool,             // ctx.damageThreadFlush
    shutdown: bool,          // ctx.damageThreadShutdown
    frameSync: Owner,
    damage: DamagePc,
    ok: bool,                // damage_thread's local
    app: AppPc,
    immediate: bool,         // argument of finish_wl_eglstream_damage_thread
    failed: bool,            // history: a call made by the damage thread failed
    signalLost: bool)        // history: the finisher's signalSync call failed

  /** The state left by setup_wl_eglstream_damage_thread on a new stream. */
  const INIT := State(Unsignaled, 0, 0, 0, 0, 0, false, false, Nobody, Unsignal, true, Idle, false, false, false)

  // ------------------------------------------------------------------ the damage thread

  /** `good` is the outcome of the call made at this statement, where there is one. */
  predicate DamageEnabled(s: State, good: bool) {
    && !s.damage.Exited?
    && (s.damage.LockFrameSync? ==> s.frameSync.Nobody?)
    && (s.damage.ClientWait? && good ==> s.sync.Signaled?)
  }

  predicate AtLoopHead(pc: DamagePc) { pc.Unsignal? || pc.QueryFrame? || pc.QueryState? }

  predicate AtFlagChecks(pc: DamagePc) { pc.CheckFlush? || pc.CheckDrained? || pc.CheckShutdown? || pc.CheckWindow? }

  predicate HoldsFrameSync(pc: DamagePc) {
    pc.Compare? || pc.SendDamage? || pc.CountProcessed? || pc.SignalCond? || pc.UnlockSent? || pc.UnlockIdle?
  }

  /** Lines 329-339: the first failing call ends the && chain. */
  function LoopHead(s: State, good: bool): State
    requires AtLoopHead(s.damage)
  {
    if !good then s.(ok := false, failed := true, damage := CheckFlush)
    else match s.damage
      case Unsignal => s.(sync := Unsignaled, damage := QueryFrame)
      case QueryFrame => s.(finished := s.streamFrames, damage := QueryState)
      case QueryState => s.(damage := CheckFlush)
  }

  /** Lines 341-364. */
  function FlagChecks(s: State, good: bool): State
    requires AtFlagChecks(s.damage)
  {
    match s.damage
    case CheckFlush => s.(damage := if s.flush then CheckDrained else CheckShutdown)
    case CheckDrained => s.(shutdown := s.shutdown || s.processed == s.produced, damage := CheckShutdown)
    case CheckShutdown => s.(ok := s.ok && !s.shutdown, damage := CheckWindow)
    case CheckWindow =>
      s.(ok := s.ok && good, failed := s.failed || (s.ok && !good),
         damage := if s.ok && good then LockFrameSync else Exited)
  }

  /** Lines 369-391, all under mutexFrameSync. */
  function FrameSection(s: State, good: bool): State
    requires HoldsFrameSync(s.damage)
  {
    match s.damage
    case Compare => s.(damage := if s.finished != s.processed then SendDamage else UnlockIdle)
    case SendDamage => s.(ok := good, failed := s.failed || !good, sends := s.sends + 1, damage := CountProcessed)
    case CountProcessed => s.(processed := s.processed + 1, damage := SignalCond)
    case SignalCond => s.(app := if s.app.SwapSleep? then SwapWoken else s.app, damage := UnlockSent)
    case UnlockSent => s.(frameSync := Nobody, damage := if s.ok then Unsignal else Exited)
    case UnlockIdle => s.(frameSync := Nobody, damage := ClientWait)
  }

  function DamageStep(s: State, good: bool): State
    requires DamageEnabled(s, good)
  {
    if AtLoopHead(s.damage) then LoopHead(s, good)
    else if AtFlagChecks(s.damage) then FlagChecks(s, good)
    else if HoldsFrameSync(s.damage) then FrameSection(s, good)
    else if s.damage.LockFrameSync? then s.(frameSync := Damage, damage := Compare)
    else if good then s.(damage := Unsignal)
    else s.(ok := false, failed := true, damage := Exited)
  }

  // ------------------------------------------------------------------ the application thread

  /** What an idle application does next. */
  datatype Request = Swap | Flush | Shutdown

  predicate AppEnabled(s: State) {
    match s.app
    case SwapLock => s.frameSync == Nobody
    case SwapWoken => s.frameSync == Nobody
    case FinishJoin => s.damage.Exited?
    case _ => true
  }

  predicate InSwap(pc: AppPc) {
    pc.SwapLock? || pc.SwapTest? || pc.SwapSleep? || pc.SwapWoken? || pc.SwapUnlock? || pc.Swapping? || pc.SwapCount?
  }

  /** `SwapSleep` steps only by a spurious wakeup; the real one is the damage thread's step. */
  function SwapStep(s: State, good: bool): State
    requires InSwap(s.app)
  {
    match s.app
    case SwapLock => s.(frameSync := App, app := SwapTest)
    case SwapTest =>
      if s.produced != s.processed then s.(frameSync := Nobody, app := SwapSleep) else s.(app := SwapUnlock)
    case SwapSleep => s.(app := SwapWoken)
    case SwapWoken => s.(frameSync := App, app := SwapTest)
    case SwapUnlock => s.(frameSync := Nobody, app := Swapping)
    case Swapping =>
      if good then s.(streamFrames := s.streamFrames + 1, sync := Signaled, app := SwapCount) else s.(app := Idle)
    case SwapCount => s.(produced := s.produced + 1, app := Idle)
  }

  /** finish_wl_eglstream_damage_thread, then the set-up on the next stream. */
  function FinishStep(s: State, good: bool): State
    requires s.app.FinishRequest? || s.app.FinishSignal? || s.app.FinishJoin? || s.app.Finished?
  {
    match s.app
    case FinishRequest =>
      if s.immediate then s.(shutdown := true, app := FinishSignal) else s.(flush := true, app := FinishSignal)
    case FinishSignal =>
      if good then s.(sync := Signaled, app := FinishJoin) else s.(signalLost := true, app := FinishJoin)
    case FinishJoin => s.(app := Finished)
    case Finished => INIT
  }

  function AppStep(s: State, request: Request, good: bool): State
    requires AppEnabled(s)
  {
    if s.app.Idle? then
      if request == Swap then s.(app := SwapLock)
      else s.(immediate := request == Shutdown, app := FinishRequest)
    else if InSwap(s.app) then SwapStep(s, good)
    else FinishStep(s, good)
  }

  datatype Step = DamageMove(good: bool) | AppMove(request: Request, good: bool)

  predicate Enabled(s: State, step: Step) {
    match step
    case DamageMove(good) => DamageEnabled(s, good)
    case AppMove(_, _) => AppEnabled(s)
  }

  function Apply(s: State, step: Step): State
    requires Enabled(s, step)
  {
    match step
    case DamageMove(good) => DamageStep(s, good)
    case AppMove(request, good) => AppStep(s, request, good)
  }

  /** `steps` can be taken one after the other from `s`. */
  predicate CanRun(s: State, steps: seq<Step>)
    decreases |steps|
  {
    steps == [] || (Enabled(s, steps[0]) && CanRun(Apply(s, steps[0]), steps[1..]))
  }

  function Run(s: State, steps: seq<Step>): State
    requires CanRun(s, steps)
    decreases |steps|
  {
    if steps == [] then s else Run(Apply(s, steps[0]), steps[1..])
  }

  // ------------------------------------------------------------------ the invariant

  /** The producer frame has been read in this round of the loop and is still being acted upon. */
  predicate AfterQuery(pc: DamagePc) {
    pc.QueryState? || pc.CheckFlush? || pc.CheckDrained? || AfterDrainCheck(pc)
  }

  /** The flush flag has been looked at in this round. */
  predicate AfterDrainCheck(pc: DamagePc) {
    pc.CheckShutdown? || pc.CheckWindow? || pc.LockFrameSync? || pc.Compare? || pc.UnlockIdle? || pc.ClientWait?
  }

  /** The shutdown flag has been looked at in this round. */
  predicate AfterShutdownCheck(pc: DamagePc) {
    pc.CheckWindow? || pc.LockFrameSync? || HoldsFrameSync(pc) || pc.ClientWait? || pc.Unsignal?
  }

  /** The finisher has raised its flag. */
  predicate Raised(s: State) {
    s.app.FinishSignal? || s.app.FinishJoin? || s.app.Finished?
  }

  predicate CountersInv(s: State) {
    && s.processed <= s.finished <= s.streamFrames <= s.processed + 1
    && s.streamFrames == s.produced + (if s.app.SwapCount? then 1 else 0)
    && ((s.app.SwapUnlock? || s.app.Swapping?) ==> s.processed == s.produced)
    && s.sends == s.processed + (if s.damage.CountProcessed? then 1 else 0)
    && ((s.damage.SendDamage? || s.damage.CountProcessed?) ==> s.processed < s.finished)
    && (s.damage.SignalCond? || s.damage.UnlockSent? ==> s.processed == s.streamFrames && !s.app.Swapping?)
    && ((s.damage.UnlockIdle? || s.damage.ClientWait?) ==> s.processed == s.finished)
  }

  /** Statements that the loop reaches only while nothing has ended it. */
  predicate GoesOn(pc: DamagePc) {
    AtLoopHead(pc) || pc.LockFrameSync? || pc.Compare? || pc.SendDamage? || pc.UnlockIdle? || pc.ClientWait?
  }

  predicate LocksInv(s: State) {
    && (s.frameSync == App <==> (s.app.SwapTest? || s.app.SwapUnlock?))
    && (s.frameSync == Damage <==> HoldsFrameSync(s.damage))
    && (GoesOn(s.damage) ==> s.ok)
  }

  predicate WakeupInv(s: State) {
    && (s.ok && AfterQuery(s.damage) && s.sync == Unsignaled ==> s.finished == s.streamFrames)
    && (s.app.SwapSleep? && s.produced == s.processed ==> s.damage.SignalCond?)
  }

  predicate FinishInv(s: State) {
    && (s.flush <==> Raised(s) && !s.immediate)
    && (Raised(s) && s.immediate ==> s.shutdown)
    && (s.shutdown ==> Raised(s) && (s.immediate || s.processed == s.produced))
    && (s.damage.CheckDrained? ==> s.flush)
    && (!s.ok && !s.failed ==> s.shutdown)
    && (s.failed ==> !s.ok)
    && (s.damage.Exited? ==> !s.ok)
    && (s.app.Finished? ==> s.damage.Exited?)
    && (s.signalLost ==> s.app.FinishJoin? || s.app.Finished?)
    // A request that was signalled is still signalled, or has been acted upon.
    && (s.app.FinishJoin? && !s.signalLost && s.ok && s.sync.Unsignaled? ==>
          if s.immediate then !AfterShutdownCheck(s.damage)
          else AfterDrainCheck(s.damage) ==> s.processed < s.produced || (s.shutdown && s.damage.CheckShutdown?))
  }

  predicate Inv(s: State) {
    CountersInv(s) && LocksInv(s) && WakeupInv(s) && FinishInv(s)
  }

  lemma LoopHeadPreservesInv(s: State, good: bool)
    requires Inv(s) && AtLoopHead(s.damage)
    ensures Inv(LoopHead(s, good))
  {
    match s.damage
    case Unsignal =>
    case QueryFrame =>
    case QueryState =>
  }

  lemma FlagChecksPreserveInv(s: State, good: bool)
    requires Inv(s) && AtFlagChecks(s.damage)
    ensures Inv(FlagChecks(s, good))
  {
    match s.damage
    case CheckFlush =>
    case CheckDrained =>
    case CheckShutdown =>
    case CheckWindow =>
  }

  lemma FrameSectionPreservesInv(s: State, good: bool)
    requires Inv(s) && HoldsFrameSync(s.damage)
    ensures Inv(FrameSection(s, good))
  {
    match s.damage
    case Compare =>
    case SendDamage =>
    case CountProcessed =>
    case SignalCond =>
    case UnlockSent =>
    case UnlockIdle =>
  }

  lemma DamagePreservesInv(s: State, good: bool)
    requires Inv(s) && DamageEnabled(s, good)
    ensures Inv(DamageStep(s, good))
  {
    if AtLoopHead(s.damage) { LoopHeadPreservesInv(s, good); }
    else if AtFlagChecks(s.damage) { FlagChecksPreserveInv(s, good); }
    else if HoldsFrameSync(s.damage) { FrameSectionPreservesInv(s, good); }
  }

  lemma SwapPreservesInv(s: State, good: bool)
    requires Inv(s) && AppEnabled(s) && InSwap(s.app)
    ensures Inv(SwapStep(s, good))
  {
    match s.app
    case SwapLock =>
    case SwapTest =>
    case SwapSleep =>
    case SwapWoken =>
    case SwapUnlock =>
    case Swapping =>
    case SwapCount =>
  }

  lemma FinishPreservesInv(s: State, good: bool)
    requires Inv(s) && AppEnabled(s) && !InSwap(s.app) && !s.app.Idle?
    ensures Inv(FinishStep(s, good))
  {
    match s.app
    case FinishRequest =>
    case FinishSignal =>
    case FinishJoin =>
    case Finished =>
  }

  lemma AppPreservesInv(s: State, request: Request, good: bool)
    requires Inv(s) && AppEnabled(s)
    ensures Inv(AppStep(s, request, good))
  {
    if InSwap(s.app) { SwapPreservesInv(s, good); }
    else if !s.app.Idle? { FinishPreservesInv(s, good); }
  }

  lemma StepPreservesInv(s: State, step: Step)
    requires Inv(s) && Enabled(s, step)
    ensures Inv(Apply(s, step))
  {
    match step
    case DamageMove(good) => DamagePreservesInv(s, good);
    case AppMove(request, good) => AppPreservesInv(s, request, good);
  }

  /** Every reachable state satisfies the invariant, whatever fails and however threads interleave. */
  lemma {:induction false} RunPreservesInv(s: State, steps: seq<Step>)
    requires Inv(s) && CanRun(s, steps)
    ensures Inv(Run(s, steps))
    decreases |steps|
  {
    if steps != [] {
      StepPreservesInv(s, steps[0]);
      RunPreservesInv(Apply(s, steps[0]), steps[1..]);
    }
  }

  // ------------------------------------------------------------------ what the invariant gives

  /** The damage thread is asleep in clientWaitSync and nothing has signalled the sync. */
  predicate Blocked(s: State) {
    s.damage.ClientWait? && s.sync == Unsignaled
  }

  /** No lost wakeup: the thread never sleeps on a frame or a request that was delivered. */
  lemma NoLostWakeup(steps: seq<Step>)
    requires CanRun(INIT, steps) && Blocked(Run(INIT, steps))
    ensures var s := Run(INIT, steps);
            && s.streamFrames == s.finished == s.processed == s.sends
            && !(s.app.SwapSleep? && s.produced != s.processed)
            && (s.app.FinishJoin? ==> s.signalLost)
  {
    RunPreservesInv(INIT, steps);
  }

  /** The frame counters stay ordered, one frame is outstanding at most, and each frame counted
      as processed had exactly one damage call. */
  lemma FrameCounters(steps: seq<Step>)
    requires CanRun(INIT, steps)
    ensures var s := Run(INIT, steps);
            && s.processed <= s.finished <= s.streamFrames <= s.produced + 1
            && s.streamFrames <= s.processed + 1
            && (s.app.Swapping? ==> s.produced == s.processed == s.streamFrames)
            && (!s.damage.CountProcessed? ==> s.sends == s.processed)
  {
    RunPreservesInv(INIT, steps);
  }

  /** When a flush joins the thread, every produced frame was sent, unless a call failed. */
  lemma FlushDrained(steps: seq<Step>)
    requires CanRun(INIT, steps)
    ensures var s := Run(INIT, steps);
            (s.app.FinishJoin? || s.app.Finished?) && !s.immediate && s.damage.Exited? && !s.failed
            ==> s.sends == s.processed == s.produced == s.streamFrames
  {
    RunPreservesInv(INIT, steps);
  }

  // ------------------------------------------------------------------ what a request asks for

  /** The application is carrying out a flush or a shutdown. */
  predicate Finishing(pc: AppPc) {
    pc.FinishRequest? || pc.FinishSignal? || pc.FinishJoin? || pc.Finished?
  }

  /** `steps` stay within one flush or shutdown, up to and including its join. */
  predicate WithinFinish(s: State, steps: seq<Step>)
    requires CanRun(s, steps)
    decreases |steps|
  {
    steps == [] ||
    (Finishing(Apply(s, steps[0]).app) && WithinFinish(Apply(s, steps[0]), steps[1..]))
  }

  predicate SameRequest(s: State, t: State) {
    Finishing(t.app) && t.immediate == s.immediate && t.produced == s.produced
  }

  lemma {:induction false} RequestStands(s: State, steps: seq<Step>)
    requires Inv(s) && Finishing(s.app) && CanRun(s, steps) && WithinFinish(s, steps)
    ensures Inv(Run(s, steps)) && SameRequest(s, Run(s, steps))
    decreases |steps|
  {
    if steps != [] {
      StepPreservesInv(s, steps[0]);
      FinishKeepsRequest(s, steps[0]);
      RequestStands(Apply(s, steps[0]), steps[1..]);
    }
  }

  lemma FinishKeepsRequest(s: State, step: Step)
    requires Inv(s) && Finishing(s.app) && Enabled(s, step) && Finishing(Apply(s, step).app)
    ensures SameRequest(s, Apply(s, step))
  {
    match step
    case DamageMove(good) => DamageUntouched(s, good);
    case AppMove(_, _) =>
  }

  /** A flush drains: whatever happens between the request and its join, a thread that has ended without a failed
      call has sent every frame produced before the request. */
  lemma FlushRequestDrains(before: seq<Step>, good: bool, steps: seq<Step>)
    requires CanRun(INIT, before) && Run(INIT, before).app.Idle?
    requires var s := Run(INIT, before);
             CanRun(AppStep(s, Flush, good), steps) && WithinFinish(AppStep(s, Flush, good), steps)
    ensures var s := Run(INIT, before);
            var t := Run(AppStep(s, Flush, good), steps);
            t.damage.Exited? && !t.failed ==> t.sends == t.processed == t.produced == t.streamFrames == s.produced
  {
    RunPreservesInv(INIT, before);
    var s := Run(INIT, before);
    AppPreservesInv(s, Flush, good);
    RequestStands(AppStep(s, Flush, good), steps);
  }

  lemma SeenShutdownEnds(t: State, first: bool, second: bool)
    requires t.damage.CheckShutdown? && t.shutdown
    ensures var u := DamageStep(t, first);
            DamageEnabled(u, second) && DamageStep(u, second).damage.Exited? && DamageStep(u, second).sends == t.sends
  {}

  /** A shutdown does not wait for the drain: once it is requested, the thread's next look at the shutdown flag is
      its last, and two steps later it has ended without sending anything. */
  lemma ShutdownRequestEnds(before: seq<Step>, good: bool, steps: seq<Step>, first: bool, second: bool)
    requires CanRun(INIT, before) && Run(INIT, before).app.Idle?
    requires var s := Run(INIT, before);
             CanRun(AppStep(s, Shutdown, good), steps) && WithinFinish(AppStep(s, Shutdown, good), steps)
    requires var t := Run(AppStep(Run(INIT, before), Shutdown, good), steps);
             !t.app.FinishRequest? && t.damage.CheckShutdown?
    ensures var t := Run(AppStep(Run(INIT, before), Shutdown, good), steps);
            var u := DamageStep(t, first);
            DamageEnabled(u, second) && DamageStep(u, second).damage.Exited? && DamageStep(u, second).sends == t.sends
  {
    RunPreservesInv(INIT, before);
    var s := Run(INIT, before);
    AppPreservesInv(s, Shutdown, good);
    RequestStands(AppStep(s, Shutdown, good), steps);
    SeenShutdownEnds(Run(AppStep(s, Shutdown, good), steps), first, second);
  }

  /** A flush request joins: however the calls turn out, beside a signalled join the thread takes a bounded number
      of steps, then the join goes through, and with no failed call every frame produced before was sent. */
  lemma FlushRequestJoins(before: seq<Step>, good: bool, steps: seq<Step>, outcomes: seq<bool>)
    requires CanRun(INIT, before) && Run(INIT, before).app.Idle?
    requires var s := Run(INIT, before);
             CanRun(AppStep(s, Flush, good), steps) && WithinFinish(AppStep(s, Flush, good), steps)
    requires var t := Run(AppStep(Run(INIT, before), Flush, good), steps);
             t.app.FinishJoin? && !t.signalLost && CanRun(t, DamageMoves(outcomes))
    ensures var s := Run(INIT, before);
            var t := Run(AppStep(s, Flush, good), steps);
            var u := Run(t, DamageMoves(outcomes));
            && |outcomes| <= Measure(t)
            && (DamageEnabled(u, true) || AppEnabled(u))
            && (AppEnabled(u) && !u.failed ==> u.sends == u.processed == s.produced)
  {
    RunPreservesInv(INIT, before);
    var s := Run(INIT, before);
    AppPreservesInv(s, Flush, good);
    RequestStands(AppStep(s, Flush, good), steps);
    JoinReturns(Run(AppStep(s, Flush, good), steps), outcomes);
  }

  // ------------------------------------------------------------------ failures, and the next frame and stream

  /** A statement that calls out, or asks whether the window is still there. */
  predicate MakesCall(s: State) {
    AtLoopHead(s.damage) || (s.damage.CheckWindow? && s.ok) || s.damage.SendDamage? || s.damage.ClientWait?
  }

  /** `steps` do not set up the next context. */
  predicate SameContext(s: State, steps: seq<Step>)
    requires CanRun(s, steps)
    decreases |steps|
  {
    steps == [] ||
    (!(steps[0].AppMove? && s.app.Finished?) && SameContext(Apply(s, steps[0]), steps[1..]))
  }

  lemma DamageStaysFailed(s: State, good: bool)
    requires DamageEnabled(s, good) && s.failed && !s.ok && !GoesOn(s.damage)
    ensures DamageStep(s, good).failed && DamageStep(s, good).sends == s.sends
  {
    match s.damage
    case CheckFlush =>
    case CheckDrained =>
    case CheckShutdown =>
    case CheckWindow =>
    case CountProcessed =>
    case SignalCond =>
    case UnlockSent =>
  }

  lemma SwapStaysFailed(s: State, good: bool)
    requires InSwap(s.app)
    ensures SwapStep(s, good).failed == s.failed && SwapStep(s, good).sends == s.sends
  {
    match s.app
    case SwapLock =>
    case SwapTest =>
    case SwapSleep =>
    case SwapWoken =>
    case SwapUnlock =>
    case Swapping =>
    case SwapCount =>
  }

  lemma AppStaysFailed(s: State, request: Request, good: bool)
    requires AppEnabled(s) && s.failed && !s.app.Finished?
    ensures AppStep(s, request, good).failed && AppStep(s, request, good).sends == s.sends
  {
    if InSwap(s.app) {
      SwapStaysFailed(s, good);
    } else if s.app.FinishRequest? {
    } else if s.app.FinishSignal? {
    }
  }

  lemma FailedStaysFailed(s: State, step: Step)
    requires Inv(s) && s.failed && Enabled(s, step) && !(step.AppMove? && s.app.Finished?)
    ensures Apply(s, step).failed && Apply(s, step).sends == s.sends
  {
    match step
    case DamageMove(good) => DamageStaysFailed(s, good);
    case AppMove(request, good) => AppStaysFailed(s, request, good);
  }

  lemma {:induction false} FailedSendsNoMore(s: State, steps: seq<Step>)
    requires Inv(s) && s.failed && CanRun(s, steps) && SameContext(s, steps)
    ensures var t := Run(s, steps); Inv(t) && t.failed && t.sends == s.sends
    decreases |steps|
  {
    if steps != [] {
      StepPreservesInv(s, steps[0]);
      FailedStaysFailed(s, steps[0]);
      FailedSendsNoMore(Apply(s, steps[0]), steps[1..]);
    }
  }

  /** The first failing call ends the damage thread: in every continuation it sends no other frame, never sleeps
      again and starts no other round, and it can step on until it has exited. */
  lemma FailedCallEnds(before: seq<Step>, steps: seq<Step>)
    requires CanRun(INIT, before)
    requires var s := Run(INIT, before);
             MakesCall(s) && CanRun(DamageStep(s, false), steps) && SameContext(DamageStep(s, false), steps)
    ensures var s := Run(INIT, before);
            var t := Run(DamageStep(s, false), steps);
            && t.sends == s.sends + (if s.damage.SendDamage? then 1 else 0)
            && !AtLoopHead(t.damage) && !t.damage.ClientWait?
            && (t.damage.Exited? || DamageEnabled(t, true))
  {
    RunPreservesInv(INIT, before);
    var s := Run(INIT, before);
    DamagePreservesInv(s, false);
    FailedSendsNoMore(DamageStep(s, false), steps);
  }

  /** A swap that got to the driver always comes back, and counts a frame exactly if the stream got one. */
  lemma DriverReturns(s: State, good: bool, request: Request)
    requires Inv(s) && s.app.Swapping?
    ensures var t := SwapStep(s, good);
            && t.streamFrames == s.streamFrames + (if good then 1 else 0)
            && (good ==>
                  t.app.SwapCount? && SwapStep(t, good).app.Idle? && SwapStep(t, good).produced == t.streamFrames)
            && (!good ==> t.app.Idle? && t.produced == t.streamFrames)
  {}

  /** After the join of a flush or shutdown the next stream starts from nothing, with a damage thread of its own;
      what the last one left behind is gone. */
  lemma NextStreamStartsOver(before: seq<Step>, request: Request, good: bool)
    requires CanRun(INIT, before) && Run(INIT, before).app.Finished?
    ensures Run(INIT, before).damage.Exited?
    ensures var t := AppStep(Run(INIT, before), request, good);
            && t.app.Idle? && !t.damage.Exited? && t.ok && !t.flush && !t.shutdown && !t.failed
            && t.streamFrames == t.produced == t.processed == t.sends == 0
  {
    RunPreservesInv(INIT, before);
  }

  // ------------------------------------------------------------------ progress

  function Distance(pc: DamagePc): nat {
    match pc
    case Exited => 0
    case ClientWait => 1
    case UnlockIdle => 2
    case CountProcessed => 3
    case SendDamage => 4
    case Compare => 5
    case LockFrameSync => 6
    case CheckWindow => 7
    case CheckShutdown => 8
    case CheckDrained => 9
    case CheckFlush => 10
    case QueryState => 11
    case QueryFrame => 12
    case Unsignal => 13
    case UnlockSent => 14
    case SignalCond => 15
  }

  /** How many more steps the damage thread can take before the application acts. */
  function Measure(s: State): int {
    32 * (s.streamFrames - s.processed)
    + (if s.sync.Signaled? && s.ok && !s.damage.Unsignal? then 32 else 0)
    + Distance(s.damage)
  }

  lemma LoopHeadDecreases(s: State, good: bool)
    requires AtLoopHead(s.damage)
    ensures Measure(LoopHead(s, good)) < Measure(s)
  {
    match s.damage
    case Unsignal =>
    case QueryFrame =>
    case QueryState =>
  }

  lemma FlagChecksDecrease(s: State, good: bool)
    requires AtFlagChecks(s.damage)
    ensures Measure(FlagChecks(s, good)) < Measure(s)
  {
    match s.damage
    case CheckFlush =>
    case CheckDrained =>
    case CheckShutdown =>
    case CheckWindow =>
  }

  lemma FrameSentDecreases(s: State, good: bool)
    requires s.damage.Compare? || s.damage.CountProcessed? || (s.damage.SendDamage? && s.ok)
    ensures Measure(FrameSection(s, good)) < Measure(s)
  {
    match s.damage
    case Compare =>
    case SendDamage =>
    case CountProcessed =>
  }

  lemma FrameLeftDecreases(s: State, good: bool)
    requires s.damage.SignalCond? || s.damage.UnlockSent? || s.damage.UnlockIdle?
    ensures Measure(FrameSection(s, good)) < Measure(s)
  {
    match s.damage
    case SignalCond =>
    case UnlockSent =>
    case UnlockIdle =>
  }

  lemma FrameSectionDecreases(s: State, good: bool)
    requires HoldsFrameSync(s.damage) && (s.damage.SendDamage? ==> s.ok)
    ensures Measure(FrameSection(s, good)) < Measure(s)
  {
    if s.damage.SignalCond? || s.damage.UnlockSent? || s.damage.UnlockIdle? {
      FrameLeftDecreases(s, good);
    } else {
      FrameSentDecreases(s, good);
    }
  }

  /** Every step of the damage thread uses up some of the measure, failing steps included. */
  lemma DamageDecreases(s: State, good: bool)
    requires Inv(s) && DamageEnabled(s, good)
    ensures 0 <= Measure(DamageStep(s, good)) < Measure(s)
  {
    DamagePreservesInv(s, good);
    if AtLoopHead(s.damage) { LoopHeadDecreases(s, good); }
    else if AtFlagChecks(s.damage) { FlagChecksDecrease(s, good); }
    else if HoldsFrameSync(s.damage) { FrameSectionDecreases(s, good); }
  }

  /** The application needs the damage thread: it joins it, or sleeps until a frame is processed. */
  predicate Waiting(s: State) {
    (s.app.FinishJoin? && !s.signalLost) || (s.app.SwapSleep? && s.produced != s.processed)
  }

  /** While the application waits, a live damage thread can always take a step. */
  lemma WaitingMeansEnabled(s: State)
    requires Inv(s) && Waiting(s) && !s.damage.Exited?
    ensures DamageEnabled(s, true)
  {
  }

  /** What the damage thread leaves alone. */
  predicate Untouched(s: State, t: State) {
    t.produced == s.produced && t.immediate == s.immediate && t.signalLost == s.signalLost
    && t.app == if s.damage.SignalCond? && s.app.SwapSleep? then SwapWoken else s.app
  }

  lemma FlagChecksUntouched(s: State, good: bool)
    requires AtFlagChecks(s.damage)
    ensures Untouched(s, FlagChecks(s, good))
  {
  }

  lemma FrameSectionUntouched(s: State, good: bool)
    requires HoldsFrameSync(s.damage)
    ensures Untouched(s, FrameSection(s, good))
  {
    match s.damage
    case Compare =>
    case SendDamage =>
    case CountProcessed =>
    case SignalCond =>
    case UnlockSent =>
    case UnlockIdle =>
  }

  lemma LoopHeadUntouched(s: State, good: bool)
    requires AtLoopHead(s.damage)
    ensures Untouched(s, LoopHead(s, good))
  {
  }

  lemma DamageUntouched(s: State, good: bool)
    requires DamageEnabled(s, good)
    ensures Untouched(s, DamageStep(s, good))
  {
    if AtLoopHead(s.damage) { LoopHeadUntouched(s, good); }
    else if AtFlagChecks(s.damage) { FlagChecksUntouched(s, good); }
    else if HoldsFrameSync(s.damage) { FrameSectionUntouched(s, good); }
  }

  /** Steps of the damage thread alone, whatever their outcomes, are bounded by the measure. */
  lemma {:induction false} DamageRunBounded(s: State, outcomes: seq<bool>)
    requires Inv(s) && CanRun(s, DamageMoves(outcomes))
    ensures var t := Run(s, DamageMoves(outcomes));
            && Inv(t) && |outcomes| + Measure(t) <= Measure(s) && 0 <= Measure(t)
            && t.produced == s.produced && t.immediate == s.immediate && t.signalLost == s.signalLost
            && (s.app.FinishJoin? ==> t.app.FinishJoin?)
    decreases |outcomes|
  {
    if outcomes != [] {
      DamageDecreases(s, outcomes[0]);
      DamagePreservesInv(s, outcomes[0]);
      DamageUntouched(s, outcomes[0]);
      assert DamageMoves(outcomes)[1..] == DamageMoves(outcomes[1..]);
      DamageRunBounded(DamageStep(s, outcomes[0]), outcomes[1..]);
    }
  }

  /** A join returns: however the calls turn out, the damage thread beside a signalled join takes
      at most Measure(s) steps, and where it can go no further the join goes through, with every
      produced frame sent if it was a flush and no call failed. */
  lemma JoinReturns(s: State, outcomes: seq<bool>)
    requires Inv(s) && s.app.FinishJoin? && !s.signalLost && CanRun(s, DamageMoves(outcomes))
    ensures var t := Run(s, DamageMoves(outcomes));
            && |outcomes| <= Measure(s)
            && (DamageEnabled(t, true) || AppEnabled(t))
            && (AppEnabled(t) && !s.immediate && !t.failed ==> t.sends == t.processed == s.produced)
  {
    DamageRunBounded(s, outcomes);
    var t := Run(s, DamageMoves(outcomes));
    if !t.damage.Exited? { WaitingMeansEnabled(t); }
  }

  function DamageMoves(outcomes: seq<bool>): (steps: seq<Step>)
    ensures |steps| == |outcomes|
    ensures forall i :: 0 <= i < |steps| ==> steps[i] == DamageMove(outcomes[i])
  {
    seq(|outcomes|, i requires 0 <= i < |outcomes| => DamageMove(outcomes[i]))
  }

  /** The swap is inside its wait loop. */
  predicate InSwapWait(s: State) {
    (s.app.SwapLock? || s.app.SwapTest? || s.app.SwapSleep? || s.app.SwapWoken?)
  }

  /** The damage thread leaves a frame behind: it is gone, or one of its stream calls failed and it
      is on its way out.  (A failing damage event still counts its frame, so it abandons nothing.) */
  predicate Abandoned(s: State) {
    s.produced != s.processed && (s.damage.Exited? || (!s.ok && AtFlagChecks(s.damage)))
  }

  function SwapRank(pc: AppPc): nat {
    match pc
    case SwapLock => 3
    case SwapWoken => 3
    case SwapTest => 2
    case SwapSleep => 1
    case _ => 0
  }

  /** The next step of a schedule that lets the waiting swap return: the application's own where
      it helps, a successful one of the damage thread otherwise. */
  function WaitStep(s: State): Step {
    if s.app.SwapSleep? || !AppEnabled(s) then DamageMove(true) else AppMove(Swap, true)
  }

  lemma DamageHelpsWait(s: State)
    requires Inv(s) && InSwapWait(s) && !Abandoned(s) && WaitStep(s).DamageMove?
    ensures DamageEnabled(s, true)
    ensures var t := DamageStep(s, true);
            Inv(t) && InSwapWait(t) && !Abandoned(t) && 0 <= Measure(t) < Measure(s)
  {
    if s.app.SwapSleep? { SleepMeansEnabled(s); }
    DamagePreservesInv(s, true);
    DamageDecreases(s, true);
    DamageUntouched(s, true);
    GoodStepKeepsGoing(s);
  }

  /** The sleeper's frame, or the wakeup itself, is still to come from the damage thread. */
  lemma SleepMeansEnabled(s: State)
    requires Inv(s) && s.app.SwapSleep? && !Abandoned(s)
    ensures DamageEnabled(s, true)
  {
    if s.produced != s.processed { WaitingMeansEnabled(s); }
  }

  /** Without a failure or a shutdown the loop is not left. */
  lemma GoodStepKeepsGoing(s: State)
    requires Inv(s) && InSwapWait(s) && !Abandoned(s) && DamageEnabled(s, true)
    ensures !Abandoned(DamageStep(s, true))
  {
  }

  lemma AppHelpsWait(s: State)
    requires Inv(s) && InSwapWait(s) && !Abandoned(s) && !WaitStep(s).DamageMove?
    ensures AppEnabled(s)
    ensures var t := SwapStep(s, true);
            Inv(t) && !Abandoned(t) && Measure(t) == Measure(s)
            && (t.app.SwapUnlock? || (InSwapWait(t) && SwapRank(t.app) < SwapRank(s.app)))
  {
    SwapPreservesInv(s, true);
  }

  /** A schedule in which no further call fails and the waiting swap gets to the driver. */
  lemma {:induction false} SwapCanReturn(s: State) returns (steps: seq<Step>)
    requires Inv(s) && InSwapWait(s) && !Abandoned(s)
    ensures CanRun(s, steps) && Run(s, steps).app.Swapping?
    decreases Measure(s), SwapRank(s.app)
  {
    if WaitStep(s).DamageMove? { DamageHelpsWait(s); } else { AppHelpsWait(s); }
    var t := Apply(s, WaitStep(s));
    var rest := [AppMove(Swap, true)];
    if !t.app.SwapUnlock? {
      rest := SwapCanReturn(t);
    }
    steps := [WaitStep(s)] + rest;
    assert steps[1..] == rest;
  }

  lemma AbandonedStays(s: State, step: Step)
    requires InSwapWait(s) && Abandoned(s) && Enabled(s, step)
    ensures InSwapWait(Apply(s, step)) && Abandoned(Apply(s, step))
  {
    match step
    case DamageMove(good) =>
      FlagChecksUntouched(s, good);
    case AppMove(request, good) =>
  }

  /** Once abandoned, a waiting swap stays in its loop in every continuation. */
  lemma {:induction false} AbandonedForever(s: State, steps: seq<Step>)
    requires InSwapWait(s) && Abandoned(s) && CanRun(s, steps)
    ensures InSwapWait(Run(s, steps)) && Abandoned(Run(s, steps))
    decreases |steps|
  {
    if steps != [] {
      AbandonedStays(s, steps[0]);
      AbandonedForever(Apply(s, steps[0]), steps[1..]);
    }
  }

  /** A waiting swap can still return if and only if the damage thread has not abandoned its frame. */
  lemma SwapReturnsIff(s: State)
    requires Inv(s) && InSwapWait(s)
    ensures (exists steps :: CanRun(s, steps) && Run(s, steps).app == Swapping) <==> !Abandoned(s)
  {
    if Abandoned(s) {
      forall steps | CanRun(s, steps)
        ensures Run(s, steps).app != Swapping
      {
        AbandonedForever(s, steps);
      }
    } else {
      var steps := SwapCanReturn(s);
    }
  }

  /** A schedule while a swap is in its wait loop, without spurious wakeups: the sleeper is woken by the damage
      thread only.  Calls turn out as they will. */
  predicate WaitRun(s: State, steps: seq<Step>)
    decreases |steps|
  {
    steps == [] ||
    (InSwapWait(s) && Enabled(s, steps[0]) && (s.app.SwapSleep? ==> steps[0].DamageMove?) &&
     WaitRun(Apply(s, steps[0]), steps[1..]))
  }

  function WaitMeasure(s: State): int {
    4 * Measure(s) + SwapRank(s.app)
  }

  /** No thread can go on, other than by a failing call or a spurious wakeup. */
  predicate Stuck(s: State) {
    !DamageEnabled(s, true) && (s.app.SwapSleep? || !AppEnabled(s))
  }

  lemma WaitStepDecreases(s: State, step: Step)
    requires Inv(s) && InSwapWait(s) && Enabled(s, step) && (s.app.SwapSleep? ==> step.DamageMove?)
    ensures var t := Apply(s, step);
      && Inv(t) && WaitMeasure(t) < WaitMeasure(s) && 0 <= Measure(t)
      && (InSwapWait(t) || t.app.SwapUnlock?)
  {
    match step
    case DamageMove(good) =>
      DamageDecreases(s, good);
      DamagePreservesInv(s, good);
      DamageUntouched(s, good);
    case AppMove(request, good) =>
      SwapPreservesInv(s, good);
      SwapStepKeepsMeasure(s, good);
  }

  lemma SwapStepKeepsMeasure(s: State, good: bool)
    requires Inv(s) && InSwapWait(s) && AppEnabled(s) && !s.app.SwapSleep?
    ensures var t := SwapStep(s, good);
      && Measure(t) == Measure(s) && 0 <= Measure(s)
      && SwapRank(t.app) < SwapRank(s.app) && (InSwapWait(t) || t.app.SwapUnlock?)
      && (!Abandoned(s) ==> !Abandoned(t))
  {
  }

  /** Where nothing more can happen in the wait loop, the frame is abandoned. */
  lemma StuckMeansAbandoned(s: State)
    requires Inv(s) && InSwapWait(s) && Stuck(s)
    ensures Abandoned(s)
  {
    if !Abandoned(s) && s.app.SwapSleep? {
      SleepMeansEnabled(s);
    }
  }

  /** Every schedule of a waiting swap, not only some, comes to an end: it has a bounded number of steps, and
      ends with the swap out of its loop, or with more to do, or with the frame abandoned. */
  lemma {:induction false} WaitRunEnds(s: State, steps: seq<Step>)
    requires Inv(s) && InSwapWait(s) && CanRun(s, steps) && WaitRun(s, steps)
    ensures var t := Run(s, steps);
      && Inv(t) && |steps| <= WaitMeasure(s) - WaitMeasure(t) && 0 <= WaitMeasure(t)
      && (t.app.SwapUnlock? || (InSwapWait(t) && (Stuck(t) ==> Abandoned(t))))
    decreases |steps|
  {
    if steps == [] {
      if Stuck(s) { StuckMeansAbandoned(s); }
    } else {
      var t := Apply(s, steps[0]);
      WaitStepDecreases(s, steps[0]);
      if InSwapWait(t) {
        WaitRunEnds(t, steps[1..]);
      }
    }
  }

  predicate AllGood(steps: seq<Step>) {
    forall i :: 0 <= i < |steps| ==> steps[i].good
  }

  /** If no call fails, no frame is abandoned on the way, so such a schedule ends with the swap out of its loop. */
  lemma {:induction false} GoodWaitReturns(s: State, steps: seq<Step>)
    requires Inv(s) && InSwapWait(s) && !Abandoned(s) && CanRun(s, steps) && WaitRun(s, steps) && AllGood(steps)
    ensures var t := Run(s, steps);
      !Abandoned(t) && (t.app.SwapUnlock? || (InSwapWait(t) && !Stuck(t)))
    decreases |steps|
  {
    if steps == [] {
      if Stuck(s) { StuckMeansAbandoned(s); }
    } else {
      var t := Apply(s, steps[0]);
      WaitStepDecreases(s, steps[0]);
      if steps[0].DamageMove? {
        GoodStepKeepsGoing(s);
      } else {
        SwapStepKeepsMeasure(s, steps[0].good);
      }
      if InSwapWait(t) {
        GoodWaitReturns(t, steps[1..]);
      }
    }
  }

  ghost predicate Reaches(s: State, t: State) {
    exists steps :: CanRun(s, steps) && Run(s, steps) == t
  }

  lemma ReachesBy(s: State, step: Step, t: State)
    requires Enabled(s, step) && Reaches(Apply(s, step), t)
    ensures Reaches(s, t)
  {
    var rest :| CanRun(Apply(s, step), rest) && Run(Apply(s, step), rest) == t;
    var steps := [step] + rest;
    assert steps[1..] == rest;
    assert CanRun(s, steps) && Run(s, steps) == t;
  }

  /** A whole swap, from Idle to Idle, while the damage thread is about to give up. */
  lemma SwapBesideFailure(s: State)
    requires s == LoopHead(INIT, false)
    ensures Reaches(s, s.(app := SwapLock, sync := Signaled, streamFrames := 1, produced := 1))
  {
    var go := AppMove(Swap, true);
    var end := s.(app := SwapLock, sync := Signaled, streamFrames := 1, produced := 1);
    assert CanRun(end, []);
    ReachesBy(end.(app := Idle), go, end);
    ReachesBy(end.(app := SwapCount, produced := 0), go, end);
    ReachesBy(s.(app := Swapping), go, end);
    ReachesBy(s.(app := SwapUnlock, frameSync := App), go, end);
    ReachesBy(s.(app := SwapTest, frameSync := App), go, end);
    ReachesBy(s.(app := SwapLock), go, end);
    ReachesBy(s, go, end);
  }

  /** An abandoned wait is reachable: the thread's first stream call fails, the swap goes through,
      and the next swap waits. */
  lemma AbandonedReachable()
    ensures exists s :: Reaches(INIT, s) && InSwapWait(s) && Abandoned(s)
  {
    var s := LoopHead(INIT, false);
    SwapBesideFailure(s);
    var end := s.(app := SwapLock, sync := Signaled, streamFrames := 1, produced := 1);
    ReachesBy(INIT, DamageMove(false), end);
    assert InSwapWait(end) && Abandoned(end);
  }
}
