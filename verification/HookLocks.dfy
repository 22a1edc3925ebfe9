/**
 The locking structure of the hooks and of the two worker threads of a surface, with the shared data they
 use between the locks, and one parameter for every branch that changes which locks are taken.
 */
module HookLocks {
  import opened Seqs
  import opened LockOrder

  function Sequence(ps: seq<Program>): Program {
    if ps == [] then Skip else Then(ps[0], Sequence(ps[1..]))
  }

  function Repeat(p: Program, n: nat): Program {
    if n == 0 then Skip else Then(p, Repeat(p, n - 1))
  }

  /** wlEglAcquireDisplay and wlEglReleaseDisplay. */
  const CountDisplay := Critical(ExternalLock, Use(DisplayList))

  /** What a hook reads of the display: initCount, the surface it was given. */
  function CheckDisplay(d: nat): Program {
    Critical(DisplayMutex(d), Use(DisplayState(d)))
  }

  /** Most hooks: a reference on the display, and the body under its mutex. */
  function WithDisplay(d: nat, body: Program): Program {
    Then(CountDisplay, Then(Critical(DisplayMutex(d), Then(Use(DisplayState(d)), body)), CountDisplay))
  }

  function Images(s: nat): Program {
    Critical(ImagesMutex(s), Use(StreamImageList(s)))
  }

  function AwaitIf(e: Option<Event>): Program {
    match e
    case None => Skip
    case Some(event) => Await(event)
  }

  /** How a surface's context ends: the damage thread to join, if there is one, and whether the
      context has a local stream, whose images are swept. */
  datatype ContextEnd = ContextEnd(damage: Option<nat>, local: bool)

  /** destroy_surface_context. */
  function EndContext(s: nat, end: ContextEnd): Program {
    Then(AwaitIf(if end.damage.Some? then Some(DamageThreadDone(s, end.damage.value)) else None),
         if end.local then Images(s) else Skip)
  }

  /** finish_wl_buffer_release_thread. */
  function JoinRelease(s: nat, release: Option<nat>): Program {
    AwaitIf(if release.Some? then Some(ReleaseThreadDone(s, release.value)) else None)
  }

  /** wlEglReallocSurface: join the damage thread, drop the context, create the next; a failing
      creation ends that one too and joins the release thread. */
  datatype Reallocation = Reallocation(end: ContextEnd, failed: bool, retry: ContextEnd, release: Option<nat>)

  function Reallocate(s: nat, r: Reallocation): Program {
    Then(Use(Context(s)),
         Then(EndContext(s, r.end),
              if r.failed then Then(EndContext(s, r.retry), JoinRelease(s, r.release)) else Skip))
  }

  function ReallocateIf(s: nat, r: Option<Reallocation>): Program {
    if r.Some? then Reallocate(s, r.value) else Skip
  }

  /** The wait loop of a swap: the mutex is taken, and taken again after every sleep. */
  function WaitFrames(s: nat, sleeps: seq<nat>): Program {
    if sleeps == [] then CompareFrames(s)
    else Then(CompareFrames(s), Then(Await(FrameProcessed(s, sleeps[0])), WaitFrames(s, sleeps[1..])))
  }

  /** The condition of the loop: framesProduced against framesProcessed. */
  function CompareFrames(s: nat): Program {
    Critical(FrameSync(s), Then(Use(FramesProcessed(s)), Use(Context(s))))
  }

  /** wlEglDestroySurface: the current context, the old ones, the image teardown, the release thread. */
  datatype SurfaceEnd = SurfaceEnd(s: nat, current: ContextEnd, earlier: seq<ContextEnd>, release: Option<nat>)

  function EndContexts(s: nat, ends: seq<ContextEnd>): Program {
    if ends == [] then Skip else Then(EndContext(s, ends[0]), EndContexts(s, ends[1..]))
  }

  function EndSurface(e: SurfaceEnd): Program {
    Then(Use(Context(e.s)),
         Then(EndContext(e.s, e.current),
              Then(EndContexts(e.s, e.earlier),
                   if e.release.Some? then Then(Images(e.s), JoinRelease(e.s, e.release)) else Skip)))
  }

  /** Off the display's list, ended under the surface lock, and the creation reference dropped. */
  function DestroySurface(d: nat, e: SurfaceEnd): Program {
    Then(Use(DisplayState(d)), Then(Critical(SurfaceLock(e.s), EndSurface(e)), Use(DisplayState(d))))
  }

  function DestroySurfaces(d: nat, ends: seq<SurfaceEnd>): Program {
    if ends == [] then Skip else Then(DestroySurface(d, ends[0]), DestroySurfaces(d, ends[1..]))
  }

  datatype DisplayEnd = DisplayEnd(d: nat, surfaces: seq<SurfaceEnd>)

  function TerminateDisplays(ends: seq<DisplayEnd>): Program {
    if ends == [] then Use(DisplayList)
    else Then(Use(DisplayList),
              Then(Critical(DisplayMutex(ends[0].d),
                            Then(Use(DisplayState(ends[0].d)), DestroySurfaces(ends[0].d, ends[0].surfaces))),
                   TerminateDisplays(ends[1..])))
  }

  /** What a swap does once it holds the surface lock: fail, or wait (with a damage thread), present and maybe
      reallocate. */
  datatype SwapBody =
    | SwapRejected
    | SwapDone(sleeps: Option<seq<nat>>, imageEvents: nat, checkRelease: bool, realloc: Option<Reallocation>)

  function WaitFramesIf(s: nat, sleeps: Option<seq<nat>>): Program {
    if sleeps.Some? then WaitFrames(s, sleeps.value) else Skip
  }

  function UnderSurfaceLock(s: nat, b: SwapBody): Program {
    match b
    case SwapRejected => Use(Context(s))
    case SwapDone(sleeps, events, check, realloc) =>
      Sequence([Use(Context(s)), WaitFramesIf(s, sleeps), Repeat(Images(s), events),
                if check then Images(s) else Skip, ReallocateIf(s, realloc)])
  }

  function LockedSurface(s: nat, b: SwapBody): Program {
    Critical(SurfaceLock(s), UnderSurfaceLock(s, b))
  }

  datatype Hook =
    | SwapBuffers(d: nat, s: nat, body: SwapBody)      // wlEglSwapBuffersWithDamageHook past wlEglSurfaceRef
    | DisplayOnly(d: nat)                              // hooks that only need the display mutex
    | ExternalOnly                                     // wlEglGetPlatformDisplayExport, (un)binding, native resources
    | QuerySurface                                     // only counts itself on the display, as handle export does
    | PrePresent(d: nat, s: nat, body: SwapBody)       // wlEglPrePresentExport
    | PostPresent(s: nat, body: SwapBody)              // wlEglPostPresentExport2 and the feedback exports
    | SwapInterval(d: nat)                             // takes the display mutex twice
    | CreateSurface(d: nat, s: nat, failed: Option<ContextEnd>, release: Option<nat>)
    | DestroySurfaceHook(d: nat, end: SurfaceEnd)
    | WindowDestroyed(d: nat, end: SurfaceEnd)         // destroy_callback
    | WindowResized(s: nat, realloc: Option<Reallocation>)  // resize_callback
    | Terminate(d: nat, surfaces: seq<SurfaceEnd>)
    | DestroyAllDisplays(displays: seq<DisplayEnd>)

  function HookProgram(h: Hook): Program {
    match h
    case SwapBuffers(d, s, body) =>
      Sequence([CountDisplay, CheckDisplay(d), LockedSurface(s, body), CheckDisplay(d), CountDisplay])
    case DisplayOnly(d) => WithDisplay(d, Skip)
    case ExternalOnly => CountDisplay
    case QuerySurface => Then(CountDisplay, CountDisplay)
    case PrePresent(d, s, body) =>
      Sequence([CountDisplay, CheckDisplay(d), LockedSurface(s, body), CountDisplay])
    case PostPresent(s, body) => Sequence([CountDisplay, LockedSurface(s, body), CountDisplay])
    case SwapInterval(d) => Sequence([CountDisplay, CheckDisplay(d), CheckDisplay(d), CountDisplay])
    case CreateSurface(d, s, failed, release) =>
      WithDisplay(d, if failed.Some? then Then(EndContext(s, failed.value), JoinRelease(s, release)) else Skip)
    case DestroySurfaceHook(d, end) => WithDisplay(d, DestroySurface(d, end))
    case WindowDestroyed(d, end) => Critical(DisplayMutex(d), DestroySurface(d, end))
    case WindowResized(s, realloc) => Critical(SurfaceLock(s), Then(Use(Context(s)), ReallocateIf(s, realloc)))
    case Terminate(d, surfaces) => WithDisplay(d, DestroySurfaces(d, surfaces))
    case DestroyAllDisplays(displays) => Critical(ExternalLock, TerminateDisplays(displays))
  }

  datatype Worker =
    | DamageThread(s: nat, g: nat, rounds: seq<Option<nat>>)   // per round: the image events of a frame, or no frame
    | ReleaseThread(s: nat, g: nat, callbacks: nat)

  /** One pass of the damage thread's loop: a frame to commit, or none yet. */
  function DamageRound(s: nat, events: Option<nat>, frame: nat): Program {
    Critical(FrameSync(s), Then(Use(FramesProcessed(s)), CommitFrame(s, events, frame)))
  }

  function CommitFrame(s: nat, events: Option<nat>, frame: nat): Program {
    if events.Some? then Then(Repeat(Images(s), events.value), Post(FrameProcessed(s, frame))) else Skip
  }

  function DamageRounds(s: nat, rounds: seq<Option<nat>>, frame: nat): Program {
    if rounds == [] then Skip
    else Then(DamageRound(s, rounds[0], frame),
              DamageRounds(s, rounds[1..], if rounds[0].Some? then frame + 1 else frame))
  }

  function WorkerProgram(w: Worker): Program {
    match w
    case DamageThread(s, g, rounds) => Then(DamageRounds(s, rounds, 1), Post(DamageThreadDone(s, g)))
    case ReleaseThread(s, g, callbacks) => Then(Repeat(Images(s), callbacks), Post(ReleaseThreadDone(s, g)))
  }

  // ------------------------------------------------------------------ ranks rise and data is guarded

  lemma {:induction false} RepeatNested(p: Program, n: nat, floor: int, held: set<Lock>)
    requires Nested(p, floor, held)
    ensures Nested(Repeat(p, n), floor, held)
  {
    if n > 0 {
      RepeatNested(p, n - 1, floor, held);
    }
  }

  lemma {:induction false} SequenceNested(ps: seq<Program>, floor: int, held: set<Lock>)
    requires forall i :: 0 <= i < |ps| ==> Nested(ps[i], floor, held)
    ensures Nested(Sequence(ps), floor, held)
  {
    if ps != [] {
      SequenceNested(ps[1..], floor, held);
    }
  }

  lemma {:induction false} WaitFramesNested(s: nat, sleeps: seq<nat>, held: set<Lock>)
    requires SurfaceLock(s) in held
    ensures Nested(WaitFrames(s, sleeps), Rank(SurfaceLock(s)), held)
  {
    var rank := Rank(SurfaceLock(s));
    assert Nested(CompareFrames(s), rank, held);
    if sleeps != [] {
      WaitFramesNested(s, sleeps[1..], held);
      assert Nested(Then(Await(FrameProcessed(s, sleeps[0])), WaitFrames(s, sleeps[1..])), rank, held);
    }
  }

  lemma EndContextNested(s: nat, end: ContextEnd, held: set<Lock>)
    ensures Nested(EndContext(s, end), Rank(SurfaceLock(s)), held)
  {
    assert Nested(Images(s), Rank(SurfaceLock(s)), held);
  }

  lemma {:induction false} EndContextsNested(s: nat, ends: seq<ContextEnd>, held: set<Lock>)
    ensures Nested(EndContexts(s, ends), Rank(SurfaceLock(s)), held)
  {
    if ends != [] {
      EndContextNested(s, ends[0], held);
      EndContextsNested(s, ends[1..], held);
    }
  }

  lemma ReallocateNested(s: nat, r: Option<Reallocation>, held: set<Lock>)
    requires SurfaceLock(s) in held
    ensures Nested(ReallocateIf(s, r), Rank(SurfaceLock(s)), held)
  {
    if r.Some? {
      var rank := Rank(SurfaceLock(s));
      EndContextNested(s, r.value.end, held);
      EndContextNested(s, r.value.retry, held);
      var cleanup := Then(EndContext(s, r.value.retry), JoinRelease(s, r.value.release));
      assert Nested(cleanup, rank, held);
      assert Nested(Then(EndContext(s, r.value.end), if r.value.failed then cleanup else Skip), rank, held);
    }
  }

  lemma EndSurfaceNested(e: SurfaceEnd, held: set<Lock>)
    requires SurfaceLock(e.s) in held
    ensures Nested(EndSurface(e), Rank(SurfaceLock(e.s)), held)
  {
    var rank := Rank(SurfaceLock(e.s));
    EndContextNested(e.s, e.current, held);
    EndContextsNested(e.s, e.earlier, held);
    var last := if e.release.Some? then Then(Images(e.s), JoinRelease(e.s, e.release)) else Skip;
    if e.release.Some? {
      var join := Await(ReleaseThreadDone(e.s, e.release.value));
      assert JoinRelease(e.s, e.release) == join;
      assert Nested(Images(e.s), rank, held) && Nested(join, rank, held);
    }
    assert Nested(last, rank, held);
    assert Nested(Then(EndContexts(e.s, e.earlier), last), rank, held);
    assert Nested(Then(EndContext(e.s, e.current), Then(EndContexts(e.s, e.earlier), last)), rank, held);
  }

  lemma DestroySurfaceNested(d: nat, e: SurfaceEnd, floor: int, held: set<Lock>)
    requires floor <= 1 && DisplayMutex(d) in held
    ensures Nested(DestroySurface(d, e), floor, held)
  {
    EndSurfaceNested(e, held + {SurfaceLock(e.s)});
    assert Nested(Critical(SurfaceLock(e.s), EndSurface(e)), floor, held);
  }

  lemma {:induction false} DestroySurfacesNested(d: nat, ends: seq<SurfaceEnd>, floor: int, held: set<Lock>)
    requires floor <= 1 && DisplayMutex(d) in held
    ensures Nested(DestroySurfaces(d, ends), floor, held)
  {
    if ends != [] {
      DestroySurfaceNested(d, ends[0], floor, held);
      DestroySurfacesNested(d, ends[1..], floor, held);
    }
  }

  lemma WithDisplayNested(d: nat, body: Program)
    requires Nested(body, Rank(DisplayMutex(d)), {DisplayMutex(d)})
    ensures Nested(WithDisplay(d, body), -1, {})
  {
    assert {} + {DisplayMutex(d)} == {DisplayMutex(d)};
    assert Nested(CountDisplay, -1, {});
    assert Nested(Then(Use(DisplayState(d)), body), Rank(DisplayMutex(d)), {DisplayMutex(d)});
    assert Nested(Then(Critical(DisplayMutex(d), Then(Use(DisplayState(d)), body)), CountDisplay), -1, {});
  }

  lemma {:induction false} TerminateDisplaysNested(ends: seq<DisplayEnd>, held: set<Lock>)
    requires ExternalLock in held
    ensures Nested(TerminateDisplays(ends), Rank(ExternalLock), held)
  {
    if ends != [] {
      var d, inside := ends[0].d, held + {DisplayMutex(ends[0].d)};
      DestroySurfacesNested(d, ends[0].surfaces, 1, inside);
      TerminateDisplaysNested(ends[1..], held);
      var body := Then(Use(DisplayState(d)), DestroySurfaces(d, ends[0].surfaces));
      assert Nested(body, Rank(DisplayMutex(d)), inside);
      assert Nested(Then(Critical(DisplayMutex(d), body), TerminateDisplays(ends[1..])), Rank(ExternalLock), held);
    }
  }

  lemma UnderSurfaceLockNested(s: nat, b: SwapBody, held: set<Lock>)
    requires SurfaceLock(s) in held
    ensures Nested(UnderSurfaceLock(s, b), Rank(SurfaceLock(s)), held)
  {
    if b.SwapDone? {
      var rank := Rank(SurfaceLock(s));
      if b.sleeps.Some? {
        WaitFramesNested(s, b.sleeps.value, held);
      }
      assert Nested(Images(s), rank, held);
      RepeatNested(Images(s), b.imageEvents, rank, held);
      ReallocateNested(s, b.realloc, held);
      SequenceNested([Use(Context(s)), WaitFramesIf(s, b.sleeps), Repeat(Images(s), b.imageEvents),
                      if b.checkRelease then Images(s) else Skip, ReallocateIf(s, b.realloc)], rank, held);
    }
  }

  lemma LockedSurfaceNested(s: nat, b: SwapBody)
    ensures Nested(LockedSurface(s, b), -1, {})
  {
    UnderSurfaceLockNested(s, b, {} + {SurfaceLock(s)});
  }

  /** Every hook acquires and waits upwards only: external lock, display mutex, surface lock, worker
      threads, mutexFrameSync, streamImagesMutex; and it uses shared data under its guard only. */
  lemma HooksNested(h: Hook)
    ensures Nested(HookProgram(h), -1, {})
  {
    match h
    case SwapBuffers(d, s, body) =>
      LockedSurfaceNested(s, body);
      SequenceNested([CountDisplay, CheckDisplay(d), LockedSurface(s, body), CheckDisplay(d), CountDisplay], -1, {});
    case PrePresent(d, s, body) =>
      LockedSurfaceNested(s, body);
      SequenceNested([CountDisplay, CheckDisplay(d), LockedSurface(s, body), CountDisplay], -1, {});
    case PostPresent(s, body) =>
      LockedSurfaceNested(s, body);
      SequenceNested([CountDisplay, LockedSurface(s, body), CountDisplay], -1, {});
    case SwapInterval(d) =>
      SequenceNested([CountDisplay, CheckDisplay(d), CheckDisplay(d), CountDisplay], -1, {});
    case ExternalOnly =>
    case QuerySurface =>
    case DisplayOnly(d) => WithDisplayNested(d, Skip);
    case CreateSurface(d, s, failed, release) =>
      if failed.Some? {
        EndContextNested(s, failed.value, {DisplayMutex(d)});
        WithDisplayNested(d, Then(EndContext(s, failed.value), JoinRelease(s, release)));
      } else {
        WithDisplayNested(d, Skip);
      }
    case DestroySurfaceHook(d, end) =>
      DestroySurfaceNested(d, end, 1, {DisplayMutex(d)});
      WithDisplayNested(d, DestroySurface(d, end));
    case WindowDestroyed(d, end) => DestroySurfaceNested(d, end, 1, {} + {DisplayMutex(d)});
    case WindowResized(s, realloc) => ReallocateNested(s, realloc, {} + {SurfaceLock(s)});
    case Terminate(d, surfaces) =>
      DestroySurfacesNested(d, surfaces, 1, {DisplayMutex(d)});
      WithDisplayNested(d, DestroySurfaces(d, surfaces));
    case DestroyAllDisplays(displays) => TerminateDisplaysNested(displays, {} + {ExternalLock});
  }

  lemma DamageRoundNested(s: nat, events: Option<nat>, frame: nat)
    ensures Nested(DamageRound(s, events, frame), WAIT_RANK, {})
  {
    var rank, held := Rank(FrameSync(s)), {} + {FrameSync(s)};
    if events.Some? {
      assert Nested(Images(s), rank, held);
      RepeatNested(Images(s), events.value, rank, held);
      assert Nested(CommitFrame(s, events, frame), rank, held);
    }
  }

  lemma {:induction false} DamageRoundsNested(s: nat, rounds: seq<Option<nat>>, frame: nat)
    ensures Nested(DamageRounds(s, rounds, frame), WAIT_RANK, {})
  {
    if rounds != [] {
      DamageRoundNested(s, rounds[0], frame);
      DamageRoundsNested(s, rounds[1..], if rounds[0].Some? then frame + 1 else frame);
    }
  }

  /** A worker only takes locks that rank above waiting for it, and guards what it uses as the hooks do. */
  lemma WorkersNested(w: Worker)
    ensures Nested(WorkerProgram(w), WAIT_RANK, {})
  {
    match w
    case DamageThread(s, g, rounds) => DamageRoundsNested(s, rounds, 1);
    case ReleaseThread(s, g, callbacks) =>
      assert Nested(Images(s), WAIT_RANK, {});
      RepeatNested(Images(s), callbacks, WAIT_RANK, {});
  }

  // ------------------------------------------------------------------ what the hooks do

  function JoinWork(s: nat, end: ContextEnd): set<Op> {
    (if end.damage.Some? then {Wait(DamageThreadDone(s, end.damage.value))} else {}) +
    (if end.local then {Touch(StreamImageList(s))} else {})
  }

  function ReleaseWork(s: nat, release: Option<nat>): set<Op> {
    if release.Some? then {Wait(ReleaseThreadDone(s, release.value))} else {}
  }

  function ReallocationWork(s: nat, r: Option<Reallocation>): set<Op> {
    if r.None? then {}
    else JoinWork(s, r.value.end) +
         if r.value.failed then JoinWork(s, r.value.retry) + ReleaseWork(s, r.value.release) else {}
  }

  function SwapWork(s: nat, b: SwapBody): set<Op> {
    {Touch(Context(s))} +
    if b.SwapRejected? then {}
    else (if b.sleeps.Some?
          then {Touch(FramesProcessed(s))} + set n | n in b.sleeps.value :: Wait(FrameProcessed(s, n))
          else {}) +
         (if b.imageEvents > 0 || b.checkRelease then {Touch(StreamImageList(s))} else {}) +
         ReallocationWork(s, b.realloc)
  }

  function DestroyWork(d: nat, e: SurfaceEnd): set<Op> {
    {Touch(DisplayState(d)), Touch(Context(e.s))} + JoinWork(e.s, e.current) +
    (set end, op | end in e.earlier && op in JoinWork(e.s, end) :: op) + ReleaseWork(e.s, e.release)
  }

  /** The data a hook works on and the threads and frames it waits for. */
  function HookWork(h: Hook): set<Op> {
    match h
    case SwapBuffers(d, s, b) => {Touch(DisplayList), Touch(DisplayState(d))} + SwapWork(s, b)
    case DisplayOnly(d) => {Touch(DisplayList), Touch(DisplayState(d))}
    case ExternalOnly => {Touch(DisplayList)}
    case QuerySurface => {Touch(DisplayList)}
    case PrePresent(d, s, b) => {Touch(DisplayList), Touch(DisplayState(d))} + SwapWork(s, b)
    case PostPresent(s, b) => {Touch(DisplayList)} + SwapWork(s, b)
    case SwapInterval(d) => {Touch(DisplayList), Touch(DisplayState(d))}
    case CreateSurface(d, s, failed, release) =>
      {Touch(DisplayList), Touch(DisplayState(d))} +
      if failed.Some? then JoinWork(s, failed.value) + ReleaseWork(s, release) else {}
    case DestroySurfaceHook(d, end) => {Touch(DisplayList)} + DestroyWork(d, end)
    case WindowDestroyed(d, end) => DestroyWork(d, end)
    case WindowResized(s, r) => {Touch(Context(s))} + ReallocationWork(s, r)
    case Terminate(d, ends) =>
      {Touch(DisplayList), Touch(DisplayState(d))} + set end, op | end in ends && op in DestroyWork(d, end) :: op
    case DestroyAllDisplays(displays) =>
      {Touch(DisplayList)} +
      set display, end, op | display in displays && end in display.surfaces && op in DestroyWork(display.d, end) :: op
  }

  lemma {:induction false} SequenceDoes(ps: seq<Program>, i: nat, op: Op)
    requires i < |ps| && Does(ps[i], op)
    ensures Does(Sequence(ps), op)
  {
    if i > 0 {
      SequenceDoes(ps[1..], i - 1, op);
    }
  }

  lemma {:induction false} WaitFramesDoes(s: nat, sleeps: seq<nat>, op: Op)
    requires op == Touch(FramesProcessed(s)) || exists n :: n in sleeps && op == Wait(FrameProcessed(s, n))
    ensures Does(WaitFrames(s, sleeps), op)
  {
    assert Does(CompareFrames(s), Touch(FramesProcessed(s)));
    if sleeps != [] {
      if op.Wait? && op != Wait(FrameProcessed(s, sleeps[0])) {
        WaitFramesDoes(s, sleeps[1..], op);
      }
      assert op.Wait? ==> Does(Then(Await(FrameProcessed(s, sleeps[0])), WaitFrames(s, sleeps[1..])), op);
    }
  }

  lemma EndContextDoes(s: nat, end: ContextEnd, op: Op)
    requires op in JoinWork(s, end)
    ensures Does(EndContext(s, end), op)
  {
    assert Does(Images(s), Touch(StreamImageList(s)));
    if op.Wait? {
      assert Does(Await(DamageThreadDone(s, end.damage.value)), op);
    }
  }

  lemma ReallocateDoes(s: nat, r: Option<Reallocation>, op: Op)
    requires op in ReallocationWork(s, r)
    ensures Does(ReallocateIf(s, r), op)
  {
    if op in JoinWork(s, r.value.end) {
      EndContextDoes(s, r.value.end, op);
    } else {
      FailedCreationDoes(s, r.value.retry, r.value.release, op);
    }
  }

  /** What a creation that fails, of a surface or of a next context, has to undo. */
  lemma FailedCreationDoes(s: nat, failed: ContextEnd, release: Option<nat>, op: Op)
    requires op in JoinWork(s, failed) + ReleaseWork(s, release)
    ensures Does(Then(EndContext(s, failed), JoinRelease(s, release)), op)
  {
    if op in JoinWork(s, failed) {
      EndContextDoes(s, failed, op);
    } else {
      assert Does(JoinRelease(s, release), op);
    }
  }

  lemma LockedSurfaceDoes(s: nat, b: SwapBody, op: Op)
    requires op in SwapWork(s, b)
    ensures Does(LockedSurface(s, b), op)
  {
    if b.SwapDone? {
      var ps := [Use(Context(s)), WaitFramesIf(s, b.sleeps), Repeat(Images(s), b.imageEvents),
                 if b.checkRelease then Images(s) else Skip, ReallocateIf(s, b.realloc)];
      if op == Touch(Context(s)) {
        SequenceDoes(ps, 0, op);
      } else if op in ReallocationWork(s, b.realloc) {
        ReallocateDoes(s, b.realloc, op);
        SequenceDoes(ps, 4, op);
      } else if op == Touch(StreamImageList(s)) {
        SequenceDoes(ps, if b.checkRelease then 3 else 2, op);
      } else {
        WaitFramesDoes(s, b.sleeps.value, op);
        SequenceDoes(ps, 1, op);
      }
    }
  }

  lemma {:induction false} EndContextsDoes(s: nat, ends: seq<ContextEnd>, end: ContextEnd, op: Op)
    requires end in ends && op in JoinWork(s, end)
    ensures Does(EndContexts(s, ends), op)
  {
    if end == ends[0] {
      EndContextDoes(s, end, op);
    } else {
      EndContextsDoes(s, ends[1..], end, op);
    }
  }

  lemma DestroySurfaceDoes(d: nat, e: SurfaceEnd, op: Op)
    requires op in DestroyWork(d, e)
    ensures Does(DestroySurface(d, e), op)
  {
    var last := if e.release.Some? then Then(Images(e.s), JoinRelease(e.s, e.release)) else Skip;
    var earlier := Then(EndContexts(e.s, e.earlier), last);
    if op in JoinWork(e.s, e.current) {
      EndContextDoes(e.s, e.current, op);
    } else if end :| end in e.earlier && op in JoinWork(e.s, end) {
      EndContextsDoes(e.s, e.earlier, end, op);
    }
    assert op in ReleaseWork(e.s, e.release) ==> Does(last, op);
    assert op != Touch(DisplayState(d)) && op != Touch(Context(e.s)) ==>
      Does(Then(EndContext(e.s, e.current), earlier), op);
    assert op != Touch(DisplayState(d)) ==> Does(Critical(SurfaceLock(e.s), EndSurface(e)), op);
  }

  lemma {:induction false} DestroySurfacesDoes(d: nat, ends: seq<SurfaceEnd>, end: SurfaceEnd, op: Op)
    requires end in ends && op in DestroyWork(d, end)
    ensures Does(DestroySurfaces(d, ends), op)
  {
    if end == ends[0] {
      DestroySurfaceDoes(d, end, op);
    } else {
      DestroySurfacesDoes(d, ends[1..], end, op);
    }
  }

  lemma {:induction false} TerminateDisplaysDoes(displays: seq<DisplayEnd>, op: Op)
    requires op in HookWork(DestroyAllDisplays(displays))
    ensures Does(TerminateDisplays(displays), op)
  {
    if displays != [] && op != Touch(DisplayList) {
      var d := displays[0].d;
      var body := Then(Use(DisplayState(d)), DestroySurfaces(d, displays[0].surfaces));
      if end :| end in displays[0].surfaces && op in DestroyWork(d, end) {
        DestroySurfacesDoes(d, displays[0].surfaces, end, op);
        assert Does(body, op);
      } else {
        TerminateDisplaysDoes(displays[1..], op);
      }
      assert Does(Then(Critical(DisplayMutex(d), body), TerminateDisplays(displays[1..])), op);
    }
  }

  lemma WithDisplayDoes(d: nat, body: Program, op: Op)
    requires op == Touch(DisplayList) || op == Touch(DisplayState(d)) || Does(body, op)
    ensures Does(WithDisplay(d, body), op)
  {
    var section := Critical(DisplayMutex(d), Then(Use(DisplayState(d)), body));
    assert Does(Use(DisplayState(d)), Touch(DisplayState(d)));
    assert op != Touch(DisplayList) ==> Does(Then(section, CountDisplay), op);
  }

  /** The hooks on one surface, whose programs start alike. */
  lemma {:induction false} SurfaceHookDoes(ps: seq<Program>, d: nat, s: nat, b: SwapBody, op: Op)
    requires |ps| > 2 && ps[0] == CountDisplay && ps[1] == CheckDisplay(d) && ps[2] == LockedSurface(s, b)
    requires op == Touch(DisplayList) || op == Touch(DisplayState(d)) || op in SwapWork(s, b)
    ensures Does(Sequence(ps), op)
  {
    if op in SwapWork(s, b) {
      LockedSurfaceDoes(s, b, op);
    }
    SequenceDoes(ps, if op == Touch(DisplayList) then 0 else if op == Touch(DisplayState(d)) then 1 else 2, op);
  }

  /** A hook does its work; by HooksNested it does it under the guards. */
  lemma HookDoesItsWork(h: Hook, op: Op)
    requires op in HookWork(h)
    ensures op in Compile(HookProgram(h))
  {
    DoesCompiled(HookProgram(h), op);
    match h
    case SwapBuffers(d, s, b) =>
      SurfaceHookDoes([CountDisplay, CheckDisplay(d), LockedSurface(s, b), CheckDisplay(d), CountDisplay], d, s, b, op);
    case PrePresent(d, s, b) =>
      SurfaceHookDoes([CountDisplay, CheckDisplay(d), LockedSurface(s, b), CountDisplay], d, s, b, op);
    case PostPresent(s, b) =>
      if op != Touch(DisplayList) {
        LockedSurfaceDoes(s, b, op);
      }
      SequenceDoes([CountDisplay, LockedSurface(s, b), CountDisplay], if op == Touch(DisplayList) then 0 else 1, op);
    case SwapInterval(d) =>
      SequenceDoes([CountDisplay, CheckDisplay(d), CheckDisplay(d), CountDisplay],
                   if op == Touch(DisplayList) then 0 else 1, op);
    case DisplayOnly(d) => WithDisplayDoes(d, Skip, op);
    case ExternalOnly =>
    case QuerySurface =>
    case CreateSurface(d, s, failed, release) =>
      if failed.Some? && op in JoinWork(s, failed.value) + ReleaseWork(s, release) {
        FailedCreationDoes(s, failed.value, release, op);
      }
      WithDisplayDoes(d, if failed.Some? then Then(EndContext(s, failed.value), JoinRelease(s, release)) else Skip, op);
    case DestroySurfaceHook(d, end) =>
      if op in DestroyWork(d, end) {
        DestroySurfaceDoes(d, end, op);
      }
      WithDisplayDoes(d, DestroySurface(d, end), op);
    case WindowDestroyed(d, end) => DestroySurfaceDoes(d, end, op);
    case WindowResized(s, r) =>
      if op in ReallocationWork(s, r) {
        ReallocateDoes(s, r, op);
      }
      assert Does(Then(Use(Context(s)), ReallocateIf(s, r)), op);
    case Terminate(d, ends) =>
      if end :| end in ends && op in DestroyWork(d, end) {
        DestroySurfacesDoes(d, ends, end, op);
      }
      WithDisplayDoes(d, DestroySurfaces(d, ends), op);
    case DestroyAllDisplays(displays) => TerminateDisplaysDoes(displays, op);
  }

  /** So does the damage thread: it touches the frame counter in every round, and the image list if a frame
      brings image events. */
  lemma {:induction false} DamageRoundsDo(s: nat, rounds: seq<Option<nat>>, frame: nat, i: nat, op: Op)
    requires i < |rounds|
    requires
      || op == Touch(FramesProcessed(s))
      || (op == Touch(StreamImageList(s)) && rounds[i].Some? && rounds[i].value > 0)
    ensures Does(DamageRounds(s, rounds, frame), op)
  {
    if i == 0 {
      if op == Touch(StreamImageList(s)) {
        assert Does(Repeat(Images(s), rounds[0].value), op);
        assert Does(CommitFrame(s, rounds[0], frame), op);
      }
      assert Does(DamageRound(s, rounds[0], frame), op);
    } else {
      DamageRoundsDo(s, rounds[1..], if rounds[0].Some? then frame + 1 else frame, i - 1, op);
    }
  }

  // ------------------------------------------------------------------ hooks and workers together

  function Start(p: Program): Thread {
    Thread({}, Compile(p))
  }

  /** Any number of hook calls beside any number of worker threads. */
  function Together(hooks: seq<Hook>, workers: seq<Worker>): System {
    System(seq(|hooks|, i requires 0 <= i < |hooks| => Start(HookProgram(hooks[i]))) +
           seq(|workers|, j requires 0 <= j < |workers| => Start(WorkerProgram(workers[j]))), {})
  }

  /** Each hook waits only for workers that are there, and for frames that they process. */
  ghost predicate Served(hooks: seq<Hook>, workers: seq<Worker>) {
    forall i, e :: 0 <= i < |hooks| && Wait(e) in Compile(HookProgram(hooks[i])) ==>
      exists j :: 0 <= j < |workers| && Signal(e) in Compile(WorkerProgram(workers[j]))
  }

  function Frames(rounds: seq<Option<nat>>): nat {
    if rounds == [] then 0 else (if rounds[0].Some? then 1 else 0) + Frames(rounds[1..])
  }

  lemma {:induction false} ImagesAnnounceNothing(s: nat, n: nat, e: Event)
    ensures !Does(Repeat(Images(s), n), Signal(e))
  {
    if n > 0 {
      ImagesAnnounceNothing(s, n - 1, e);
      assert !Does(Images(s), Signal(e));
    }
  }

  lemma {:induction false} RoundsAnnounce(s: nat, rounds: seq<Option<nat>>, frame: nat, e: Event)
    ensures Does(DamageRounds(s, rounds, frame), Signal(e)) <==>
            e.FrameProcessed? && e.s == s && frame <= e.n < frame + Frames(rounds)
  {
    if rounds != [] {
      if rounds[0].Some? {
        ImagesAnnounceNothing(s, rounds[0].value, e);
      }
      assert Does(CommitFrame(s, rounds[0], frame), Signal(e)) <==> rounds[0].Some? && e == FrameProcessed(s, frame);
      assert Does(Then(Use(FramesProcessed(s)), CommitFrame(s, rounds[0], frame)), Signal(e)) <==>
        Does(CommitFrame(s, rounds[0], frame), Signal(e));
      RoundsAnnounce(s, rounds[1..], if rounds[0].Some? then frame + 1 else frame, e);
    }
  }

  /** What a worker announces: the damage thread each frame it commits, in turn, and both their end. */
  lemma WorkerAnnounces(w: Worker, e: Event)
    ensures Signal(e) in Compile(WorkerProgram(w)) <==>
            match w
            case DamageThread(s, g, rounds) =>
              e == DamageThreadDone(s, g) || (e.FrameProcessed? && e.s == s && 1 <= e.n <= Frames(rounds))
            case ReleaseThread(s, g, _) => e == ReleaseThreadDone(s, g)
  {
    DoesCompiled(WorkerProgram(w), Signal(e));
    match w
    case DamageThread(s, g, rounds) => RoundsAnnounce(s, rounds, 1, e);
    case ReleaseThread(s, g, callbacks) => ImagesAnnounceNothing(s, callbacks, e);
  }

  lemma StartOrdered(p: Program, floor: int)
    requires Nested(p, floor, {})
    ensures Ordered({}, Start(p).rest)
  {
    NestedIsOrdered(p, floor, {}, []);
    assert Compile(p) + [] == Compile(p);
  }

  lemma WorkersDoNotWait(w: Worker, e: Event)
    ensures Wait(e) !in Compile(WorkerProgram(w))
  {
    WorkersNested(w);
    NestedAboveWaitIsWorker(WorkerProgram(w), WAIT_RANK, {});
  }

  lemma TogetherInv(hooks: seq<Hook>, workers: seq<Worker>)
    requires Served(hooks, workers)
    ensures Inv(Together(hooks, workers))
  {
    var sys := Together(hooks, workers);
    forall i | 0 <= i < |sys.threads|
      ensures Ordered(sys.threads[i].held, sys.threads[i].rest)
    {
      if i < |hooks| {
        HooksNested(hooks[i]);
        StartOrdered(HookProgram(hooks[i]), -1);
      } else {
        WorkersNested(workers[i - |hooks|]);
        StartOrdered(WorkerProgram(workers[i - |hooks|]), WAIT_RANK);
      }
    }
    forall i, e | 0 <= i < |sys.threads| && Wait(e) in sys.threads[i].rest
      ensures Promised(sys, e)
    {
      if i >= |hooks| {
        WorkersDoNotWait(workers[i - |hooks|], e);
      } else {
        var j :| 0 <= j < |workers| && Signal(e) in Compile(WorkerProgram(workers[j]));
        WorkersNested(workers[j]);
        NestedAboveWaitIsWorker(WorkerProgram(workers[j]), WAIT_RANK, {});
        assert LockOrder.Worker(sys.threads[|hooks| + j]);
      }
    }
  }

  /** Deadlock freedom: whatever hooks run beside whatever worker threads, in every interleaving some
      thread can step until all have finished. */
  lemma NoDeadlock(hooks: seq<Hook>, workers: seq<Worker>, schedule: seq<nat>)
    requires Served(hooks, workers) && CanRun(Together(hooks, workers), schedule)
    ensures var end := Run(Together(hooks, workers), schedule);
            (exists k :: 0 <= k < |end.threads| && CanStep(end, k))
            || (forall i :: 0 <= i < |end.threads| ==> Finished(end.threads[i]))
    ensures |schedule| <= TotalOps(Together(hooks, workers).threads)
  {
    TogetherInv(hooks, workers);
    EveryRunCompletes(Together(hooks, workers), schedule);
  }

  /** Freedom from data races: in every interleaving of any hooks and workers, whoever is about to touch shared
      data holds its guard, so no two threads are about to touch the same data, nor do two swaps ever wait for
      frames of the same surface. */
  lemma NoDataRace(hooks: seq<Hook>, workers: seq<Worker>, schedule: seq<nat>, i: nat, j: nat)
    requires Served(hooks, workers) && CanRun(Together(hooks, workers), schedule)
    requires var threads := Run(Together(hooks, workers), schedule).threads;
      i < |threads| && j < |threads| && i != j && !Finished(threads[i]) && !Finished(threads[j])
    ensures var threads := Run(Together(hooks, workers), schedule).threads;
      var a, b := threads[i].rest[0], threads[j].rest[0];
      && (a.Touch? ==> Guard(a.data) in threads[i].held)
      && (a.Touch? && b.Touch? ==> a.data != b.data)
      && (a.Wait? && b.Wait? && a.event.FrameProcessed? && b.event.FrameProcessed? ==> a.event.s != b.event.s)
  {
    TogetherInv(hooks, workers);
    EveryRunCompletes(Together(hooks, workers), schedule);
    NoRace(Run(Together(hooks, workers), schedule), i, j);
  }
}
