/**
 The reference counts of a display and of all its surfaces, while any number of threads create, swap and
 destroy surfaces, terminate and initialise the display, and tear the library down.

 wlEglSurfaceRef and wlEglSurfaceUnref run under the display mutex, wlEglAcquireDisplay and
 wlEglReleaseDisplay under the external lock.  Other displays meet this one only at the external lock:
 what a thread does there, teardown of other displays included, is the statement Elsewhere.
 */
module SurfaceRefs {
  import opened Seqs

  type ThreadId = nat
  type SurfaceId = nat

  /** Who calls wlEglDestroySurface: a hook on one surface, or wlEglDestroyAllSurfaces for the terminate
      hook or for global teardown. */
  datatype Caller = ByHook | ByTerminate | ByTeardown

  /** The hooks: a swap, creating a surface (`checked`: it looks at display->initCount first), eglInitialize,
      destroying a surface, eglTerminate. */
  datatype Hook =
    | SwapHook(s: SurfaceId)
    | CreateHook(s: SurfaceId, checked: bool)
    | InitializeHook
    | DestroyHook(s: SurfaceId)
    | TerminateHook

  /** wlEglSwapBuffersWithDamageHook, with the display mutex first taken. */
  datatype SwapAt =
    | SwapRef        // wlEglSurfaceRef
    | SwapCounted    // maybe a roundtrip, then unlock display->mutex
    | SwapLock       // wants surface->mutexLock
    | SwapCheck      // if (surface->isDestroyed)
    | SwapUse        // waits, renders, commits, reallocates
    | SwapBack       // wants display->mutex again
    | SwapUnref      // wlEglSurfaceUnref

  /** wlEglDestroySurface. */
  datatype DestroyAt =
    | DestroyCheck   // is the surface in the list? unlink it, set isDestroyed
    | DestroyLock    // wants surface->mutexLock
    | DestroyContext // destroy_surface_context and the rest, then unlock
    | DestroyUnref   // wlEglSurfaceUnref of the creation reference

  /** terminateDisplay, and wlEglDestroyAllDisplays around it. */
  datatype TerminateAt =
    | TeardownLock   // teardown holds the external lock and wants display->mutex
    | TerminateTest  // if (display->initCount == 0); initCount = 0
    | TerminateWalk  // the next surface of wlEglDestroyAllSurfaces
    | TeardownUnlock // devDpy = NULL, unlock display->mutex
    | TeardownUnlink // wl_list_remove, wlEglUnrefDisplay

  /** Where a thread stands. */
  datatype Pc =
    | Outside
    | Elsewhere                                // holds the external lock, works on other displays
    | Entering(hook: Hook)                     // wants display->mutex
    | Swap(s: SurfaceId, swap: SwapAt)
    | CreateAdd(s: SurfaceId, checked: bool)   // the new surface goes on the list
    | InitializeSet                            // initCount = 1
    | Destroy(s: SurfaceId, caller: Caller, destroy: DestroyAt)
    | Terminate(teardown: bool, terminate: TerminateAt)
    | UnlockDisplay                            // unlock display->mutex
    | Leave                                    // wlEglReleaseDisplay

  /** A refCount: whether the object was ever made, whether its creation reference is held, the count, and
      how often the object was freed. */
  datatype RefCount = RefCount(born: bool, created: bool, count: int, frees: nat)

  datatype Surface = Surface(lock: Option<ThreadId>, isDestroyed: bool, contextAlive: bool, refs: RefCount)

  const UNBORN := Surface(None, true, false, RefCount(false, false, 0, 0))

  /** The display.  Its creation reference is held while it is in wlEglDisplayList; `torn` says that teardown
      cleared devDpy.  `strayed` is history: a surface was added while the display was not initialised, which
      hooks that do not look at initCount can do. */
  datatype Display = Display(
    external: Option<ThreadId>,
    mutex: Option<ThreadId>,
    initialized: bool,             // initCount > 0
    torn: bool,
    refs: RefCount,
    strayed: bool)

  /** `list` is wlEglSurfaceList. */
  datatype Shared = Shared(display: Display, list: seq<SurfaceId>, surfaces: map<SurfaceId, Surface>)

  datatype State = State(threads: map<ThreadId, Pc>, shared: Shared)

  /** A display without surfaces, and threads that have not called anything yet. */
  function Init(ids: set<ThreadId>): State {
    State(map t | t in ids :: Outside,
          Shared(Display(None, None, false, false, RefCount(true, true, 1, 0), false), [], map[]))
  }

  function Ref(r: RefCount): RefCount {
    r.(count := r.count + 1)
  }

  function Unref(r: RefCount): RefCount {
    r.(count := r.count - 1, frees := if r.count == 1 then r.frees + 1 else r.frees)
  }

  function Get(sh: Shared, x: SurfaceId): Surface {
    if x in sh.surfaces then sh.surfaces[x] else UNBORN
  }

  function Put(sh: Shared, x: SurfaceId, surface: Surface): Shared {
    sh.(surfaces := sh.surfaces[x := surface])
  }

  function SetMutex(sh: Shared, holder: Option<ThreadId>): Shared {
    sh.(display := sh.display.(mutex := holder))
  }

  function SetExternal(sh: Shared, holder: Option<ThreadId>): Shared {
    sh.(display := sh.display.(external := holder))
  }

  function SetRefs(sh: Shared, refs: RefCount): Shared {
    sh.(display := sh.display.(refs := refs))
  }

  /** What an idle thread calls, or how the thread's step turns out where the source can fail. */
  datatype Choice = CallHook(hook: Hook) | CallElsewhere | CallTeardown | Succeed | Fail | FailLate

  /** A mutex holds up the thread that wants it; a hook call holds the external lock for one step only. */
  predicate Enabled(sh: Shared, pc: Pc) {
    match pc
    case Outside => sh.display.external.None?
    case Leave => sh.display.external.None?
    case Entering(_) => sh.display.mutex.None?
    case Swap(s, at) => if at.SwapLock? then Get(sh, s).lock.None? else at.SwapBack? ==> sh.display.mutex.None?
    case Destroy(s, _, at) => at.DestroyLock? ==> Get(sh, s).lock.None?
    case Terminate(_, at) => at.TeardownLock? ==> sh.display.mutex.None?
    case _ => true
  }

  /** The shared state after one statement of a thread, and the statement the thread goes to. */
  datatype Next = Next(shared: Shared, pc: Pc)

  function Entered(hook: Hook): Pc {
    match hook
    case SwapHook(s) => Swap(s, SwapRef)
    case CreateHook(s, checked) => CreateAdd(s, checked)
    case InitializeHook => InitializeSet
    case DestroyHook(s) => Destroy(s, ByHook, DestroyCheck)
    case TerminateHook => Terminate(false, TerminateTest)
  }

  /** A swap looks the surface up and references it under the display mutex, then lets go of that. */
  function SwapEnter(sh: Shared, s: SurfaceId, at: SwapAt, choice: Choice): Next
    requires at.SwapRef? || at.SwapCounted?
  {
    var surface := Get(sh, s);
    match at
    case SwapRef =>
      if s in sh.list && sh.display.initialized && choice.Succeed?
      then Next(Put(sh, s, surface.(refs := Ref(surface.refs))), Swap(s, SwapCounted))
      else Next(sh, UnlockDisplay)
    case SwapCounted =>
      if choice.Succeed? then Next(SetMutex(sh, None), Swap(s, SwapLock)) else Next(sh, Swap(s, SwapUnref))
  }

  /** It works under the surface lock, unless the surface was destroyed meanwhile. */
  function SwapFrame(sh: Shared, t: ThreadId, s: SurfaceId, at: SwapAt, choice: Choice): Next
    requires at.SwapLock? || at.SwapCheck? || at.SwapUse?
  {
    var surface := Get(sh, s);
    match at
    case SwapLock => Next(Put(sh, s, surface.(lock := Some(t))), Swap(s, SwapCheck))
    case SwapCheck =>
      if surface.isDestroyed || !choice.Succeed?
      then Next(Put(sh, s, surface.(lock := None)), Swap(s, SwapBack))
      else Next(sh, Swap(s, SwapUse))
    case SwapUse => Next(Put(sh, s, surface.(lock := None)), Swap(s, SwapBack))
  }

  /** And drops the reference under the display mutex again. */
  function SwapExit(sh: Shared, t: ThreadId, s: SurfaceId, at: SwapAt): Next
    requires at.SwapBack? || at.SwapUnref?
  {
    var surface := Get(sh, s);
    match at
    case SwapBack => Next(SetMutex(sh, Some(t)), Swap(s, SwapUnref))
    case SwapUnref => Next(Put(sh, s, surface.(refs := Unref(surface.refs))), UnlockDisplay)
  }

  function SwapStep(sh: Shared, t: ThreadId, s: SurfaceId, at: SwapAt, choice: Choice): Next {
    if at.SwapRef? || at.SwapCounted? then SwapEnter(sh, s, at, choice)
    else if at.SwapBack? || at.SwapUnref? then SwapExit(sh, t, s, at)
    else SwapFrame(sh, t, s, at, choice)
  }

  /** The end of a hook that creates a surface: a fresh record, put first on the list. */
  function CreateStep(sh: Shared, s: SurfaceId, checked: bool, choice: Choice): Next {
    if Get(sh, s).refs.born || sh.display.torn || (checked && !sh.display.initialized) || !choice.Succeed?
    then Next(sh, UnlockDisplay)
    else Next(Put(sh, s, Surface(None, false, true, RefCount(true, true, 1, 0))).
                (list := [s] + sh.list,
                 display := sh.display.(strayed := sh.display.strayed || !sh.display.initialized)), UnlockDisplay)
  }

  function AfterDestroy(caller: Caller): Pc {
    match caller
    case ByHook => UnlockDisplay
    case ByTerminate => Terminate(false, TerminateWalk)
    case ByTeardown => Terminate(true, TerminateWalk)
  }

  /** wlEglDestroySurface, with the display mutex held throughout; the hook looks at initCount first. */
  function DestroyStep(sh: Shared, t: ThreadId, s: SurfaceId, caller: Caller, at: DestroyAt): Next {
    var surface := Get(sh, s);
    match at
    case DestroyCheck =>
      if s in sh.list && (caller.ByHook? ==> sh.display.initialized)
      then Next(Put(sh, s, surface.(isDestroyed := true)).(list := Without(sh.list, {s})),
                Destroy(s, caller, DestroyLock))
      else Next(sh, AfterDestroy(caller))
    case DestroyLock => Next(Put(sh, s, surface.(lock := Some(t))), Destroy(s, caller, DestroyContext))
    case DestroyContext =>
      Next(Put(sh, s, surface.(lock := None, contextAlive := false)), Destroy(s, caller, DestroyUnref))
    case DestroyUnref =>
      Next(Put(sh, s, surface.(refs := Unref(surface.refs).(created := false))), AfterDestroy(caller))
  }

  function AfterTerminate(teardown: bool): Pc {
    if teardown then Terminate(true, TeardownUnlock) else UnlockDisplay
  }

  /** terminateDisplay and the rest of teardown.  Nothing but the walk changes the list while the mutex is
      held, so wl_list_for_each_safe takes the first surface each time. */
  function TerminateStep(sh: Shared, t: ThreadId, teardown: bool, at: TerminateAt, choice: Choice): Next {
    match at
    case TeardownLock => Next(SetMutex(sh, Some(t)), Terminate(true, TerminateTest))
    case TerminateTest =>
      if sh.display.initialized && (teardown || choice.Succeed?)
      then Next(sh.(display := sh.display.(initialized := false)), Terminate(teardown, TerminateWalk))
      else Next(sh, AfterTerminate(teardown))
    case TerminateWalk =>
      if sh.list == [] then Next(sh, AfterTerminate(teardown))
      else Next(sh, Destroy(sh.list[0], if teardown then ByTeardown else ByTerminate, DestroyCheck))
    case TeardownUnlock =>
      Next(sh.(display := sh.display.(torn := true, mutex := None)), Terminate(true, TeardownUnlink))
    case TeardownUnlink => Next(SetRefs(sh, Unref(sh.display.refs).(created := false)), Elsewhere)
  }

  /** wlEglAcquireDisplay finds the display in the list or fails. */
  function CallStep(sh: Shared, t: ThreadId, choice: Choice): Next {
    match choice
    case CallHook(hook) =>
      if sh.display.refs.created then Next(SetRefs(sh, Ref(sh.display.refs)), Entering(hook)) else Next(sh, Outside)
    case _ => Next(SetExternal(sh, Some(t)), Elsewhere)
  }

  /** With the external lock held: this display is next in a teardown, or the lock is released. */
  function ElsewhereStep(sh: Shared, choice: Choice): Next {
    if choice.CallTeardown? && sh.display.refs.created then Next(sh, Terminate(true, TeardownLock))
    else Next(SetExternal(sh, None), Outside)
  }

  /** wlEglInitializeHook: it is refused, or initCount becomes 1; a set-up that fails after that calls
      terminateDisplay. */
  function InitializeStep(sh: Shared, choice: Choice): Next {
    if sh.display.initialized || sh.display.torn || !(choice.Succeed? || choice.FailLate?) then Next(sh, UnlockDisplay)
    else Next(sh.(display := sh.display.(initialized := true)),
              if choice.FailLate? then Terminate(false, TerminateTest) else UnlockDisplay)
  }

  function Step(sh: Shared, t: ThreadId, pc: Pc, choice: Choice): Next {
    match pc
    case Outside => CallStep(sh, t, choice)
    case Elsewhere => ElsewhereStep(sh, choice)
    case Entering(hook) => Next(SetMutex(sh, Some(t)), Entered(hook))
    case Swap(s, at) => SwapStep(sh, t, s, at, choice)
    case CreateAdd(s, checked) => CreateStep(sh, s, checked, choice)
    case InitializeSet => InitializeStep(sh, choice)
    case Destroy(s, caller, at) => DestroyStep(sh, t, s, caller, at)
    case Terminate(teardown, at) => TerminateStep(sh, t, teardown, at, choice)
    case UnlockDisplay => Next(SetMutex(sh, None), Leave)
    case Leave => Next(SetRefs(sh, Unref(sh.display.refs)), Outside)
  }

  // ------------------------------------------------------------------ one thread, one surface

  /** What a thread at a statement has of the display: a reference (a hook in flight), the mutex, the external
      lock; whether it tears the display down, walks the list, is past the walk of a teardown, or has cleared
      devDpy. */
  datatype Role = Role(refs: bool, mutex: bool, external: bool, teardown: bool, walking: bool, past: bool, gone: bool)

  const IDLE := Role(false, false, false, false, false, false, false)
  const WAITING := Role(true, false, false, false, false, false, false)
  const LOCKED := Role(true, true, false, false, false, false, false)

  const TEARING := Role(false, true, true, true, false, false, false)

  function SwapRole(at: SwapAt): Role {
    if at.SwapRef? || at.SwapCounted? || at.SwapUnref? then LOCKED else WAITING
  }

  function DestroyRole(caller: Caller): Role {
    match caller
    case ByHook => LOCKED
    case ByTerminate => LOCKED.(walking := true)
    case ByTeardown => TEARING.(walking := true)
  }

  function TerminateRole(teardown: bool, at: TerminateAt): Role {
    match at
    case TeardownLock => IDLE.(external := true, teardown := true)
    case TerminateTest => if teardown then TEARING else LOCKED
    case TerminateWalk => DestroyRole(if teardown then ByTeardown else ByTerminate)
    case TeardownUnlock => TEARING.(past := true)
    case TeardownUnlink => IDLE.(external := true, teardown := true, gone := true)
  }

  function RoleOf(pc: Pc): Role {
    match pc
    case Outside => IDLE
    case Elsewhere => IDLE.(external := true)
    case Entering(_) => WAITING
    case Swap(_, at) => SwapRole(at)
    case CreateAdd(_, _) => LOCKED
    case InitializeSet => LOCKED
    case Destroy(_, caller, _) => DestroyRole(caller)
    case Terminate(teardown, at) => TerminateRole(teardown, at)
    case UnlockDisplay => LOCKED
    case Leave => WAITING
  }

  /** What it has of one surface: a reference (a swap in flight), the surface lock; whether it took the surface
      off the list and still owes the creation reference, and whether it relies on the surface's context. */
  datatype Part = Part(refs: bool, lock: bool, owes: bool, context: bool)

  const NOTHING := Part(false, false, false, false)

  function SwapPart(at: SwapAt): Part {
    Part(!at.SwapRef?, at.SwapCheck? || at.SwapUse?, false, at.SwapUse?)
  }

  function DestroyPart(at: DestroyAt): Part {
    Part(false, at.DestroyContext?, !at.DestroyCheck?, at.DestroyLock? || at.DestroyContext?)
  }

  function PartOf(pc: Pc, x: SurfaceId): Part {
    match pc
    case Swap(s, at) => if s == x then SwapPart(at) else NOTHING
    case Destroy(s, _, at) => if s == x then DestroyPart(at) else NOTHING
    case _ => NOTHING
  }

  /** The shared state as far as it concerns one surface. */
  datatype View = View(display: Display, listed: bool, surface: Surface)

  function At(sh: Shared, x: SurfaceId): View {
    View(sh.display, x in sh.list, Get(sh, x))
  }

  // ------------------------------------------------------------------ the invariant

  function One(b: bool): int {
    if b then 1 else 0
  }

  predicate RoleInv(d: Display, t: ThreadId, r: Role) {
    && (r.mutex <==> d.mutex == Some(t))
    && (r.external <==> d.external == Some(t))
    && (r.teardown ==> d.refs.created)
    && (r.walking || r.past ==> !d.initialized)
    && (r.walking ==> !d.torn)
    && (r.gone ==> d.torn)
  }

  predicate DisplayInv(d: Display) {
    && (d.torn ==> !d.initialized)
    && (!d.refs.created ==> d.torn)
    && d.refs.born
  }

  /** The display of a surface on the list is initialised unless the surface strayed there and no swap uses it,
      or while the list is being walked. */
  predicate PartInv(v: View, t: ThreadId, r: Role, p: Part) {
    && (p.lock <==> v.surface.lock == Some(t))
    && (p.owes ==> r.mutex && !v.display.torn && (v.surface.contextAlive ==> p.context))
    && (r.mutex ==> (p.owes <==> v.surface.refs.created && !v.listed))
    && (r.mutex && !r.walking && v.listed && (!v.display.strayed || v.surface.refs.count > 1) ==>
          v.display.initialized)
    && (p.context ==> v.surface.contextAlive && (r.mutex || p.lock))
  }

  predicate SurfaceInv(v: View) {
    && (v.listed <==> !v.surface.isDestroyed)
    && (v.listed ==> v.surface.refs.created && v.surface.contextAlive)
    && (v.surface.refs.created ==> v.surface.refs.born)
    && (!v.surface.refs.born ==> v.surface == UNBORN)
    && (v.surface.refs.created && !v.listed ==> v.display.mutex.Some?)
    && (v.surface.contextAlive ==> v.surface.refs.created)
    && (v.listed && (!v.display.strayed || v.surface.refs.count > 1) && !v.display.initialized ==>
          v.display.mutex.Some? && !v.display.torn)
  }

  /** A refCount is the creation reference plus the users in flight; an object made that nothing refers to
      was freed, once. */
  predicate CountInv(r: RefCount, users: nat) {
    r.count == One(r.created) + users && r.frees == One(r.born && r.count == 0)
  }

  /** The threads at statements of a kind. */
  function Users(threads: map<ThreadId, Pc>, kind: Pc -> bool): set<ThreadId> {
    set t | t in threads && kind(threads[t])
  }

  predicate UsesDisplay(pc: Pc) {
    RoleOf(pc).refs
  }

  function UsesSurface(x: SurfaceId): Pc -> bool {
    pc => PartOf(pc, x).refs
  }

  ghost predicate InvAt(s: State, x: SurfaceId) {
    && (forall t :: t in s.threads ==> PartInv(At(s.shared, x), t, RoleOf(s.threads[t]), PartOf(s.threads[t], x)))
    && SurfaceInv(At(s.shared, x))
    && CountInv(Get(s.shared, x).refs, |Users(s.threads, UsesSurface(x))|)
  }

  ghost predicate Inv(s: State) {
    && (forall x :: InvAt(s, x))
    && (forall t :: t in s.threads ==> RoleInv(s.shared.display, t, RoleOf(s.threads[t])))
    && (forall t :: s.shared.display.mutex == Some(t) ==> t in s.threads)
    && DisplayInv(s.shared.display)
    && CountInv(s.shared.display.refs, |Users(s.threads, UsesDisplay)|)
  }

  lemma UsersChange(threads: map<ThreadId, Pc>, t: ThreadId, pc: Pc, kind: Pc -> bool)
    requires t in threads
    ensures |Users(threads[t := pc], kind)| == |Users(threads, kind)| - One(kind(threads[t])) + One(kind(pc))
    ensures kind(threads[t]) ==> |Users(threads, kind)| > 0
  {
    var others := Users(threads, kind) - {t};
    assert Users(threads, kind) == if kind(threads[t]) then others + {t} else others;
    assert Users(threads[t := pc], kind) == if kind(pc) then others + {t} else others;
  }

  predicate LockMove(before: Option<ThreadId>, after: Option<ThreadId>, t: ThreadId) {
    after == before || (before == None && after == Some(t)) || (before == Some(t) && after == None)
  }

  /** A reference count moves with the thread that takes the step. */
  predicate CountMove(before: RefCount, after: RefCount, used: bool, uses: bool) {
    && after.count - One(after.created) - One(uses) == before.count - One(before.created) - One(used)
    && (before.born ==> after.born && after.frees == before.frees + One(before.count != 0 && after.count == 0))
    && (before.born && before.count == 0 ==> after.count == 0)
    && (!before.born ==> after.frees == before.frees && (after.born ==> after.count != 0))
  }

  /** A step of t only takes and drops locks of its own, and changes what a lock guards only under it. */
  predicate DisplayMove(d: Display, next: Display, t: ThreadId) {
    && LockMove(d.mutex, next.mutex, t)
    && LockMove(d.external, next.external, t)
    && (next.refs.created != d.refs.created ==> d.external == Some(t))
    && (next.initialized != d.initialized ==> d.mutex == Some(t))
    && (d.torn ==> next.torn)
    && (next.torn != d.torn ==> d.mutex == Some(t))
    && (d.strayed ==> next.strayed)
  }

  predicate SurfaceMove(v: View, next: View, t: ThreadId) {
    && LockMove(v.surface.lock, next.surface.lock, t)
    && (next.surface.refs.created != v.surface.refs.created ==> v.display.mutex == Some(t))
    && (next.listed != v.listed ==> v.display.mutex == Some(t))
    && (next.surface.refs.count != v.surface.refs.count ==> v.display.mutex == Some(t))
    && (next.surface.refs.born != v.surface.refs.born ==> v.display.mutex == Some(t))
    && (v.surface.refs.born && !v.listed ==> !next.listed)
    && (v.surface.refs.born && !v.surface.refs.created ==> !next.surface.refs.created)
    && (next.surface.contextAlive != v.surface.contextAlive ==>
          v.display.mutex == Some(t) && (v.surface.contextAlive ==> v.surface.lock == Some(t)))
  }

  /** Everything a step has to keep of the display, said without the other threads. */
  predicate MovesDisplay(sh: Shared, t: ThreadId, pc: Pc, n: Next) {
    var d, next := sh.display, n.shared.display;
    && DisplayMove(d, next, t)
    && RoleInv(next, t, RoleOf(n.pc)) && DisplayInv(next)
    && CountMove(d.refs, next.refs, RoleOf(pc).refs, RoleOf(n.pc).refs)
  }

  /** And of one surface. */
  predicate MovesAt(sh: Shared, t: ThreadId, pc: Pc, n: Next, x: SurfaceId) {
    var v, next := At(sh, x), At(n.shared, x);
    && SurfaceMove(v, next, t)
    && PartInv(next, t, RoleOf(n.pc), PartOf(n.pc, x)) && SurfaceInv(next)
    && CountMove(v.surface.refs, next.surface.refs, PartOf(pc, x).refs, PartOf(n.pc, x).refs)
  }

  /** What a step may rely on: the thread's own share of the invariant. */
  predicate OwnDisplay(d: Display, t: ThreadId, r: Role) {
    && RoleInv(d, t, r) && DisplayInv(d)
    && (r.refs || d.refs.created ==> d.refs.count > 0)
  }

  predicate OwnPart(v: View, t: ThreadId, r: Role, p: Part) {
    && OwnDisplay(v.display, t, r)
    && PartInv(v, t, r, p) && SurfaceInv(v)
    && (p.refs || v.surface.refs.created ==> v.surface.refs.count > 0)
    && (p.refs ==> v.surface.refs.born)
  }

  predicate Owns(sh: Shared, t: ThreadId, pc: Pc, x: SurfaceId) {
    OwnPart(At(sh, x), t, RoleOf(pc), PartOf(pc, x))
  }

  lemma EnterMovesDisplay(sh: Shared, t: ThreadId, pc: Pc, choice: Choice)
    requires pc.Entering?
    requires OwnDisplay(sh.display, t, RoleOf(pc)) && Enabled(sh, pc)
    ensures MovesDisplay(sh, t, pc, Step(sh, t, pc, choice))
  {}

  lemma EnterMovesAt(sh: Shared, t: ThreadId, pc: Pc, choice: Choice, x: SurfaceId)
    requires pc.Entering?
    requires Owns(sh, t, pc, x) && Enabled(sh, pc)
    ensures MovesAt(sh, t, pc, Step(sh, t, pc, choice), x)
  {}

  lemma SwapEnterMovesDisplay(sh: Shared, t: ThreadId, pc: Pc, choice: Choice)
    requires pc.Swap? && (pc.swap.SwapRef? || pc.swap.SwapCounted?)
    requires OwnDisplay(sh.display, t, RoleOf(pc)) && Enabled(sh, pc)
    ensures MovesDisplay(sh, t, pc, Step(sh, t, pc, choice))
  {}

  lemma SwapEnterMovesAt(sh: Shared, t: ThreadId, pc: Pc, choice: Choice, x: SurfaceId)
    requires pc.Swap? && (pc.swap.SwapRef? || pc.swap.SwapCounted?)
    requires Owns(sh, t, pc, x) && Enabled(sh, pc)
    ensures MovesAt(sh, t, pc, Step(sh, t, pc, choice), x)
  {}

  lemma SwapFrameMovesDisplay(sh: Shared, t: ThreadId, pc: Pc, choice: Choice)
    requires pc.Swap? && (pc.swap.SwapLock? || pc.swap.SwapCheck? || pc.swap.SwapUse?)
    requires OwnDisplay(sh.display, t, RoleOf(pc)) && Enabled(sh, pc)
    ensures MovesDisplay(sh, t, pc, Step(sh, t, pc, choice))
  {}

  lemma SwapFrameMovesAt(sh: Shared, t: ThreadId, pc: Pc, choice: Choice, x: SurfaceId)
    requires pc.Swap? && (pc.swap.SwapLock? || pc.swap.SwapCheck? || pc.swap.SwapUse?)
    requires Owns(sh, t, pc, x) && Enabled(sh, pc)
    ensures MovesAt(sh, t, pc, Step(sh, t, pc, choice), x)
  {}

  lemma SwapExitMovesDisplay(sh: Shared, t: ThreadId, pc: Pc, choice: Choice)
    requires pc.Swap? && (pc.swap.SwapBack? || pc.swap.SwapUnref?)
    requires OwnDisplay(sh.display, t, RoleOf(pc)) && Enabled(sh, pc)
    ensures MovesDisplay(sh, t, pc, Step(sh, t, pc, choice))
  {}

  lemma SwapExitMovesAt(sh: Shared, t: ThreadId, pc: Pc, choice: Choice, x: SurfaceId)
    requires pc.Swap? && (pc.swap.SwapBack? || pc.swap.SwapUnref?)
    requires Owns(sh, t, pc, x) && Enabled(sh, pc)
    ensures MovesAt(sh, t, pc, Step(sh, t, pc, choice), x)
  {}

  lemma CreateMovesDisplay(sh: Shared, t: ThreadId, pc: Pc, choice: Choice)
    requires pc.CreateAdd?
    requires OwnDisplay(sh.display, t, RoleOf(pc)) && Enabled(sh, pc)
    ensures MovesDisplay(sh, t, pc, Step(sh, t, pc, choice))
  {}

  lemma CreateMovesAt(sh: Shared, t: ThreadId, pc: Pc, choice: Choice, x: SurfaceId)
    requires pc.CreateAdd?
    requires Owns(sh, t, pc, x) && Enabled(sh, pc)
    ensures MovesAt(sh, t, pc, Step(sh, t, pc, choice), x)
  {}

  lemma UnlinkMovesDisplay(sh: Shared, t: ThreadId, pc: Pc, choice: Choice)
    requires pc.Destroy? && (pc.destroy.DestroyCheck? || pc.destroy.DestroyLock?)
    requires OwnDisplay(sh.display, t, RoleOf(pc)) && Enabled(sh, pc)
    ensures MovesDisplay(sh, t, pc, Step(sh, t, pc, choice))
  {}

  lemma UnlinkMovesAt(sh: Shared, t: ThreadId, pc: Pc, choice: Choice, x: SurfaceId)
    requires pc.Destroy? && (pc.destroy.DestroyCheck? || pc.destroy.DestroyLock?)
    requires Owns(sh, t, pc, x) && Enabled(sh, pc)
    ensures MovesAt(sh, t, pc, Step(sh, t, pc, choice), x)
  {}

  lemma DestroyMovesDisplay(sh: Shared, t: ThreadId, pc: Pc, choice: Choice)
    requires pc.Destroy? && (pc.destroy.DestroyContext? || pc.destroy.DestroyUnref?)
    requires OwnDisplay(sh.display, t, RoleOf(pc)) && Enabled(sh, pc)
    ensures MovesDisplay(sh, t, pc, Step(sh, t, pc, choice))
  {}

  lemma DestroyMovesAt(sh: Shared, t: ThreadId, pc: Pc, choice: Choice, x: SurfaceId)
    requires pc.Destroy? && (pc.destroy.DestroyContext? || pc.destroy.DestroyUnref?)
    requires Owns(sh, t, pc, x) && Enabled(sh, pc)
    ensures MovesAt(sh, t, pc, Step(sh, t, pc, choice), x)
  {}

  lemma WalkMovesDisplay(sh: Shared, t: ThreadId, pc: Pc, choice: Choice)
    requires pc.Terminate? && (pc.terminate.TerminateTest? || pc.terminate.TerminateWalk?)
    requires OwnDisplay(sh.display, t, RoleOf(pc)) && Enabled(sh, pc)
    ensures MovesDisplay(sh, t, pc, Step(sh, t, pc, choice))
  {}

  lemma WalkMovesAt(sh: Shared, t: ThreadId, pc: Pc, choice: Choice, x: SurfaceId)
    requires pc.Terminate? && (pc.terminate.TerminateTest? || pc.terminate.TerminateWalk?)
    requires Owns(sh, t, pc, x) && Enabled(sh, pc)
    ensures MovesAt(sh, t, pc, Step(sh, t, pc, choice), x)
  {}

  lemma TeardownMovesDisplay(sh: Shared, t: ThreadId, pc: Pc, choice: Choice)
    requires pc.Terminate? && !pc.terminate.TerminateTest? && !pc.terminate.TerminateWalk?
    requires OwnDisplay(sh.display, t, RoleOf(pc)) && Enabled(sh, pc)
    ensures MovesDisplay(sh, t, pc, Step(sh, t, pc, choice))
  {}

  lemma TeardownMovesAt(sh: Shared, t: ThreadId, pc: Pc, choice: Choice, x: SurfaceId)
    requires pc.Terminate? && !pc.terminate.TerminateTest? && !pc.terminate.TerminateWalk?
    requires Owns(sh, t, pc, x) && Enabled(sh, pc)
    ensures MovesAt(sh, t, pc, Step(sh, t, pc, choice), x)
  {}

  lemma CallMovesDisplay(sh: Shared, t: ThreadId, pc: Pc, choice: Choice)
    requires pc.Outside? || pc.Elsewhere?
    requires OwnDisplay(sh.display, t, RoleOf(pc)) && Enabled(sh, pc)
    ensures MovesDisplay(sh, t, pc, Step(sh, t, pc, choice))
  {}

  lemma CallMovesAt(sh: Shared, t: ThreadId, pc: Pc, choice: Choice, x: SurfaceId)
    requires pc.Outside? || pc.Elsewhere?
    requires Owns(sh, t, pc, x) && Enabled(sh, pc)
    ensures MovesAt(sh, t, pc, Step(sh, t, pc, choice), x)
  {}

  lemma LeaveMovesDisplay(sh: Shared, t: ThreadId, pc: Pc, choice: Choice)
    requires pc.InitializeSet? || pc.UnlockDisplay? || pc.Leave?
    requires OwnDisplay(sh.display, t, RoleOf(pc)) && Enabled(sh, pc)
    ensures MovesDisplay(sh, t, pc, Step(sh, t, pc, choice))
  {}

  lemma LeaveMovesAt(sh: Shared, t: ThreadId, pc: Pc, choice: Choice, x: SurfaceId)
    requires pc.InitializeSet? || pc.UnlockDisplay? || pc.Leave?
    requires Owns(sh, t, pc, x) && Enabled(sh, pc)
    ensures MovesAt(sh, t, pc, Step(sh, t, pc, choice), x)
  {}

  lemma StepMovesDisplay(sh: Shared, t: ThreadId, pc: Pc, choice: Choice)
    requires OwnDisplay(sh.display, t, RoleOf(pc)) && Enabled(sh, pc)
    ensures MovesDisplay(sh, t, pc, Step(sh, t, pc, choice))
  {
    match pc
    case Outside => CallMovesDisplay(sh, t, pc, choice);
    case Elsewhere => CallMovesDisplay(sh, t, pc, choice);
    case Entering(_) => EnterMovesDisplay(sh, t, pc, choice);
    case Swap(_, at) =>
      if at.SwapRef? || at.SwapCounted? { SwapEnterMovesDisplay(sh, t, pc, choice); }
      else if at.SwapBack? || at.SwapUnref? { SwapExitMovesDisplay(sh, t, pc, choice); }
      else { SwapFrameMovesDisplay(sh, t, pc, choice); }
    case CreateAdd(_, _) => CreateMovesDisplay(sh, t, pc, choice);
    case Destroy(_, _, at) =>
      if at.DestroyCheck? || at.DestroyLock? { UnlinkMovesDisplay(sh, t, pc, choice); }
      else { DestroyMovesDisplay(sh, t, pc, choice); }
    case Terminate(_, at) =>
      if at.TerminateTest? || at.TerminateWalk? { WalkMovesDisplay(sh, t, pc, choice); }
      else { TeardownMovesDisplay(sh, t, pc, choice); }
    case _ => LeaveMovesDisplay(sh, t, pc, choice);
  }

  lemma StepMovesAt(sh: Shared, t: ThreadId, pc: Pc, choice: Choice, x: SurfaceId)
    requires Owns(sh, t, pc, x) && Enabled(sh, pc)
    ensures MovesAt(sh, t, pc, Step(sh, t, pc, choice), x)
  {
    match pc
    case Outside => CallMovesAt(sh, t, pc, choice, x);
    case Elsewhere => CallMovesAt(sh, t, pc, choice, x);
    case Entering(_) => EnterMovesAt(sh, t, pc, choice, x);
    case Swap(_, at) =>
      if at.SwapRef? || at.SwapCounted? { SwapEnterMovesAt(sh, t, pc, choice, x); }
      else if at.SwapBack? || at.SwapUnref? { SwapExitMovesAt(sh, t, pc, choice, x); }
      else { SwapFrameMovesAt(sh, t, pc, choice, x); }
    case CreateAdd(_, _) => CreateMovesAt(sh, t, pc, choice, x);
    case Destroy(_, _, at) =>
      if at.DestroyCheck? || at.DestroyLock? { UnlinkMovesAt(sh, t, pc, choice, x); }
      else { DestroyMovesAt(sh, t, pc, choice, x); }
    case Terminate(_, at) =>
      if at.TerminateTest? || at.TerminateWalk? { WalkMovesAt(sh, t, pc, choice, x); }
      else { TeardownMovesAt(sh, t, pc, choice, x); }
    case _ => LeaveMovesAt(sh, t, pc, choice, x);
  }

  /** The invariant gives every thread what it relies on: whoever uses an object finds its count positive. */
  lemma OwnShare(s: State, t: ThreadId, x: SurfaceId)
    requires Inv(s) && t in s.threads
    ensures OwnDisplay(s.shared.display, t, RoleOf(s.threads[t])) && Owns(s.shared, t, s.threads[t], x)
  {
    assert InvAt(s, x);
    UsersChange(s.threads, t, s.threads[t], UsesSurface(x));
    UsersChange(s.threads, t, s.threads[t], UsesDisplay);
  }

  /** What one thread does leaves the others' shares alone. */
  lemma OthersKept(d: Display, next: Display, t: ThreadId, u: ThreadId, r: Role)
    requires u != t && RoleInv(d, u, r) && DisplayMove(d, next, t)
    requires (r.walking || r.past ==> r.mutex) && (r.teardown ==> r.external)
    ensures RoleInv(next, u, r)
  {}

  lemma OthersKeptAt(v: View, next: View, t: ThreadId, u: ThreadId, r: Role, p: Part)
    requires u != t && RoleInv(v.display, u, r) && PartInv(v, u, r, p)
    requires DisplayMove(v.display, next.display, t) && SurfaceMove(v, next, t)
    ensures PartInv(next, u, r, p)
  {}

  lemma RolesHoldLocks(pc: Pc)
    ensures RoleOf(pc).walking || RoleOf(pc).past ==> RoleOf(pc).mutex
    ensures RoleOf(pc).teardown ==> RoleOf(pc).external
  {}

  // ------------------------------------------------------------------ runs

  datatype Turn = Turn(thread: ThreadId, choice: Choice)

  predicate CanTake(s: State, turn: Turn) {
    turn.thread in s.threads && Enabled(s.shared, s.threads[turn.thread])
  }

  function Take(s: State, turn: Turn): State
    requires CanTake(s, turn)
  {
    var n := Step(s.shared, turn.thread, s.threads[turn.thread], turn.choice);
    State(s.threads[turn.thread := n.pc], n.shared)
  }

  predicate CanRun(s: State, turns: seq<Turn>)
    decreases |turns|
  {
    turns == [] || (CanTake(s, turns[0]) && CanRun(Take(s, turns[0]), turns[1..]))
  }

  function Run(s: State, turns: seq<Turn>): State
    requires CanRun(s, turns)
    decreases |turns|
  {
    if turns == [] then s else Run(Take(s, turns[0]), turns[1..])
  }

  lemma CountFollows(threads: map<ThreadId, Pc>, t: ThreadId, pc: Pc, x: SurfaceId, before: RefCount, after: RefCount)
    requires t in threads && CountInv(before, |Users(threads, UsesSurface(x))|)
    requires CountMove(before, after, PartOf(threads[t], x).refs, PartOf(pc, x).refs)
    ensures CountInv(after, |Users(threads[t := pc], UsesSurface(x))|)
  {
    UsersChange(threads, t, pc, UsesSurface(x));
  }

  lemma TakeKeepsAt(s: State, turn: Turn, x: SurfaceId)
    requires Inv(s) && CanTake(s, turn)
    ensures InvAt(Take(s, turn), x)
  {
    var t := turn.thread;
    var n := Step(s.shared, t, s.threads[t], turn.choice);
    var next := Take(s, turn);
    OwnShare(s, t, x);
    StepMovesDisplay(s.shared, t, s.threads[t], turn.choice);
    StepMovesAt(s.shared, t, s.threads[t], turn.choice, x);
    assert InvAt(s, x);
    CountFollows(s.threads, t, n.pc, x, Get(s.shared, x).refs, Get(n.shared, x).refs);
    forall u | u in next.threads
      ensures PartInv(At(next.shared, x), u, RoleOf(next.threads[u]), PartOf(next.threads[u], x))
    {
      if u != t {
        OthersKeptAt(At(s.shared, x), At(n.shared, x), t, u, RoleOf(s.threads[u]), PartOf(s.threads[u], x));
      }
    }
  }

  lemma TakeKeepsInv(s: State, turn: Turn)
    requires Inv(s) && CanTake(s, turn)
    ensures Inv(Take(s, turn))
  {
    var t := turn.thread;
    var n := Step(s.shared, t, s.threads[t], turn.choice);
    var next := Take(s, turn);
    forall x
      ensures InvAt(next, x)
    {
      TakeKeepsAt(s, turn, x);
    }
    OwnShare(s, t, 0);
    StepMovesDisplay(s.shared, t, s.threads[t], turn.choice);
    UsersChange(s.threads, t, n.pc, UsesDisplay);
    forall u | u in next.threads
      ensures RoleInv(next.shared.display, u, RoleOf(next.threads[u]))
    {
      if u != t {
        RolesHoldLocks(s.threads[u]);
        OthersKept(s.shared.display, n.shared.display, t, u, RoleOf(s.threads[u]));
      }
    }
  }

  lemma InitInv(ids: set<ThreadId>)
    ensures Inv(Init(ids))
  {
    var s := Init(ids);
    assert Users(s.threads, UsesDisplay) == {};
    forall x
      ensures InvAt(s, x)
    {
      assert Users(s.threads, UsesSurface(x)) == {};
    }
  }

  lemma {:induction false} RunKeepsInv(s: State, turns: seq<Turn>)
    requires Inv(s) && CanRun(s, turns)
    ensures Inv(Run(s, turns))
    decreases |turns|
  {
    if turns != [] {
      TakeKeepsInv(s, turns[0]);
      RunKeepsInv(Take(s, turns[0]), turns[1..]);
    }
  }

  // ------------------------------------------------------------------ what every run keeps

  /** A swap of a surface between its wlEglSurfaceRef and its wlEglSurfaceUnref. */
  predicate SwapInFlight(pc: Pc, x: SurfaceId) {
    pc.Swap? && pc.s == x && !pc.swap.SwapRef?
  }

  function SwapsOf(x: SurfaceId): Pc -> bool {
    pc => SwapInFlight(pc, x)
  }

  /** A hook between its wlEglAcquireDisplay and its wlEglReleaseDisplay; teardown takes no reference. */
  predicate HookInFlight(pc: Pc) {
    match pc
    case Outside => false
    case Elsewhere => false
    case Destroy(_, caller, _) => !caller.ByTeardown?
    case Terminate(teardown, at) => !teardown && (at.TerminateTest? || at.TerminateWalk?)
    case _ => true
  }

  lemma RolesCountCalls(threads: map<ThreadId, Pc>, x: SurfaceId)
    ensures Users(threads, SwapsOf(x)) == Users(threads, UsesSurface(x))
    ensures Users(threads, HookInFlight) == Users(threads, UsesDisplay)
  {
    forall t | t in threads
      ensures SwapInFlight(threads[t], x) == PartOf(threads[t], x).refs
      ensures HookInFlight(threads[t]) == UsesDisplay(threads[t])
    {}
  }

  /** In every reachable state the count of every surface, and that of the display, is the creation reference
      plus the calls in flight. */
  lemma CountLaw(ids: set<ThreadId>, turns: seq<Turn>, x: SurfaceId)
    requires CanRun(Init(ids), turns)
    ensures var s := Run(Init(ids), turns);
      && Get(s.shared, x).refs.count == One(Get(s.shared, x).refs.created) + |Users(s.threads, SwapsOf(x))|
      && s.shared.display.refs.count == One(s.shared.display.refs.created) + |Users(s.threads, HookInFlight)|
  {
    InitInv(ids);
    RunKeepsInv(Init(ids), turns);
    assert InvAt(Run(Init(ids), turns), x);
    RolesCountCalls(Run(Init(ids), turns).threads, x);
  }

  /** Statements that read or write a surface (at the lookups it is in the list). */
  predicate TouchesSurface(sh: Shared, pc: Pc, x: SurfaceId) {
    match pc
    case Swap(s, at) => s == x && (at.SwapRef? ==> x in sh.list)
    case Destroy(s, _, at) => s == x && (at.DestroyCheck? ==> x in sh.list)
    case Terminate(_, at) => at.TerminateWalk? && x in sh.list
    case _ => false
  }

  lemma TouchersOwn(sh: Shared, t: ThreadId, pc: Pc, x: SurfaceId)
    requires Owns(sh, t, pc, x) && TouchesSurface(sh, pc, x)
    ensures Get(sh, x).refs.born && Get(sh, x).refs.count > 0
  {}

  lemma UsersCovered(pc: Pc)
    ensures HookInFlight(pc) || pc.Terminate? ==> RoleOf(pc).refs || RoleOf(pc).teardown
  {}

  /** No thread ever reaches a surface that was freed or not made yet, or a freed display, and nothing is
      freed twice. */
  lemma NothingUsedAfterFree(ids: set<ThreadId>, turns: seq<Turn>, t: ThreadId, x: SurfaceId)
    requires CanRun(Init(ids), turns) && t in Run(Init(ids), turns).threads
    ensures var s := Run(Init(ids), turns);
      var refs := Get(s.shared, x).refs;
      && (TouchesSurface(s.shared, s.threads[t], x) ==> refs.born && refs.frees == 0)
      && (HookInFlight(s.threads[t]) || s.threads[t].Terminate? ==> s.shared.display.refs.frees == 0)
      && refs.frees <= 1 && s.shared.display.refs.frees <= 1
  {
    InitInv(ids);
    RunKeepsInv(Init(ids), turns);
    var s := Run(Init(ids), turns);
    OwnShare(s, t, x);
    assert InvAt(s, x);
    UsersCovered(s.threads[t]);
    if TouchesSurface(s.shared, s.threads[t], x) {
      TouchersOwn(s.shared, t, s.threads[t], x);
    }
  }

  /** A swap past the isDestroyed check has the surface's context, and until that swap unlocks the surface no
      other thread destroys it. */
  lemma SwapOutlastsContext(ids: set<ThreadId>, turns: seq<Turn>, t: ThreadId, x: SurfaceId, turn: Turn)
    requires CanRun(Init(ids), turns)
    requires var s := Run(Init(ids), turns);
      t in s.threads && s.threads[t] == Swap(x, SwapUse) && CanTake(s, turn) && turn.thread != t
    ensures var s := Run(Init(ids), turns);
      && Get(s.shared, x).contextAlive && Get(Take(s, turn).shared, x).contextAlive
      && Take(s, turn).threads[t] == Swap(x, SwapUse)
  {
    InitInv(ids);
    RunKeepsInv(Init(ids), turns);
    var s := Run(Init(ids), turns);
    OwnShare(s, t, x);
    OwnShare(s, turn.thread, x);
    StepMovesAt(s.shared, turn.thread, s.threads[turn.thread], turn.choice, x);
  }

  predicate Idle(s: State) {
    forall t :: t in s.threads ==> s.threads[t].Outside?
  }

  /** Once no call is in flight, every surface ever made has been freed exactly once if it is off the list, and
      not at all otherwise; a display likewise.  After eglTerminate and after teardown the list is empty,
      unless a surface was added while the display was not initialised. */
  lemma NothingLeaks(ids: set<ThreadId>, turns: seq<Turn>, x: SurfaceId)
    requires CanRun(Init(ids), turns) && Idle(Run(Init(ids), turns))
    ensures var sh := Run(Init(ids), turns).shared;
      && (Get(sh, x).refs.born ==> Get(sh, x).refs.frees == if x in sh.list then 0 else 1)
      && sh.display.refs.frees == (if sh.display.refs.created then 0 else 1)
      && (sh.display.refs.frees == 1 ==> !sh.display.initialized)
      && (!sh.display.initialized && !sh.display.strayed ==> x !in sh.list)
  {
    InitInv(ids);
    RunKeepsInv(Init(ids), turns);
    var s := Run(Init(ids), turns);
    assert InvAt(s, x);
    assert Users(s.threads, UsesSurface(x)) == {};
    assert Users(s.threads, UsesDisplay) == {};
    forall t | t in s.threads
      ensures s.shared.display.mutex != Some(t)
    {
      assert RoleInv(s.shared.display, t, RoleOf(s.threads[t]));
    }
  }

  // ------------------------------------------------------------------ what the hooks achieve

  /** What a hook needs when it has taken the display mutex. */
  predicate Proper(sh: Shared, hook: Hook) {
    match hook
    case SwapHook(x) => x in sh.list && sh.display.initialized
    case CreateHook(x, checked) =>
      !Get(sh, x).refs.born && !sh.display.torn && (checked ==> sh.display.initialized)
    case InitializeHook => !sh.display.torn
    case DestroyHook(x) => x in sh.list && sh.display.initialized
    case TerminateHook => sh.display.initialized
  }

  /** The surface was made, and nothing is left of it but what swaps in flight hold. */
  predicate Destroyed(sh: Shared, x: SurfaceId) {
    x !in sh.list && Get(sh, x).refs.born && !Get(sh, x).refs.created && !Get(sh, x).contextAlive
  }

  /** What a hook other than a swap has achieved when it unlocks the display. */
  predicate Achieved(sh: Shared, hook: Hook) {
    match hook
    case SwapHook(_) => false
    case CreateHook(x, _) => x in sh.list && Get(sh, x).contextAlive
    case InitializeHook => sh.display.initialized
    case DestroyHook(x) => Destroyed(sh, x)
    case TerminateHook => !sh.display.initialized && sh.list == []
  }

  /** Statements between taking the mutex and UnlockDisplay. */
  predicate Inside(sh: Shared, pc: Pc, hook: Hook) {
    match hook
    case SwapHook(_) => false
    case CreateHook(x, checked) => pc == CreateAdd(x, checked) && Proper(sh, hook)
    case InitializeHook => pc.InitializeSet? && Proper(sh, hook)
    case DestroyHook(x) =>
      pc.Destroy? && pc.s == x && pc.caller.ByHook? && (pc.destroy.DestroyCheck? ==> Proper(sh, hook))
    case TerminateHook =>
      || (pc == Terminate(false, TerminateTest) && Proper(sh, hook))
      || pc == Terminate(false, TerminateWalk)
      || (pc.Destroy? && pc.caller.ByTerminate? && (pc.destroy.DestroyCheck? ==> pc.s in sh.list))
  }

  /** A thread carries a hook out, or has done so and is about to unlock the display. */
  predicate OnWay(s: State, t: ThreadId, hook: Hook) {
    && t in s.threads && s.shared.display.mutex == Some(t)
    && (Inside(s.shared, s.threads[t], hook) || (s.threads[t].UnlockDisplay? && Achieved(s.shared, hook)))
  }

  function DestroyLeft(at: DestroyAt): nat {
    match at
    case DestroyCheck => 4
    case DestroyLock => 3
    case DestroyContext => 2
    case DestroyUnref => 1
  }

  /** How many steps of its own a thread takes at most before it unlocks the display. */
  function Left(pc: Pc, list: seq<SurfaceId>): nat {
    match pc
    case CreateAdd(_, _) => 1
    case InitializeSet => 1
    case Destroy(_, caller, at) =>
      if caller.ByHook? then DestroyLeft(at)
      else 5 * |list| + if at.DestroyCheck? then 0 else DestroyLeft(at) + 1
    case Terminate(_, at) => 5 * |list| + if at.TerminateTest? then 2 else 1
    case _ => 0
  }

  lemma CreateAchieves(sh: Shared, t: ThreadId, pc: Pc, hook: Hook)
    requires (hook.CreateHook? || hook.InitializeHook?) && Inside(sh, pc, hook)
    ensures var n := Step(sh, t, pc, Succeed);
      n.pc.UnlockDisplay? && Achieved(n.shared, hook) && n.shared.display.mutex == sh.display.mutex
  {}

  lemma DestroyAchieves(sh: Shared, t: ThreadId, pc: Pc, hook: Hook)
    requires hook.DestroyHook? && Inside(sh, pc, hook) && Owns(sh, t, pc, hook.s)
    ensures var n := Step(sh, t, pc, Succeed);
      && (Inside(n.shared, n.pc, hook) || (n.pc.UnlockDisplay? && Achieved(n.shared, hook)))
      && n.shared.display.mutex == sh.display.mutex && Left(n.pc, n.shared.list) < Left(pc, sh.list)
  {}

  lemma TerminateAchieves(sh: Shared, t: ThreadId, pc: Pc)
    requires Inside(sh, pc, TerminateHook) && OwnDisplay(sh.display, t, RoleOf(pc))
    ensures var n := Step(sh, t, pc, Succeed);
      && (Inside(n.shared, n.pc, TerminateHook) || (n.pc.UnlockDisplay? && Achieved(n.shared, TerminateHook)))
      && n.shared.display.mutex == sh.display.mutex && Left(n.pc, n.shared.list) < Left(pc, sh.list)
  {
    if pc.Destroy? {
      WithoutShorter(sh.list, pc.s);
    }
  }

  lemma OwnStepAchieves(s: State, t: ThreadId, hook: Hook)
    requires Inv(s) && OnWay(s, t, hook) && !s.threads[t].UnlockDisplay? && CanTake(s, Turn(t, Succeed))
    ensures var next := Take(s, Turn(t, Succeed));
      OnWay(next, t, hook) && Left(next.threads[t], next.shared.list) < Left(s.threads[t], s.shared.list)
  {
    match hook
    case SwapHook(_) =>
    case CreateHook(_, _) => CreateAchieves(s.shared, t, s.threads[t], hook);
    case InitializeHook => CreateAchieves(s.shared, t, s.threads[t], hook);
    case DestroyHook(x) =>
      OwnShare(s, t, x);
      DestroyAchieves(s.shared, t, s.threads[t], hook);
    case TerminateHook =>
      OwnShare(s, t, 0);
      TerminateAchieves(s.shared, t, s.threads[t]);
  }

  function SurfaceOf(hook: Hook): SurfaceId {
    match hook
    case SwapHook(x) => x
    case CreateHook(x, _) => x
    case DestroyHook(x) => x
    case _ => 0
  }

  lemma OthersLeaveHook(s: State, turn: Turn, t: ThreadId, hook: Hook)
    requires Inv(s) && OnWay(s, t, hook) && CanTake(s, turn) && turn.thread != t
    ensures var next := Take(s, turn);
      OnWay(next, t, hook) && Left(next.threads[t], next.shared.list) == Left(s.threads[t], s.shared.list)
  {
    var u, x := turn.thread, SurfaceOf(hook);
    OthersWait(s, turn, t);
    OwnShare(s, u, x);
    StepMovesDisplay(s.shared, u, s.threads[u], turn.choice);
    StepMovesAt(s.shared, u, s.threads[u], turn.choice, x);
  }

  /** A run in which thread t meets no failure and has not unlocked the display yet. */
  predicate BeforeUnlock(s: State, turns: seq<Turn>, t: ThreadId)
    requires CanRun(s, turns)
    decreases |turns|
  {
    turns == [] ||
    ((turns[0].thread == t ==> turns[0].choice.Succeed? && !s.threads[t].UnlockDisplay?) &&
     BeforeUnlock(Take(s, turns[0]), turns[1..], t))
  }

  function TurnsOf(turns: seq<Turn>, t: ThreadId): nat {
    if turns == [] then 0 else (if turns[0].thread == t then 1 else 0) + TurnsOf(turns[1..], t)
  }

  lemma {:induction false} RunAchieves(s: State, turns: seq<Turn>, t: ThreadId, hook: Hook)
    requires Inv(s) && OnWay(s, t, hook) && CanRun(s, turns) && BeforeUnlock(s, turns, t)
    ensures var e := Run(s, turns);
      OnWay(e, t, hook) && TurnsOf(turns, t) + Left(e.threads[t], e.shared.list) <= Left(s.threads[t], s.shared.list)
    decreases |turns|
  {
    if turns != [] {
      if turns[0].thread == t {
        OwnStepAchieves(s, t, hook);
      } else {
        OthersLeaveHook(s, turns[0], t, hook);
      }
      TakeKeepsInv(s, turns[0]);
      RunAchieves(Take(s, turns[0]), turns[1..], t, hook);
    }
  }

  /** A hook that may not do its work, or is refused, changes nothing: it goes straight to unlock the display. */
  lemma RefusedChangesNothing(sh: Shared, t: ThreadId, hook: Hook, choice: Choice)
    requires !Proper(sh, hook) || (choice.Fail? && !hook.DestroyHook?)
    ensures Step(sh, t, Entered(hook), choice) == Next(sh, UnlockDisplay)
  {}

  /** A swap that fails before it locks the surface gives back what it took: every surface is as before. */
  lemma FailedSwapUndone(sh: Shared, t: ThreadId, x: SurfaceId, choice: Choice, y: SurfaceId)
    requires Proper(sh, SwapHook(x)) && Get(sh, x).refs.count > 0
    ensures var counted := Step(sh, t, Entered(SwapHook(x)), Succeed);
      var failed := Step(counted.shared, t, counted.pc, Fail);
      var undone := Step(failed.shared, t, failed.pc, choice);
      undone.pc.UnlockDisplay? && At(undone.shared, y) == At(sh, y)
  {}

  /** A hook that meets no failure does what it is for, beside any other threads: it takes a bounded number of
      steps, and when it is about to unlock the display the new surface is on the list, the display is
      initialised, the destroyed surface is off the list with its context and creation reference gone, or the
      terminated display has no surface left. */
  lemma HookAchieves(ids: set<ThreadId>, before: seq<Turn>, after: seq<Turn>, t: ThreadId, hook: Hook)
    requires CanRun(Init(ids), before) && !hook.SwapHook?
    requires var s := Run(Init(ids), before);
      && t in s.threads && s.threads[t] == Entered(hook) && Proper(s.shared, hook)
      && CanRun(s, after) && BeforeUnlock(s, after, t)
    ensures var s := Run(Init(ids), before);
      var e := Run(s, after);
      && t in e.threads && TurnsOf(after, t) <= Left(Entered(hook), s.shared.list)
      && (e.threads[t].UnlockDisplay? <==> !Inside(e.shared, e.threads[t], hook))
      && (e.threads[t].UnlockDisplay? ==> Achieved(e.shared, hook))
  {
    InitInv(ids);
    RunKeepsInv(Init(ids), before);
    var s := Run(Init(ids), before);
    assert RoleInv(s.shared.display, t, RoleOf(s.threads[t]));
    RunAchieves(s, after, t, hook);
  }

  /** An eglInitialize whose set-up fails late is a terminate from there on: by RunAchieves it leaves the display
      uninitialised and without surfaces. */
  lemma LateFailureTerminates(s: State, t: ThreadId)
    requires Inv(s) && t in s.threads && s.threads[t].InitializeSet?
    requires !s.shared.display.initialized && !s.shared.display.torn
    ensures CanTake(s, Turn(t, FailLate)) && OnWay(Take(s, Turn(t, FailLate)), t, TerminateHook)
  {
    assert RoleInv(s.shared.display, t, RoleOf(s.threads[t]));
  }

  lemma DestroyedStaysOnce(s: State, turn: Turn, x: SurfaceId)
    requires Inv(s) && CanTake(s, turn) && Destroyed(s.shared, x)
    ensures Destroyed(Take(s, turn).shared, x)
  {
    OwnShare(s, turn.thread, x);
    StepMovesAt(s.shared, turn.thread, s.threads[turn.thread], turn.choice, x);
  }

  lemma {:induction false} DestroyedStays(s: State, turns: seq<Turn>, x: SurfaceId)
    requires Inv(s) && CanRun(s, turns) && Destroyed(s.shared, x)
    ensures Inv(Run(s, turns)) && Destroyed(Run(s, turns).shared, x)
    decreases |turns|
  {
    if turns != [] {
      DestroyedStaysOnce(s, turns[0], x);
      TakeKeepsInv(s, turns[0]);
      DestroyedStays(Take(s, turns[0]), turns[1..], x);
    }
  }

  /** eglDestroySurface frees: once the hook on a listed surface of an initialised display has come to unlocking
      the display, the surface stays off the list in every continuation, and with no call in flight it has been
      freed exactly once. */
  lemma DestroyFrees(ids: set<ThreadId>, before: seq<Turn>, after: seq<Turn>, later: seq<Turn>,
                     t: ThreadId, x: SurfaceId)
    requires CanRun(Init(ids), before)
    requires var s := Run(Init(ids), before);
      && t in s.threads && s.threads[t] == Entered(DestroyHook(x)) && x in s.shared.list && s.shared.display.initialized
      && CanRun(s, after) && BeforeUnlock(s, after, t)
      && t in Run(s, after).threads && Run(s, after).threads[t].UnlockDisplay? && CanRun(Run(s, after), later)
    ensures var end := Run(Run(Run(Init(ids), before), after), later);
      Destroyed(end.shared, x) && (Idle(end) ==> Get(end.shared, x).refs.frees == 1)
  {
    HookAchieves(ids, before, after, t, DestroyHook(x));
    InitInv(ids);
    RunKeepsInv(Init(ids), before);
    var s := Run(Init(ids), before);
    RunKeepsInv(s, after);
    DestroyedStays(Run(s, after), later, x);
    if Idle(Run(Run(s, after), later)) {
      IdleCounts(Run(Run(s, after), later), x);
    }
  }

  /** Statements of a swap up to the one that renders. */
  predicate Approaching(sh: Shared, pc: Pc, x: SurfaceId) {
    && pc.Swap? && pc.s == x && !pc.swap.SwapBack? && !pc.swap.SwapUnref?
    && (pc.swap.SwapRef? ==> Proper(sh, SwapHook(x)))
  }

  predicate OwnSucceeds(turns: seq<Turn>, t: ThreadId) {
    forall i :: 0 <= i < |turns| && turns[i].thread == t ==> turns[i].choice.Succeed?
  }

  /** Somewhere in the run the thread renders: it is past the isDestroyed check, with the surface lock. */
  predicate Renders(s: State, turns: seq<Turn>, t: ThreadId, x: SurfaceId)
    requires CanRun(s, turns)
    decreases |turns|
  {
    || (t in s.threads && s.threads[t] == Swap(x, SwapUse))
    || (turns != [] && Renders(Take(s, turns[0]), turns[1..], t, x))
  }

  predicate Gone(sh: Shared, x: SurfaceId) {
    x !in sh.list && Get(sh, x).refs.born
  }

  lemma ApproachOnce(s: State, turn: Turn, t: ThreadId, x: SurfaceId)
    requires Inv(s) && CanTake(s, turn) && (turn.thread == t ==> turn.choice.Succeed?)
    requires t in s.threads && Approaching(s.shared, s.threads[t], x) && !s.threads[t].swap.SwapUse?
    ensures var next := Take(s, turn);
      (t in next.threads && Approaching(next.shared, next.threads[t], x)) || Gone(next.shared, x)
  {
    OwnShare(s, t, x);
    if turn.thread != t && s.threads[t].swap.SwapRef? {
      OthersWait(s, turn, t);
    }
  }

  lemma GoneStaysOnce(s: State, turn: Turn, x: SurfaceId)
    requires Inv(s) && CanTake(s, turn) && Gone(s.shared, x)
    ensures Gone(Take(s, turn).shared, x)
  {
    OwnShare(s, turn.thread, x);
    StepMovesAt(s.shared, turn.thread, s.threads[turn.thread], turn.choice, x);
  }

  lemma {:induction false} RunRenders(s: State, turns: seq<Turn>, t: ThreadId, x: SurfaceId)
    requires Inv(s) && CanRun(s, turns) && OwnSucceeds(turns, t) && t in s.threads
    requires Approaching(s.shared, s.threads[t], x) || Gone(s.shared, x)
    ensures var e := Run(s, turns);
      || Renders(s, turns, t, x) || Gone(e.shared, x)
      || (t in e.threads && Approaching(e.shared, e.threads[t], x))
    decreases |turns|
  {
    if turns != [] && !Renders(s, turns, t, x) {
      if Gone(s.shared, x) {
        GoneStaysOnce(s, turns[0], x);
      } else {
        ApproachOnce(s, turns[0], t, x);
      }
      TakeKeepsInv(s, turns[0]);
      RunRenders(Take(s, turns[0]), turns[1..], t, x);
    }
  }

  /** A swap of a listed surface of an initialised display that meets no failure renders, beside any other
      threads, unless the surface is taken off the list before it gets there. */
  lemma SwapRenders(ids: set<ThreadId>, before: seq<Turn>, after: seq<Turn>, t: ThreadId, x: SurfaceId)
    requires CanRun(Init(ids), before)
    requires var s := Run(Init(ids), before);
      && t in s.threads && s.threads[t] == Entered(SwapHook(x)) && Proper(s.shared, SwapHook(x))
      && CanRun(s, after) && OwnSucceeds(after, t) && t in Run(s, after).threads
      && !Approaching(Run(s, after).shared, Run(s, after).threads[t], x)
    ensures var s := Run(Init(ids), before);
      Renders(s, after, t, x) || x !in Run(s, after).shared.list
  {
    InitInv(ids);
    RunKeepsInv(Init(ids), before);
    RunRenders(Run(Init(ids), before), after, t, x);
  }

  // ------------------------------------------------------------------ what teardown leaves behind

  /** From the moment teardown has cleared devDpy the list stays as it is: what is on it then is never freed. */
  lemma {:induction false} TornListStays(s: State, turns: seq<Turn>)
    requires Inv(s) && s.shared.display.torn && CanRun(s, turns)
    ensures Run(s, turns).shared.list == s.shared.list && Run(s, turns).shared.display.torn
    decreases |turns|
  {
    if turns != [] {
      TornStepKeepsList(s, turns[0]);
      TakeKeepsInv(s, turns[0]);
      TornListStays(Take(s, turns[0]), turns[1..]);
    }
  }

  lemma TornStepKeepsList(s: State, turn: Turn)
    requires Inv(s) && s.shared.display.torn && CanTake(s, turn)
    ensures Take(s, turn).shared.list == s.shared.list && Take(s, turn).shared.display.torn
  {
    var t := turn.thread;
    OwnShare(s, t, 0);
    StepMovesDisplay(s.shared, t, s.threads[t], turn.choice);
  }

  predicate AtTeardownTest(s: State, t: ThreadId) {
    t in s.threads && s.threads[t] == Terminate(true, TerminateTest) && !s.shared.display.torn
  }

  /** How far thread t has come with a teardown whose test found `initialized` and `list`. */
  predicate TearingDown(s: State, t: ThreadId, initialized: bool, list: seq<SurfaceId>) {
    t in s.threads &&
    match s.threads[t]
    case Terminate(teardown, at) =>
      teardown &&
      (match at
       case TerminateTest => s.shared.display.initialized == initialized && s.shared.list == list
       case TerminateWalk => initialized
       case TeardownUnlock => s.shared.list == if initialized then [] else list
       case _ => false)
    case Destroy(_, caller, _) => caller.ByTeardown? && initialized
    case _ => false
  }

  /** The list is empty at the end, as it has to be, for the reasons it can be. */
  predicate Decided(s: State, initialized: bool, list: seq<SurfaceId>) {
    s.shared.display.torn && (s.shared.list == [] <==> initialized || list == [])
  }

  predicate Outcome(s: State, t: ThreadId, initialized: bool, list: seq<SurfaceId>) {
    if s.shared.display.torn then Decided(s, initialized, list) else TearingDown(s, t, initialized, list)
  }

  lemma OwnStepTears(s: State, turn: Turn, initialized: bool, list: seq<SurfaceId>)
    requires Inv(s) && CanTake(s, turn)
    requires !s.shared.display.torn && TearingDown(s, turn.thread, initialized, list)
    ensures Outcome(Take(s, turn), turn.thread, initialized, list)
  {
  }

  /** Nobody else changes the list or initCount meanwhile. */
  lemma OthersWait(s: State, turn: Turn, t: ThreadId)
    requires Inv(s) && CanTake(s, turn) && turn.thread != t && s.shared.display.mutex == Some(t)
    ensures var next := Take(s, turn).shared;
      && next.list == s.shared.list && next.display.initialized == s.shared.display.initialized
      && next.display.torn == s.shared.display.torn
  {
    var u := turn.thread;
    OwnShare(s, u, 0);
    StepMovesDisplay(s.shared, u, s.threads[u], turn.choice);
  }

  lemma StepTears(s: State, turn: Turn, t: ThreadId, initialized: bool, list: seq<SurfaceId>)
    requires Inv(s) && CanTake(s, turn) && Outcome(s, t, initialized, list)
    ensures Outcome(Take(s, turn), t, initialized, list)
  {
    if s.shared.display.torn {
      TornStepKeepsList(s, turn);
    } else if turn.thread == t {
      OwnStepTears(s, turn, initialized, list);
    } else {
      assert RoleInv(s.shared.display, t, RoleOf(s.threads[t]));
      OthersWait(s, turn, t);
    }
  }

  lemma {:induction false} RunTears(s: State, turns: seq<Turn>, t: ThreadId, initialized: bool, list: seq<SurfaceId>)
    requires Inv(s) && CanRun(s, turns) && Outcome(s, t, initialized, list)
    ensures Outcome(Run(s, turns), t, initialized, list)
    decreases |turns|
  {
    if turns != [] {
      StepTears(s, turns[0], t, initialized, list);
      TakeKeepsInv(s, turns[0]);
      RunTears(Take(s, turns[0]), turns[1..], t, initialized, list);
    }
  }

  /** Exactly when teardown empties the list: in every run from its test on, beside any other threads, the list
      is empty once devDpy is cleared if and only if the test finds the display initialised or the list empty. */
  lemma TeardownEmptiesIff(s: State, turns: seq<Turn>, t: ThreadId)
    requires Inv(s) && AtTeardownTest(s, t) && CanRun(s, turns) && Run(s, turns).shared.display.torn
    ensures Run(s, turns).shared.list == [] <==> s.shared.display.initialized || s.shared.list == []
  {
    RunTears(s, turns, t, s.shared.display.initialized, s.shared.list);
  }

  predicate AllFreed(sh: Shared) {
    forall x :: x in sh.surfaces && sh.surfaces[x].refs.born ==> sh.surfaces[x].refs.frees == 1
  }

  /** So once no call is in flight after a teardown, every surface ever made has been freed, exactly once, if and
      only if that teardown found the display initialised or without surfaces. */
  lemma TeardownFreesAllIff(ids: set<ThreadId>, before: seq<Turn>, after: seq<Turn>, t: ThreadId)
    requires CanRun(Init(ids), before) && AtTeardownTest(Run(Init(ids), before), t)
    requires CanRun(Run(Init(ids), before), after)
    requires var end := Run(Run(Init(ids), before), after); Idle(end) && end.shared.display.torn
    ensures var s := Run(Init(ids), before);
      AllFreed(Run(s, after).shared) <==> s.shared.display.initialized || s.shared.list == []
  {
    InitInv(ids);
    RunKeepsInv(Init(ids), before);
    var s := Run(Init(ids), before);
    RunKeepsInv(s, after);
    TeardownEmptiesIff(s, after, t);
    ListedIffUnfreed(Run(s, after));
  }

  lemma ListedIffUnfreed(s: State)
    requires Inv(s) && Idle(s)
    ensures AllFreed(s.shared) <==> s.shared.list == []
  {
    forall x
      ensures Get(s.shared, x).refs.born ==> Get(s.shared, x).refs.frees == if x in s.shared.list then 0 else 1
      ensures x in s.shared.list ==> x in s.shared.surfaces && Get(s.shared, x).refs.born
    {
      IdleCounts(s, x);
    }
    if s.shared.list != [] {
      assert s.shared.list[0] in s.shared.list;
    }
  }

  lemma IdleCounts(s: State, x: SurfaceId)
    requires Inv(s) && Idle(s)
    ensures Get(s.shared, x).refs.born ==> Get(s.shared, x).refs.frees == if x in s.shared.list then 0 else 1
    ensures x in s.shared.list ==> Get(s.shared, x).refs.born
  {
    assert InvAt(s, x);
    assert Users(s.threads, UsesSurface(x)) == {};
    forall t | t in s.threads
      ensures s.shared.display.mutex != Some(t)
    {
      assert RoleInv(s.shared.display, t, RoleOf(s.threads[t]));
    }
  }

  // ------------------------------------------------------------------ the cleared device

  /** Statements that use display->devDpy: the driver's display for a frame, for a new surface and for destroying
      a context, and the device whose users are counted. */
  predicate UsesDevice(sh: Shared, pc: Pc) {
    match pc
    case Swap(_, at) => at.SwapUse?
    case CreateAdd(_, checked) => !checked || sh.display.initialized
    case InitializeSet => !sh.display.initialized
    case Destroy(_, _, at) => at.DestroyContext?
    case Terminate(_, at) => at.TerminateTest? && sh.display.initialized
    case _ => false
  }

  /** A hook that does not find the device gone by looking at initCount first. */
  predicate LateComer(pc: Pc) {
    pc.InitializeSet? || (pc.CreateAdd? && !pc.checked)
  }

  /** No swap past its isDestroyed check is in flight once teardown has cleared devDpy. */
  lemma NoFrameWhenTorn(s: State, t: ThreadId, x: SurfaceId)
    requires Inv(s) && t in s.threads && s.threads[t] == Swap(x, SwapUse)
    ensures !s.shared.display.torn
  {
    assert InvAt(s, x);
    UsersChange(s.threads, t, s.threads[t], UsesSurface(x));
    if x !in s.shared.list {
      var u := s.shared.display.mutex.value;
      assert PartInv(At(s.shared, x), u, RoleOf(s.threads[u]), PartOf(s.threads[u], x));
    }
  }

  /** Exactly who uses the device pointer that teardown cleared: a hook that initialises the display, or creates
      a surface without looking at initCount, and that got the display mutex only after the teardown. */
  lemma ClearedDeviceUsedIff(ids: set<ThreadId>, turns: seq<Turn>, t: ThreadId)
    requires CanRun(Init(ids), turns) && t in Run(Init(ids), turns).threads
    ensures var s := Run(Init(ids), turns);
      s.shared.display.torn ==> (UsesDevice(s.shared, s.threads[t]) <==> LateComer(s.threads[t]))
  {
    InitInv(ids);
    RunKeepsInv(Init(ids), turns);
    var s := Run(Init(ids), turns);
    var pc := s.threads[t];
    if pc.Swap? && pc.swap.SwapUse? {
      NoFrameWhenTorn(s, t, pc.s);
    } else if pc.Destroy? {
      OwnShare(s, t, pc.s);
    }
  }

  // ------------------------------------------------------------------ runs that end so

  /** Two threads: thread 0 is inside, thread 1 tears the display down. */
  function Two(a: Pc, b: Pc, sh: Shared): State {
    State(map[0 := a, 1 := b], sh)
  }

  ghost predicate Reaches(s: State, end: State) {
    exists turns :: CanRun(s, turns) && Run(s, turns) == end
  }

  lemma ReachesItself(s: State)
    ensures Reaches(s, s)
  {
    assert CanRun(s, []) && Run(s, []) == s;
  }

  lemma ReachesBy(s: State, turn: Turn, end: State)
    requires CanTake(s, turn) && Reaches(Take(s, turn), end)
    ensures Reaches(s, end)
  {
    var rest :| CanRun(Take(s, turn), rest) && Run(Take(s, turn), rest) == end;
    var turns := [turn] + rest;
    assert turns[1..] == rest;
    assert CanRun(s, turns) && Run(s, turns) == end;
  }

  lemma FirstMoves(a: Pc, b: Pc, sh: Shared, choice: Choice, n: Next, end: State)
    requires Enabled(sh, a) && Step(sh, 0, a, choice) == n && Reaches(Two(n.pc, b, n.shared), end)
    ensures Reaches(Two(a, b, sh), end)
  {
    assert Take(Two(a, b, sh), Turn(0, choice)) == Two(n.pc, b, n.shared);
    ReachesBy(Two(a, b, sh), Turn(0, choice), end);
  }

  lemma SecondMoves(a: Pc, b: Pc, sh: Shared, choice: Choice, n: Next, end: State)
    requires Enabled(sh, b) && Step(sh, 1, b, choice) == n && Reaches(Two(a, n.pc, n.shared), end)
    ensures Reaches(Two(a, b, sh), end)
  {
    assert Take(Two(a, b, sh), Turn(1, choice)) == Two(a, n.pc, n.shared);
    ReachesBy(Two(a, b, sh), Turn(1, choice), end);
  }

  /** Thread 1 tears down a display that is not initialised, whatever thread 0 waits for. */
  lemma TornUninitialized(a: Pc, sh: Shared, end: State)
    requires sh.display.external.None? && sh.display.mutex.None? && sh.display.refs.created
    requires !sh.display.initialized && !sh.display.torn
    requires Reaches(Two(a, Outside, sh.(display := sh.display.
                       (torn := true, refs := Unref(sh.display.refs).(created := false)))), end)
    ensures Reaches(Two(a, Outside, sh), end)
  {
    var taken := SetExternal(sh, Some(1));
    var locked := SetMutex(taken, Some(1));
    var torn := taken.(display := taken.display.(torn := true));
    var unlinked := SetRefs(torn, Unref(sh.display.refs).(created := false));
    SecondMoves(a, Elsewhere, unlinked, Succeed, Next(SetExternal(unlinked, None), Outside), end);
    SecondMoves(a, Terminate(true, TeardownUnlink), torn, Succeed, Next(unlinked, Elsewhere), end);
    SecondMoves(a, Terminate(true, TeardownUnlock), locked, Succeed, Next(torn, Terminate(true, TeardownUnlink)), end);
    SecondMoves(a, Terminate(true, TerminateTest), locked, Succeed, Next(locked, Terminate(true, TeardownUnlock)), end);
    SecondMoves(a, Terminate(true, TeardownLock), taken, Succeed, Next(locked, Terminate(true, TerminateTest)), end);
    SecondMoves(a, Elsewhere, taken, CallTeardown, Next(taken, Terminate(true, TeardownLock)), end);
    SecondMoves(a, Outside, sh, CallTeardown, Next(taken, Elsewhere), end);
  }

  const NEW := Shared(Display(None, None, false, false, RefCount(true, true, 1, 0), false), [], map[])
  const COUNTED := SetRefs(NEW, RefCount(true, true, 2, 0))

  /** The display is freed, and the surface is not. */
  predicate Leaked(sh: Shared, x: SurfaceId) {
    sh.display.refs.frees == 1 && x in sh.list && Get(sh, x).refs.born && Get(sh, x).refs.frees == 0
  }

  /** Thread 0 creates surface 0 on a display that is not initialised, without looking at initCount. */
  lemma StrayCreated(end: State)
    requires Reaches(Two(Outside, Outside, Strayed()), end)
    ensures Reaches(Two(Outside, Outside, NEW), end)
  {
    var locked := SetMutex(COUNTED, Some(0));
    var unlocked := SetRefs(Strayed(), RefCount(true, true, 2, 0));
    var added := SetMutex(unlocked, Some(0));
    FirstMoves(Leave, Outside, unlocked, Succeed, Next(Strayed(), Outside), end);
    FirstMoves(UnlockDisplay, Outside, added, Succeed, Next(unlocked, Leave), end);
    assert Step(locked, 0, CreateAdd(0, false), Succeed) == Next(added, UnlockDisplay);
    FirstMoves(CreateAdd(0, false), Outside, locked, Succeed, Next(added, UnlockDisplay), end);
    FirstMoves(Entering(CreateHook(0, false)), Outside, COUNTED, Succeed, Next(locked, CreateAdd(0, false)), end);
    var hook := CreateHook(0, false);
    FirstMoves(Outside, Outside, NEW, CallHook(hook), Next(COUNTED, Entering(hook)), end);
  }

  function Strayed(): Shared {
    Shared(NEW.display.(strayed := true), [0], map[0 := Surface(None, false, true, RefCount(true, true, 1, 0))])
  }

  /** A surface added before eglInitialize, by a hook that does not look at initCount, outlives teardown. */
  lemma StraySurvivesTeardown()
    ensures exists end :: Reaches(Init({0, 1}), end) && Idle(end) && Leaked(end.shared, 0)
  {
    assert Init({0, 1}) == Two(Outside, Outside, NEW);
    var sh := Strayed();
    var end := Two(Outside, Outside, sh.(display := sh.display.
                 (torn := true, refs := Unref(sh.display.refs).(created := false))));
    ReachesItself(end);
    TornUninitialized(Outside, sh, end);
    StrayCreated(end);
  }

  predicate TooLate(s: State, t: ThreadId) {
    t in s.threads && s.shared.display.torn && UsesDevice(s.shared, s.threads[t])
  }

  /** An eglInitialize that waits for the display mutex while the display is torn down comes too late. */
  lemma LateInitialize()
    ensures exists end :: Reaches(Init({0, 1}), end) && TooLate(end, 0)
  {
    assert Init({0, 1}) == Two(Outside, Outside, NEW);
    var torn := COUNTED.(display := COUNTED.display.
                 (torn := true, refs := Unref(COUNTED.display.refs).(created := false)));
    var end := Two(InitializeSet, Outside, SetMutex(torn, Some(0)));
    ReachesItself(end);
    FirstMoves(Entering(InitializeHook), Outside, torn, Succeed, Next(SetMutex(torn, Some(0)), InitializeSet), end);
    TornUninitialized(Entering(InitializeHook), COUNTED, end);
    FirstMoves(Outside, Outside, NEW, CallHook(InitializeHook), Next(COUNTED, Entering(InitializeHook)), end);
  }
}
