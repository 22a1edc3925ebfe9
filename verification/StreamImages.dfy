/**
 The images of a window surface under implicit sync: acquired from the stream, attached to the
 wl_surface, given back by the compositor's wl_buffer.release, and destroyed by stream events, by
 reallocation or with the surface.

 `Surface` holds the fields the code works on.  The allocated WlEglStreamImage records are an
 explicit heap, so that touching a freed image is not even well-formed.  Every critical section
 under streamImagesMutex is one atomic step; a release callback that libwayland has dispatched but
 that has not taken the mutex yet is in flight.
 */
module StreamImages {
  import opened Seqs

  type ImageId = nat

  datatype Image = Image(
    buffer: bool,              // image->buffer != NULL
    attached: bool,
    destructionPending: bool)

  datatype Surface = Surface(
    heap: map<ImageId, Image>,
    streamImages: seq<ImageId>,
    acquiredImages: seq<ImageId>,
    currentBuffer: Option<ImageId>,      // the image whose buffer it is
    freed: multiset<ImageId>,            // history: free(image)
    buffersGone: multiset<ImageId>,      // history: wl_buffer_destroy(image->buffer)
    destroyedHeld: set<ImageId>)         // history: freed while acquired and not given back

  const EMPTY := Surface(map[], [], [], None, multiset{}, multiset{}, {})

  /** The image is out of the stream's hands: acquired and neither given back nor freed. */
  predicate Held(c: Surface, id: ImageId)
    requires id in c.heap
  {
    id in c.acquiredImages || c.heap[id].attached || c.heap[id].destructionPending
  }

  // ------------------------------------------------------------------ the critical sections

  /** destroy_stream_image, without explicit sync. */
  function DestroyStreamImage(c: Surface, id: ImageId): Surface
    requires id in c.heap
  {
    var image := c.heap[id];
    var current := if image.buffer && c.currentBuffer == Some(id) then None else c.currentBuffer;
    if image.attached then
      c.(currentBuffer := current, heap := c.heap[id := image.(destructionPending := true)])
    else
      c.(currentBuffer := current,
         heap := c.heap - {id},
         streamImages := Without(c.streamImages, {id}),
         acquiredImages := Without(c.acquiredImages, {id}),
         freed := c.freed + multiset{id},
         buffersGone := if image.buffer then c.buffersGone + multiset{id} else c.buffersGone,
         destroyedHeld := if Held(c, id) then c.destroyedHeld + {id} else c.destroyedHeld)
  }

  /** A loop over a list of images that destroys each. */
  function DestroyEach(c: Surface, ids: seq<ImageId>): Surface
    requires Distinct(ids) && forall id :: id in ids ==> id in c.heap
    decreases |ids|
  {
    if ids == [] then c else DestroyEach(DestroyStreamImage(c, ids[0]), ids[1..])
  }

  /** The image loop of destroy_surface_context. */
  function SweepImages(c: Surface): Surface
    requires ListInv(c)
  {
    DestroyEach(c, c.streamImages)
  }

  /** stream_local_buffer_release_callback; whether the image goes back to the stream is the
      complement of `destructionPending`. */
  function ReleaseBuffer(c: Surface, id: ImageId): Surface
    requires id in c.heap
  {
    var d := c.(heap := c.heap[id := c.heap[id].(attached := false)]);
    if c.heap[id].destructionPending then DestroyStreamImage(d, id) else d
  }

  /** The buffer loop of wlEglDestroySurface. */
  function StripBuffers(c: Surface): Surface {
    c.(heap := map id | id in c.heap ::
         if c.heap[id].buffer then c.heap[id].(buffer := false, attached := false) else c.heap[id],
       buffersGone := c.buffersGone + multiset(set id | id in c.heap && c.heap[id].buffer))
  }

  /** The assertion made by that loop. */
  predicate StripAsserts(c: Surface) {
    forall id :: id in c.heap && c.heap[id].buffer ==> c.heap[id].attached
  }

  // ------------------------------------------------------------------ destroying images

  predicate CurrentInv(c: Surface) {
    c.currentBuffer.Some? ==> c.currentBuffer.value in c.heap && c.heap[c.currentBuffer.value].buffer
  }

  ghost predicate ListInv(c: Surface) {
    && Distinct(c.streamImages) && Distinct(c.acquiredImages)
    && (forall id :: id in c.streamImages <==> id in c.heap)
    && CurrentInv(c)
  }

  /** What destroying the images `ids` does to one image. */
  predicate DestroyedAt(c: Surface, ids: set<ImageId>, d: Surface, id: ImageId) {
    var goes := id in c.heap && id in ids && !c.heap[id].attached;
    && (id in d.heap <==> id in c.heap && !goes)
    && (id in d.heap ==>
          d.heap[id] == if id in ids then c.heap[id].(destructionPending := true) else c.heap[id])
    && d.freed[id] == c.freed[id] + (if goes then 1 else 0)
    && d.buffersGone[id] == c.buffersGone[id] + (if goes && c.heap[id].buffer then 1 else 0)
    && (id in d.destroyedHeld <==> id in c.destroyedHeld || (goes && Held(c, id)))
  }

  /** What it does to every image, and to the lists. */
  ghost predicate Destroyed(c: Surface, ids: set<ImageId>, d: Surface) {
    && (forall id :: DestroyedAt(c, ids, d, id))
    && d.streamImages == Without(c.streamImages, c.heap.Keys - d.heap.Keys)
    && d.acquiredImages == Without(c.acquiredImages, c.heap.Keys - d.heap.Keys)
    && d.currentBuffer == if c.currentBuffer.Some? && c.currentBuffer.value in ids then None else c.currentBuffer
  }

  /** As long as no record is freed, nothing is unlinked. */
  lemma NothingUnlinked(c: Surface, gone: set<ImageId>)
    requires gone == {}
    ensures Without(c.streamImages, gone) == c.streamImages && Without(c.acquiredImages, gone) == c.acquiredImages
  {
    NothingGone(c.streamImages, gone);
    NothingGone(c.acquiredImages, gone);
  }

  lemma MarkedAt(c: Surface, id: ImageId, x: ImageId)
    requires id in c.heap && c.heap[id].attached
    ensures DestroyedAt(c, {id}, DestroyStreamImage(c, id), x)
  {}

  lemma MarkOne(c: Surface, id: ImageId)
    requires CurrentInv(c) && id in c.heap && c.heap[id].attached
    ensures Destroyed(c, {id}, DestroyStreamImage(c, id))
  {
    var d := DestroyStreamImage(c, id);
    assert d.heap.Keys == c.heap.Keys;
    NothingUnlinked(c, c.heap.Keys - d.heap.Keys);
    forall x
      ensures DestroyedAt(c, {id}, d, x)
    {
      MarkedAt(c, id, x);
    }
  }

  lemma FreeOne(c: Surface, id: ImageId)
    requires CurrentInv(c) && id in c.heap && !c.heap[id].attached
    ensures Destroyed(c, {id}, DestroyStreamImage(c, id))
  {
    var d := DestroyStreamImage(c, id);
    assert c.heap.Keys - d.heap.Keys == {id};
  }

  lemma DestroyOne(c: Surface, id: ImageId)
    requires CurrentInv(c) && id in c.heap
    ensures Destroyed(c, {id}, DestroyStreamImage(c, id))
  {
    if c.heap[id].attached { MarkOne(c, id); } else { FreeOne(c, id); }
  }

  lemma DestroyedKeepsLists(c: Surface, ids: set<ImageId>, d: Surface)
    requires ListInv(c) && Destroyed(c, ids, d)
    ensures ListInv(d)
  {
    forall id
      ensures id in d.streamImages <==> id in d.heap
    {
      assert DestroyedAt(c, ids, d, id);
    }
    if d.currentBuffer.Some? {
      assert DestroyedAt(c, ids, d, d.currentBuffer.value);
    }
  }

  lemma DestroyedThen(c: Surface, a: set<ImageId>, d: Surface, b: set<ImageId>, e: Surface)
    requires Destroyed(c, a, d) && Destroyed(d, b, e) && a !! b
    ensures Destroyed(c, a + b, e)
  {
    forall id
      ensures DestroyedAt(c, a + b, e, id)
    {
      assert DestroyedAt(c, a, d, id) && DestroyedAt(d, b, e, id);
      assert id in d.heap && id !in e.heap ==> (Held(c, id) <==> Held(d, id));
    }
    forall id
      ensures (id in e.heap ==> id in d.heap) && (id in d.heap ==> id in c.heap)
    {
      assert DestroyedAt(c, a, d, id) && DestroyedAt(d, b, e, id);
    }
    WithoutTwice(c.streamImages, c.heap.Keys - d.heap.Keys, d.heap.Keys - e.heap.Keys);
    WithoutTwice(c.acquiredImages, c.heap.Keys - d.heap.Keys, d.heap.Keys - e.heap.Keys);
    assert (c.heap.Keys - d.heap.Keys) + (d.heap.Keys - e.heap.Keys) == c.heap.Keys - e.heap.Keys;
  }

  lemma DestroyNone(c: Surface)
    ensures Destroyed(c, {}, c)
  {
    NothingUnlinked(c, c.heap.Keys - c.heap.Keys);
  }

  lemma FirstDestroyed(c: Surface, ids: seq<ImageId>)
    requires ListInv(c) && Distinct(ids) && ids != [] && forall id :: id in ids ==> id in c.heap
    ensures ids[0] in c.heap
    ensures var d := DestroyStreamImage(c, ids[0]);
      && Destroyed(c, {ids[0]}, d) && ListInv(d)
      && Distinct(ids[1..]) && ids[0] !in ids[1..] && forall id :: id in ids[1..] ==> id in d.heap
  {
    DestroyOne(c, ids[0]);
    DestroyedKeepsLists(c, {ids[0]}, DestroyStreamImage(c, ids[0]));
  }

  lemma MembersSplit(ids: seq<ImageId>)
    requires ids != [] && ids[0] !in ids[1..]
    ensures Members(ids) == {ids[0]} + Members(ids[1..]) && {ids[0]} !! Members(ids[1..])
  {
    assert ids == [ids[0]] + ids[1..];
  }

  lemma {:induction false} DestroyEachDestroys(c: Surface, ids: seq<ImageId>)
    requires ListInv(c) && Distinct(ids) && forall id :: id in ids ==> id in c.heap
    ensures Destroyed(c, Members(ids), DestroyEach(c, ids))
    decreases |ids|, 1
  {
    if ids == [] {
      DestroyNone(c);
      assert Members(ids) == {};
    } else {
      FirstDestroyed(c, ids);
      DestroyRest(c, ids);
    }
  }

  lemma {:induction false} DestroyRest(c: Surface, ids: seq<ImageId>)
    requires ids != [] && ids[0] in c.heap && Distinct(ids) && forall id :: id in ids ==> id in c.heap
    requires var d := DestroyStreamImage(c, ids[0]);
      && Destroyed(c, {ids[0]}, d) && ListInv(d)
      && Distinct(ids[1..]) && ids[0] !in ids[1..] && forall id :: id in ids[1..] ==> id in d.heap
    ensures Destroyed(c, Members(ids), DestroyEach(c, ids))
    decreases |ids|, 0
  {
    var d := DestroyStreamImage(c, ids[0]);
    DestroyEachDestroys(d, ids[1..]);
    MembersSplit(ids);
    DestroyedThen(c, {ids[0]}, d, Members(ids[1..]), DestroyEach(d, ids[1..]));
  }

  // ------------------------------------------------------------------ the whole system

  /** Why a context is torn down. */
  datatype Purpose = ToRealloc | ToDestroy

  /** Where the thread that owns the surface lock stands. */
  datatype Phase =
    | Live                      // a context with a local stream exists
    | Dying(purpose: Purpose)   // destroy_surface_context: ctx->eglStream is gone, images are not swept yet
    | Swept(purpose: Purpose)   // its image loop has run
    | Headless                  // create_surface_context failed: no context, no release thread
    | Stripped                  // wlEglDestroySurface: buffers destroyed, about to join the release thread
    | Joined                    // release thread joined
    | Done

  /** History kept per image ever added. */
  datatype Ledger = Ledger(
    taken: map<ImageId, nat>,    // successful streamAcquireImage calls
    given: map<ImageId, nat>,    // streamReleaseImage calls
    buffersMade: set<ImageId>,
    serial: map<ImageId, nat>,   // when the image was last put on acquiredImages
    clock: nat,
    lastAttached: nat)           // serial of the image attached last

  datatype State = State(
    c: Surface,
    phase: Phase,
    threadOn: bool,                // wlBufferEventQueue != NULL: the release thread runs
    inFlight: Option<ImageId>,     // a dispatched release callback that has not taken the mutex
    owned: set<ImageId>,           // images the live stream may offer
    committed: set<ImageId>,       // images the compositor has not released
    ledger: Ledger,
    stranded: bool)                // wlEglDestroySurface began with attached images and no release thread

  const INIT := State(EMPTY, Live, true, None, {}, {}, Ledger(map[], map[], {}, map[], 1, 0), false)

  datatype Step =
    | AddImage(id: ImageId)                 // EGL_STREAM_IMAGE_ADD_NV
    | AcquireImage(id: ImageId, ok: bool)   // EGL_STREAM_IMAGE_AVAILABLE_NV; ok: the buffer could be exported
    | RemoveImage(id: ImageId)              // EGL_STREAM_IMAGE_REMOVE_NV
    | Commit                                // wlEglSendDamageEvent with an acquired image
    | Dispatch(id: ImageId)                 // libwayland picks a release event for the callback
    | RunCallback                           // the callback takes the mutex and runs
    | EndContext(purpose: Purpose)          // destroy_surface_context up to its image loop
    | Sweep                                 // its image loop
    | Create                                // create_surface_context succeeds
    | CreateFails                           // create_surface_context fails
    | Strip                                 // wlEglDestroySurface: buffer loop
    | JoinThread                            // finish_wl_buffer_release_thread
    | FreeRest                              // last image loop
    | SkipTeardown                          // no release thread: both loops are skipped

  /** AddImage introduces a new record; the stream offers only images it owns; a release event is
      for a committed buffer whose proxy has not been destroyed. */
  predicate Enabled(s: State, step: Step) {
    match step
    case AddImage(id) => s.phase.Live? && id !in s.ledger.taken
    case AcquireImage(id, _) => s.phase.Live? && id in s.owned
    case RemoveImage(_) => s.phase.Live?
    case Commit => s.phase.Live? && s.c.acquiredImages != []
    case Dispatch(id) =>
      s.threadOn && s.inFlight.None? && id in s.committed && id in s.c.heap && s.c.heap[id].buffer
    case RunCallback => s.inFlight.Some?
    case EndContext(_) => s.phase.Live? || s.phase.Headless?
    case Sweep => s.phase.Dying?
    case Create => s.phase == Swept(ToRealloc)
    case CreateFails => s.phase == Swept(ToRealloc) && (s.threadOn ==> s.inFlight.None?)
    case Strip => s.phase == Swept(ToDestroy) && s.threadOn
    case JoinThread => s.phase.Stripped? && s.inFlight.None?
    case FreeRest => s.phase.Joined?
    case SkipTeardown => s.phase == Swept(ToDestroy) && !s.threadOn
  }

  function Count(m: map<ImageId, nat>, id: ImageId): nat {
    if id in m then m[id] else 0
  }

  /** acquire_surface_image. */
  function Acquire(s: State, id: ImageId, ok: bool): State
    requires id in s.c.heap
  {
    var taken := s.ledger.taken[id := Count(s.ledger.taken, id) + 1];
    if ok then
      s.(c := s.c.(heap := s.c.heap[id := s.c.heap[id].(buffer := true)],
                   acquiredImages := s.c.acquiredImages + [id]),
         owned := s.owned - {id},
         ledger := s.ledger.(taken := taken, buffersMade := s.ledger.buffersMade + {id},
                             serial := s.ledger.serial[id := s.ledger.clock], clock := s.ledger.clock + 1))
    else
      s.(ledger := s.ledger.(taken := taken, given := s.ledger.given[id := Count(s.ledger.given, id) + 1]))
  }

  /** wlEglSendDamageEvent: pop, mark attached, attach and commit. */
  function CommitFirst(s: State): State
    requires s.c.acquiredImages != [] && s.c.acquiredImages[0] in s.c.heap
  {
    var id := s.c.acquiredImages[0];
    s.(c := s.c.(heap := s.c.heap[id := s.c.heap[id].(attached := true)],
                 acquiredImages := s.c.acquiredImages[1..],
                 currentBuffer := Some(id)),
       committed := s.committed + {id},
       ledger := s.ledger.(lastAttached := Count(s.ledger.serial, id)))
  }

  /** The release callback; an image not waiting for destruction goes back to the stream, if there
      still is one. */
  function Callback(s: State, id: ImageId): State
    requires id in s.c.heap
  {
    var t := s.(c := ReleaseBuffer(s.c, id), inFlight := None);
    if s.c.heap[id].destructionPending then t
    else t.(owned := if s.phase.Live? then s.owned + {id} else s.owned,
            ledger := s.ledger.(given := s.ledger.given[id := Count(s.ledger.given, id) + 1]))
  }

  /** add_surface_image. */
  function Add(s: State, id: ImageId): State {
    s.(c := s.c.(heap := s.c.heap[id := Image(false, false, false)], streamImages := [id] + s.c.streamImages),
       owned := s.owned + {id},
       ledger := s.ledger.(taken := s.ledger.taken[id := 0], given := s.ledger.given[id := 0]))
  }

  /** remove_surface_image. */
  function Remove(s: State, id: ImageId): State {
    if id in s.c.heap then s.(c := DestroyStreamImage(s.c, id), owned := s.owned - {id}) else s
  }

  function End(s: State, purpose: Purpose): State {
    s.(phase := Dying(purpose), owned := {},
       stranded := purpose.ToDestroy? && !s.threadOn && exists id :: id in s.c.heap && s.c.heap[id].attached)
  }

  // ------------------------------------------------------------------ the invariant

  /** wlEglDestroySurface has run its buffer loop. */
  predicate Torn(phase: Phase) {
    phase.Stripped? || phase.Joined?
  }

  /** The context's images have been swept and none was added since. */
  predicate AfterSweep(phase: Phase) {
    phase.Swept? || phase.Headless? || Torn(phase) || phase.Done?
  }

  /** An allocated image: who has it, and what still refers to it. */
  predicate LiveImageInv(s: State, id: ImageId)
    requires id in s.c.heap
  {
    var image := s.c.heap[id];
    && (image.attached ==> image.buffer)
    && (id in s.c.acquiredImages ==> image.buffer && !image.attached && !image.destructionPending)
    && (id in s.owned ==> id !in s.c.acquiredImages && !image.attached && !image.destructionPending)
    && (s.phase.Live? && !image.destructionPending ==>
          id in s.owned || id in s.c.acquiredImages || image.attached)
    // Marked images stay attached until the buffers are stripped.
    && (image.destructionPending ==>
          if Torn(s.phase) then !image.attached && !image.buffer else image.attached)
    && (AfterSweep(s.phase) ==> image.destructionPending)
    // The compositor and the release callback only know attached images.
    && (id in s.committed || s.inFlight == Some(id) ==> image.attached || Torn(s.phase))
    && (id in s.committed ==> s.inFlight != Some(id))
  }

  /** The last acquire of the image has no matching release: it is held, or was freed while held. */
  predicate Outstanding(c: Surface, id: ImageId) {
    id in c.destroyedHeld || (id in c.heap && Held(c, id))
  }

  /** The history of an image: freed once, its buffer destroyed once, its acquires matched. */
  predicate LedgerInv(s: State, id: ImageId)
    requires id in s.ledger.taken && id in s.ledger.given
  {
    && s.c.freed[id] == (if id in s.c.heap then 0 else 1)
    && s.c.buffersGone[id] ==
       (if id in s.ledger.buffersMade && !(id in s.c.heap && s.c.heap[id].buffer) then 1 else 0)
    && (id in s.c.heap ==> id !in s.c.destroyedHeld)
    && (id in s.c.heap && s.c.heap[id].buffer ==> id in s.ledger.buffersMade)
    && (id in s.c.heap && id in s.ledger.buffersMade ==> s.c.heap[id].buffer || Torn(s.phase))
    && s.ledger.taken[id] == s.ledger.given[id] + (if Outstanding(s.c, id) then 1 else 0)
  }

  predicate ImageInv(s: State, id: ImageId) {
    && (id in s.ledger.taken <==> id in s.ledger.given)
    && (if id in s.ledger.taken then LedgerInv(s, id)
        else id !in s.c.heap && id !in s.committed && id !in s.ledger.buffersMade && id !in s.c.destroyedHeld
             && s.c.freed[id] == 0 && s.c.buffersGone[id] == 0)
    && (if id in s.c.heap then LiveImageInv(s, id)
        else id !in s.c.acquiredImages && id !in s.owned && s.inFlight != Some(id))
    && (id in s.c.acquiredImages ==>
          id in s.ledger.serial && s.ledger.lastAttached < s.ledger.serial[id] < s.ledger.clock)
  }

  ghost predicate PhaseInv(s: State) {
    && (s.inFlight.Some? ==> s.threadOn)
    && (s.phase.Live? || s.phase.Stripped? ==> s.threadOn)
    && (s.phase.Headless? || s.phase.Joined? || s.phase.Done? ==> !s.threadOn)
    && (AfterSweep(s.phase) ==> s.c.acquiredImages == [] && s.c.currentBuffer.None?)
    && (!s.phase.Live? ==> s.owned == {})
    && (s.stranded ==> !s.threadOn)
    && (s.stranded ==> s.phase == Dying(ToDestroy) || s.phase == Swept(ToDestroy) || s.phase.Done?)
    && ((s.phase == Dying(ToDestroy) || s.phase == Swept(ToDestroy)) && !s.threadOn ==>
          (s.stranded <==> exists id :: id in s.c.heap && s.c.heap[id].attached))
    && (s.phase.Done? ==> (s.stranded <==> s.c.heap != map[]))
  }

  ghost predicate Inv(s: State) {
    && ListInv(s.c) && PhaseInv(s)
    && Ascending(s.c.acquiredImages, s.ledger.serial)
    && s.ledger.lastAttached < s.ledger.clock
    && (forall id :: ImageInv(s, id))
  }

  /** No step dereferences a freed image; in particular a release callback in flight never does. */
  lemma StepTouchesLiveImages(s: State, step: Step)
    requires Inv(s) && Enabled(s, step)
    ensures step.AcquireImage? ==> step.id in s.c.heap
    ensures step.Commit? ==> s.c.acquiredImages[0] in s.c.heap
    ensures step.RunCallback? ==> s.inFlight.value in s.c.heap
  {
    match step
    case AcquireImage(id, _) => assert ImageInv(s, id);
    case Commit => assert ImageInv(s, s.c.acquiredImages[0]);
    case RunCallback => assert ImageInv(s, s.inFlight.value);
    case _ =>
  }

  /** One step.  That the images it touches are still allocated is what the invariant guarantees. */
  ghost function Apply(s: State, step: Step): State
    requires Enabled(s, step) && Inv(s)
  {
    StepTouchesLiveImages(s, step);
    match step
    case AddImage(id) => Add(s, id)
    case AcquireImage(id, ok) => Acquire(s, id, ok)
    case RemoveImage(id) => Remove(s, id)
    case Commit => CommitFirst(s)
    case Dispatch(id) => s.(inFlight := Some(id), committed := s.committed - {id})
    case RunCallback => Callback(s, s.inFlight.value)
    case EndContext(purpose) => End(s, purpose)
    case Sweep => s.(phase := Swept(s.phase.purpose), c := SweepImages(s.c))
    case Create => s.(phase := Live, threadOn := true, c := s.c.(acquiredImages := []))
    case CreateFails => s.(phase := Headless, threadOn := false, c := s.c.(acquiredImages := []))
    case Strip => s.(phase := Stripped, c := StripBuffers(s.c))
    case JoinThread => s.(phase := Joined, threadOn := false)
    case FreeRest => s.(phase := Done, c := SweepImages(s.c))
    case SkipTeardown => s.(phase := Done)
  }

  lemma AddKeepsInv(s: State, id: ImageId)
    requires Inv(s) && Enabled(s, AddImage(id))
    ensures Inv(Add(s, id))
  {
    var t := Add(s, id);
    assert ImageInv(s, id);
    forall x
      ensures ImageInv(t, x) && (x in t.c.streamImages <==> x in t.c.heap)
    {
      assert ImageInv(s, x);
    }
  }

  lemma AcquireKeepsInv(s: State, id: ImageId, ok: bool)
    requires Inv(s) && Enabled(s, AcquireImage(id, ok)) && id in s.c.heap
    ensures Inv(Acquire(s, id, ok))
  {
    var t := Acquire(s, id, ok);
    assert ImageInv(s, id);
    forall x
      ensures ImageInv(t, x)
    {
      assert ImageInv(s, x);
      assert ok ==> (x in t.c.acquiredImages <==> x == id || x in s.c.acquiredImages);
    }
    forall i | 0 <= i < |s.c.acquiredImages|
      ensures s.ledger.serial[s.c.acquiredImages[i]] < s.ledger.clock
    {
      assert ImageInv(s, s.c.acquiredImages[i]);
    }
  }

  lemma CommitKeepsInv(s: State)
    requires Inv(s) && Enabled(s, Commit) && s.c.acquiredImages[0] in s.c.heap
    ensures Inv(CommitFirst(s))
  {
    var t := CommitFirst(s);
    var id := s.c.acquiredImages[0];
    assert s.c.acquiredImages == [id] + t.c.acquiredImages;
    assert ImageInv(s, id);
    forall x
      ensures ImageInv(t, x)
    {
      assert ImageInv(s, x);
      assert x in s.c.acquiredImages <==> x == id || x in t.c.acquiredImages;
    }
  }

  /** Destroying images, with the stream told or gone, keeps what is said of each image. */
  lemma DestroyKeepsImages(s: State, ids: set<ImageId>, d: Surface)
    requires Inv(s) && Destroyed(s.c, ids, d) && (s.inFlight.Some? ==> !Torn(s.phase))
    ensures ListInv(d) && Ascending(d.acquiredImages, s.ledger.serial)
    ensures forall id :: ImageInv(s.(c := d, owned := s.owned - ids), id)
  {
    var t := s.(c := d, owned := s.owned - ids);
    DestroyedKeepsLists(s.c, ids, d);
    WithoutKeepsOrder(s.c.acquiredImages, s.c.heap.Keys - d.heap.Keys, s.ledger.serial);
    forall id
      ensures ImageInv(t, id)
    {
      assert ImageInv(s, id) && DestroyedAt(s.c, ids, d, id);
    }
  }

  lemma RemoveKeepsInv(s: State, id: ImageId)
    requires Inv(s) && Enabled(s, RemoveImage(id))
    ensures Inv(Remove(s, id))
  {
    if id in s.c.heap {
      DestroyOne(s.c, id);
      DestroyKeepsImages(s, {id}, DestroyStreamImage(s.c, id));
    }
  }

  lemma CallbackKeepsInv(s: State, id: ImageId)
    requires Inv(s) && s.inFlight == Some(id) && id in s.c.heap
    ensures Inv(Callback(s, id))
  {
    assert ImageInv(s, id);
    if s.c.heap[id].destructionPending {
      FreeingCallback(s, id);
    } else {
      var t := Callback(s, id);
      forall x
        ensures ImageInv(t, x)
      {
        assert ImageInv(s, x);
      }
    }
  }

  /** The record the callback was deferred for is freed. */
  lemma FreeingCallback(s: State, id: ImageId)
    requires Inv(s) && s.inFlight == Some(id) && id in s.c.heap && s.c.heap[id].destructionPending
    ensures Inv(Callback(s, id))
  {
    var c := s.c.(heap := s.c.heap[id := s.c.heap[id].(attached := false)]);
    var t := Callback(s, id);
    FreeOne(c, id);
    DestroyedKeepsLists(c, {id}, t.c);
    WithoutKeepsOrder(s.c.acquiredImages, c.heap.Keys - t.c.heap.Keys, s.ledger.serial);
    forall x
      ensures ImageInv(t, x)
    {
      assert ImageInv(s, x) && DestroyedAt(c, {id}, t.c, x);
    }
  }

  lemma EndKeepsInv(s: State, purpose: Purpose)
    requires Inv(s) && Enabled(s, EndContext(purpose))
    ensures Inv(End(s, purpose))
  {
    var t := End(s, purpose);
    forall x
      ensures ImageInv(t, x)
    {
      assert ImageInv(s, x);
    }
  }

  lemma SweepKeepsImages(s: State)
    requires Inv(s) && s.phase.Dying?
    ensures var c := SweepImages(s.c);
            && Destroyed(s.c, Members(s.c.streamImages), c) && ListInv(c)
            && Ascending(c.acquiredImages, s.ledger.serial)
            && forall x :: ImageInv(s.(phase := Swept(s.phase.purpose), c := c), x)
  {
    var t := s.(phase := Swept(s.phase.purpose), c := SweepImages(s.c));
    var ids := Members(s.c.streamImages);
    DestroyEachDestroys(s.c, s.c.streamImages);
    DestroyKeepsImages(s, ids, t.c);
    forall x
      ensures ImageInv(t, x)
    {
      assert ImageInv(s.(c := t.c, owned := s.owned - ids), x) && ImageInv(s, x) && DestroyedAt(s.c, ids, t.c, x);
    }
  }

  lemma SweepKeepsInv(s: State)
    requires Inv(s) && s.phase.Dying?
    ensures Inv(s.(phase := Swept(s.phase.purpose), c := SweepImages(s.c)))
  {
    var t := s.(phase := Swept(s.phase.purpose), c := SweepImages(s.c));
    FirstIsIn(t.c.acquiredImages);
    SweepKeepsImages(s);
    forall x
      ensures x !in t.c.acquiredImages
    {
      assert ImageInv(t, x);
    }
    forall x
      ensures x in s.c.heap && s.c.heap[x].attached <==> x in t.c.heap && t.c.heap[x].attached
    {
      assert DestroyedAt(s.c, Members(s.c.streamImages), t.c, x);
    }
  }

  lemma FreeRestKeepsInv(s: State)
    requires Inv(s) && s.phase.Joined?
    ensures Inv(s.(phase := Done, c := SweepImages(s.c)))
    ensures SweepImages(s.c).heap == map[]
  {
    var t := s.(phase := Done, c := SweepImages(s.c));
    DestroyEachDestroys(s.c, s.c.streamImages);
    var ids := Members(s.c.streamImages);
    assert forall x :: x in ids <==> x in s.c.heap;
    DestroyKeepsImages(s, ids, t.c);
    forall x
      ensures ImageInv(t, x) && x !in t.c.heap
    {
      assert ImageInv(s.(c := t.c, owned := s.owned - ids), x) && ImageInv(s, x) && DestroyedAt(s.c, ids, t.c, x);
    }
  }

  lemma StripKeepsInv(s: State)
    requires Inv(s) && s.phase == Swept(ToDestroy) && s.threadOn
    ensures StripAsserts(s.c)
    ensures Inv(s.(phase := Stripped, c := StripBuffers(s.c)))
  {
    var t := s.(phase := Stripped, c := StripBuffers(s.c));
    forall x
      ensures ImageInv(t, x) && (x in s.c.heap && s.c.heap[x].buffer ==> s.c.heap[x].attached)
    {
      assert ImageInv(s, x);
    }
  }

  lemma PhaseStepKeepsInv(s: State, step: Step)
    requires Inv(s) && Enabled(s, step)
    requires step.Dispatch? || step.Create? || step.CreateFails? || step.JoinThread? || step.SkipTeardown?
    ensures Inv(Apply(s, step))
  {
    var t := Apply(s, step);
    forall x
      ensures ImageInv(t, x)
    {
      assert ImageInv(s, x);
    }
    if s.c.heap != map[] {
      var x :| x in s.c.heap;
      assert ImageInv(s, x);
    }
  }

  lemma StepKeepsInv(s: State, step: Step)
    requires Inv(s) && Enabled(s, step)
    ensures Inv(Apply(s, step))
  {
    StepTouchesLiveImages(s, step);
    match step
    case AddImage(id) => AddKeepsInv(s, id);
    case AcquireImage(id, ok) => AcquireKeepsInv(s, id, ok);
    case RemoveImage(id) => RemoveKeepsInv(s, id);
    case Commit => CommitKeepsInv(s);
    case RunCallback => CallbackKeepsInv(s, s.inFlight.value);
    case EndContext(purpose) => EndKeepsInv(s, purpose);
    case Sweep => SweepKeepsInv(s);
    case Strip => StripKeepsInv(s);
    case FreeRest => FreeRestKeepsInv(s);
    case _ => PhaseStepKeepsInv(s, step);
  }

  // ------------------------------------------------------------------ runs

  ghost predicate CanRun(s: State, steps: seq<Step>)
    requires Inv(s)
    decreases |steps|
  {
    steps == [] ||
    (Enabled(s, steps[0]) && (StepKeepsInv(s, steps[0]); CanRun(Apply(s, steps[0]), steps[1..])))
  }

  ghost function Run(s: State, steps: seq<Step>): (t: State)
    requires Inv(s) && CanRun(s, steps)
    ensures Inv(t)
    decreases |steps|
  {
    if steps == [] then s else StepKeepsInv(s, steps[0]); Run(Apply(s, steps[0]), steps[1..])
  }

  /** In every reachable state of a live context each image is in exactly one pair of hands: the
      stream's, the list of acquired images, or the compositor's; images being destroyed are the
      compositor's. */
  lemma OneOwner(s: State, id: ImageId)
    requires Inv(s) && s.phase.Live? && id in s.c.streamImages
    ensures id in s.c.heap
    ensures s.c.heap[id].destructionPending ==>
              s.c.heap[id].attached && id !in s.owned && id !in s.c.acquiredImages
    ensures !s.c.heap[id].destructionPending ==>
              && (id in s.owned || id in s.c.acquiredImages || s.c.heap[id].attached)
              && !(id in s.owned && id in s.c.acquiredImages)
              && !(id in s.owned && s.c.heap[id].attached)
              && !(id in s.c.acquiredImages && s.c.heap[id].attached)
  {
    assert ImageInv(s, id);
  }

  /** Images are attached in the order they were acquired: the one popped is older than every other
      acquired image and newer than everything attached before. */
  lemma AttachedInAcquireOrder(s: State)
    requires Inv(s) && Enabled(s, Commit)
    ensures s.c.acquiredImages[0] in s.ledger.serial
    ensures s.ledger.lastAttached < s.ledger.serial[s.c.acquiredImages[0]] == Apply(s, Commit).ledger.lastAttached
    ensures forall i :: 0 < i < |s.c.acquiredImages| ==>
              s.ledger.serial[s.c.acquiredImages[0]] < s.ledger.serial[s.c.acquiredImages[i]]
  {
    assert ImageInv(s, s.c.acquiredImages[0]);
  }

  /** Every image but one is left alone: its record, its owner and its place in the list. */
  ghost predicate OthersKept(s: State, id: ImageId, t: State) {
    forall x :: x != id ==>
      && (x in s.c.heap <==> x in t.c.heap) && (x in s.c.heap ==> t.c.heap[x] == s.c.heap[x])
      && (x in s.owned <==> x in t.owned) && (x in s.c.acquiredImages <==> x in t.c.acquiredImages)
  }

  /** A commit attaches the buffer of the image acquired first among those still waiting, and hands that image,
      and no other, to the compositor. */
  lemma CommitAttachesOldest(s: State)
    requires Inv(s) && Enabled(s, Commit)
    ensures var t := Apply(s, Commit);
      && t.c.currentBuffer.Some?
      && var id := t.c.currentBuffer.value;
      && id in s.c.acquiredImages && id !in t.c.acquiredImages && OthersKept(s, id, t)
      && (forall x :: x in s.c.acquiredImages ==> Count(s.ledger.serial, id) <= Count(s.ledger.serial, x))
      && id in t.c.heap && t.c.heap[id].buffer && t.c.heap[id].attached && t.committed == s.committed + {id}
  {
    var id, t := s.c.acquiredImages[0], Apply(s, Commit);
    assert s.c.acquiredImages == [id] + t.c.acquiredImages;
    assert ImageInv(s, id);
    AttachedInAcquireOrder(s);
    forall x | x in s.c.acquiredImages
      ensures Count(s.ledger.serial, id) <= Count(s.ledger.serial, x)
    {
      assert ImageInv(s, x);
    }
  }

  /** An acquired image waits behind all others; one whose buffer cannot be exported goes straight back, and in
      both cases the acquire has been made. */
  lemma AcquireOutcome(s: State, id: ImageId, ok: bool)
    requires Inv(s) && Enabled(s, AcquireImage(id, ok))
    ensures id in s.ledger.taken && id in s.ledger.given
    ensures var t := Apply(s, AcquireImage(id, ok));
      && OthersKept(s, id, t) && id in t.ledger.taken && t.ledger.taken[id] == s.ledger.taken[id] + 1
      && (if ok then id !in t.owned && t.c.acquiredImages == s.c.acquiredImages + [id]
          else id in t.owned && t.c == s.c && id in t.ledger.given && t.ledger.given[id] == s.ledger.given[id] + 1)
  {
    assert ImageInv(s, id);
  }

  /** A removed image leaves the stream and the surface at once: it is freed unless the compositor still has it,
      and then it is marked, so that its release frees it. */
  lemma RemovalRemoves(s: State, id: ImageId)
    requires Inv(s) && Enabled(s, RemoveImage(id)) && id in s.c.heap
    ensures var t := Apply(s, RemoveImage(id));
      && id !in t.owned && id !in t.c.acquiredImages && t.c.currentBuffer != Some(id) && OthersKept(s, id, t)
      && (id in t.c.heap <==> s.c.heap[id].attached)
      && (if s.c.heap[id].attached then t.c.heap[id].attached && t.c.heap[id].destructionPending
          else t.c.freed[id] == 1)
  {
    var t := Apply(s, RemoveImage(id));
    StepKeepsInv(s, RemoveImage(id));
    assert ImageInv(s, id) && ImageInv(t, id);
    DestroyOne(s.c, id);
    forall x | x != id
      ensures (x in s.c.heap <==> x in t.c.heap) && (x in s.c.heap ==> t.c.heap[x] == s.c.heap[x])
      ensures x in s.c.acquiredImages <==> x in t.c.acquiredImages
    {
      assert DestroyedAt(s.c, {id}, t.c, x);
    }
  }

  /** A release ends the compositor's hold: an image waiting for destruction is freed, any other goes back to the
      stream, once, and while the context lives the stream may offer it again. */
  lemma ReleaseGivesBack(s: State, id: ImageId)
    requires Inv(s) && s.inFlight == Some(id)
    ensures id in s.c.heap && id in s.ledger.given
    ensures var t := Apply(s, RunCallback);
      && OthersKept(s, id, t) && id in t.ledger.given && t.inFlight.None?
      && (if s.c.heap[id].destructionPending then id !in t.c.heap && t.c.freed[id] == 1
          else id in t.c.heap && !t.c.heap[id].attached && t.ledger.given[id] == s.ledger.given[id] + 1 &&
               (s.phase.Live? ==> id in t.owned))
  {
    var t := Apply(s, RunCallback);
    assert ImageInv(s, id);
    StepKeepsInv(s, RunCallback);
    assert ImageInv(t, id);
  }

  /** Every acquire is matched by one release or by destroying the image, or is still outstanding;
      an image is freed at most once, its buffer is destroyed at most once and, when it is freed,
      has been. */
  lemma AcquiresMatched(s: State, id: ImageId)
    requires Inv(s) && id in s.ledger.taken
    ensures id in s.ledger.given && s.ledger.given[id] <= s.ledger.taken[id] <= s.ledger.given[id] + 1
    ensures s.ledger.taken[id] == s.ledger.given[id] + 1 <==>
              if id in s.c.heap then Held(s.c, id) else id in s.c.destroyedHeld
    ensures s.c.freed[id] == if id in s.c.heap then 0 else 1
    ensures s.c.buffersGone[id] <= 1 && (id in s.ledger.buffersMade && id !in s.c.heap ==> s.c.buffersGone[id] == 1)
  {
    assert ImageInv(s, id);
  }

  /** Reinitialising acquiredImages for a new context drops nothing. */
  lemma ReallocDropsNothing(s: State)
    requires Inv(s) && (Enabled(s, Create) || Enabled(s, CreateFails))
    ensures s.c.acquiredImages == []
  {
  }

  /** The assertions of the teardown loops hold whenever they are reached. */
  lemma TeardownAsserts(s: State)
    requires Inv(s)
    ensures Enabled(s, Strip) ==> StripAsserts(s.c)
    ensures s.phase.Joined? ==> forall id :: id in s.c.heap ==> !s.c.heap[id].attached && !s.c.heap[id].buffer
  {
    if Enabled(s, Strip) { StripKeepsInv(s); }
    if s.phase.Joined? {
      forall id | id in s.c.heap
        ensures !s.c.heap[id].attached && !s.c.heap[id].buffer
      {
        assert ImageInv(s, id);
      }
    }
  }

  predicate Destroying(phase: Phase) {
    phase == Dying(ToDestroy) || phase == Swept(ToDestroy) || phase.Stripped? || phase.Joined? || phase.Done?
  }

  lemma {:induction false} VerdictStands(s: State, steps: seq<Step>)
    requires Inv(s) && Destroying(s.phase) && CanRun(s, steps)
    ensures Destroying(Run(s, steps).phase) && Run(s, steps).stranded == s.stranded
    decreases |steps|
  {
    if steps != [] {
      StepKeepsInv(s, steps[0]);
      VerdictStands(Apply(s, steps[0]), steps[1..]);
    }
  }

  /** The final assertion of wlEglDestroySurface, that streamImages is empty, holds in every
      interleaving with release callbacks if and only if the release thread is running or no image
      is attached when the call begins. */
  lemma DestroyEmptiesIff(s: State, rest: seq<Step>)
    requires Inv(s) && CanRun(s, [EndContext(ToDestroy)] + rest)
    ensures var t := Run(s, [EndContext(ToDestroy)] + rest);
            t.phase.Done? ==>
              (t.c.streamImages == [] <==> s.threadOn || !(exists id :: id in s.c.heap && s.c.heap[id].attached))
  {
    assert ([EndContext(ToDestroy)] + rest)[1..] == rest;
    EndKeepsInv(s, ToDestroy);
    VerdictStands(End(s, ToDestroy), rest);
    var t := Run(End(s, ToDestroy), rest);
    FirstIsIn(t.c.streamImages);
    if t.phase.Done? && t.c.heap != map[] {
      var id :| id in t.c.heap;
      assert id in t.c.streamImages;
    }
  }

  /** No create_surface_context fails during the run. */
  predicate Healthy(steps: seq<Step>) {
    forall i :: 0 <= i < |steps| ==> !steps[i].CreateFails?
  }

  lemma {:induction false} HealthyKeepsThread(s: State, steps: seq<Step>)
    requires Inv(s) && CanRun(s, steps) && Healthy(steps)
    requires !s.phase.Headless? && !s.stranded && (s.threadOn || s.phase.Joined? || s.phase.Done?)
    ensures var t := Run(s, steps); !t.stranded
    decreases |steps|
  {
    if steps != [] {
      StepKeepsInv(s, steps[0]);
      HealthyKeepsThread(Apply(s, steps[0]), steps[1..]);
    }
  }

  /** When every context is created successfully, destroying the surface frees every image that was
      ever added, exactly once, and leaves the list empty. */
  lemma HealthyTeardown(steps: seq<Step>)
    requires CanRun(INIT, steps) && Healthy(steps)
    ensures var t := Run(INIT, steps);
            t.phase.Done? ==>
              && t.c.streamImages == []
              && (forall id :: t.c.freed[id] == if id in t.ledger.taken then 1 else 0)
              && (forall id :: t.c.buffersGone[id] == if id in t.ledger.buffersMade then 1 else 0)
  {
    HealthyKeepsThread(INIT, steps);
    var t := Run(INIT, steps);
    FirstIsIn(t.c.streamImages);
    if t.phase.Done? {
      assert t.c.heap == map[];
      forall id
        ensures t.c.freed[id] == if id in t.ledger.taken then 1 else 0
        ensures t.c.buffersGone[id] == if id in t.ledger.buffersMade then 1 else 0
      {
        assert ImageInv(t, id);
      }
    }
  }

  ghost predicate Reaches(s: State, t: State)
    requires Inv(s)
  {
    exists steps :: CanRun(s, steps) && Run(s, steps) == t
  }

  lemma ReachesItself(s: State)
    requires Inv(s)
    ensures Reaches(s, s)
  {
    assert CanRun(s, []) && Run(s, []) == s;
  }

  lemma ReachesBy(s: State, step: Step, t: State)
    requires Inv(s) && Enabled(s, step) && Inv(Apply(s, step)) && Reaches(Apply(s, step), t)
    ensures Reaches(s, t)
  {
    var rest :| CanRun(Apply(s, step), rest) && Run(Apply(s, step), rest) == t;
    var steps := [step] + rest;
    assert steps[1..] == rest;
    assert CanRun(s, steps) && Run(s, steps) == t;
  }

  /** From the sweep of a context to the next one, an attached image stays attached. */
  lemma SweepLeavesAttached(s: State, id: ImageId)
    requires Inv(s) && s.phase.Dying? && id in s.c.heap && s.c.heap[id].attached
    ensures Inv(Apply(s, Sweep)) && id in Apply(s, Sweep).c.heap && Apply(s, Sweep).c.heap[id].attached
  {
    SweepKeepsInv(s);
    SweepKeepsImages(s);
    assert DestroyedAt(s.c, Members(s.c.streamImages), SweepImages(s.c), id);
  }

  lemma DestroyFromHeadless(s: State, id: ImageId)
    requires Inv(s) && s.phase.Headless? && id in s.c.heap && s.c.heap[id].attached
    ensures exists t :: Reaches(s, t) && t.phase.Done? && id in t.c.streamImages
  {
    var dying := End(s, ToDestroy);
    EndKeepsInv(s, ToDestroy);
    SweepLeavesAttached(dying, id);
    var swept := Apply(dying, Sweep);
    PhaseStepKeepsInv(swept, SkipTeardown);
    var done := Apply(swept, SkipTeardown);
    ReachesItself(done);
    ReachesBy(swept, SkipTeardown, done);
    ReachesBy(dying, Sweep, done);
    ReachesBy(s, EndContext(ToDestroy), done);
  }

  /** A reallocation that fails while an image is attached strands it: destroying the surface next
      ends with the image still in the list, against the final assertion. */
  lemma FailedReallocStrands(s: State, id: ImageId)
    requires Inv(s) && s.phase.Live? && s.inFlight.None? && id in s.c.heap && s.c.heap[id].attached
    ensures exists t :: Reaches(s, t) && t.phase.Done? && id in t.c.streamImages
  {
    var dying := End(s, ToRealloc);
    EndKeepsInv(s, ToRealloc);
    SweepLeavesAttached(dying, id);
    var swept := Apply(dying, Sweep);
    PhaseStepKeepsInv(swept, CreateFails);
    var headless := Apply(swept, CreateFails);
    DestroyFromHeadless(headless, id);
    var t :| Reaches(headless, t) && t.phase.Done? && id in t.c.streamImages;
    ReachesBy(swept, CreateFails, t);
    ReachesBy(dying, Sweep, t);
    ReachesBy(s, EndContext(ToRealloc), t);
  }

  /** Such a state is reached by presenting a single frame. */
  lemma AttachedReachable()
    ensures exists s :: Reaches(INIT, s) && s.phase.Live? && s.inFlight.None? && 0 in s.c.heap && s.c.heap[0].attached
  {
    var added := Add(INIT, 0);
    AddKeepsInv(INIT, 0);
    var acquired := Acquire(added, 0, true);
    AcquireKeepsInv(added, 0, true);
    var attached := CommitFirst(acquired);
    CommitKeepsInv(acquired);
    ReachesItself(attached);
    ReachesBy(acquired, Commit, attached);
    ReachesBy(added, AcquireImage(0, true), attached);
    ReachesBy(INIT, AddImage(0), attached);
  }
}
