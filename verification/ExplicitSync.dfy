/**
 Explicit sync for a window surface: acquire points on the surface's timeline, release points on a
 timeline per image, and the release check after each swap.

 Everything here runs in the thread that owns the surface lock, so a run is a sequence of calls.
 What DRM and the stream answer is a parameter of each call.  Requests to the compositor, fence
 imports and image returns are recorded in a log; the compositor's side of linux-drm-syncobj-v1 is
 an automaton that reads this log.
 */
module ExplicitSync {
  import opened Seqs

  type ImageId = nat

  const MAX_IMAGES := 4
  const BLOCKING_PENDING := 3

  datatype Request =
    | ImportFence(point: nat)                      // drmSyncobjTransfer onto the acquire timeline
    | SetAcquirePoint(point: nat)
    | SetReleasePoint(image: ImageId, point: nat)
    | Attach(image: ImageId)
    | Commit
    | PointSignaled(image: ImageId, point: nat)    // the kernel reports that release point as signalled
    | ReturnImage(image: ImageId, point: nat)      // streamReleaseImage with the fence of that point
    | DestroyBuffer(image: ImageId)

  datatype SyncImage = SyncImage(releasePoint: nat, releasePending: bool)

  datatype Surface = Surface(
    images: map<ImageId, SyncImage>,
    streamImages: seq<ImageId>,
    acquiredImages: seq<ImageId>,
    syncPoint: nat,              // next acquire point
    owned: set<ImageId>,         // images the stream may offer
    lost: set<ImageId>,          // popped, but their points could not be sent
    seen: set<ImageId>,          // every image ever added
    misses: nat,                 // release checks of this context that returned nothing with three or more pending
    log: seq<Request>)

  const INIT := Surface(map[], [], [], 1, {}, {}, {}, 0, [])

  // ------------------------------------------------------------------ sending

  /** send_explicit_sync_points: the acquire fence is exported and imported on the surface's
      timeline; where either fails nothing has been sent. */
  function SendPoints(s: Surface, id: ImageId, exported: bool, imported: bool): Surface
    requires id in s.images
  {
    if !exported || !imported then s
    else
      var point := s.images[id].releasePoint + 1;
      s.(syncPoint := s.syncPoint + 1,
         images := s.images[id := SyncImage(point, true)],
         log := s.log + [ImportFence(s.syncPoint)] + [SetAcquirePoint(s.syncPoint)] + [SetReleasePoint(id, point)])
  }

  /** wlEglSendDamageEvent; `handled` tells whether wlEglHandleImageStreamEvents succeeded. */
  function SendDamage(s: Surface, handled: bool, exported: bool, imported: bool): Surface
    requires forall id :: id in s.acquiredImages ==> id in s.images
  {
    if !handled || s.acquiredImages == [] then s
    else
      var id := s.acquiredImages[0];
      var t := SendPoints(s.(acquiredImages := s.acquiredImages[1..]), id, exported, imported);
      if !exported || !imported then t.(lost := t.lost + {id})
      else t.(log := t.log + [Attach(id)] + [Commit])
  }

  // ------------------------------------------------------------------ the release check

  /** The images with a release point outstanding, in list order. */
  function PendingOf(images: map<ImageId, SyncImage>, list: seq<ImageId>): (r: seq<ImageId>)
    ensures forall id :: id in r <==> id in list && id in images && images[id].releasePending
  {
    if list == [] then []
    else
      var rest := PendingOf(images, list[1..]);
      if list[0] in images && images[list[0]].releasePending then [list[0]] + rest else rest
  }

  function Pending(s: Surface): seq<ImageId> {
    PendingOf(s.images, s.streamImages)
  }

  function Min(a: nat, b: nat): nat {
    if a < b then a else b
  }

  /** What drmSyncobjTimelineWait reports.  With three or more points the wait has no time limit, so Expired
      is then an error that only a build without assertions gets past. */
  datatype Wait = Expired | Signaled(first: nat)

  predicate WaitPossible(s: Surface, wait: Wait) {
    wait.Signaled? ==> wait.first < Min(|Pending(s)|, MAX_IMAGES)
  }

  /** The wait has answered: a signalled wait reports the point of the image at its index. */
  function Reported(s: Surface, wait: Wait): Surface
    requires WaitPossible(s, wait)
  {
    match wait
    case Expired => s
    case Signaled(first) =>
      var id := Pending(s)[first];
      s.(log := s.log + [PointSignaled(id, s.images[id].releasePoint)])
  }

  /** wlEglSurfaceCheckReleasePoints; `released` tells whether the release fence was exported and
      the stream took the image. */
  function CheckRelease(s: Surface, wait: Wait, released: bool): Surface
    requires WaitPossible(s, wait)
  {
    var r := Reported(s, wait);
    if wait.Signaled? && released then
      var id := Pending(s)[wait.first];
      r.(images := s.images[id := s.images[id].(releasePending := false)],
         owned := s.owned + {id},
         log := r.log + [ReturnImage(id, s.images[id].releasePoint)])
    else if |Pending(s)| >= BLOCKING_PENDING then r.(misses := s.misses + 1)
    else r
  }

  // ------------------------------------------------------------------ runs

  datatype Step =
    | AddImage(id: ImageId)
    | AcquireImage(id: ImageId)
    | RemoveImage(id: ImageId)
    | SwapFrame(handled: bool, exported: bool, imported: bool, wait: Wait, released: bool)
    | Realloc

  predicate Enabled(s: Surface, step: Step) {
    match step
    case AddImage(id) => id !in s.seen
    case AcquireImage(id) => id in s.owned
    case RemoveImage(_) => true
    case SwapFrame(handled, exported, imported, wait, _) =>
      && (forall id :: id in s.acquiredImages ==> id in s.images)
      && WaitPossible(SendDamage(s, handled, exported, imported), wait)
    case Realloc => true
  }

  /** destroy_stream_image: under explicit sync it never defers. */
  function Destroy(s: Surface, id: ImageId): Surface {
    s.(images := s.images - {id},
       streamImages := Without(s.streamImages, {id}),
       acquiredImages := Without(s.acquiredImages, {id}),
       owned := s.owned - {id}, lost := s.lost - {id},
       log := s.log + [DestroyBuffer(id)])
  }

  function DestroyEach(s: Surface, ids: seq<ImageId>): Surface
    decreases |ids|
  {
    if ids == [] then s else DestroyEach(Destroy(s, ids[0]), ids[1..])
  }

  function Apply(s: Surface, step: Step): Surface
    requires Enabled(s, step)
  {
    match step
    case AddImage(id) =>
      s.(images := s.images[id := SyncImage(0, false)], streamImages := [id] + s.streamImages,
         owned := s.owned + {id}, seen := s.seen + {id})
    case AcquireImage(id) => s.(owned := s.owned - {id}, acquiredImages := s.acquiredImages + [id])
    case RemoveImage(id) => if id in s.images then Destroy(s, id) else s
    case SwapFrame(handled, exported, imported, wait, released) =>
      CheckRelease(SendDamage(s, handled, exported, imported), wait, released)
    case Realloc => DestroyEach(s, s.streamImages).(acquiredImages := [], misses := 0)
  }

  ghost predicate CanRun(s: Surface, steps: seq<Step>)
    decreases |steps|
  {
    steps == [] || (Enabled(s, steps[0]) && CanRun(Apply(s, steps[0]), steps[1..]))
  }

  ghost function Run(s: Surface, steps: seq<Step>): Surface
    requires CanRun(s, steps)
    decreases |steps|
  {
    if steps == [] then s else Run(Apply(s, steps[0]), steps[1..])
  }

  // ------------------------------------------------------------------ the compositor's side

  /** What the compositor and the kernel remember of the requests so far. */
  datatype Compositor = Compositor(
    imported: set<nat>,              // acquire points that have a fence
    lastAcquire: nat,
    released: map<ImageId, nat>,     // last release point per buffer
    busy: set<ImageId>,              // committed and not returned to the stream
    signaled: set<(ImageId, nat)>,   // release points reported as signalled
    acquire: Option<nat>,            // staged for the next commit
    release: Option<ImageId>,
    buffer: Option<ImageId>)

  const FRESH := Compositor({}, 0, map[], {}, {}, None, None, None)

  function LastRelease(c: Compositor, id: ImageId): nat {
    if id in c.released then c.released[id] else 0
  }

  /** The rules: acquire points have a fence before they are sent and increase; release points of a
      buffer increase; a commit carries a buffer with both points, of that buffer, or none of the
      three; a buffer is not committed again before it was returned, and is returned once per
      commit, at the point of that commit, and only when that point was reported as signalled. */
  function Obey(c: Compositor, r: Request): Option<Compositor> {
    match r
    case ImportFence(p) => if p in c.imported then None else Some(c.(imported := c.imported + {p}))
    case SetAcquirePoint(p) =>
      if p in c.imported && c.lastAcquire < p && c.acquire.None?
      then Some(c.(acquire := Some(p), lastAcquire := p)) else None
    case SetReleasePoint(id, p) =>
      if LastRelease(c, id) < p && c.release.None?
      then Some(c.(release := Some(id), released := c.released[id := p])) else None
    case Attach(id) =>
      if id !in c.busy && c.buffer.None? then Some(c.(buffer := Some(id))) else None
    case Commit =>
      if c.acquire.Some? && c.release.Some? && c.buffer == c.release
      then Some(c.(acquire := None, release := None, buffer := None, busy := c.busy + {c.buffer.value}))
      else if c.acquire.None? && c.release.None? && c.buffer.None? then Some(c)
      else None
    case PointSignaled(id, p) => Some(c.(signaled := c.signaled + {(id, p)}))
    case ReturnImage(id, p) =>
      if id in c.busy && p == LastRelease(c, id) && (id, p) in c.signaled then Some(c.(busy := c.busy - {id})) else None
    case DestroyBuffer(id) =>
      Some(c.(busy := c.busy - {id}, released := c.released - {id}))
  }

  function ObeyAll(log: seq<Request>): Option<Compositor> {
    if log == [] then Some(FRESH)
    else
      match ObeyAll(log[..|log| - 1])
      case None => None
      case Some(c) => Obey(c, log[|log| - 1])
  }

  lemma ObeyMore(log: seq<Request>, r: Request)
    ensures ObeyAll(log + [r]) == match ObeyAll(log) case None => None case Some(c) => Obey(c, r)
  {
    assert (log + [r])[..|log|] == log;
  }

  // ------------------------------------------------------------------ projections of the log

  /** 1, 2, ..., n. */
  function UpTo(n: nat): seq<nat> {
    seq(n, i => i + 1)
  }

  function AcquirePoints(log: seq<Request>): seq<nat> {
    if log == [] then []
    else
      var before := AcquirePoints(log[..|log| - 1]);
      var r := log[|log| - 1];
      if r.SetAcquirePoint? then before + [r.point] else before
  }

  function ReleasePoints(log: seq<Request>, id: ImageId): seq<nat> {
    if log == [] then []
    else
      var before := ReleasePoints(log[..|log| - 1], id);
      var r := log[|log| - 1];
      if r.SetReleasePoint? && r.image == id then before + [r.point] else before
  }

  function Returns(log: seq<Request>, id: ImageId): seq<nat> {
    if log == [] then []
    else
      var before := Returns(log[..|log| - 1], id);
      var r := log[|log| - 1];
      if r.ReturnImage? && r.image == id then before + [r.point] else before
  }

  lemma ProjectMore(log: seq<Request>, r: Request, id: ImageId)
    ensures AcquirePoints(log + [r]) == AcquirePoints(log) + (if r.SetAcquirePoint? then [r.point] else [])
    ensures ReleasePoints(log + [r], id) ==
              ReleasePoints(log, id) + (if r.SetReleasePoint? && r.image == id then [r.point] else [])
    ensures Returns(log + [r], id) ==
              Returns(log, id) + (if r.ReturnImage? && r.image == id then [r.point] else [])
  {
    assert (log + [r])[..|log|] == log;
  }

  // ------------------------------------------------------------------ the invariant

  /** What the compositor remembers of one image between calls. */
  predicate MatchesAt(c: Compositor, s: Surface, id: ImageId) {
    && (id in s.images ==> LastRelease(c, id) == s.images[id].releasePoint)
    && (id !in s.seen ==> id !in c.released)
    && (id in c.busy <==> id in s.images && s.images[id].releasePending)
  }

  /** What it remembers between calls, read off the surface. */
  ghost predicate Matches(c: Compositor, s: Surface) {
    && (forall p :: p in c.imported <==> 1 <= p < s.syncPoint)
    && c.lastAcquire == s.syncPoint - 1
    && (forall id :: MatchesAt(c, s, id))
    && c.acquire.None? && c.release.None? && c.buffer.None?
  }

  /** One image: one owner, release points 1, 2, ... and a return for all but a pending one. */
  predicate ImageInv(s: Surface, id: ImageId) {
    && (id in s.streamImages <==> id in s.images)
    && (if id in s.images then
          var pending := s.images[id].releasePending;
          && id in s.seen
          && (id in s.owned || id in s.acquiredImages || id in s.lost || pending)
          && !(id in s.owned && id in s.acquiredImages) && !(id in s.owned && id in s.lost)
          && !(id in s.acquiredImages && id in s.lost)
          && (pending ==> id !in s.owned && id !in s.acquiredImages && id !in s.lost)
          && (pending ==> s.images[id].releasePoint > 0)
          && ReleasePoints(s.log, id) == UpTo(s.images[id].releasePoint)
          && Returns(s.log, id) == UpTo(s.images[id].releasePoint - if pending then 1 else 0)
        else
          && id !in s.owned && id !in s.acquiredImages && id !in s.lost
          && Returns(s.log, id) <= ReleasePoints(s.log, id))
    && (id !in s.seen ==> ReleasePoints(s.log, id) == [] && Returns(s.log, id) == [])
  }

  ghost predicate Inv(s: Surface) {
    && Distinct(s.streamImages) && Distinct(s.acquiredImages)
    && s.syncPoint >= 1 && AcquirePoints(s.log) == UpTo(s.syncPoint - 1)
    && ObeyAll(s.log).Some? && Matches(ObeyAll(s.log).value, s)
    && (forall id :: ImageInv(s, id))
    && |Pending(s)| <= 2 + s.misses
  }

  // ------------------------------------------------------------------ preservation

  /** The five requests of one frame. */
  function Frame(log: seq<Request>, p: nat, id: ImageId, q: nat): seq<Request> {
    log + [ImportFence(p)] + [SetAcquirePoint(p)] + [SetReleasePoint(id, q)] + [Attach(id)] + [Commit]
  }

  /** What the compositor remembers after a frame. */
  function AfterFrame(c: Compositor, p: nat, id: ImageId, q: nat): Compositor {
    c.(imported := c.imported + {p}, lastAcquire := p, released := c.released[id := q], busy := c.busy + {id})
  }

  lemma FrameObeys(log: seq<Request>, p: nat, id: ImageId, q: nat)
    requires ObeyAll(log).Some?
    requires var c := ObeyAll(log).value;
             && p !in c.imported && c.lastAcquire < p && LastRelease(c, id) < q && id !in c.busy
             && c.acquire.None? && c.release.None? && c.buffer.None?
    ensures ObeyAll(Frame(log, p, id, q)) == Some(AfterFrame(ObeyAll(log).value, p, id, q))
  {
    var l1 := log + [ImportFence(p)];
    var l2 := l1 + [SetAcquirePoint(p)];
    var l3 := l2 + [SetReleasePoint(id, q)];
    ObeyMore(log, ImportFence(p));
    ObeyMore(l1, SetAcquirePoint(p));
    ObeyMore(l2, SetReleasePoint(id, q));
    ObeyMore(l3, Attach(id));
    ObeyMore(l3 + [Attach(id)], Commit);
  }

  lemma FrameProjects(log: seq<Request>, p: nat, id: ImageId, q: nat, x: ImageId)
    ensures AcquirePoints(Frame(log, p, id, q)) == AcquirePoints(log) + [p]
    ensures ReleasePoints(Frame(log, p, id, q), x) == ReleasePoints(log, x) + (if x == id then [q] else [])
    ensures Returns(Frame(log, p, id, q), x) == Returns(log, x)
  {
    var l1 := log + [ImportFence(p)];
    var l2 := l1 + [SetAcquirePoint(p)];
    var l3 := l2 + [SetReleasePoint(id, q)];
    ProjectMore(log, ImportFence(p), x);
    ProjectMore(l1, SetAcquirePoint(p), x);
    ProjectMore(l2, SetReleasePoint(id, q), x);
    ProjectMore(l3, Attach(id), x);
    ProjectMore(l3 + [Attach(id)], Commit, x);
  }

  /** Marking an image pending lengthens the list of pending images by one. */
  lemma {:induction false} PendingGrows(images: map<ImageId, SyncImage>, list: seq<ImageId>, id: ImageId,
                                            image: SyncImage)
    requires Distinct(list) && id in list && id in images && !images[id].releasePending && image.releasePending
    ensures |PendingOf(images[id := image], list)| == |PendingOf(images, list)| + 1
  {
    if list[0] == id {
      PendingSame(images, list[1..], id, image);
    } else {
      PendingGrows(images, list[1..], id, image);
    }
  }

  lemma {:induction false} PendingSame(images: map<ImageId, SyncImage>, list: seq<ImageId>, id: ImageId,
                                           image: SyncImage)
    requires id !in list
    ensures PendingOf(images[id := image], list) == PendingOf(images, list)
  {
    if list != [] {
      PendingSame(images, list[1..], id, image);
    }
  }

  /** Destroying an image makes nothing pending. */
  lemma {:induction false} PendingShrinks(images: map<ImageId, SyncImage>, list: seq<ImageId>, id: ImageId)
    ensures |PendingOf(images - {id}, Without(list, {id}))| <= |PendingOf(images, list)|
  {
    if list != [] {
      PendingShrinks(images, list[1..], id);
      if list[0] != id {
        assert Without(list, {id})[1..] == Without(list[1..], {id});
      }
    }
  }

  lemma UpToMore(n: nat)
    ensures UpTo(n + 1) == UpTo(n) + [n + 1]
  {
  }

  lemma AddKeepsInv(s: Surface, id: ImageId)
    requires Inv(s) && Enabled(s, AddImage(id))
    ensures Inv(Apply(s, AddImage(id)))
  {
    var t := Apply(s, AddImage(id));
    var c := ObeyAll(s.log).value;
    assert ImageInv(s, id) && MatchesAt(c, s, id);
    forall x
      ensures ImageInv(t, x) && MatchesAt(c, t, x)
    {
      assert ImageInv(s, x) && MatchesAt(c, s, x);
      assert x in t.streamImages <==> x == id || x in s.streamImages;
    }
    PendingSame(s.images, s.streamImages, id, SyncImage(0, false));
    assert t.streamImages[1..] == s.streamImages;
  }

  lemma AcquireKeepsInv(s: Surface, id: ImageId)
    requires Inv(s) && Enabled(s, AcquireImage(id))
    ensures Inv(Apply(s, AcquireImage(id)))
  {
    var t := Apply(s, AcquireImage(id));
    var c := ObeyAll(s.log).value;
    assert ImageInv(s, id);
    forall x
      ensures ImageInv(t, x) && MatchesAt(c, t, x)
    {
      assert ImageInv(s, x) && MatchesAt(c, s, x);
      assert x in t.acquiredImages <==> x == id || x in s.acquiredImages;
    }
  }

  lemma DestroyObeys(s: Surface, id: ImageId)
    requires Inv(s) && id in s.images
    ensures var t := Destroy(s, id); ObeyAll(t.log).Some? && Matches(ObeyAll(t.log).value, t)
  {
    var c := ObeyAll(s.log).value;
    var t := Destroy(s, id);
    ObeyMore(s.log, DestroyBuffer(id));
    assert ImageInv(s, id);
    forall x
      ensures MatchesAt(ObeyAll(t.log).value, t, x)
    {
      assert MatchesAt(c, s, x);
    }
  }

  lemma DestroyKeepsInv(s: Surface, id: ImageId)
    requires Inv(s) && id in s.images
    ensures Inv(Destroy(s, id))
  {
    DestroyObeys(s, id);
    PendingShrinks(s.images, s.streamImages, id);
    ProjectMore(s.log, DestroyBuffer(id), id);
    forall x
      ensures ImageInv(Destroy(s, id), x)
    {
      assert ImageInv(s, x);
      ProjectMore(s.log, DestroyBuffer(id), x);
    }
  }

  lemma {:induction false} DestroyEachKeepsInv(s: Surface, ids: seq<ImageId>)
    requires Inv(s) && Distinct(ids) && forall id :: id in ids ==> id in s.images
    ensures var t := DestroyEach(s, ids);
            && Inv(t) && t.seen == s.seen && t.misses == s.misses
            && (forall id :: id in t.images <==> id in s.images && id !in ids)
    decreases |ids|
  {
    if ids != [] {
      DestroyKeepsInv(s, ids[0]);
      DestroyEachKeepsInv(Destroy(s, ids[0]), ids[1..]);
    }
  }

  lemma {:induction false} NoImagesNonePending(list: seq<ImageId>)
    ensures PendingOf(map[], list) == []
  {
    if list != [] {
      NoImagesNonePending(list[1..]);
    }
  }

  /** With every image gone, starting the next context drops nothing. */
  lemma EmptyContext(s: Surface)
    requires Inv(s) && s.images == map[]
    ensures s.acquiredImages == [] && Inv(s.(acquiredImages := [], misses := 0))
  {
    FirstIsIn(s.acquiredImages);
    NoImagesNonePending(s.streamImages);
    var t := s.(acquiredImages := [], misses := 0);
    forall id
      ensures ImageInv(t, id) && MatchesAt(ObeyAll(s.log).value, t, id) && id !in s.acquiredImages
    {
      assert ImageInv(s, id) && MatchesAt(ObeyAll(s.log).value, s, id);
    }
  }

  lemma ListedExactly(s: Surface)
    requires Inv(s)
    ensures forall x :: x in s.images <==> x in s.streamImages
  {
    forall x
      ensures x in s.images <==> x in s.streamImages
    {
      assert ImageInv(s, x);
    }
  }

  /** Destroying the whole list leaves no image. */
  lemma SweepEmpties(s: Surface)
    requires Inv(s)
    ensures Inv(DestroyEach(s, s.streamImages)) && DestroyEach(s, s.streamImages).images == map[]
  {
    ListedExactly(s);
    DestroyEachKeepsInv(s, s.streamImages);
  }

  lemma ReallocKeepsInv(s: Surface)
    requires Inv(s)
    ensures Inv(Apply(s, Realloc)) && DestroyEach(s, s.streamImages).acquiredImages == []
  {
    var swept := DestroyEach(s, s.streamImages);
    SweepEmpties(s);
    EmptyContext(swept);
    assert Apply(s, Realloc) == swept.(acquiredImages := [], misses := 0);
  }

  /** Sending keeps everything but the bound, which the release check has to restore. */
  ghost predicate SentInv(s: Surface) {
    && Distinct(s.streamImages) && Distinct(s.acquiredImages)
    && s.syncPoint >= 1 && AcquirePoints(s.log) == UpTo(s.syncPoint - 1)
    && ObeyAll(s.log).Some? && Matches(ObeyAll(s.log).value, s)
    && (forall id :: ImageInv(s, id))
    && |Pending(s)| <= 3 + s.misses
  }

  lemma LoseImage(s: Surface)
    requires Inv(s) && s.acquiredImages != []
    ensures SentInv(s.(acquiredImages := s.acquiredImages[1..], lost := s.lost + {s.acquiredImages[0]}))
  {
    var id := s.acquiredImages[0];
    var t := s.(acquiredImages := s.acquiredImages[1..], lost := s.lost + {id});
    assert s.acquiredImages == [id] + t.acquiredImages;
    assert ImageInv(s, id);
    forall x
      ensures ImageInv(t, x) && MatchesAt(ObeyAll(s.log).value, t, x)
    {
      assert ImageInv(s, x) && MatchesAt(ObeyAll(s.log).value, s, x);
    }
  }

  /** The surface after a frame was sent. */
  function Sent(s: Surface): Surface
    requires s.acquiredImages != [] && s.acquiredImages[0] in s.images
  {
    var id := s.acquiredImages[0];
    var point := s.images[id].releasePoint + 1;
    s.(acquiredImages := s.acquiredImages[1..], syncPoint := s.syncPoint + 1,
       images := s.images[id := SyncImage(point, true)],
       log := Frame(s.log, s.syncPoint, id, point))
  }

  lemma SentMatches(c: Compositor, s: Surface)
    requires s.acquiredImages != [] && s.acquiredImages[0] in s.images && s.acquiredImages[0] in s.seen
    requires Matches(c, s) && s.syncPoint >= 1
    ensures var id := s.acquiredImages[0];
            Matches(AfterFrame(c, s.syncPoint, id, s.images[id].releasePoint + 1), Sent(s))
  {
    var id := s.acquiredImages[0];
    var d := AfterFrame(c, s.syncPoint, id, s.images[id].releasePoint + 1);
    var t := Sent(s);
    forall x
      ensures MatchesAt(d, t, x)
    {
      assert MatchesAt(c, s, x);
    }
  }

  lemma SentObeys(s: Surface)
    requires Inv(s) && s.acquiredImages != [] && s.acquiredImages[0] in s.images
    ensures var t := Sent(s); ObeyAll(t.log).Some? && Matches(ObeyAll(t.log).value, t)
  {
    var id := s.acquiredImages[0];
    assert ImageInv(s, id) && MatchesAt(ObeyAll(s.log).value, s, id);
    SentMatches(ObeyAll(s.log).value, s);
    FrameObeys(s.log, s.syncPoint, id, s.images[id].releasePoint + 1);
  }

  lemma SentKeepsImage(s: Surface, x: ImageId)
    requires Inv(s) && s.acquiredImages != [] && s.acquiredImages[0] in s.images
    ensures ImageInv(Sent(s), x)
  {
    var id := s.acquiredImages[0];
    var point := s.images[id].releasePoint;
    FrameProjects(s.log, s.syncPoint, id, point + 1, x);
    UpToMore(point);
    assert s.acquiredImages == [id] + Sent(s).acquiredImages;
    assert ImageInv(s, id) && ImageInv(s, x);
  }

  lemma SentAcquirePoints(s: Surface)
    requires s.syncPoint >= 1 && AcquirePoints(s.log) == UpTo(s.syncPoint - 1)
    requires s.acquiredImages != [] && s.acquiredImages[0] in s.images
    ensures AcquirePoints(Sent(s).log) == UpTo(Sent(s).syncPoint - 1)
  {
    var id := s.acquiredImages[0];
    FrameProjects(s.log, s.syncPoint, id, s.images[id].releasePoint + 1, id);
    UpToMore(s.syncPoint - 1);
  }

  lemma SentKeeps(s: Surface)
    requires Inv(s) && s.acquiredImages != [] && s.acquiredImages[0] in s.images
    ensures SentInv(Sent(s))
  {
    var id := s.acquiredImages[0];
    assert ImageInv(s, id);
    SentObeys(s);
    SentAcquirePoints(s);
    forall x
      ensures ImageInv(Sent(s), x)
    {
      SentKeepsImage(s, x);
    }
    PendingGrows(s.images, s.streamImages, id, SyncImage(s.images[id].releasePoint + 1, true));
  }

  lemma SendKeeps(s: Surface, handled: bool, exported: bool, imported: bool)
    requires Inv(s) && forall id :: id in s.acquiredImages ==> id in s.images
    ensures SentInv(SendDamage(s, handled, exported, imported))
  {
    if handled && s.acquiredImages != [] {
      if exported && imported {
        SentKeeps(s);
        assert SendDamage(s, true, true, true) == Sent(s);
      } else {
        LoseImage(s);
      }
    }
  }

  /** The surface after the image was returned. */
  function Returned(s: Surface, id: ImageId): Surface
    requires id in s.images
  {
    s.(images := s.images[id := s.images[id].(releasePending := false)],
       owned := s.owned + {id},
       log := s.log + [ReturnImage(id, s.images[id].releasePoint)])
  }

  /** The release point an image waits for has been reported. */
  ghost predicate SignalKnown(s: Surface, id: ImageId)
    requires id in s.images
  {
    ObeyAll(s.log).Some? && (id, s.images[id].releasePoint) in ObeyAll(s.log).value.signaled
  }

  /** A report changes nothing but what is known of the point. */
  lemma ReportKeeps(s: Surface, wait: Wait)
    requires SentInv(s) && WaitPossible(s, wait)
    ensures var r := Reported(s, wait);
      && SentInv(r) && Pending(r) == Pending(s) && r.images == s.images
      && (wait.Signaled? ==>
            Pending(s)[wait.first] in Pending(s) && SignalKnown(r, Pending(s)[wait.first]))
  {
    if wait.Signaled? {
      var id := Pending(s)[wait.first];
      var r, report := Reported(s, wait), PointSignaled(id, s.images[id].releasePoint);
      ObeyMore(s.log, report);
      ProjectMore(s.log, report, id);
      forall x
        ensures ImageInv(r, x) && MatchesAt(ObeyAll(r.log).value, r, x)
      {
        assert ImageInv(s, x) && MatchesAt(ObeyAll(s.log).value, s, x);
        ProjectMore(s.log, report, x);
      }
    }
  }

  lemma ReturnedObeys(s: Surface, id: ImageId)
    requires SentInv(s) && id in s.images && s.images[id].releasePending && SignalKnown(s, id)
    ensures var t := Returned(s, id); ObeyAll(t.log).Some? && Matches(ObeyAll(t.log).value, t)
  {
    var c := ObeyAll(s.log).value;
    assert MatchesAt(c, s, id);
    ObeyMore(s.log, ReturnImage(id, s.images[id].releasePoint));
    var d := c.(busy := c.busy - {id});
    var t := Returned(s, id);
    forall x
      ensures MatchesAt(d, t, x)
    {
      assert MatchesAt(c, s, x);
    }
  }

  lemma ReturnedKeeps(s: Surface, id: ImageId)
    requires SentInv(s) && id in s.images && s.images[id].releasePending && SignalKnown(s, id)
    ensures Inv(Returned(s, id)) && |Pending(Returned(s, id))| == |Pending(s)| - 1
  {
    var t := Returned(s, id);
    ReturnedObeys(s, id);
    assert ImageInv(s, id);
    UpToMore(s.images[id].releasePoint - 1);
    ProjectMore(s.log, ReturnImage(id, s.images[id].releasePoint), id);
    forall x
      ensures ImageInv(t, x)
    {
      assert ImageInv(s, x);
      ProjectMore(s.log, ReturnImage(id, s.images[id].releasePoint), x);
    }
    PendingGrows(t.images, t.streamImages, id, s.images[id]);
    assert t.images[id := s.images[id]] == s.images;
  }

  lemma MissKeeps(r: Surface)
    requires SentInv(r)
    ensures Inv(r.(misses := r.misses + 1))
  {
    var t := r.(misses := r.misses + 1);
    forall x
      ensures ImageInv(t, x) && MatchesAt(ObeyAll(r.log).value, t, x)
    {
      assert ImageInv(r, x) && MatchesAt(ObeyAll(r.log).value, r, x);
    }
  }

  lemma ReturnKeeps(s: Surface, wait: Wait)
    requires SentInv(s) && WaitPossible(s, wait) && wait.Signaled?
    ensures Inv(CheckRelease(s, wait, true))
  {
    var r, id := Reported(s, wait), Pending(s)[wait.first];
    ReportKeeps(s, wait);
    ReturnedKeeps(r, id);
    assert CheckRelease(s, wait, true) == Returned(r, id);
  }

  lemma CheckKeeps(s: Surface, wait: Wait, released: bool)
    requires SentInv(s) && WaitPossible(s, wait)
    ensures Inv(CheckRelease(s, wait, released))
  {
    if wait.Signaled? && released {
      ReturnKeeps(s, wait);
    } else {
      var r := Reported(s, wait);
      ReportKeeps(s, wait);
      assert CheckRelease(s, wait, released) ==
        if |Pending(s)| >= BLOCKING_PENDING then r.(misses := r.misses + 1) else r;
      if |Pending(s)| >= BLOCKING_PENDING {
        MissKeeps(r);
      }
    }
  }

  lemma StepKeepsInv(s: Surface, step: Step)
    requires Inv(s) && Enabled(s, step)
    ensures Inv(Apply(s, step))
  {
    match step
    case AddImage(id) => AddKeepsInv(s, id);
    case AcquireImage(id) => AcquireKeepsInv(s, id);
    case RemoveImage(id) => if id in s.images { DestroyKeepsInv(s, id); }
    case SwapFrame(handled, exported, imported, wait, released) =>
      SendKeeps(s, handled, exported, imported);
      CheckKeeps(SendDamage(s, handled, exported, imported), wait, released);
    case Realloc => ReallocKeepsInv(s);
  }

  lemma {:induction false} RunKeepsInv(s: Surface, steps: seq<Step>)
    requires Inv(s) && CanRun(s, steps)
    ensures Inv(Run(s, steps))
    decreases |steps|
  {
    if steps != [] {
      StepKeepsInv(s, steps[0]);
      RunKeepsInv(Apply(s, steps[0]), steps[1..]);
    }
  }

  // ------------------------------------------------------------------ what holds over all runs

  /** At most two images are pending after a swap, and three when the release check runs, plus one
      for every check of this context that waited in vain; so with at most one such check, or with
      a stream of at most four images, the check never meets more than MAX_IMAGES. */
  lemma PendingBound(steps: seq<Step>, handled: bool, exported: bool, imported: bool)
    requires CanRun(INIT, steps)
    ensures var s := Run(INIT, steps);
            && |Pending(s)| <= 2 + s.misses
            && ((forall id :: id in s.acquiredImages ==> id in s.images) ==>
                  var t := SendDamage(s, handled, exported, imported);
                  && |Pending(t)| <= 3 + s.misses
                  && (s.misses <= 1 || |s.streamImages| <= MAX_IMAGES ==> |Pending(t)| <= MAX_IMAGES))
  {
    RunKeepsInv(INIT, steps);
    var s := Run(INIT, steps);
    if forall id :: id in s.acquiredImages ==> id in s.images {
      SendKeeps(s, handled, exported, imported);
      var t := SendDamage(s, handled, exported, imported);
      PendingFits(t.images, t.streamImages);
    }
  }

  lemma {:induction false} PendingFits(images: map<ImageId, SyncImage>, list: seq<ImageId>)
    ensures |PendingOf(images, list)| <= |list|
  {
    if list != [] {
      PendingFits(images, list[1..]);
    }
  }

  /** The release check meets three pending images in this step, and returns none. */
  predicate Misses(s: Surface, step: Step)
    requires Enabled(s, step)
  {
    && step.SwapFrame?
    && |Pending(SendDamage(s, step.handled, step.exported, step.imported))| >= BLOCKING_PENDING
    && !(step.wait.Signaled? && step.released)
  }

  /** Blocking waits and releases succeed: whenever three images are pending the check returns one. */
  ghost predicate Succeeds(s: Surface, steps: seq<Step>)
    requires CanRun(s, steps)
    decreases |steps|
  {
    steps == [] || (!Misses(s, steps[0]) && Succeeds(Apply(s, steps[0]), steps[1..]))
  }

  lemma {:induction false} DestroyEachMisses(s: Surface, ids: seq<ImageId>)
    ensures DestroyEach(s, ids).misses == s.misses
    decreases |ids|
  {
    if ids != [] {
      DestroyEachMisses(Destroy(s, ids[0]), ids[1..]);
    }
  }

  /** Then no check ever waits in vain, so the bounds are two and three, over any number of reallocations. */
  lemma {:induction false} SuccessKeepsBound(s: Surface, steps: seq<Step>)
    requires Inv(s) && s.misses == 0 && CanRun(s, steps) && Succeeds(s, steps)
    ensures Run(s, steps).misses == 0 && |Pending(Run(s, steps))| <= 2
    decreases |steps|
  {
    if steps != [] {
      StepKeepsInv(s, steps[0]);
      DestroyEachMisses(s, s.streamImages);
      SuccessKeepsBound(Apply(s, steps[0]), steps[1..]);
    }
  }

  /** No state of a run has more than two images pending. */
  ghost predicate StaysBounded(s: Surface, steps: seq<Step>)
    requires CanRun(s, steps)
    decreases |steps|
  {
    |Pending(s)| <= 2 && (steps == [] || StaysBounded(Apply(s, steps[0]), steps[1..]))
  }

  /** Sending lengthens the list of pending images by one at most. */
  lemma SendAddsOne(s: Surface, handled: bool, exported: bool, imported: bool)
    requires Inv(s) && forall id :: id in s.acquiredImages ==> id in s.images
    ensures |Pending(SendDamage(s, handled, exported, imported))| <= |Pending(s)| + 1
  {
    if handled && s.acquiredImages != [] && exported && imported {
      var id := s.acquiredImages[0];
      assert ImageInv(s, id);
      PendingGrows(s.images, s.streamImages, id, SyncImage(s.images[id].releasePoint + 1, true));
    }
  }

  /** A check shortens it by one exactly if it returns an image. */
  lemma CheckCounts(sent: Surface, wait: Wait, released: bool)
    requires SentInv(sent) && WaitPossible(sent, wait)
    ensures |Pending(CheckRelease(sent, wait, released))| ==
            |Pending(sent)| - if wait.Signaled? && released then 1 else 0
  {
    ReportKeeps(sent, wait);
    if wait.Signaled? && released {
      ReturnedKeeps(Reported(sent, wait), Pending(sent)[wait.first]);
    }
  }

  lemma SwapBoundedIff(s: Surface, step: Step)
    requires Inv(s) && Enabled(s, step) && step.SwapFrame? && |Pending(s)| <= 2
    ensures |Pending(Apply(s, step))| <= 2 <==> !Misses(s, step)
  {
    var sent := SendDamage(s, step.handled, step.exported, step.imported);
    SendKeeps(s, step.handled, step.exported, step.imported);
    SendAddsOne(s, step.handled, step.exported, step.imported);
    CheckCounts(sent, step.wait, step.released);
  }

  lemma OtherStepsBounded(s: Surface, step: Step)
    requires Inv(s) && Enabled(s, step) && !step.SwapFrame? && |Pending(s)| <= 2
    ensures |Pending(Apply(s, step))| <= 2
  {
    match step
    case AddImage(id) =>
      assert ImageInv(s, id);
      PendingSame(s.images, s.streamImages, id, SyncImage(0, false));
      assert Apply(s, step).streamImages[1..] == s.streamImages;
    case AcquireImage(id) =>
    case RemoveImage(id) => PendingShrinks(s.images, s.streamImages, id);
    case Realloc => ReallocKeepsInv(s);
  }

  /** With two images pending at most before a step, there are more after it exactly if its check misses. */
  lemma StepBoundedIff(s: Surface, step: Step)
    requires Inv(s) && Enabled(s, step) && |Pending(s)| <= 2
    ensures |Pending(Apply(s, step))| <= 2 <==> !Misses(s, step)
  {
    if step.SwapFrame? {
      SwapBoundedIff(s, step);
    } else {
      OtherStepsBounded(s, step);
    }
  }

  /** The bound on pending images holds throughout a run if and only if every check that met three pending
      images returned one: its wait was signalled and the stream took the image. */
  lemma {:induction false} BoundedIffSucceeds(s: Surface, steps: seq<Step>)
    requires Inv(s) && |Pending(s)| <= 2 && CanRun(s, steps)
    ensures StaysBounded(s, steps) <==> Succeeds(s, steps)
    decreases |steps|
  {
    if steps != [] {
      StepBoundedIff(s, steps[0]);
      StepKeepsInv(s, steps[0]);
      if !Misses(s, steps[0]) {
        BoundedIffSucceeds(Apply(s, steps[0]), steps[1..]);
      }
    }
  }

  /** The acquire points sent are exactly 1, 2, 3, ... */
  lemma AcquirePointsConsecutive(steps: seq<Step>)
    requires CanRun(INIT, steps)
    ensures var s := Run(INIT, steps); s.syncPoint >= 1 && AcquirePoints(s.log) == UpTo(s.syncPoint - 1)
  {
    RunKeepsInv(INIT, steps);
  }

  predicate ReportedBefore(log: seq<Request>, k: nat, id: ImageId, p: nat) {
    exists j :: 0 <= j < k <= |log| && log[j] == PointSignaled(id, p)
  }

  /** What the automaton knows of signals, it was told. */
  lemma {:induction false} KnownWasReported(log: seq<Request>, id: ImageId, p: nat)
    requires ObeyAll(log).Some? && (id, p) in ObeyAll(log).value.signaled
    ensures ReportedBefore(log, |log|, id, p)
  {
    var before, last := log[..|log| - 1], log[|log| - 1];
    if last != PointSignaled(id, p) {
      KnownWasReported(before, id, p);
      var j :| 0 <= j < |before| && before[j] == PointSignaled(id, p);
      assert log[j] == before[j];
    }
  }

  lemma {:induction false} ObeyedReturns(log: seq<Request>, k: nat, id: ImageId, p: nat)
    requires ObeyAll(log).Some? && k < |log| && log[k] == ReturnImage(id, p)
    ensures ReportedBefore(log, k, id, p)
  {
    var before := log[..|log| - 1];
    if k == |log| - 1 {
      KnownWasReported(before, id, p);
      var j :| 0 <= j < |before| && before[j] == PointSignaled(id, p);
      assert log[j] == before[j];
    } else {
      ObeyedReturns(before, k, id, p);
      var j :| 0 <= j < k && before[j] == PointSignaled(id, p);
      assert log[j] == before[j];
    }
  }

  /** Over every run an image goes back to the stream only at a release point that the kernel has reported as
      signalled: none that the compositor may still read. */
  lemma ReturnedOnlySignaled(steps: seq<Step>, k: nat, id: ImageId, p: nat)
    requires CanRun(INIT, steps) && k < |Run(INIT, steps).log| && Run(INIT, steps).log[k] == ReturnImage(id, p)
    ensures ReportedBefore(Run(INIT, steps).log, k, id, p)
  {
    RunKeepsInv(INIT, steps);
    ObeyedReturns(Run(INIT, steps).log, k, id, p);
  }

  /** What the release check does to the images: the one whose point was reported first goes back to the stream
      if the stream takes it, whatever the number pending, and no other image changes. */
  lemma CheckChanges(s: Surface, wait: Wait, released: bool, x: ImageId)
    requires WaitPossible(s, wait) && x in s.images
    ensures var t := CheckRelease(s, wait, released);
      var goes := wait.Signaled? && released && x == Pending(s)[wait.first];
      && x in t.images
      && t.images[x] == (if goes then SyncImage(s.images[x].releasePoint, false) else s.images[x])
      && (x in t.owned <==> x in s.owned || goes)
      && t.acquiredImages == s.acquiredImages && t.streamImages == s.streamImages
  {
    if wait.Signaled? {
      assert Pending(s)[wait.first] in Pending(s);
    }
  }

  /** A frame is the oldest acquired image: if nothing fails, exactly its five requests follow, and acquiring puts
      an image behind all others. */
  lemma FramesInAcquireOrder(s: Surface, id: ImageId)
    requires Inv(s) && id in s.owned
    ensures Apply(s, AcquireImage(id)).acquiredImages == s.acquiredImages + [id]
    ensures forall x :: x in s.acquiredImages ==> x in s.images
    ensures s.acquiredImages != [] ==>
      && s.acquiredImages[0] in s.images
      && SendDamage(s, true, true, true).log ==
         Frame(s.log, s.syncPoint, s.acquiredImages[0], s.images[s.acquiredImages[0]].releasePoint + 1)
      && SendDamage(s, true, true, true).acquiredImages == s.acquiredImages[1..]
  {
    forall x | x in s.acquiredImages
      ensures x in s.images
    {
      assert ImageInv(s, x);
    }
    if s.acquiredImages != [] {
      assert SendDamage(s, true, true, true) == Sent(s);
    }
  }

  /** A removed image is gone, and a reallocation leaves no image and nothing pending. */
  lemma RemovalEmpties(s: Surface, id: ImageId)
    requires Inv(s)
    ensures id !in Apply(s, RemoveImage(id)).images && id !in Apply(s, RemoveImage(id)).streamImages
    ensures var t := Apply(s, Realloc); t.images == map[] && t.streamImages == [] && Pending(t) == []
  {
    assert ImageInv(s, id);
    SweepEmpties(s);
    var t := DestroyEach(s, s.streamImages);
    FirstIsIn(t.streamImages);
    forall x
      ensures x !in t.streamImages
    {
      assert ImageInv(t, x);
    }
  }

  // ------------------------------------------------------------------ a frame whose points cannot be sent

  /** The image's life ends with this step. */
  predicate Ends(step: Step, id: ImageId) {
    step.Realloc? || step == RemoveImage(id)
  }

  lemma LostInSend(s: Surface, handled: bool, exported: bool, imported: bool, id: ImageId)
    requires Inv(s) && id in s.lost && forall x :: x in s.acquiredImages ==> x in s.images
    ensures id in s.images
    ensures var t := SendDamage(s, handled, exported, imported);
      id in t.lost && id in t.images && t.images[id] == s.images[id]
  {
    assert ImageInv(s, id);
    FirstIsIn(s.acquiredImages);
  }

  lemma LostInCheck(t: Surface, wait: Wait, released: bool, id: ImageId)
    requires WaitPossible(t, wait) && id in t.lost && id in t.images && !t.images[id].releasePending
    ensures var u := CheckRelease(t, wait, released); id in u.lost && id in u.images && u.images[id] == t.images[id]
  {
    if wait.Signaled? {
      assert Pending(t)[wait.first] in Pending(t);
    }
  }

  lemma LostInStep(s: Surface, step: Step, id: ImageId)
    requires Inv(s) && Enabled(s, step) && id in s.lost && !Ends(step, id)
    ensures id in s.images
    ensures id in Apply(s, step).lost && id in Apply(s, step).images && Apply(s, step).images[id] == s.images[id]
  {
    assert ImageInv(s, id);
    match step
    case SwapFrame(handled, exported, imported, wait, released) =>
      LostInSend(s, handled, exported, imported, id);
      LostInCheck(SendDamage(s, handled, exported, imported), wait, released, id);
    case _ =>
  }

  lemma {:induction false} LostStaysLost(s: Surface, steps: seq<Step>, id: ImageId)
    requires Inv(s) && CanRun(s, steps) && id in s.lost && forall i :: 0 <= i < |steps| ==> !Ends(steps[i], id)
    ensures id in s.images && id in Run(s, steps).lost && id in Run(s, steps).images
    ensures Run(s, steps).images[id] == s.images[id]
    decreases |steps|
  {
    if steps == [] {
      assert ImageInv(s, id);
    } else {
      LostInStep(s, steps[0], id);
      StepKeepsInv(s, steps[0]);
      LostStaysLost(Apply(s, steps[0]), steps[1..], id);
    }
  }

  /** A swap whose points cannot be sent. */
  predicate SendFails(step: Step) {
    step.SwapFrame? && step.handled && !(step.exported && step.imported)
  }

  lemma LostNow(s: Surface, swap: Step)
    requires Inv(s) && Enabled(s, swap) && SendFails(swap) && s.acquiredImages != []
    ensures SendDamage(s, true, swap.exported, swap.imported).log == s.log
    ensures var id, t := s.acquiredImages[0], Apply(s, swap);
      id in s.images && id in t.lost && id in t.images && t.images[id] == s.images[id]
  {
    assert ImageInv(s, s.acquiredImages[0]);
  }

  /** The points recorded for a live image that nobody holds are those of its record. */
  lemma LostPoints(s: Surface, id: ImageId)
    requires Inv(s) && id in s.images && !s.images[id].releasePending
    ensures ReleasePoints(s.log, id) == UpTo(s.images[id].releasePoint) == Returns(s.log, id)
    ensures id in s.lost ==> id !in s.owned && id !in s.acquiredImages
  {
    assert ImageInv(s, id);
  }

  lemma LostSinceNow(s: Surface, swap: Step, after: seq<Step>, id: ImageId)
    requires Inv(s) && Enabled(s, swap) && CanRun(Apply(s, swap), after) && SendFails(swap)
    requires s.acquiredImages != [] && id == s.acquiredImages[0]
    requires forall i :: 0 <= i < |after| ==> !Ends(after[i], id)
    ensures id in s.images && !s.images[id].releasePending
    ensures var t := Run(Apply(s, swap), after);
      Inv(t) && id in t.lost && id in t.images && t.images[id] == s.images[id]
  {
    LostNow(s, swap);
    assert ImageInv(s, id);
    StepKeepsInv(s, swap);
    LostStaysLost(Apply(s, swap), after, id);
    RunKeepsInv(Apply(s, swap), after);
  }

  /** A frame whose points cannot be sent drops its image: nothing is sent to the compositor, and however the run
      goes on, until the image is removed or the context reallocated nobody holds it, it gets no point and no
      return, and the stream cannot offer it again. */
  lemma UnsentImageIsLost(s: Surface, swap: Step, after: seq<Step>, id: ImageId)
    requires Inv(s) && Enabled(s, swap) && CanRun(Apply(s, swap), after) && SendFails(swap)
    requires s.acquiredImages != [] && id == s.acquiredImages[0]
    requires forall i :: 0 <= i < |after| ==> !Ends(after[i], id)
    ensures SendDamage(s, true, swap.exported, swap.imported).log == s.log
    ensures var t := Run(Apply(s, swap), after);
      && id in t.images && id !in t.owned && id !in t.acquiredImages && !t.images[id].releasePending
      && ReleasePoints(t.log, id) == ReleasePoints(s.log, id) && Returns(t.log, id) == Returns(s.log, id)
  {
    LostNow(s, swap);
    LostSinceNow(s, swap, after, id);
    LostPoints(s, id);
    LostPoints(Run(Apply(s, swap), after), id);
  }

  /** For every live image the release points sent are 1, 2, ..., releasePoint, and the points at
      which it was returned are the same, less the last one while it is pending.  For an image that
      is gone, what was returned is still a prefix of what was sent. */
  lemma ReleaseConservation(steps: seq<Step>, id: ImageId)
    requires CanRun(INIT, steps)
    ensures var s := Run(INIT, steps);
            && Returns(s.log, id) <= ReleasePoints(s.log, id)
            && (id in s.images ==>
                  && ReleasePoints(s.log, id) == UpTo(s.images[id].releasePoint)
                  && (s.images[id].releasePending ==> s.images[id].releasePoint > 0)
                  && Returns(s.log, id) ==
                     UpTo(s.images[id].releasePoint - if s.images[id].releasePending then 1 else 0))
  {
    RunKeepsInv(INIT, steps);
    assert ImageInv(Run(INIT, steps), id);
  }

  /** The requests of every run follow the protocol: see Obey. */
  lemma ProtocolObeyed(steps: seq<Step>)
    requires CanRun(INIT, steps)
    ensures ObeyAll(Run(INIT, steps).log).Some?
  {
    RunKeepsInv(INIT, steps);
  }

  /** A live image has exactly one owner: the stream, the acquired list, the compositor (pending),
      or nobody once its points could not be sent.  So none is acquired or sent again while pending. */
  lemma OneOwner(steps: seq<Step>, id: ImageId)
    requires CanRun(INIT, steps) && id in Run(INIT, steps).images
    ensures var s := Run(INIT, steps);
            var pending := s.images[id].releasePending;
            && (id in s.owned || id in s.acquiredImages || pending || id in s.lost)
            && (id in s.owned ==> id !in s.acquiredImages && !pending && id !in s.lost)
            && (id in s.acquiredImages ==> !pending && id !in s.lost)
            && (pending ==> id !in s.lost)
  {
    RunKeepsInv(INIT, steps);
    assert ImageInv(Run(INIT, steps), id);
  }

  lemma {:induction false} RunAppend(s: Surface, a: seq<Step>, b: seq<Step>)
    requires CanRun(s, a) && CanRun(Run(s, a), b)
    ensures CanRun(s, a + b) && Run(s, a + b) == Run(Run(s, a), b)
    decreases |a|
  {
    if a == [] {
      assert a + b == b;
    } else {
      assert (a + b)[1..] == a[1..] + b;
      RunAppend(Apply(s, a[0]), a[1..], b);
    }
  }

  /** Without that success there is no bound: if the release fence of the signalled image cannot be had, or the
      stream refuses the image, any number of images piles up. */
  lemma {:induction false} PileUp(n: nat) returns (steps: seq<Step>)
    ensures CanRun(INIT, steps)
    ensures var s := Run(INIT, steps);
            && Inv(s) && |Pending(s)| == n && s.acquiredImages == [] && (forall id :: id in s.seen ==> id < n)
  {
    if n == 0 {
      steps := [];
    } else {
      var before := PileUp(n - 1);
      var more := PileUpSteps(n - 1);
      PileUpRuns(Run(INIT, before), n - 1);
      RunAppend(INIT, before, more);
      steps := before + more;
    }
  }

  /** One more image is added, acquired and sent, and the check returns none. */
  function PileUpSteps(id: ImageId): seq<Step> {
    [AddImage(id)] + ([AcquireImage(id)] + [SwapFrame(true, true, true, Signaled(0), false)])
  }

  lemma AddAcquire(s: Surface, id: ImageId)
    requires Inv(s) && s.acquiredImages == [] && id !in s.seen
    ensures Enabled(s, AddImage(id)) && Enabled(Apply(s, AddImage(id)), AcquireImage(id))
    ensures var u := Apply(Apply(s, AddImage(id)), AcquireImage(id));
      && Inv(u) && |Pending(u)| == |Pending(s)| && u.acquiredImages == [id] && u.seen == s.seen + {id}
      && id in u.images && !u.images[id].releasePending
  {
    var t := Apply(s, AddImage(id));
    assert ImageInv(s, id);
    AddKeepsInv(s, id);
    AcquireKeepsInv(t, id);
    PendingSame(s.images, s.streamImages, id, SyncImage(0, false));
    assert t.streamImages[1..] == s.streamImages;
  }

  lemma SendOneMore(u: Surface, id: ImageId)
    requires Inv(u) && u.acquiredImages == [id] && id in u.images && !u.images[id].releasePending
    ensures SendDamage(u, true, true, true) == Sent(u) && |Pending(Sent(u))| == |Pending(u)| + 1
    ensures Sent(u).acquiredImages == []
  {
    assert ImageInv(u, id);
    PendingGrows(u.images, u.streamImages, id, SyncImage(u.images[id].releasePoint + 1, true));
  }

  lemma RefuseOne(u: Surface, id: ImageId)
    requires Inv(u) && u.acquiredImages == [id] && id in u.images && !u.images[id].releasePending
    ensures var swap := SwapFrame(true, true, true, Signaled(0), false);
      && Enabled(u, swap) && |Pending(Apply(u, swap))| == |Pending(u)| + 1
      && Apply(u, swap).acquiredImages == [] && Apply(u, swap).seen == u.seen
  {
    SendOneMore(u, id);
  }

  lemma PileUpRuns(s: Surface, id: ImageId)
    requires Inv(s) && s.acquiredImages == [] && id !in s.seen
    ensures CanRun(s, PileUpSteps(id))
    ensures var t := Run(s, PileUpSteps(id));
            Inv(t) && |Pending(t)| == |Pending(s)| + 1 && t.acquiredImages == [] && t.seen == s.seen + {id}
  {
    var swap := SwapFrame(true, true, true, Signaled(0), false);
    var t := Apply(s, AddImage(id));
    AddAcquire(s, id);
    RefuseOne(Apply(t, AcquireImage(id)), id);
    StepKeepsInv(Apply(t, AcquireImage(id)), swap);
    RunOne(Apply(t, AcquireImage(id)), swap, []);
    RunOne(t, AcquireImage(id), [swap]);
    RunOne(s, AddImage(id), [AcquireImage(id)] + [swap]);
  }

  lemma RunOne(s: Surface, step: Step, rest: seq<Step>)
    requires Enabled(s, step) && CanRun(Apply(s, step), rest)
    ensures CanRun(s, [step] + rest) && Run(s, [step] + rest) == Run(Apply(s, step), rest)
  {
    assert ([step] + rest)[1..] == rest;
  }
}
