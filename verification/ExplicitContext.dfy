/**
 The explicit-sync operations of a surface as the source writes them, proved against the functions
 of ExplicitSync on which the proofs over whole runs rest.
 */
module ExplicitContext {
  import opened ExplicitSync

  class Context {
    var images: map<ImageId, SyncImage>
    var streamImages: seq<ImageId>
    var acquiredImages: seq<ImageId>
    var syncPoint: nat
    ghost var owned: set<ImageId>
    ghost var lost: set<ImageId>
    ghost var seen: set<ImageId>
    ghost var misses: nat
    ghost var log: seq<Request>

    ghost function View(): Surface
      reads this
    {
      Surface(images, streamImages, acquiredImages, syncPoint, owned, lost, seen, misses, log)
    }

    /** wlEglInitializeSurfaceCommon: the first acquire point is 1. */
    constructor ()
      ensures View() == INIT
    {
      images, streamImages, acquiredImages, syncPoint := map[], [], [], 1;
      owned, lost, seen, misses, log := {}, {}, {}, 0, [];
    }

    /** send_explicit_sync_points. */
    method SendExplicitSyncPoints(id: ImageId, exported: bool, imported: bool) returns (ok: bool)
      requires id in images
      modifies this
      ensures View() == SendPoints(old(View()), id, exported, imported)
      ensures ok <==> exported && imported
    {
      if !exported {
        return false;
      }
      if !imported {
        return false;
      }
      var acquirePoint := syncPoint;
      log := log + [ImportFence(acquirePoint)];
      syncPoint := syncPoint + 1;
      var releasePoint := images[id].releasePoint + 1;
      images := images[id := SyncImage(releasePoint, true)];
      log := log + [SetAcquirePoint(acquirePoint)];
      log := log + [SetReleasePoint(id, releasePoint)];
      ok := true;
    }

    /** wlEglSendDamageEvent; `handled` is the outcome of wlEglHandleImageStreamEvents. */
    method SendDamageEvent(handled: bool, exported: bool, imported: bool) returns (ok: bool)
      requires forall id :: id in acquiredImages ==> id in images
      modifies this
      ensures View() == SendDamage(old(View()), handled, exported, imported)
      ensures ok <==> handled && old(acquiredImages) != [] && exported && imported
    {
      if !handled {
        return false;
      }
      if acquiredImages == [] {
        return false;
      }
      var image := acquiredImages[0];
      acquiredImages := acquiredImages[1..];
      ok := SendExplicitSyncPoints(image, exported, imported);
      if !ok {
        lost := lost + {image};
        return;
      }
      log := log + [Attach(image)];
      log := log + [Commit];
    }

    /** The loop of wlEglSurfaceCheckReleasePoints that records each release point to wait for;
        `overflow` tells whether its assertion about the swapchain size was reached. */
    static method GatherPending(images: map<ImageId, SyncImage>, streamImages: seq<ImageId>,
                                candidates: array<ImageId>, syncPoints: array<nat>)
      returns (numSyncPoints: nat, overflow: bool)
      requires forall id :: id in streamImages ==> id in images
      requires candidates.Length == syncPoints.Length == MAX_IMAGES && candidates as object != syncPoints
      modifies candidates, syncPoints
      ensures numSyncPoints == Min(|PendingOf(images, streamImages)|, MAX_IMAGES)
      ensures Gathered(images, PendingOf(images, streamImages), numSyncPoints, candidates[..], syncPoints[..])
      ensures overflow <==> |PendingOf(images, streamImages)| > MAX_IMAGES
    {
      numSyncPoints, overflow := 0, false;
      ghost var all := PendingOf(images, streamImages);
      var i := 0;
      while i < |streamImages|
        invariant 0 <= i <= |streamImages| && numSyncPoints <= MAX_IMAGES && numSyncPoints <= |all|
        invariant all[numSyncPoints..] == PendingOf(images, streamImages[i..])
        invariant Gathered(images, all, numSyncPoints, candidates[..], syncPoints[..])
      {
        var image := streamImages[i];
        PendingStep(images, streamImages, i, all, numSyncPoints);
        if images[image].releasePending {
          if numSyncPoints >= MAX_IMAGES {
            return numSyncPoints, true;
          }
          ghost var before, points := candidates[..], syncPoints[..];
          candidates[numSyncPoints] := image;
          syncPoints[numSyncPoints] := images[image].releasePoint;
          GatherOne(images, all, numSyncPoints, before, points, candidates[..], syncPoints[..]);
          numSyncPoints := numSyncPoints + 1;
        }
        i := i + 1;
      }
    }

    /** wlEglSurfaceCheckReleasePoints; `blocked` tells whether the wait had no time limit. */
    method CheckReleasePoints(wait: Wait, released: bool) returns (ret: bool, blocked: bool)
      requires forall id :: id in streamImages ==> id in images
      requires WaitPossible(View(), wait)
      modifies this
      ensures View() == CheckRelease(old(View()), wait, released)
      ensures ret <==> wait.Signaled? && released
      ensures blocked <==> |Pending(old(View()))| >= BLOCKING_PENDING
    {
      var candidates := new ImageId[MAX_IMAGES];
      var syncPoints := new nat[MAX_IMAGES];
      var numSyncPoints, overflow := GatherPending(images, streamImages, candidates, syncPoints);
      if numSyncPoints == 0 {
        return false, false;
      }
      blocked := numSyncPoints >= BLOCKING_PENDING;
      if wait.Expired? {
        misses := if blocked then misses + 1 else misses;
        return false, blocked;
      }
      var image := candidates[wait.first];
      log := log + [PointSignaled(image, syncPoints[wait.first])];
      if !released {
        misses := if blocked then misses + 1 else misses;
        return false, blocked;
      }
      owned := owned + {image};
      log := log + [ReturnImage(image, syncPoints[wait.first])];
      images := images[image := images[image].(releasePending := false)];
      ret := true;
    }

    /** The explicit-sync part of wlEglSwapBuffersWithDamageHook: the release check follows the
        damage event whether or not that went through. */
    method SwapBuffers(handled: bool, exported: bool, imported: bool, wait: Wait, released: bool) returns (ok: bool)
      requires Inv(View())
      requires Enabled(View(), SwapFrame(handled, exported, imported, wait, released))
      modifies this
      ensures View() == Apply(old(View()), SwapFrame(handled, exported, imported, wait, released))
      ensures Inv(View()) && |Pending(View())| <= 2 + misses
    {
      SendKeeps(View(), handled, exported, imported);
      ok := SendDamageEvent(handled, exported, imported);
      forall id | id in streamImages
        ensures id in images
      {
        assert ImageInv(View(), id);
      }
      CheckKeeps(View(), wait, released);
      var ret, blocked := CheckReleasePoints(wait, released);
    }
  }

  /** The first n pending images and their points are in the arrays. */
  predicate Gathered(images: map<ImageId, SyncImage>, all: seq<ImageId>, n: nat, ids: seq<ImageId>, points: seq<nat>) {
    && n <= |all| && n <= |ids| && n <= |points|
    && forall k :: 0 <= k < n ==> ids[k] == all[k] && all[k] in images && points[k] == images[all[k]].releasePoint
  }

  lemma GatherOne(images: map<ImageId, SyncImage>, all: seq<ImageId>, n: nat, ids: seq<ImageId>, points: seq<nat>,
                  moreIds: seq<ImageId>, morePoints: seq<nat>)
    requires Gathered(images, all, n, ids, points) && n < |all| && n < |ids| && n < |points| && all[n] in images
    requires moreIds == ids[n := all[n]] && morePoints == points[n := images[all[n]].releasePoint]
    ensures Gathered(images, all, n + 1, moreIds, morePoints)
  {
  }

  /** What is still to be gathered, one image further down the list. */
  lemma PendingStep(images: map<ImageId, SyncImage>, list: seq<ImageId>, i: nat, all: seq<ImageId>, n: nat)
    requires i < |list| && list[i] in images && n <= |all| && all[n..] == PendingOf(images, list[i..])
    ensures if images[list[i]].releasePending
      then n < |all| && all[n] == list[i] && all[n + 1..] == PendingOf(images, list[i + 1..])
      else all[n..] == PendingOf(images, list[i + 1..])
  {
    assert list[i..][1..] == list[i + 1..];
    if images[list[i]].releasePending {
      assert all[n..][0] == list[i];
      assert all[n..][1..] == all[n + 1..];
    }
  }
}
