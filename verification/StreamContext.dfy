/**
 The critical sections of the image code as the source writes them: fields updated in place and
 loops over wl_lists, proved against the functions of StreamImages on which the protocol proofs rest.
 */
module StreamContext {
  import opened Seqs
  import opened StreamImages

  class Context {
    var heap: map<ImageId, Image>
    var streamImages: seq<ImageId>
    var acquiredImages: seq<ImageId>
    var currentBuffer: Option<ImageId>
    ghost var freed: multiset<ImageId>
    ghost var buffersGone: multiset<ImageId>
    ghost var destroyedHeld: set<ImageId>

    ghost function View(): Surface
      reads this
    {
      Surface(heap, streamImages, acquiredImages, currentBuffer, freed, buffersGone, destroyedHeld)
    }

    constructor ()
      ensures View() == EMPTY
    {
      heap, streamImages, acquiredImages, currentBuffer := map[], [], [], None;
      freed, buffersGone, destroyedHeld := multiset{}, multiset{}, {};
    }

    /** destroy_stream_image; streamImagesMutex is held. */
    method DestroyStreamImage(id: ImageId)
      requires id in heap
      modifies this
      ensures View() == StreamImages.DestroyStreamImage(old(View()), id)
    {
      var image := heap[id];
      if image.buffer && currentBuffer == Some(id) {
        currentBuffer := None;
      }
      if image.attached {
        heap := heap[id := image.(destructionPending := true)];
        return;
      }
      if image.buffer {
        buffersGone := buffersGone + multiset{id};
      }
      if Held(View(), id) {
        destroyedHeld := destroyedHeld + {id};
      }
      acquiredImages := Without(acquiredImages, {id});
      streamImages := Without(streamImages, {id});
      freed := freed + multiset{id};
      heap := heap - {id};
    }

    /** The image loop of destroy_surface_context, and the last loop of wlEglDestroySurface. */
    method DestroyAllImages()
      requires ListInv(View())
      modifies this
      ensures View() == SweepImages(old(View()))
    {
      var images := streamImages;
      var i := 0;
      while i < |images|
        invariant 0 <= i <= |images| && Distinct(images[i..])
        invariant forall id :: id in images[i..] ==> id in heap
        invariant DestroyEach(View(), images[i..]) == SweepImages(old(View()))
      {
        DestroyEachFrom(View(), images, i);
        DestroyStreamImage(images[i]);
        i := i + 1;
      }
    }

    /** remove_surface_image: look the image up, destroy it, stop. */
    method RemoveImage(id: ImageId)
      requires ListInv(View())
      modifies this
      ensures View() == if id in old(heap) then StreamImages.DestroyStreamImage(old(View()), id) else old(View())
    {
      var i := 0;
      while i < |streamImages|
        invariant 0 <= i <= |streamImages| && id !in streamImages[..i]
        invariant View() == old(View())
      {
        if streamImages[i] == id {
          DestroyStreamImage(id);
          return;
        }
        i := i + 1;
      }
    }

    /** stream_local_buffer_release_callback; `toStream` says whether streamReleaseImage is called. */
    method BufferReleased(id: ImageId) returns (toStream: bool)
      requires id in heap
      modifies this
      ensures View() == ReleaseBuffer(old(View()), id)
      ensures toStream <==> !old(heap[id].destructionPending)
    {
      heap := heap[id := heap[id].(attached := false)];
      toStream := !heap[id].destructionPending;
      if heap[id].destructionPending {
        DestroyStreamImage(id);
      }
    }

    /** pop_acquired_image. */
    method PopAcquiredImage() returns (image: Option<ImageId>)
      modifies this`acquiredImages
      ensures old(acquiredImages) == [] ==> image == None && acquiredImages == []
      ensures old(acquiredImages) != [] ==>
                image == Some(old(acquiredImages[0])) && acquiredImages == old(acquiredImages[1..])
    {
      if acquiredImages == [] {
        return None;
      }
      image := Some(acquiredImages[0]);
      acquiredImages := acquiredImages[1..];
    }

    /** One round of the buffer loop of wlEglDestroySurface, with its assertion. */
    method StripBuffer(id: ImageId, ghost before: Surface, ghost done: set<ImageId>)
      requires View() == StripSome(before, done) && StripAsserts(before)
      requires id in before.heap && id !in done
      modifies this
      ensures View() == StripSome(before, done + {id})
    {
      StripOneMore(before, done, id);
      if heap[id].buffer {
        assert heap[id].attached;
        heap := heap[id := heap[id].(buffer := false, attached := false)];
        buffersGone := buffersGone + multiset{id};
      }
    }

    /** The buffer loop of wlEglDestroySurface. */
    method StripAttachedBuffers()
      requires ListInv(View()) && StripAsserts(View())
      modifies this
      ensures View() == StripBuffers(old(View()))
    {
      ghost var before := View();
      ghost var done := {};
      StripNone(before);
      var images, i := streamImages, 0;
      while i < |images|
        invariant 0 <= i <= |images| && done == Members(images[..i])
        invariant View() == StripSome(before, done)
      {
        assert images[i] in images;
        assert Members(images[..i + 1]) == done + {images[i]};
        StripBuffer(images[i], before, done);
        done := done + {images[i]};
        i := i + 1;
      }
      assert images[..i] == images;
      StripAll(before, done);
    }
  }

  /** One round of the image loop. */
  lemma DestroyEachFrom(c: Surface, ids: seq<ImageId>, i: nat)
    requires i < |ids| && Distinct(ids[i..]) && forall id :: id in ids[i..] ==> id in c.heap
    ensures ids[i] in c.heap && Distinct(ids[i + 1..])
    ensures var d := StreamImages.DestroyStreamImage(c, ids[i]);
      && (forall id :: id in ids[i + 1..] ==> id in d.heap)
      && DestroyEach(c, ids[i..]) == DestroyEach(d, ids[i + 1..])
  {
    var rest := ids[i..];
    assert rest[0] == ids[i] && rest[1..] == ids[i + 1..];
  }

  ghost function StrippedHeap(c: Surface, done: set<ImageId>): map<ImageId, Image> {
    map id | id in c.heap ::
      if id in done && c.heap[id].buffer then c.heap[id].(buffer := false, attached := false) else c.heap[id]
  }

  ghost function Stripped(c: Surface, done: set<ImageId>): set<ImageId> {
    set id | id in c.heap && c.heap[id].buffer && id in done
  }

  /** The state of the buffer loop when it has dealt with the images `done`. */
  ghost function StripSome(c: Surface, done: set<ImageId>): Surface {
    c.(heap := StrippedHeap(c, done), buffersGone := c.buffersGone + multiset(Stripped(c, done)))
  }

  lemma HeapOneMore(c: Surface, done: set<ImageId>, id: ImageId)
    requires id in c.heap && id !in done
    ensures StrippedHeap(c, done + {id}) == if !c.heap[id].buffer then StrippedHeap(c, done) else
              StrippedHeap(c, done)[id := c.heap[id].(buffer := false, attached := false)]
  {}

  lemma StripOneMore(c: Surface, done: set<ImageId>, id: ImageId)
    requires id in c.heap && id !in done
    ensures StripSome(c, done).heap[id] == c.heap[id]
    ensures StripSome(c, done + {id}) == if !c.heap[id].buffer then StripSome(c, done) else
              StripSome(c, done).
                (heap := StripSome(c, done).heap[id := c.heap[id].(buffer := false, attached := false)],
                 buffersGone := StripSome(c, done).buffersGone + multiset{id})
  {
    HeapOneMore(c, done, id);
    assert Stripped(c, done + {id}) == if c.heap[id].buffer then Stripped(c, done) + {id} else Stripped(c, done);
  }

  lemma StripNone(c: Surface)
    ensures StripSome(c, {}) == c
  {
    assert Stripped(c, {}) == {};
    assert StrippedHeap(c, {}) == c.heap;
  }

  lemma StripAll(c: Surface, done: set<ImageId>)
    requires forall id :: id in c.heap ==> id in done
    ensures StripSome(c, done) == StripBuffers(c)
  {
    assert Stripped(c, done) == set id | id in c.heap && c.heap[id].buffer;
    assert StrippedHeap(c, done) == StripBuffers(c).heap;
  }
}
