/**
 * The frame-slot ring of draw: the queue operations it issues, how a fence
 * is pending between a submission that signals it and the GPU completing
 * that submission, and the pacing rule the per-slot fence wait enforces.
 */
module FrameSync {
  import opened Vk
  import opened Utilities

  /** A queue operation as the GPU sees it, or the completion of a submission. */
  datatype GpuOp =
    | Acquire(signalSemaphore: Handle, imageIndex: nat)
    | Submit(commandBuffer: Handle, waitSemaphore: Handle, waitStage: bv32, signalSemaphore: Handle, fence: Handle)
    | Present(waitSemaphore: Handle, imageIndex: nat)
    | Complete(fence: Handle)

  /**
   * A submission that signals `fence` is still running at the end of the
   * log: the last submit or completion naming the fence is a submit.
   */
  function Pending(log: seq<GpuOp>, fence: Handle): bool
    decreases |log|
  {
    if log == [] then false
    else
      var op := log[|log| - 1];
      if op.Submit? && op.fence == fence then true
      else if op.Complete? && op.fence == fence then false
      else Pending(log[..|log| - 1], fence)
  }

  /** How one more operation changes whether a fence is pending. */
  lemma PendingAppend(log: seq<GpuOp>, op: GpuOp, fence: Handle)
    ensures Pending(log + [op], fence) ==
      if op.Submit? && op.fence == fence then true
      else if op.Complete? && op.fence == fence then false
      else Pending(log, fence)
  {
    assert (log + [op])[..|log|] == log;
  }

  /**
   * Frame pacing: no submission signals a fence whose previous submission
   * is still running.  Since each frame slot has its own fence and
   * semaphores, a slot's semaphores are never reused by a frame while the
   * previous frame of that slot is in flight.
   */
  ghost predicate WellPaced(log: seq<GpuOp>) {
    forall k :: 0 <= k < |log| && log[k].Submit? ==> !Pending(log[..k], log[k].fence)
  }

  /** Appending an operation keeps the pacing rule when it does not submit on a pending fence. */
  lemma WellPacedAppend(log: seq<GpuOp>, op: GpuOp)
    requires WellPaced(log)
    requires op.Submit? ==> !Pending(log, op.fence)
    ensures WellPaced(log + [op])
  {
    var log' := log + [op];
    forall k | 0 <= k < |log'| && log'[k].Submit?
      ensures !Pending(log'[..k], log'[k].fence)
    {
      if k < |log| {
        assert log'[..k] == log[..k];
        assert log'[k] == log[k];
      } else {
        assert log'[..k] == log;
      }
    }
  }

  /** Every fence a submission in the log signals is below `bound`. */
  predicate SubmittedBelow(log: seq<GpuOp>, bound: nat) {
    forall k :: 0 <= k < |log| && log[k].Submit? ==> log[k].fence < bound
  }

  /** A fence never submitted, such as a freshly created one, is not pending. */
  lemma {:induction false} FreshNotPending(log: seq<GpuOp>, bound: nat, fence: Handle)
    requires SubmittedBelow(log, bound)
    requires fence >= bound
    ensures !Pending(log, fence)
    decreases |log|
  {
    if log != [] {
      var init := log[..|log| - 1];
      assert SubmittedBelow(init, bound) by {
        forall k | 0 <= k < |init| && init[k].Submit?
          ensures init[k].fence < bound
        {
          assert init[k] == log[k];
        }
      }
      FreshNotPending(init, bound, fence);
    }
  }

  // ---------------------------------------------------------------------
  // The slot index

  /** The slot after `frame`: `(frame + 1) % MAX_FRAME_DRAWS`. */
  function NextFrame(frame: nat): (r: nat)
    ensures r < MAX_FRAME_DRAWS
  {
    (frame + 1) % MAX_FRAME_DRAWS
  }

  /** The slot after k successful draws starting from slot `frame`. */
  function FrameAfter(frame: nat, k: nat): nat
    decreases k
  {
    if k == 0 then frame else NextFrame(FrameAfter(frame, k - 1))
  }

  /** k successful draws advance the slot by k around the ring. */
  lemma {:induction false} FrameAfterIsModular(frame: nat, k: nat)
    requires frame < MAX_FRAME_DRAWS
    ensures FrameAfter(frame, k) == (frame + k) % MAX_FRAME_DRAWS
    decreases k
  {
    if k > 0 {
      FrameAfterIsModular(frame, k - 1);
      var p := (frame + k - 1) % MAX_FRAME_DRAWS;
      assert FrameAfter(frame, k) == (p + 1) % MAX_FRAME_DRAWS;
      assert (p + 1) % MAX_FRAME_DRAWS == (frame + k) % MAX_FRAME_DRAWS;
    }
  }

  /**
   * Any MAX_FRAME_DRAWS consecutive frames use distinct slots, and a slot
   * comes back exactly MAX_FRAME_DRAWS frames later: that is the number of
   * frames that may be in flight at once.
   */
  lemma RingSlots(frame: nat, k1: nat, k2: nat)
    requires frame < MAX_FRAME_DRAWS
    requires k1 <= k2
    ensures k2 < k1 + MAX_FRAME_DRAWS && k1 != k2 ==> FrameAfter(frame, k1) != FrameAfter(frame, k2)
    ensures k2 == k1 + MAX_FRAME_DRAWS ==> FrameAfter(frame, k1) == FrameAfter(frame, k2)
  {
    FrameAfterIsModular(frame, k1);
    FrameAfterIsModular(frame, k2);
  }
}
