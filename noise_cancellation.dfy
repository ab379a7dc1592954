/** The denoise stage (noise_cancellation.py): every 480-sample frame is
    denoised, or passed through when the denoiser is missing or fails, and
    frames of any other shape are dropped. */
module Denoise {
  import opened Pipeline

  /** RNNoise works on frames of 480 samples (10 ms at 48 kHz). */
  const FrameSize := 480

  /** What `rnnoise_process_frame` does with one frame: the samples it writes
      into the output buffer, or `Raised` when the foreign call raises. */
  datatype Rnnoise = Denoised(written: seq<Sample>) | Raised

  /** The 480-slot output buffer after the native call: ctypes creates it
      zero-filled and the call writes at most its 480 slots. */
  function OutputBuffer(written: seq<Sample>): (r: seq<Sample>)
    ensures |r| == FrameSize
    ensures forall k :: 0 <= k < FrameSize ==> r[k] == if k < |written| then written[k] else 0
  {
    seq(FrameSize, k requires 0 <= k < FrameSize => if k < |written| then written[k] else 0)
  }

  /** The frame offered downstream for one accepted frame. `ready` is whether
      the library loaded and its state was created (`self.lib and self.st`).
      Denoising is best effort: without the library, or when the call raises,
      the frame goes through unchanged. */
  function DenoiseFrame(frame: seq<Sample>, ready: bool, rnnoise: seq<Sample> -> Rnnoise): (r: seq<Sample>)
    requires |frame| == FrameSize
    ensures |r| == FrameSize
    ensures !ready ==> r == frame
    ensures ready && rnnoise(frame).Raised? ==> r == frame
    ensures ready && rnnoise(frame).Denoised? && |rnnoise(frame).written| == FrameSize ==> r == rnnoise(frame).written
  {
    if ready then
      match rnnoise(frame)
      case Denoised(written) => OutputBuffer(written)
      case Raised => frame
    else frame
  }

  /** One iteration of `process_frame` on an item other than `None`: a
      non-array, an empty array or an array whose length is not 480 is
      dropped; any other frame yields exactly one frame of 480 samples. */
  function Process(item: Item, ready: bool, rnnoise: seq<Sample> -> Rnnoise): (r: Option<Item>)
    requires !item.Stop?
    ensures r.Some? <==> item.Audio? && |item.samples| == FrameSize
    ensures r.Some? ==> r.value == Audio(DenoiseFrame(item.samples, ready, rnnoise))
  {
    if !item.Audio? || item.samples == [] then None
    else if |item.samples| != FrameSize then None
    else Some(Audio(DenoiseFrame(item.samples, ready, rnnoise)))
  }

  /** The frames offered downstream during one run of the loop. */
  function ProcessAll(items: seq<Item>, ready: bool, rnnoise: seq<Sample> -> Rnnoise): seq<Item>
    requires forall j :: 0 <= j < |items| ==> !items[j].Stop?
    decreases |items|
  {
    if items == [] then []
    else ProcessAll(items[..|items| - 1], ready, rnnoise) + Emitted(Process(items[|items| - 1], ready, rnnoise))
  }

  /** The frames the stage accepts, in arrival order. */
  function AcceptedFrames(items: seq<Item>): (r: seq<seq<Sample>>)
    ensures forall k :: 0 <= k < |r| ==> |r[k]| == FrameSize
    decreases |items|
  {
    if items == [] then []
    else
      var last := items[|items| - 1];
      AcceptedFrames(items[..|items| - 1]) + (if last.Audio? && |last.samples| == FrameSize then [last.samples] else [])
  }

  /** Exactly one output frame per accepted input frame, in arrival order, the
      k-th being the denoised k-th accepted frame; all have 480 samples. */
  lemma {:induction false} OnePerFrame(items: seq<Item>, ready: bool, rnnoise: seq<Sample> -> Rnnoise)
    requires forall j :: 0 <= j < |items| ==> !items[j].Stop?
    ensures |ProcessAll(items, ready, rnnoise)| == |AcceptedFrames(items)|
    ensures forall k :: 0 <= k < |AcceptedFrames(items)| ==>
              ProcessAll(items, ready, rnnoise)[k] == Audio(DenoiseFrame(AcceptedFrames(items)[k], ready, rnnoise))
    ensures forall k :: 0 <= k < |ProcessAll(items, ready, rnnoise)| ==>
              ProcessAll(items, ready, rnnoise)[k].Audio? && |ProcessAll(items, ready, rnnoise)[k].samples| == FrameSize
  {
    if items != [] {
      OnePerFrame(items[..|items| - 1], ready, rnnoise);
    }
  }

  /** Without the library the stage forwards exactly the accepted frames. */
  lemma PassThrough(items: seq<Item>, rnnoise: seq<Sample> -> Rnnoise)
    requires forall j :: 0 <= j < |items| ==> !items[j].Stop?
    ensures |ProcessAll(items, false, rnnoise)| == |AcceptedFrames(items)|
    ensures forall k :: 0 <= k < |AcceptedFrames(items)| ==>
              ProcessAll(items, false, rnnoise)[k] == Audio(AcceptedFrames(items)[k])
  {
    OnePerFrame(items, false, rnnoise);
  }

  /** One more frame handled: the frames offered so far grow by that frame's result. */
  lemma ProcessAllStep(q0: seq<Item>, maxsize: nat, input: seq<Item>, i: nat, ready: bool, rnnoise: seq<Sample> -> Rnnoise)
    requires i < |input| && !input[i].Stop?
    requires forall j :: 0 <= j < i ==> !input[j].Stop?
    ensures forall j :: 0 <= j < i + 1 ==> !input[j].Stop?
    ensures Offer(q0, maxsize, ProcessAll(input[..i + 1], ready, rnnoise)) ==
            Offer(Offer(q0, maxsize, ProcessAll(input[..i], ready, rnnoise)), maxsize, Emitted(Process(input[i], ready, rnnoise)))
  {
    NoStopExtend(input, i);
    assert input[..i + 1][..i] == input[..i];
    OfferEmitted(q0, maxsize, ProcessAll(input[..i], ready, rnnoise), Process(input[i], ready, rnnoise));
  }

  /** `NoiseCancellation`: the queues it reads and writes, whether the native
      state exists, and how often it has been destroyed. */
  class NoiseCancellation {
    const rawAudioQueue: Queue
    const denoisedAudioQueue: Queue
    const ready: bool
    var destroyed: nat

    constructor (rawAudioQueue: Queue, denoisedAudioQueue: Queue, ready: bool)
      ensures this.rawAudioQueue == rawAudioQueue && this.denoisedAudioQueue == denoisedAudioQueue
      ensures this.ready == ready && destroyed == 0
    {
      this.rawAudioQueue := rawAudioQueue;
      this.denoisedAudioQueue := denoisedAudioQueue;
      this.ready := ready;
      destroyed := 0;
    }

    /** `process_frame`: `input` is what successive `get` calls on the raw
        queue return. The loop ends at the first `None`; the result of every
        frame before it is offered, in order, to the denoised queue. Leaving
        the loop destroys the native state once, if it was created; with no
        `None` the loop is still waiting and nothing is destroyed. */
    method ProcessFrame(input: seq<Item>, rnnoise: seq<Sample> -> Rnnoise)
      modifies this, denoisedAudioQueue
      ensures denoisedAudioQueue.items ==
                Offer(old(denoisedAudioQueue.items), denoisedAudioQueue.maxsize, ProcessAll(UntilStop(input), ready, rnnoise))
      ensures destroyed == old(destroyed) + (if ready && StopIndex(input) < |input| then 1 else 0)
    {
      ghost var q0 := denoisedAudioQueue.items;
      var i := 0;
      while i < |input| && !input[i].Stop?
        invariant i <= |input| && forall j :: 0 <= j < i ==> !input[j].Stop?
        invariant destroyed == old(destroyed)
        invariant denoisedAudioQueue.items == Offer(q0, denoisedAudioQueue.maxsize, ProcessAll(input[..i], ready, rnnoise))
      {
        ProcessAllStep(q0, denoisedAudioQueue.maxsize, input, i, ready, rnnoise);
        HandleFrame(input[i], rnnoise);
        i := i + 1;
      }
      StopIndexBound(input, i);
      assert input[..i] == UntilStop(input);
      if i < |input| && ready {
        destroyed := destroyed + 1;
      }
    }

    /** The body of the loop of `process_frame` for one frame. */
    method HandleFrame(frame: Item, rnnoise: seq<Sample> -> Rnnoise)
      requires !frame.Stop?
      modifies denoisedAudioQueue
      ensures denoisedAudioQueue.items ==
                Offer(old(denoisedAudioQueue.items), denoisedAudioQueue.maxsize, Emitted(Process(frame, ready, rnnoise)))
    {
      if frame.Audio? && frame.samples != [] && |frame.samples| == FrameSize {
        var denoisedFrame;
        if ready {
          var out := rnnoise(frame.samples);
          if out.Denoised? {
            denoisedFrame := OutputBuffer(out.written);
          } else {
            denoisedFrame := frame.samples;
          }
        } else {
          denoisedFrame := frame.samples;
        }
        var _ := denoisedAudioQueue.PutNowait(Audio(denoisedFrame));
      }
    }
  }
}
