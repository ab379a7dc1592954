/** The voice-activity stage (voice_activity_detection.py): denoised frames
    are gathered into windows of at least one second, each window is
    classified, speech windows are forwarded, and a run of silence after
    speech raises the speech-ended flag. */
module Vad {
  import opened Pipeline

  /** A window is classified once the buffer holds this many samples (one
      second at 48 kHz) ... */
  const Window := 48000
  /** ... and afterwards only this many of its last samples are kept. */
  const Overlap := 4800
  /** The divisor that turns a buffer length into the "seconds" stored in
      `silence_start`. */
  const Rate: real := 48000.0

  /** What the Silero iterator says about one window: a truthy speech
      dictionary, a falsy one, or an exception. */
  datatype Verdict = Speech | NoSpeech | Raised

  /** The loop's locals (`audio_buffer`, `silence_start`) and the two shared
      flags it writes. */
  datatype VadState = VadState(buffer: seq<Sample>, silenceStart: Option<real>, voiceDetected: bool, speechEnded: bool)

  datatype StepResult = StepResult(state: VadState, emitted: Option<Item>)

  /** The "timestamp" the source records: the buffer length divided by 48000,
      not a clock reading. */
  function Stamp(buffer: seq<Sample>): (t: real)
    ensures t >= 0.0
    ensures |buffer| >= Window ==> t >= 1.0
  {
    |buffer| as real / Rate
  }

  /** The silence that follows speech has lasted longer than `timeout`, as
      measured at voice_activity_detection.py:89: a non-speech window after speech, with
      `silence_start` recorded by an earlier window. */
  predicate Expired(s: VadState, buffer: seq<Sample>, timeout: real) {
    s.voiceDetected && s.silenceStart.Some? && Stamp(buffer) - s.silenceStart.value > timeout
  }

  /** One iteration of `process_stream` on an item other than `None`. `ready`
      is whether the Silero model and iterator loaded; `classify` stands for
      the iterator's call on the window. */
  function Step(s: VadState, item: Item, ready: bool, classify: seq<Sample> -> Verdict, timeout: real): (r: StepResult)
    requires !item.Stop?
    // A non-array or empty chunk changes nothing.
    ensures (!item.Audio? || item.samples == []) ==> r == StepResult(s, None)
    // Below a full window the chunk is only buffered.
    ensures item.Audio? && |s.buffer + item.samples| < Window ==>
              r == StepResult(s.(buffer := s.buffer + item.samples), None)
    // After a window only its last 4800 samples stay buffered.
    ensures item.Audio? && item.samples != [] && |s.buffer + item.samples| >= Window ==>
              var buf := s.buffer + item.samples;
              r.state.buffer == buf[|buf| - Overlap..]
    // Without a model, or when the classifier raises, the window is forwarded and nothing else changes.
    ensures item.Audio? && item.samples != [] && |s.buffer + item.samples| >= Window &&
            (!ready || classify(s.buffer + item.samples) == Raised) ==>
              r.emitted == Some(Audio(s.buffer + item.samples)) &&
              r.state.silenceStart == s.silenceStart && r.state.voiceDetected == s.voiceDetected &&
              r.state.speechEnded == s.speechEnded
    // A speech window is forwarded whole, sets voice_detected and forgets the silence.
    ensures item.Audio? && item.samples != [] && |s.buffer + item.samples| >= Window && ready &&
            classify(s.buffer + item.samples) == Speech ==>
              r.emitted == Some(Audio(s.buffer + item.samples)) &&
              r.state.silenceStart == None && r.state.voiceDetected && r.state.speechEnded == s.speechEnded
    // A non-speech window is never forwarded; before any speech it changes nothing but the buffer.
    ensures item.Audio? && ready && classify(s.buffer + item.samples) == NoSpeech ==> r.emitted.None?
    ensures item.Audio? && ready && classify(s.buffer + item.samples) == NoSpeech && !s.voiceDetected ==>
              r.state == s.(buffer := r.state.buffer)
    // The first non-speech window after speech records the silence start.
    ensures item.Audio? && item.samples != [] && |s.buffer + item.samples| >= Window && ready &&
            classify(s.buffer + item.samples) == NoSpeech && s.voiceDetected && s.silenceStart.None? ==>
              r.state.silenceStart == Some(Stamp(s.buffer + item.samples))
    // A later non-speech window keeps the silence start recorded first.
    ensures item.Audio? && item.samples != [] && |s.buffer + item.samples| >= Window && ready &&
            classify(s.buffer + item.samples) == NoSpeech && s.silenceStart.Some? ==>
              r.state.silenceStart == s.silenceStart
    // speech_ended is raised, and voice_detected cleared, exactly when the silence has expired.
    ensures var expired := item.Audio? && item.samples != [] && |s.buffer + item.samples| >= Window && ready &&
                           classify(s.buffer + item.samples) == NoSpeech && Expired(s, s.buffer + item.samples, timeout);
            r.state.speechEnded == (s.speechEnded || expired) &&
            (expired ==> !r.state.voiceDetected) &&
            (s.voiceDetected && !r.state.voiceDetected ==> expired)
    // Every forwarded item is a whole window of at least 48000 samples.
    ensures r.emitted.Some? ==> r.emitted.value.Audio? && |r.emitted.value.samples| >= Window
  {
    if !item.Audio? || item.samples == [] then StepResult(s, None)
    else
      var buf := s.buffer + item.samples;
      if |buf| < Window then StepResult(s.(buffer := buf), None)
      else
        var kept := buf[|buf| - Overlap..];
        if !ready then StepResult(s.(buffer := kept), Some(Audio(buf)))
        else match classify(buf)
          case Raised => StepResult(s.(buffer := kept), Some(Audio(buf)))
          case Speech => StepResult(s.(buffer := kept, voiceDetected := true, silenceStart := None), Some(Audio(buf)))
          case NoSpeech =>
            if !s.voiceDetected then StepResult(s.(buffer := kept), None)
            else if s.silenceStart.None? then StepResult(s.(buffer := kept, silenceStart := Some(Stamp(buf))), None)
            else if Stamp(buf) - s.silenceStart.value > timeout then
              StepResult(s.(buffer := kept, voiceDetected := false, speechEnded := true), None)
            else StepResult(s.(buffer := kept), None)
  }

  /** The state and the forwarded windows after one run of the loop. */
  function Run(s: VadState, items: seq<Item>, ready: bool, classify: seq<Sample> -> Verdict, timeout: real): RunResult
    requires forall j :: 0 <= j < |items| ==> !items[j].Stop?
    decreases |items|
  {
    if items == [] then RunResult(s, [])
    else
      var prev := Run(s, items[..|items| - 1], ready, classify, timeout);
      var r := Step(prev.state, items[|items| - 1], ready, classify, timeout);
      RunResult(r.state, prev.emitted + Emitted(r.emitted))
  }

  datatype RunResult = RunResult(state: VadState, emitted: seq<Item>)

  /** What holds between iterations: the buffer is short of a window, and a
      recorded silence start was taken at a full window, so it is at least 1. */
  predicate Settled(s: VadState) {
    |s.buffer| < Window && (s.silenceStart.Some? ==> s.silenceStart.value >= 1.0)
  }

  /** Every step keeps the state settled. */
  lemma StepSettled(s: VadState, item: Item, ready: bool, classify: seq<Sample> -> Verdict, timeout: real)
    requires !item.Stop? && Settled(s)
    ensures Settled(Step(s, item, ready, classify, timeout).state)
  {
  }

  /** The silence can only expire inside the chunk that completes the window:
      the chunk that clears `voice_detected` is longer than `timeout` seconds
      of samples, since the buffer before it was shorter than the window at
      which the silence start was recorded. */
  lemma SpeechEndNeedsLongChunk(s: VadState, c: seq<Sample>, ready: bool, classify: seq<Sample> -> Verdict, timeout: real)
    requires Settled(s)
    requires s.voiceDetected && !Step(s, Audio(c), ready, classify, timeout).state.voiceDetected
    ensures |c| as real > timeout * Rate
  {
    var buf := s.buffer + c;
    assert Expired(s, buf, timeout);
    var ss := s.silenceStart.value;
    assert |buf| as real / Rate - ss > timeout;
    assert |buf| as real > (timeout + ss) * Rate;
    assert |s.buffer| as real < Window as real;
  }

  /** A run from a settled state stays settled, and every window it forwards
      holds at least 48000 samples. */
  lemma {:induction false} RunSettled(s: VadState, items: seq<Item>, ready: bool, classify: seq<Sample> -> Verdict, timeout: real)
    requires forall j :: 0 <= j < |items| ==> !items[j].Stop?
    requires Settled(s)
    ensures Settled(Run(s, items, ready, classify, timeout).state)
    ensures forall k :: 0 <= k < |Run(s, items, ready, classify, timeout).emitted| ==>
              var e := Run(s, items, ready, classify, timeout).emitted[k];
              e.Audio? && |e.samples| >= Window
  {
    if items != [] {
      RunSettled(s, items[..|items| - 1], ready, classify, timeout);
      StepSettled(Run(s, items[..|items| - 1], ready, classify, timeout).state, items[|items| - 1], ready, classify, timeout);
    }
  }

  /** The state between iterations when every chunk has 480 samples and the
      buffer started empty: its length is a multiple of 480 below a window, and
      a recorded silence start is exactly 1. */
  predicate Aligned(s: VadState) {
    |s.buffer| % 480 == 0 && |s.buffer| < Window && (s.silenceStart.Some? ==> s.silenceStart.value == 1.0)
  }

  /** With 480-sample chunks every window is classified at exactly 48000
      samples, so its stamp is 1 and the elapsed value compared with the
      timeout is 0. */
  lemma AlignedStep(s: VadState, c: seq<Sample>, ready: bool, classify: seq<Sample> -> Verdict, timeout: real)
    requires Aligned(s) && |c| == 480
    ensures Aligned(Step(s, Audio(c), ready, classify, timeout).state)
    ensures |s.buffer + c| >= Window ==> |s.buffer + c| == Window && Stamp(s.buffer + c) == 1.0
    ensures |s.buffer + c| >= Window && s.silenceStart.Some? ==> Stamp(s.buffer + c) - s.silenceStart.value == 0.0
    ensures timeout >= 0.0 ==> Step(s, Audio(c), ready, classify, timeout).state.speechEnded == s.speechEnded
  {
  }

  /** The inputs the framer and the denoiser deliver: 480-sample frames. */
  predicate AllFrames(items: seq<Item>) {
    forall j :: 0 <= j < |items| ==> items[j].Audio? && |items[j].samples| == 480
  }

  /** Consequently, with the frames the pipeline delivers and a non-negative
      timeout, a run that starts from an empty buffer never raises
      `speech_ended` and never clears `voice_detected`, and every forwarded
      window has exactly 48000 samples. */
  lemma {:induction false} FramesNeverEndSpeech(s: VadState, items: seq<Item>, ready: bool, classify: seq<Sample> -> Verdict, timeout: real)
    requires AllFrames(items) && Aligned(s) && timeout >= 0.0
    ensures Aligned(Run(s, items, ready, classify, timeout).state)
    ensures Run(s, items, ready, classify, timeout).state.speechEnded == s.speechEnded
    ensures s.voiceDetected ==> Run(s, items, ready, classify, timeout).state.voiceDetected
    ensures forall k :: 0 <= k < |Run(s, items, ready, classify, timeout).emitted| ==>
              Run(s, items, ready, classify, timeout).emitted[k].Audio? &&
              |Run(s, items, ready, classify, timeout).emitted[k].samples| == Window
  {
    if items != [] {
      var init := items[..|items| - 1];
      assert AllFrames(init) by {
        forall j | 0 <= j < |init| ensures init[j].Audio? && |init[j].samples| == 480 {
          assert init[j] == items[j];
        }
      }
      FramesNeverEndSpeech(s, init, ready, classify, timeout);
      var prev := Run(s, init, ready, classify, timeout);
      var c := items[|items| - 1].samples;
      assert items[|items| - 1] == Audio(c);
      AlignedStep(prev.state, c, ready, classify, timeout);
      if prev.state.voiceDetected && !Step(prev.state, Audio(c), ready, classify, timeout).state.voiceDetected {
        SpeechEndNeedsLongChunk(prev.state, c, ready, classify, timeout);
      }
    }
  }

  /** One more item handled: the run's state is that item's step applied to the state before it, and the windows offered grow by that step's window. */
  lemma RunStep(q0: seq<Item>, maxsize: nat, s0: VadState, input: seq<Item>, i: nat, ready: bool, classify: seq<Sample> -> Verdict, timeout: real)
    requires i < |input| && !input[i].Stop?
    requires forall j :: 0 <= j < i ==> !input[j].Stop?
    ensures forall j :: 0 <= j < i + 1 ==> !input[j].Stop?
    ensures var prev := Run(s0, input[..i], ready, classify, timeout);
            var step := Step(prev.state, input[i], ready, classify, timeout);
            Run(s0, input[..i + 1], ready, classify, timeout).state == step.state &&
            Offer(q0, maxsize, Run(s0, input[..i + 1], ready, classify, timeout).emitted) ==
            Offer(Offer(q0, maxsize, prev.emitted), maxsize, Emitted(step.emitted))
  {
    NoStopExtend(input, i);
    assert input[..i + 1][..i] == input[..i];
    var prev := Run(s0, input[..i], ready, classify, timeout);
    OfferEmitted(q0, maxsize, prev.emitted, Step(prev.state, input[i], ready, classify, timeout).emitted);
  }

  /** `VoiceActivityDetection`: the queue it writes, the timeout, the shared
      flags and whether the Silero model loaded. */
  class VoiceActivityDetection {
    const denoisedAudioQueue: Queue
    const voiceDetectedQueue: Queue
    const silenceTimeout: real
    const flags: FlagDict
    const modelReady: bool

    constructor (denoisedAudioQueue: Queue, voiceDetectedQueue: Queue, silenceTimeout: real, flags: FlagDict, modelReady: bool)
      ensures this.denoisedAudioQueue == denoisedAudioQueue && this.voiceDetectedQueue == voiceDetectedQueue
      ensures this.silenceTimeout == silenceTimeout && this.flags == flags && this.modelReady == modelReady
    {
      this.denoisedAudioQueue := denoisedAudioQueue;
      this.voiceDetectedQueue := voiceDetectedQueue;
      this.silenceTimeout := silenceTimeout;
      this.flags := flags;
      this.modelReady := modelReady;
    }

    /** `process_stream`: `input` is what successive `get` calls on the
        denoised queue return. The loop ends at the first `None`; the buffer
        and the silence start are locals that start empty, the flags are the
        shared ones. */
    method ProcessStream(input: seq<Item>, classify: seq<Sample> -> Verdict)
      modifies voiceDetectedQueue, flags
      ensures var r := Run(VadState([], None, old(flags.voiceDetected), old(flags.speechEnded)), UntilStop(input),
                           modelReady, classify, silenceTimeout);
              voiceDetectedQueue.items == Offer(old(voiceDetectedQueue.items), voiceDetectedQueue.maxsize, r.emitted) &&
              flags.voiceDetected == r.state.voiceDetected && flags.speechEnded == r.state.speechEnded
    {
      ghost var q0 := voiceDetectedQueue.items;
      ghost var s0 := VadState([], None, flags.voiceDetected, flags.speechEnded);
      var audioBuffer: seq<Sample> := [];
      var silenceStart: Option<real> := None;
      var i := 0;
      while i < |input| && !input[i].Stop?
        invariant i <= |input| && forall j :: 0 <= j < i ==> !input[j].Stop?
        invariant Run(s0, input[..i], modelReady, classify, silenceTimeout).state ==
                  VadState(audioBuffer, silenceStart, flags.voiceDetected, flags.speechEnded)
        invariant voiceDetectedQueue.items ==
                  Offer(q0, voiceDetectedQueue.maxsize, Run(s0, input[..i], modelReady, classify, silenceTimeout).emitted)
      {
        RunStep(q0, voiceDetectedQueue.maxsize, s0, input, i, modelReady, classify, silenceTimeout);
        audioBuffer, silenceStart := ProcessChunk(audioBuffer, silenceStart, input[i], classify);
        i := i + 1;
      }
      StopIndexBound(input, i);
      assert input[..i] == UntilStop(input);
    }

    /** The body of the loop of `process_stream` for one item. */
    method ProcessChunk(audioBuffer: seq<Sample>, silenceStart: Option<real>, chunk: Item, classify: seq<Sample> -> Verdict)
      returns (buffer: seq<Sample>, start: Option<real>)
      requires !chunk.Stop?
      modifies voiceDetectedQueue, flags
      ensures var s := VadState(audioBuffer, silenceStart, old(flags.voiceDetected), old(flags.speechEnded));
              Step(s, chunk, modelReady, classify, silenceTimeout).state == VadState(buffer, start, flags.voiceDetected, flags.speechEnded)
      ensures var s := VadState(audioBuffer, silenceStart, old(flags.voiceDetected), old(flags.speechEnded));
              voiceDetectedQueue.items == Offer(old(voiceDetectedQueue.items), voiceDetectedQueue.maxsize,
                                                Emitted(Step(s, chunk, modelReady, classify, silenceTimeout).emitted))
    {
      buffer, start := audioBuffer, silenceStart;
      if !chunk.Audio? || chunk.samples == [] {
        return;
      }
      buffer := buffer + chunk.samples;
      if |buffer| >= Window {
        if modelReady {
          var speechDict := classify(buffer);
          if speechDict == Speech {
            flags.voiceDetected := true;
            start := None;
            var _ := voiceDetectedQueue.PutNowait(Audio(buffer));
          } else if speechDict == NoSpeech {
            if flags.voiceDetected {
              if start.None? {
                start := Some(|buffer| as real / Rate);
              } else if |buffer| as real / Rate - start.value > silenceTimeout {
                flags.voiceDetected := false;
                flags.speechEnded := true;
              }
            }
          } else {
            var _ := voiceDetectedQueue.PutNowait(Audio(buffer));
          }
        } else {
          var _ := voiceDetectedQueue.PutNowait(Audio(buffer));
        }
        buffer := buffer[|buffer| - Overlap..];
      }
    }
  }
}
