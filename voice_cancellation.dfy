/** The utterance selector (voice_cancellation.py): voice windows are kept
    with a loudness score in a bounded list, and when the speech-ended flag is
    seen the loudest one is emitted and the list and the flag are cleared. */
module Selector {
  import opened Pipeline

  /** More entries than this trigger a trim ... */
  const MaxChunks := 100
  /** ... to this many of the most recent ones. */
  const KeptChunks := 50

  /** A buffered voice window and its loudness. The source scores a window by
      its root-mean-square amplitude (a float); the model takes the score as
      given, as an integer. */
  datatype Scored = Scored(chunk: seq<Sample>, score: int)

  /** The index Python's `max(entries, key=score)` picks: a maximal score, and
      on ties the earliest entry, since `max` only replaces its candidate with
      a strictly greater one. */
  function FirstMax(entries: seq<Scored>): (i: nat)
    requires entries != []
    ensures i < |entries|
    ensures forall j :: 0 <= j < |entries| ==> entries[j].score <= entries[i].score
    ensures forall j :: 0 <= j < i ==> entries[j].score < entries[i].score
    decreases |entries|
  {
    if |entries| == 1 then 0
    else
      var k := FirstMax(entries[..|entries| - 1]);
      if entries[|entries| - 1].score > entries[k].score then |entries| - 1 else k
  }

  /** The list after one window is added. `rms` is the score computation,
      `None` when it raises: then the window is kept with score 0 and the list
      is not trimmed. Otherwise, once the list holds more than 100 entries only
      the 50 most recent are kept. */
  function Append(chunks: seq<Scored>, chunk: seq<Sample>, rms: Option<int>): (r: seq<Scored>)
    ensures r != [] && r[|r| - 1] == Scored(chunk, if rms.Some? then rms.value else 0)
    ensures rms.Some? ==> |r| <= MaxChunks
    ensures rms.Some? && |chunks| + 1 > MaxChunks ==> r == (chunks + [r[|r| - 1]])[|chunks| + 1 - KeptChunks..]
    ensures (rms.None? || |chunks| + 1 <= MaxChunks) ==> r == chunks + [r[|r| - 1]]
  {
    match rms
    case None => chunks + [Scored(chunk, 0)]
    case Some(score) =>
      var l := chunks + [Scored(chunk, score)];
      if |l| > MaxChunks then l[|l| - KeptChunks..] else l
  }

  /** The selector's state between iterations: its local list and the shared
      `speech_ended` flag. */
  datatype SelectorState = SelectorState(chunks: seq<Scored>, speechEnded: bool)

  datatype StepResult = StepResult(state: SelectorState, emitted: Option<Item>)

  /** One iteration of `get_loudest_voice` on an item other than `None`. A
      non-array or empty window changes nothing. Any other window is appended
      first; then, if `speech_ended` is set, the loudest entry of the list
      (which includes this window) is emitted and the list and the flag are
      cleared. */
  function Step(s: SelectorState, item: Item, rms: seq<Sample> -> Option<int>): (r: StepResult)
    requires !item.Stop?
    ensures (!item.Audio? || item.samples == []) ==> r == StepResult(s, None)
    ensures !s.speechEnded ==> r.emitted.None? && !r.state.speechEnded
    ensures item.Audio? && item.samples != [] && !s.speechEnded ==>
              r.state.chunks == Append(s.chunks, item.samples, rms(item.samples))
    ensures item.Audio? && item.samples != [] && s.speechEnded ==>
              r.state == SelectorState([], false) &&
              var l := Append(s.chunks, item.samples, rms(item.samples));
              r.emitted == Some(Audio(l[FirstMax(l)].chunk))
  {
    if !item.Audio? || item.samples == [] then StepResult(s, None)
    else
      var l := Append(s.chunks, item.samples, rms(item.samples));
      if s.speechEnded then StepResult(SelectorState([], false), Some(Audio(l[FirstMax(l)].chunk)))
      else StepResult(SelectorState(l, false), None)
  }

  /** The window that arrives in the iteration that sees `speech_ended` is a
      candidate: the emitted window is at least as loud as it, and it is the
      one emitted when it is strictly louder than everything buffered before. */
  lemma ArrivingWindowIsCandidate(s: SelectorState, c: seq<Sample>, rms: seq<Sample> -> Option<int>)
    requires s.speechEnded && c != []
    ensures var l := Append(s.chunks, c, rms(c));
            var e := l[FirstMax(l)];
            e.score >= l[|l| - 1].score &&
            ((forall j :: 0 <= j < |l| - 1 ==> l[j].score < l[|l| - 1].score) ==> Step(s, Audio(c), rms).emitted == Some(Audio(c)))
  {
    var l := Append(s.chunks, c, rms(c));
    if forall j :: 0 <= j < |l| - 1 ==> l[j].score < l[|l| - 1].score {
      var i := FirstMax(l);
      assert i == |l| - 1;
    }
  }

  datatype RunResult = RunResult(state: SelectorState, emitted: seq<Item>)

  /** The state and the emitted windows after one run of the loop. */
  function Run(s: SelectorState, items: seq<Item>, rms: seq<Sample> -> Option<int>): RunResult
    requires forall j :: 0 <= j < |items| ==> !items[j].Stop?
    decreases |items|
  {
    if items == [] then RunResult(s, [])
    else
      var prev := Run(s, items[..|items| - 1], rms);
      var r := Step(prev.state, items[|items| - 1], rms);
      RunResult(r.state, prev.emitted + Emitted(r.emitted))
  }

  /** Nothing is emitted while `speech_ended` is false: the selector itself
      never sets the flag, so a run that starts with it clear emits nothing and
      ends with it clear. */
  lemma {:induction false} QuietUntilSpeechEnds(s: SelectorState, items: seq<Item>, rms: seq<Sample> -> Option<int>)
    requires forall j :: 0 <= j < |items| ==> !items[j].Stop?
    requires !s.speechEnded
    ensures Run(s, items, rms).emitted == [] && !Run(s, items, rms).state.speechEnded
  {
    if items != [] {
      QuietUntilSpeechEnds(s, items[..|items| - 1], rms);
    }
  }

  /** A set `speech_ended` is consumed by the first valid window and produces
      exactly one emission over the whole run; the run ends with the flag clear
      once any valid window arrived. */
  lemma {:induction false} OneEmissionPerSpeechEnd(s: SelectorState, items: seq<Item>, rms: seq<Sample> -> Option<int>)
    requires forall j :: 0 <= j < |items| ==> !items[j].Stop?
    requires s.speechEnded
    ensures Run(s, items, rms).state.speechEnded ==> Run(s, items, rms).emitted == [] && Run(s, items, rms).state == s
    ensures !Run(s, items, rms).state.speechEnded ==> |Run(s, items, rms).emitted| == 1
    ensures (exists j :: 0 <= j < |items| && items[j].Audio? && items[j].samples != []) ==>
              |Run(s, items, rms).emitted| == 1 && !Run(s, items, rms).state.speechEnded
  {
    if items != [] {
      var init := items[..|items| - 1];
      OneEmissionPerSpeechEnd(s, init, rms);
      var prev := Run(s, init, rms);
      if !prev.state.speechEnded {
        QuietUntilSpeechEnds(prev.state, [items[|items| - 1]], rms);
        assert [items[|items| - 1]][..0] == [];
      }
      if exists j :: 0 <= j < |items| && items[j].Audio? && items[j].samples != [] {
        var j :| 0 <= j < |items| && items[j].Audio? && items[j].samples != [];
        if j < |items| - 1 {
          assert init[j] == items[j];
        }
      }
    }
  }

  /** One more item handled: the run's state is that item's step applied to
      the state before it, and the windows offered grow by that step's window. */
  lemma RunStep(q0: seq<Item>, maxsize: nat, s0: SelectorState, input: seq<Item>, i: nat, rms: seq<Sample> -> Option<int>)
    requires i < |input| && !input[i].Stop?
    requires forall j :: 0 <= j < i ==> !input[j].Stop?
    ensures forall j :: 0 <= j < i + 1 ==> !input[j].Stop?
    ensures var prev := Run(s0, input[..i], rms);
            var step := Step(prev.state, input[i], rms);
            Run(s0, input[..i + 1], rms).state == step.state &&
            Offer(q0, maxsize, Run(s0, input[..i + 1], rms).emitted) ==
            Offer(Offer(q0, maxsize, prev.emitted), maxsize, Emitted(step.emitted))
  {
    NoStopExtend(input, i);
    assert input[..i + 1][..i] == input[..i];
    var prev := Run(s0, input[..i], rms);
    OfferEmitted(q0, maxsize, prev.emitted, Step(prev.state, input[i], rms).emitted);
  }

  /** `VoiceCancellation`: the queues it reads and writes and the shared flags. */
  class VoiceCancellation {
    const voiceDetectedQueue: Queue
    const voiceCancelledQueue: Queue
    const flags: FlagDict

    constructor (voiceDetectedQueue: Queue, voiceCancelledQueue: Queue, flags: FlagDict)
      ensures this.voiceDetectedQueue == voiceDetectedQueue && this.voiceCancelledQueue == voiceCancelledQueue
      ensures this.flags == flags
    {
      this.voiceDetectedQueue := voiceDetectedQueue;
      this.voiceCancelledQueue := voiceCancelledQueue;
      this.flags := flags;
    }

    /** `get_loudest_voice`: `input` is what successive `get` calls on the
        voice queue return. The loop ends at the first `None`. The list is a
        local of the loop and starts empty; the flag is the shared one. */
    method GetLoudestVoice(input: seq<Item>, rms: seq<Sample> -> Option<int>)
      modifies voiceCancelledQueue, flags
      ensures var r := Run(SelectorState([], old(flags.speechEnded)), UntilStop(input), rms);
              voiceCancelledQueue.items == Offer(old(voiceCancelledQueue.items), voiceCancelledQueue.maxsize, r.emitted) &&
              flags.speechEnded == r.state.speechEnded
      ensures flags.voiceDetected == old(flags.voiceDetected)
    {
      ghost var q0 := voiceCancelledQueue.items;
      ghost var s0 := SelectorState([], flags.speechEnded);
      var voiceChunks: seq<Scored> := [];
      var i := 0;
      while i < |input| && !input[i].Stop?
        invariant i <= |input| && forall j :: 0 <= j < i ==> !input[j].Stop?
        invariant flags.voiceDetected == old(flags.voiceDetected)
        invariant Run(s0, input[..i], rms).state == SelectorState(voiceChunks, flags.speechEnded)
        invariant voiceCancelledQueue.items == Offer(q0, voiceCancelledQueue.maxsize, Run(s0, input[..i], rms).emitted)
      {
        RunStep(q0, voiceCancelledQueue.maxsize, s0, input, i, rms);
        voiceChunks := HandleChunk(voiceChunks, input[i], rms);
        i := i + 1;
      }
      StopIndexBound(input, i);
      assert input[..i] == UntilStop(input);
    }

    /** The body of the loop of `get_loudest_voice` for one item. */
    method HandleChunk(voiceChunks: seq<Scored>, voiceDetectedChunk: Item, rms: seq<Sample> -> Option<int>)
      returns (chunks: seq<Scored>)
      requires !voiceDetectedChunk.Stop?
      modifies voiceCancelledQueue, flags
      ensures chunks == Step(SelectorState(voiceChunks, old(flags.speechEnded)), voiceDetectedChunk, rms).state.chunks
      ensures flags.speechEnded == Step(SelectorState(voiceChunks, old(flags.speechEnded)), voiceDetectedChunk, rms).state.speechEnded
      ensures voiceCancelledQueue.items == Offer(old(voiceCancelledQueue.items), voiceCancelledQueue.maxsize,
                                                 Emitted(Step(SelectorState(voiceChunks, old(flags.speechEnded)), voiceDetectedChunk, rms).emitted))
      ensures flags.voiceDetected == old(flags.voiceDetected)
    {
      chunks := voiceChunks;
      if voiceDetectedChunk.Audio? && voiceDetectedChunk.samples != [] {
        var rmsValue := rms(voiceDetectedChunk.samples);
        if rmsValue.Some? {
          chunks := chunks + [Scored(voiceDetectedChunk.samples, rmsValue.value)];
          if |chunks| > MaxChunks {
            chunks := chunks[|chunks| - KeptChunks..];
          }
        } else {
          chunks := chunks + [Scored(voiceDetectedChunk.samples, 0)];
        }
        assert chunks == Append(voiceChunks, voiceDetectedChunk.samples, rmsValue);
        if flags.speechEnded {
          if chunks != [] {
            var loudestChunk := chunks[FirstMax(chunks)].chunk;
            var _ := voiceCancelledQueue.PutNowait(Audio(loudestChunk));
          }
          chunks := [];
          flags.speechEnded := false;
        }
      }
    }
  }
}
