/** The transcription stage (speech_to_text.py): every valid audio segment
    yields exactly one item on the transcript queue, a stripped non-empty text
    or `None`. */
module Transcription {
  import opened Pipeline
  import opened Strings

  /** The transcript for one valid segment. `modelLoaded` is whether the
      Whisper model loaded at construction; `whisper` stands for
      `model.transcribe(...)["text"]`, `None` when that raises. A missing model,
      a raising model and a blank transcript all give `None` (`Stop`); otherwise
      the stripped text. */
  function Transcribe(segment: seq<Sample>, modelLoaded: bool, whisper: seq<Sample> -> Option<string>): (r: Item)
    ensures r.Stop? || r.Text?
    ensures r.Text? ==> r.text != "" && Strip(r.text) == r.text
    ensures !modelLoaded ==> r == Stop
    ensures modelLoaded && whisper(segment).None? ==> r == Stop
    ensures modelLoaded && whisper(segment).Some? ==>
              (r == Stop <==> IsBlank(whisper(segment).value)) &&
              (r.Text? ==> r.text == Strip(whisper(segment).value))
  {
    if modelLoaded then
      match whisper(segment)
      case None => Stop
      case Some(text) =>
        var transcript := Strip(text);
        StripIdempotent(text);
        if transcript != "" then Text(transcript) else Stop
    else Stop
  }

  /** One iteration of `segment_detection` on an item other than `None`: a
      non-array or empty segment gives nothing; any other gives exactly one
      item. */
  function Segment(item: Item, modelLoaded: bool, whisper: seq<Sample> -> Option<string>): (r: Option<Item>)
    requires !item.Stop?
    ensures r.Some? <==> item.Audio? && item.samples != []
    ensures r.Some? ==> r.value == Transcribe(item.samples, modelLoaded, whisper)
  {
    if !item.Audio? || item.samples == [] then None
    else Some(Transcribe(item.samples, modelLoaded, whisper))
  }

  /** The items queued for the segments of one run of the loop. */
  function SegmentAll(items: seq<Item>, modelLoaded: bool, whisper: seq<Sample> -> Option<string>): seq<Item>
    requires forall j :: 0 <= j < |items| ==> !items[j].Stop?
    decreases |items|
  {
    if items == [] then []
    else SegmentAll(items[..|items| - 1], modelLoaded, whisper) + Emitted(Segment(items[|items| - 1], modelLoaded, whisper))
  }

  /** The segments the loop accepts: non-empty arrays, in arrival order. */
  function ValidSegments(items: seq<Item>): (r: seq<seq<Sample>>)
    ensures forall k :: 0 <= k < |r| ==> r[k] != []
    decreases |items|
  {
    if items == [] then []
    else
      var last := items[|items| - 1];
      ValidSegments(items[..|items| - 1]) + (if last.Audio? && last.samples != [] then [last.samples] else [])
  }

  /** Exactly one transcript item per accepted segment, in order. */
  lemma {:induction false} OnePerSegment(items: seq<Item>, modelLoaded: bool, whisper: seq<Sample> -> Option<string>)
    requires forall j :: 0 <= j < |items| ==> !items[j].Stop?
    ensures |SegmentAll(items, modelLoaded, whisper)| == |ValidSegments(items)|
    ensures forall k :: 0 <= k < |ValidSegments(items)| ==>
              SegmentAll(items, modelLoaded, whisper)[k] == Transcribe(ValidSegments(items)[k], modelLoaded, whisper)
  {
    if items != [] {
      OnePerSegment(items[..|items| - 1], modelLoaded, whisper);
    }
  }

  /** Without a model every accepted segment produces `None` on the transcript
      queue. */
  lemma {:induction false} NoModelOnlySentinels(items: seq<Item>, whisper: seq<Sample> -> Option<string>)
    requires forall j :: 0 <= j < |items| ==> !items[j].Stop?
    ensures forall k :: 0 <= k < |SegmentAll(items, false, whisper)| ==> SegmentAll(items, false, whisper)[k] == Stop
  {
    OnePerSegment(items, false, whisper);
  }

  /** One more segment handled: the transcripts offered so far grow by that segment's result. */
  lemma SegmentAllStep(q0: seq<Item>, maxsize: nat, input: seq<Item>, i: nat, modelLoaded: bool, whisper: seq<Sample> -> Option<string>)
    requires i < |input| && !input[i].Stop?
    requires forall j :: 0 <= j < i ==> !input[j].Stop?
    ensures forall j :: 0 <= j < i + 1 ==> !input[j].Stop?
    ensures Offer(q0, maxsize, SegmentAll(input[..i + 1], modelLoaded, whisper)) ==
            Offer(Offer(q0, maxsize, SegmentAll(input[..i], modelLoaded, whisper)), maxsize, Emitted(Segment(input[i], modelLoaded, whisper)))
  {
    NoStopExtend(input, i);
    assert input[..i + 1][..i] == input[..i];
    OfferEmitted(q0, maxsize, SegmentAll(input[..i], modelLoaded, whisper), Segment(input[i], modelLoaded, whisper));
  }

  /** `SpeechToText`: the queues it reads and writes and whether Whisper loaded. */
  class SpeechToText {
    const voiceCancelledQueue: Queue
    const transcriptQueue: Queue
    const modelLoaded: bool

    constructor (voiceCancelledQueue: Queue, transcriptQueue: Queue, modelLoaded: bool)
      ensures this.voiceCancelledQueue == voiceCancelledQueue && this.transcriptQueue == transcriptQueue
      ensures this.modelLoaded == modelLoaded
    {
      this.voiceCancelledQueue := voiceCancelledQueue;
      this.transcriptQueue := transcriptQueue;
      this.modelLoaded := modelLoaded;
    }

    /** `segment_detection`: `input` is what successive `get` calls on the
        selected-voice queue return. The loop ends at the first `None`; the
        result of every segment before it is offered, in order, to the
        transcript queue. */
    method SegmentDetection(input: seq<Item>, whisper: seq<Sample> -> Option<string>)
      modifies transcriptQueue
      ensures transcriptQueue.items ==
                Offer(old(transcriptQueue.items), transcriptQueue.maxsize, SegmentAll(UntilStop(input), modelLoaded, whisper))
    {
      ghost var q0 := transcriptQueue.items;
      var i := 0;
      while i < |input| && !input[i].Stop?
        invariant i <= |input| && forall j :: 0 <= j < i ==> !input[j].Stop?
        invariant transcriptQueue.items == Offer(q0, transcriptQueue.maxsize, SegmentAll(input[..i], modelLoaded, whisper))
      {
        SegmentAllStep(q0, transcriptQueue.maxsize, input, i, modelLoaded, whisper);
        HandleSegment(input[i], whisper);
        i := i + 1;
      }
      StopIndexBound(input, i);
      assert input[..i] == UntilStop(input);
    }

    /** The body of the loop of `segment_detection` for one segment. */
    method HandleSegment(voiceSegment: Item, whisper: seq<Sample> -> Option<string>)
      requires !voiceSegment.Stop?
      modifies transcriptQueue
      ensures transcriptQueue.items ==
                Offer(old(transcriptQueue.items), transcriptQueue.maxsize, Emitted(Segment(voiceSegment, modelLoaded, whisper)))
    {
      if voiceSegment.Audio? && voiceSegment.samples != [] {
        if modelLoaded {
          var text := whisper(voiceSegment.samples);
          if text.Some? {
            var transcript := Strip(text.value);
            if transcript != "" {
              var _ := transcriptQueue.PutNowait(Text(transcript));
            } else {
              var _ := transcriptQueue.PutNowait(Stop);
            }
          } else {
            var _ := transcriptQueue.PutNowait(Stop);
          }
        } else {
          var _ := transcriptQueue.PutNowait(Stop);
        }
      }
    }
  }
}
