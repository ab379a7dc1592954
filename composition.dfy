/** Properties of two stages taken together: the transcription stage's
    output is the response stage's input, and both read Python's `None` as
    the end of the stream. */
module Composition {
  import opened Pipeline
  import opened Strings
  import Transcription
  import Agent

  /** A sequence reaches its first `None` no later than any `None` it holds. */
  lemma StopIndexAtMost(xs: seq<Item>, k: nat)
    requires k < |xs| && xs[k].Stop?
    ensures StopIndex(xs) <= k
  {
  }

  /** Transcripts that are all non-blank strings are all actionable, in
      order. */
  lemma {:induction false} AllActionable(items: seq<Item>)
    requires forall j :: 0 <= j < |items| ==> items[j].Text? && !IsBlank(items[j].text)
    ensures |Agent.Actionable(items)| == |items|
    ensures forall k :: 0 <= k < |items| ==> Agent.Actionable(items)[k] == items[k].text
    decreases |items|
  {
    if items != [] {
      var init := items[..|items| - 1];
      var last := items[|items| - 1];
      assert forall j :: 0 <= j < |init| ==> init[j] == items[j];
      AllActionable(init);
      assert Agent.Actionable(items) == Agent.Actionable(init) + [last.text];
    }
  }

  /** The `None` the transcription stage queues for a silent, failed or
      model-less segment is the response stage's shutdown sentinel: if the
      k-th accepted segment transcribes to `None`, the response stage answers
      at most the k transcripts before it, every one of them, in order, with
      the classifier's reply, and nothing after. */
  lemma SilentSegmentStopsAgent(items: seq<Item>, modelLoaded: bool, whisper: seq<Sample> -> Option<string>, k: nat)
    requires forall j :: 0 <= j < |items| ==> !items[j].Stop?
    requires k < |Transcription.ValidSegments(items)|
    requires Transcription.Transcribe(Transcription.ValidSegments(items)[k], modelLoaded, whisper) == Stop
    ensures var heard := UntilStop(Transcription.SegmentAll(items, modelLoaded, whisper));
            var replies := Agent.RespondAll(heard, Agent.Generator());
            |heard| <= k && |replies| == |heard| &&
            forall j :: 0 <= j < |heard| ==> heard[j].Text? && replies[j] == Text(Agent.GenerateResponse(heard[j].text))
  {
    var out := Transcription.SegmentAll(items, modelLoaded, whisper);
    Transcription.OnePerSegment(items, modelLoaded, whisper);
    StopIndexAtMost(out, k);
    var heard := UntilStop(out);
    forall j | 0 <= j < |heard|
      ensures heard[j].Text? && !IsBlank(heard[j].text)
    {
      assert heard[j] == out[j] == Transcription.Transcribe(Transcription.ValidSegments(items)[j], modelLoaded, whisper);
    }
    AllActionable(heard);
    Agent.RespondAllReal(heard);
  }

  /** Without a Whisper model the transcription stage's output starts with
      `None` as soon as one segment was accepted. */
  lemma NoModelStopsAtOnce(items: seq<Item>, whisper: seq<Sample> -> Option<string>)
    requires forall j :: 0 <= j < |items| ==> !items[j].Stop?
    requires Transcription.ValidSegments(items) != []
    ensures UntilStop(Transcription.SegmentAll(items, false, whisper)) == []
  {
    var out := Transcription.SegmentAll(items, false, whisper);
    Transcription.OnePerSegment(items, false, whisper);
    assert out[0] == Stop;
  }

  /** Hence without a model the response stage answers nothing. */
  lemma NoModelNoReplies(items: seq<Item>, whisper: seq<Sample> -> Option<string>)
    requires forall j :: 0 <= j < |items| ==> !items[j].Stop?
    requires Transcription.ValidSegments(items) != []
    ensures Agent.RespondAll(UntilStop(Transcription.SegmentAll(items, false, whisper)), Agent.Generator()) == []
  {
    NoModelStopsAtOnce(items, whisper);
  }
}
