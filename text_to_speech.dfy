/** The synthesis stage (text_to_speech.py): a welcome message queued at
    construction, the validation and truncation of the text sent to the
    speech service, the interpretation of its answer, and the loop that queues
    at most one audio payload per reply. */
module Synthesis {
  import opened Pipeline
  import opened Strings

  const Welcome := "Welcome to Titan Customer Care Support. May I know your name please?"

  /** The longest text sent to the speech service. */
  const MaxChars := 5000

  /** What the HTTP request gives back: a status code and the `audioContent`
      field of the decoded body (`None` when absent), or `Failed` when the
      request times out, fails, or its body is not JSON. */
  datatype HttpReply = HttpReply(status: int, audioContent: Option<string>) | Failed

  /** The text `synthesize_speech` sends, or `None` when it returns before any
      request because the text is blank. The text sent is the stripped input cut
      to at most `MaxChars` characters. */
  function RequestText(text: string): (r: Option<string>)
    ensures r.None? <==> IsBlank(text)
    ensures r.Some? ==> r.value != "" && |r.value| <= MaxChars
    ensures r.Some? ==> |r.value| <= |Strip(text)| && r.value == Strip(text)[..|r.value|]
    ensures r.Some? && |Strip(text)| <= MaxChars ==> r.value == Strip(text)
    ensures r.Some? && |Strip(text)| > MaxChars ==> |r.value| == MaxChars
  {
    if text == "" || Strip(text) == "" then None
    else
      var t := Strip(text);
      Some(if |t| > MaxChars then t[..MaxChars] else t)
  }

  /** `synthesize_speech`: `post` stands for the HTTP request carrying the text.
      The result is the audio payload, present only when the request was made,
      answered with status 200 and a non-empty `audioContent`. */
  function SynthesizeSpeech(text: string, post: string -> HttpReply): (r: Option<string>)
    ensures IsBlank(text) ==> r.None?
    ensures r.Some? ==> r.value != "" && RequestText(text).Some? &&
                        post(RequestText(text).value) == HttpReply(200, Some(r.value))
    ensures (RequestText(text).Some? && post(RequestText(text).value).HttpReply? &&
             post(RequestText(text).value).status != 200) ==> r.None?
    ensures RequestText(text).Some? && post(RequestText(text).value) == HttpReply(200, None) ==> r.None?
    // A 200 reply with a non-empty `audioContent` gives exactly that payload.
    ensures RequestText(text).Some? && post(RequestText(text).value).HttpReply? &&
            post(RequestText(text).value).status == 200 &&
            post(RequestText(text).value).audioContent.Some? && post(RequestText(text).value).audioContent.value != "" ==>
              r == post(RequestText(text).value).audioContent
  {
    match RequestText(text)
    case None => None
    case Some(t) =>
      match post(t)
      case Failed => None
      case HttpReply(status, content) =>
        if status == 200 && content.Some? && content.value != "" then Some(content.value) else None
  }

  /** One iteration of `speech_synthesize` on an item other than `None`: a
      non-string or blank reply is skipped without a request; otherwise at most
      one audio payload is queued, exactly when synthesis returns one. */
  function Speak(item: Item, post: string -> HttpReply): (r: Option<Item>)
    requires !item.Stop?
    ensures (!item.Text? || IsBlank(item.text)) ==> r.None?
    ensures item.Text? ==> (r.Some? <==> SynthesizeSpeech(item.text, post).Some?)
    ensures r.Some? ==> r == Some(Text(SynthesizeSpeech(item.text, post).value)) && r.value.text != ""
  {
    if !item.Text? || Strip(item.text) == "" then None
    else
      match SynthesizeSpeech(item.text, post)
      case None => None
      case Some(audio) => Some(Text(audio))
  }

  /** The audio payloads queued for the replies of one run of the loop. */
  function SpeakAll(items: seq<Item>, post: string -> HttpReply): seq<Item>
    requires forall j :: 0 <= j < |items| ==> !items[j].Stop?
    decreases |items|
  {
    if items == [] then []
    else SpeakAll(items[..|items| - 1], post) + Emitted(Speak(items[|items| - 1], post))
  }

  /** One more reply handled: the payloads offered so far grow by that
      reply's payload. */
  lemma SpeakAllStep(q0: seq<Item>, maxsize: nat, input: seq<Item>, i: nat, post: string -> HttpReply)
    requires i < |input| && !input[i].Stop?
    requires forall j :: 0 <= j < i ==> !input[j].Stop?
    ensures forall j :: 0 <= j < i + 1 ==> !input[j].Stop?
    ensures Offer(q0, maxsize, SpeakAll(input[..i + 1], post)) ==
            Offer(Offer(q0, maxsize, SpeakAll(input[..i], post)), maxsize, Emitted(Speak(input[i], post)))
  {
    NoStopExtend(input, i);
    assert input[..i + 1][..i] == input[..i];
    OfferEmitted(q0, maxsize, SpeakAll(input[..i], post), Speak(input[i], post));
  }

  /** The replies that reach the speech service: non-blank strings. */
  function Spoken(items: seq<Item>): seq<string>
    decreases |items|
  {
    if items == [] then []
    else
      var last := items[|items| - 1];
      Spoken(items[..|items| - 1]) + (if last.Text? && !IsBlank(last.text) then [last.text] else [])
  }

  /** At most one payload per reply: a run queues no more audio than it saw
      non-blank replies, and none at all when every request fails. */
  lemma {:induction false} AtMostOnePerReply(items: seq<Item>, post: string -> HttpReply)
    requires forall j :: 0 <= j < |items| ==> !items[j].Stop?
    ensures |SpeakAll(items, post)| <= |Spoken(items)|
    ensures (forall t :: post(t) == Failed) ==> SpeakAll(items, post) == []
  {
    if items != [] {
      AtMostOnePerReply(items[..|items| - 1], post);
    }
  }

  /** `TextToSpeech`: the queues it reads and writes. */
  class TextToSpeech {
    const llmResponseQueue: Queue
    const synthesizedAudioQueue: Queue

    /** The constructor offers the welcome message to the reply queue, so the
        caller hears it first; a full queue only loses the message. */
    constructor (llmResponseQueue: Queue, synthesizedAudioQueue: Queue)
      modifies llmResponseQueue
      ensures this.llmResponseQueue == llmResponseQueue && this.synthesizedAudioQueue == synthesizedAudioQueue
      ensures llmResponseQueue.items == Offer(old(llmResponseQueue.items), llmResponseQueue.maxsize, [Text(Welcome)])
    {
      this.llmResponseQueue := llmResponseQueue;
      this.synthesizedAudioQueue := synthesizedAudioQueue;
      new;
      var _ := llmResponseQueue.PutNowait(Text(Welcome));
    }

    /** `speech_synthesize`: `input` is what successive `get` calls on the
        reply queue return. The loop ends at the first `None`; the audio for
        every reply before it is offered, in order, to the audio queue. */
    method SpeechSynthesize(input: seq<Item>, post: string -> HttpReply)
      modifies synthesizedAudioQueue
      ensures synthesizedAudioQueue.items ==
                Offer(old(synthesizedAudioQueue.items), synthesizedAudioQueue.maxsize, SpeakAll(UntilStop(input), post))
    {
      ghost var q0 := synthesizedAudioQueue.items;
      var i := 0;
      while i < |input| && !input[i].Stop?
        invariant i <= |input| && forall j :: 0 <= j < i ==> !input[j].Stop?
        invariant synthesizedAudioQueue.items == Offer(q0, synthesizedAudioQueue.maxsize, SpeakAll(input[..i], post))
      {
        SpeakAllStep(q0, synthesizedAudioQueue.maxsize, input, i, post);
        HandleReply(input[i], post);
        i := i + 1;
      }
      StopIndexBound(input, i);
      assert input[..i] == UntilStop(input);
    }

    /** The body of the loop of `speech_synthesize` for one reply. */
    method HandleReply(llmResponse: Item, post: string -> HttpReply)
      requires !llmResponse.Stop?
      modifies synthesizedAudioQueue
      ensures synthesizedAudioQueue.items ==
                Offer(old(synthesizedAudioQueue.items), synthesizedAudioQueue.maxsize, Emitted(Speak(llmResponse, post)))
    {
      if llmResponse.Text? && Strip(llmResponse.text) != "" {
        var base64Audio := SynthesizeSpeech(llmResponse.text, post);
        if base64Audio.Some? {
          var _ := synthesizedAudioQueue.PutNowait(Text(base64Audio.value));
        }
      }
    }
  }
}
