/** The response stage (agent_response.py): a fixed keyword classifier that
    picks a canned reply, and the loop that turns transcripts into replies. */
module Agent {
  import opened Pipeline
  import opened Strings

  const Greeting := "Hello! How can I help you today?"
  const NameReply := "I'm your virtual assistant. What's your name?"
  const HelpReply := "I'm here to help! What do you need assistance with?"
  const ThanksReply := "You're welcome! Is there anything else I can help you with?"
  const GoodbyeReply := "Goodbye! Have a great day!"
  const WeatherReply := "I don't have access to current weather information, but you can check a weather app for the latest forecast."
  const TimeReply := "I don't have access to the current time, but you can check your device's clock."
  const DefaultReply := "That's interesting! Tell me more about that."

  /** The reply queued when generating a response raises. */
  const Fallback := "I'm sorry, I didn't understand that. Could you please repeat?"

  /** `generate_response`: the lower-cased transcript is matched against the
      keywords in a fixed order, by substring, and the first rule that matches
      gives the reply. */
  function GenerateResponse(transcript: string): (r: string)
    ensures r != ""
    ensures r in Replies()
  {
    Classify(Lower(transcript))
  }

  /** The if/elif chain of `generate_response` applied to the lower-cased text. */
  function Classify(t: string): (r: string)
    ensures r in Replies()
  {
    if Contains(t, "hello") || Contains(t, "hi") then Greeting
    else if Contains(t, "name") then NameReply
    else if Contains(t, "help") then HelpReply
    else if Contains(t, "thank") then ThanksReply
    else if Contains(t, "bye") || Contains(t, "goodbye") then GoodbyeReply
    else if Contains(t, "weather") then WeatherReply
    else if Contains(t, "time") then TimeReply
    else DefaultReply
  }

  /** Every reply `generate_response` can give. */
  function Replies(): seq<string> {
    [Greeting, NameReply, HelpReply, ThanksReply, GoodbyeReply, WeatherReply, TimeReply, DefaultReply]
  }

  /** A reference statement of the classifier as data: a rule fires when the
      text contains any of its keywords, and the first rule that fires wins. */
  datatype Rule = Rule(keywords: seq<string>, reply: string)

  const Rules: seq<Rule> := [
    Rule(["hello", "hi"], Greeting),
    Rule(["name"], NameReply),
    Rule(["help"], HelpReply),
    Rule(["thank"], ThanksReply),
    Rule(["bye", "goodbye"], GoodbyeReply),
    Rule(["weather"], WeatherReply),
    Rule(["time"], TimeReply)
  ]

  /** Some keyword of `keywords` occurs in `text`. */
  predicate AnyOccurs(text: string, keywords: seq<string>) {
    keywords != [] && (Contains(text, keywords[0]) || AnyOccurs(text, keywords[1..]))
  }

  predicate Fires(rule: Rule, text: string) {
    AnyOccurs(text, rule.keywords)
  }

  /** The reply of the first rule that fires on `text`, or `default`. */
  function FirstMatch(rules: seq<Rule>, text: string, default: string): (r: string)
    ensures r == default || exists i :: 0 <= i < |rules| && r == rules[i].reply
  {
    if rules == [] then default
    else if Fires(rules[0], text) then rules[0].reply
    else FirstMatch(rules[1..], text, default)
  }

  /** `generate_response` is exactly "first rule that fires on the
      lower-cased transcript, else the default reply". */
  lemma {:induction false} GenerateIsFirstMatch(transcript: string)
    ensures GenerateResponse(transcript) == FirstMatch(Rules, Lower(transcript), DefaultReply)
  {
    var t := Lower(transcript);
    var d := DefaultReply;
    var rs := Rules;
    PairFires(t, "hello", "hi", Greeting);
    PairFires(t, "bye", "goodbye", GoodbyeReply);
    SingleFires(t, "name", NameReply);
    SingleFires(t, "help", HelpReply);
    SingleFires(t, "thank", ThanksReply);
    SingleFires(t, "weather", WeatherReply);
    SingleFires(t, "time", TimeReply);
    assert FirstMatch(rs[7..], t, d) == d;
    assert FirstMatch(rs[6..], t, d) == if Contains(t, "time") then TimeReply else d;
    assert FirstMatch(rs[5..], t, d) == if Contains(t, "weather") then WeatherReply else FirstMatch(rs[6..], t, d);
    assert FirstMatch(rs[4..], t, d) ==
           if Contains(t, "bye") || Contains(t, "goodbye") then GoodbyeReply else FirstMatch(rs[5..], t, d);
    assert FirstMatch(rs[3..], t, d) == if Contains(t, "thank") then ThanksReply else FirstMatch(rs[4..], t, d);
    assert FirstMatch(rs[2..], t, d) == if Contains(t, "help") then HelpReply else FirstMatch(rs[3..], t, d);
    assert FirstMatch(rs[1..], t, d) == if Contains(t, "name") then NameReply else FirstMatch(rs[2..], t, d);
    assert FirstMatch(rs, t, d) ==
           if Contains(t, "hello") || Contains(t, "hi") then Greeting else FirstMatch(rs[1..], t, d);
  }

  /** A rule with one keyword fires when it occurs. */
  lemma SingleFires(t: string, a: string, reply: string)
    ensures Fires(Rule([a], reply), t) <==> Contains(t, a)
  {
    assert [a][1..] == [];
    assert !AnyOccurs(t, []);
  }

  /** A rule with two keywords fires when either occurs. */
  lemma PairFires(t: string, a: string, b: string, reply: string)
    ensures Fires(Rule([a, b], reply), t) <==> Contains(t, a) || Contains(t, b)
  {
    var k := [a, b];
    assert k[1..] == [b];
    assert k[1..][1..] == [];
    assert !AnyOccurs(t, []);
    assert AnyOccurs(t, [b]) <==> Contains(t, b);
    assert AnyOccurs(t, k) <==> Contains(t, a) || AnyOccurs(t, [b]);
  }

  /** Matching ignores the case of ASCII letters: the reply depends only on the
      lower-cased transcript. */
  lemma CaseInsensitive(transcript: string)
    ensures GenerateResponse(transcript) == GenerateResponse(Lower(transcript))
  {
    LowerIdempotent(transcript);
    assert Lower(Lower(transcript)) == Lower(transcript);
  }

  /** Two transcripts that differ only in letter case get the same reply. */
  lemma SameLowerSameReply(a: string, b: string)
    requires Lower(a) == Lower(b)
    ensures GenerateResponse(a) == GenerateResponse(b)
  {
  }

  /** Matching is by substring, not by word: "this" contains "hi" and is
      greeted. */
  lemma SubstringNotWord()
    ensures GenerateResponse("this") == Greeting
  {
    assert Lower("this") == "this";
    assert OccursAt("this", "hi", 1);
  }

  /** The keyword "goodbye" adds nothing: every text that contains it already
      contains "bye". */
  lemma GoodbyeImpliesBye(t: string)
    requires Contains(t, "goodbye")
    ensures Contains(t, "bye")
  {
    assert OccursAt("goodbye", "bye", 4);
    ContainsTransitive(t, "goodbye", "bye");
  }

  /** One iteration of `process_and_respond` on an item other than `None`.
      `generate` stands for the call to the generator: `None` when it raises.
      A non-string or blank transcript is skipped; otherwise exactly one reply
      is queued, the generated one (when non-empty) or the fixed fallback. */
  function Respond(item: Item, generate: string -> Option<string>): (r: Option<Item>)
    requires !item.Stop?
    ensures (!item.Text? || IsBlank(item.text)) ==> r.None?
    ensures r.Some? ==> r.value.Text? && r.value.text != ""
    ensures item.Text? && !IsBlank(item.text) && generate(item.text).None? ==> r == Some(Text(Fallback))
    ensures item.Text? && !IsBlank(item.text) && generate(item.text).Some? ==>
              r == (if generate(item.text).value == "" then None else Some(Text(generate(item.text).value)))
  {
    if !item.Text? || Strip(item.text) == "" then None
    else match generate(item.text)
      case None => Some(Text(Fallback))
      case Some(response) => if response != "" then Some(Text(response)) else None
  }

  /** The generator the stage actually calls: `generate_response`, which never
      raises. */
  function Generator(): string -> Option<string> {
    t => Some(GenerateResponse(t))
  }

  /** With the real generator, every non-blank transcript gets exactly the
      classifier's reply and the fallback is never used. */
  lemma RealGeneratorNeverFallsBack(transcript: string)
    requires !IsBlank(transcript)
    ensures Respond(Text(transcript), Generator()) == Some(Text(GenerateResponse(transcript)))
  {
  }

  /** The replies queued for the transcripts of one run of the loop. */
  function RespondAll(items: seq<Item>, generate: string -> Option<string>): (r: seq<Item>)
    requires forall j :: 0 <= j < |items| ==> !items[j].Stop?
    decreases |items|
  {
    if items == [] then []
    else RespondAll(items[..|items| - 1], generate) + Emitted(Respond(items[|items| - 1], generate))
  }

  /** The transcripts that get a reply: strings that are not blank. */
  function Actionable(items: seq<Item>): (r: seq<string>)
    decreases |items|
  {
    if items == [] then []
    else
      var last := items[|items| - 1];
      Actionable(items[..|items| - 1]) + (if last.Text? && !IsBlank(last.text) then [last.text] else [])
  }

  /** With the real generator the stage answers every actionable transcript,
      once, in order, with the classifier's reply. */
  lemma {:induction false} RespondAllReal(items: seq<Item>)
    requires forall j :: 0 <= j < |items| ==> !items[j].Stop?
    ensures |RespondAll(items, Generator())| == |Actionable(items)|
    ensures forall k :: 0 <= k < |Actionable(items)| ==>
              RespondAll(items, Generator())[k] == Text(GenerateResponse(Actionable(items)[k]))
  {
    if items != [] {
      RespondAllReal(items[..|items| - 1]);
    }
  }

  /** One more transcript handled: the replies offered so far grow by that transcript's reply. */
  lemma RespondAllStep(q0: seq<Item>, maxsize: nat, input: seq<Item>, i: nat, generate: string -> Option<string>)
    requires i < |input| && !input[i].Stop?
    requires forall j :: 0 <= j < i ==> !input[j].Stop?
    ensures forall j :: 0 <= j < i + 1 ==> !input[j].Stop?
    ensures Offer(q0, maxsize, RespondAll(input[..i + 1], generate)) ==
            Offer(Offer(q0, maxsize, RespondAll(input[..i], generate)), maxsize, Emitted(Respond(input[i], generate)))
  {
    NoStopExtend(input, i);
    assert input[..i + 1][..i] == input[..i];
    OfferEmitted(q0, maxsize, RespondAll(input[..i], generate), Respond(input[i], generate));
  }

  /** `AgentResponse`: the queues it reads and writes. */
  class AgentResponse {
    const llmResponseQueue: Queue
    const transcriptQueue: Queue

    constructor (llmResponseQueue: Queue, transcriptQueue: Queue)
      ensures this.llmResponseQueue == llmResponseQueue && this.transcriptQueue == transcriptQueue
    {
      this.llmResponseQueue := llmResponseQueue;
      this.transcriptQueue := transcriptQueue;
    }

    /** `process_and_respond`: `input` is what successive `get` calls on the
        transcript queue return. The loop ends at the first `None`; every
        reply before it is offered, in order, to the response queue. */
    method ProcessAndRespond(input: seq<Item>, generate: string -> Option<string>)
      modifies llmResponseQueue
      ensures llmResponseQueue.items ==
                Offer(old(llmResponseQueue.items), llmResponseQueue.maxsize, RespondAll(UntilStop(input), generate))
    {
      ghost var q0 := llmResponseQueue.items;
      var i := 0;
      while i < |input| && !input[i].Stop?
        invariant i <= |input| && forall j :: 0 <= j < i ==> !input[j].Stop?
        invariant llmResponseQueue.items == Offer(q0, llmResponseQueue.maxsize, RespondAll(input[..i], generate))
      {
        RespondAllStep(q0, llmResponseQueue.maxsize, input, i, generate);
        HandleTranscript(input[i], generate);
        i := i + 1;
      }
      StopIndexBound(input, i);
      assert input[..i] == UntilStop(input);
    }

    /** The body of the loop of `process_and_respond` for one transcript. */
    method HandleTranscript(transcript: Item, generate: string -> Option<string>)
      requires !transcript.Stop?
      modifies llmResponseQueue
      ensures llmResponseQueue.items ==
                Offer(old(llmResponseQueue.items), llmResponseQueue.maxsize, Emitted(Respond(transcript, generate)))
    {
      if transcript.Text? && Strip(transcript.text) != "" {
        var response := generate(transcript.text);
        if response.Some? {
          if response.value != "" {
            var _ := llmResponseQueue.PutNowait(Text(response.value));
          }
        } else {
          var _ := llmResponseQueue.PutNowait(Text(Fallback));
        }
      }
    }
  }
}
