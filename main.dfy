/** The per-call session (main.py): the inbound framer that cuts caller audio
    into 480-sample frames, the shutdown that offers `None` to every queue,
    the webhook answer and the registry of active calls. */
module Session {
  import opened Pipeline
  import Denoise
  import Vad
  import Selector
  import Transcription
  import Agent
  import Synthesis
  import Piopiy

  /** The frames `process_incoming_audio` cuts from `stream`, front to back:
      every whole 480-sample prefix. */
  function Frames(stream: seq<Sample>): (r: seq<Item>)
    ensures |r| == |stream| / Denoise.FrameSize
    ensures forall k :: 0 <= k < |r| ==>
              r[k] == Audio(stream[Denoise.FrameSize * k..Denoise.FrameSize * (k + 1)])
    decreases |stream|
  {
    if |stream| < Denoise.FrameSize then []
    else [Audio(stream[..Denoise.FrameSize])] + Frames(stream[Denoise.FrameSize..])
  }

  /** The samples of the audio items of `items`, concatenated. */
  function Flatten(items: seq<Item>): seq<Sample>
    decreases |items|
  {
    if items == [] then []
    else (if items[0].Audio? then items[0].samples else []) + Flatten(items[1..])
  }

  lemma {:induction false} FlattenAppend(xs: seq<Item>, ys: seq<Item>)
    ensures Flatten(xs + ys) == Flatten(xs) + Flatten(ys)
    decreases |xs|
  {
    if xs == [] {
      assert xs + ys == ys;
    } else {
      assert (xs + ys)[1..] == xs[1..] + ys;
      FlattenAppend(xs[1..], ys);
    }
  }

  /** Cutting the next frame off the buffer keeps the frames of the stream:
      they are those sent, then that frame, then those of the rest. */
  lemma FramesStep(stream: seq<Sample>, sent: seq<Item>, buffer: seq<Sample>)
    requires |buffer| >= Denoise.FrameSize
    requires Frames(stream) == sent + Frames(buffer)
    ensures Frames(stream) == (sent + [Audio(buffer[..Denoise.FrameSize])]) + Frames(buffer[Denoise.FrameSize..])
  {
    assert Frames(buffer) == [Audio(buffer[..Denoise.FrameSize])] + Frames(buffer[Denoise.FrameSize..]);
  }

  /** Cutting the next frame off the buffer keeps the samples of the stream:
      they are those sent, then that frame's, then the rest. */
  lemma FlattenStep(stream: seq<Sample>, sent: seq<Item>, buffer: seq<Sample>)
    requires |buffer| >= Denoise.FrameSize
    requires Flatten(sent) + buffer == stream
    ensures Flatten(sent + [Audio(buffer[..Denoise.FrameSize])]) + buffer[Denoise.FrameSize..] == stream
  {
    var frame := buffer[..Denoise.FrameSize];
    FlattenAppend(sent, [Audio(frame)]);
    assert Flatten([Audio(frame)]) == frame + Flatten([]);
    assert frame + buffer[Denoise.FrameSize..] == buffer;
  }

  /** Framing loses and invents nothing: every frame has 480 samples, the
      frames followed by the samples left over give back the stream, and what
      is left over is shorter than a frame. */
  lemma {:induction false} FramesConserve(stream: seq<Sample>)
    ensures forall k :: 0 <= k < |Frames(stream)| ==>
              Frames(stream)[k].Audio? && |Frames(stream)[k].samples| == Denoise.FrameSize
    ensures Denoise.FrameSize * |Frames(stream)| <= |stream|
    ensures Flatten(Frames(stream)) == stream[..Denoise.FrameSize * |Frames(stream)|]
    ensures |stream| - Denoise.FrameSize * |Frames(stream)| < Denoise.FrameSize
    decreases |stream|
  {
    if |stream| >= Denoise.FrameSize {
      var rest := stream[Denoise.FrameSize..];
      FramesConserve(rest);
      var n := |Frames(rest)|;
      assert Flatten(Frames(stream)) == stream[..Denoise.FrameSize] + Flatten(Frames(rest)) by {
        assert Frames(stream)[1..] == Frames(rest);
      }
      assert stream[..Denoise.FrameSize * (n + 1)] == stream[..Denoise.FrameSize] + rest[..Denoise.FrameSize * n];
    }
  }

  /** `VoiceAssistant`: one call's pipeline. */
  class VoiceAssistant {
    var audioBuffer: seq<Sample>
    const frameSize: nat := Denoise.FrameSize
    var shutdownFlag: bool
    const flags: FlagDict

    const rawAudioQueue: Queue
    const denoisedAudioQueue: Queue
    const voiceDetectedQueue: Queue
    const voiceCancelledQueue: Queue
    const llmResponseQueue: Queue
    const transcriptQueue: Queue
    const synthesizedAudioQueue: Queue

    const noiseCancellation: Denoise.NoiseCancellation
    const voiceActivityDetection: Vad.VoiceActivityDetection
    const voiceCancellation: Selector.VoiceCancellation
    const speechToText: Transcription.SpeechToText
    const textToSpeech: Synthesis.TextToSpeech
    const agentResponse: Agent.AgentResponse

    /** The seven queues, in the order `shutdown` visits them. */
    function Queues(): seq<Queue>
      reads this
    {
      [rawAudioQueue, denoisedAudioQueue, voiceDetectedQueue, voiceCancelledQueue,
       llmResponseQueue, transcriptQueue, synthesizedAudioQueue]
    }

    /** Every call owns seven distinct queues. */
    predicate Valid()
      reads this
    {
      forall i, j :: 0 <= i < j < |Queues()| ==> Queues()[i] != Queues()[j]
    }

    /** The constructor creates empty queues, the flags, and the six stages
        wired to them. `capacity` is the queues' `maxsize` (the source creates
        them unbounded, capacity 0); the other parameters say which native or
        ML collaborators loaded. Building the synthesis stage queues the
        welcome message. */
    constructor (capacity: nat, silenceTimeout: real, denoiserReady: bool, vadReady: bool, whisperLoaded: bool)
      ensures Valid() && !shutdownFlag && audioBuffer == []
      ensures fresh(flags) && !flags.speechEnded && !flags.voiceDetected
      ensures fresh(rawAudioQueue) && fresh(denoisedAudioQueue) && fresh(voiceDetectedQueue) && fresh(voiceCancelledQueue)
      ensures fresh(llmResponseQueue) && fresh(transcriptQueue) && fresh(synthesizedAudioQueue)
      ensures rawAudioQueue.maxsize == denoisedAudioQueue.maxsize == voiceDetectedQueue.maxsize == capacity
      ensures voiceCancelledQueue.maxsize == llmResponseQueue.maxsize == capacity
      ensures transcriptQueue.maxsize == synthesizedAudioQueue.maxsize == capacity
      ensures rawAudioQueue.items == denoisedAudioQueue.items == voiceDetectedQueue.items == []
      ensures voiceCancelledQueue.items == transcriptQueue.items == synthesizedAudioQueue.items == []
      // Only the welcome message is waiting, on the reply queue.
      ensures llmResponseQueue.items == Offer([], capacity, [Text(Synthesis.Welcome)])
      // Each stage reads and writes this session's queues and shares its flags.
      ensures noiseCancellation.rawAudioQueue == rawAudioQueue && noiseCancellation.denoisedAudioQueue == denoisedAudioQueue
      ensures noiseCancellation.ready == denoiserReady
      ensures voiceActivityDetection.denoisedAudioQueue == denoisedAudioQueue
      ensures voiceActivityDetection.voiceDetectedQueue == voiceDetectedQueue && voiceActivityDetection.flags == flags
      ensures voiceActivityDetection.silenceTimeout == silenceTimeout && voiceActivityDetection.modelReady == vadReady
      ensures voiceCancellation.voiceDetectedQueue == voiceDetectedQueue
      ensures voiceCancellation.voiceCancelledQueue == voiceCancelledQueue && voiceCancellation.flags == flags
      ensures speechToText.voiceCancelledQueue == voiceCancelledQueue && speechToText.transcriptQueue == transcriptQueue
      ensures speechToText.modelLoaded == whisperLoaded
      ensures agentResponse.transcriptQueue == transcriptQueue && agentResponse.llmResponseQueue == llmResponseQueue
      ensures textToSpeech.llmResponseQueue == llmResponseQueue && textToSpeech.synthesizedAudioQueue == synthesizedAudioQueue
    {
      audioBuffer := [];
      shutdownFlag := false;
      // The synthesis stage is built first, as it is the one that writes to
      // a queue; the stages are otherwise independent of each other.
      var llm := new Queue(capacity);
      var synthesized := new Queue(capacity);
      textToSpeech := new Synthesis.TextToSpeech(llm, synthesized);
      var f := new FlagDict();
      var raw := new Queue(capacity);
      var denoised := new Queue(capacity);
      var detected := new Queue(capacity);
      var cancelled := new Queue(capacity);
      var transcripts := new Queue(capacity);
      ghost var qs := [raw, denoised, detected, cancelled, llm, transcripts, synthesized];
      assert forall i, j :: 0 <= i < j < |qs| ==> qs[i] != qs[j];
      flags := f;
      rawAudioQueue, denoisedAudioQueue, voiceDetectedQueue := raw, denoised, detected;
      voiceCancelledQueue, llmResponseQueue, transcriptQueue := cancelled, llm, transcripts;
      synthesizedAudioQueue := synthesized;
      var nc, vad, vc, stt, agent :=
        NewStages(raw, denoised, detected, cancelled, transcripts, llm, f, silenceTimeout, denoiserReady, vadReady, whisperLoaded);
      noiseCancellation, voiceActivityDetection, voiceCancellation, speechToText, agentResponse := nc, vad, vc, stt, agent;
      new;
      assert Queues() == qs;
    }

    /** The stages other than synthesis, each wired to the queues it reads
        and writes, in the order of the pipeline. */
    static method NewStages(raw: Queue, denoised: Queue, detected: Queue, cancelled: Queue, transcripts: Queue, llm: Queue,
                            f: FlagDict, silenceTimeout: real, denoiserReady: bool, vadReady: bool, whisperLoaded: bool)
      returns (nc: Denoise.NoiseCancellation, vad: Vad.VoiceActivityDetection, vc: Selector.VoiceCancellation,
               stt: Transcription.SpeechToText, agent: Agent.AgentResponse)
      ensures nc.rawAudioQueue == raw && nc.denoisedAudioQueue == denoised && nc.ready == denoiserReady
      ensures vad.denoisedAudioQueue == denoised && vad.voiceDetectedQueue == detected && vad.flags == f
      ensures vad.silenceTimeout == silenceTimeout && vad.modelReady == vadReady
      ensures vc.voiceDetectedQueue == detected && vc.voiceCancelledQueue == cancelled && vc.flags == f
      ensures stt.voiceCancelledQueue == cancelled && stt.transcriptQueue == transcripts && stt.modelLoaded == whisperLoaded
      ensures agent.transcriptQueue == transcripts && agent.llmResponseQueue == llm
    {
      nc := new Denoise.NoiseCancellation(raw, denoised, denoiserReady);
      vad := new Vad.VoiceActivityDetection(denoised, detected, silenceTimeout, f, vadReady);
      vc := new Selector.VoiceCancellation(detected, cancelled, f);
      stt := new Transcription.SpeechToText(cancelled, transcripts, whisperLoaded);
      agent := new Agent.AgentResponse(llm, transcripts);
    }

    /** `process_incoming_audio`. After shutdown it changes nothing. Otherwise
        the audio is appended to the buffer and whole frames are offered from
        its front until fewer than 480 samples remain or the raw queue refuses
        one; the refused frame stays at the head of the buffer. */
    method ProcessIncomingAudio(audio: seq<Sample>)
      modifies this, rawAudioQueue
      ensures shutdownFlag == old(shutdownFlag)
      ensures old(shutdownFlag) ==> audioBuffer == old(audioBuffer) && rawAudioQueue.items == old(rawAudioQueue.items)
      // The queue only grows; the frames it receives, followed by the frames
      // still in the buffer, are the frames of the old buffer and the new
      // audio, and their samples followed by the buffer are that stream.
      ensures !old(shutdownFlag) ==>
                var stream := old(audioBuffer) + audio;
                |old(rawAudioQueue.items)| <= |rawAudioQueue.items| &&
                rawAudioQueue.items[..|old(rawAudioQueue.items)|] == old(rawAudioQueue.items) &&
                Frames(stream) == rawAudioQueue.items[|old(rawAudioQueue.items)|..] + Frames(audioBuffer) &&
                Flatten(rawAudioQueue.items[|old(rawAudioQueue.items)|..]) + audioBuffer == stream
      // A whole frame is left in the buffer only when the queue refused it.
      ensures !old(shutdownFlag) && |audioBuffer| >= frameSize ==> rawAudioQueue.Full()
    {
      if shutdownFlag {
        return;
      }
      ghost var q0 := rawAudioQueue.items;
      audioBuffer := audioBuffer + audio;
      ghost var stream := audioBuffer;
      ghost var sent: seq<Item> := [];
      while |audioBuffer| >= frameSize
        invariant shutdownFlag == old(shutdownFlag)
        invariant Frames(stream) == sent + Frames(audioBuffer)
        invariant Flatten(sent) + audioBuffer == stream
        invariant rawAudioQueue.items == q0 + sent
        decreases |audioBuffer|
      {
        var frame := audioBuffer[..frameSize];
        FramesStep(stream, sent, audioBuffer);
        FlattenStep(stream, sent, audioBuffer);
        var ok := rawAudioQueue.PutNowait(Audio(frame));
        if !ok {
          assert rawAudioQueue.items[|q0|..] == sent;
          return;
        }
        sent := sent + [Audio(frame)];
        audioBuffer := audioBuffer[frameSize..];
      }
      assert rawAudioQueue.items[|q0|..] == sent;
    }

    /** `shutdown` (flag and sentinels): sets the shutdown flag and offers
        exactly one `None` to each of the seven queues; a refused offer is
        ignored. */
    method Shutdown()
      requires Valid()
      modifies this, Queues()
      ensures shutdownFlag && audioBuffer == old(audioBuffer)
      ensures forall k :: 0 <= k < |Queues()| ==>
                Queues()[k].items == Offer(old(Queues()[k].items), Queues()[k].maxsize, [Stop])
    {
      var queuesToTerminate := Queues();
      shutdownFlag := true;
      for i := 0 to |queuesToTerminate|
        invariant shutdownFlag && audioBuffer == old(audioBuffer)
        invariant forall k :: 0 <= k < i ==>
                    queuesToTerminate[k].items == Offer(old(queuesToTerminate[k].items), queuesToTerminate[k].maxsize, [Stop])
        invariant forall k :: i <= k < |queuesToTerminate| ==> queuesToTerminate[k].items == old(queuesToTerminate[k].items)
      {
        var _ := queuesToTerminate[i].PutNowait(Stop);
      }
      assert queuesToTerminate == Queues();
    }
  }

  /** `voice_webhook`: the PCMO answer holds exactly one stream action that
      points the telephony service at this server's `/media` WebSocket and
      asks it to stream the caller's side. `websocketBaseUrl` is the
      deployment's public WebSocket address, a configuration value. */
  method VoiceWebhook(websocketBaseUrl: string) returns (r: Piopiy.Pcmo)
    ensures |r.actions| == 1
    ensures r.actions[0] == Piopiy.ActionRecord("stream", websocketBaseUrl + "/media", map["listen_mode" := "caller"])
  {
    var action := new Piopiy.Action();
    var fullWsUrl := websocketBaseUrl + "/media";
    action.Stream(fullWsUrl, Some(map["listen_mode" := "caller"]));
    r := action.PCMO();
  }

  /** The `active_calls` dictionary: call id to that call's pipeline. */
  class CallRegistry {
    var activeCalls: map<string, VoiceAssistant>

    constructor ()
      ensures activeCalls == map[]
    {
      activeCalls := map[];
    }

    /** Every registered pipeline owns seven distinct queues. */
    predicate Valid()
      reads this, activeCalls.Values
    {
      forall sid :: sid in activeCalls ==> activeCalls[sid].Valid()
    }

    /** `active_calls[call_sid] = va` once the pipeline has started. */
    method Register(callSid: string, va: VoiceAssistant)
      requires Valid() && va.Valid()
      modifies this
      ensures Valid()
      ensures activeCalls == old(activeCalls)[callSid := va]
    {
      activeCalls := activeCalls[callSid := va];
    }

    /** The `finally` block of the connection handler: a registered call is
        removed and its pipeline shut down; a call that is not (or no longer)
        registered is left alone, so a pipeline is shut down at most once
        through the registry. */
    method Release(callSid: string) returns (released: bool)
      requires Valid()
      modifies this
      modifies if callSid in activeCalls then {activeCalls[callSid]} else {}
      modifies if callSid in activeCalls then activeCalls[callSid].Queues() else []
      ensures Valid()
      ensures released == (callSid in old(activeCalls))
      ensures activeCalls == old(activeCalls) - {callSid}
      ensures released ==> old(activeCalls[callSid]).shutdownFlag
      ensures released ==> var va := old(activeCalls[callSid]);
                forall k :: 0 <= k < |va.Queues()| ==>
                  va.Queues()[k].items == Offer(old(va.Queues()[k].items), va.Queues()[k].maxsize, [Stop])
    {
      released := callSid in activeCalls;
      if released {
        var vaInstance := activeCalls[callSid];
        activeCalls := activeCalls - {callSid};
        vaInstance.Shutdown();
      }
    }
  }
}
