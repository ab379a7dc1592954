# Per-call voice agent pipeline, modelled in Dafny

The system answers phone calls with a voice agent. Each call gets its own
pipeline. Six worker loops are joined by queues:

raw audio → denoise → voice activity detection → loudest-utterance selector
→ speech to text → rule-based agent → text to speech

The stages share a small flag dictionary (`voice_detected`, `speech_ended`).
Python's `None` on a queue tells a stage to shut down. The session object cuts
caller audio into 480-sample frames, and its `shutdown` offers `None` to all
seven queues. A webhook answers the telephony service with a single "stream"
action, and a registry maps call ids to live pipelines.

The model is sequential. Each stage is a class whose loop method consumes
`input: seq<Item>`, the items its successive `get` calls return. The model
states the loop's effect on the output queue and on the shared flags. It
does so through a pure per-item `Step` function and a fold of it over the
items before the first `None`.

The helpers that follow the loops' bodies are lemmas about those folds. The
ML and HTTP collaborators are function parameters:

- `rnnoise` for RNNoise
- `classify` for the Silero iterator
- `rms` for the loudness score
- `whisper` for Whisper transcription
- `generate` for the response generator
- `post` for Google TTS

A queue is `queue.Queue(maxsize)`, where `maxsize == 0` means unbounded.
`Offer` gives its contents after a series of `put_nowait` calls with no
consumer running. The source creates every queue unbounded. The model takes
the capacity as a parameter so that the drop-on-full branches can be stated;
capacity 0 gives the source's behaviour.

Modules, one per source file:

| module | file |
|---|---|
| `Pipeline` | queue items, `Queue`, `FlagDict` |
| `Strings` | Python `strip`, `lower`, `in` |
| `Denoise` | `noise_cancellation.py` |
| `Vad` | `voice_activity_detection.py` |
| `Selector` | `voice_cancellation.py` |
| `Transcription` | `speech_to_text.py` |
| `Agent` | `agent_response.py` |
| `Synthesis` | `text_to_speech.py` |
| `Piopiy` | `piopiy.py` |
| `Session` | `main.py` |
| `Composition` | properties of two stages together |

In four places the code behaves differently from what a reader of the
stage names might expect; the model follows the code:

- **Ties in the selector.** One might expect the most recent of equally loud
  windows to win. The code's `max(..., key=...)` keeps the first maximal
  entry, and `Selector.FirstMax` does the same.
- **Selector with an empty list.** One might expect nothing to be emitted when
  `speech_ended` is seen with no window buffered. That case cannot arise in the
  code: the window of the same iteration is appended before the flag is
  checked. So every handled `speech_ended` emits exactly one window
  (`Selector.OneEmissionPerSpeechEnd`).
- **Which windows the selector keeps.** One might expect only windows that
  arrive while the caller is speaking to be kept. The code keeps every valid
  window it receives.
- **Silence time in VAD.** One might expect the silence timeout to be measured
  on a clock. The code compares buffer lengths divided by 48000. With the
  480-sample frames the pipeline delivers, the elapsed value is always 0, so
  `speech_ended` is never raised when the timeout is non-negative
  (`Vad.FramesNeverEndSpeech`).

## Model

| member | source | states |
|---|---|---|
| Pipeline.Offer | main.py:166-170 | offers are accepted in order until the queue is full and refused from then on; with `maxsize` 0 all are accepted; the queue keeps its old contents as a prefix |
| Pipeline.OfferFull | noise_cancellation.py:70-74 | once an offer has been refused, every later offer is refused too |
| Pipeline.UntilStop | agent_response.py:21-23 | a stage processes exactly the items before the first `None`; when a `None` is present it sits right after them |
| Pipeline.Queue.constructor | main.py:92-98 | a new queue is empty and has the given `maxsize` |
| Pipeline.FlagDict.constructor | main.py:88-89 | `speech_ended` and `voice_detected` start false |
| Pipeline.Queue.PutNowait | main.py:148-152 | `put_nowait` appends the item exactly when the queue is not full; otherwise it reports failure and leaves the queue unchanged |
| Strings.IsSpace | agent_response.py:26 | the `str.isspace()` set: space, tab, newline and carriage return are whitespace; no ASCII letter or digit is |
| Strings.IsBlank | text_to_speech.py:36 | `not s.strip()`: the empty string is blank, and a string is blank exactly when `lstrip()` removes all of it |
| Strings.Strip | text_to_speech.py:81 | `strip()` returns a contiguous piece of the input; everything cut off is whitespace; the result neither starts nor ends with whitespace; it is empty exactly when the input is blank |
| Strings.StripIdempotent | speech_to_text.py:55 | stripping a stripped string changes nothing |
| Strings.Lower | agent_response.py:68 | `lower()` keeps the length, maps each character and leaves no upper-case ASCII letter |
| Strings.LowerIdempotent | agent_response.py:68 | lower-casing twice equals lower-casing once |
| Strings.Contains | agent_response.py:70-83 | `sub in s`: a contained string is no longer than the container; the empty string and the string itself are contained |
| Strings.ContainsTransitive | agent_response.py:78 | a string that contains `mid` contains every substring of `mid` |
| Denoise.OutputBuffer | noise_cancellation.py:55-61 | the output buffer has 480 samples: the samples the native call wrote, then zeros |
| Denoise.DenoiseFrame | noise_cancellation.py:50-67 | the frame is 480 samples; it passes through unchanged without the library or when the call raises; otherwise it is the denoised output |
| Denoise.Process | noise_cancellation.py:40-71 | a frame yields an output exactly when it is an array of 480 samples, and that output is its denoised frame |
| Denoise.AcceptedFrames | noise_cancellation.py:41-48 | every frame the stage accepts has 480 samples |
| Denoise.OnePerFrame | noise_cancellation.py:33-71 | one output per accepted frame, in arrival order: the k-th output is the denoised k-th accepted frame, and every output has 480 samples |
| Denoise.PassThrough | noise_cancellation.py:65-67 | without the library the outputs are exactly the accepted frames |
| Denoise.NoiseCancellation.constructor | noise_cancellation.py:7-24 | the stage holds its two queues and whether the native state was created, and nothing has been destroyed yet |
| Denoise.NoiseCancellation.ProcessFrame | noise_cancellation.py:26-90 | the denoised queue receives the outputs of the frames before the first `None`; on leaving the loop the native state is destroyed once if it exists; with no `None` the loop has not exited and nothing is destroyed |
| Denoise.NoiseCancellation.HandleFrame | noise_cancellation.py:40-74 | one loop iteration offers exactly that frame's output, if any |
| Vad.Stamp | voice_activity_detection.py:88-89 | the recorded "time" is the buffer length divided by 48000; it is never negative and is at least 1 once a window is full |
| Vad.Step | voice_activity_detection.py:48-110 | skips non-array and empty chunks; a window is classified only at 48000 or more samples and afterwards keeps its last 4800; forwards the whole window without a model or when the classifier raises, flags unchanged; a speech window is forwarded, sets `voice_detected` and clears `silence_start`; a non-speech window is never forwarded and before speech changes only the buffer; the first silent window after speech records the stamp and later silent windows keep it; `speech_ended` rises, with `voice_detected` cleared, exactly when the silence has expired |
| Vad.StepSettled | voice_activity_detection.py:61-110 | between iterations the buffer is shorter than a window and any recorded silence start is at least 1 |
| Vad.SpeechEndNeedsLongChunk | voice_activity_detection.py:86-91 | clearing `voice_detected` needs a chunk of more than timeout × 48000 samples |
| Vad.RunSettled | voice_activity_detection.py:38-110 | a whole run keeps the state settled, and every forwarded window has at least 48000 samples |
| Vad.AlignedStep | voice_activity_detection.py:61-110 | with 480-sample chunks every window fires at exactly 48000 samples; its stamp is 1 and the elapsed value is 0; `speech_ended` is unchanged for a non-negative timeout |
| Vad.FramesNeverEndSpeech | voice_activity_detection.py:35-110 | over any run of 480-sample frames from an empty buffer, `speech_ended` never changes and `voice_detected` is never cleared (timeout non-negative); each forwarded window has exactly 48000 samples |
| Vad.VoiceActivityDetection.constructor | voice_activity_detection.py:7-29 | the stage holds its queues, timeout and flags, and whether the model loaded |
| Vad.VoiceActivityDetection.ProcessStream | voice_activity_detection.py:31-119 | the detected queue receives the windows forwarded by the run over the items before the first `None`, and the shared flags end as that run leaves them |
| Vad.VoiceActivityDetection.ProcessChunk | voice_activity_detection.py:48-110 | one iteration updates the buffer, the silence start, the flags and the queue as `Step` says |
| Selector.FirstMax | voice_cancellation.py:53 | picks an entry with maximal score, and every earlier entry scores strictly less (ties go to the first) |
| Selector.Append | voice_cancellation.py:33-46 | the new window is the last entry; with a score, more than 100 entries are trimmed to exactly the 50 most recent in order, so at most 100 remain; when scoring raises the window is kept with score 0 and nothing is trimmed |
| Selector.Step | voice_cancellation.py:27-70 | skips non-array and empty windows; with `speech_ended` clear it emits nothing and only appends; with it set it appends, emits the first loudest entry, and clears the list and the flag |
| Selector.ArrivingWindowIsCandidate | voice_cancellation.py:37-53 | the window that arrives with `speech_ended` set is a candidate: the emitted one is at least as loud, and it is this window when this window is strictly louder than all earlier ones |
| Selector.QuietUntilSpeechEnds | voice_cancellation.py:49 | a run that starts with `speech_ended` clear emits nothing and leaves it clear |
| Selector.OneEmissionPerSpeechEnd | voice_cancellation.py:49-64 | a set `speech_ended` gives exactly one emission over the run, as soon as any valid window arrives; with no valid window nothing changes |
| Selector.VoiceCancellation.constructor | voice_cancellation.py:6-9 | the stage holds its two queues and the shared flags |
| Selector.VoiceCancellation.GetLoudestVoice | voice_cancellation.py:11-79 | the output queue receives the emissions of the run over the items before the first `None`, and `speech_ended` ends as the run leaves it; `voice_detected` is untouched |
| Selector.VoiceCancellation.HandleChunk | voice_cancellation.py:27-70 | one iteration updates the list, the flag and the queue as `Step` says |
| Transcription.Transcribe | speech_to_text.py:43-84 | the result is a stripped non-empty text or `None`; `None` without a model, when transcription raises, or for a blank transcript; otherwise the stripped transcript |
| Transcription.Segment | speech_to_text.py:38-84 | exactly one output for a non-empty array, none otherwise |
| Transcription.ValidSegments | speech_to_text.py:39-41 | every accepted segment is non-empty |
| Transcription.OnePerSegment | speech_to_text.py:28-84 | one transcript item per accepted segment, in order, each the segment's transcription |
| Transcription.NoModelOnlySentinels | speech_to_text.py:79-84 | without a model every output is `None` |
| Transcription.SpeechToText.constructor | speech_to_text.py:10-22 | the stage holds its queues and whether Whisper loaded |
| Transcription.SpeechToText.SegmentDetection | speech_to_text.py:24-93 | the transcript queue receives the outputs of the segments before the first `None` |
| Transcription.SpeechToText.HandleSegment | speech_to_text.py:38-84 | one iteration offers exactly that segment's output, if any |
| Agent.GenerateResponse | agent_response.py:65-85 | the reply is never empty and is one of the eight fixed replies |
| Agent.Classify | agent_response.py:70-85 | the if/elif chain always yields one of the fixed replies |
| Agent.FirstMatch | agent_response.py:70-85 | the reference classifier returns the reply of some rule or the default |
| Agent.GenerateIsFirstMatch | agent_response.py:65-85 | `generate_response` is the first rule in the fixed order (hello/hi, name, help, thank, bye/goodbye, weather, time) that fires on the lower-cased text, else the default |
| Agent.CaseInsensitive | agent_response.py:68 | a transcript and its lower-cased form get the same reply |
| Agent.SameLowerSameReply | agent_response.py:68 | transcripts that differ only in ASCII letter case get the same reply |
| Agent.SubstringNotWord | agent_response.py:70 | matching is by substring: "this" gets the greeting |
| Agent.GoodbyeImpliesBye | agent_response.py:78 | any text containing "goodbye" contains "bye" |
| Agent.Respond | agent_response.py:25-54 | non-string and blank transcripts get nothing; otherwise the generated non-empty reply, nothing for an empty one, or the fixed fallback when generation raises |
| Agent.RealGeneratorNeverFallsBack | agent_response.py:34-41 | with `generate_response` as generator every non-blank transcript gets exactly the classifier's reply |
| Agent.RespondAllReal | agent_response.py:15-54 | with the real generator, one reply per actionable transcript, in order, each the classifier's reply |
| Agent.AgentResponse.constructor | agent_response.py:7-9 | the stage holds its two queues |
| Agent.AgentResponse.ProcessAndRespond | agent_response.py:11-63 | the reply queue receives the replies for the transcripts before the first `None` |
| Agent.AgentResponse.HandleTranscript | agent_response.py:25-54 | one iteration offers exactly that transcript's reply, if any |
| Synthesis.RequestText | text_to_speech.py:76-83 | no request for blank text; otherwise the text sent is non-empty, at most 5000 characters, a prefix of the stripped input, the whole of it when it fits, and exactly 5000 characters when it does not |
| Synthesis.SynthesizeSpeech | text_to_speech.py:72-135 | `None` for blank text, for a status other than 200 and for a missing `audioContent`; a payload exactly when the request text gets a 200 reply with a non-empty `audioContent`, and then that payload |
| Synthesis.Speak | text_to_speech.py:35-58 | non-string and blank replies get nothing; otherwise an audio item exactly when synthesis returns a payload |
| Synthesis.AtMostOnePerReply | text_to_speech.py:42-58 | a run queues no more audio than it saw non-blank replies, and none when every request fails |
| Synthesis.TextToSpeech.constructor | text_to_speech.py:9-19 | construction offers the welcome message to the reply queue |
| Synthesis.TextToSpeech.SpeechSynthesize | text_to_speech.py:21-70 | the audio queue receives the payloads for the replies before the first `None` |
| Synthesis.TextToSpeech.HandleReply | text_to_speech.py:35-58 | one iteration offers exactly that reply's payload, if any |
| Piopiy.StreamRecord | piopiy.py:13-17 | a stream record has action "stream", the given url, and the given parameters or an empty map |
| Piopiy.NoParamsIsEmptyParams | piopiy.py:16 | passing no parameters equals passing an empty dictionary |
| Piopiy.Action.constructor | piopiy.py:8-9 | a new builder has no actions |
| Piopiy.Action.Stream | piopiy.py:11-18 | exactly one record is appended and earlier records are kept |
| Piopiy.Action.PCMO | piopiy.py:20-22 | the document holds all records in call order; reading it changes nothing |
| Session.Frames | main.py:146-153 | the framer cuts `len // 480` frames, and the k-th frame is samples 480k to 480(k+1) of the stream |
| Session.FramesConserve | main.py:145-153 | framing loses and invents nothing: every frame has 480 samples, the frames followed by the leftover give back the stream, and the leftover is shorter than a frame |
| Session.VoiceAssistant.constructor | main.py:82-121 | seven fresh, distinct, empty queues of the given capacity, cleared flags, an empty buffer, only the welcome message waiting on the reply queue, and each of the six stages wired to this session's queues, shared flags and readiness |
| Session.VoiceAssistant.NewStages | main.py:104-120 | each stage is wired to the queues it reads and writes, in pipeline order, and to the shared flags |
| Session.VoiceAssistant.ProcessIncomingAudio | main.py:140-153 | after shutdown nothing changes; otherwise the queue only grows; the frames it received followed by the buffer's frames are the frames of the old buffer plus the audio; their samples followed by the buffer are exactly that stream; a whole frame stays buffered only when the queue refused it |
| Session.VoiceAssistant.Shutdown | main.py:155-170 | sets the shutdown flag and offers exactly one `None` to each of the seven queues; a refused offer changes nothing |
| Session.VoiceWebhook | main.py:181-193 | the answer holds exactly one action: stream to the configured WebSocket base URL plus "/media" with `listen_mode` "caller" |
| Session.CallRegistry.constructor | main.py:29 | the registry starts empty |
| Session.CallRegistry.Register | main.py:216 | the call id maps to its pipeline and other entries are kept |
| Session.CallRegistry.Release | main.py:297-301 | a registered call is removed and its pipeline is shut down (flag set, one `None` per queue); an unregistered call changes nothing; so a pipeline is shut down at most once through the registry |
| Composition.AllActionable | agent_response.py:26-28 | transcripts that are all non-blank strings are all answered, in order |
| Composition.SilentSegmentStopsAgent | speech_to_text.py:64-70 | if the k-th accepted segment transcribes to `None`, the response stage (agent_response.py:21-23) answers at most the k transcripts before it, each with the classifier's reply |
| Composition.NoModelStopsAtOnce | speech_to_text.py:79-84 | without Whisper, the first output is already `None` |
| Composition.NoModelNoReplies | agent_response.py:21-23 | without Whisper the response stage answers nothing |

## Left out

- Threads, `start()`, `join(timeout=2.0)`, daemon flags, polling with `get(timeout=...)` and `Empty`. Each stage is modelled as one sequential run over the items its `get` calls return.
- Concurrent consumers: `Offer` assumes that nobody takes items off a queue while a stage puts to it.
- μ-law decoding and encoding, resampling and the int16 to float scaling (main.py:45-72, 230-233). These are floating-point library calls.
- The WebSocket handler's I/O: `ws.receive`/`ws.send`, the JSON splitting loop, the sender thread and the fallback call ids made from the clock (main.py:196-296). Only the register and release of `active_calls` is modelled.
- `Session.CallRegistry.Register`: does not model the failed-construction path (main.py:217-220), where no call is registered.
- Configuration: the WebSocket base URL (main.py:38) is a parameter of `Session.VoiceWebhook`. The API key, the DLL path and all logging are not modelled.
- The ML and HTTP collaborators (RNNoise, Silero, Whisper, Google TTS) are function parameters.
- `Denoise.DenoiseFrame`, `Denoise.OnePerFrame`, `Denoise.NoiseCancellation.ProcessFrame`, `Vad.Step`, `Vad.VoiceActivityDetection.ProcessStream`: `rnnoise` and `classify` are pure functions of one frame or window. The native RNNoise state `self.st` (noise_cancellation.py:20, 58) and Silero's `VADIterator` (voice_activity_detection.py:25, 72) carry state from call to call, and the iterator answers only at speech starts and ends. Their history is lost in the model: identical frames or windows always get identical answers, and the per-frame and per-window results proved here hold only for a collaborator without such memory. `Synthesis.SynthesizeSpeech` collapses timeouts, request errors and undecodable bodies into one `Failed` answer.
- `Selector.Append`: the loudness is an integer score supplied by `rms`, not the float root-mean-square of the samples.
- Whisper's normalisation by the largest absolute sample (speech_to_text.py:50-51).
- `Strings.Lower`: lowers ASCII letters only. Python's `lower()` also folds non-ASCII letters, and for a few characters it changes the length.
- Samples are integers and the VAD times are exact reals. Float rounding is not modelled.
- The `astype(np.float32)` failure branch of the VAD (voice_activity_detection.py:54-58). Model chunks are already sample sequences.
- The error branch of the selector (voice_cancellation.py:66-70). It would leave the list and the flag exactly as the normal branch does.
- Python aliasing: the model copies the parameters dictionary passed to `stream` and the list `PCMO` returns, where Python shares them with the caller.
- The handler around the tensor conversion of a full window (voice_activity_detection.py:106-107) and each loop's outer `except Exception: continue`. On the sample sequences of the model nothing in those bodies raises.
- `Denoise.NoiseCancellation.ProcessFrame`: `destroyed` counts calls to `rnnoise_destroy`. An exception from that call is swallowed in the source (noise_cancellation.py:85-88) and is not modelled.
- The voice-activity probability that `rnnoise_process_frame` returns (noise_cancellation.py:58) is discarded by the source and is not modelled.
- The unused `rms_threshold` constructor argument (main.py:82).
- The flag-dictionary entries no core stage reads (`loudest_voice_event`, `is_recording`, `device`), the torch device and the thread list.
