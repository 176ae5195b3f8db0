# Speech translator core, modelled in Dafny

The system listens to a microphone, turns audio into text with a streaming
speech recogniser, guesses the language of each finished utterance, and looks
the text up in a small English/Filipino (Hiligaynon) phrase table. It has three
variants of this pipeline: `main.py`, `main_copy.py` and `voice_translate.py`.
This project models the sequential logic inside them and proves what it does:

- the phrase lookup `translate_text`. Both GUI variants lowercase the input,
  try the lowercased keys first, then the lowercased values (which give back
  the original key), then answer `"Translation not found"`.
  `voice_translate.py` lowercases only the input and keeps its literal table's
  keys as written;
- the language labels: `detect_language` in `main.py` sorts the classifier's
  label into `"fil"`, `"en"` or `"unknown"`. The one in `voice_translate.py`
  passes the label through;
- the on/off flag `recognition_active`, guarded by `start_recognition` and
  cleared by `stop_recognition`. The model counts the worker threads spawned
  and the ones still running;
- the worker loop. In `main.py`, after every non-empty final text, the loop
  rebinds the global recogniser to a fresh one on the model the label selects.
  In `main_copy.py` it feeds one fixed recogniser. In `voice_translate.py`,
  `recognize_speech` gathers chunks until the queue times out, and `main`
  prints a message that depends on the label.

Modules: `Text` (lowercasing and `str.strip()`), `Dict` (a dict built left to
right from pairs, and `dict.get`), `Audio` (chunks, queue polls, recogniser
answers), `Wrappers` (`Option`), and one module per source file: `MainApp`,
`MainCopy`, `VoiceTranslate`.

The collaborators are parameters:
- the recogniser is `accept`, a function from a model and all the audio fed
  to a recogniser since it was built to `Partial`, `Final(text)` or `Fault`
  (an exception). In `voice_translate.py` it is `transcribe`, a function of
  every buffer the one module-level recogniser has been fed since import;
- the language classifier is `detect`, a function from text to
  `Option<string>`, where `None` stands for an exception;
- the queue is a sequence of poll outcomes, each a chunk or a timeout.

A worker thread is modelled as a sequential loop over the events it observes.
An event is a queue poll, or a stop request from the UI thread; a stop request
only lowers the flag, which the loop reads before each poll. When the event
sequence runs out, the worker is still listening.

Behaviour of the code worth knowing:
- On a label other than `"fil"`, including `"unknown"` and a classifier
  error, `main.py` builds an English recogniser (main.py:79). It does not
  keep the current model (`MainApp.UnknownLanguageSelectsEnglish`).
- In `main.py` the recogniser is global and survives a stop. Audio fed before
  the stop is still in it when the next session starts
  (`MainApp.StaleAudioSurvivesRestart`).
- Two starts in a row spawn one worker (`MainApp.DuplicateStartSpawnsOnce`).
  A stop followed by a start, before the first worker polls the flag again,
  leaves two workers in their loops (`MainApp.StopThenStartLeavesTwoWorkers`).
- In `main_copy.py` an exception other than `queue.Empty` ends the worker and
  leaves the flag up. Every start before the next stop is then ignored
  (`MainCopy.CrashBlocksRestart`); the next stop lowers the flag, and the
  start after it spawns a new worker (`MainCopy.StopAfterCrashRestarts`).
- In `voice_translate.py` recording ends only when `q.get(timeout=5)` times
  out (voice_translate.py:56-60). While the stream is open it posts a block
  of 8000 samples at 16 kHz every half second (lines 51-52), so the loop ends
  only if the device stalls. The model takes the polls as given, and polls
  that run out stand for a queue that stays empty.

## Model

| member | source | states |
|---|---|---|
| `Text.Lower` | main.py:48 | lowercasing keeps the length and lowers every character in its place |
| `Text.LowerIdempotent` | main.py:48 | lowering an already lowered text changes nothing |
| `Text.TrimStart` | main.py:76 | the result is the suffix left after dropping leading whitespace; everything dropped is whitespace and the result does not start with whitespace |
| `Text.TrimEnd` | main.py:76 | the same at the other end: a prefix, all dropped characters whitespace, no trailing whitespace |
| `Text.Strip` | main.py:76 | `.strip()` is no longer than its input and, when non-empty, has whitespace on neither end; `Text.StripSlice` adds that it is a slice of the input |
| `Text.StripEmptyIff` | main.py:76-77 | a recognised text counts as empty exactly when it is all whitespace |
| `Text.StripSlice` | main.py:76 | `.strip()` gives a slice `s[a..b]` of its input, and everything cut off before `a` and from `b` on is whitespace |
| `Dict.Overwrite` | main.py:49-50 | the dict a comprehension builds, pair by pair from the left; what it holds is stated by the three lemmas below |
| `Dict.OverwriteKeys` | main.py:49-50 | a dict comprehension over the table has exactly the keys produced by the pairs |
| `Dict.OverwriteValues` | main.py:49-50 | each stored entry is one of the produced pairs |
| `Dict.OverwriteLast` | main.py:49-50 | when several pairs share a key, the last pair's value is the one stored |
| `Dict.Get` | main.py:51 | `dict.get(key, default)`: the stored value for a present key, the default otherwise; what the nested `get` yields is stated by `MainApp.TranslateForward`, `TranslateReverse` and `TranslateMissing` |
| `MainApp.LoweredKeys` | main.py:49 | the items `{k.lower(): v ...}` is built from, one per table entry in table order; the dict they build is described by `Dict.OverwriteKeys`, `OverwriteValues` and `OverwriteLast`, and the lookups in it by `MainApp.TranslateForward` |
| `MainApp.LoweredValues` | main.py:50 | the items `{v.lower(): k ...}` is built from, one per table entry in table order; the dict they build is described by the `Dict.Overwrite...` lemmas, and the lookups in it by `MainApp.TranslateReverse` and `TranslateMissing` |
| `MainApp.Translate` | main.py:47-51 | when the lowercased text is a lowercased key the answer is a value of the forward dict; otherwise it is a value of the reverse dict or "Translation not found" |
| `MainApp.TranslateFromTable` | main.py:47-51 | the answer is a value of the table, a key of the table, or "Translation not found" |
| `MainApp.TranslateCaseInsensitive` | main.py:48 | translating a text and translating its lowercase form give the same answer |
| `MainApp.TranslateForward` | main.py:49-51 | if the lowercased input equals a lowercased key, the answer is that key's value (the last such key wins), even when a value matches too |
| `MainApp.TranslateReverse` | main.py:50-51 | with no matching key, a matching lowercased value gives its original, un-lowercased key (the last such entry wins) |
| `MainApp.TranslateMissing` | main.py:51 | matching no key and no value gives exactly "Translation not found" |
| `MainApp.DetectLanguage` | main.py:53-58 | the label is one of "fil", "en", "unknown"; "fil" exactly for classifier output "tl" or "fil", "en" exactly for "en", so anything else and a classifier exception give "unknown" |
| `MainApp.ModelFor` | main.py:79 | the Filipino model is chosen exactly for the label "fil" |
| `MainApp.Step` | main.py:72-86 | one loop iteration as a function of the state, the poll and the two oracles; what it does is stated by the `Step...` lemmas below |
| `MainApp.Run` | main.py:72-86 | the loop over the observed events; a worker still running at the end has seen no stop request |
| `MainApp.StepTimeoutAndFault` | main.py:82-86 | a queue timeout changes nothing and the loop continues; a recogniser exception ends the loop and delivers nothing |
| `MainApp.StepKeepsRecognizer` | main.py:74-77 | a chunk without a final text, or with one that strips to nothing, goes to the current recogniser, which is kept; nothing is delivered |
| `MainApp.StepSwapsRecognizer` | main.py:75-81 | after a non-empty final text the recogniser is a fresh one (no audio), on the Filipino model exactly when the classifier said "tl" or "fil"; the stripped text is delivered with its translation |
| `MainApp.UnknownLanguageSelectsEnglish` | main.py:78-79 | on an "unknown" label a Filipino recogniser is replaced by a fresh English one |
| `MainApp.StepDelivers` | main.py:77-81 | one iteration delivers nothing, or appends exactly one non-empty text with its translation |
| `MainApp.RunConcat` | main.py:72-86 | events are consumed one per iteration in order: running two stretches one after the other is running their concatenation |
| `MainApp.RunSilence` | main.py:72-83 | a stretch of queue timeouts delivers nothing and leaves the recogniser as it was |
| `MainApp.RunAppends` | main.py:72-86 | the loop only appends to what it delivered, at most one pair per event |
| `MainApp.RunDeliversTranslations` | main.py:72-86 | the loop only appends to what it delivered, at most one pair per event, every pair a non-empty text with its own translation |
| `MainApp.Recognition.constructor` | main.py:28-35 | at import the flag is down, no worker exists and the recogniser is an English one with no audio |
| `MainApp.Recognition.Start` | main.py:60-89 | while active nothing changes and no worker is spawned; otherwise the flag goes up and exactly one worker is spawned |
| `MainApp.Recognition.Stop` | main.py:91-93 | the flag is down afterwards, whatever it was |
| `MainApp.Recognition.ProcessAudioStream` | main.py:69-87 | the recogniser and the deliveries end as the loop specification says; when the loop ends the worker lowers the flag and stops running |
| `MainApp.DuplicateStartSpawnsOnce` | main.py:60-67 | two starts in a row leave the flag up with exactly one worker spawned and running |
| `MainApp.StopThenStartLeavesTwoWorkers` | main.py:60-93 | start, stop, start before the first worker polls the flag again: two workers spawned and both still in their loops |
| `MainApp.StaleAudioSurvivesRestart` | main.py:32-93 | after a chunk, a stop and a new start, the global recogniser still holds the chunk fed in the earlier session |
| `MainCopy.TranslateIfElif` | main_copy.py:39-51 | the if/elif lookup gives the same answer as main.py's nested-get lookup for every table and input |
| `MainCopy.Step` | main_copy.py:62-71 | one iteration never stops the loop by itself; a crash happens only on a popped chunk and delivers nothing |
| `MainCopy.Run` | main_copy.py:62-71 | a worker still running at the end has seen no stop request; one that stopped has seen one |
| `MainCopy.StepFeedsTheOneRecognizer` | main_copy.py:62-71 | each chunk is appended to the one recogniser's audio; the worker crashes exactly on a recogniser exception; something is delivered exactly on a final text that strips to something non-empty, and then it is that text with its translation |
| `MainCopy.RunNeverReplaces` | main_copy.py:60-71 | the recogniser is never replaced: the audio it had before the loop is still the start of its audio after it, growing by at most one chunk per event |
| `MainCopy.Recognition.constructor` | main_copy.py:21-25 | at import the flag is down and the single recogniser has no audio |
| `MainCopy.Recognition.Start` | main_copy.py:54-73 | a no-op while the flag is up; otherwise raises it and spawns exactly one worker |
| `MainCopy.Recognition.Stop` | main_copy.py:76-78 | the flag is down afterwards, whatever it was |
| `MainCopy.Recognition.ProcessAudioStream` | main_copy.py:60-71 | the state ends as the loop specification says; the loop ends only with the flag down or on a crash, and a crash leaves the flag as it was |
| `MainCopy.CrashBlocksRestart` | main_copy.py:54-73 | after a recogniser exception the flag is still up, so the next start spawns nothing and no worker is running |
| `MainCopy.StopAfterCrashRestarts` | main_copy.py:54-78 | after the crash, a stop and a start spawn a second worker, which is the one running |
| `VoiceTranslate.DetectLanguage` | voice_translate.py:35-40 | the classifier's label is returned unchanged, or "unknown" when it raised |
| `VoiceTranslate.Translate` | voice_translate.py:42-44 | the answer is one of the table's values or "Translation not found" |
| `VoiceTranslate.TranslateLowered` | voice_translate.py:44 | any input whose lowercase form is a key, whatever its capitals, gets that key's entry |
| `VoiceTranslate.ShoutedHello` | voice_translate.py:23-44 | "HELLO" translates to "kumusta" |
| `VoiceTranslate.TableSymmetric` | voice_translate.py:22-33 | every entry k to v has a partner entry v to k |
| `VoiceTranslate.PhraseSets` | voice_translate.py:22-33 | the five English phrases are distinct, the five Hiligaynon phrases are distinct, and no phrase is on both sides |
| `VoiceTranslate.TableHasTenEntries` | voice_translate.py:22-33 | the literal's keys are exactly the five English and five Hiligaynon phrases, ten in all |
| `VoiceTranslate.MissingKeyNotFound` | voice_translate.py:44 | a lowercased input that is not a key as written gives "Translation not found" |
| `VoiceTranslate.OnlyLoveKeyGivesGinahigugma` | voice_translate.py:22-33 | only the key "I love you" maps to "ginahigugma ta ka" |
| `VoiceTranslate.LoveKeyUnreachable` | voice_translate.py:27-44 | no input at all translates to "ginahigugma ta ka", because the key "I love you" has a capital and a lowercased input has none |
| `VoiceTranslate.LoveKeyNotFound` | voice_translate.py:27-44 | translating "I love you" gives "Translation not found" |
| `VoiceTranslate.TranslateLowercaseKey` | voice_translate.py:44 | a key without capitals is reached by its own spelling |
| `VoiceTranslate.RoundTrip` | voice_translate.py:22-44 | a key that is free of capitals, with a translation free of capitals, translates back to itself |
| `VoiceTranslate.HelloRoundTrip` | voice_translate.py:23-28 | translating "hello" twice gives "hello" |
| `VoiceTranslate.KumustaRoundTrip` | voice_translate.py:23-28 | translating "kumusta" twice gives "kumusta" |
| `VoiceTranslate.GoodbyeRoundTrip` | voice_translate.py:24-29 | translating "goodbye" twice gives "goodbye" |
| `VoiceTranslate.PaalamRoundTrip` | voice_translate.py:24-29 | translating "paalam" twice gives "paalam" |
| `VoiceTranslate.ThankYouRoundTrip` | voice_translate.py:25-30 | translating "thank you" twice gives "thank you" |
| `VoiceTranslate.SalamatRoundTrip` | voice_translate.py:25-30 | translating "salamat" twice gives "salamat" |
| `VoiceTranslate.HowAreYouRoundTrip` | voice_translate.py:26-31 | translating "how are you" twice gives "how are you" |
| `VoiceTranslate.KamustaKaRoundTrip` | voice_translate.py:26-31 | translating "kamusta ka" twice gives "kamusta ka" |
| `VoiceTranslate.LoveRoundTripBreaks` | voice_translate.py:27-44 | "ginahigugma ta ka" translates to "I love you", and translating that gives "Translation not found" |
| `VoiceTranslate.ChunksBeforeTimeout` | voice_translate.py:56-60 | the chunks gathered are exactly those the polls returned before the first timeout, in order, and the poll after them is a timeout |
| `VoiceTranslate.RecordUntilTimeout` | voice_translate.py:53-60 | the buffer is the in-order concatenation of every chunk received before the first timeout |
| `VoiceTranslate.Concat` | voice_translate.py:53-58 | the buffer `audio_data += chunk` builds, chunk by chunk from `b""`; `VoiceTranslate.RecordUntilTimeout` is proved against it |
| `VoiceTranslate.Recognizer.constructor` | voice_translate.py:10 | the module-level recogniser starts with no audio fed |
| `VoiceTranslate.Recognizer.AcceptWaveform` | voice_translate.py:62 | one more buffer is fed to the same recogniser, after all earlier ones |
| `VoiceTranslate.RecognizeSpeech` | voice_translate.py:46-64 | the whole gathered buffer is fed to the one global recogniser after everything fed in earlier passes, and the text is its answer on all of that audio |
| `VoiceTranslate.ReportBranches` | voice_translate.py:70-82 | empty text prints nothing; otherwise the text is echoed, "en" prints the Hiligaynon message and "tl" the English message, both with the same lookup, and any other label prints "Could not detect language." |
| `VoiceTranslate.Report` | voice_translate.py:71-82 | a pass prints nothing exactly when the text is empty, and at most two lines otherwise |
| `VoiceTranslate.Transcript` | voice_translate.py:69-82 | n passes print at most 2n lines |
| `VoiceTranslate.MainLoop` | voice_translate.py:66-82 | the lines printed over successive passes are the per-pass reports, in order |

## Left out

- The Kivy `TranslatorApp` classes, `update_text` and `manual_translate` in main.py and main_copy.py: GUI layout and touch handlers. A delivered pair stands for the `Clock.schedule_once(update_text, ...)` call.
- Threads and their interleaving. The UI thread's effect on a running worker is a stop event between iterations, which is the only point where the flag is read. Two workers that run at once are counted but not interleaved.
- langdetect's `detect` is randomised unless `DetectorFactory.seed` is set, and no variant sets it. `detect` is modelled as a function of the text, so the model does not capture one text getting different labels on different calls. No property proved here relies on a repeated text getting the same label.
- Queue timeouts as durations, and the device callback `audio_callback` with its `queue.put`: the queue appears only as the sequence of poll outcomes the worker sees.
- vosk `Model`/`KaldiRecognizer`, `json.loads` of its result, and `langdetect.detect`: foreign code, kept as the oracles `accept`, `transcribe` and `detect`. Whether `Result()` resets the recogniser is left to the oracle, which sees all the audio fed since the recogniser was built.
- Opening `sd.RawInputStream` and a failure to open it. In main.py such a failure would escape before line 87, so the flag would stay up; the model starts with the stream open.
- `json.load` of `translation_dict.json`, the model-path checks with `exit(1)`, `print` and `input` prompts: I/O. A GUI variant's table is a parameter: the loaded dict's items, in order, as string pairs.
- main_whisper.py (whisper transcription and float scaling) and test.py (a print-only script) are not part of this model.
- Text.Lower: lowers ASCII capitals only; Python's `str.lower()` also lowers non-ASCII letters.
