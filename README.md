# EdgeTTS text-to-speech plugin: a Dafny model

The plugin has two pieces of decision logic around one call to an
OpenAI-compatible speech endpoint. This project models both and proves what
they promise.

- **The speech tool** (`TextToSpeechTool._invoke` and `_validate_tts_parameters`),
  module `TextToSpeech` in `text_to_speech.dfy`.
  - It checks the parameters in a fixed order: non-blank text, then speed in
    [0.25, 4.0], then at most 5000 characters.
  - It yields progress texts and makes the call.
  - On success it saves the audio as `edgetts_audio_<timestamp>.<format>` in
    the temporary directory. It yields the audio blob whether or not the save
    worked, then a completion text.
  - It turns every failure into a single diagnostic text. A first-match
    substring classifier picks that text.
  - `Invoke` is the event sequence as a function of the parameters, the
    endpoint's answer, the outcome of the file write, the temporary directory
    and the timestamp. `InvokeTool` and `SaveAndDeliver` produce it step by
    step, one `yield` at a time, with the generator's early returns.
- **The credential check** (`EdgeTTSProvider._validate_credentials` and
  `_test_edgetts_connection`), module `EdgeTtsProvider` in
  `edgetts_provider.dfy`.
  - It runs short-circuit structural checks: the key is present and non-empty,
    the base URL defaults when absent, it is non-empty, and it has an http(s)
    scheme.
  - It then sends one probe. The probe's content must be non-empty and hold at
    least 100 bytes.
  - The probe's errors go through a second classifier. It has no 429 branch
    and no 500 branch.
  - `ValidateCredentials` returns `Ok` or `Err(reason)`, and the probe's
    answer is an input. `ProbeCall` says which call the probe makes, or that
    none is made.

`common.dfy` holds the shared types: optional values, bytes, and the speech
request. `text_util.dfy` holds the Python string operations the code relies
on:

- `str.strip()` over Python's whitespace set
- lower-casing
- the `in` substring test
- `str.startswith`
- `str(int)`
- `os.path.join`

Three behaviours of the code worth noting:

- An empty answer from the endpoint does not go through the classifier. It
  yields its own "empty response" text (tools/text_to_speech.py:74-76).
- The credential check has two separate errors for the probe's content: one
  for empty content and one for content under 100 bytes
  (provider/edgetts_provider.py:82-91).
- The tool builds the client before it yields the "calling API" text. If
  building the client fails, the diagnostic follows the four progress texts
  directly. `SpeechOutcome.ClientFailed` is that case, and `CallFailed` is a
  failure of the call itself (tools/text_to_speech.py:55-72).

## Model

| member | source | states |
|---|---|---|
| TextToSpeech.InvokeTool | tools/text_to_speech.py:23-138 | yields exactly the sequence `Invoke` defines, on every path, including every early return |
| TextToSpeech.SaveAndDeliver | tools/text_to_speech.py:78-120 | the announce, save, blob and completion events after non-empty audio: saved metadata on success; a warning, a notice and mime-only metadata on failure |
| TextToSpeech.ValidateParameters | tools/text_to_speech.py:140-156 | returns true exactly when none of `_invoke`'s three parameter checks rejects |
| TextToSpeech.ValidateAgreesWithInvoke | tools/text_to_speech.py:140-156 | false exactly when `_invoke` yields a single rejection text; true exactly when it goes on to the four progress texts |
| TextToSpeech.SpeechCallOf | tools/text_to_speech.py:25-72 | a call is made exactly when the parameters are accepted; it uses the runtime's API key and the given base URL or the default one, and sends the untrimmed text, the given voice, model, format and speed or their defaults (zh-CN-XiaoxiaoNeural, tts-1, mp3, 1.0); the speed is in range and the text has at most 5000 characters |
| TextToSpeech.RejectionIsSingleText | tools/text_to_speech.py:29-47 | blank text, then speed outside [0.25, 4.0], then more than 5000 untrimmed characters: each yields exactly its one rejection text, in that order of precedence |
| TextToSpeech.TextMissingIffBlank | tools/text_to_speech.py:30 | the text check fails exactly for a missing, empty or whitespace-only text |
| TextToSpeech.RejectionIgnoresCall | tools/text_to_speech.py:29-47 | with rejected parameters the events depend on neither the endpoint, the save nor the clock: no call is made |
| TextToSpeech.AtMostOneBlob | tools/text_to_speech.py:102-118 | no invocation yields more than one blob |
| TextToSpeech.AfterCallBlobs | tools/text_to_speech.py:72-120 | after the progress texts, one blob exactly when the endpoint returned non-empty audio, none otherwise |
| TextToSpeech.SuccessShape | tools/text_to_speech.py:49-120 | the full ordered event sequence for accepted parameters and non-empty audio, for a successful and for a failed save |
| TextToSpeech.SuccessDeliversAudio | tools/text_to_speech.py:102-120 | exactly one blob; it carries the returned bytes, has mime type `audio/<format>` and is followed by the completion text, which ends the sequence |
| TextToSpeech.SavedFileMetadata | tools/text_to_speech.py:85-110 | after a save the blob's metadata has exactly the keys mime_type, filename, local_path and file_size; the filename is `edgetts_audio_<timestamp>.<format>`, the path is the temp dir joined with it, the size is the byte count, and the saved-path text comes just before it |
| TextToSpeech.SaveFailureFallback | tools/text_to_speech.py:112-120 | a failed save still yields the blob with all the bytes, but its metadata holds only mime_type; it is preceded by the warning carrying the error and the notice, and followed by the completion text |
| TextToSpeech.FailureYieldsNoBlob | tools/text_to_speech.py:55-138 | an exception or an empty answer yields no blob; the last event is the classifier's text (or the empty-response text), after 4 or 5 progress texts |
| TextToSpeech.ClassifyFirstMatch | tools/text_to_speech.py:124-138 | first match over the lower-cased error in the order 401/unauthorized, 403/forbidden, 404/not found, 429/rate limit, 500/internal server error, timeout; otherwise a generic text carrying the original error |
| TextToSpeech.Classify401 | tools/text_to_speech.py:124-126 | an error mentioning 401 anywhere is an invalid key, whatever else it mentions |
| TextToSpeech.AudioFilenameWellFormed | tools/text_to_speech.py:85-86 | the file name matches `edgetts_audio_\d+\.<format>` and its digits spell the timestamp |
| TextToSpeech.AudioFilenameInjective | tools/text_to_speech.py:85-86 | two timestamps give the same file name for one format exactly when they are equal |
| TextToSpeech.HelloScenario | tools/text_to_speech.py:29-120 | "Hello", the default voice, speed 1.0, mp3 and 512 bytes: one blob of 512 bytes with mime type audio/mp3; when saved, its name matches `edgetts_audio_\d+\.mp3` |
| TextUtil.TrimStartSpec | tools/text_to_speech.py:30 | the leading part of `strip()` removes exactly the longest whitespace prefix |
| TextUtil.TrimEndSpec | tools/text_to_speech.py:30 | the trailing part of `strip()` removes exactly the longest whitespace suffix |
| TextUtil.StripEmptyIffAllSpace | tools/text_to_speech.py:30 | `strip()` gives the empty string exactly when every character is whitespace |
| TextUtil.ContainsIff | tools/text_to_speech.py:125-135 | the substring test finds a token exactly when it occurs at some position |
| TextUtil.LowerKeepsToken | tools/text_to_speech.py:124 | lower-casing keeps every occurrence of a token that has no upper-case letters |
| TextUtil.NatToStringRoundTrip | tools/text_to_speech.py:85-86 | the decimal rendering of the timestamp is non-empty, all digits, and reads back as the timestamp |
| TextUtil.PathJoinParts | tools/text_to_speech.py:94 | the joined path ends with the file name; when the name is non-empty and does not start with `/` (as the generated file name never does), it also starts with the temporary directory |
| EdgeTtsProvider.CheckStructure | provider/edgetts_provider.py:18-40 | structural failures are only missing key, empty URL or bad scheme; on success the probe uses the given key, which is non-empty, and the given or default URL, which has an http(s) scheme, and sends the fixed request |
| EdgeTtsProvider.TestConnection | provider/edgetts_provider.py:62-117 | passes exactly when the probe returned at least 100 bytes; a returned answer fails only as invalid response or invalid audio; an exception fails with the reason the probe classifier gives its text, never the wrapped one |
| EdgeTtsProvider.MissingKeyFailsFirst | provider/edgetts_provider.py:20-24 | a missing or empty key fails with the missing-key reason, no probe is sent, and the verdict does not depend on the probe |
| EdgeTtsProvider.BaseUrlDefault | provider/edgetts_provider.py:27 | an absent base URL becomes `https://edgettsapi.duckcloud.fun/v1`, and the probe is sent there |
| EdgeTtsProvider.EmptyBaseUrlFails | provider/edgetts_provider.py:28-31 | a present, empty base URL fails with the empty-URL reason before any probe |
| EdgeTtsProvider.SchemeCheckedBeforeProbe | provider/edgetts_provider.py:34-37 | a base URL not starting with http:// or https:// fails with the format reason before any probe |
| EdgeTtsProvider.ProbeIsLastStep | provider/edgetts_provider.py:39-40 | once the probe is sent its verdict is the verdict; when it is not sent its answer is irrelevant and validation has failed |
| EdgeTtsProvider.ProbeContentThresholds | provider/edgetts_provider.py:82-91 | empty content is an invalid response, 1-99 bytes is invalid audio, 100 bytes or more passes |
| EdgeTtsProvider.ValidIff | provider/edgetts_provider.py:18-91 | success exactly when the key is non-empty, the (defaulted) URL is non-empty with an http(s) scheme and the probe returned at least 100 bytes |
| EdgeTtsProvider.CredentialErrorsPassUnchanged | provider/edgetts_provider.py:42-48 | every failure carries the reason raised inside, unwrapped: the structural reason before the probe, the probe's verdict after it |
| EdgeTtsProvider.ClassifyProbeErrorFirstMatch | provider/edgetts_provider.py:97-117 | first match over the lower-cased error in the order 401/unauthorized, 403/forbidden, 404/not found, timeout; otherwise a generic reason carrying the original error |
| EdgeTtsProvider.Probe401IsUnauthorized | provider/edgetts_provider.py:97-101 | well-formed credentials whose probe raises an error mentioning 401 fail as an invalid key |
| EdgeTtsProvider.ClassifiersCompared | provider/edgetts_provider.py:97-117 | the two classifiers agree on 401, 403, 404, timeout and unmatched errors; where the tool reports a rate limit or a server error, the credential check reports a timeout or a generic failure |
| EdgeTtsProvider.RateLimitReadAsTimeout | provider/edgetts_provider.py:110-113 | the error "429 timeout" is a rate limit to the tool but a timeout to the credential check |

## Left out

- The OpenAI client and `client.audio.speech.create` are foreign network calls. The endpoint's answer is an input (`SpeechOutcome`, `ProbeOutcome`). `SpeechCallOf` and `ProbeCall` say which call is made.
- A response without a `content` attribute is modelled as empty content. The code treats the two cases in one branch.
- The file write and `tempfile.gettempdir()` are filesystem I/O. The write's outcome is an input (`WriteOutcome`), and so is the temporary directory. A failure of `gettempdir` is one of the write failures.
- `time.time()` is replaced by a natural-number timestamp parameter.
- `os.path.join` is modelled with POSIX separators only.
- Dify's message types (`create_text_message`, `create_blob_message`) are replaced by the `Event` datatype. The texts are `Message` tags carrying their data (length, voice, speed, path, error text), not the Chinese strings. The metadata keys are the four constructors of `MetaKey`.
- `str.lower()` is modelled on ASCII letters only. For the ASCII tokens the classifiers look for, this matches Python except through two characters. U+212A becomes `k`, and no token contains `k`. U+0130 becomes `i` followed by a combining dot, and no token ends in `i`.
- Python's dynamic typing is not modelled. The parameters are typed, so failures such as a non-numeric speed or an explicit `None` raising a `TypeError` into the classifier cannot occur.
- The handler that wraps any other exception (the `OtherError` case of `Rethrow`) is reachable only through such untyped credentials. In this model every failure is a credential error, as `CredentialErrorsPassUnchanged` proves.
- Speed is a `real`. Floating point, including NaN (which Python's range check rejects), is not modelled.
- Python strings may hold lone surrogates. Dafny `char`s are Unicode scalar values, so text lengths agree only for strings without them.
- test_edgetts_fixed.py is not part of this model: it is a live-network script that prints its results.
- main.py is not part of this model: it only starts the plugin with a request timeout.
