/** The speech tool (`TextToSpeechTool`): checks the caller's parameters,
    makes one call to the speech endpoint, saves the audio to the temporary
    directory and streams status texts and the audio blob to the host.

    The endpoint's answer, the outcome of the file write, the temporary
    directory and the clock are inputs. `Invoke` is the event sequence the
    tool yields; `InvokeTool` produces it step by step as the generator does. */
module TextToSpeech {
  import opened Common
  import opened TextUtil

  const MinSpeed: real := 0.25
  const MaxSpeed: real := 4.0
  const DefaultSpeed: real := 1.0
  const DefaultFormat: string := "mp3"
  /** Longest accepted text, in characters, counted before trimming. */
  const MaxTextLength: nat := 5000
  const FilenamePrefix: string := "edgetts_audio_"

  /** The tool parameters; `None` is a key absent from the parameter dict. */
  datatype Parameters = Parameters(
    inputText: Option<string>,
    voice: Option<string>,
    model: Option<string>,
    speed: Option<real>,
    responseFormat: Option<string>)

  /** The credentials the host runtime hands to the tool. */
  datatype RuntimeCredentials = RuntimeCredentials(apiKey: Option<string>, baseUrl: Option<string>)

  /** What the speech endpoint did: the client could not be built, the call
      raised, or the call returned (possibly empty) content. Each message is
      the exception's text, `str(e)`. */
  datatype SpeechOutcome =
    | ClientFailed(message: string)
    | CallFailed(message: string)
    | Returned(content: seq<byte>)

  /** What writing the audio file did; `detail` is the exception's text. */
  datatype WriteOutcome = Written | WriteFailed(detail: string)

  /** The keys of a blob's metadata: "mime_type", "filename", "local_path"
      and "file_size". */
  datatype MetaKey = MimeTypeKey | FilenameKey | LocalPathKey | FileSizeKey

  datatype MetaValue = Str(s: string) | Int(n: int)

  /** The status texts the tool yields, one constructor per message. */
  datatype Message =
    // rejected parameters
    | EmptyText | SpeedOutOfRange | TextTooLong
    // progress
    | Starting | TextLength(length: nat) | UsingVoice(voice: string) | SpeedSetting(speed: real)
    | CallingApi | Generated | AudioSize(size: nat) | Saving | Saved(path: string)
    | SaveFailed(detail: string) | ReturningContent | Completed
    // failures of the call
    | EmptyResponse | InvalidApiKey | PermissionDenied | EndpointNotFound | RateLimited
    | ServerError | TimedOut | GenerationFailed(detail: string)

  datatype Event = Text(message: Message) | Blob(blob: seq<byte>, meta: map<MetaKey, MetaValue>)

  /** `not input_text or not input_text.strip()`. */
  predicate TextMissing(text: Option<string>) {
    text.None? || text.value == [] || Strip(text.value) == []
  }

  predicate SpeedInRange(speed: real) {
    MinSpeed <= speed <= MaxSpeed
  }

  function SpeedOf(p: Parameters): real {
    p.speed.GetOr(DefaultSpeed)
  }

  function FormatOf(p: Parameters): string {
    p.responseFormat.GetOr(DefaultFormat)
  }

  /** The rejection message of the first parameter check that fails, in the
      order the tool runs them, or `None` when all pass. */
  function ValidationFailure(p: Parameters): Option<Message> {
    if TextMissing(p.inputText) then Some(EmptyText)
    else if !SpeedInRange(SpeedOf(p)) then Some(SpeedOutOfRange)
    else if |p.inputText.value| > MaxTextLength then Some(TextTooLong)
    else None
  }

  /** `_validate_tts_parameters`: accepts exactly the parameters the tool
      itself does not reject. */
  function ValidateParameters(p: Parameters): (ok: bool)
    ensures ok <==> ValidationFailure(p) == None
  {
    if p.inputText.None? || p.inputText.value == [] || Strip(p.inputText.value) == [] then false
    else if !(MinSpeed <= p.speed.GetOr(DefaultSpeed) <= MaxSpeed) then false
    else if |p.inputText.value| > MaxTextLength then false
    else true
  }

  /** The one call the tool makes, or `None` when the parameters are
      rejected and no call is made. */
  function SpeechCallOf(creds: RuntimeCredentials, p: Parameters): (call: Option<SpeechCall>)
    ensures call.Some? <==> ValidationFailure(p) == None
    ensures call.Some? ==> call.value.request.input == p.inputText.value
    ensures call.Some? ==> call.value.baseUrl == creds.baseUrl.GetOr(DefaultBaseUrl)
    ensures call.Some? ==> SpeedInRange(call.value.request.speed) && |call.value.request.input| <= MaxTextLength
    ensures call.Some? ==> call.value.apiKey == creds.apiKey && call.value.request.speed == SpeedOf(p)
    ensures call.Some? ==> call.value.request.voice == p.voice.GetOr(DefaultVoice)
    ensures call.Some? ==> call.value.request.model == p.model.GetOr(DefaultModel)
    ensures call.Some? ==> call.value.request.responseFormat == FormatOf(p)
  {
    if ValidationFailure(p).Some? then None
    else
      Some(SpeechCall(
        creds.apiKey,
        creds.baseUrl.GetOr(DefaultBaseUrl),
        SpeechRequest(p.model.GetOr(DefaultModel), p.inputText.value, p.voice.GetOr(DefaultVoice),
                      FormatOf(p), SpeedOf(p))))
  }

  /** The tool's error classifier: the first token group found in the
      lower-cased error text picks the message; otherwise a generic message
      carries the original text. */
  function Classify(error: string): Message {
    var e := Lower(error);
    if Contains(e, "401") || Contains(e, "unauthorized") then InvalidApiKey
    else if Contains(e, "403") || Contains(e, "forbidden") then PermissionDenied
    else if Contains(e, "404") || Contains(e, "not found") then EndpointNotFound
    else if Contains(e, "429") || Contains(e, "rate limit") then RateLimited
    else if Contains(e, "500") || Contains(e, "internal server error") then ServerError
    else if Contains(e, "timeout") then TimedOut
    else GenerationFailed(error)
  }

  function MimeType(format: string): string {
    "audio/" + format
  }

  /** `edgetts_audio_<timestamp>.<format>`. */
  function AudioFilename(timestamp: nat, format: string): string {
    FilenamePrefix + NatToString(timestamp) + "." + format
  }

  /** The metadata of a blob whose file was saved. */
  function SavedMeta(format: string, filename: string, path: string, size: nat): map<MetaKey, MetaValue> {
    map[MimeTypeKey := Str(MimeType(format)), FilenameKey := Str(filename),
        LocalPathKey := Str(path), FileSizeKey := Int(size)]
  }

  /** The metadata of a blob whose file could not be saved. */
  function UnsavedMeta(format: string): map<MetaKey, MetaValue> {
    map[MimeTypeKey := Str(MimeType(format))]
  }

  /** The texts yielded once the parameters are accepted. */
  function Progress(text: string, voice: string, speed: real): seq<Event> {
    [Text(Starting), Text(TextLength(|text|)), Text(UsingVoice(voice)), Text(SpeedSetting(speed))]
  }

  /** The events for non-empty audio: save it, then hand it over. */
  function Delivery(content: seq<byte>, format: string, write: WriteOutcome, tempDir: string, timestamp: nat): seq<Event> {
    var filename := AudioFilename(timestamp, format);
    [Text(Generated), Text(AudioSize(|content|)), Text(Saving)]
    + (match write
       case Written =>
         var path := PathJoin(tempDir, filename);
         [Text(Saved(path)), Blob(content, SavedMeta(format, filename, path, |content|))]
       case WriteFailed(detail) =>
         [Text(SaveFailed(detail)), Text(ReturningContent), Blob(content, UnsavedMeta(format))])
    + [Text(Completed)]
  }

  /** The events after the progress texts, given the endpoint's answer. */
  function AfterCall(speech: SpeechOutcome, format: string, write: WriteOutcome, tempDir: string, timestamp: nat): seq<Event> {
    match speech
    case ClientFailed(message) => [Text(Classify(message))]
    case CallFailed(message) => [Text(CallingApi), Text(Classify(message))]
    case Returned(content) =>
      [Text(CallingApi)]
      + if content == [] then [Text(EmptyResponse)] else Delivery(content, format, write, tempDir, timestamp)
  }

  /** Everything `_invoke` yields, in order. */
  function Invoke(p: Parameters, speech: SpeechOutcome, write: WriteOutcome, tempDir: string, timestamp: nat): seq<Event> {
    match ValidationFailure(p)
    case Some(rejection) => [Text(rejection)]
    case None =>
      Progress(p.inputText.value, p.voice.GetOr(DefaultVoice), SpeedOf(p))
      + AfterCall(speech, FormatOf(p), write, tempDir, timestamp)
  }

  /** `_invoke`, as the generator runs it: each `yield` appends one event and
      each early `return` ends the sequence. */
  method InvokeTool(p: Parameters, speech: SpeechOutcome, write: WriteOutcome, tempDir: string, timestamp: nat)
    returns (events: seq<Event>)
    ensures events == Invoke(p, speech, write, tempDir, timestamp)
  {
    events := [];
    var inputText := p.inputText;
    if inputText.None? || inputText.value == [] || Strip(inputText.value) == [] {
      events := events + [Text(EmptyText)];
      return;
    }
    var text := inputText.value;
    var voice := p.voice.GetOr(DefaultVoice);
    var speed := p.speed.GetOr(DefaultSpeed);
    var format := p.responseFormat.GetOr(DefaultFormat);
    if !(MinSpeed <= speed <= MaxSpeed) {
      events := events + [Text(SpeedOutOfRange)];
      return;
    }
    if |text| > MaxTextLength {
      events := events + [Text(TextTooLong)];
      return;
    }
    events := events + [Text(Starting)];
    events := events + [Text(TextLength(|text|))];
    events := events + [Text(UsingVoice(voice))];
    events := events + [Text(SpeedSetting(speed))];
    assert ValidationFailure(p) == None && events == Progress(text, voice, speed);
    if speech.ClientFailed? {
      events := events + [Text(Classify(speech.message))];
      return;
    }
    events := events + [Text(CallingApi)];
    if speech.CallFailed? {
      events := events + [Text(Classify(speech.message))];
      return;
    }
    var content := speech.content;
    assert events == Progress(text, voice, speed) + [Text(CallingApi)];
    if content == [] {
      events := events + [Text(EmptyResponse)];
      return;
    }
    var delivered := SaveAndDeliver(content, format, write, tempDir, timestamp);
    events := events + delivered;
  }

  /** The rest of `_invoke` once the endpoint returned audio: announce it,
      try to save it (the inner `try`), yield the blob either way, then the
      completion text. */
  method SaveAndDeliver(content: seq<byte>, format: string, write: WriteOutcome, tempDir: string, timestamp: nat)
    returns (events: seq<Event>)
    ensures events == Delivery(content, format, write, tempDir, timestamp)
  {
    events := [Text(Generated)];
    events := events + [Text(AudioSize(|content|))];
    var filename := AudioFilename(timestamp, format);
    events := events + [Text(Saving)];
    if write.Written? {
      var path := PathJoin(tempDir, filename);
      events := events + [Text(Saved(path))];
      events := events + [Blob(content, SavedMeta(format, filename, path, |content|))];
    } else {
      events := events + [Text(SaveFailed(write.detail))];
      events := events + [Text(ReturningContent)];
      events := events + [Blob(content, UnsavedMeta(format))];
    }
    events := events + [Text(Completed)];
  }

  // ---------------------------------------------------------------------
  // Properties of the event sequence

  function BlobCount(events: seq<Event>): nat {
    if events == [] then 0 else (if events[0].Blob? then 1 else 0) + BlobCount(events[1..])
  }

  lemma {:induction false} BlobCountConcat(a: seq<Event>, b: seq<Event>)
    ensures BlobCount(a + b) == BlobCount(a) + BlobCount(b)
    decreases |a|
  {
    if a == [] {
      assert a + b == b;
    } else {
      assert (a + b)[1..] == a[1..] + b;
      BlobCountConcat(a[1..], b);
    }
  }

  lemma {:induction false} NoBlobNoCount(events: seq<Event>)
    requires forall i :: 0 <= i < |events| ==> events[i].Text?
    ensures BlobCount(events) == 0
    decreases |events|
  {
    if events != [] {
      NoBlobNoCount(events[1..]);
    }
  }

  /** A sequence of texts around one blob holds exactly one blob. */
  lemma BlobCountSplit(before: seq<Event>, blob: Event, after: seq<Event>)
    requires forall i :: 0 <= i < |before| ==> before[i].Text?
    requires forall i :: 0 <= i < |after| ==> after[i].Text?
    requires blob.Blob?
    ensures BlobCount(before + [blob] + after) == 1
  {
    BlobCountConcat(before + [blob], after);
    BlobCountConcat(before, [blob]);
    NoBlobNoCount(before);
    NoBlobNoCount(after);
  }

  /** A rejected parameter set yields exactly its rejection text, whatever
      the endpoint, the file system or the clock would have done; the checks
      run in the order text, speed, length. */
  lemma RejectionIsSingleText(p: Parameters, speech: SpeechOutcome, write: WriteOutcome, tempDir: string, timestamp: nat)
    ensures TextMissing(p.inputText) ==>
      Invoke(p, speech, write, tempDir, timestamp) == [Text(EmptyText)]
    ensures !TextMissing(p.inputText) && !SpeedInRange(SpeedOf(p)) ==>
      Invoke(p, speech, write, tempDir, timestamp) == [Text(SpeedOutOfRange)]
    ensures !TextMissing(p.inputText) && SpeedInRange(SpeedOf(p)) && |p.inputText.value| > MaxTextLength ==>
      Invoke(p, speech, write, tempDir, timestamp) == [Text(TextTooLong)]
  {
  }

  /** Blank means missing, empty, or whitespace only. */
  lemma TextMissingIffBlank(text: Option<string>)
    ensures TextMissing(text) <==> text.None? || AllSpace(text.value)
  {
    if text.Some? {
      StripEmptyIffAllSpace(text.value);
    }
  }

  /** `_validate_tts_parameters` answers false exactly when `_invoke` stops
      at a rejection text, and true exactly when `_invoke` goes on to the
      progress texts. */
  lemma ValidateAgreesWithInvoke(p: Parameters, speech: SpeechOutcome, write: WriteOutcome, tempDir: string, timestamp: nat)
    ensures var events := Invoke(p, speech, write, tempDir, timestamp);
      && (!ValidateParameters(p) <==> |events| == 1)
      && (!ValidateParameters(p) ==> events[0].message in {EmptyText, SpeedOutOfRange, TextTooLong})
      && (ValidateParameters(p) <==> |events| > 4 && events[..4] == Progress(p.inputText.value, p.voice.GetOr(DefaultVoice), SpeedOf(p)))
  {
    var events := Invoke(p, speech, write, tempDir, timestamp);
    if ValidateParameters(p) {
      assert |events| >= 5;
    }
  }

  /** No invocation yields more than one blob. */
  lemma AtMostOneBlob(p: Parameters, speech: SpeechOutcome, write: WriteOutcome, tempDir: string, timestamp: nat)
    ensures BlobCount(Invoke(p, speech, write, tempDir, timestamp)) <= 1
  {
    if ValidationFailure(p) == None {
      var format := FormatOf(p);
      var progress := Progress(p.inputText.value, p.voice.GetOr(DefaultVoice), SpeedOf(p));
      var rest := AfterCall(speech, format, write, tempDir, timestamp);
      BlobCountConcat(progress, rest);
      NoBlobNoCount(progress);
      AfterCallBlobs(speech, format, write, tempDir, timestamp);
    }
  }

  /** After the progress texts exactly one blob follows when the endpoint
      returned audio, and none otherwise. */
  lemma AfterCallBlobs(speech: SpeechOutcome, format: string, write: WriteOutcome, tempDir: string, timestamp: nat)
    ensures BlobCount(AfterCall(speech, format, write, tempDir, timestamp)) ==
      if speech.Returned? && speech.content != [] then 1 else 0
  {
    match speech
    case ClientFailed(_) =>
    case CallFailed(message) =>
      NoBlobNoCount([Text(CallingApi), Text(Classify(message))]);
    case Returned(content) =>
      if content == [] {
        NoBlobNoCount([Text(CallingApi), Text(EmptyResponse)]);
      } else {
        var filename := AudioFilename(timestamp, format);
        match write
        case Written =>
          var path := PathJoin(tempDir, filename);
          var blob := Blob(content, SavedMeta(format, filename, path, |content|));
          var before := [Text(CallingApi), Text(Generated), Text(AudioSize(|content|)), Text(Saving), Text(Saved(path))];
          assert AfterCall(speech, format, write, tempDir, timestamp) == before + [blob] + [Text(Completed)];
          BlobCountSplit(before, blob, [Text(Completed)]);
        case WriteFailed(detail) =>
          var blob := Blob(content, UnsavedMeta(format));
          var before := [Text(CallingApi), Text(Generated), Text(AudioSize(|content|)), Text(Saving),
                         Text(SaveFailed(detail)), Text(ReturningContent)];
          assert Delivery(content, format, write, tempDir, timestamp)
            == [Text(Generated), Text(AudioSize(|content|)), Text(Saving)]
               + [Text(SaveFailed(detail)), Text(ReturningContent), blob] + [Text(Completed)];
          assert AfterCall(speech, format, write, tempDir, timestamp) == before + [blob] + [Text(Completed)];
          BlobCountSplit(before, blob, [Text(Completed)]);
      }
  }

  /** Accepted parameters: the progress texts, then what the call produced. */
  lemma AcceptedShape(p: Parameters, speech: SpeechOutcome, write: WriteOutcome, tempDir: string, timestamp: nat)
    requires ValidationFailure(p) == None
    ensures Invoke(p, speech, write, tempDir, timestamp) ==
      Progress(p.inputText.value, p.voice.GetOr(DefaultVoice), SpeedOf(p))
      + AfterCall(speech, FormatOf(p), write, tempDir, timestamp)
  {
  }

  /** The whole sequence for accepted parameters and non-empty audio. */
  lemma SuccessShape(p: Parameters, content: seq<byte>, write: WriteOutcome, tempDir: string, timestamp: nat)
    requires ValidationFailure(p) == None && content != []
    ensures var format := FormatOf(p);
      var filename := AudioFilename(timestamp, format);
      var path := PathJoin(tempDir, filename);
      var head := [Text(Starting), Text(TextLength(|p.inputText.value|)), Text(UsingVoice(p.voice.GetOr(DefaultVoice))),
                   Text(SpeedSetting(SpeedOf(p))), Text(CallingApi), Text(Generated), Text(AudioSize(|content|)), Text(Saving)];
      Invoke(p, Returned(content), write, tempDir, timestamp) ==
        match write
        case Written =>
          head + [Text(Saved(path)), Blob(content, SavedMeta(format, filename, path, |content|)), Text(Completed)]
        case WriteFailed(detail) =>
          head + [Text(SaveFailed(detail)), Text(ReturningContent), Blob(content, UnsavedMeta(format)), Text(Completed)]
  {
    AcceptedShape(p, Returned(content), write, tempDir, timestamp);
  }

  /** Accepted parameters and non-empty audio: the sequence ends with the one
      blob, carrying exactly the returned bytes and the format's MIME type,
      followed by the completion text. */
  lemma SuccessDeliversAudio(p: Parameters, content: seq<byte>, write: WriteOutcome, tempDir: string, timestamp: nat)
    requires ValidationFailure(p) == None && content != []
    ensures var events := Invoke(p, Returned(content), write, tempDir, timestamp);
      && BlobCount(events) == 1
      && |events| >= 2
      && events[|events| - 1] == Text(Completed)
      && events[|events| - 2].Blob?
      && events[|events| - 2].blob == content
      && MimeTypeKey in events[|events| - 2].meta
      && events[|events| - 2].meta[MimeTypeKey] == Str("audio/" + FormatOf(p))
  {
    SuccessShape(p, content, write, tempDir, timestamp);
    var events := Invoke(p, Returned(content), write, tempDir, timestamp);
    var n := |events|;
    BlobCountSplit(events[..n - 2], events[n - 2], events[n - 1..]);
    assert events == events[..n - 2] + [events[n - 2]] + events[n - 1..];
  }

  /** A saved file: the blob's metadata names it `edgetts_audio_<timestamp>.<format>`
      under the temporary directory, gives its size as the number of bytes,
      and the blob is preceded by the text naming that path. */
  lemma SavedFileMetadata(p: Parameters, content: seq<byte>, tempDir: string, timestamp: nat)
    requires ValidationFailure(p) == None && content != []
    ensures var events := Invoke(p, Returned(content), Written, tempDir, timestamp);
      var filename := AudioFilename(timestamp, FormatOf(p));
      var path := PathJoin(tempDir, filename);
      && |events| == 11
      && events[9] == Blob(content, events[9].meta)
      && events[9].meta.Keys == {MimeTypeKey, FilenameKey, LocalPathKey, FileSizeKey}
      && events[9].meta[FilenameKey] == Str(filename)
      && events[9].meta[LocalPathKey] == Str(path)
      && events[9].meta[FileSizeKey] == Int(|content|)
      && events[8] == Text(Saved(path))
  {
    SuccessShape(p, content, Written, tempDir, timestamp);
  }

  /** A failed save is not fatal: a warning carrying the error and a notice
      precede a blob that still carries all the bytes but whose metadata
      holds only the MIME type. */
  lemma SaveFailureFallback(p: Parameters, content: seq<byte>, detail: string, tempDir: string, timestamp: nat)
    requires ValidationFailure(p) == None && content != []
    ensures var events := Invoke(p, Returned(content), WriteFailed(detail), tempDir, timestamp);
      && |events| == 12
      && events[8] == Text(SaveFailed(detail))
      && events[9] == Text(ReturningContent)
      && events[10] == Blob(content, events[10].meta)
      && events[10].meta.Keys == {MimeTypeKey}
      && events[10].meta[MimeTypeKey] == Str(MimeType(FormatOf(p)))
      && events[11] == Text(Completed)
  {
    SuccessShape(p, content, WriteFailed(detail), tempDir, timestamp);
  }

  /** A failed or empty answer yields no blob; the sequence ends with one
      diagnostic text (the classifier's, or the empty-response text) and
      never with the completion text. */
  lemma FailureYieldsNoBlob(p: Parameters, speech: SpeechOutcome, write: WriteOutcome, tempDir: string, timestamp: nat)
    requires ValidationFailure(p) == None
    requires !speech.Returned? || speech.content == []
    ensures var events := Invoke(p, speech, write, tempDir, timestamp);
      && BlobCount(events) == 0
      && events[|events| - 1] == Text(
           if speech.Returned? then EmptyResponse else Classify(speech.message))
      && |events| == (if speech.ClientFailed? then 5 else 6)
  {
    var progress := Progress(p.inputText.value, p.voice.GetOr(DefaultVoice), SpeedOf(p));
    var rest := AfterCall(speech, FormatOf(p), write, tempDir, timestamp);
    BlobCountConcat(progress, rest);
    NoBlobNoCount(progress);
    AfterCallBlobs(speech, FormatOf(p), write, tempDir, timestamp);
  }

  /** When the parameters are rejected no call is made: the events do not
      depend on the endpoint's answer, the save or the clock. */
  lemma RejectionIgnoresCall(creds: RuntimeCredentials, p: Parameters,
                             s1: SpeechOutcome, w1: WriteOutcome, d1: string, t1: nat,
                             s2: SpeechOutcome, w2: WriteOutcome, d2: string, t2: nat)
    requires SpeechCallOf(creds, p) == None
    ensures Invoke(p, s1, w1, d1, t1) == Invoke(p, s2, w2, d2, t2)
  {
  }

  /** The classifier takes the first matching token group, in the order
      401, 403, 404, 429, 500, timeout; only an unmatched error keeps its
      text. */
  lemma ClassifyFirstMatch(error: string)
    ensures var e := Lower(error);
      var auth := Contains(e, "401") || Contains(e, "unauthorized");
      var perm := Contains(e, "403") || Contains(e, "forbidden");
      var missing := Contains(e, "404") || Contains(e, "not found");
      var rate := Contains(e, "429") || Contains(e, "rate limit");
      var server := Contains(e, "500") || Contains(e, "internal server error");
      var timeout := Contains(e, "timeout");
      && (Classify(error) == InvalidApiKey <==> auth)
      && (Classify(error) == PermissionDenied <==> !auth && perm)
      && (Classify(error) == EndpointNotFound <==> !auth && !perm && missing)
      && (Classify(error) == RateLimited <==> !auth && !perm && !missing && rate)
      && (Classify(error) == ServerError <==> !auth && !perm && !missing && !rate && server)
      && (Classify(error) == TimedOut <==> !auth && !perm && !missing && !rate && !server && timeout)
      && (Classify(error).GenerationFailed? <==> !auth && !perm && !missing && !rate && !server && !timeout)
      && (Classify(error).GenerationFailed? ==> Classify(error).detail == error)
  {
  }

  /** The status code is found anywhere in the error text, in any case:
      an error that mentions 401 is reported as an invalid key even when it
      also mentions a timeout. */
  lemma Classify401(error: string)
    requires Contains(error, "401")
    ensures Classify(error) == InvalidApiKey
  {
    LowerKeepsToken(error, "401");
  }

  // ---------------------------------------------------------------------
  // The saved file's name

  /** The regular expression `edgetts_audio_\d+\.<format>`. */
  predicate MatchesAudioPattern(name: string, format: string) {
    var digitsEnd := |name| - |format| - 1;
    && |FilenamePrefix| < digitsEnd
    && name[..|FilenamePrefix|] == FilenamePrefix
    && name[digitsEnd..] == "." + format
    && AllDigits(name[|FilenamePrefix|..digitsEnd])
  }

  /** The file name matches the pattern and its digits spell the timestamp. */
  lemma AudioFilenameWellFormed(timestamp: nat, format: string)
    ensures var name := AudioFilename(timestamp, format);
      && MatchesAudioPattern(name, format)
      && DigitsValue(name[|FilenamePrefix|..|name| - |format| - 1]) == timestamp
  {
    var name := AudioFilename(timestamp, format);
    var digits := NatToString(timestamp);
    assert name[|FilenamePrefix|..|name| - |format| - 1] == digits;
    assert name[|name| - |format| - 1..] == "." + format;
    NatToStringRoundTrip(timestamp);
  }

  /** Distinct timestamps give distinct file names for the same format; two
      calls in the same second with the same format write the same file. */
  lemma AudioFilenameInjective(t1: nat, t2: nat, format: string)
    ensures AudioFilename(t1, format) == AudioFilename(t2, format) <==> t1 == t2
  {
    if AudioFilename(t1, format) == AudioFilename(t2, format) {
      AudioFilenameWellFormed(t1, format);
      AudioFilenameWellFormed(t2, format);
    }
  }

  /** Input "Hello", the default voice, speed 1.0, format mp3 and 512 bytes
      of audio: the blob is the last but one event, holds the 512 bytes, has
      type audio/mp3 and, when saved, a name of the form
      `edgetts_audio_<digits>.mp3`. */
  lemma HelloScenario(content: seq<byte>, write: WriteOutcome, tempDir: string, timestamp: nat)
    requires |content| == 512
    ensures var p := Parameters(Some("Hello"), Some(DefaultVoice), None, Some(1.0), Some("mp3"));
      var events := Invoke(p, Returned(content), write, tempDir, timestamp);
      var blob := events[|events| - 2];
      && BlobCount(events) == 1
      && blob.Blob? && |blob.blob| == 512
      && blob.meta[MimeTypeKey] == Str("audio/mp3")
      && (write.Written? ==> blob.meta[FilenameKey].Str? && MatchesAudioPattern(blob.meta[FilenameKey].s, "mp3"))
  {
    var p := Parameters(Some("Hello"), Some(DefaultVoice), None, Some(1.0), Some("mp3"));
    assert !IsSpace('H');
    StripEmptyIffAllSpace("Hello");
    assert ValidationFailure(p) == None;
    SuccessDeliversAudio(p, content, write, tempDir, timestamp);
    AudioFilenameWellFormed(timestamp, "mp3");
    if write.Written? {
      SavedFileMetadata(p, content, tempDir, timestamp);
    }
  }
}
