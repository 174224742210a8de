/** The provider's credential check (`EdgeTTSProvider`): structural checks on
    the key and base URL, then one short synthesis probe whose answer must
    hold plausible audio. The probe's answer is an input; the request it is
    sent is `ProbeCall`. */
module EdgeTtsProvider {
  import opened Common
  import opened TextUtil
  import TextToSpeech

  /** The smallest probe answer taken for real audio, in bytes. */
  const MinProbeAudioBytes: nat := 100

  /** The fixed probe: model tts-1, a two-character text, the default voice,
      mp3, speed 1.0. */
  const ProbeRequest: SpeechRequest := SpeechRequest(DefaultModel, "测试", DefaultVoice, "mp3", 1.0)

  /** The credentials dict; `None` is a key absent from it. */
  datatype Credentials = Credentials(apiKey: Option<string>, baseUrl: Option<string>)

  /** What the probe did: raised (the exception's text) or returned content. */
  datatype ProbeOutcome = ProbeFailed(message: string) | ProbeReturned(content: seq<byte>)

  /** Why validation failed, one constructor per message of
      `ToolProviderCredentialValidationError`. */
  datatype Reason =
    | MissingApiKey | EmptyBaseUrl | InvalidUrlFormat
    | InvalidResponse | InvalidAudio
    | InvalidApiKey | PermissionDenied | EndpointNotFound | ConnectionTimeout
    | ConnectionFailed(detail: string)
    | ValidationFailed(detail: string)

  /** An exception inside `_validate_credentials`: a credential error, or any
      other exception with its text. */
  datatype Raised = CredentialError(reason: Reason) | OtherError(detail: string)

  datatype Verdict = Ok | Err(reason: Reason)

  predicate HasHttpScheme(url: string) {
    StartsWith(url, "http://") || StartsWith(url, "https://")
  }

  /** The checks before the probe, in order; on success, the call the probe
      makes. */
  function CheckStructure(c: Credentials): (r: Result<SpeechCall, Reason>)
    ensures r.Failure? ==> r.error in {MissingApiKey, EmptyBaseUrl, InvalidUrlFormat}
    ensures r.Success? ==> r.value.apiKey.Some? && r.value.apiKey.value != [] && HasHttpScheme(r.value.baseUrl)
    ensures r.Success? ==> r.value.request == ProbeRequest
    ensures r.Success? ==> r.value.apiKey == c.apiKey && r.value.baseUrl == c.baseUrl.GetOr(DefaultBaseUrl)
  {
    if c.apiKey.None? || c.apiKey.value == [] then Failure(MissingApiKey)
    else
      var baseUrl := c.baseUrl.GetOr(DefaultBaseUrl);
      if baseUrl == [] then Failure(EmptyBaseUrl)
      else if !(StartsWith(baseUrl, "http://") || StartsWith(baseUrl, "https://")) then Failure(InvalidUrlFormat)
      else Success(SpeechCall(c.apiKey, baseUrl, ProbeRequest))
  }

  /** The probe the check sends, or `None` when a structural check fails first. */
  function ProbeCall(c: Credentials): Option<SpeechCall> {
    match CheckStructure(c)
    case Success(call) => Some(call)
    case Failure(_) => None
  }

  /** The probe's error classifier: like the speech tool's, but with no
      branch for 429 or 500. */
  function ClassifyProbeError(error: string): Reason {
    var e := Lower(error);
    if Contains(e, "401") || Contains(e, "unauthorized") then InvalidApiKey
    else if Contains(e, "403") || Contains(e, "forbidden") then PermissionDenied
    else if Contains(e, "404") || Contains(e, "not found") then EndpointNotFound
    else if Contains(e, "timeout") then ConnectionTimeout
    else ConnectionFailed(error)
  }

  /** `_test_edgetts_connection`: passes exactly when the probe returned at
      least 100 bytes. */
  function TestConnection(probe: ProbeOutcome): (v: Verdict)
    ensures v == Ok <==> probe.ProbeReturned? && |probe.content| >= MinProbeAudioBytes
    ensures probe.ProbeReturned? && v.Err? ==> v.reason in {InvalidResponse, InvalidAudio}
    ensures probe.ProbeFailed? ==> v == Err(ClassifyProbeError(probe.message)) && !v.reason.ValidationFailed?
  {
    match probe
    case ProbeFailed(message) => Err(ClassifyProbeError(message))
    case ProbeReturned(content) =>
      if content == [] then Err(InvalidResponse)
      else if |content| < MinProbeAudioBytes then Err(InvalidAudio)
      else Ok
  }

  /** The two handlers of `_validate_credentials`: a credential error goes out
      unchanged, anything else is wrapped with its text. */
  function Rethrow(e: Raised): Reason {
    match e
    case CredentialError(reason) => reason
    case OtherError(detail) => ValidationFailed(detail)
  }

  /** `_validate_credentials`: the structural checks, then the probe as the
      last step; whatever is raised goes through the handlers. */
  function ValidateCredentials(c: Credentials, probe: ProbeOutcome): Verdict {
    var raised :=
      match CheckStructure(c)
      case Failure(reason) => Some(CredentialError(reason))
      case Success(_) =>
        match TestConnection(probe)
        case Ok => None
        case Err(reason) => Some(CredentialError(reason));
    match raised
    case None => Ok
    case Some(e) => Err(Rethrow(e))
  }

  // ---------------------------------------------------------------------
  // Properties

  /** A missing or empty key fails first, and no probe is sent: the verdict
      does not depend on the probe's answer. */
  lemma MissingKeyFailsFirst(c: Credentials, p1: ProbeOutcome, p2: ProbeOutcome)
    requires c.apiKey.None? || c.apiKey.value == []
    ensures ProbeCall(c) == None
    ensures ValidateCredentials(c, p1) == Err(MissingApiKey)
    ensures ValidateCredentials(c, p1) == ValidateCredentials(c, p2)
  {
  }

  /** An absent base URL means the default endpoint, and the probe goes there. */
  lemma BaseUrlDefault(key: string)
    requires key != []
    ensures ProbeCall(Credentials(Some(key), None)) == Some(SpeechCall(Some(key), DefaultBaseUrl, ProbeRequest))
  {
  }

  /** A present but empty base URL fails, before any probe. */
  lemma EmptyBaseUrlFails(key: string, probe: ProbeOutcome)
    requires key != []
    ensures ProbeCall(Credentials(Some(key), Some(""))) == None
    ensures ValidateCredentials(Credentials(Some(key), Some("")), probe) == Err(EmptyBaseUrl)
  {
  }

  /** A non-empty base URL without an http or https scheme fails, before any probe. */
  lemma SchemeCheckedBeforeProbe(key: string, url: string, probe: ProbeOutcome)
    requires key != [] && url != [] && !HasHttpScheme(url)
    ensures ProbeCall(Credentials(Some(key), Some(url))) == None
    ensures ValidateCredentials(Credentials(Some(key), Some(url)), probe) == Err(InvalidUrlFormat)
  {
  }

  /** The probe is the last step: once it is sent its verdict is the
      verdict, and when it is not sent its answer is irrelevant. */
  lemma ProbeIsLastStep(c: Credentials, p1: ProbeOutcome, p2: ProbeOutcome)
    ensures ProbeCall(c).Some? ==> ValidateCredentials(c, p1) == TestConnection(p1)
    ensures ProbeCall(c).None? ==> ValidateCredentials(c, p1) == ValidateCredentials(c, p2)
    ensures ProbeCall(c).None? ==> ValidateCredentials(c, p1).Err?
  {
  }

  /** The probe's answer: empty content, under 100 bytes, and 100 bytes or more. */
  lemma ProbeContentThresholds(content: seq<byte>)
    ensures content == [] ==> TestConnection(ProbeReturned(content)) == Err(InvalidResponse)
    ensures 0 < |content| < 100 ==> TestConnection(ProbeReturned(content)) == Err(InvalidAudio)
    ensures |content| >= 100 ==> TestConnection(ProbeReturned(content)) == Ok
  {
  }

  /** Validation succeeds exactly when the key is non-empty, the base URL
      (defaulted when absent) is non-empty with an http(s) scheme, and the
      probe returned at least 100 bytes. */
  lemma ValidIff(c: Credentials, probe: ProbeOutcome)
    ensures var url := c.baseUrl.GetOr(DefaultBaseUrl);
      ValidateCredentials(c, probe) == Ok <==>
        && c.apiKey.Some? && c.apiKey.value != []
        && url != [] && HasHttpScheme(url)
        && probe.ProbeReturned? && |probe.content| >= MinProbeAudioBytes
  {
  }

  /** Every reason comes from a credential error raised inside, passed on
      unchanged: no input of this model reaches the wrapping handler. */
  lemma CredentialErrorsPassUnchanged(c: Credentials, probe: ProbeOutcome)
    ensures ValidateCredentials(c, probe).Err? ==>
      && !ValidateCredentials(c, probe).reason.ValidationFailed?
      && (ProbeCall(c).None? ==> ValidateCredentials(c, probe).reason == CheckStructure(c).error)
      && (ProbeCall(c).Some? ==> ValidateCredentials(c, probe) == TestConnection(probe))
  {
  }

  /** The probe classifier takes the first matching token group, in the order
      401, 403, 404, timeout; an unmatched error keeps its text. */
  lemma ClassifyProbeErrorFirstMatch(error: string)
    ensures var e := Lower(error);
      var auth := Contains(e, "401") || Contains(e, "unauthorized");
      var perm := Contains(e, "403") || Contains(e, "forbidden");
      var missing := Contains(e, "404") || Contains(e, "not found");
      var timeout := Contains(e, "timeout");
      && (ClassifyProbeError(error) == InvalidApiKey <==> auth)
      && (ClassifyProbeError(error) == PermissionDenied <==> !auth && perm)
      && (ClassifyProbeError(error) == EndpointNotFound <==> !auth && !perm && missing)
      && (ClassifyProbeError(error) == ConnectionTimeout <==> !auth && !perm && !missing && timeout)
      && (ClassifyProbeError(error) == ConnectionFailed(error) <==> !auth && !perm && !missing && !timeout)
  {
  }

  /** Well-formed credentials whose probe raises an error mentioning 401
      fail as an invalid key. */
  lemma Probe401IsUnauthorized(key: string, url: string, message: string)
    requires key != [] && HasHttpScheme(url) && Contains(message, "401")
    ensures ValidateCredentials(Credentials(Some(key), Some(url)), ProbeFailed(message)) == Err(InvalidApiKey)
  {
    LowerKeepsToken(message, "401");
  }

  /** The two classifiers agree on 401, 403, 404 and timeout; where the
      speech tool reports a rate limit or a server error, the credential
      check reports a timeout if the text mentions one and a generic
      failure otherwise. */
  lemma ClassifiersCompared(error: string)
    ensures ClassifyProbeError(error) == InvalidApiKey <==> TextToSpeech.Classify(error) == TextToSpeech.InvalidApiKey
    ensures ClassifyProbeError(error) == PermissionDenied <==> TextToSpeech.Classify(error) == TextToSpeech.PermissionDenied
    ensures ClassifyProbeError(error) == EndpointNotFound <==> TextToSpeech.Classify(error) == TextToSpeech.EndpointNotFound
    ensures TextToSpeech.Classify(error) == TextToSpeech.TimedOut ==> ClassifyProbeError(error) == ConnectionTimeout
    ensures TextToSpeech.Classify(error).GenerationFailed? ==> ClassifyProbeError(error) == ConnectionFailed(error)
    ensures TextToSpeech.Classify(error) in {TextToSpeech.RateLimited, TextToSpeech.ServerError} ==>
      ClassifyProbeError(error) == (if Contains(Lower(error), "timeout") then ConnectionTimeout else ConnectionFailed(error))
  {
  }

  /** A rate-limit error that also mentions a timeout: the speech tool says
      rate limited, the credential check says timeout. */
  lemma RateLimitReadAsTimeout(error: string)
    requires error == "429 timeout"
    ensures TextToSpeech.Classify(error) == TextToSpeech.RateLimited
    ensures ClassifyProbeError(error) == ConnectionTimeout
  {
    assert Lower(error) == error by {
      forall i | 0 <= i < |error| ensures LowerChar(error[i]) == error[i] { }
    }
    TokensOf429Timeout(error);
  }

  /** Which tokens the text "429 timeout" holds. */
  lemma TokensOf429Timeout(m: string)
    requires m == "429 timeout"
    ensures Contains(m, "429") && Contains(m, "timeout")
    ensures !Contains(m, "401") && !Contains(m, "403") && !Contains(m, "404")
    ensures !Contains(m, "unauthorized") && !Contains(m, "forbidden") && !Contains(m, "not found")
  {
    assert OccursAt(m, "429", 0);
    assert OccursAt(m, "timeout", 4);
    ContainsIff(m, "429");
    ContainsIff(m, "timeout");
    forall i: nat ensures !OccursAt(m, "unauthorized", i) && !OccursAt(m, "forbidden", i) && !OccursAt(m, "not found", i) {
      if i + 9 <= |m| {
        assert m[i..i + 9][0] == m[i] && m[i..i + 9][1] == m[i + 1];
      }
    }
    forall i: nat ensures !OccursAt(m, "401", i) && !OccursAt(m, "403", i) && !OccursAt(m, "404", i) {
      if i + 3 <= |m| {
        assert m[i..i + 3][0] == m[i] && m[i..i + 3][1] == m[i + 1];
      }
    }
    ContainsIff(m, "unauthorized");
    ContainsIff(m, "forbidden");
    ContainsIff(m, "not found");
    ContainsIff(m, "401");
    ContainsIff(m, "403");
    ContainsIff(m, "404");
  }
}
