/** Types shared by the speech tool and the credential validator: optional
    values, results, bytes, and the request both send to the OpenAI-compatible
    speech endpoint. */
module Common {

  /** A value that may be absent, as `dict.get` without a default returns. */
  datatype Option<+T> = None | Some(value: T) {
    /** The value, or `default` when absent: `dict.get(key, default)`. */
    function GetOr(default: T): T {
      match this
      case Some(v) => v
      case None => default
    }
  }

  datatype Result<+T, +E> = Success(value: T) | Failure(error: E)

  newtype byte = x: int | 0 <= x < 256

  /** The endpoint used when the credentials carry no `base_url`. */
  const DefaultBaseUrl: string := "https://edgettsapi.duckcloud.fun/v1"
  const DefaultVoice: string := "zh-CN-XiaoxiaoNeural"
  const DefaultModel: string := "tts-1"

  /** The JSON body of one speech-synthesis request. */
  datatype SpeechRequest = SpeechRequest(
    model: string,
    input: string,
    voice: string,
    responseFormat: string,
    speed: real)

  /** One outbound call: the client's key and base URL and the request body. */
  datatype SpeechCall = SpeechCall(apiKey: Option<string>, baseUrl: string, request: SpeechRequest)
}
