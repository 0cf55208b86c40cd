/** The server-side text-to-speech action: it always answers with an envelope
    (success with the audio, or failure with a message) and never throws. The
    key lookup and the HTTP exchange are parameters; the text cleaning is the
    same transformation as the client's (module SpeechText). */
module TextToSpeechAction {
  import opened Wrappers
  import opened Text
  import Wav
  import SpeechText
  import opened TextToSpeech

  const ActionDefaultVoiceId: string := "NihRgaLj2HWAjvZ5XNxl"
  const MultilingualModelId: string := "eleven_multilingual_v2"
  const AudioMime: string := "audio/mpeg"
  const NotConfigured: string := "ElevenLabs API key not configured"
  const UnknownError: string := "Unknown error occurred"

  /** The action's answer. `audioData` holds the audio bytes that the action
      sends base64-encoded. */
  datatype Envelope =
    | Converted(audioData: seq<Wav.Byte>, mimeType: string)
    | Failed(error: string)

  /** The message the `catch` puts in the envelope. */
  function CaughtMessage(e: Thrown): string {
    match e
    case Error(m) => m
    case NonError => UnknownError
  }

  /** `convertTextToSpeech`: `apiKey` is the environment's key (None when
      unset), `reply` the service's answer. Returns the envelope and the
      request sent, if one was. */
  function ConvertTextToSpeech(text: string, voiceId: Option<string>, apiKey: Option<string>, reply: Reply)
    : (Envelope, Option<Request>)
  {
    if apiKey.None? || apiKey.value == "" then (Failed(NotConfigured), None)
    else
      var request := Request(voiceId.GetOr(ActionDefaultVoiceId), apiKey.value,
                             SpeechText.CleanTextForSpeech(text), MultilingualModelId);
      var envelope :=
        match reply
        case FetchThrew(e) => Failed(CaughtMessage(e))
        case Response(status, statusText, body) =>
          if !Ok(status) then Failed(ApiErrorPrefix + NatToString(status) + " " + statusText)
          else match body
            case Failure(e) => Failed(CaughtMessage(e))
            case Success(bytes) => Converted(bytes, AudioMime);
      (envelope, Some(request))
  }

  /** Without a key nothing is requested and the envelope says the key is
      not configured. */
  lemma MissingKeyFails(text: string, voiceId: Option<string>, apiKey: Option<string>, reply: Reply)
    requires apiKey.None? || apiKey == Some("")
    ensures ConvertTextToSpeech(text, voiceId, apiKey, reply) == (Failed(NotConfigured), None)
  {
  }

  /** With a key exactly one request is sent: to the given voice or the
      default one, with the cleaned text. */
  lemma RequestSent(text: string, voiceId: Option<string>, key: string, reply: Reply)
    requires key != ""
    ensures var request := ConvertTextToSpeech(text, voiceId, Some(key), reply).1;
            && request.Some?
            && request.value.voiceId == (if voiceId.Some? then voiceId.value else ActionDefaultVoiceId)
            && request.value.apiKey == key
            && request.value.text == SpeechText.CleanTextForSpeech(text)
  {
  }

  /** The envelope is a success exactly when the key is set, the status is
      successful and the audio was read; it then carries that audio as
      "audio/mpeg". */
  lemma SuccessEnvelope(text: string, voiceId: Option<string>, apiKey: Option<string>, reply: Reply)
    ensures var r := ConvertTextToSpeech(text, voiceId, apiKey, reply).0;
            && (r.Converted? <==> (apiKey.Some? && apiKey.value != "" && reply.Response?
                                    && Ok(reply.status) && reply.body.Success?))
            && (r.Converted? ==> r.mimeType == AudioMime && r.audioData == reply.body.value)
  {
  }

  /** An unsuccessful status gives a failure whose message names the status
      and its text. */
  lemma ErrorStatusEnvelope(text: string, voiceId: Option<string>, key: string,
                            status: nat, statusText: string, body: Result<seq<Wav.Byte>, Thrown>)
    requires key != "" && !Ok(status)
    ensures var r := ConvertTextToSpeech(text, voiceId, Some(key), Response(status, statusText, body)).0;
            && r.Failed?
            && IsPrefix(ApiErrorPrefix, r.error)
            && Contains(r.error, NatToString(status))
            && Contains(r.error, statusText)
  {
    var n := NatToString(status);
    var m := ApiErrorPrefix + n + " " + statusText;
    assert m[..|ApiErrorPrefix|] == ApiErrorPrefix;
    assert m[|ApiErrorPrefix|..|ApiErrorPrefix| + |n|] == n;
    ContainsAt(m, n, |ApiErrorPrefix|);
    var head := ApiErrorPrefix + n + " ";
    assert m == head + statusText;
    assert m[|head|..|head| + |statusText|] == statusText;
    ContainsAt(m, statusText, |head|);
  }

  /** A thrown `Error` passes its message through; any other thrown value
      becomes the fixed unknown-error message. */
  lemma ThrownEnvelope(text: string, voiceId: Option<string>, key: string, e: Thrown)
    requires key != ""
    ensures ConvertTextToSpeech(text, voiceId, Some(key), FetchThrew(e)).0
              == Failed(if e.Error? then e.message else UnknownError)
  {
  }
}
