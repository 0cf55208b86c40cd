/** The browser text-to-speech client: the minimum-interval rate limiter held
    in the service object, the request it sends, the mapping of the service's
    HTTP status to an error message, and the rule that every failure is
    swallowed (an alert is raised only for a rate-limit message). The clock,
    the HTTP exchange and audio playback are oracles passed in by the caller.
    The shared request and reply shapes are also used by the server action
    (module TextToSpeechAction). */
module TextToSpeech {
  import opened Wrappers
  import opened Text
  import Wav
  import SpeechText

  /** A thrown value: an `Error` with its message, or anything else. */
  datatype Thrown = Error(message: string) | NonError

  /** The synthesis request: the voice in the URL, the API key header, the
      text and the model in the JSON body. */
  datatype Request = Request(voiceId: string, apiKey: string, text: string, modelId: string)

  /** Outcome of the synthesis request: `fetch` threw, or the service answered
      with a status. `body` is what reading the body gave: the audio bytes,
      or what reading it (or, in the client, playing it) threw. */
  datatype Reply =
    | FetchThrew(error: Thrown)
    | Response(status: nat, statusText: string, body: Result<seq<Wav.Byte>, Thrown>)

  /** `response.ok`. */
  predicate Ok(status: nat) {
    200 <= status <= 299
  }

  /** An audio element playing the returned audio. */
  datatype Audio = Audio(data: seq<Wav.Byte>)

  const DefaultVoiceId: string := "XrExE9yKIg1WjnnlVkGX"
  const TurboModelId: string := "eleven_turbo_v2_5"
  /** Milliseconds that must separate two requests. */
  const MinRequestInterval: int := 1000

  const RateLimitMessage: string :=
    "Rate limit exceeded. " + "Please wait a moment before trying again. " + "Your ElevenLabs plan may have usage limits."
  const InvalidKeyMessage: string := "Invalid API key. " + "Please check your ElevenLabs API key."
  const InvalidVoicePrefix: string := "Invalid voice ID " + "or text. Voice ID: "
  const ApiErrorPrefix: string := "ElevenLabs API error: "
  /** The substring that makes a failure show the rate-limit alert. */
  const RateLimitMarker: string := "Rate limit"

  // ------------------------------------------------------------ rate limiting

  /** How long `speak` sleeps when `elapsed` milliseconds have passed since
      the previous request: the rest of the interval, or nothing once it is
      over. */
  function WaitTime(elapsed: int): (w: nat)
    ensures elapsed < MinRequestInterval ==> 0 < w && elapsed + w == MinRequestInterval
    ensures 0 <= elapsed ==> w <= MinRequestInterval
    ensures MinRequestInterval <= elapsed ==> w == 0
  {
    if elapsed < MinRequestInterval then MinRequestInterval - elapsed else 0
  }

  // ------------------------------------------------------------ errors

  /** Error message for an unsuccessful status. */
  function TtsStatusError(status: nat, statusText: string, voiceId: string): string {
    if status == 429 then RateLimitMessage
    else if status == 401 then InvalidKeyMessage
    else if status == 422 then InvalidVoicePrefix + voiceId
    else ApiErrorPrefix + NatToString(status) + " " + statusText
  }

  /** What one `speak` call ends with: the playing audio, or what was thrown
      inside its `try`. A failed read of the body (the error text, the audio
      blob or playback) is thrown before the status is looked at. */
  function SpeakOutcome(voiceId: string, reply: Reply): Result<Audio, Thrown> {
    match reply
    case FetchThrew(e) => Failure(e)
    case Response(status, statusText, body) =>
      match body
      case Failure(e) => Failure(e)
      case Success(bytes) =>
        if Ok(status) then Success(Audio(bytes))
        else Failure(Error(TtsStatusError(status, statusText, voiceId)))
  }

  /** The handler shows the rate-limit alert for an `Error` whose message
      mentions "Rate limit", and only logs anything else. */
  predicate RaisesAlert(outcome: Result<Audio, Thrown>) {
    outcome.Failure? && outcome.error.Error? && Contains(outcome.error.message, RateLimitMarker)
  }

  // ------------------------------------------------------------ service

  /** The singleton service: its key and the time of its last request. */
  class TextToSpeechService {
    var apiKey: string
    var lastRequestTime: int

    /** `configured` is the key in the environment, if any; an absent key is
        sent as "". */
    constructor(configured: Option<string>)
      ensures apiKey == configured.GetOr("") && lastRequestTime == 0
    {
      apiKey := configured.GetOr("");
      lastRequestTime := 0;
    }

    /** `speak`. `now` and `later` are the clock before and after the wait,
        `voiceId` the voice given (None for the default), `reply` the
        service's answer. Returns the audio (None: `speak` resolved without
        one), the time slept, the request sent and whether the rate-limit
        alert was shown. */
    method Speak(text: string, voiceId: Option<string>, now: int, later: int, reply: Reply)
      returns (audio: Option<Audio>, waited: nat, sent: Request, alerted: bool)
      modifies this
      ensures apiKey == old(apiKey) && lastRequestTime == later
      ensures waited == WaitTime(now - old(lastRequestTime))
      ensures sent == Request(voiceId.GetOr(DefaultVoiceId), apiKey, SpeechText.CleanTextForSpeech(text), TurboModelId)
      ensures var outcome := SpeakOutcome(voiceId.GetOr(DefaultVoiceId), reply);
              && (audio.Some? <==> outcome.Success?)
              && (audio.Some? ==> audio.value == outcome.value)
              && alerted == RaisesAlert(outcome)
    {
      var voice := voiceId.GetOr(DefaultVoiceId);
      var timeSinceLastRequest := now - lastRequestTime;
      waited := 0;
      if timeSinceLastRequest < MinRequestInterval {
        waited := MinRequestInterval - timeSinceLastRequest;
      }
      var cleanText := SpeechText.CleanTextForSpeech(text);
      lastRequestTime := later;
      sent := Request(voice, apiKey, cleanText, TurboModelId);
      var failure: Option<Thrown> := None;
      audio := None;
      match reply {
        case FetchThrew(e) =>
          failure := Some(e);
        case Response(status, statusText, body) =>
          if body.Failure? {
            failure := Some(body.error);
          } else if !Ok(status) {
            failure := Some(Error(TtsStatusError(status, statusText, voice)));
          } else {
            audio := Some(Audio(body.value));
          }
      }
      ghost var outcome := SpeakOutcome(voice, reply);
      assert audio.Some? <==> outcome.Success?;
      assert failure.Some? <==> outcome.Failure?;
      assert failure.Some? ==> failure.value == outcome.error;
      alerted := false;
      if failure.Some? && failure.value.Error? && Contains(failure.value.message, RateLimitMarker) {
        alerted := true;
      }
    }
  }

  // ------------------------------------------------------------ properties

  /** Statuses 429, 401 and 422 each have their own message, and every
      other status shares a generic one. */
  lemma TtsStatusErrors(status: nat, statusText: string, voiceId: string)
    ensures var m := TtsStatusError(status, statusText, voiceId);
            && (status == 429 <==> m == RateLimitMessage)
            && (status == 401 <==> m == InvalidKeyMessage)
            && (status == 422 <==> IsPrefix(InvalidVoicePrefix, m))
            && (status !in {429, 401, 422} <==> IsPrefix(ApiErrorPrefix, m))
  {
    var m := TtsStatusError(status, statusText, voiceId);
    assert RateLimitMessage[0] == 'R' && InvalidKeyMessage[0] == 'I' && InvalidKeyMessage[8] == 'A';
    assert InvalidVoicePrefix[0] == 'I' && InvalidVoicePrefix[8] == 'v' && ApiErrorPrefix[0] == 'E';
    if status == 422 {
      assert m[..|InvalidVoicePrefix|] == InvalidVoicePrefix;
    } else if status !in {429, 401} {
      assert m[..|ApiErrorPrefix|] == ApiErrorPrefix;
    }
  }

  /** The generic message names the status and its text. */
  lemma TtsGenericError(status: nat, statusText: string, voiceId: string)
    requires status !in {429, 401, 422}
    ensures Contains(TtsStatusError(status, statusText, voiceId), NatToString(status))
    ensures Contains(TtsStatusError(status, statusText, voiceId), statusText)
  {
    var n := NatToString(status);
    var head := ApiErrorPrefix + n + " ";
    assert TtsStatusError(status, statusText, voiceId) == head + statusText;
    assert head + statusText == ApiErrorPrefix + n + (" " + statusText);
    ContainsMiddle(ApiErrorPrefix, n, " " + statusText);
    assert head + statusText == head + statusText + [];
    ContainsMiddle(head, statusText, []);
  }

  /** Audio is returned exactly when the service answered with a successful
      status and the audio could be read and played; every other path ends
      without audio. */
  lemma SpeakSucceedsOnlyOnOk(voiceId: string, reply: Reply)
    ensures SpeakOutcome(voiceId, reply).Success? <==>
              reply.Response? && Ok(reply.status) && reply.body.Success?
    ensures SpeakOutcome(voiceId, reply).Success? ==> SpeakOutcome(voiceId, reply).value.data == reply.body.value
  {
  }

  /** A 429 answer shows the rate-limit alert. */
  lemma RateLimitStatusAlerts(voiceId: string, statusText: string, bytes: seq<Wav.Byte>)
    ensures RaisesAlert(SpeakOutcome(voiceId, Response(429, statusText, Success(bytes))))
  {
    var m := RateLimitMessage;
    assert m[..|RateLimitMarker|] == RateLimitMarker;
    ContainsAt(m, RateLimitMarker, 0);
  }

  /** A 401 answer does not show the alert: its message does not mention a
      rate limit. */
  lemma InvalidKeyDoesNotAlert(voiceId: string, statusText: string, bytes: seq<Wav.Byte>)
    ensures !RaisesAlert(SpeakOutcome(voiceId, Response(401, statusText, Success(bytes))))
  {
    NoCapitalR(InvalidKeyMessage);
  }

  lemma NoCapitalR(m: string)
    requires m == InvalidKeyMessage
    ensures !Contains(m, RateLimitMarker)
  {
    assert RateLimitMarker[0] == 'R';
    assert forall i :: 0 <= i < |m| ==> m[i] != 'R';
    NotContainsChar(m, RateLimitMarker, 0);
  }

  /** A failure that is not an `Error` never shows the alert. */
  lemma NonErrorDoesNotAlert(voiceId: string)
    ensures !RaisesAlert(SpeakOutcome(voiceId, FetchThrew(NonError)))
  {
  }
}
