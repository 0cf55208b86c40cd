/** The browser speech-to-text client: the recorder state held in the service
    object, the checks made before an upload, the choice between sending the
    recording as it is and converting it to WAV, and the mapping of the
    service's HTTP status to an error message. Microphone access, audio
    decoding and the HTTP exchange are oracles passed in by the caller. */
module SpeechToText {
  import opened Wrappers
  import opened Text
  import Wav

  /** Recorded or converted audio: its MIME type and its bytes (`size` is the
      number of bytes). */
  datatype Blob = Blob(mimeType: string, data: seq<Wav.Byte>)

  /** The platform recorder, as far as the service looks at it: the MIME type
      it records in. */
  datatype Recorder = Recorder(mimeType: string)

  /** The multipart upload sent to the transcription endpoint. */
  datatype Upload = Upload(file: Blob, filename: string, modelId: string)

  /** Outcome of the transcription request: `fetch` threw, or the service
      answered. `json` is what reading the body as JSON gave for a successful
      status: a parse error, or the `text` field (None when absent or empty). */
  datatype Reply =
    | FetchThrew(message: string)
    | Response(status: nat, statusText: string, body: string, json: Result<Option<string>, string>)

  /** What one transcription attempt produced and the upload it made, if any. */
  datatype Transcript = Transcript(result: Result<string, string>, upload: Option<Upload>)

  const DefaultMimeType: string := "audio/webm;codecs=opus"
  /** The types tried in order of preference. */
  const PreferredTypes: seq<string> := ["audio/mp4", "audio/webm", "audio/ogg;codecs=opus"]

  const MicrophoneError: string := "Failed to access microphone. Please check permissions."
  const NoActiveRecording: string := "No active recording"
  const TooShortError: string := "Recording too short. Please speak for at least 1 second."
  const NoApiKeyError: string := "ElevenLabs API key not configured"
  const TooSmallError: string := "Audio file too small. Please record for at least 1 second."
  const TooLargeError: string := "Audio file too large. Please record a shorter message."
  const RateLimitError: string := "Rate limit exceeded. " + "Please wait a moment before trying again."
  const InvalidKeyError: string := "Invalid API key. " + "Please check your ElevenLabs API key."
  const InvalidAudioPrefix: string := "Invalid audio format " + "or content. Details: "
  const ApiErrorPrefix: string := "Speech-to-text API error: "

  const WavFilename: string := "recording.wav"
  const OriginalFilename: string := "recording.webm"
  const ModelId: string := "scribe_v1"

  /** Smallest recording accepted for processing, in bytes. */
  const MinRecordingSize: nat := 1000
  /** Smallest and largest upload, in bytes (25 MiB). */
  const MinUploadSize: nat := 100
  const MaxUploadSize: nat := 25 * 1024 * 1024

  // ------------------------------------------------------------ recorder

  /** The recording type: the first preferred type the platform supports,
      otherwise the default. */
  function ChooseMimeType(supported: set<string>): (r: string)
  {
    if "audio/mp4" in supported then "audio/mp4"
    else if "audio/webm" in supported then "audio/webm"
    else if "audio/ogg;codecs=opus" in supported then "audio/ogg;codecs=opus"
    else DefaultMimeType
  }

  /** `ChooseMimeType` picks the first preferred type that is supported, and
      the default only when none is. */
  lemma ChooseMimeTypePreference(supported: set<string>)
    ensures var r := ChooseMimeType(supported);
            (exists k :: 0 <= k < |PreferredTypes| && r == PreferredTypes[k] && r in supported
               && forall j :: 0 <= j < k ==> PreferredTypes[j] !in supported)
            || (r == DefaultMimeType && forall j :: 0 <= j < |PreferredTypes| ==> PreferredTypes[j] !in supported)
  {
    var r := ChooseMimeType(supported);
    if PreferredTypes[0] in supported {
      assert r == PreferredTypes[0];
    } else if PreferredTypes[1] in supported {
      assert r == PreferredTypes[1];
    } else if PreferredTypes[2] in supported {
      assert r == PreferredTypes[2];
    }
  }

  /** The bytes of the collected chunks, in the order they arrived. */
  function ChunkData(chunks: seq<Blob>): (r: seq<Wav.Byte>)
  {
    if chunks == [] then [] else ChunkData(chunks[..|chunks| - 1]) + chunks[|chunks| - 1].data
  }

  /** Chunk `k`'s bytes sit in the joined data right after those of the
      chunks before it. */
  lemma {:induction false} ChunkDataAt(chunks: seq<Blob>, k: nat)
    requires k < |chunks|
    ensures var before := |ChunkData(chunks[..k])|;
            before + |chunks[k].data| <= |ChunkData(chunks)|
            && ChunkData(chunks)[before..before + |chunks[k].data|] == chunks[k].data
  {
    var n := |chunks|;
    var init := chunks[..n - 1];
    if k < n - 1 {
      ChunkDataAt(init, k);
      assert init[..k] == chunks[..k];
    } else {
      assert init == chunks[..k];
    }
  }

  /** The recorder: `isRecording` is set only while a recorder exists. */
  class SpeechToTextService {
    var apiKey: string
    var mediaRecorder: Option<Recorder>
    var audioChunks: seq<Blob>
    var isRecording: bool

    predicate Valid()
      reads this
    {
      isRecording ==> mediaRecorder.Some?
    }

    /** A service that has not recorded anything; `apiKey` is the configured
        key, or "" when none is. */
    constructor(apiKey: string)
      ensures Valid()
      ensures this.apiKey == apiKey && mediaRecorder == None && audioChunks == [] && !isRecording
    {
      this.apiKey := apiKey;
      mediaRecorder := None;
      audioChunks := [];
      isRecording := false;
    }

    /** `startRecording`: `granted` is whether the platform handed over a
        microphone stream and a recorder; `supported` the types it can
        record; `started` whether the recorder's `start` returned normally.
        A throw from `start` comes after the fields were set, so they stay
        set while the caller sees the microphone error. */
    method StartRecording(granted: bool, supported: set<string>, started: bool) returns (r: Result<(), string>)
      requires Valid()
      modifies this
      ensures Valid() && apiKey == old(apiKey)
      ensures !granted ==> (r == Failure(MicrophoneError)
        && mediaRecorder == old(mediaRecorder) && audioChunks == old(audioChunks) && isRecording == old(isRecording))
      ensures granted ==> (r == (if started then Success(()) else Failure(MicrophoneError))
        && mediaRecorder == Some(Recorder(ChooseMimeType(supported))) && audioChunks == [] && isRecording)
    {
      if !granted {
        return Failure(MicrophoneError);
      }
      var mimeType := DefaultMimeType;
      if "audio/mp4" in supported {
        mimeType := "audio/mp4";
      } else if "audio/webm" in supported {
        mimeType := "audio/webm";
      } else if "audio/ogg;codecs=opus" in supported {
        mimeType := "audio/ogg;codecs=opus";
      }
      mediaRecorder := Some(Recorder(mimeType));
      audioChunks := [];
      isRecording := true;
      if !started {
        return Failure(MicrophoneError);
      }
      r := Success(());
    }

    /** The recorder's `ondataavailable` handler: only non-empty chunks are
        kept. */
    method OnDataAvailable(data: Blob)
      requires Valid()
      modifies this
      ensures Valid()
      ensures audioChunks == if |data.data| > 0 then old(audioChunks) + [data] else old(audioChunks)
      ensures apiKey == old(apiKey) && mediaRecorder == old(mediaRecorder) && isRecording == old(isRecording)
    {
      if |data.data| > 0 {
        audioChunks := audioChunks + [data];
      }
    }

    /** Forget the recording: no chunks, no recorder, not recording. */
    method Cleanup()
      modifies this
      ensures Valid()
      ensures audioChunks == [] && mediaRecorder == None && !isRecording && apiKey == old(apiKey)
    {
      audioChunks := [];
      mediaRecorder := None;
      isRecording := false;
    }

    method GetIsRecording() returns (b: bool)
      ensures b == isRecording
    {
      b := isRecording;
    }

    /** `cancelRecording`: stops and forgets an active recording; does
        nothing otherwise. */
    method CancelRecording()
      requires Valid()
      modifies this
      ensures Valid() && apiKey == old(apiKey)
      ensures old(isRecording) ==> audioChunks == [] && mediaRecorder == None && !isRecording
      ensures !old(isRecording) ==>
        (audioChunks == old(audioChunks) && mediaRecorder == old(mediaRecorder) && isRecording == old(isRecording))
    {
      if mediaRecorder.Some? && isRecording {
        Cleanup();
      }
    }

    /** `stopRecording` followed by the recorder's `onstop` handler: the
        chunks become one blob of the recorder's type, which is rejected when
        shorter than 1000 bytes and transcribed otherwise; the recording is
        forgotten on both paths. `decoded` and `reply` are the oracles of the
        transcription. */
    method StopRecording(decoded: Option<Wav.AudioBuffer>, reply: Reply) returns (r: Result<string, string>)
      requires Valid()
      modifies this
      ensures Valid() && apiKey == old(apiKey)
      ensures !old(isRecording) ==> (r == Failure(NoActiveRecording)
        && audioChunks == old(audioChunks) && mediaRecorder == old(mediaRecorder) && isRecording == old(isRecording))
      ensures old(isRecording) ==> (audioChunks == [] && mediaRecorder == None && !isRecording)
      ensures old(isRecording) ==>
        var blob := Blob(old(mediaRecorder).value.mimeType, ChunkData(old(audioChunks)));
        r == if |blob.data| < MinRecordingSize then Failure(TooShortError)
             else Transcription(apiKey, blob, decoded, reply).result
    {
      if mediaRecorder.None? || !isRecording {
        return Failure(NoActiveRecording);
      }
      isRecording := false;
      var blob := Blob(mediaRecorder.value.mimeType, ChunkData(audioChunks));
      if |blob.data| < MinRecordingSize {
        r := Failure(TooShortError);
      } else {
        var t := TranscribeAudio(blob, decoded, reply);
        r := t.result;
      }
      Cleanup();
    }

    /** `transcribeAudio`, step by step; see `Transcription`. */
    method TranscribeAudio(blob: Blob, decoded: Option<Wav.AudioBuffer>, reply: Reply) returns (t: Transcript)
      ensures t == Transcription(apiKey, blob, decoded, reply)
    {
      if apiKey == "" {
        return Transcript(Failure(NoApiKeyError), None);
      }
      var processed, filename := blob, OriginalFilename;
      if NeedsConversion(blob.mimeType) {
        // `convertToSupportedFormat` returns the recording itself when it
        // cannot be decoded, so the name is changed on both paths.
        if decoded.Some? {
          var wav := Wav.AudioBufferToWav(decoded.value);
          processed := Blob(Wav.WavMime, wav);
        }
        filename := WavFilename;
      }
      if |processed.data| < MinUploadSize {
        return Transcript(Failure(TooSmallError), None);
      }
      if |processed.data| > MaxUploadSize {
        return Transcript(Failure(TooLargeError), None);
      }
      var upload := Upload(processed, filename, ModelId);
      t := Transcript(ReplyResult(reply), Some(upload));
    }
  }

  // ------------------------------------------------------------ transcription

  /** Conversion is attempted only for a type that names none of "wav",
      "mp3" and "mp4". */
  predicate NeedsConversion(mimeType: string) {
    !Contains(mimeType, "wav") && !Contains(mimeType, "mp3") && !Contains(mimeType, "mp4")
  }

  /** The upload step as intended: the WAV rendering of the decoded audio,
      named "recording.wav", when conversion was needed and decoding
      succeeded; the recording as it is, named "recording.webm", otherwise. */
  function PrepareUpload(blob: Blob, decoded: Option<Wav.AudioBuffer>): (Blob, string) {
    if NeedsConversion(blob.mimeType) && decoded.Some? then
      (Blob(Wav.WavMime, Wav.WavFile(decoded.value)), WavFilename)
    else (blob, OriginalFilename)
  }

  /** The upload step as written, which `Transcription` uses:
      `convertToSupportedFormat` catches a decoding failure itself and hands
      back the original recording, so the caller's fallback never runs and
      the name "recording.wav" is used whenever conversion was attempted. */
  function PrepareUploadAsWritten(blob: Blob, decoded: Option<Wav.AudioBuffer>): (Blob, string) {
    if NeedsConversion(blob.mimeType) then
      (if decoded.Some? then Blob(Wav.WavMime, Wav.WavFile(decoded.value)) else blob, WavFilename)
    else (blob, OriginalFilename)
  }

  /** Error message for an unsuccessful status. */
  function SttStatusError(status: nat, statusText: string, body: string): string {
    if status == 429 then RateLimitError
    else if status == 401 then InvalidKeyError
    else if status == 422 then InvalidAudioPrefix + body
    else ApiErrorPrefix + NatToString(status) + " " + statusText + ". Details: " + body
  }

  /** What the service's answer turns into. */
  function ReplyResult(reply: Reply): Result<string, string> {
    match reply
    case FetchThrew(m) => Failure(m)
    case Response(status, statusText, body, json) =>
      if !(200 <= status <= 299) then Failure(SttStatusError(status, statusText, body))
      else match json
        case Failure(m) => Failure(m)
        case Success(text) => Success(text.GetOr(""))
  }

  /** One transcription attempt: the key check, the upload preparation as
      written, the two size checks and then the service's answer. */
  function Transcription(apiKey: string, blob: Blob, decoded: Option<Wav.AudioBuffer>, reply: Reply): Transcript {
    if apiKey == "" then Transcript(Failure(NoApiKeyError), None)
    else
      var (file, filename) := PrepareUploadAsWritten(blob, decoded);
      if |file.data| < MinUploadSize then Transcript(Failure(TooSmallError), None)
      else if |file.data| > MaxUploadSize then Transcript(Failure(TooLargeError), None)
      else Transcript(ReplyResult(reply), Some(Upload(file, filename, ModelId)))
  }

  // ------------------------------------------------------------ properties

  /** Without a key nothing is uploaded and the attempt fails with the
      missing-key error. */
  lemma NoKeyNoUpload(blob: Blob, decoded: Option<Wav.AudioBuffer>, reply: Reply)
    ensures Transcription("", blob, decoded, reply) == Transcript(Failure(NoApiKeyError), None)
  {
  }

  /** An upload is made exactly when a key is configured and the prepared
      file is between 100 bytes and 25 MiB; it always names the "scribe_v1"
      model. Otherwise the size error matching the violated bound is
      reported. */
  lemma UploadWithinLimits(apiKey: string, blob: Blob, decoded: Option<Wav.AudioBuffer>, reply: Reply)
    ensures var t := Transcription(apiKey, blob, decoded, reply);
            var prepared := PrepareUploadAsWritten(blob, decoded);
            var size := |prepared.0.data|;
            && (t.upload.Some? <==> apiKey != "" && MinUploadSize <= size <= MaxUploadSize)
            && (t.upload.Some? ==> t.upload.value == Upload(prepared.0, prepared.1, ModelId))
            && (apiKey != "" && size < MinUploadSize ==> t.result == Failure(TooSmallError))
            && (apiKey != "" && size > MaxUploadSize ==> t.result == Failure(TooLargeError))
  {
  }

  /** A file named "recording.wav" is the WAV rendering of the decoded
      recording; a file named "recording.webm" is the recording unchanged. A
      recording already in a WAV, MP3 or MP4 type is always sent unchanged. */
  lemma UploadNameMatchesContent(blob: Blob, decoded: Option<Wav.AudioBuffer>)
    ensures var file, filename := PrepareUpload(blob, decoded).0, PrepareUpload(blob, decoded).1;
            && (filename == WavFilename <==> NeedsConversion(blob.mimeType) && decoded.Some?)
            && (filename == WavFilename ==> file == Blob(Wav.WavMime, Wav.WavFile(decoded.value)))
            && (filename != WavFilename ==> filename == OriginalFilename && file == blob)
            && (!NeedsConversion(blob.mimeType) ==> file == blob && filename == OriginalFilename)
  {
    assert |WavFilename| != |OriginalFilename|;
  }

  /** A converted upload is 44 header bytes plus two bytes per sample. */
  lemma ConvertedUploadSize(blob: Blob, buf: Wav.AudioBuffer)
    requires NeedsConversion(blob.mimeType)
    ensures |PrepareUpload(blob, Some(buf)).0.data| == Wav.HeaderSize + buf.length * |buf.channels| * 2
  {
    Wav.WavFileLength(buf);
    Wav.DataLengthIsProduct(buf.length, |buf.channels|);
  }

  /** As written, a recording that needs conversion but cannot be decoded is
      sent with its own bytes and type under the name "recording.wav". */
  lemma WavNameWithoutDecoding(blob: Blob)
    requires NeedsConversion(blob.mimeType)
    ensures PrepareUploadAsWritten(blob, None) == (blob, WavFilename)
    ensures PrepareUpload(blob, None) == (blob, OriginalFilename)
  {
  }

  /** The step as written and the intended one always send the same file;
      their names differ exactly when conversion was attempted and decoding
      failed. */
  lemma AsWrittenDiffersOnlyInName(blob: Blob, decoded: Option<Wav.AudioBuffer>)
    ensures PrepareUploadAsWritten(blob, decoded).0 == PrepareUpload(blob, decoded).0
    ensures (PrepareUploadAsWritten(blob, decoded).1 != PrepareUpload(blob, decoded).1)
        <==> (NeedsConversion(blob.mimeType) && decoded.None?)
  {
    assert |WavFilename| != |OriginalFilename|;
  }

  /** The recorder's default type, "audio/webm;codecs=opus", names none of
      "wav", "mp3", "mp4": such a recording is always converted first. */
  lemma DefaultTypeNeedsConversion(mimeType: string)
    requires mimeType == DefaultMimeType
    ensures NeedsConversion(mimeType)
  {
    assert forall i :: 0 <= i < |mimeType| ==> mimeType[i] !in "v34";
    NotContainsChar(mimeType, "wav", 2);
    NotContainsChar(mimeType, "mp3", 2);
    NotContainsChar(mimeType, "mp4", 2);
  }

  /** So an undecodable recording of the default type goes out named
      "recording.wav" while holding the recorder's own bytes and type. */
  lemma WavNameOnUndecodedRecording(data: seq<Wav.Byte>)
    ensures var blob := Blob(DefaultMimeType, data);
            && PrepareUploadAsWritten(blob, None).1 == WavFilename
            && PrepareUploadAsWritten(blob, None).0.mimeType == DefaultMimeType != Wav.WavMime
  {
    DefaultTypeNeedsConversion(DefaultMimeType);
    WavNameWithoutDecoding(Blob(DefaultMimeType, data));
    assert |DefaultMimeType| != |Wav.WavMime|;
  }

  /** Statuses 429, 401 and 422 each have their own message, and every
      other status shares a generic one. */
  lemma SttStatusErrors(status: nat, statusText: string, body: string)
    ensures var m := SttStatusError(status, statusText, body);
            && (status == 429 <==> m == RateLimitError)
            && (status == 401 <==> m == InvalidKeyError)
            && (status == 422 <==> IsPrefix(InvalidAudioPrefix, m))
            && (status !in {429, 401, 422} <==> IsPrefix(ApiErrorPrefix, m))
  {
    var m := SttStatusError(status, statusText, body);
    assert RateLimitError[0] == 'R' && InvalidKeyError[0] == 'I' && InvalidKeyError[8] == 'A';
    assert InvalidAudioPrefix[0] == 'I' && InvalidAudioPrefix[8] == 'a' && ApiErrorPrefix[0] == 'S';
    if status == 422 {
      assert m[..|InvalidAudioPrefix|] == InvalidAudioPrefix;
    } else if status !in {429, 401} {
      assert m[..|ApiErrorPrefix|] == ApiErrorPrefix;
    }
  }

  /** The generic message names the status, its text and the response
      body. */
  lemma SttGenericError(status: nat, statusText: string, body: string)
    requires status !in {429, 401, 422}
    ensures Contains(SttStatusError(status, statusText, body), NatToString(status))
    ensures Contains(SttStatusError(status, statusText, body), body)
  {
    var n := NatToString(status);
    var head := ApiErrorPrefix + n + " " + statusText + ". Details: ";
    assert SttStatusError(status, statusText, body) == head + body;
    assert head + body == ApiErrorPrefix + n + (" " + statusText + ". Details: " + body);
    ContainsMiddle(ApiErrorPrefix, n, " " + statusText + ". Details: " + body);
    assert head + body == head + body + [];
    ContainsMiddle(head, body, []);
  }

  /** A transcript is produced only for a successful status whose body
      parsed; it is the body's `text`, or "" when that is absent. */
  lemma ReplyOutcomes(reply: Reply)
    ensures var r := ReplyResult(reply);
            && (r.Success? <==> reply.Response? && 200 <= reply.status <= 299 && reply.json.Success?)
            && (r.Success? ==> r.value == reply.json.value.GetOr(""))
            && (reply.Response? && !(200 <= reply.status <= 299) ==>
                  r == Failure(SttStatusError(reply.status, reply.statusText, reply.body)))
  {
  }
}
