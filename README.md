# Resume chatbot core, modelled in Dafny

The system is a chatbot that answers questions about one person's résumé. Its
backend stores document chunks with embeddings. For each question it:

- retrieves relevant chunks by a hybrid of vector and keyword search;
- asks two chat models for an answer;
- has a third call merge the two replies into one.

Around that sit:

- a chunker that turns source documents into stored passages;
- a browser-side recorder that packs microphone audio into a WAV file for
  transcription;
- a text-to-speech client and server action;
- a handful of table operations: documents, messages, access requests,
  sessions and a one-off migration.

The project models the sequential logic under that wiring. Each external
service is a parameter of the model:

- the embedding provider, the vector index and the three chat models;
- the speech services, the microphone and the audio decoder;
- the clock and the random token and session suffixes.

| module (file) | what it models |
|---|---|
| `Wrappers` (wrappers.dfy) | `Option` and `Result` |
| `Text` (text.dfy) | the string built-ins the code relies on: substring test, lower-casing, join, split, trim, decimal rendering |
| `Tables` (tables.dfy) | the database: the four tables as sequences of records shaped after `convex/schema.ts`, held by class `Db`; a query's `.filter(..).first()`; a delete |
| `Search` (search.dfy) | `convex/search.ts`: the id lookup loop, the keyword retriever, the vector retriever and the decision rule of `hybridSearch` |
| `Chat` (chat.dfy) | `convex/chat.ts`: the fallback chain of `generateAnswer`, its prompt construction, `sendMessage` and `getMessages` |
| `Chunking` (chunking.dfy) | `scripts/process_documents.py`: the paragraph packer and the sentence splitter and grouper |
| `Wav` (wav.dfy) | `audioBufferToWav` in `utils/speechToText.ts`: the 44-byte RIFF/WAVE header and the interleaved 16-bit samples, written into an array |
| `SpeechToText` (speech_to_text.dfy) | the rest of `utils/speechToText.ts`: the recorder's state, the upload preparation, the size checks and the status-to-error mapping |
| `SpeechText` (speech_text.dfy) | `cleanTextForSpeech`, identical in `utils/textToSpeech.ts` and `convex/textToSpeech.ts`, as left-to-right scanners for its regular expressions |
| `TextToSpeech` (text_to_speech.dfy) | `utils/textToSpeech.ts`: the rate limiter, the status-to-error mapping and the outcome of `speak` |
| `TextToSpeechAction` (text_to_speech_action.dfy) | `convex/textToSpeech.ts`: the envelope returned by `convertTextToSpeech` |
| `Documents`, `Auth`, `Sessions`, `Migrations` | `convex/documents.ts`, `convex/auth.ts`, `convex/session.ts`, `convex/migrations.ts` |

How the state-changing code is modelled:

- Imperative code stays imperative:
  - the lookup loop, the chunkers' loops and the WAV writer are methods with
    loop invariants, proved against specification functions (`Fetched`,
    `GroupFold`, `PackFold`, `WavFile`);
  - the recorder and the text-to-speech client are classes whose methods
    update their fields;
  - every table mutation is a method that `modifies` the `Db`.
- The properties are proved about the specification functions.

Where the code and the documentation of the system disagree, the model
follows the code:

- `getActiveSession` applies only the expiry test.
- `Transcription` and `TranscribeAudio` upload a recording that cannot be
  decoded as `recording.wav`, as the code does (`PrepareUploadAsWritten`).
  `PrepareUpload` is the corrected upload step. It names a file
  `recording.wav` only when it holds the WAV rendering.

Both are listed under "## Findings".

## Model

| member | source | states |
|---|---|---|
| Text.ToLower | convex/search.ts:70 | the lower-cased string has the same length and each character is lower-cased individually |
| Text.SplitOn | scripts/process_documents.py:168 | splitting always yields at least one piece |
| Text.SplitOnJoin | scripts/process_documents.py:168 | joining the pieces with the separator gives back the input, so splitting loses nothing |
| Text.SplitOnPieces | scripts/process_documents.py:168 | no piece contains the separator |
| Text.TrimStart | utils/textToSpeech.ts:120 | the result is a suffix of the input that does not start with whitespace, and exactly whitespace was dropped |
| Text.TrimEnd | utils/textToSpeech.ts:120 | the result is a prefix of the input that does not end with whitespace, and exactly whitespace was dropped |
| Text.Trim | utils/textToSpeech.ts:120 | the trimmed string has no whitespace at either end |
| Text.TrimIsSlice | scripts/process_documents.py:97 | the trimmed string is one contiguous slice of the input, and only whitespace lies outside it |
| Text.NatToString | convex/textToSpeech.ts:41 | a status renders as a non-empty string of decimal digits |
| Text.NatToStringValue | convex/textToSpeech.ts:41 | the digits read back as a decimal number give the status itself, and only 0 renders with a leading '0' |
| Text.NatToStringInjective | convex/textToSpeech.ts:41 | two different statuses never render as the same text |
| Text.JoinContainsPart | convex/chat.ts:100 | every part of a join occurs in the joined string |
| Tables.FirstIndex | convex/auth.ts:34-37 | the position found satisfies the filter and no earlier record does; None exactly when no record does |
| Tables.FirstIndexSame | convex/auth.ts:34-37 | the first match depends only on the filter's verdicts at each position |
| Tables.RemoveAt | convex/documents.ts:34 | deleting the k-th record keeps the records before and after it, in order |
| Tables.RemoveAtExactly | convex/documents.ts:33-36 | deleting a document by id removes exactly that document, keeps every other one and keeps ids distinct |
| Tables.Db.constructor | convex/schema.ts:4-37 | a fresh database has four empty tables |
| Search.Lookup | convex/search.ts:27 | `db.get(id)` finds a document with that id from the table, and finds none only when no document has that id |
| Search.FetchResults | convex/search.ts:25-33 | the loop returns exactly the documents found for the ids, in the order of the ids, skipping missing ids |
| Search.FetchedBounds | convex/search.ts:25-33 | at most one result per id; every result is in the table and was asked for |
| Search.FetchedAllPresent | convex/search.ts:25-33 | when every id exists, the i-th result is the document with the i-th id |
| Search.FetchedDistinct | convex/search.ts:25-33 | distinct ids give documents with distinct ids |
| Search.MatchesMembership | convex/search.ts:66-75 | a document is a match exactly when it is in the table and its lower-cased content contains the lower-cased query |
| Search.MatchesAppend | convex/search.ts:66-75 | the filter keeps table order |
| Search.MatchesDistinct | convex/search.ts:66-75 | matches from a table with distinct ids have distinct ids |
| Search.PositionScores | convex/search.ts:79-83 | for the positional score `1 - i/n`: the first is exactly 1, all lie in (0, 1], and they strictly decrease with the position |
| Search.KeywordRetriever | convex/search.ts:59-89 | one result per keyword match, in order, with the match's text and id; the i-th of n results scores exactly `1 - i/n`, so the first scores 1, every score lies in (0, 1], and scores strictly decrease |
| Search.HitIds | convex/search.ts:116 | the ids of the vector hits, in order |
| Search.PairScores | convex/search.ts:119-123 | one result per fetched document, in order, carrying that document's id and text and the score of the hit at the same position |
| Search.VectorResults | convex/search.ts:114-124 | one result per fetched document (at most one per hit, since missing ids are skipped), in order, with that document's id and text and the score of the hit at the same position |
| Search.ScoreShiftOnMissingId | convex/search.ts:119-123 | pairing is by position: when an id has no document, the next document takes the missing one's score |
| Search.Unseen | convex/search.ts:145-146 | a lexical result is kept exactly when its id is not among the semantic ids |
| Search.InsertByScore | convex/search.ts:149-150 | one insertion step of the sort adds the element and keeps all others |
| Search.SortByScore | convex/search.ts:149-150 | the sort is a permutation of its input |
| Search.InsertKeepsSorted | convex/search.ts:149-150 | inserting into a list sorted by descending score keeps it sorted |
| Search.InsertKeepsIds | convex/search.ts:149-150 | inserting keeps the set of ids, and keeps them distinct when the new id is new |
| Search.SortByScoreSorted | convex/search.ts:149-150 | the sort orders by descending score and keeps the ids and their distinctness |
| Search.UnseenDistinct | convex/search.ts:145-146 | the kept lexical results have no id in common with the semantic ones |
| Search.Merge | convex/search.ts:133-153 | the merge is a permutation of the semantic results followed by the new lexical results, so its length is the sum of theirs |
| Search.MergeProperties | convex/search.ts:133-153 | the merge is sorted by descending score, its ids are the semantic ids plus those of the new lexical results, and it repeats no id when the inputs do not |
| Search.ChunkEmbeddingsRetriever | convex/search.ts:37-57 | every vector query it makes asks for 50 neighbours; when the embedding or the vector query throws it yields nothing, and otherwise it yields `VectorResults` of the hits |
| Search.ChunkEmbeddingsAllPresent | convex/search.ts:37-57 | when every hit's id exists, there is one result per hit, the i-th carrying that document's content, the hit's id and the hit's score |
| Search.HybridConfidentVector | convex/search.ts:114-124 | when the top vector score is above 0.7, the result is the fetched vector results and the keyword retriever is never called |
| Search.HybridMerged | convex/search.ts:126-153 | when the top score is at most 0.7, the result is the merge of the vector and keyword results; with distinct vector ids and a valid table no id appears twice |
| Search.HybridNoHits | convex/search.ts:156 | with no vector hits, the keyword results are returned unchanged |
| Search.HybridVectorFailure | convex/search.ts:158-169 | a missing key or any throw on the vector path gives the keyword results alone, or `[]` when those throw too |
| Search.HybridVectorLimit | convex/search.ts:107-110 | every vector query asks for at most 50 neighbours |
| Chat.Texts | convex/chat.ts:100 | the texts of the retrieved documents, in retrieval order |
| Chat.HistoryMessages | convex/chat.ts:92-95 | the history as messages, in order, keeping role and content |
| Chat.PromptMessages | convex/chat.ts:90-113 | the prompt is the system prompt, then the history in order, then the user query, then one system message carrying the context |
| Chat.GenerateAnswer | convex/chat.ts:68-190 | the step-by-step answer equals the decision chain `ComposeAnswer`, with every model call recorded |
| Chat.AnswerFromDocuments | convex/chat.ts:89-185 | with documents found, the answer is the chain after both primary calls |
| Chat.AskOpenAI | convex/chat.ts:117-133 | the first model's reply, with an empty or missing reply replaced by a fixed text and a throw by its sentinel |
| Chat.AskCohere | convex/chat.ts:135-150 | the second model's text, or its sentinel when the call throws |
| Chat.Conclude | convex/chat.ts:152-185 | the end of the chain: the apology when both replies look failed, otherwise the refined answer or its fallback |
| Chat.AskRefine | convex/chat.ts:166-182 | the refined answer; when the call throws, the first reply unless it looks failed, else the second |
| Chat.ComposeWithDocuments | convex/chat.ts:89-150 | with documents found, the answer depends only on the two primary replies, and both models are asked, first model first |
| Chat.NoModelWithoutDocuments | convex/chat.ts:74-87 | a failed search gives the search apology, an empty search the no-information reply, and neither calls a model |
| Chat.SentinelsLookFailed | convex/chat.ts:130-150 | both sentinels contain the failure marker "Error" |
| Chat.ContextGrounding | convex/chat.ts:100-139 | every retrieved text occurs in the first model's context message and in the second model's prompt |
| Chat.PrimaryCallsIsolated | convex/chat.ts:117-150 | with documents found, both primary models are asked, in order, with prompts built from the same documents; a throw in one does not stop the other |
| Chat.RefineOnlyWhenOneSucceeded | convex/chat.ts:152-176 | when both replies contain "Error", the apology is returned without a refining call; otherwise the refining call gets both replies, first model first |
| Chat.GenuineReplyWithMarkerCountsAsFailure | convex/chat.ts:153-155 | a genuine first reply that mentions "Error", together with a failed second call, is treated as a double failure |
| Chat.RefineFailureKeepsSuccessfulResponse | convex/chat.ts:178-182 | when exactly one primary call and the refining call throw, the answer is the other model's reply, unless that reply itself contains "Error" |
| Chat.SendMessage | convex/chat.ts:199-206 | inserts exactly one message with the given content, role and timestamp and a fresh id; nothing else changes |
| Chat.GetMessages | convex/chat.ts:209-213 | at most 50 messages, newest first |
| Chunking.BlankIffStripsToNothing | scripts/process_documents.py:174 | a paragraph is skipped exactly when stripping leaves nothing |
| Chunking.NonBlank | scripts/process_documents.py:173-175 | no kept paragraph is blank |
| Chunking.FallbackChunks | scripts/process_documents.py:178-200 | exactly one chunk per paragraph group; the i-th holds the i-th group joined with newlines, its index i, its length and the fallback method tag |
| Chunking.PackStepKeepsInvariant | scripts/process_documents.py:174-191 | one loop iteration keeps the packer's invariant |
| Chunking.PackFoldInvariant | scripts/process_documents.py:173-191 | after any paragraphs, the groups hold exactly the non-blank paragraphs seen, in order, and are greedily packed |
| Chunking.FallbackGroupsProperties | scripts/process_documents.py:168-202 | the groups concatenate to the non-blank paragraphs in order; none is empty; a group of two or more fits in `chunk_size`; a group closes only when the next paragraph would not fit; no chunks exactly when every paragraph is blank |
| Chunking.WhitespaceTextHasNoChunks | scripts/process_documents.py:174-175 | text made only of whitespace gives no chunks |
| Chunking.SimpleChunkFallback | scripts/process_documents.py:165-204 | the loop returns the chunks of the packed groups of the text's paragraphs |
| Chunking.DropTerminators | scripts/process_documents.py:96 | the result is a suffix of the input that does not start with `.`, `!` or `?`, and everything dropped is `.`, `!` or `?` |
| Chunking.SplitOnRuns | scripts/process_documents.py:96 | splitting on terminator runs yields at least one piece |
| Chunking.SplitOnRunsNoTerminator | scripts/process_documents.py:96 | no piece contains a terminator |
| Chunking.SplitOnRunsKeepsText | scripts/process_documents.py:96 | the pieces concatenated are the input with its terminators removed |
| Chunking.SplitOnRunsShape | scripts/process_documents.py:96 | there is one separator fewer than pieces, each a non-empty run of terminators; every inner piece is non-empty, so each run is maximal; a text not starting with a terminator has a non-empty first piece; writing the runs between the pieces rebuilds the input |
| Chunking.SentencesWellFormed | scripts/process_documents.py:96-97 | every sentence is non-empty, holds no terminator and has no whitespace at either end |
| Chunking.ClosedChunks | scripts/process_documents.py:124-135 | exactly one chunk per closed sentence list |
| Chunking.JoinKeepsInvariant | scripts/process_documents.py:119-121 | a sentence that joins keeps the grouping invariant |
| Chunking.BreakKeepsInvariant | scripts/process_documents.py:124-138 | a sentence that starts a new chunk keeps the grouping invariant |
| Chunking.GroupFoldInvariant | scripts/process_documents.py:107-143 | after any non-empty sentence list, the grouping invariant holds |
| Chunking.StateChunksShape | scripts/process_documents.py:126-133 | each chunk built from the loop's variables has its sentences joined by spaces, its position, its length and its sentence count |
| Chunking.ClosedChunksLongEnough | scripts/process_documents.py:124-135 | every chunk closed inside the loop is at least `min_chunk_size` long |
| Chunking.SemanticChunksProperties | scripts/process_documents.py:96-155 | every sentence is in exactly one chunk, in order; content, index, size and sentence count are as computed; every chunk but the last is at least `min_chunk_size` long and records its closing similarity; no chunks exactly when there are no sentences |
| Chunking.SemanticGroupingRule | scripts/process_documents.py:107-138 | every sentence after the first of its chunk passed the join test (similar enough and under 2000 characters, or the chunk below the minimum), and every chunk but the last closed because the next sentence failed it |
| Chunking.GroupSentence | scripts/process_documents.py:108-138 | one loop iteration on the concrete variables follows one step of the specification |
| Chunking.SplitIntoSemanticChunks | scripts/process_documents.py:92-163 | the loop returns `SemanticChunks` of the text |
| Wav.LE | utils/speechToText.ts:234-252 | a little-endian field is n bytes long |
| Wav.DecodeLE_LE | utils/speechToText.ts:240-252 | reading back a little-endian field gives the value modulo 256^n |
| Wav.FitsRoundTrip | utils/speechToText.ts:240-252 | a value that fits in the field is read back unchanged |
| Wav.Int16RoundTrip | utils/speechToText.ts:259 | a value in the int16 range survives a 16-bit write and a signed read |
| Wav.DataLengthIsProduct | utils/speechToText.ts:230 | the data length is `frames * channels * 2` |
| Wav.WavHeader | utils/speechToText.ts:240-252 | the header is 44 bytes long |
| Wav.HeaderBlocks | utils/speechToText.ts:240-252 | the four header blocks sit at bytes 0-11, 12-23, 24-35 and 36-43 |
| Wav.RiffFields | utils/speechToText.ts:240-242 | "RIFF" at 0, `36 + dataLen` as u32 at 4, "WAVE" at 8 |
| Wav.FmtHeadFields | utils/speechToText.ts:243-246 | "fmt " at 12, 16 as u32 at 16, format 1 as u16 at 20, channels as u16 at 22 |
| Wav.FmtRateFields | utils/speechToText.ts:247-250 | sample rate as u32 at 24, byte rate `rate * channels * 2` at 28, block alignment `channels * 2` at 32, 16 bits at 34 |
| Wav.DataFields | utils/speechToText.ts:251-252 | "data" at 36 and the data length as u32 at 40 |
| Wav.ClampBounds | utils/speechToText.ts:258 | a clamped sample lies in [-1, 1] and equals the sample when it already did |
| Wav.TruncateTowardZero | utils/speechToText.ts:259 | the conversion to an integer drops the fraction towards zero |
| Wav.ScaleBounds | utils/speechToText.ts:259 | samples in [-1, 1] scale into [-32768, 32767], keeping their sign |
| Wav.Pcm16 | utils/speechToText.ts:258-259 | every written sample value lies in the int16 range |
| Wav.ToPcmAt | utils/speechToText.ts:256-259 | sample i of channel c is the converted input sample |
| Wav.SampleOffsetValue | utils/speechToText.ts:255-261 | the offset of frame i, channel c is `44 + 2 * (i * channels + c)` |
| Wav.WavFileLength | utils/speechToText.ts:230 | the file is `44 + frames * channels * 2` bytes long |
| Wav.WavLayout | utils/speechToText.ts:255-262 | the int16 at `44 + 2 * (i * channels + c)` is the clamped, scaled sample of frame i, channel c |
| Wav.SetBytes | utils/speechToText.ts:234-238 | a data-view write puts the bytes at the offset and changes nothing else |
| Wav.WriteHeader | utils/speechToText.ts:240-252 | the header writes leave the 44-byte header in the first 44 bytes |
| Wav.WriteFrame | utils/speechToText.ts:256-261 | the inner loop appends frame i's samples, channel by channel |
| Wav.AudioBufferToWav | utils/speechToText.ts:226-265 | the array filled through the data view holds exactly `WavFile(buf)`, `44 + frames * channels * 2` bytes |
| SpeechToText.ChooseMimeTypePreference | utils/speechToText.ts:20-27 | the first supported preferred type is chosen, and the default only when none is supported |
| SpeechToText.ChunkDataAt | utils/speechToText.ts:67 | each chunk's bytes sit in the joined blob right after those of the chunks before it |
| SpeechToText.SpeechToTextService.constructor | utils/speechToText.ts:3-6 | a new service has the configured key, no recorder, no chunks and is not recording |
| SpeechToText.SpeechToTextService.StartRecording | utils/speechToText.ts:8-53 | without a microphone it fails with the access error and nothing changes; otherwise the chunk buffer is emptied, a recorder of the chosen type is created and the recording flag is set, and the call fails with the access error when the recorder does not start |
| SpeechToText.SpeechToTextService.OnDataAvailable | utils/speechToText.ts:40-44 | only a non-empty chunk is appended |
| SpeechToText.SpeechToTextService.Cleanup | utils/speechToText.ts:267-271 | leaves no chunks, no recorder and not recording |
| SpeechToText.SpeechToTextService.GetIsRecording | utils/speechToText.ts:273-275 | reports the recording flag |
| SpeechToText.SpeechToTextService.CancelRecording | utils/speechToText.ts:277-286 | cleans up an active recording and is a no-op otherwise |
| SpeechToText.SpeechToTextService.StopRecording | utils/speechToText.ts:55-98 | with no active recording it fails with "No active recording" and nothing changes; otherwise the recording is forgotten and a blob under 1000 bytes is rejected as too short, while a longer one is transcribed |
| SpeechToText.SpeechToTextService.TranscribeAudio | utils/speechToText.ts:100-200 | a transcription attempt is `Transcription` of the key, the blob and the oracles, which uploads what `PrepareUploadAsWritten` prepares |
| SpeechToText.NoKeyNoUpload | utils/speechToText.ts:102-104 | without a key nothing is uploaded and the attempt fails with the missing-key error |
| SpeechToText.UploadWithinLimits | utils/speechToText.ts:131-143 | an upload is made exactly when a key is set and the file prepared as written is 100 bytes to 25 MiB, and it carries that file, its name and the model id; otherwise the matching size error is reported |
| SpeechToText.UploadNameMatchesContent | utils/speechToText.ts:112-129 | for the corrected upload step `PrepareUpload` (not the code as written): "recording.wav" holds the WAV rendering of the decoded audio, "recording.webm" the recording unchanged; a wav, mp3 or mp4 type is never converted |
| SpeechToText.ConvertedUploadSize | utils/speechToText.ts:230 | a converted upload is 44 bytes plus two per sample |
| SpeechToText.WavNameWithoutDecoding | utils/speechToText.ts:116-129 | as written, an undecodable recording is sent with its own bytes under "recording.wav"; the intended step names it "recording.webm" |
| SpeechToText.DefaultTypeNeedsConversion | utils/speechToText.ts:20 | the default type names none of "wav", "mp3", "mp4", so its recordings are converted first |
| SpeechToText.AsWrittenDiffersOnlyInName | utils/speechToText.ts:112-129 | the upload as written carries the same file as the corrected one, and the names differ exactly when conversion was attempted and decoding failed |
| SpeechToText.WavNameOnUndecodedRecording | utils/speechToText.ts:202-224 | an undecodable recording of the default type goes out named "recording.wav" while holding the recorder's own bytes and type |
| SpeechToText.SttStatusErrors | utils/speechToText.ts:179-187 | 429, 401 and 422 each have their own message, distinct from each other and from the generic one |
| SpeechToText.SttGenericError | utils/speechToText.ts:186 | the generic message names the status and the response body |
| SpeechToText.ReplyOutcomes | utils/speechToText.ts:164-195 | a transcript is produced only for a successful status with a parsed body; it is the body's text, or "" when absent |
| SpeechText.FindClose | utils/textToSpeech.ts:113-116 | the lazy `.*?` ends at the first closing delimiter on the same line |
| SpeechText.LinkAt | utils/textToSpeech.ts:116 | a link match is "[", text, "](", target, ")" on one line |
| SpeechText.HashRun | utils/textToSpeech.ts:117 | the run of '#' starting at a position |
| SpeechText.RunEnd | utils/textToSpeech.ts:118-119 | the end of a maximal run of line breaks or whitespace |
| SpeechText.CollapsedSpaces | utils/textToSpeech.ts:119 | after `\s+` becomes " ", the text is single-spaced |
| SpeechText.CleanTextNormalized | utils/textToSpeech.ts:110-121 | the cleaned text has no line break, only single spaces as whitespace, and no whitespace at either end; the server copy at convex/textToSpeech.ts:63-74 is the same chain |
| SpeechText.PlainKeeps | utils/textToSpeech.ts:112-120 | text without markup, single-spaced and trimmed passes every step unchanged |
| SpeechText.BoldBecomesPlain | utils/textToSpeech.ts:113 | "\*\*x\*\*" becomes x for plain x |
| SpeechText.LinkBecomesText | utils/textToSpeech.ts:116 | "[t](u)" becomes t for plain t and inline u |
| SpeechText.HeadingBecomesPlain | utils/textToSpeech.ts:117 | one to six '#', a space, then plain x becomes x |
| TextToSpeech.WaitTime | utils/textToSpeech.ts:16-22 | under 1000 ms since the last request, the wait is `1000 - elapsed` and lies in (0, 1000]; otherwise there is no wait |
| TextToSpeech.TextToSpeechService.constructor | utils/textToSpeech.ts:3-5 | the key is the configured one or "", and no request has been made |
| TextToSpeech.TextToSpeechService.Speak | utils/textToSpeech.ts:13-108 | waits `WaitTime`, records the request time, sends the cleaned text to the given or default voice, ends with audio only on success, and alerts only on a rate-limit error |
| TextToSpeech.TtsStatusErrors | utils/textToSpeech.ts:56-64 | 429, 401 and 422 each have their own message, distinct from the generic one |
| TextToSpeech.TtsGenericError | utils/textToSpeech.ts:63 | the generic message names the status and its text |
| TextToSpeech.SpeakSucceedsOnlyOnOk | utils/textToSpeech.ts:52-95 | audio is returned exactly when the status is successful and the audio was read |
| TextToSpeech.RateLimitStatusAlerts | utils/textToSpeech.ts:96-104 | a 429 answer shows the rate-limit alert |
| TextToSpeech.InvalidKeyDoesNotAlert | utils/textToSpeech.ts:96-104 | a 401 answer does not show the alert |
| TextToSpeech.NonErrorDoesNotAlert | utils/textToSpeech.ts:96-104 | a thrown value that is not an `Error` does not show the alert |
| TextToSpeechAction.MissingKeyFails | convex/textToSpeech.ts:13-16 | without a key nothing is requested and the envelope says the key is not configured |
| TextToSpeechAction.RequestSent | convex/textToSpeech.ts:10-38 | with a key, one request is sent to the given or default voice "NihRgaLj2HWAjvZ5XNxl" with the cleaned text |
| TextToSpeechAction.SuccessEnvelope | convex/textToSpeech.ts:40-52 | success exactly when the key is set, the status is successful and the audio was read; it carries the audio as "audio/mpeg" |
| TextToSpeechAction.ErrorStatusEnvelope | convex/textToSpeech.ts:40-42 | an unsuccessful status gives a failure whose message names the status and its text |
| TextToSpeechAction.ThrownEnvelope | convex/textToSpeech.ts:53-58 | a thrown `Error` passes its message through; anything else gives the unknown-error message |
| Documents.Store | convex/documents.ts:11-18 | appends exactly one document with a fresh id; nothing else changes |
| Documents.ListDocuments | convex/documents.ts:24-26 | every document, in table order |
| Documents.DeleteDocument | convex/documents.ts:33-36 | removes exactly the document with that id and keeps every other one |
| Documents.ClearAllDocuments | convex/documents.ts:40-46 | empties the table and returns the prior count; the other tables are unchanged |
| Documents.UploadDocument | convex/documents.ts:54-66 | inserts one document whose embedding is the provider's embedding of its content; nothing when that throws |
| Auth.RequestAccess | convex/auth.ts:12-26 | appends exactly one verified request with the email and token and reports success |
| Auth.Verify | convex/auth.ts:34-47 | fails exactly when no request has the token |
| Auth.VerifyAccess | convex/auth.ts:33-50 | an unknown token fails with "Invalid access token" and changes nothing; otherwise the table becomes `Verify` of it |
| Auth.VerifyMarksFirst | convex/auth.ts:34-47 | only the first request with the token is marked verified at `now`; every other request is unchanged |
| Auth.VerifyIdempotent | convex/auth.ts:44-47 | verifying twice gives the same table as verifying once at the later time |
| Auth.CheckAccess | convex/auth.ts:57-65 | everyone has access |
| Sessions.CreateSession | convex/session.ts:6-19 | appends one active session of the user, expiring 86 400 000 ms after its start, named "session_" plus the suffix |
| Sessions.GetActiveSessionAsWritten | convex/session.ts:24-36 | as written: a session that has not expired, or none when all have |
| Sessions.GetActiveSession | convex/session.ts:24-36 | as intended: a live session of the user, or none when the user has none |
| Sessions.AsWrittenReturnsForeignSession | convex/session.ts:28-32 | as written, the lookup returns another user's ended session |
| Sessions.AsWrittenAgreesOnOwnLiveSessions | convex/session.ts:28-33 | both lookups agree whenever every unexpired session is a live session of the user |
| Sessions.End | convex/session.ts:42-49 | ending keeps the table's length |
| Sessions.EndSession | convex/session.ts:41-49 | the sessions table becomes `End` of it; nothing else changes |
| Sessions.EndChangesOnlyFirstMatch | convex/session.ts:42-49 | only the `active` flag of the first session with the name changes; an unknown name changes nothing |
| Migrations.MigratedAll | convex/migrations.ts:7-16 | each message is migrated in place |
| Migrations.MigrateMessages | convex/migrations.ts:6-16 | the loop leaves every message migrated; the other tables are unchanged |
| Migrations.MigrationKeeps | convex/migrations.ts:9-15 | count, ids, contents, roles and timestamps are kept; owned messages are untouched; afterwards every message has an owner, "default" for those that had none |
| Migrations.MigrationIdempotent | convex/migrations.ts:7-16 | running the migration again changes nothing |

## Left out

- External services are parameters, not code: the embedding provider, the vector index, the three chat models, the speech-to-text and text-to-speech services, the microphone, the audio decoder, the clock and the random token and suffix generators.
- The module-level client construction at convex/chat.ts:9-29 is not part of this model. Console logging everywhere is left out, because it has no effect on results.
- Cosine similarity (scripts/process_documents.py:71-90) is an oracle returning a real number. It is compared with the threshold as in the code.
- The per-sentence and outer `except` clauses of the semantic chunker are left out. The modelled steps cannot raise, and the similarity oracle is total.
- Floating-point arithmetic is modelled with exact reals: scores, the scaling of samples and `1 - i/n`. Rounding is not captured.
- `read_docx`, `process_documents()` and the other scripts only do I/O.
- MediaRecorder, getUserMedia and AudioContext decoding are oracles: a `granted` flag and a `decoded` optional buffer. Stopping the media tracks is not modelled.
- Base64 encoding of the audio (convex/textToSpeech.ts:46) is left out. The envelope carries the bytes.
- Playback and `alert` in `speak` become a returned audio value and an `alerted` flag. The sleep itself is not modelled, only `WaitTime`.
- The JSON parse of an error body (utils/speechToText.ts:171-177) only feeds a log line, so it is not modelled.
- Text.ToLower: lower-cases the ASCII letters only. Unicode case mapping is not captured.
- Documents.DeleteDocument: the database rejects the deletion of an id that is not in the table by throwing. The model reports this as `success` false with the table unchanged.
- Migrations.MigrateMessages: patches messages by position in the table rather than through a query handle.
- Auth.CheckAccess: the lookup it makes is not modelled, because its result is unused.
- The two copies of `cleanTextForSpeech` (utils/textToSpeech.ts:110-121 and convex/textToSpeech.ts:63-74) are character-for-character identical. Both are modelled by the one function `SpeechText.CleanTextForSpeech`.
- `testSpeak` and `setConvexAction` in utils/textToSpeech.ts are a manual test helper and a setter that only logs, so they are not modelled.
- Chat.GetMessages: descending order is modelled as reverse table order, that is creation order.
- The `listDocuments` query duplicated in convex/chat.ts:216-220 is the same read as `Documents.ListDocuments`.
- The user interface, the hosted database's concurrency and the static data files are left out.

## Findings

| source | as written | input that shows it | evidently intended | confidence | as-written member | corrected member |
|---|---|---|---|---|---|---|
| utils/speechToText.ts:112-129, 202-224 | `convertToSupportedFormat` catches a decoding failure itself and returns the original recording, so the caller's fallback never runs and the upload is named "recording.wav" whenever conversion was attempted | a recording of type "audio/webm;codecs=opus" that the audio decoder cannot decode | the file is named "recording.wav" only when it really is the WAV rendering, and "recording.webm" otherwise | not executed | SpeechToText.WavNameOnUndecodedRecording | SpeechToText.UploadNameMatchesContent |
| convex/session.ts:28-32 | the filter callback returns `a && b && c` over query expressions; all are truthy objects, so only the last, the expiry test, is applied | one session of user "bob", ended, expiring at 10; lookup for "alice" at time 5 returns it | the first session of the user that is active and not yet expired | not executed | Sessions.AsWrittenReturnsForeignSession | Sessions.GetActiveSession |
