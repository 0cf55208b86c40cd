/** Answer composition (`generateAnswer`) and the message table operations of
    the chat backend. Search, the two primary chat models and the refining call
    are oracles; every model call is recorded. */
module Chat {
  import opened Wrappers
  import opened Text
  import opened Tables
  import Search

  datatype ChatMessage = ChatMessage(role: string, content: string)

  /** An earlier turn of the conversation as the client sends it. */
  datatype HistoryEntry = HistoryEntry(role: string, content: string, timestamp: int)

  /** Outcome of a chat-completion request: it threw, or it returned a first
      choice whose message content may be null or missing (None). */
  datatype Completion = Threw | Replied(content: Option<string>)

  /** The model calls made while composing one answer, in order. */
  datatype ModelCall =
    | OpenAIChat(messages: seq<ChatMessage>)
    | CohereGenerate(prompt: string)
    | RefineChat(messages: seq<ChatMessage>)

  /** The composed answer and the model calls made for it. */
  datatype Answer = Answer(text: string, calls: seq<ModelCall>)

  const SystemPrompt: string :=
    "You are Eda's personal AI assistant, designed to answer " +
    "questions about her professional experience.\n\n" +
    "Your ONLY source of truth is the provided resume content.\n\n" +
    "IMPORTANT RULES:\n" +
    "1. ONLY use information explicitly present in the provided " +
    "resume content\n" +
    "2. Do NOT make assumptions or guess. If the answer isn't in " +
    "the context, say:\n" +
    "   - \"That's not mentioned in my records\"\n" +
    "   - or \"I don't have that information\"\n" +
    "3. Be precise and factual. Quote the resume when relevant\n" +
    "4. Never hallucinate or infer from outside knowledge\n" +
    "5. If you're unsure about something, say so rather than " +
    "guessing\n\n" +
    "When answering questions:\n" +
    "1. First check if the information exists in the resume content\n" +
    "2. If it exists, quote the relevant section\n" +
    "3. If it doesn't exist, clearly state that the information " +
    "is not available\n" +
    "4. Never make up or infer information that isn't explicitly " +
    "stated\n\n" +
    "Example response format:\n" +
    "\"According to my records, [specific information from " +
    "resume]. This is shown in the resume where it states: " +
    "'[exact quote from resume]'.\"\n\n" +
    "If information is not available:\n" +
    "\"I don't have that information in my records about " +
    "[specific topic].\"\n\n" +
    "Remember: Your primary goal is to provide accurate, factual " +
    "information based solely on the resume content. Never make " +
    "assumptions or guesses."

  const SearchErrorReply: string :=
    "I apologize, but I encountered an error while searching for " +
    "relevant information. Please try again later."
  const NoResultsReply: string :=
    "I apologize, but I couldn't find any relevant information " +
    "in my records to answer your question. Please try asking " +
    "about something else or rephrase your question."
  const BothFailedReply: string :=
    "I apologize, but I'm having trouble accessing my knowledge " +
    "base at the moment. Please try again later."
  const OpenAISentinel: string := "Error generating OpenAI response"
  const CohereSentinel: string := "Error generating Cohere response"
  const NoOpenAIReply: string := "No response from OpenAI"
  const NoRefinedReply: string := "No final response generated"
  const RefineSystemPrompt: string :=
    "You are an expert at combining and refining responses to " +
    "create the most compelling narrative."
  const ContextHeader: string :=
    "IMPORTANT: Here is the ONLY information you should use to " +
    "answer questions about Eda's experience. Do not use any " +
    "other information or make assumptions:\n\n"
  const ContextFooter: string :=
    "\n\nRemember:\n" +
    "1. ONLY use information from the above context\n" +
    "2. If information is not present, say so\n" +
    "3. Do not make up or infer information\n" +
    "4. Be precise and factual"

  /** The marker the code uses to recognise a failed primary response. */
  const FailureMarker: string := "Error"

  /** Number of messages `getMessages` returns. */
  const MessagePageSize: nat := 50

  function Texts(docs: seq<Search.SearchResult>): (r: seq<string>)
    ensures |r| == |docs| && forall i :: 0 <= i < |docs| ==> r[i] == docs[i].text
  {
    seq(|docs|, i requires 0 <= i < |docs| => docs[i].text)
  }

  /** The retrieved texts joined by blank lines, in retrieval order. */
  function Context(docs: seq<Search.SearchResult>): string {
    Join(Texts(docs), "\n\n")
  }

  function ContextMessage(context: string): string {
    ContextHeader + context + ContextFooter
  }

  function HistoryMessages(history: seq<HistoryEntry>): (r: seq<ChatMessage>)
    ensures |r| == |history|
    ensures forall i :: 0 <= i < |history| ==> r[i] == ChatMessage(history[i].role, history[i].content)
  {
    seq(|history|, i requires 0 <= i < |history| => ChatMessage(history[i].role, history[i].content))
  }

  /** The messages sent to the first model: the system prompt, the whole history
      in order with role and content, the user query, then one system message
      carrying the retrieved context. */
  function PromptMessages(history: seq<HistoryEntry>, query: string, docs: seq<Search.SearchResult>): (r: seq<ChatMessage>)
    ensures |r| == |history| + 3
    ensures r[0] == ChatMessage("system", SystemPrompt)
    ensures forall i :: 0 <= i < |history| ==> r[i + 1] == ChatMessage(history[i].role, history[i].content)
    ensures r[|history| + 1] == ChatMessage("user", query)
    ensures r[|history| + 2] == ChatMessage("system", ContextMessage(Context(docs)))
  {
    [ChatMessage("system", SystemPrompt)] + HistoryMessages(history) + [ChatMessage("user", query)]
      + [ChatMessage("system", ContextMessage(Context(docs)))]
  }

  /** The single prompt sent to the second model. */
  function CoherePrompt(query: string, docs: seq<Search.SearchResult>): string {
    var head := SystemPrompt + "\n\nContext: ";
    var tail := "\n\nQuestion: " + query + "\n\nAnswer:";
    head + Context(docs) + tail
  }

  /** The fixed text around the two responses in the refining prompt. */
  const RefineLead: string :=
    "Combine and refine these two responses about Eda's " +
    "experience into one cohesive, natural answer. \n" +
    "      Focus on maintaining a professional tone while " +
    "telling a compelling story about her achievements.\n" +
    "      \n" +
    "      Response 1: "
  const RefineMiddle: string := "\n      Response 2: "
  const RefineTail: string := "\n      \n      Refined Answer:"

  /** The refining prompt: both responses, first model first, inside the fixed text. */
  function RefinePrompt(first: string, second: string): string {
    RefineLead + first + RefineMiddle + second + RefineTail
  }

  function RefineMessages(first: string, second: string): seq<ChatMessage> {
    [ChatMessage("system", RefineSystemPrompt), ChatMessage("user", RefinePrompt(first, second))]
  }

  /** `content || default`: a null, missing or empty content gives the default. */
  function ContentOr(content: Option<string>, default: string): string {
    if content.None? || content.value == "" then default else content.value
  }

  /** The first model's response, or its sentinel when the call threw. */
  function OpenAIText(c: Completion): string {
    match c
    case Threw => OpenAISentinel
    case Replied(content) => ContentOr(content, NoOpenAIReply)
  }

  /** The second model's text, or its sentinel when the call threw. */
  function CohereText(reply: Option<string>): string {
    reply.GetOr(CohereSentinel)
  }

  /** The substring test the code uses to decide that a response failed. */
  predicate LooksFailed(response: string) {
    Contains(response, FailureMarker)
  }

  /** The answer once both primary responses are known: the fixed apology when
      both look failed, otherwise the refined answer (or, when refining throws,
      the first response unless it looks failed, else the second). */
  function AfterPrimaries(first: string, second: string, primary: seq<ModelCall>,
    refine: seq<ChatMessage> -> Completion): (r: Answer)
    ensures LooksFailed(first) && LooksFailed(second) ==> r == Answer(BothFailedReply, primary)
    ensures !(LooksFailed(first) && LooksFailed(second)) ==>
      r.calls == primary + [RefineChat(RefineMessages(first, second))]
  {
    if LooksFailed(first) && LooksFailed(second) then Answer(BothFailedReply, primary)
    else
      var refineMsgs := RefineMessages(first, second);
      Answer(RefinedText(first, second, refine(refineMsgs)), primary + [RefineChat(refineMsgs)])
  }

  function RefinedText(first: string, second: string, refined: Completion): string {
    match refined
    case Threw => if LooksFailed(first) then second else first
    case Replied(content) => ContentOr(content, NoRefinedReply)
  }

  /** The decision chain of `generateAnswer`. */
  function ComposeAnswer(
    query: string, history: seq<HistoryEntry>, search: Option<seq<Search.SearchResult>>,
    openai: seq<ChatMessage> -> Completion, cohere: string -> Option<string>,
    refine: seq<ChatMessage> -> Completion): Answer
  {
    match search
    case None => Answer(SearchErrorReply, [])
    case Some(docs) =>
      if |docs| == 0 then Answer(NoResultsReply, [])
      else
        var msgs := PromptMessages(history, query, docs);
        var prompt := CoherePrompt(query, docs);
        AfterPrimaries(OpenAIText(openai(msgs)), CohereText(cohere(prompt)),
          [OpenAIChat(msgs), CohereGenerate(prompt)], refine)
  }

  /** With documents found, the answer is decided by the two primary
      responses: both primary models are asked, first model first. */
  lemma ComposeWithDocuments(
    query: string, history: seq<HistoryEntry>, docs: seq<Search.SearchResult>,
    openai: seq<ChatMessage> -> Completion, cohere: string -> Option<string>,
    refine: seq<ChatMessage> -> Completion)
    requires |docs| > 0
    ensures var msgs := PromptMessages(history, query, docs);
            var prompt := CoherePrompt(query, docs);
            ComposeAnswer(query, history, Some(docs), openai, cohere, refine)
              == AfterPrimaries(OpenAIText(openai(msgs)), CohereText(cohere(prompt)),
                   [OpenAIChat(msgs), CohereGenerate(prompt)], refine)
  {
  }

  /** `generateAnswer`, step by step, with the search outcome and the three model
      calls as oracles. */
  method GenerateAnswer(
    query: string, history: seq<HistoryEntry>, search: Option<seq<Search.SearchResult>>,
    openai: seq<ChatMessage> -> Completion, cohere: string -> Option<string>,
    refine: seq<ChatMessage> -> Completion)
    returns (answer: string, calls: seq<ModelCall>)
    ensures Answer(answer, calls) == ComposeAnswer(query, history, search, openai, cohere, refine)
  {
    calls := [];
    var relevantDocs: seq<Search.SearchResult> := [];
    if search.None? {
      return SearchErrorReply, calls;
    }
    relevantDocs := search.value;
    if |relevantDocs| == 0 {
      return NoResultsReply, calls;
    }
    answer, calls := AnswerFromDocuments(query, history, relevantDocs, openai, cohere, refine);
  }

  /** The part of `generateAnswer` after documents were found: the two
      primary calls, each in its own `try`, then the end of the chain. */
  method AnswerFromDocuments(
    query: string, history: seq<HistoryEntry>, relevantDocs: seq<Search.SearchResult>,
    openai: seq<ChatMessage> -> Completion, cohere: string -> Option<string>,
    refine: seq<ChatMessage> -> Completion)
    returns (answer: string, calls: seq<ModelCall>)
    requires |relevantDocs| > 0
    ensures Answer(answer, calls) == ComposeAnswer(query, history, Some(relevantDocs), openai, cohere, refine)
  {
    var messages := PromptMessages(history, query, relevantDocs);
    var openaiResponse := AskOpenAI(openai, messages);
    calls := [OpenAIChat(messages)];

    var prompt := CoherePrompt(query, relevantDocs);
    var cohereText := AskCohere(cohere, prompt);
    calls := calls + [CohereGenerate(prompt)];

    ComposeWithDocuments(query, history, relevantDocs, openai, cohere, refine);
    answer, calls := Conclude(openaiResponse, cohereText, calls, refine);
  }

  /** The end of `generateAnswer` once both primary responses are known: the
      both-failed test, then the refining call. */
  method Conclude(openaiResponse: string, cohereText: string, primary: seq<ModelCall>,
    refine: seq<ChatMessage> -> Completion)
    returns (answer: string, calls: seq<ModelCall>)
    ensures Answer(answer, calls) == AfterPrimaries(openaiResponse, cohereText, primary, refine)
  {
    calls := primary;
    if LooksFailed(openaiResponse) && LooksFailed(cohereText) {
      return BothFailedReply, calls;
    }
    var refineMessages := RefineMessages(openaiResponse, cohereText);
    var finalResponse := AskRefine(refine, openaiResponse, cohereText);
    calls := calls + [RefineChat(refineMessages)];
    return finalResponse, calls;
  }

  /** The first `try` block: the first model's reply, or its sentinel when the
      call throws. */
  method AskOpenAI(openai: seq<ChatMessage> -> Completion, messages: seq<ChatMessage>) returns (response: string)
    ensures response == OpenAIText(openai(messages))
  {
    var completion := openai(messages);
    if completion.Threw? {
      response := OpenAISentinel;
    } else {
      response := ContentOr(completion.content, NoOpenAIReply);
    }
  }

  /** The second `try` block. */
  method AskCohere(cohere: string -> Option<string>, prompt: string) returns (text: string)
    ensures text == CohereText(cohere(prompt))
  {
    var generation := cohere(prompt);
    if generation.None? {
      text := CohereSentinel;
    } else {
      text := generation.value;
    }
  }

  /** The refining `try` block and its fallback. */
  method AskRefine(refine: seq<ChatMessage> -> Completion, first: string, second: string)
    returns (finalResponse: string)
    ensures finalResponse == RefinedText(first, second, refine(RefineMessages(first, second)))
  {
    var refined := refine(RefineMessages(first, second));
    if refined.Threw? {
      finalResponse := if LooksFailed(first) then second else first;
    } else {
      finalResponse := ContentOr(refined.content, NoRefinedReply);
    }
  }

  /** A failed search gives the fixed search apology and calls no model; so does
      an empty search, with its own fixed reply. */
  lemma NoModelWithoutDocuments(
    query: string, history: seq<HistoryEntry>, search: Option<seq<Search.SearchResult>>,
    openai: seq<ChatMessage> -> Completion, cohere: string -> Option<string>,
    refine: seq<ChatMessage> -> Completion)
    requires search.None? || search == Some([])
    ensures var a := ComposeAnswer(query, history, search, openai, cohere, refine);
            a.calls == [] && a.text == (if search.None? then SearchErrorReply else NoResultsReply)
  {
  }

  /** Both sentinels carry the failure marker. */
  lemma SentinelsLookFailed()
    ensures LooksFailed(OpenAISentinel) && LooksFailed(CohereSentinel)
  {
    ContainsAt(OpenAISentinel, FailureMarker, 0);
    ContainsAt(CohereSentinel, FailureMarker, 0);
  }

  /** Every retrieved text appears in the context message of the first model and
      in the prompt of the second. */
  lemma ContextGrounding(query: string, history: seq<HistoryEntry>, docs: seq<Search.SearchResult>, k: nat)
    requires k < |docs|
    ensures Contains(PromptMessages(history, query, docs)[|history| + 2].content, docs[k].text)
    ensures Contains(CoherePrompt(query, docs), docs[k].text)
  {
    var texts := Texts(docs);
    JoinContainsPart(texts, "\n\n", k);
    ContainsWithin(ContextHeader, Context(docs), ContextFooter, docs[k].text);
    ContainsWithin(SystemPrompt + "\n\nContext: ", Context(docs), "\n\nQuestion: " + query + "\n\nAnswer:", docs[k].text);
  }

  /** With documents found, both primary models are always asked, in order, with
      the prompt messages and the prompt built from the same documents; a throw
      in either becomes its sentinel and does not stop the other. */
  lemma PrimaryCallsIsolated(
    query: string, history: seq<HistoryEntry>, docs: seq<Search.SearchResult>,
    openai: seq<ChatMessage> -> Completion, cohere: string -> Option<string>,
    refine: seq<ChatMessage> -> Completion)
    requires |docs| > 0
    ensures var a := ComposeAnswer(query, history, Some(docs), openai, cohere, refine);
            && 2 <= |a.calls| <= 3
            && a.calls[0] == OpenAIChat(PromptMessages(history, query, docs))
            && a.calls[1] == CohereGenerate(CoherePrompt(query, docs))
    ensures openai(PromptMessages(history, query, docs)).Threw? ==> OpenAIText(openai(PromptMessages(history, query, docs))) == OpenAISentinel
    ensures cohere(CoherePrompt(query, docs)).None? ==> CohereText(cohere(CoherePrompt(query, docs))) == CohereSentinel
  {
    ComposeWithDocuments(query, history, docs, openai, cohere, refine);
  }

  /** When both primary responses contain the marker the fixed apology is
      returned and the refining call is skipped; otherwise it is made with the
      two responses, first model first. */
  lemma RefineOnlyWhenOneSucceeded(
    query: string, history: seq<HistoryEntry>, docs: seq<Search.SearchResult>,
    openai: seq<ChatMessage> -> Completion, cohere: string -> Option<string>,
    refine: seq<ChatMessage> -> Completion)
    requires |docs| > 0
    ensures var first := OpenAIText(openai(PromptMessages(history, query, docs)));
            var second := CohereText(cohere(CoherePrompt(query, docs)));
            var a := ComposeAnswer(query, history, Some(docs), openai, cohere, refine);
            && (LooksFailed(first) && LooksFailed(second) ==> a.text == BothFailedReply && |a.calls| == 2)
            && (!(LooksFailed(first) && LooksFailed(second)) ==> |a.calls| == 3 && a.calls[2] == RefineChat(RefineMessages(first, second)))
  {
    ComposeWithDocuments(query, history, docs, openai, cohere, refine);
  }

  /** Because failure is detected by substring, a genuine reply that merely
      mentions "Error" (say, "Error budgets were her main reliability metric.")
      counts as a failure: with the second call failing, the refining call is
      skipped and the apology returned. */
  lemma GenuineReplyWithMarkerCountsAsFailure(
    query: string, history: seq<HistoryEntry>, docs: seq<Search.SearchResult>,
    openai: seq<ChatMessage> -> Completion, cohere: string -> Option<string>,
    refine: seq<ChatMessage> -> Completion, reply: string)
    requires |docs| > 0
    requires openai(PromptMessages(history, query, docs)) == Replied(Some(reply))
    requires Contains(reply, FailureMarker)
    requires cohere(CoherePrompt(query, docs)).None?
    ensures ComposeAnswer(query, history, Some(docs), openai, cohere, refine) == Answer(BothFailedReply,
      [OpenAIChat(PromptMessages(history, query, docs)), CohereGenerate(CoherePrompt(query, docs))])
  {
    SentinelsLookFailed();
    ComposeWithDocuments(query, history, docs, openai, cohere, refine);
  }

  /** When exactly one primary call throws and the refining call throws too, the
      answer is the other model's response (if it does not itself contain the
      marker). */
  lemma RefineFailureKeepsSuccessfulResponse(
    query: string, history: seq<HistoryEntry>, docs: seq<Search.SearchResult>,
    openai: seq<ChatMessage> -> Completion, cohere: string -> Option<string>,
    refine: seq<ChatMessage> -> Completion)
    requires |docs| > 0
    requires openai(PromptMessages(history, query, docs)).Threw? != cohere(CoherePrompt(query, docs)).None?
    requires var first := OpenAIText(openai(PromptMessages(history, query, docs)));
             var second := CohereText(cohere(CoherePrompt(query, docs)));
             refine(RefineMessages(first, second)).Threw?
    ensures var first := OpenAIText(openai(PromptMessages(history, query, docs)));
            var second := CohereText(cohere(CoherePrompt(query, docs)));
            var ok := if openai(PromptMessages(history, query, docs)).Threw? then second else first;
            !LooksFailed(ok) ==> ComposeAnswer(query, history, Some(docs), openai, cohere, refine).text == ok
  {
    SentinelsLookFailed();
    ComposeWithDocuments(query, history, docs, openai, cohere, refine);
  }

  // ------------------------------------------------------------ message table

  /** `sendMessage`: inserts exactly one message and returns its new id. */
  method SendMessage(db: Db, content: string, timestamp: int, role: string) returns (id: Id)
    requires db.Valid()
    modifies db
    ensures db.Valid()
    ensures id == old(db.nextId)
    ensures db.messages == old(db.messages) + [Message(id, content, role, timestamp, None)]
    ensures id !in set m | m in old(db.messages) :: m.id
    ensures db.documents == old(db.documents) && db.accessRequests == old(db.accessRequests)
    ensures db.sessions == old(db.sessions)
  {
    id := db.nextId;
    db.messages := db.messages + [Message(id, content, role, timestamp, None)];
    db.nextId := db.nextId + 1;
  }

  /** `getMessages`: the newest messages first (descending creation order), at
      most 50 of them. */
  function GetMessages(messages: seq<Message>): (r: seq<Message>)
    ensures |r| == if |messages| < MessagePageSize then |messages| else MessagePageSize
    ensures forall i :: 0 <= i < |r| ==> r[i] == messages[|messages| - 1 - i]
  {
    var n := if |messages| < MessagePageSize then |messages| else MessagePageSize;
    seq(n, i requires 0 <= i < n => messages[|messages| - 1 - i])
  }
}
