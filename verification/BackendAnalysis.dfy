/** backend/worker.py: the older copy of the analysis kept beside the API.
    It differs from the worker's copy in its summariser (another prompt, a
    system message, other fixed messages) and in its records, which carry
    no sentiment dictionary. */
module BackendAnalysis {
  import opened Wrappers
  import opened TextNormalizer
  import opened Strings
  import opened TopicModel
  import opened Sentiment
  import opened Chat
  import opened Pipeline
  import WorkerAnalysis

  const MissingKeySummary: string := "OpenRouter API key not found. Cannot generate summary."
  const ApiErrorSummary: string := "AI summary could not be generated due to an API error."
  const Referer: string := "https://github.com/your-username/productpulse"
  const SystemPrompt: string := "You are a world-class product analyst summarizing customer reviews."

  const PromptOpening: string :=
    "You are an expert product analyst. Your task is to summarize customer feedback for a specific topic.\nThe topic is generally about: '"
  const PromptListIntro: string := "'.\n\nHere is the raw feedback from several customers:\n- "
  const PromptClosing: string :=
    "\n\nPlease analyze all the feedback provided and write a single, coherent, and well-written paragraph that summarizes the key points, sentiments, and any actionable insights. Ensure the summary is a complete thought and does not end abruptly."

  /** One dictionary of this copy's result list. */
  datatype BackendResult = BackendResult(
    topicId: TopicId,
    topWords: string,
    reviewCount: nat,
    avgSentiment: real,
    aiSummary: string)

  function Prompt(keywords: string, feedbackList: seq<string>): string
  {
    PromptOpening + keywords + PromptListIntro + Join(feedbackList, "\n- ") + PromptClosing
  }

  function SummaryRequest(keywords: string, feedbackList: seq<string>): Request
  {
    Request(Model,
      [Message("system", SystemPrompt), Message("user", Prompt(keywords, feedbackList))],
      MaxTokens, Temperature, Referer, Title)
  }

  /** `get_ai_summary` of this copy: any failure gives one fixed message. */
  function GetAiSummary(cc: CharClasses, client: Client, feedbackList: seq<string>, keywords: string): string
  {
    if !HasKey(client) then MissingKeySummary
    else
      match client.complete(SummaryRequest(keywords, feedbackList))
      case Content(text) => Strip(cc, text)
      case ApiError(_) => ApiErrorSummary
  }

  /** The prompt quotes the keywords and every review. */
  lemma PromptQuotesFeedback(keywords: string, feedbackList: seq<string>)
    ensures var p := Prompt(keywords, feedbackList);
      && Occurs(keywords, p)
      && forall k :: 0 <= k < |feedbackList| ==> Occurs(feedbackList[k], p)
  {
    TemplateQuotes(PromptOpening, keywords, PromptListIntro, feedbackList, "\n- ", PromptClosing);
  }

  /** The request carries the system message, then a user message quoting
      the keywords and every review. */
  lemma RequestCarriesFeedback(keywords: string, feedbackList: seq<string>)
    ensures var req := SummaryRequest(keywords, feedbackList);
      && req.model == Model && req.maxTokens == MaxTokens
      && |req.messages| == 2
      && req.messages[0] == Message("system", SystemPrompt)
      && req.messages[1] == Message("user", Prompt(keywords, feedbackList))
      && Occurs(keywords, req.messages[1].content)
      && forall k :: 0 <= k < |feedbackList| ==> Occurs(feedbackList[k], req.messages[1].content)
  {
    PromptQuotesFeedback(keywords, feedbackList);
  }

  /** A successful reply is returned with the blanks at both ends removed;
      every failure, whatever its cause, gives the same fixed message. */
  lemma SummaryFromReply(cc: CharClasses, c1: Client, c2: Client, feedbackList: seq<string>, keywords: string)
    requires HasKey(c1) && HasKey(c2)
    ensures var reply := c1.complete(SummaryRequest(keywords, feedbackList));
      var summary := GetAiSummary(cc, c1, feedbackList, keywords);
      && (reply.Content? ==>
            && (exists a: nat :: TrimmedFrom(cc, reply.text, a, summary))
            && (summary == [] || (!cc.isSpace(summary[0]) && !cc.isSpace(summary[|summary| - 1]))))
      && (reply.ApiError? && c2.complete(SummaryRequest(keywords, feedbackList)).ApiError? ==>
            summary == GetAiSummary(cc, c2, feedbackList, keywords) == ApiErrorSummary)
  {
    var reply := c1.complete(SummaryRequest(keywords, feedbackList));
    if reply.Content? {
      StripTrims(cc, reply.text);
      StripEnds(cc, reply.text);
    }
  }

  function Summarizer(cc: CharClasses, client: Client): (seq<string>, string) -> string
  {
    (feedbackList: seq<string>, keywords: string) => GetAiSummary(cc, client, feedbackList, keywords)
  }

  function BackendLibraries(fit: seq<string> -> Option<Fitted>, polarity: string -> Polarity, cc: CharClasses, client: Client): Libraries
  {
    Libraries(fit, polarity, Summarizer(cc, client))
  }

  /** A full record without its sentiment dictionary. */
  function Slim(r: TopicResult): BackendResult
  {
    BackendResult(r.topicId, r.topWords, r.reviewCount, r.avgSentiment, r.aiSummary)
  }

  function SlimAll(rs: seq<TopicResult>): (out: seq<BackendResult>)
    ensures |out| == |rs|
    ensures forall i :: 0 <= i < |rs| ==> out[i] == Slim(rs[i])
  {
    seq(|rs|, i requires 0 <= i < |rs| => Slim(rs[i]))
  }

  /** This copy's result: the shared analysis without the sentiment
      dictionaries (which nothing here computes). Without its own column
      check, a missing "Review Text" column surfaces as a KeyError, which
      ends in the same None. */
  function BackendAnalyze(cc: CharClasses, file: Option<Frame>, lib: Libraries): Option<seq<BackendResult>>
  {
    match Analyze(cc, file, lib)
    case None => None
    case Some(rs) => Some(SlimAll(rs))
  }

  /** One turn of the topic loop appends the slim record of a populated topic. */
  lemma SlimStep(docs: seq<Doc>, f: Fitted, lib: Libraries, t: TopicId)
    requires Shaped(f, |docs|)
    ensures SlimAll(TopicsBelow(docs, f, lib, t + 1))
      == SlimAll(TopicsBelow(docs, f, lib, t))
        + (if InTopic(docs, f.assignment, t) == [] then [] else [Slim(TopicRecord(docs, f, lib, t))])
  {
    var prev := TopicsBelow(docs, f, lib, t);
    TopicsBelowStep(docs, f, lib, t);
    if InTopic(docs, f.assignment, t) == [] {
      assert prev + TopicEntry(docs, f, lib, t) == prev;
    } else {
      var rec := TopicRecord(docs, f, lib, t);
      assert SlimAll(prev + [rec]) == SlimAll(prev) + [Slim(rec)];
    }
  }

  /** `process_feedback_file` of this copy, step by step. */
  method ProcessFeedbackFile(
    cc: CharClasses, file: Option<Frame>,
    fit: seq<string> -> Option<Fitted>, polarity: string -> Polarity, client: Client)
    returns (results: Option<seq<BackendResult>>)
    ensures results == BackendAnalyze(cc, file, BackendLibraries(fit, polarity, cc, client))
  {
    if !HasReviewColumn(file) {
      return None;
    }
    var docs := ModelingDocs(cc, file.value.columns[ReviewTextColumn]);
    if docs == [] {
      return Some([]);
    }
    var fitted := fit(Cleaned(docs));
    if fitted.None? || !Shaped(fitted.value, |docs|) {
      return None;
    }
    var finalResults := TopicLoop(cc, docs, fitted.value, fit, polarity, client);
    return Some(finalResults);
  }

  /** The topic loop of `process_feedback_file`: one slim record per
      populated topic, in topic order. */
  method TopicLoop(
    cc: CharClasses, docs: seq<Doc>, f: Fitted,
    fit: seq<string> -> Option<Fitted>, polarity: string -> Polarity, client: Client)
    returns (finalResults: seq<BackendResult>)
    requires Shaped(f, |docs|)
    ensures finalResults == SlimAll(TopicsBelow(docs, f, BackendLibraries(fit, polarity, cc, client), NTopics))
  {
    var lib := BackendLibraries(fit, polarity, cc, client);
    finalResults := [];
    for topicId := 0 to NTopics
      invariant finalResults == SlimAll(TopicsBelow(docs, f, lib, topicId))
    {
      var topWords := TopWords(f, topicId);
      var topicDocs := InTopic(docs, f.assignment, topicId);
      SlimStep(docs, f, lib, topicId);
      if topicDocs == [] {
        continue;
      }
      var avgSentiment := Mean(Compounds(lib, topicDocs));
      var rawFeedback := RawTexts(Take(topicDocs, SummarySampleSize));
      var aiSummary := GetAiSummary(cc, client, rawFeedback, topWords);
      finalResults := finalResults + [BackendResult(topicId, topWords, |topicDocs|, avgSentiment, aiSummary)];
    }
  }

  /** Given the same table and libraries, the two copies fail together and
      report the same topics with the same labels, counts and averages. */
  lemma CopiesAgree(
    cc: CharClasses, file: Option<Frame>,
    fit: seq<string> -> Option<Fitted>, polarity: string -> Polarity,
    workerClient: Client, backendClient: Client)
    ensures var w := Analyze(cc, file, WorkerAnalysis.WorkerLibraries(fit, polarity, cc, workerClient));
      var b := BackendAnalyze(cc, file, BackendLibraries(fit, polarity, cc, backendClient));
      && (w.None? <==> b.None?)
      && (w.Some? ==>
            && |w.value| == |b.value|
            && forall i :: 0 <= i < |b.value| ==>
                 && b.value[i].topicId == w.value[i].topicId
                 && b.value[i].topWords == w.value[i].topWords
                 && b.value[i].reviewCount == w.value[i].reviewCount
                 && b.value[i].avgSentiment == w.value[i].avgSentiment)
  {
    var lw := WorkerAnalysis.WorkerLibraries(fit, polarity, cc, workerClient);
    var lb := BackendLibraries(fit, polarity, cc, backendClient);
    SummarizerOnlyFillsSummaries(cc, file, lw, lb);
  }
}
