/** worker/worker.py: the analysis the queue worker runs on a downloaded
    CSV file, with its OpenRouter summariser. */
module WorkerAnalysis {
  import opened Wrappers
  import opened TextNormalizer
  import opened Strings
  import opened TopicModel
  import opened Sentiment
  import opened Chat
  import opened Pipeline

  const MissingKeySummary: string := "OpenRouter API key not found."
  const ApiErrorPrefix: string := "AI summary could not be generated due to an API error: "
  const Referer: string := "http://localhost:3000"

  const PromptOpening: string := "You are a product analyst summarizing customer feedback about '"
  const PromptListIntro: string := "'.\nHere is the raw feedback:\n- "
  const PromptClosing: string :=
    "\n\nPlease write a single, coherent paragraph that summarizes the key points and sentiments expressed."

  /** The user prompt: the topic keywords in quotes, then the reviews as a
      dashed list. */
  function Prompt(keywords: string, feedbackList: seq<string>): string
  {
    PromptOpening + keywords + PromptListIntro + Join(feedbackList, "\n- ") + PromptClosing
  }

  function SummaryRequest(keywords: string, feedbackList: seq<string>): Request
  {
    Request(Model, [Message("user", Prompt(keywords, feedbackList))], MaxTokens, Temperature, Referer, Title)
  }

  /** `get_ai_summary`: a fixed message without a key; otherwise the stripped
      reply, or the error text behind a fixed prefix. */
  function GetAiSummary(cc: CharClasses, client: Client, feedbackList: seq<string>, keywords: string): string
  {
    if !HasKey(client) then MissingKeySummary
    else
      match client.complete(SummaryRequest(keywords, feedbackList))
      case Content(text) => Strip(cc, text)
      case ApiError(message) => ApiErrorPrefix + message
  }

  /** Without a key no request is made: the endpoint does not matter. */
  lemma NoKeyNoRequest(cc: CharClasses, c1: Client, c2: Client, feedbackList: seq<string>, keywords: string)
    requires !HasKey(c1) && c2.apiKey == c1.apiKey
    ensures GetAiSummary(cc, c1, feedbackList, keywords) == GetAiSummary(cc, c2, feedbackList, keywords) == MissingKeySummary
  {
  }

  /** With a key, the one request sent asks the configured model, and its
      single user message quotes the keywords and every review. */
  lemma RequestCarriesFeedback(keywords: string, feedbackList: seq<string>)
    ensures var req := SummaryRequest(keywords, feedbackList);
      && req.model == Model && req.maxTokens == MaxTokens
      && |req.messages| == 1 && req.messages[0].role == "user"
      && Occurs(keywords, req.messages[0].content)
      && forall k :: 0 <= k < |feedbackList| ==> Occurs(feedbackList[k], req.messages[0].content)
  {
    TemplateQuotes(PromptOpening, keywords, PromptListIntro, feedbackList, "\n- ", PromptClosing);
  }

  /** A successful reply is returned with the blanks at both ends removed
      and nothing else changed; a failure yields the prefixed error text. */
  lemma SummaryFromReply(cc: CharClasses, client: Client, feedbackList: seq<string>, keywords: string)
    requires HasKey(client)
    ensures var reply := client.complete(SummaryRequest(keywords, feedbackList));
      var summary := GetAiSummary(cc, client, feedbackList, keywords);
      && (reply.Content? ==>
            && (exists a: nat :: TrimmedFrom(cc, reply.text, a, summary))
            && (summary == [] || (!cc.isSpace(summary[0]) && !cc.isSpace(summary[|summary| - 1]))))
      && (reply.ApiError? ==> ApiErrorPrefix <= summary && summary[|ApiErrorPrefix|..] == reply.message)
  {
    var reply := client.complete(SummaryRequest(keywords, feedbackList));
    if reply.Content? {
      StripTrims(cc, reply.text);
      StripEnds(cc, reply.text);
    }
  }

  /** The worker's summariser, as the pipeline calls it. */
  function Summarizer(cc: CharClasses, client: Client): (seq<string>, string) -> string
  {
    (feedbackList: seq<string>, keywords: string) => GetAiSummary(cc, client, feedbackList, keywords)
  }

  function WorkerLibraries(fit: seq<string> -> Option<Fitted>, polarity: string -> Polarity, cc: CharClasses, client: Client): Libraries
  {
    Libraries(fit, polarity, Summarizer(cc, client))
  }

  /** `process_feedback_file`, step by step as the worker runs it. */
  method ProcessFeedbackFile(
    cc: CharClasses, file: Option<Frame>,
    fit: seq<string> -> Option<Fitted>, polarity: string -> Polarity, client: Client)
    returns (results: Option<seq<TopicResult>>)
    ensures results == Analyze(cc, file, WorkerLibraries(fit, polarity, cc, client))
  {
    var lib := WorkerLibraries(fit, polarity, cc, client);
    if !HasReviewColumn(file) {
      return None;
    }
    var docs := ModelingDocs(cc, file.value.columns[ReviewTextColumn]);
    if docs == [] {
      return Some([]);
    }
    var fitted := fit(Cleaned(docs));
    if fitted.None? || !Shaped(fitted.value, |docs|) {
      return None;
    }
    var f := fitted.value;
    var finalResults: seq<TopicResult> := [];
    for topicId := 0 to NTopics
      invariant finalResults == TopicsBelow(docs, f, lib, topicId)
    {
      TopicsBelowStep(docs, f, lib, topicId);
      var topWords := TopWords(f, topicId);
      var topicDocs := InTopic(docs, f.assignment, topicId);
      if topicDocs == [] {
        continue;
      }
      var avgSentiment := Mean(Compounds(lib, topicDocs));
      var sentimentSample := Join(Cleaned(Take(topicDocs, SentimentSampleSize)), " ");
      var sentimentDict := polarity(sentimentSample);
      var rawFeedback := RawTexts(Take(topicDocs, SummarySampleSize));
      var aiSummary := GetAiSummary(cc, client, rawFeedback, topWords);
      finalResults := finalResults
        + [TopicResult(topicId, topWords, |topicDocs|, avgSentiment, sentimentDict, aiSummary)];
    }
    return Some(finalResults);
  }

  /** Without a key every record carries the fixed message in place of a
      summary. */
  lemma NoKeyEverySummaryFixed(
    cc: CharClasses, file: Option<Frame>,
    fit: seq<string> -> Option<Fitted>, polarity: string -> Polarity, client: Client)
    requires !HasKey(client)
    ensures var r := Analyze(cc, file, WorkerLibraries(fit, polarity, cc, client));
      r.Some? ==> forall i :: 0 <= i < |r.value| ==> r.value[i].aiSummary == MissingKeySummary
  {
    var lib := WorkerLibraries(fit, polarity, cc, client);
    if HasReviewColumn(file) {
      var docs := ModelingDocs(cc, ReviewColumn(file));
      if docs != [] && FitUsable(docs, lib) {
        TopicsBelowInOrder(docs, lib.fit(Cleaned(docs)).value, lib, NTopics);
      }
    }
  }
}
