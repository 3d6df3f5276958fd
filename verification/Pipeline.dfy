/** The topic-result assembly of `process_feedback_file`, shared by
    worker/worker.py and backend/worker.py: keep the rows whose cleaned text
    is non-empty, fit the topic model, and build one record per populated
    topic in increasing topic order. The libraries are oracles. */
module Pipeline {
  import opened Wrappers
  import opened TextNormalizer
  import opened Strings
  import opened TopicModel
  import opened Sentiment

  const ReviewTextColumn: string := "Review Text"

  /** `topic_docs_df.head(10)`: the rows whose raw text goes to the summariser. */
  const SummarySampleSize: nat := 10

  /** `topic_docs_df.head(50)`: the rows whose cleaned text is scored as one sample. */
  const SentimentSampleSize: nat := 50

  /** The DataFrame `read_csv` produces: its columns by name, rows in file
      order under the default row index. */
  datatype Frame = Frame(columns: map<string, seq<Cell>>)

  /** A row kept for modelling: its original row index (`doc_id`), its raw
      text and its cleaned text. */
  datatype Doc = Doc(docId: nat, raw: string, cleaned: string)

  /** One dictionary of the result list. */
  datatype TopicResult = TopicResult(
    topicId: TopicId,
    topWords: string,
    reviewCount: nat,
    avgSentiment: real,
    sentimentDict: Polarity,
    aiSummary: string)

  /** The calls the pipeline makes into code it does not own. */
  datatype Libraries = Libraries(
    /** CountVectorizer + LDA over the cleaned texts; None when they raise
        (for instance when pruning leaves no term). */
    fit: seq<string> -> Option<Fitted>,
    /** VADER's `polarity_scores`. */
    polarity: string -> Polarity,
    /** `get_ai_summary(feedback_list, topic_keywords)`. */
    summarize: (seq<string>, string) -> string)

  // ---------------------------------------------------------------------
  // Filtering: `modeling_df = df[df['cleaned_feedback'] != '']`

  function ModelingDocs(cc: CharClasses, cells: seq<Cell>): seq<Doc>
  {
    if cells == [] then []
    else
      var n := |cells| - 1;
      var cleaned := Clean(cc, cells[n]);
      ModelingDocs(cc, cells[..n]) + (if cleaned != "" then [Doc(n, cells[n].s, cleaned)] else [])
  }

  /** The rows whose cleaned text is non-empty. */
  ghost function NonEmptyRows(cc: CharClasses, cells: seq<Cell>): set<nat>
  {
    set j: nat | j < |cells| && Clean(cc, cells[j]) != ""
  }

  function Cleaned(docs: seq<Doc>): seq<string>
  {
    seq(|docs|, i requires 0 <= i < |docs| => docs[i].cleaned)
  }

  function RawTexts(docs: seq<Doc>): seq<string>
  {
    seq(|docs|, i requires 0 <= i < |docs| => docs[i].raw)
  }

  function Take<T>(s: seq<T>, n: nat): seq<T>
  {
    if |s| <= n then s else s[..n]
  }

  // ---------------------------------------------------------------------
  // Grouping: `modeling_df[modeling_df['topic_id'] == topic_id]`

  /** The documents assigned topic `t`, in row order. */
  function InTopic(docs: seq<Doc>, assignment: seq<TopicId>, t: int): seq<Doc>
    requires |assignment| == |docs|
  {
    if docs == [] then []
    else (if assignment[0] == t then [docs[0]] else []) + InTopic(docs[1..], assignment[1..], t)
  }

  /** `" ".join([feature_names[i] for i in top_words_indices])`. */
  function TopWords(f: Fitted, t: TopicId): string
    requires Shaped(f, |f.assignment|)
  {
    Join(TopTerms(f, t), " ")
  }

  function TopTerms(f: Fitted, t: TopicId): seq<string>
    requires Shaped(f, |f.assignment|)
  {
    var idx := TopTermIndices(f.components[t]);
    seq(|idx|, i requires 0 <= i < |idx| => f.vocabulary[idx[i]])
  }

  function Compounds(lib: Libraries, docs: seq<Doc>): seq<real>
  {
    seq(|docs|, i requires 0 <= i < |docs| => lib.polarity(docs[i].cleaned).compound)
  }

  /** The record of a populated topic. */
  function TopicRecord(docs: seq<Doc>, f: Fitted, lib: Libraries, t: TopicId): TopicResult
    requires Shaped(f, |docs|)
    requires InTopic(docs, f.assignment, t) != []
  {
    var members := InTopic(docs, f.assignment, t);
    var topWords := TopWords(f, t);
    TopicResult(
      t,
      topWords,
      |members|,
      Mean(Compounds(lib, members)),
      lib.polarity(Join(Cleaned(Take(members, SentimentSampleSize)), " ")),
      lib.summarize(RawTexts(Take(members, SummarySampleSize)), topWords))
  }

  /** What iteration `t` of the topic loop appends: nothing for an empty topic. */
  function TopicEntry(docs: seq<Doc>, f: Fitted, lib: Libraries, t: TopicId): seq<TopicResult>
    requires Shaped(f, |docs|)
  {
    if InTopic(docs, f.assignment, t) == [] then [] else [TopicRecord(docs, f, lib, t)]
  }

  /** The topics among `0 .. h-1` that `keep` selects, in increasing order. */
  function Selected(keep: TopicId -> bool, h: nat): (ids: seq<TopicId>)
    requires h <= NTopics
    ensures forall i :: 0 <= i < |ids| ==> ids[i] < h && keep(ids[i])
  {
    if h == 0 then [] else Selected(keep, h - 1) + (if keep(h - 1) then [h - 1] else [])
  }

  /** Whether a topic holds a document: the iterations of the topic loop
      that do not `continue`. */
  function Populated(docs: seq<Doc>, assignment: seq<TopicId>): TopicId -> bool
    requires |assignment| == |docs|
  {
    t => InTopic(docs, assignment, t) != []
  }

  /** `final_results` after the loop has handled topics `0 .. h-1`: the
      record of each populated topic, in topic order. */
  function TopicsBelow(docs: seq<Doc>, f: Fitted, lib: Libraries, h: nat): seq<TopicResult>
    requires Shaped(f, |docs|) && h <= NTopics
  {
    var ids := Selected(Populated(docs, f.assignment), h);
    seq(|ids|, i requires 0 <= i < |ids| => TopicRecord(docs, f, lib, ids[i]))
  }

  /** `process_feedback_file`: None when anything raises (unreadable file,
      missing "Review Text" column, a failing fit), [] when no row has text
      left after cleaning, else the per-topic records. */
  function Analyze(cc: CharClasses, file: Option<Frame>, lib: Libraries): Option<seq<TopicResult>>
  {
    if !HasReviewColumn(file) then None
    else
      var docs := ModelingDocs(cc, ReviewColumn(file));
      if docs == [] then Some([])
      else if !FitUsable(docs, lib) then None
      else Some(TopicsBelow(docs, lib.fit(Cleaned(docs)).value, lib, NTopics))
  }

  /** The file was read and has the "Review Text" column. */
  predicate HasReviewColumn(file: Option<Frame>)
  {
    file.Some? && ReviewTextColumn in file.value.columns
  }

  function ReviewColumn(file: Option<Frame>): seq<Cell>
    requires HasReviewColumn(file)
  {
    file.value.columns[ReviewTextColumn]
  }

  /** The fit returned and its outputs have the shapes the code indexes by. */
  predicate FitUsable(docs: seq<Doc>, lib: Libraries)
  {
    var fitted := lib.fit(Cleaned(docs));
    fitted.Some? && Shaped(fitted.value, |docs|)
  }

  function SumCounts(rs: seq<TopicResult>): nat
  {
    if rs == [] then 0 else SumCounts(rs[..|rs| - 1]) + rs[|rs| - 1].reviewCount
  }

  // ---------------------------------------------------------------------
  // Properties of the filtering step

  /** Each of `docs` is a row whose cleaned text is non-empty, with its raw
      and cleaned text, in increasing row order. */
  ghost predicate RowsInOrder(cc: CharClasses, cells: seq<Cell>, docs: seq<Doc>)
  {
    && (forall i :: 0 <= i < |docs| ==>
          && docs[i].docId < |cells|
          && cells[docs[i].docId] == Text(docs[i].raw)
          && docs[i].cleaned == Clean(cc, cells[docs[i].docId])
          && docs[i].cleaned != "")
    && (forall i, j :: 0 <= i < j < |docs| ==> docs[i].docId < docs[j].docId)
  }

  /** Every row whose cleaned text is non-empty is among `docs`. */
  ghost predicate RowsComplete(cc: CharClasses, cells: seq<Cell>, docs: seq<Doc>)
  {
    forall j :: 0 <= j < |cells| && Clean(cc, cells[j]) != "" ==>
      exists i :: 0 <= i < |docs| && docs[i].docId == j
  }

  /** The filter's documents are the rows whose cleaned text is non-empty, in
      row order; their raw text is a string cell, so the later `dropna`
      removes nothing. */
  lemma {:induction false} ModelingDocsInOrder(cc: CharClasses, cells: seq<Cell>)
    ensures RowsInOrder(cc, cells, ModelingDocs(cc, cells))
  {
    if cells != [] {
      var n := |cells| - 1;
      var prefix := cells[..n];
      ModelingDocsInOrder(cc, prefix);
      var prev := ModelingDocs(cc, prefix);
      assert forall i :: 0 <= i < |prev| ==> cells[prev[i].docId] == prefix[prev[i].docId];
    }
  }

  lemma {:induction false} ModelingDocsComplete(cc: CharClasses, cells: seq<Cell>)
    ensures RowsComplete(cc, cells, ModelingDocs(cc, cells))
  {
    if cells != [] {
      var n := |cells| - 1;
      var prefix := cells[..n];
      ModelingDocsComplete(cc, prefix);
      var prev := ModelingDocs(cc, prefix);
      var docs := ModelingDocs(cc, cells);
      assert docs[..|prev|] == prev;
      forall j | 0 <= j < |cells| && Clean(cc, cells[j]) != ""
        ensures exists i :: 0 <= i < |docs| && docs[i].docId == j
      {
        if j == n {
          assert docs[|prev|].docId == n;
        } else {
          assert cells[j] == prefix[j];
          var i :| 0 <= i < |prev| && prev[i].docId == j;
          assert docs[i] == prev[i];
        }
      }
    }
  }

  lemma NonEmptyRowsSnoc(cc: CharClasses, cells: seq<Cell>)
    requires cells != []
    ensures var n := |cells| - 1;
      NonEmptyRows(cc, cells)
        == NonEmptyRows(cc, cells[..n]) + (if Clean(cc, cells[n]) != "" then {n} else {})
  {
    var n := |cells| - 1;
    var prefix := cells[..n];
    var extra: set<nat> := if Clean(cc, cells[n]) != "" then {n} else {};
    forall j | j in NonEmptyRows(cc, cells) ensures j in NonEmptyRows(cc, prefix) + extra {
      if j < n {
        assert prefix[j] == cells[j];
      }
    }
    forall j | j in NonEmptyRows(cc, prefix) + extra ensures j in NonEmptyRows(cc, cells) {
      if j < n {
        assert prefix[j] == cells[j];
      }
    }
  }

  /** One document per row whose cleaned text is non-empty. */
  lemma {:induction false} ModelingDocsCount(cc: CharClasses, cells: seq<Cell>)
    ensures |ModelingDocs(cc, cells)| == |NonEmptyRows(cc, cells)|
  {
    if cells != [] {
      var n := |cells| - 1;
      ModelingDocsCount(cc, cells[..n]);
      NonEmptyRowsSnoc(cc, cells);
      assert n !in NonEmptyRows(cc, cells[..n]);
    }
  }

  // ---------------------------------------------------------------------
  // Properties of the grouping and the topic loop

  /** How many documents the topics `0 .. h-1` hold between them. */
  function CountBelow(docs: seq<Doc>, assignment: seq<TopicId>, h: nat): nat
    requires |assignment| == |docs|
  {
    if h == 0 then 0 else CountBelow(docs, assignment, h - 1) + |InTopic(docs, assignment, h - 1)|
  }

  lemma {:induction false} CountBelowCons(docs: seq<Doc>, assignment: seq<TopicId>, h: nat)
    requires |assignment| == |docs| && docs != []
    ensures CountBelow(docs, assignment, h)
      == CountBelow(docs[1..], assignment[1..], h) + (if assignment[0] < h then 1 else 0)
  {
    if h != 0 {
      CountBelowCons(docs, assignment, h - 1);
    }
  }

  lemma {:induction false} CountBelowNil(assignment: seq<TopicId>, h: nat)
    requires |assignment| == 0
    ensures CountBelow([], assignment, h) == 0
  {
    if h != 0 {
      CountBelowNil(assignment, h - 1);
    }
  }

  /** Every document lands in exactly one of the seven topics. */
  lemma {:induction false} TopicsPartitionDocs(docs: seq<Doc>, assignment: seq<TopicId>)
    requires |assignment| == |docs|
    ensures CountBelow(docs, assignment, NTopics) == |docs|
  {
    if docs == [] {
      CountBelowNil(assignment, NTopics);
    } else {
      CountBelowCons(docs, assignment, NTopics);
      TopicsPartitionDocs(docs[1..], assignment[1..]);
    }
  }

  /** A topic's documents are the documents assigned to it, in their order. */
  lemma {:induction false} InTopicMembers(docs: seq<Doc>, assignment: seq<TopicId>, t: int)
    requires |assignment| == |docs|
    ensures forall d :: d in InTopic(docs, assignment, t) <==>
      exists i :: 0 <= i < |docs| && docs[i] == d && assignment[i] == t
  {
    if docs != [] {
      InTopicMembers(docs[1..], assignment[1..], t);
      var rest := InTopic(docs[1..], assignment[1..], t);
      forall d | (exists i :: 0 <= i < |docs| && docs[i] == d && assignment[i] == t)
        ensures d in InTopic(docs, assignment, t)
      {
        var i :| 0 <= i < |docs| && docs[i] == d && assignment[i] == t;
        if i > 0 {
          assert docs[1..][i - 1] == d && assignment[1..][i - 1] == t;
        }
      }
      forall d | d in rest
        ensures exists i :: 0 <= i < |docs| && docs[i] == d && assignment[i] == t
      {
        var k :| 0 <= k < |docs| - 1 && docs[1..][k] == d && assignment[1..][k] == t;
        assert docs[k + 1] == d && assignment[k + 1] == t;
      }
    }
  }

  ghost predicate AscendingIds(docs: seq<Doc>)
  {
    forall i, j :: 0 <= i < j < |docs| ==> docs[i].docId < docs[j].docId
  }

  /** Grouping keeps the row order. */
  lemma {:induction false} InTopicAscending(docs: seq<Doc>, assignment: seq<TopicId>, t: int)
    requires |assignment| == |docs| && AscendingIds(docs)
    ensures AscendingIds(InTopic(docs, assignment, t))
  {
    if docs != [] {
      var tail := docs[1..];
      assert AscendingIds(tail) by {
        forall i, j | 0 <= i < j < |tail| ensures tail[i].docId < tail[j].docId {
          assert tail[i] == docs[i + 1] && tail[j] == docs[j + 1];
        }
      }
      InTopicAscending(tail, assignment[1..], t);
      InTopicMembers(tail, assignment[1..], t);
      var rest := InTopic(tail, assignment[1..], t);
      forall k | 0 <= k < |rest| ensures docs[0].docId < rest[k].docId {
        assert rest[k] in rest;
        var i :| 0 <= i < |tail| && tail[i] == rest[k] && assignment[1..][i] == t;
        assert tail[i] == docs[i + 1];
      }
      var r := InTopic(docs, assignment, t);
      if assignment[0] == t {
        assert r == [docs[0]] + rest;
        forall i, j | 0 <= i < j < |r| ensures r[i].docId < r[j].docId {
          assert r[j] == rest[j - 1];
          if i > 0 {
            assert r[i] == rest[i - 1];
          }
        }
      } else {
        assert r == rest;
      }
    }
  }

  /** The record-by-record half of `Reports`. */
  ghost predicate RecordsInOrder(docs: seq<Doc>, f: Fitted, lib: Libraries, rs: seq<TopicResult>, h: nat)
  {
    && Shaped(f, |docs|)
    && (forall i, j :: 0 <= i < j < |rs| ==> rs[i].topicId < rs[j].topicId)
    && (forall i :: 0 <= i < |rs| ==>
          && rs[i].topicId < h
          && InTopic(docs, f.assignment, rs[i].topicId) != []
          && rs[i] == TopicRecord(docs, f, lib, rs[i].topicId))
  }

  /** The completeness half of `Reports`. */
  ghost predicate NoTopicMissing(docs: seq<Doc>, f: Fitted, rs: seq<TopicResult>, h: nat)
  {
    && |f.assignment| == |docs|
    && (forall t: TopicId :: t < h && InTopic(docs, f.assignment, t) != [] ==>
          exists i :: 0 <= i < |rs| && rs[i].topicId == t)
  }

  /** `rs` is what the topic loop reports after topics `0 .. h-1`: one record
      per populated topic, in increasing topic order, each the record of its
      topic. */
  ghost predicate Reports(docs: seq<Doc>, f: Fitted, lib: Libraries, rs: seq<TopicResult>, h: nat)
  {
    RecordsInOrder(docs, f, lib, rs, h) && NoTopicMissing(docs, f, rs, h)
  }

  /** The selected topics below `h` are increasing, and every topic below
      `h` that `keep` selects is among them. */
  lemma {:induction false} SelectedSpec(keep: TopicId -> bool, h: nat)
    requires h <= NTopics
    ensures var ids := Selected(keep, h);
      && (forall i, j :: 0 <= i < j < |ids| ==> ids[i] < ids[j])
      && (forall t: TopicId :: t < h && keep(t) ==> t in ids)
  {
    if h != 0 {
      SelectedSpec(keep, h - 1);
      var prev := Selected(keep, h - 1);
      var ids := Selected(keep, h);
      var extra := if keep(h - 1) then [h - 1] else [];
      assert ids == prev + extra;
      forall t: TopicId | t < h && keep(t) ensures t in ids {
        if t < h - 1 {
          assert t in prev;
        } else {
          assert extra == [t];
        }
      }
    }
  }

  /** The topic loop's step: iteration `t` appends what TopicEntry says. */
  lemma TopicsBelowStep(docs: seq<Doc>, f: Fitted, lib: Libraries, t: TopicId)
    requires Shaped(f, |docs|)
    ensures TopicsBelow(docs, f, lib, t + 1) == TopicsBelow(docs, f, lib, t) + TopicEntry(docs, f, lib, t)
  {
    var keep := Populated(docs, f.assignment);
    var prev := Selected(keep, t);
    var rs := TopicsBelow(docs, f, lib, t);
    assert keep(t) <==> InTopic(docs, f.assignment, t) != [];
    if InTopic(docs, f.assignment, t) == [] {
      assert Selected(keep, t + 1) == prev;
      assert rs + TopicEntry(docs, f, lib, t) == rs;
    } else {
      var ids := Selected(keep, t + 1);
      assert ids == prev + [t];
      var rs' := TopicsBelow(docs, f, lib, t + 1);
      assert |rs'| == |rs| + 1;
      forall i | 0 <= i < |rs| ensures rs'[i] == rs[i] {
        assert ids[i] == prev[i];
      }
      assert rs'[|rs|] == TopicRecord(docs, f, lib, t);
      assert rs' == rs + [TopicRecord(docs, f, lib, t)];
    }
  }

  lemma TopicsBelowInOrder(docs: seq<Doc>, f: Fitted, lib: Libraries, h: nat)
    requires Shaped(f, |docs|) && h <= NTopics
    ensures RecordsInOrder(docs, f, lib, TopicsBelow(docs, f, lib, h), h)
  {
    var keep := Populated(docs, f.assignment);
    var ids := Selected(keep, h);
    var rs := TopicsBelow(docs, f, lib, h);
    SelectedSpec(keep, h);
    forall i | 0 <= i < |rs| ensures rs[i] == TopicRecord(docs, f, lib, ids[i]) && rs[i].topicId == ids[i] {
    }
  }

  lemma TopicsBelowComplete(docs: seq<Doc>, f: Fitted, lib: Libraries, h: nat)
    requires Shaped(f, |docs|) && h <= NTopics
    ensures NoTopicMissing(docs, f, TopicsBelow(docs, f, lib, h), h)
  {
    var keep := Populated(docs, f.assignment);
    var ids := Selected(keep, h);
    var rs := TopicsBelow(docs, f, lib, h);
    SelectedSpec(keep, h);
    forall t: TopicId | t < h && InTopic(docs, f.assignment, t) != []
      ensures exists i :: 0 <= i < |rs| && rs[i].topicId == t
    {
      assert keep(t);
      var i :| 0 <= i < |ids| && ids[i] == t;
      assert rs[i] == TopicRecord(docs, f, lib, t);
    }
  }

  /** The total `size` of the topics `ids`. */
  function SizeOf(size: TopicId -> nat, ids: seq<TopicId>): nat
  {
    if ids == [] then 0 else SizeOf(size, ids[..|ids| - 1]) + size(ids[|ids| - 1])
  }

  /** The total `size` of the topics `0 .. h-1`. */
  function SizeBelow(size: TopicId -> nat, h: nat): nat
    requires h <= NTopics
  {
    if h == 0 then 0 else SizeBelow(size, h - 1) + size(h - 1)
  }

  lemma SizeOfSnoc(size: TopicId -> nat, ids: seq<TopicId>, t: TopicId)
    ensures SizeOf(size, ids + [t]) == SizeOf(size, ids) + size(t)
  {
    assert (ids + [t])[..|ids|] == ids;
  }

  /** Records whose counts are the sizes of topics `ids` add up to their total size. */
  lemma {:induction false} SumCountsBySize(size: TopicId -> nat, rs: seq<TopicResult>, ids: seq<TopicId>)
    requires |rs| == |ids|
    requires forall i :: 0 <= i < |rs| ==> rs[i].reviewCount == size(ids[i])
    ensures SumCounts(rs) == SizeOf(size, ids)
  {
    if rs != [] {
      var n := |rs| - 1;
      SumCountsBySize(size, rs[..n], ids[..n]);
    }
  }

  /** Leaving out topics of size zero does not change the total size. */
  lemma {:induction false} SizeOfSelected(keep: TopicId -> bool, size: TopicId -> nat, h: nat)
    requires h <= NTopics
    requires forall t: TopicId :: !keep(t) ==> size(t) == 0
    ensures SizeOf(size, Selected(keep, h)) == SizeBelow(size, h)
  {
    if h > 0 {
      var prev := Selected(keep, h - 1);
      SizeOfSelected(keep, size, h - 1);
      if keep(h - 1) {
        assert Selected(keep, h) == prev + [h - 1];
        SizeOfSnoc(size, prev, h - 1);
      } else {
        assert Selected(keep, h) == prev;
        assert size(h - 1) == 0;
      }
    }
  }

  /** CountBelow is the total size of the topics below `h`. */
  lemma {:induction false} CountBelowIsSize(docs: seq<Doc>, assignment: seq<TopicId>, h: nat)
    requires |assignment| == |docs| && h <= NTopics
    ensures CountBelow(docs, assignment, h) == SizeBelow(t => |InTopic(docs, assignment, t)|, h)
  {
    if h > 0 {
      CountBelowIsSize(docs, assignment, h - 1);
    }
  }

  /** The records' review counts add up to the documents in the topics looped over. */
  lemma TopicsBelowCounts(docs: seq<Doc>, f: Fitted, lib: Libraries, h: nat)
    requires Shaped(f, |docs|) && h <= NTopics
    ensures SumCounts(TopicsBelow(docs, f, lib, h)) == CountBelow(docs, f.assignment, h)
  {
    var keep := Populated(docs, f.assignment);
    var size := t => |InTopic(docs, f.assignment, t)|;
    var ids := Selected(keep, h);
    var rs := TopicsBelow(docs, f, lib, h);
    forall i | 0 <= i < |rs| ensures rs[i].reviewCount == size(ids[i]) {
      assert rs[i] == TopicRecord(docs, f, lib, ids[i]);
    }
    SumCountsBySize(size, rs, ids);
    SizeOfSelected(keep, size, h);
    CountBelowIsSize(docs, f.assignment, h);
  }

  // ---------------------------------------------------------------------
  // Properties of one record

  /** The label splits back into the topic's heaviest vocabulary terms, at
      most five, heaviest first (vectoriser terms never contain a space). */
  lemma TopWordsAreHeaviestTerms(f: Fitted, t: TopicId)
    requires Shaped(f, |f.assignment|) && f.vocabulary != []
    requires forall k :: 0 <= k < |f.vocabulary| ==> ' ' !in f.vocabulary[k]
    ensures var terms := Split(TopWords(f, t), ' ');
      var row := f.components[t];
      var idx := TopTermIndices(row);
      && |terms| == |idx| == Min(TopTermCount, |f.vocabulary|)
      && (forall i :: 0 <= i < |terms| ==> idx[i] < |f.vocabulary| && terms[i] == f.vocabulary[idx[i]])
      && HeaviestFirst(row, idx)
      && (forall x, i :: 0 <= x < |row| && x !in idx && 0 <= i < |idx| ==> row[x] <= row[idx[i]])
  {
    var row := f.components[t];
    TopTermIndicesSpec(row);
    var terms := TopTerms(f, t);
    assert |terms| >= 1;
    SplitJoin(terms, ' ');
  }

  /** The first `n` documents of an ascending list are its `n` earliest. */
  lemma TakeEarliest(ms: seq<Doc>, n: nat)
    requires AscendingIds(ms)
    ensures var sample := Take(ms, n);
      && |sample| == Min(n, |ms|)
      && sample == ms[..|sample|]
      && forall i, j :: 0 <= i < |sample| <= j < |ms| ==> sample[i].docId < ms[j].docId
  {
  }

  /** A record describes exactly its topic's documents: the count, the
      summariser's sample (the raw text of the topic's ten earliest rows) and
      the sentiment sample (the cleaned text of its fifty earliest rows). */
  lemma TopicRecordDescribesTopic(docs: seq<Doc>, f: Fitted, lib: Libraries, t: TopicId)
    requires Shaped(f, |docs|) && AscendingIds(docs)
    requires InTopic(docs, f.assignment, t) != []
    ensures var members := InTopic(docs, f.assignment, t);
      var r := TopicRecord(docs, f, lib, t);
      && r.topicId == t
      && r.reviewCount == |members| >= 1
      && (forall d :: d in members <==>
            exists i :: 0 <= i < |docs| && docs[i] == d && f.assignment[i] == t)
      && AscendingIds(members)
      && r.aiSummary == lib.summarize(RawTexts(members[..Min(SummarySampleSize, |members|)]), r.topWords)
      && r.sentimentDict == lib.polarity(Join(Cleaned(members[..Min(SentimentSampleSize, |members|)]), " "))
  {
    var members := InTopic(docs, f.assignment, t);
    InTopicMembers(docs, f.assignment, t);
    InTopicAscending(docs, f.assignment, t);
    TakeEarliest(members, SummarySampleSize);
    TakeEarliest(members, SentimentSampleSize);
  }

  /** The average sentiment lies within the range of the compound scores. */
  lemma TopicSentimentBounded(docs: seq<Doc>, f: Fitted, lib: Libraries, t: TopicId, lo: real, hi: real)
    requires Shaped(f, |docs|) && InTopic(docs, f.assignment, t) != []
    requires forall s :: lo <= lib.polarity(s).compound <= hi
    ensures lo <= TopicRecord(docs, f, lib, t).avgSentiment <= hi
  {
    var members := InTopic(docs, f.assignment, t);
    var xs := Compounds(lib, members);
    forall i | 0 <= i < |xs| ensures lo <= xs[i] <= hi {
      assert xs[i] == lib.polarity(members[i].cleaned).compound;
    }
    MeanWithin(xs, lo, hi);
  }

  // ---------------------------------------------------------------------
  // Properties of the whole analysis

  /** The analysis fails exactly when the file cannot be read, lacks the
      "Review Text" column, or has text to model and the fit fails. */
  lemma AnalyzeFailsIff(cc: CharClasses, file: Option<Frame>, lib: Libraries)
    ensures Analyze(cc, file, lib).None? <==>
      || !HasReviewColumn(file)
      || (&& NonEmptyRows(cc, ReviewColumn(file)) != {}
          && !FitUsable(ModelingDocs(cc, ReviewColumn(file)), lib))
  {
    if HasReviewColumn(file) {
      ModelingDocsCount(cc, ReviewColumn(file));
    }
  }

  /** With no row left after cleaning the result is the empty list, whatever
      the libraries would do: none of them is consulted. */
  lemma EmptyCorpusSkipsLibraries(cc: CharClasses, file: Option<Frame>, lib1: Libraries, lib2: Libraries)
    requires HasReviewColumn(file)
    requires forall j :: 0 <= j < |ReviewColumn(file)| ==> Clean(cc, ReviewColumn(file)[j]) == ""
    ensures Analyze(cc, file, lib1) == Analyze(cc, file, lib2) == Some([])
  {
    var cells := ReviewColumn(file);
    ModelingDocsCount(cc, cells);
    assert NonEmptyRows(cc, cells) == {};
  }

  /** A successful analysis of a non-empty corpus reports every populated
      topic once, in increasing order, and the review counts add up to the
      number of rows with text left after cleaning. */
  lemma AnalyzeReportsTopics(cc: CharClasses, file: Option<Frame>, lib: Libraries)
    requires HasReviewColumn(file) && NonEmptyRows(cc, ReviewColumn(file)) != {}
    requires FitUsable(ModelingDocs(cc, ReviewColumn(file)), lib)
    ensures var docs := ModelingDocs(cc, ReviewColumn(file));
      var r := Analyze(cc, file, lib);
      && r.Some? && r.value != []
      && Reports(docs, lib.fit(Cleaned(docs)).value, lib, r.value, NTopics)
      && SumCounts(r.value) == |NonEmptyRows(cc, ReviewColumn(file))|
  {
    var docs := ModelingDocs(cc, ReviewColumn(file));
    var f := lib.fit(Cleaned(docs)).value;
    ModelingDocsCount(cc, ReviewColumn(file));
    TopicsBelowInOrder(docs, f, lib, NTopics);
    TopicsBelowComplete(docs, f, lib, NTopics);
    TopicsBelowCounts(docs, f, lib, NTopics);
    TopicsPartitionDocs(docs, f.assignment);
  }

  /** The result is the empty list exactly when the column is there and no
      row has text left after cleaning. */
  lemma AnalyzeEmptyIff(cc: CharClasses, file: Option<Frame>, lib: Libraries)
    ensures Analyze(cc, file, lib) == Some([]) <==>
      HasReviewColumn(file) && NonEmptyRows(cc, ReviewColumn(file)) == {}
  {
    if HasReviewColumn(file) {
      ModelingDocsCount(cc, ReviewColumn(file));
      if NonEmptyRows(cc, ReviewColumn(file)) != {} && FitUsable(ModelingDocs(cc, ReviewColumn(file)), lib) {
        AnalyzeReportsTopics(cc, file, lib);
      }
    }
  }

  /** `a` and `b` report the same topics with the same labels, counts,
      averages and sentiment dictionaries; only the summaries may differ. */
  ghost predicate SameButSummaries(a: seq<TopicResult>, b: seq<TopicResult>)
  {
    && |a| == |b|
    && forall i :: 0 <= i < |a| ==> a[i].(aiSummary := b[i].aiSummary) == b[i]
  }

  lemma TopicsBelowSameButSummaries(docs: seq<Doc>, f: Fitted, lib1: Libraries, lib2: Libraries, h: nat)
    requires Shaped(f, |docs|) && h <= NTopics
    requires lib1.polarity == lib2.polarity
    ensures SameButSummaries(TopicsBelow(docs, f, lib1, h), TopicsBelow(docs, f, lib2, h))
  {
    var ids := Selected(Populated(docs, f.assignment), h);
    var a := TopicsBelow(docs, f, lib1, h);
    var b := TopicsBelow(docs, f, lib2, h);
    forall i | 0 <= i < |a| ensures a[i].(aiSummary := b[i].aiSummary) == b[i] {
      assert a[i] == TopicRecord(docs, f, lib1, ids[i]);
      assert b[i] == TopicRecord(docs, f, lib2, ids[i]);
    }
  }

  /** The summariser decides the summaries and nothing else: two runs that
      differ only in it fail together and agree on every other field. */
  lemma SummarizerOnlyFillsSummaries(cc: CharClasses, file: Option<Frame>, lib1: Libraries, lib2: Libraries)
    requires lib1.fit == lib2.fit && lib1.polarity == lib2.polarity
    ensures Analyze(cc, file, lib1).None? <==> Analyze(cc, file, lib2).None?
    ensures Analyze(cc, file, lib1).Some? ==>
      SameButSummaries(Analyze(cc, file, lib1).value, Analyze(cc, file, lib2).value)
  {
    if HasReviewColumn(file) {
      var docs := ModelingDocs(cc, ReviewColumn(file));
      assert FitUsable(docs, lib1) == FitUsable(docs, lib2);
      if docs != [] && FitUsable(docs, lib1) {
        TopicsBelowSameButSummaries(docs, lib1.fit(Cleaned(docs)).value, lib1, lib2, NTopics);
      }
    }
  }
}
