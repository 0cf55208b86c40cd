/** Hybrid retrieval: id lookup, the keyword (substring) retriever, the
    vector retriever and the decision rule that combines them. The embedding
    provider and the vector index are oracles; every call made is recorded. */
module Search {
  import opened Wrappers
  import opened Text
  import opened Tables

  /** A ranked passage: the document text, its id and a relevance score. */
  datatype SearchResult = SearchResult(text: string, id: Id, score: real)

  /** One neighbour returned by the vector index. */
  datatype VectorHit = VectorHit(id: Id, score: real)

  /** The calls the retriever makes to the embedding provider, the vector index
      and the document table, in order. */
  datatype SearchCall =
    | EmbedCall(text: string)
    | VectorCall(limit: nat)
    | FetchCall(ids: seq<Id>)
    | KeywordCall(query: string)

  /** Outcomes of the external services for one request.
      `apiKey` is the OPENAI_API_KEY setting (None or "" when unset);
      `embed` is the embedding provider (None when the call throws);
      `vectorSearch` is the vector index queried with an embedding and a limit
      (None when it throws); `keywordThrows` / `fallbackThrows` say whether the
      keyword query in the main path / in the error handler throws. */
  datatype SearchEnv = SearchEnv(
    apiKey: Option<string>,
    embed: string -> Option<seq<real>>,
    vectorSearch: (seq<real>, nat) -> Option<seq<VectorHit>>,
    keywordThrows: bool,
    fallbackThrows: bool)

  /** A retrieval run: the returned results and the calls made. */
  datatype SearchRun = SearchRun(results: seq<SearchResult>, calls: seq<SearchCall>)

  const VectorLimit: nat := 50
  const VectorThreshold: real := 0.7

  // ---------------------------------------------------------------- fetchResults

  /** `ctx.db.get(id)`: the document with that id, or null. */
  function Lookup(docs: seq<Document>, id: Id): (r: Option<Document>)
    ensures r.Some? ==> r.value in docs && r.value.id == id
    ensures r.None? ==> forall d :: d in docs ==> d.id != id
  {
    if |docs| == 0 then None
    else if docs[0].id == id then Some(docs[0])
    else Lookup(docs[1..], id)
  }

  /** The documents found for `ids`, in the order of `ids`, missing ids skipped. */
  function Fetched(docs: seq<Document>, ids: seq<Id>): seq<Document>
    decreases |ids|
  {
    if |ids| == 0 then []
    else
      var front := Fetched(docs, ids[..|ids| - 1]);
      match Lookup(docs, ids[|ids| - 1])
      case Some(d) => front + [d]
      case None => front
  }

  /** The loop of `fetchResults`: look every id up and push the documents found. */
  method FetchResults(db: Tables.Db, ids: seq<Id>) returns (results: seq<Document>)
    ensures results == Fetched(db.documents, ids)
    ensures |results| <= |ids|
    ensures forall d :: d in results ==> d in db.documents && d.id in ids
  {
    results := [];
    for k := 0 to |ids|
      invariant results == Fetched(db.documents, ids[..k])
    {
      assert ids[..k + 1][..k] == ids[..k];
      var doc := Lookup(db.documents, ids[k]);
      if doc.None? {
        continue;
      }
      results := results + [doc.value];
    }
    assert ids[..|ids|] == ids;
    FetchedBounds(db.documents, ids);
  }

  /** At most one document per id; each comes from the table and was asked for. */
  lemma {:induction false} FetchedBounds(docs: seq<Document>, ids: seq<Id>)
    ensures |Fetched(docs, ids)| <= |ids|
    ensures forall d :: d in Fetched(docs, ids) ==> d in docs && d.id in ids
    decreases |ids|
  {
    if |ids| > 0 {
      var init := ids[..|ids| - 1];
      FetchedBounds(docs, init);
      forall d | d in Fetched(docs, ids) ensures d in docs && d.id in ids {
        if d in Fetched(docs, init) {
          assert d.id in init;
        }
      }
    }
  }

  /** When every id exists, nothing is skipped: the i-th result is the document
      with the i-th id. */
  lemma {:induction false} FetchedAllPresent(docs: seq<Document>, ids: seq<Id>)
    requires forall i :: 0 <= i < |ids| ==> Lookup(docs, ids[i]).Some?
    ensures |Fetched(docs, ids)| == |ids|
    ensures forall i :: 0 <= i < |ids| ==> Fetched(docs, ids)[i] == Lookup(docs, ids[i]).value
    decreases |ids|
  {
    if |ids| > 0 {
      FetchedAllPresent(docs, ids[..|ids| - 1]);
    }
  }

  /** Distinct ids give documents with distinct ids. */
  lemma {:induction false} FetchedDistinct(docs: seq<Document>, ids: seq<Id>)
    requires forall i, j :: 0 <= i < j < |ids| ==> ids[i] != ids[j]
    ensures DistinctIds(Fetched(docs, ids))
    decreases |ids|
  {
    if |ids| > 0 {
      var init := ids[..|ids| - 1];
      FetchedDistinct(docs, init);
      FetchedBounds(docs, init);
      var front := Fetched(docs, init);
      match Lookup(docs, ids[|ids| - 1])
      case Some(d) =>
        forall i | 0 <= i < |front| ensures front[i].id != d.id {
          assert front[i] in front;
        }
      case None =>
    }
  }

  // ---------------------------------------------------------- keywordRetriever

  /** Case-insensitive substring test of `keywordRetriever`'s filter. */
  predicate KeywordMatch(d: Document, query: string) {
    Contains(ToLower(d.content), ToLower(query))
  }

  /** The documents that pass the keyword filter, in table order. */
  function Matches(docs: seq<Document>, query: string): seq<Document>
    decreases |docs|
  {
    if |docs| == 0 then []
    else (if KeywordMatch(docs[0], query) then [docs[0]] else []) + Matches(docs[1..], query)
  }

  /** A document is a keyword match exactly when it is in the table and its
      lower-cased content contains the lower-cased query. */
  lemma {:induction false} MatchesMembership(docs: seq<Document>, query: string, d: Document)
    ensures d in Matches(docs, query) <==> d in docs && KeywordMatch(d, query)
    decreases |docs|
  {
    if |docs| > 0 {
      MatchesMembership(docs[1..], query, d);
      assert docs == [docs[0]] + docs[1..];
    }
  }

  /** Filtering keeps table order: the matches of two consecutive stretches of the
      table are the matches of the first followed by those of the second. */
  lemma {:induction false} MatchesAppend(a: seq<Document>, b: seq<Document>, query: string)
    ensures Matches(a + b, query) == Matches(a, query) + Matches(b, query)
    decreases |a|
  {
    if |a| > 0 {
      assert (a + b)[0] == a[0];
      assert (a + b)[1..] == a[1..] + b;
      MatchesAppend(a[1..], b, query);
    } else {
      assert a + b == b;
    }
  }

  lemma {:induction false} MatchesDistinct(docs: seq<Document>, query: string)
    requires DistinctIds(docs)
    ensures DistinctIds(Matches(docs, query))
    ensures |Matches(docs, query)| <= |docs|
    decreases |docs|
  {
    if |docs| > 0 {
      MatchesDistinct(docs[1..], query);
      var rest := Matches(docs[1..], query);
      forall i | 0 <= i < |rest| ensures rest[i].id != docs[0].id {
        assert rest[i] in rest;
        MatchesMembership(docs[1..], query, rest[i]);
      }
    }
  }

  /** The positional score `1 - i/n` of the i-th of n matches. */
  function PositionScore(i: nat, n: nat): real
    requires i < n
  {
    1.0 - (i as real) / (n as real)
  }

  /** Scores of the ranking: the first is exactly 1, all lie in (0, 1], and they
      strictly decrease with the position. */
  lemma PositionScores(n: nat)
    ensures n > 0 ==> PositionScore(0, n) == 1.0
    ensures forall i :: 0 <= i < n ==> 0.0 < PositionScore(i, n) <= 1.0
    ensures forall i, j :: 0 <= i < j < n ==> PositionScore(i, n) > PositionScore(j, n)
  {
    forall i | 0 <= i < n ensures 0.0 < PositionScore(i, n) <= 1.0 {
      QuotientBelowOne(i as real, n as real);
    }
    forall i, j | 0 <= i < j < n ensures PositionScore(i, n) > PositionScore(j, n) {
      QuotientIncreases(i as real, j as real, n as real);
    }
  }

  /** A share of a positive whole lies in [0, 1). */
  lemma QuotientBelowOne(a: real, n: real)
    requires 0.0 <= a < n
    ensures 0.0 <= a / n < 1.0
  {
    var q := a / n;
    assert q * n == a;
    assert q < 0.0 ==> q * n < 0.0;
    assert q >= 1.0 ==> q * n >= n;
  }

  /** Dividing by a positive number keeps the order. */
  lemma QuotientIncreases(a: real, b: real, n: real)
    requires a < b && 0.0 < n
    ensures a / n < b / n
  {
    var d := b / n - a / n;
    assert d * n == b - a;
    assert d <= 0.0 ==> d * n <= 0.0;
  }

  /** `keywordRetriever`: every keyword match with its text, id and positional
      score. */
  function KeywordRetriever(docs: seq<Document>, query: string): (r: seq<SearchResult>)
    ensures |r| == |Matches(docs, query)|
    ensures forall i :: 0 <= i < |r| ==>
      r[i].id == Matches(docs, query)[i].id && r[i].text == Matches(docs, query)[i].content
    ensures forall i :: 0 <= i < |r| ==> r[i].score == 1.0 - (i as real) / (|r| as real)
    ensures |r| > 0 ==> r[0].score == 1.0
    ensures forall i :: 0 <= i < |r| ==> 0.0 < r[i].score <= 1.0
    ensures forall i, j :: 0 <= i < j < |r| ==> r[i].score > r[j].score
  {
    var ms := Matches(docs, query);
    PositionScores(|ms|);
    seq(|ms|, i requires 0 <= i < |ms| => SearchResult(ms[i].content, ms[i].id, PositionScore(i, |ms|)))
  }

  // ------------------------------------------------------------ vector results

  function HitIds(hits: seq<VectorHit>): (r: seq<Id>)
    ensures |r| == |hits| && forall i :: 0 <= i < |hits| ==> r[i] == hits[i].id
  {
    seq(|hits|, i requires 0 <= i < |hits| => hits[i].id)
  }

  /** `chunks.map((chunk, index) => ...score: vectorResults[index]._score)`:
      the i-th fetched document is paired with the i-th hit's score. */
  function PairScores(chunks: seq<Document>, hits: seq<VectorHit>): (r: seq<SearchResult>)
    requires |chunks| <= |hits|
    ensures |r| == |chunks|
    ensures forall i :: 0 <= i < |r| ==> r[i].id == chunks[i].id && r[i].text == chunks[i].content
    ensures forall i :: 0 <= i < |r| ==> r[i].score == hits[i].score
  {
    seq(|chunks|, i requires 0 <= i < |chunks| => SearchResult(chunks[i].content, chunks[i].id, hits[i].score))
  }

  /** The fetched vector results with their scores. */
  function VectorResults(docs: seq<Document>, hits: seq<VectorHit>): (r: seq<SearchResult>)
    ensures |r| <= |hits| && |r| == |Fetched(docs, HitIds(hits))|
    ensures forall i :: 0 <= i < |r| ==>
      r[i].id == Fetched(docs, HitIds(hits))[i].id && r[i].text == Fetched(docs, HitIds(hits))[i].content
      && r[i].score == hits[i].score
  {
    FetchedBounds(docs, HitIds(hits));
    PairScores(Fetched(docs, HitIds(hits)), hits)
  }

  /** Pairing is by position, not by id: when an id has no document, every later
      document takes the score of the hit before it. Here document 2 receives
      the score 0.9 of the missing document 1. */
  lemma ScoreShiftOnMissingId()
    ensures VectorResults([Document(2, "b", "beta", [])], [VectorHit(1, 0.9), VectorHit(2, 0.5)])
         == [SearchResult("beta", 2, 0.9)]
  {
    var docs := [Document(2, "b", "beta", [])];
    var hits := [VectorHit(1, 0.9), VectorHit(2, 0.5)];
    assert HitIds(hits) == [1, 2];
    assert [1, 2][..1] == [1];
    assert Fetched(docs, [1]) == [];
    assert Fetched(docs, [1, 2]) == [docs[0]];
  }

  // ------------------------------------------------------------------- merging

  function IdSet(rs: seq<SearchResult>): set<Id> {
    set i | 0 <= i < |rs| :: rs[i].id
  }

  predicate DistinctResultIds(rs: seq<SearchResult>) {
    forall i, j :: 0 <= i < j < |rs| ==> rs[i].id != rs[j].id
  }

  /** `lexicalResults.filter(doc => !existingIds.has(doc.id))`. */
  function Unseen(rs: seq<SearchResult>, seen: set<Id>): (r: seq<SearchResult>)
    ensures forall x :: x in r <==> x in rs && x.id !in seen
    decreases |rs|
  {
    if |rs| == 0 then []
    else (if rs[0].id in seen then [] else [rs[0]]) + Unseen(rs[1..], seen)
  }

  /** Inserts `x` before the first element whose score is not greater than its own
      (one step of a stable sort by descending score). */
  function InsertByScore(x: SearchResult, s: seq<SearchResult>): (r: seq<SearchResult>)
    ensures multiset(r) == multiset(s) + multiset{x}
    ensures |r| == |s| + 1
    decreases |s|
  {
    if |s| == 0 || x.score >= s[0].score then [x] + s
    else
      assert s == [s[0]] + s[1..];
      [s[0]] + InsertByScore(x, s[1..])
  }

  /** `.sort((a, b) => b.score - a.score)`: a stable sort by descending score. */
  function SortByScore(s: seq<SearchResult>): (r: seq<SearchResult>)
    ensures multiset(r) == multiset(s)
    ensures |r| == |s|
    decreases |s|
  {
    if |s| == 0 then []
    else
      assert s == [s[0]] + s[1..];
      InsertByScore(s[0], SortByScore(s[1..]))
  }

  predicate SortedByScore(s: seq<SearchResult>) {
    forall i, j :: 0 <= i < j < |s| ==> s[i].score >= s[j].score
  }

  lemma IdSetCons(x: SearchResult, s: seq<SearchResult>)
    ensures IdSet([x] + s) == {x.id} + IdSet(s)
    ensures DistinctResultIds([x] + s) <==> x.id !in IdSet(s) && DistinctResultIds(s)
  {
    var r := [x] + s;
    assert r[0] == x;
    forall id | id in IdSet(r) ensures id in {x.id} + IdSet(s) {
      var i :| 0 <= i < |r| && r[i].id == id;
      if i > 0 { assert r[i] == s[i - 1]; }
    }
    forall id | id in IdSet(s) ensures id in IdSet(r) {
      var i :| 0 <= i < |s| && s[i].id == id;
      assert r[i + 1] == s[i];
    }
    if x.id !in IdSet(s) && DistinctResultIds(s) {
      forall i, j | 0 <= i < j < |r| ensures r[i].id != r[j].id {
        assert r[j] == s[j - 1];
        if i > 0 { assert r[i] == s[i - 1]; }
      }
    }
    if DistinctResultIds(r) {
      forall i, j | 0 <= i < j < |s| ensures s[i].id != s[j].id {
        assert r[i + 1] == s[i] && r[j + 1] == s[j];
      }
      forall i | 0 <= i < |s| ensures s[i].id != x.id {
        assert r[i + 1] == s[i];
      }
    }
  }

  lemma {:induction false} InsertKeepsSorted(x: SearchResult, s: seq<SearchResult>)
    requires SortedByScore(s)
    ensures SortedByScore(InsertByScore(x, s))
    decreases |s|
  {
    if |s| > 0 && x.score < s[0].score {
      var r := InsertByScore(x, s);
      var t := InsertByScore(x, s[1..]);
      InsertKeepsSorted(x, s[1..]);
      assert r == [s[0]] + t;
      forall k | 0 <= k < |s[1..]| ensures s[1..][k].score <= s[0].score {
        assert s[1..][k] == s[k + 1];
      }
      InsertBounded(x, s[1..], s[0].score);
      forall i, j | 0 <= i < j < |r| ensures r[i].score >= r[j].score {
        assert r[j] == t[j - 1];
        if i > 0 { assert r[i] == t[i - 1]; }
      }
    }
  }

  /** Inserting keeps every score under a bound that `x` and `s` keep. */
  lemma InsertBounded(x: SearchResult, s: seq<SearchResult>, bound: real)
    requires x.score <= bound
    requires forall k :: 0 <= k < |s| ==> s[k].score <= bound
    ensures forall k :: 0 <= k < |InsertByScore(x, s)| ==> InsertByScore(x, s)[k].score <= bound
  {
    var t := InsertByScore(x, s);
    forall k | 0 <= k < |t| ensures t[k].score <= bound {
      assert t[k] in multiset(s) + multiset{x};
      if t[k] != x {
        assert t[k] in s;
      }
    }
  }

  lemma {:induction false} InsertKeepsIds(x: SearchResult, s: seq<SearchResult>)
    ensures IdSet(InsertByScore(x, s)) == IdSet(s) + {x.id}
    ensures DistinctResultIds(s) && x.id !in IdSet(s) ==> DistinctResultIds(InsertByScore(x, s))
    decreases |s|
  {
    if |s| == 0 || x.score >= s[0].score {
      IdSetCons(x, s);
    } else {
      assert s == [s[0]] + s[1..];
      IdSetCons(s[0], s[1..]);
      InsertKeepsIds(x, s[1..]);
      IdSetCons(s[0], InsertByScore(x, s[1..]));
    }
  }

  /** The sort orders by descending score, and keeps the ids and their
      distinctness. */
  lemma {:induction false} SortByScoreSorted(s: seq<SearchResult>)
    ensures SortedByScore(SortByScore(s))
    ensures IdSet(SortByScore(s)) == IdSet(s)
    ensures DistinctResultIds(s) ==> DistinctResultIds(SortByScore(s))
    decreases |s|
  {
    if |s| > 0 {
      assert s == [s[0]] + s[1..];
      IdSetCons(s[0], s[1..]);
      SortByScoreSorted(s[1..]);
      InsertKeepsSorted(s[0], SortByScore(s[1..]));
      InsertKeepsIds(s[0], SortByScore(s[1..]));
    }
  }

  lemma IdSetAppend(a: seq<SearchResult>, b: seq<SearchResult>)
    ensures IdSet(a + b) == IdSet(a) + IdSet(b)
    ensures DistinctResultIds(a) && DistinctResultIds(b) && IdSet(a) !! IdSet(b) ==> DistinctResultIds(a + b)
  {
    var all := a + b;
    forall id | id in IdSet(all) ensures id in IdSet(a) + IdSet(b) {
      var i :| 0 <= i < |all| && all[i].id == id;
      if i >= |a| { assert all[i] == b[i - |a|]; } else { assert all[i] == a[i]; }
    }
    forall id | id in IdSet(a) + IdSet(b) ensures id in IdSet(all) {
      if id in IdSet(a) {
        var i :| 0 <= i < |a| && a[i].id == id;
        assert all[i] == a[i];
      } else {
        var i :| 0 <= i < |b| && b[i].id == id;
        assert all[|a| + i] == b[i];
      }
    }
    if DistinctResultIds(a) && DistinctResultIds(b) && IdSet(a) !! IdSet(b) {
      forall i, j | 0 <= i < j < |all| ensures all[i].id != all[j].id {
        if j < |a| {
          assert all[i] == a[i] && all[j] == a[j];
        } else if i >= |a| {
          assert all[i] == b[i - |a|] && all[j] == b[j - |a|];
        } else {
          assert all[i] == a[i] && all[j] == b[j - |a|];
          assert all[i].id in IdSet(a) && all[j].id in IdSet(b);
        }
      }
    }
  }

  lemma {:induction false} UnseenDistinct(rs: seq<SearchResult>, seen: set<Id>)
    requires DistinctResultIds(rs)
    ensures DistinctResultIds(Unseen(rs, seen))
    ensures IdSet(Unseen(rs, seen)) !! seen
    decreases |rs|
  {
    if |rs| > 0 {
      assert rs == [rs[0]] + rs[1..];
      IdSetCons(rs[0], rs[1..]);
      UnseenDistinct(rs[1..], seen);
      var rest := Unseen(rs[1..], seen);
      if rs[0].id !in seen {
        IdSetCons(rs[0], rest);
      } else {
        assert Unseen(rs, seen) == rest;
      }
    }
  }

  /** The merge of the semantic and lexical results: all semantic results, then
      the lexical results whose id is new, sorted by descending score. */
  function Merge(semantic: seq<SearchResult>, lexical: seq<SearchResult>): (r: seq<SearchResult>)
    ensures multiset(r) == multiset(semantic + Unseen(lexical, IdSet(semantic)))
    ensures |r| == |semantic| + |Unseen(lexical, IdSet(semantic))|
  {
    SortByScore(semantic + Unseen(lexical, IdSet(semantic)))
  }

  /** The merge is sorted by descending score, covers the ids of the semantic
      results and of the new lexical results, and repeats no id when neither
      input does. */
  lemma MergeProperties(semantic: seq<SearchResult>, lexical: seq<SearchResult>)
    ensures SortedByScore(Merge(semantic, lexical))
    ensures IdSet(Merge(semantic, lexical)) == IdSet(semantic) + IdSet(Unseen(lexical, IdSet(semantic)))
    ensures DistinctResultIds(semantic) && DistinctResultIds(lexical) ==> DistinctResultIds(Merge(semantic, lexical))
  {
    var unseen := Unseen(lexical, IdSet(semantic));
    SortByScoreSorted(semantic + unseen);
    IdSetAppend(semantic, unseen);
    if DistinctResultIds(semantic) && DistinctResultIds(lexical) {
      UnseenDistinct(lexical, IdSet(semantic));
    }
  }

  // ------------------------------------------------------------- the retrievers

  /** `generateQueryEmbedding`: throws (None) when the key is unset or empty,
      otherwise asks the provider. */
  predicate HasKey(apiKey: Option<string>) {
    apiKey.Some? && apiKey.value != ""
  }

  function QueryEmbedding(env: SearchEnv, text: string): Option<seq<real>> {
    if HasKey(env.apiKey) then env.embed(text) else None
  }

  function EmbedCalls(env: SearchEnv, text: string): seq<SearchCall> {
    if HasKey(env.apiKey) then [EmbedCall(text)] else []
  }

  /** `chunkEmbeddingsRetriever`: embed, ask the index for 50 neighbours, fetch
      them and pair scores by position; None when a step throws. */
  function ChunkEmbeddingsRetriever(docs: seq<Document>, question: string, env: SearchEnv)
    : (r: (Option<seq<SearchResult>>, seq<SearchCall>))
    ensures forall c :: c in r.1 && c.VectorCall? ==> c.limit == VectorLimit
    ensures QueryEmbedding(env, question).None? ==> r.0.None?
    ensures QueryEmbedding(env, question).Some? ==>
      var found := env.vectorSearch(QueryEmbedding(env, question).value, VectorLimit);
      && (found.None? ==> r.0.None?)
      && (found.Some? ==> r.0 == Some(VectorResults(docs, found.value)))
  {
    match QueryEmbedding(env, question)
    case None => (None, EmbedCalls(env, question))
    case Some(e) =>
      var calls := EmbedCalls(env, question) + [VectorCall(VectorLimit)];
      match env.vectorSearch(e, VectorLimit)
      case None => (None, calls)
      case Some(hits) => (Some(VectorResults(docs, hits)), calls + [FetchCall(HitIds(hits))])
  }

  /** When every neighbour's id is in the table, the retriever returns one
      result per neighbour, in the index's order: the i-th is the document
      with the i-th id, carrying the i-th score. */
  lemma ChunkEmbeddingsAllPresent(docs: seq<Document>, question: string, env: SearchEnv, hits: seq<VectorHit>)
    requires QueryEmbedding(env, question).Some?
    requires env.vectorSearch(QueryEmbedding(env, question).value, VectorLimit) == Some(hits)
    requires forall i :: 0 <= i < |hits| ==> Lookup(docs, hits[i].id).Some?
    ensures var r := ChunkEmbeddingsRetriever(docs, question, env).0;
            && r.Some? && |r.value| == |hits|
            && forall i :: 0 <= i < |hits| ==>
                 r.value[i] == SearchResult(Lookup(docs, hits[i].id).value.content, hits[i].id, hits[i].score)
  {
    FetchedAllPresent(docs, HitIds(hits));
  }

  /** The error handler of `hybridSearch`: the keyword retriever alone, or `[]`
      when that throws too. */
  function CatchPath(docs: seq<Document>, query: string, env: SearchEnv, calls: seq<SearchCall>): SearchRun {
    var t := calls + [KeywordCall(query)];
    if env.fallbackThrows then SearchRun([], t) else SearchRun(KeywordRetriever(docs, query), t)
  }

  /** `hybridSearch`. */
  function HybridSearch(docs: seq<Document>, query: string, env: SearchEnv): SearchRun {
    var pre := EmbedCalls(env, query);
    match QueryEmbedding(env, query)
    case None => CatchPath(docs, query, env, pre)
    case Some(e) =>
      var t1 := pre + [VectorCall(VectorLimit)];
      match env.vectorSearch(e, VectorLimit)
      case None => CatchPath(docs, query, env, t1)
      case Some(hits) =>
        if |hits| > 0 && hits[0].score > VectorThreshold then
          SearchRun(VectorResults(docs, hits), t1 + [FetchCall(HitIds(hits))])
        else
          var t2 := t1 + [KeywordCall(query)];
          if env.keywordThrows then CatchPath(docs, query, env, t2)
          else if |hits| > 0 then
            SearchRun(Merge(VectorResults(docs, hits), KeywordRetriever(docs, query)), t2 + [FetchCall(HitIds(hits))])
          else SearchRun(KeywordRetriever(docs, query), t2)
  }

  /** The vector hits of a request whose embedding and vector search succeed. */
  predicate VectorOk(env: SearchEnv, query: string, hits: seq<VectorHit>) {
    && QueryEmbedding(env, query).Some?
    && env.vectorSearch(QueryEmbedding(env, query).value, VectorLimit) == Some(hits)
  }

  /** A top score above 0.7 returns the fetched vector results and never runs the
      keyword retriever. */
  lemma HybridConfidentVector(docs: seq<Document>, query: string, env: SearchEnv, hits: seq<VectorHit>)
    requires VectorOk(env, query, hits) && |hits| > 0 && hits[0].score > VectorThreshold
    ensures HybridSearch(docs, query, env).results == VectorResults(docs, hits)
    ensures forall c :: c in HybridSearch(docs, query, env).calls ==> !c.KeywordCall?
  {
  }

  /** A top score of at most 0.7 merges: the result is a permutation of the vector
      results followed by the lexical results with new ids, sorted by descending
      score; with distinct vector ids and a valid table no id appears twice. */
  lemma HybridMerged(docs: seq<Document>, query: string, env: SearchEnv, hits: seq<VectorHit>)
    requires VectorOk(env, query, hits) && |hits| > 0 && hits[0].score <= VectorThreshold
    requires !env.keywordThrows
    ensures var semantic := VectorResults(docs, hits);
            var unseen := Unseen(KeywordRetriever(docs, query), IdSet(semantic));
            var r := HybridSearch(docs, query, env).results;
            && multiset(r) == multiset(semantic + unseen)
            && |r| == |semantic| + |unseen|
            && SortedByScore(r)
            && IdSet(r) == IdSet(semantic) + IdSet(unseen)
    ensures DistinctIds(docs) && (forall i, j :: 0 <= i < j < |hits| ==> hits[i].id != hits[j].id)
            ==> DistinctResultIds(HybridSearch(docs, query, env).results)
  {
    var semantic := VectorResults(docs, hits);
    var lexical := KeywordRetriever(docs, query);
    assert HybridSearch(docs, query, env).results == Merge(semantic, lexical);
    MergeProperties(semantic, lexical);
    if DistinctIds(docs) && (forall i, j :: 0 <= i < j < |hits| ==> hits[i].id != hits[j].id) {
      var ids := HitIds(hits);
      FetchedDistinct(docs, ids);
      var fetched := Fetched(docs, ids);
      assert DistinctResultIds(semantic) by {
        forall i, j | 0 <= i < j < |semantic| ensures semantic[i].id != semantic[j].id {
          assert semantic[i].id == fetched[i].id && semantic[j].id == fetched[j].id;
        }
      }
      MatchesDistinct(docs, query);
      var ms := Matches(docs, query);
      assert DistinctResultIds(lexical) by {
        forall i, j | 0 <= i < j < |lexical| ensures lexical[i].id != lexical[j].id {
          assert lexical[i].id == ms[i].id && lexical[j].id == ms[j].id;
        }
      }
    }
  }

  /** With no vector hits the keyword results are returned unchanged. */
  lemma HybridNoHits(docs: seq<Document>, query: string, env: SearchEnv)
    requires VectorOk(env, query, []) && !env.keywordThrows
    ensures HybridSearch(docs, query, env).results == KeywordRetriever(docs, query)
  {
  }

  /** A missing key or any throw on the vector path falls back to the keyword
      retriever alone, and to `[]` when that throws as well. */
  lemma HybridVectorFailure(docs: seq<Document>, query: string, env: SearchEnv)
    requires QueryEmbedding(env, query).None?
          || env.vectorSearch(QueryEmbedding(env, query).value, VectorLimit).None?
    ensures HybridSearch(docs, query, env).results
         == if env.fallbackThrows then [] else KeywordRetriever(docs, query)
    ensures !HasKey(env.apiKey) ==> forall c :: c in HybridSearch(docs, query, env).calls ==> !c.EmbedCall?
  {
  }

  /** Every request to the vector index asks for at most 50 neighbours. */
  lemma HybridVectorLimit(docs: seq<Document>, query: string, env: SearchEnv)
    ensures forall c :: c in HybridSearch(docs, query, env).calls && c.VectorCall? ==> c.limit == VectorLimit
  {
    var calls := HybridSearch(docs, query, env).calls;
    var pre := EmbedCalls(env, query);
    var t1 := pre + [VectorCall(VectorLimit)];
    assert LimitedVectorCalls(pre) && LimitedVectorCalls(t1);
    match QueryEmbedding(env, query)
    case None =>
      LimitedAppend(pre, KeywordCall(query));
    case Some(e) =>
      match env.vectorSearch(e, VectorLimit)
      case None =>
        LimitedAppend(t1, KeywordCall(query));
      case Some(hits) =>
        var t2 := t1 + [KeywordCall(query)];
        LimitedAppend(t1, KeywordCall(query));
        LimitedAppend(t1, FetchCall(HitIds(hits)));
        LimitedAppend(t2, KeywordCall(query));
        LimitedAppend(t2, FetchCall(HitIds(hits)));
  }

  /** Every request to the vector index in `calls` asks for 50 neighbours. */
  predicate LimitedVectorCalls(calls: seq<SearchCall>) {
    forall c :: c in calls && c.VectorCall? ==> c.limit == VectorLimit
  }

  /** Appending a call that is not a vector query keeps the limit. */
  lemma LimitedAppend(calls: seq<SearchCall>, c: SearchCall)
    requires LimitedVectorCalls(calls) && !c.VectorCall?
    ensures LimitedVectorCalls(calls + [c])
  {
  }
}
