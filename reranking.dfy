/** Reranking of fused results. The model outputs (cross-encoder scores, the LLM's
    ranked id list, the LLM's per-movie ratings) are parameters; what is modelled is
    how each reranker writes them into the results, orders and truncates. */
module Reranking {
  import opened PyLists
  import opened StableSort
  import opened Records

  const CrossEncoderScoreKey := "cross_encoder_score"
  const BatchRankKey := "batch_rank"
  const IndividualScoreKey := "individual_score"

  /** `{**d, key: v}`: the result with one extra set, every other field kept. */
  function WithMeta(d: SearchResult, key: string, v: real): (r: SearchResult)
    ensures r.id == d.id && r.title == d.title && r.document == d.document && r.score == d.score
    ensures MetaOr(r, key) == v && r.meta.Keys == d.meta.Keys + {key}
  {
    d.(meta := d.meta[key := v])
  }

  function CrossScore(d: SearchResult): real { MetaOr(d, CrossEncoderScoreKey) }

  function BatchRank(d: SearchResult): real { MetaOr(d, BatchRankKey) }

  function IndividualScore(d: SearchResult): real { MetaOr(d, IndividualScoreKey) }

  // ------------------------------------------------------------ cross encoder

  /** The results after the score loop of `rerank_cross_encoder`. */
  function CrossScored(docs: seq<SearchResult>, scores: seq<real>): (r: seq<SearchResult>)
    requires |scores| == |docs|
    ensures |r| == |docs|
  {
    seq(|docs|, i requires 0 <= i < |docs| => WithMeta(docs[i], CrossEncoderScoreKey, scores[i]))
  }

  /** `rerank_cross_encoder`: writes each score into its result in place, then returns
      the first `limit` results by descending score. */
  method RerankCrossEncoder(docs: array<SearchResult>, scores: seq<real>, limit: int) returns (r: seq<SearchResult>)
    requires |scores| == docs.Length
    modifies docs
    ensures docs[..] == CrossScored(old(docs[..]), scores)
    ensures r == Take(SortDesc(docs[..], CrossScore), limit)
  {
    if docs.Length == 0 {
      return [];
    }
    for i := 0 to docs.Length
      invariant forall j :: 0 <= j < i ==> docs[j] == WithMeta(old(docs[j]), CrossEncoderScoreKey, scores[j])
      invariant forall j :: i <= j < docs.Length ==> docs[j] == old(docs[j])
    {
      docs[i] := WithMeta(docs[i], CrossEncoderScoreKey, scores[i]);
    }
    r := Take(SortDesc(docs[..], CrossScore), limit);
  }

  /** The cross-encoder ranking: at most `limit` results, each an input result carrying
      its own score, best score first, none dropped above a kept one, ties in input
      order. */
  lemma RerankCrossEncoderFacts(docs: seq<SearchResult>, scores: seq<real>, limit: int)
    requires |scores| == |docs|
    ensures var d := CrossScored(docs, scores);
            var c := SortDesc(d, CrossScore);
            var r := Take(c, limit);
            && (limit >= 0 ==> |r| == Min(limit, |docs|))
            && SortedDesc(r, CrossScore)
            && (forall i :: 0 <= i < |r| ==> CarriesOwnScore(r[i], docs, scores))
            && (forall i, j :: 0 <= i < |r| <= j < |c| ==> CrossScore(c[j]) <= CrossScore(r[i]))
            && TiesKeepOrder(r, d, CrossScore)
  {
    var d := CrossScored(docs, scores);
    var r := Take(SortDesc(d, CrossScore), limit);
    TopK(d, CrossScore, limit);
    CrossScoredMembers(docs, scores, r);
  }

  /** x is one of the input results with its own cross-encoder score attached. */
  ghost predicate CarriesOwnScore(x: SearchResult, docs: seq<SearchResult>, scores: seq<real>) {
    exists j :: 0 <= j < |docs| && j < |scores| && x == WithMeta(docs[j], CrossEncoderScoreKey, scores[j])
  }

  /** Results drawn from the scored list are input results, each carrying its own score. */
  lemma CrossScoredMembers(docs: seq<SearchResult>, scores: seq<real>, r: seq<SearchResult>)
    requires |scores| == |docs| && multiset(r) <= multiset(CrossScored(docs, scores))
    ensures forall i :: 0 <= i < |r| ==> CarriesOwnScore(r[i], docs, scores)
  {
    var d := CrossScored(docs, scores);
    forall i | 0 <= i < |r| ensures CarriesOwnScore(r[i], docs, scores) {
      assert r[i] in multiset(r);
      assert r[i] in multiset(d);
      var j :| 0 <= j < |d| && d[j] == r[i];
      assert d[j] == WithMeta(docs[j], CrossEncoderScoreKey, scores[j]);
    }
  }

  // ------------------------------------------------------------ LLM batch ranking

  /** `doc_map`: each id mapped to the last result carrying it. */
  function DocMap(docs: seq<SearchResult>): map<string, SearchResult> {
    if docs == [] then map[]
    else DocMap(docs[..|docs| - 1])[docs[|docs| - 1].id := docs[|docs| - 1]]
  }

  /** `doc_map` holds exactly the ids of the results. */
  lemma {:induction false} DocMapKeys(docs: seq<SearchResult>)
    ensures forall id :: id in DocMap(docs) <==> exists k :: 0 <= k < |docs| && docs[k].id == id
  {
    if docs != [] {
      var init := docs[..|docs| - 1];
      DocMapKeys(init);
      forall id | id in DocMap(docs) ensures exists k :: 0 <= k < |docs| && docs[k].id == id {
        if id != docs[|docs| - 1].id {
          assert DocMap(docs) == DocMap(init)[docs[|docs| - 1].id := docs[|docs| - 1]];
          assert id in DocMap(init);
          var k :| 0 <= k < |init| && init[k].id == id;
          assert docs[k] == init[k];
        }
      }
      forall id, k | 0 <= k < |docs| && docs[k].id == id ensures id in DocMap(docs) {
        if k < |init| {
          assert init[k] == docs[k];
        }
      }
    }
  }

  /** Each id of `doc_map` is mapped to the last result with that id. */
  lemma {:induction false} DocMapLastWins(docs: seq<SearchResult>, k: int)
    requires 0 <= k < |docs| && forall l :: k < l < |docs| ==> docs[l].id != docs[k].id
    ensures docs[k].id in DocMap(docs) && DocMap(docs)[docs[k].id] == docs[k]
  {
    var init := docs[..|docs| - 1];
    if k < |init| {
      assert docs[|docs| - 1].id != docs[k].id;
      assert init[k] == docs[k];
      forall l | k < l < |init| ensures init[l].id != init[k].id {
        assert init[l] == docs[l];
      }
      DocMapLastWins(init, k);
    }
  }

  /** With no results known, the batch ranking is empty. */
  lemma {:induction false} BatchRankedNone(ranking: seq<string>)
    ensures BatchRanked(map[], ranking) == []
  {
    if ranking != [] {
      BatchRankedNone(ranking[..|ranking| - 1]);
    }
  }

  /** `reranked`: for each position of the LLM's list whose id is a known result, that
      result with its 1-based position as `batch_rank`. */
  function BatchRanked(docMap: map<string, SearchResult>, ranking: seq<string>): seq<SearchResult> {
    if ranking == [] then []
    else
      var n := |ranking|;
      BatchRanked(docMap, ranking[..n - 1])
        + if ranking[n - 1] in docMap then [WithMeta(docMap[ranking[n - 1]], BatchRankKey, n as real)] else []
  }

  /** `x` is what the batch loop appends at position `i` of the LLM's list. */
  predicate RankedAt(docMap: map<string, SearchResult>, ranking: seq<string>, i: int, x: SearchResult) {
    0 <= i < |ranking| && ranking[i] in docMap && x == WithMeta(docMap[ranking[i]], BatchRankKey, (i + 1) as real)
  }

  /** The batch ranking keeps exactly the listed ids that are known, in the list's
      order: it is what the loop appends at an increasing run of positions `pos` of the
      list, which takes in every position whose id is known. So each kept result has its
      1-based position as `batch_rank`, and unknown ids still use up a position. */
  lemma {:induction false} BatchRankedFacts(docMap: map<string, SearchResult>, ranking: seq<string>) returns (pos: seq<int>)
    ensures |pos| == |BatchRanked(docMap, ranking)|
    ensures forall j :: 0 <= j < |pos| ==> RankedAt(docMap, ranking, pos[j], BatchRanked(docMap, ranking)[j])
    ensures forall j1, j2 :: 0 <= j1 < j2 < |pos| ==> pos[j1] < pos[j2]
    ensures forall i :: 0 <= i < |ranking| && ranking[i] in docMap ==> i in pos
  {
    if ranking == [] {
      return [];
    }
    var n := |ranking|;
    var init := ranking[..n - 1];
    var prev := BatchRanked(docMap, init);
    var r := BatchRanked(docMap, ranking);
    var p := BatchRankedFacts(docMap, init);
    pos := if ranking[n - 1] in docMap then p + [n - 1] else p;
    assert r == prev + if ranking[n - 1] in docMap then [WithMeta(docMap[ranking[n - 1]], BatchRankKey, n as real)] else [];
    forall j | 0 <= j < |p| ensures pos[j] == p[j] < n - 1 && r[j] == prev[j] && RankedAt(docMap, ranking, p[j], r[j]) {
      assert RankedAt(docMap, init, p[j], prev[j]);
      assert init[p[j]] == ranking[p[j]];
    }
    forall i | 0 <= i < |ranking| && ranking[i] in docMap ensures i in pos {
      if i < n - 1 {
        assert init[i] == ranking[i];
      }
    }
  }

  /** `rerank_batch`: maps each id to its (last) result, walks the LLM's id list keeping
      the known ids with their position as `batch_rank`, and returns the first `limit`. */
  method RerankBatch(docs: seq<SearchResult>, ranking: seq<string>, limit: int) returns (r: seq<SearchResult>)
    ensures r == Take(BatchRanked(DocMap(docs), ranking), limit)
  {
    if |docs| == 0 {
      BatchRankedNone(ranking);
      return [];
    }
    var docMap := map[];
    for i := 0 to |docs|
      invariant docMap == DocMap(docs[..i])
    {
      assert docs[..i + 1][..i] == docs[..i];
      docMap := docMap[docs[i].id := docs[i]];
    }
    assert docs[..|docs|] == docs;
    var reranked := [];
    for i := 0 to |ranking|
      invariant reranked == BatchRanked(docMap, ranking[..i])
    {
      assert ranking[..i + 1][..i] == ranking[..i];
      if ranking[i] in docMap {
        reranked := reranked + [WithMeta(docMap[ranking[i]], BatchRankKey, (i + 1) as real)];
      }
    }
    assert ranking[..|ranking|] == ranking;
    r := Take(reranked, limit);
  }

  // ------------------------------------------------------------ LLM ratings

  /** `scored_docs` after the rating loop of `rerank_individual`. */
  function IndividualScored(docs: seq<SearchResult>, scores: seq<int>): (r: seq<SearchResult>)
    requires |scores| == |docs|
    ensures |r| == |docs|
  {
    seq(|docs|, i requires 0 <= i < |docs| => WithMeta(docs[i], IndividualScoreKey, scores[i] as real))
  }

  /** `rerank_individual`: attaches each rating to a copy of its result, sorts best
      first and returns the first `limit`. */
  method RerankIndividual(docs: seq<SearchResult>, scores: seq<int>, limit: int) returns (r: seq<SearchResult>)
    requires |scores| == |docs|
    ensures r == Take(SortDesc(IndividualScored(docs, scores), IndividualScore), limit)
  {
    var scoredDocs := [];
    for i := 0 to |docs|
      invariant |scoredDocs| == i
      invariant forall j :: 0 <= j < i ==> scoredDocs[j] == WithMeta(docs[j], IndividualScoreKey, scores[j] as real)
    {
      scoredDocs := scoredDocs + [WithMeta(docs[i], IndividualScoreKey, scores[i] as real)];
    }
    assert scoredDocs == IndividualScored(docs, scores);
    scoredDocs := SortDesc(scoredDocs, IndividualScore);
    r := Take(scoredDocs, limit);
  }

  /** The rating ranking: at most `limit` results, each an input result carrying its own
      rating, best rating first, none dropped above a kept one, ties in input order. */
  lemma RerankIndividualFacts(docs: seq<SearchResult>, scores: seq<int>, limit: int)
    requires |scores| == |docs|
    ensures var d := IndividualScored(docs, scores);
            var c := SortDesc(d, IndividualScore);
            var r := Take(c, limit);
            && (limit >= 0 ==> |r| == Min(limit, |docs|))
            && SortedDesc(r, IndividualScore)
            && (forall i :: 0 <= i < |r| ==> exists j :: 0 <= j < |docs| && r[i] == WithMeta(docs[j], IndividualScoreKey, scores[j] as real))
            && (forall i, j :: 0 <= i < |r| <= j < |c| ==> IndividualScore(c[j]) <= IndividualScore(r[i]))
            && TiesKeepOrder(r, d, IndividualScore)
  {
    var d := IndividualScored(docs, scores);
    var r := Take(SortDesc(d, IndividualScore), limit);
    TopK(d, IndividualScore, limit);
    forall i | 0 <= i < |r| ensures exists j :: 0 <= j < |docs| && r[i] == WithMeta(docs[j], IndividualScoreKey, scores[j] as real) {
      assert r[i] in multiset(r);
      assert r[i] in multiset(d);
      var j :| 0 <= j < |d| && d[j] == r[i];
    }
  }

  // ------------------------------------------------------------ dispatch

  const CrossEncoderMethod := "cross_encoder"
  const BatchMethod := "batch"
  const IndividualMethod := "individual"

  /** `rerank_result`: runs the named reranker; any other name returns the first `limit`
      results unchanged. Only the cross encoder writes into the caller's results. */
  method RerankResult(docs: array<SearchResult>, rerankMethod: string, limit: int,
                      crossScores: seq<real>, ranking: seq<string>, ratings: seq<int>)
    returns (r: seq<SearchResult>)
    requires rerankMethod == CrossEncoderMethod ==> |crossScores| == docs.Length
    requires rerankMethod == IndividualMethod ==> |ratings| == docs.Length
    modifies docs
    ensures rerankMethod == CrossEncoderMethod ==>
              && docs[..] == CrossScored(old(docs[..]), crossScores)
              && r == Take(SortDesc(docs[..], CrossScore), limit)
    ensures rerankMethod != CrossEncoderMethod ==> unchanged(docs)
    ensures rerankMethod == BatchMethod ==> r == Take(BatchRanked(DocMap(docs[..]), ranking), limit)
    ensures rerankMethod == IndividualMethod ==> r == Take(SortDesc(IndividualScored(docs[..], ratings), IndividualScore), limit)
    ensures rerankMethod !in {CrossEncoderMethod, BatchMethod, IndividualMethod} ==> r == Take(docs[..], limit)
  {
    if rerankMethod == CrossEncoderMethod {
      r := RerankCrossEncoder(docs, crossScores, limit);
    } else if rerankMethod == BatchMethod {
      r := RerankBatch(docs[..], ranking, limit);
    } else if rerankMethod == IndividualMethod {
      r := RerankIndividual(docs[..], ratings, limit);
    } else {
      r := Take(docs[..], limit);
    }
  }
}
