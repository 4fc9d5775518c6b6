/** Embedding-based search over whole movies and over description chunks
    (cli/lib/semantic_search.py): the cache reuse-or-rebuild decisions, the chunk
    metadata, the query guard, ranking by cosine similarity and per-movie max
    aggregation of chunk scores. The sentence encoder and the vector norm are
    parameters; the cache files are the fields of an `EmbeddingCache`. */
module SemanticSearch {
  import opened Wrappers
  import opened PyLists
  import opened SearchUtils
  import opened Records
  import opened StableSort
  import opened Chunking

  type Vector = seq<real>

  // ------------------------------------------------------------ similarity

  /** `np.dot` of two vectors of the same length. On vectors of different lengths, where
      `np.dot` raises ValueError, this sums over the common prefix instead. */
  function Dot(u: Vector, v: Vector): real
    decreases |u|
  {
    if u == [] || v == [] then 0.0 else u[0] * v[0] + Dot(u[1..], v[1..])
  }

  lemma {:induction false} DotSymmetric(u: Vector, v: Vector)
    ensures Dot(u, v) == Dot(v, u)
    decreases |u|
  {
    if u != [] && v != [] {
      DotSymmetric(u[1..], v[1..]);
    }
  }

  /** `cosine_similarity`, with the norm left abstract: 0.0 when either norm is zero. */
  function CosineSimilarity(u: Vector, v: Vector, norm: Vector -> real): (r: real)
    ensures norm(u) == 0.0 || norm(v) == 0.0 ==> r == 0.0
  {
    if norm(u) == 0.0 || norm(v) == 0.0 then 0.0
    else Dot(u, v) / (norm(u) * norm(v))
  }

  /** The similarity does not depend on the order of its arguments. */
  lemma CosineSymmetric(u: Vector, v: Vector, norm: Vector -> real)
    ensures CosineSimilarity(u, v, norm) == CosineSimilarity(v, u, norm)
  {
    DotSymmetric(u, v);
  }

  // ------------------------------------------------------------ encoding

  /** `generate_embedding`: "" and whitespace-only text are refused; anything else
      is encoded. */
  function GenerateEmbedding(text: string, encode: string -> Vector): (r: Result<Vector>)
    ensures r.Err? ==> r.error == ValueError("No input text provided")
    ensures r.Ok? ==> r.value == encode(text)
  {
    if text == "" || (|text| > 0 && AllSpace(text)) then Err(ValueError("No input text provided"))
    else Ok(encode(text))
  }

  /** The guard refuses exactly the texts that are empty once stripped. */
  lemma GenerateEmbeddingRefusesBlank(text: string, encode: string -> Vector)
    ensures GenerateEmbedding(text, encode).Err? <==> Strip(text) == []
  {
    StripEmpty(text);
  }

  /** `model.encode(texts)`: one vector per text, in order. */
  function EncodeAll(texts: seq<string>, encode: string -> Vector): (r: seq<Vector>)
    ensures |r| == |texts|
  {
    seq(|texts|, i requires 0 <= i < |texts| => encode(texts[i]))
  }

  /** `f"{doc['title']}:{doc['description']}"`. */
  function MovieString(m: Movie): string
    requires Complete(m)
  {
    m.title.value + ":" + m.description.value
  }

  predicate AllComplete(docs: seq<Movie>) {
    forall k :: 0 <= k < |docs| ==> Complete(docs[k])
  }

  predicate AllHaveIds(docs: seq<Movie>) {
    forall k :: 0 <= k < |docs| ==> docs[k].id.Some?
  }

  function MovieStrings(docs: seq<Movie>): seq<string>
    requires AllComplete(docs)
  {
    seq(|docs|, k requires 0 <= k < |docs| => MovieString(docs[k]))
  }

  /** `document_map[doc["id"]] = doc` for each document in turn. */
  function IdMap(docs: seq<Movie>): map<int, Movie>
    requires AllHaveIds(docs)
  {
    if docs == [] then map[]
    else IdMap(docs[..|docs| - 1])[docs[|docs| - 1].id.value := docs[|docs| - 1]]
  }

  /** The map holds exactly the ids of the documents. */
  lemma {:induction false} IdMapKeys(docs: seq<Movie>)
    requires AllHaveIds(docs)
    ensures forall id :: id in IdMap(docs) <==> exists k :: 0 <= k < |docs| && docs[k].id == Some(id)
  {
    if docs != [] {
      var init := docs[..|docs| - 1];
      IdMapKeys(init);
      forall id ensures id in IdMap(docs) <==> exists k :: 0 <= k < |docs| && docs[k].id == Some(id) {
        if id in IdMap(init) {
          var k :| 0 <= k < |init| && init[k].id == Some(id);
          assert docs[k].id == Some(id);
        }
        if k :| 0 <= k < |docs| && docs[k].id == Some(id) {
          if k < |init| {
            assert init[k].id == Some(id);
          }
        }
      }
    }
  }

  /** Under each id the map holds the last document that carries it. */
  lemma {:induction false} IdMapLast(docs: seq<Movie>)
    requires AllHaveIds(docs)
    ensures forall k :: 0 <= k < |docs| && (forall l :: k < l < |docs| ==> docs[l].id != docs[k].id) ==>
              docs[k].id.value in IdMap(docs) && IdMap(docs)[docs[k].id.value] == docs[k]
  {
    if docs != [] {
      var init := docs[..|docs| - 1];
      IdMapLast(init);
      forall k | 0 <= k < |docs| && (forall l :: k < l < |docs| ==> docs[l].id != docs[k].id)
        ensures docs[k].id.value in IdMap(docs) && IdMap(docs)[docs[k].id.value] == docs[k]
      {
        if k < |init| {
          assert docs[|docs| - 1].id != docs[k].id;
          assert init[k] == docs[k];
          assert forall l :: k < l < |init| ==> init[l].id != init[k].id by {
            forall l | k < l < |init| ensures init[l].id != init[k].id {
              assert init[l] == docs[l];
            }
          }
        }
      }
    }
  }

  /** One step of the loops that fill a document map: the map over one more document is
      the previous map updated at that document's id. */
  lemma IdMapStep(m0: map<int, Movie>, docs: seq<Movie>, i: nat)
    requires i < |docs| && AllHaveIds(docs)
    ensures AllHaveIds(docs[..i]) && AllHaveIds(docs[..i + 1])
    ensures IdMap(docs[..i + 1]) == IdMap(docs[..i])[docs[i].id.value := docs[i]]
    ensures m0 + IdMap(docs[..i + 1]) == (m0 + IdMap(docs[..i]))[docs[i].id.value := docs[i]]
  {
    assert docs[..i + 1][..i] == docs[..i];
  }

  /** A map registered into an empty map is that map. */
  lemma EmptyUnion(m: map<int, Movie>)
    ensures map[] + m == m
  {
  }

  // ------------------------------------------------------------ chunk metadata

  /** One entry of the chunk metadata: the chunk's movie (list position), its position
      among that movie's chunks, and how many chunks that movie has. */
  datatype ChunkMeta = ChunkMeta(movieIdx: nat, chunkIdx: nat, totalChunks: nat)

  /** `doc.get("description", "")`. */
  function DescriptionOf(m: Movie): string {
    m.description.GetOr("")
  }

  /** The chunks one movie contributes: none for a blank description. */
  function MovieChunks(m: Movie, maxChunkSize: nat, overlap: nat): seq<string>
    requires overlap < maxChunkSize
  {
    var text := DescriptionOf(m);
    if Strip(text) == [] then [] else SentenceChunks(text, maxChunkSize, overlap)
  }

  /** `all_chunks`: the chunks of every movie, movie by movie. */
  function AllChunks(docs: seq<Movie>, maxChunkSize: nat, overlap: nat): seq<string>
    requires overlap < maxChunkSize
  {
    if docs == [] then []
    else AllChunks(docs[..|docs| - 1], maxChunkSize, overlap) + MovieChunks(docs[|docs| - 1], maxChunkSize, overlap)
  }

  /** The metadata entries of movie i, whose chunk count is n. */
  function MetaOf(i: nat, n: nat): (r: seq<ChunkMeta>)
    ensures |r| == n
  {
    seq(n, j requires 0 <= j => ChunkMeta(i, j, n))
  }

  /** `metadata`, built alongside `all_chunks`. */
  function ChunkMetadata(docs: seq<Movie>, maxChunkSize: nat, overlap: nat): seq<ChunkMeta>
    requires overlap < maxChunkSize
  {
    if docs == [] then []
    else ChunkMetadata(docs[..|docs| - 1], maxChunkSize, overlap)
         + MetaOf(|docs| - 1, |MovieChunks(docs[|docs| - 1], maxChunkSize, overlap)|)
  }

  /** Entry k of the metadata describes chunk k: its movie exists and has a non-blank
      description, and the chunk is that movie's chunk `chunkIdx` of `totalChunks`. */
  predicate Describes(docs: seq<Movie>, maxChunkSize: nat, overlap: nat, e: ChunkMeta, chunk: string)
    requires overlap < maxChunkSize
  {
    && e.movieIdx < |docs|
    && Strip(DescriptionOf(docs[e.movieIdx])) != []
    && e.totalChunks == |MovieChunks(docs[e.movieIdx], maxChunkSize, overlap)|
    && e.chunkIdx < e.totalChunks
    && chunk == MovieChunks(docs[e.movieIdx], maxChunkSize, overlap)[e.chunkIdx]
  }

  /** Entries come in (movie, chunk) order: lexicographically increasing. */
  predicate Before(a: ChunkMeta, b: ChunkMeta) {
    a.movieIdx < b.movieIdx || (a.movieIdx == b.movieIdx && a.chunkIdx < b.chunkIdx)
  }

  /** One metadata entry per chunk, each describing its chunk, in (movie, chunk) order. */
  lemma {:induction false} ChunkMetadataFacts(docs: seq<Movie>, maxChunkSize: nat, overlap: nat)
    requires overlap < maxChunkSize
    ensures |ChunkMetadata(docs, maxChunkSize, overlap)| == |AllChunks(docs, maxChunkSize, overlap)|
    ensures forall k :: 0 <= k < |AllChunks(docs, maxChunkSize, overlap)| ==>
              Describes(docs, maxChunkSize, overlap, ChunkMetadata(docs, maxChunkSize, overlap)[k], AllChunks(docs, maxChunkSize, overlap)[k])
    ensures forall k, l :: 0 <= k < l < |ChunkMetadata(docs, maxChunkSize, overlap)| ==>
              Before(ChunkMetadata(docs, maxChunkSize, overlap)[k], ChunkMetadata(docs, maxChunkSize, overlap)[l])
  {
    if docs != [] {
      var init := docs[..|docs| - 1];
      var i := |docs| - 1;
      var m := docs[i];
      ChunkMetadataFacts(init, maxChunkSize, overlap);
      var metaInit, chunksInit := ChunkMetadata(init, maxChunkSize, overlap), AllChunks(init, maxChunkSize, overlap);
      var mine := MovieChunks(m, maxChunkSize, overlap);
      var meta, chunks := ChunkMetadata(docs, maxChunkSize, overlap), AllChunks(docs, maxChunkSize, overlap);
      assert meta == metaInit + MetaOf(i, |mine|);
      assert chunks == chunksInit + mine;
      forall k | 0 <= k < |chunks| ensures Describes(docs, maxChunkSize, overlap, meta[k], chunks[k]) {
        if k < |chunksInit| {
          assert meta[k] == metaInit[k] && chunks[k] == chunksInit[k];
          assert Describes(init, maxChunkSize, overlap, metaInit[k], chunksInit[k]);
          assert docs[metaInit[k].movieIdx] == init[metaInit[k].movieIdx];
        } else {
          var j := k - |chunksInit|;
          assert meta[k] == ChunkMeta(i, j, |mine|) && chunks[k] == mine[j];
          assert Strip(DescriptionOf(m)) != [];
        }
      }
      forall k, l | 0 <= k < l < |meta| ensures Before(meta[k], meta[l]) {
        if l < |metaInit| {
          assert meta[k] == metaInit[k] && meta[l] == metaInit[l];
        } else if k < |metaInit| {
          assert Describes(init, maxChunkSize, overlap, metaInit[k], chunksInit[k]);
        }
      }
    }
  }

  // ------------------------------------------------------------ cache and searchers

  /** The three cache files; `None` is a file that does not exist. */
  class EmbeddingCache {
    var movieEmbeddings: Option<seq<Vector>>
    var chunkEmbeddings: Option<seq<Vector>>
    var chunkMetadata: Option<seq<ChunkMeta>>

    constructor (movieEmbeddings: Option<seq<Vector>>, chunkEmbeddings: Option<seq<Vector>>, chunkMetadata: Option<seq<ChunkMeta>>)
      ensures this.movieEmbeddings == movieEmbeddings
      ensures this.chunkEmbeddings == chunkEmbeddings
      ensures this.chunkMetadata == chunkMetadata
    {
      this.movieEmbeddings := movieEmbeddings;
      this.chunkEmbeddings := chunkEmbeddings;
      this.chunkMetadata := chunkMetadata;
    }
  }

  /** What `load_or_create_embeddings` hands back without encoding: the cache file if it
      exists, else the embeddings already in memory, provided there is one per document. */
  function ReusableEmbeddings(file: Option<seq<Vector>>, inMemory: Option<seq<Vector>>, n: nat): (r: Option<seq<Vector>>)
    ensures r.Some? ==> |r.value| == n
    ensures file.Some? && |file.value| != n ==> r.None?
    ensures file.None? && inMemory.Some? && |inMemory.value| == n ==> r == inMemory
  {
    var loaded := if file.Some? then file else inMemory;
    if loaded.Some? && |loaded.value| == n then loaded else None
  }

  /** One result of `SemanticSearch.search`: `doc.get(...)` of the three keys. */
  datatype MovieHit = MovieHit(docId: Option<int>, score: real, title: Option<string>, description: Option<string>)

  datatype ScoredMovie = ScoredMovie(score: real, movie: Movie)

  function ScoreOf(s: ScoredMovie): real { s.score }

  function HitOf(s: ScoredMovie): MovieHit {
    MovieHit(s.movie.id, s.score, s.movie.title, s.movie.description)
  }

  /** The (similarity, document) pair of every stored embedding, by position. */
  function ScoredMovies(embeddings: seq<Vector>, documents: seq<Movie>, q: Vector, norm: Vector -> real): (r: seq<ScoredMovie>)
    requires |embeddings| <= |documents|
    ensures |r| == |embeddings|
  {
    seq(|embeddings|, i requires 0 <= i < |embeddings| => ScoredMovie(CosineSimilarity(q, embeddings[i], norm), documents[i]))
  }

  /** The hits `search` returns: best similarity first (ties in catalog order), cut to `limit`. */
  function RankedHits(embeddings: seq<Vector>, documents: seq<Movie>, q: Vector, norm: Vector -> real, limit: int): seq<MovieHit>
    requires |embeddings| <= |documents|
  {
    Hits(Take(SortDesc(ScoredMovies(embeddings, documents, q, norm), ScoreOf), limit))
  }

  /** One hit per scored document, in order. */
  function Hits(top: seq<ScoredMovie>): seq<MovieHit> {
    seq(|top|, j requires 0 <= j < |top| => HitOf(top[j]))
  }

  /** The hits are in non-increasing score order, min(limit, n) of them for n embeddings
      (when the limit is not negative), and each is a stored document with the similarity
      of its own embedding. They report a top-`limit` selection of the scored documents:
      each scored pair at most once, none left out scoring above one kept, and equal
      scores in catalog order. */
  lemma RankedHitsFacts(embeddings: seq<Vector>, documents: seq<Movie>, q: Vector, norm: Vector -> real, limit: int)
    requires |embeddings| <= |documents|
    ensures var hs := RankedHits(embeddings, documents, q, norm, limit);
            var scored := ScoredMovies(embeddings, documents, q, norm);
            var top := Take(SortDesc(scored, ScoreOf), limit);
            && IsTopK(top, scored, ScoreOf, limit)
            && |hs| == |top|
            && (forall j :: 0 <= j < |hs| ==> hs[j] == HitOf(top[j]))
            && |hs| <= |embeddings|
            && (limit >= 0 ==> |hs| == Min(limit, |embeddings|))
            && (forall i, j :: 0 <= i < j < |hs| ==> hs[i].score >= hs[j].score)
            && (forall j :: 0 <= j < |hs| ==>
                  exists i :: 0 <= i < |embeddings| && hs[j] == HitOf(ScoredMovie(CosineSimilarity(q, embeddings[i], norm), documents[i])))
  {
    var scored := ScoredMovies(embeddings, documents, q, norm);
    TopKSelects(scored, ScoreOf, limit);
    var top := Take(SortDesc(scored, ScoreOf), limit);
    HitsOfSelection(embeddings, documents, q, norm, top);
    assert |RankedHits(embeddings, documents, q, norm, limit)| == |top| <= |scored|;
  }

  /** Hits of scored documents taken best first from the scored embeddings are in
      non-increasing score order, each a stored document with its own similarity. */
  lemma HitsOfSelection(embeddings: seq<Vector>, documents: seq<Movie>, q: Vector, norm: Vector -> real, top: seq<ScoredMovie>)
    requires |embeddings| <= |documents|
    requires SortedDesc(top, ScoreOf) && multiset(top) <= multiset(ScoredMovies(embeddings, documents, q, norm))
    ensures var hs := Hits(top);
            && (forall i, j :: 0 <= i < j < |hs| ==> hs[i].score >= hs[j].score)
            && (forall j :: 0 <= j < |hs| ==>
                  exists i :: 0 <= i < |embeddings| && hs[j] == HitOf(ScoredMovie(CosineSimilarity(q, embeddings[i], norm), documents[i])))
  {
    var scored := ScoredMovies(embeddings, documents, q, norm);
    var hs := Hits(top);
    forall i, j | 0 <= i < j < |hs| ensures hs[i].score >= hs[j].score {
      assert hs[i].score == ScoreOf(top[i]) && hs[j].score == ScoreOf(top[j]);
    }
    forall j | 0 <= j < |hs|
      ensures exists i :: 0 <= i < |embeddings|
                && hs[j] == HitOf(ScoredMovie(CosineSimilarity(q, embeddings[i], norm), documents[i]))
    {
      assert top[j] in multiset(scored);
      var i :| 0 <= i < |scored| && scored[i] == top[j];
      assert hs[j] == HitOf(scored[i]);
    }
  }

  /** The number of values held by an embeddings array (`ndarray.size`). */
  function Size(embeddings: seq<Vector>): nat {
    |Flatten(embeddings)|
  }

  /** `SemanticSearch`: whole-movie embeddings, the documents they belong to, and the
      id map; `cache` is where the embeddings file lives. */
  class SemanticSearch {
    var embeddings: Option<seq<Vector>>
    var documents: Option<seq<Movie>>
    var documentMap: map<int, Movie>
    const cache: EmbeddingCache

    constructor (cache: EmbeddingCache)
      ensures embeddings == None && documents == None && documentMap == map[]
      ensures this.cache == cache
    {
      embeddings := None;
      documents := None;
      documentMap := map[];
      this.cache := cache;
    }

    /** `build_embeddings`: encodes "title:description" of every document, keeps the
        result and writes it to the cache file. */
    method BuildEmbeddings(docs: seq<Movie>, encode: string -> Vector) returns (r: seq<Vector>)
      requires AllComplete(docs)
      modifies this, cache
      ensures documents == Some(docs)
      ensures documentMap == old(documentMap) + IdMap(docs)
      ensures r == EncodeAll(MovieStrings(docs), encode) && |r| == |docs|
      ensures embeddings == Some(r)
      ensures cache.movieEmbeddings == Some(r)
      ensures cache.chunkEmbeddings == old(cache.chunkEmbeddings) && cache.chunkMetadata == old(cache.chunkMetadata)
    {
      documents := Some(docs);
      var movieStrings := [];
      for i := 0 to |docs|
        invariant documentMap == old(documentMap) + IdMap(docs[..i])
        invariant movieStrings == MovieStrings(docs[..i])
        invariant documents == Some(docs) && unchanged(cache)
      {
        IdMapStep(old(documentMap), docs, i);
        documentMap := documentMap[docs[i].id.value := docs[i]];
        movieStrings := movieStrings + [docs[i].title.value + ":" + docs[i].description.value];
      }
      assert docs[..|docs|] == docs;
      r := EncodeAll(movieStrings, encode);
      embeddings := Some(r);
      cache.movieEmbeddings := Some(r);
    }

    /** The loop `for doc in documents: self.document_map[doc["id"]] = doc` that
        `load_or_create_embeddings` and `build_chunk_embeddings` run: each document is
        registered under its id, a later one replacing an earlier one. */
    method MapDocuments(docs: seq<Movie>)
      requires AllHaveIds(docs)
      modifies this
      ensures documentMap == old(documentMap) + IdMap(docs)
      ensures documents == old(documents) && embeddings == old(embeddings)
    {
      for i := 0 to |docs|
        invariant documentMap == old(documentMap) + IdMap(docs[..i])
        invariant documents == old(documents) && embeddings == old(embeddings)
      {
        IdMapStep(old(documentMap), docs, i);
        documentMap := documentMap[docs[i].id.value := docs[i]];
      }
      assert docs[..|docs|] == docs;
    }

    /** `load_or_create_embeddings`: reuses the cache file, or else the embeddings in
        memory, when it has one row per document; otherwise rebuilds and saves. Either
        way the result has one row per document. Titles and descriptions are needed only
        on the rebuild path. */
    method LoadOrCreateEmbeddings(docs: seq<Movie>, encode: string -> Vector) returns (r: seq<Vector>)
      requires AllHaveIds(docs)
      requires ReusableEmbeddings(cache.movieEmbeddings, embeddings, |docs|).None? ==> AllComplete(docs)
      modifies this, cache
      ensures documents == Some(docs)
      ensures documentMap == old(documentMap) + IdMap(docs)
      ensures |r| == |docs|
      ensures var reused := ReusableEmbeddings(old(cache.movieEmbeddings), old(embeddings), |docs|);
              if reused.Some? then
                r == reused.value && embeddings == reused && cache.movieEmbeddings == old(cache.movieEmbeddings)
              else
                r == EncodeAll(MovieStrings(docs), encode) && embeddings == Some(r) && cache.movieEmbeddings == Some(r)
      ensures cache.chunkEmbeddings == old(cache.chunkEmbeddings) && cache.chunkMetadata == old(cache.chunkMetadata)
    {
      documents := Some(docs);
      MapDocuments(docs);
      if cache.movieEmbeddings.Some? {
        embeddings := cache.movieEmbeddings;
      }
      if embeddings.Some? && |embeddings.value| == |docs| {
        return embeddings.value;
      }
      ghost var before := documentMap;
      r := BuildEmbeddings(docs, encode);
      IdMapTwice(before, docs);
    }

    /** `search`: the guards on the loaded state and the query, then every stored
        embedding scored against the query, sorted and cut to `limit`. */
    method Search(query: string, limit: int, encode: string -> Vector, norm: Vector -> real) returns (r: Result<seq<MovieHit>>)
      ensures r == SearchOutcome(embeddings, documents, query, limit, encode, norm)
    {
      if embeddings.None? || Size(embeddings.value) == 0 {
        return Err(ValueError("No embeddings loaded"));
      }
      if documents.None? || |documents.value| == 0 {
        return Err(ValueError("No documents loaded"));
      }
      var embedding := GenerateEmbedding(query, encode);
      if embedding.Err? {
        return Err(embedding.error);
      }
      var q := embedding.value;
      var es, ds := embeddings.value, documents.value;
      var scores := [];
      for i := 0 to |es|
        invariant i <= |ds|
        invariant scores == ScoredMovies(es[..i], ds, q, norm)
      {
        if i >= |ds| {
          return Err(IndexError);
        }
        scores := scores + [ScoredMovie(CosineSimilarity(q, es[i], norm), ds[i])];
      }
      assert es[..|es|] == es;
      var sortedScores := SortDesc(scores, ScoreOf);
      var top := Take(sortedScores, limit);
      var result := [];
      for j := 0 to |top|
        invariant result == seq(j, k requires 0 <= k < j => HitOf(top[k]))
      {
        var s := top[j];
        result := result + [MovieHit(s.movie.id, s.score, s.movie.title, s.movie.description)];
      }
      return Ok(result);
    }
  }

  /** What `search` returns or raises, for the loaded embeddings and documents. */
  function SearchOutcome(embeddings: Option<seq<Vector>>, documents: Option<seq<Movie>>, query: string, limit: int,
                         encode: string -> Vector, norm: Vector -> real): Result<seq<MovieHit>>
  {
    if embeddings.None? || Size(embeddings.value) == 0 then Err(ValueError("No embeddings loaded"))
    else if documents.None? || |documents.value| == 0 then Err(ValueError("No documents loaded"))
    else
      match GenerateEmbedding(query, encode)
      case Err(e) => Err(e)
      case Ok(q) =>
        if |documents.value| < |embeddings.value| then Err(IndexError)
        else Ok(RankedHits(embeddings.value, documents.value, q, norm, limit))
  }

  /** The outcomes of `search`: the three guards in order, then an IndexError when
      there are more embeddings than documents, and otherwise the ranked hits. */
  lemma SearchOutcomeCases(embeddings: Option<seq<Vector>>, documents: Option<seq<Movie>>, query: string, limit: int,
                           encode: string -> Vector, norm: Vector -> real)
    ensures var r := SearchOutcome(embeddings, documents, query, limit, encode, norm);
            && (embeddings.None? || Size(embeddings.value) == 0 ==> r == Err(ValueError("No embeddings loaded")))
            && (embeddings.Some? && Size(embeddings.value) > 0 && (documents.None? || documents.value == []) ==>
                  r == Err(ValueError("No documents loaded")))
            && (embeddings.Some? && Size(embeddings.value) > 0 && documents.Some? && documents.value != [] ==>
                  if Strip(query) == [] then r == Err(ValueError("No input text provided"))
                  else if |documents.value| < |embeddings.value| then r == Err(IndexError)
                  else r == Ok(RankedHits(embeddings.value, documents.value, encode(query), norm, limit)))
  {
    GenerateEmbeddingRefusesBlank(query, encode);
  }

  /** Re-entering the same documents into a map that already holds them changes nothing. */
  lemma IdMapTwice(m: map<int, Movie>, docs: seq<Movie>)
    requires AllHaveIds(docs)
    ensures (m + IdMap(docs)) + IdMap(docs) == m + IdMap(docs)
  {
  }

  // ------------------------------------------------------------ chunk search

  /** A movie index with a score: one chunk's similarity, or a movie's best one. */
  datatype MovieScore = MovieScore(movieIdx: nat, score: real)

  function ScoreKey(s: MovieScore): real { s.score }

  /** The similarity of every chunk, tagged with the chunk's movie. */
  function ChunkScores(chunkEmbeddings: seq<Vector>, metadata: seq<ChunkMeta>, q: Vector, norm: Vector -> real): (r: seq<MovieScore>)
    requires |chunkEmbeddings| <= |metadata|
    ensures |r| == |chunkEmbeddings|
  {
    seq(|chunkEmbeddings|, i requires 0 <= i < |chunkEmbeddings| =>
      MovieScore(metadata[i].movieIdx, CosineSimilarity(q, chunkEmbeddings[i], norm)))
  }

  /** One step of the `movies_to_scores` loop, with the dict as a list of entries in
      insertion order: a new movie is appended; a known one takes the new score only
      when it is strictly higher. */
  function Upsert(ms: seq<MovieScore>, c: MovieScore): seq<MovieScore> {
    if ms == [] then [c]
    else if ms[0].movieIdx == c.movieIdx then (if ms[0].score < c.score then [c] + ms[1..] else ms)
    else [ms[0]] + Upsert(ms[1..], c)
  }

  /** `movies_to_scores` after the loop over the chunk scores. */
  function BestPerMovie(cs: seq<MovieScore>): seq<MovieScore> {
    if cs == [] then [] else Upsert(BestPerMovie(cs[..|cs| - 1]), cs[|cs| - 1])
  }

  function Movies(ms: seq<MovieScore>): set<nat> {
    set e | e in ms :: e.movieIdx
  }

  /** No movie has two entries. */
  predicate DistinctMovies(ms: seq<MovieScore>) {
    forall i, j :: 0 <= i < j < |ms| ==> ms[i].movieIdx != ms[j].movieIdx
  }

  /** e is the score of one of the chunks of its movie, and no chunk of that movie
      scores higher. */
  predicate IsBest(cs: seq<MovieScore>, e: MovieScore) {
    e in cs && forall c :: c in cs && c.movieIdx == e.movieIdx ==> c.score <= e.score
  }

  /** What one `movies_to_scores` update does: u keeps movies distinct, adds c's movie,
      leaves other movies' entries as they were, and gives c's movie the higher of its
      old score and c's (the old one on a tie). */
  predicate UpsertSpec(ms: seq<MovieScore>, c: MovieScore, u: seq<MovieScore>) {
    && DistinctMovies(u)
    && Movies(u) == Movies(ms) + {c.movieIdx}
    && (forall e :: e in u && e.movieIdx != c.movieIdx ==> e in ms)
    && (forall e :: e in u && e.movieIdx == c.movieIdx ==>
          (e == c && forall o :: o in ms && o.movieIdx == c.movieIdx ==> o.score < c.score)
          || (e in ms && e.score >= c.score))
  }

  /** The first entry's movie appears nowhere else. */
  lemma HeadMovieUnique(ms: seq<MovieScore>)
    requires ms != [] && DistinctMovies(ms)
    ensures DistinctMovies(ms[1..])
    ensures ms[0].movieIdx !in Movies(ms[1..])
    ensures ms == [ms[0]] + ms[1..]
  {
    var rest := ms[1..];
    forall i, j | 0 <= i < j < |rest| ensures rest[i].movieIdx != rest[j].movieIdx {
      assert rest[i] == ms[i + 1] && rest[j] == ms[j + 1];
    }
    forall o | o in rest ensures o.movieIdx != ms[0].movieIdx {
      var k :| 0 <= k < |rest| && rest[k] == o;
      assert ms[k + 1] == o;
    }
  }

  /** Putting an entry in front of entries for other movies keeps the movies distinct. */
  lemma ConsDistinct(h: MovieScore, t: seq<MovieScore>)
    requires DistinctMovies(t) && h.movieIdx !in Movies(t)
    ensures DistinctMovies([h] + t)
  {
    var u := [h] + t;
    forall i, j | 0 <= i < j < |u| ensures u[i].movieIdx != u[j].movieIdx {
      assert u[j] == t[j - 1];
      if i > 0 {
        assert u[i] == t[i - 1];
      }
    }
  }

  /** An update of the first entry's movie. */
  lemma UpsertAtHead(ms: seq<MovieScore>, c: MovieScore)
    requires ms != [] && DistinctMovies(ms) && ms[0].movieIdx == c.movieIdx
    ensures UpsertSpec(ms, c, Upsert(ms, c))
  {
    HeadMovieUnique(ms);
    if ms[0].score < c.score {
      var u := [c] + ms[1..];
      assert Upsert(ms, c) == u;
      forall i, j | 0 <= i < j < |u| ensures u[i].movieIdx != u[j].movieIdx {
        assert u[j] == ms[j];
        if i > 0 {
          assert u[i] == ms[i];
        }
      }
      assert Movies(u) == {c.movieIdx} + Movies(ms[1..]);
      assert Movies(ms) == {ms[0].movieIdx} + Movies(ms[1..]);
    }
  }

  lemma {:induction false} UpsertFacts(ms: seq<MovieScore>, c: MovieScore)
    requires DistinctMovies(ms)
    ensures UpsertSpec(ms, c, Upsert(ms, c))
    decreases |ms|
  {
    if ms == [] {
      assert Upsert(ms, c) == [c];
    } else if ms[0].movieIdx == c.movieIdx {
      UpsertAtHead(ms, c);
    } else {
      HeadMovieUnique(ms);
      UpsertFacts(ms[1..], c);
      UpsertPastHead(ms, c);
    }
  }

  /** An update of a movie other than the first entry's, given the update of the rest. */
  lemma UpsertPastHead(ms: seq<MovieScore>, c: MovieScore)
    requires ms != [] && DistinctMovies(ms) && ms[0].movieIdx != c.movieIdx
    requires UpsertSpec(ms[1..], c, Upsert(ms[1..], c))
    ensures UpsertSpec(ms, c, Upsert(ms, c))
  {
    HeadMovieUnique(ms);
    var rest := ms[1..];
    var ur := Upsert(rest, c);
    var u := [ms[0]] + ur;
    assert Upsert(ms, c) == u;
    ConsDistinct(ms[0], ur);
    assert Movies(u) == {ms[0].movieIdx} + Movies(ur);
    assert Movies(ms) == {ms[0].movieIdx} + Movies(rest);
    forall e | e in u ensures e == ms[0] || e in ur {
    }
    forall o | o in ms ensures o == ms[0] || o in rest {
    }
  }

  /** `movies_to_scores` has one entry per movie that has a chunk, and each entry holds
      the best score among that movie's chunks. */
  lemma {:induction false} BestPerMovieFacts(cs: seq<MovieScore>)
    ensures DistinctMovies(BestPerMovie(cs))
    ensures Movies(BestPerMovie(cs)) == Movies(cs)
    ensures forall e :: e in BestPerMovie(cs) ==> IsBest(cs, e)
  {
    if cs != [] {
      var init, c := cs[..|cs| - 1], cs[|cs| - 1];
      assert cs == init + [c];
      var b := BestPerMovie(init);
      BestPerMovieFacts(init);
      UpsertFacts(b, c);
      var b' := BestPerMovie(cs);
      assert b' == Upsert(b, c);
      assert Movies(cs) == Movies(init) + {c.movieIdx};
      forall e | e in b' ensures IsBest(cs, e) {
        if e.movieIdx != c.movieIdx {
          assert IsBest(init, e);
        } else if e == c {
          forall o | o in cs && o.movieIdx == e.movieIdx ensures o.score <= e.score {
            if o in init {
              assert o.movieIdx in Movies(b);
              var p :| p in b && p.movieIdx == o.movieIdx;
              assert IsBest(init, p);
            }
          }
        } else {
          assert e in b && e.score >= c.score;
          assert IsBest(init, e);
        }
      }
    }
  }

  function MovieOf(s: MovieScore): nat { s.movieIdx }

  /** Reordering keeps movies distinct. */
  lemma PermutationKeepsDistinctMovies(a: seq<MovieScore>, b: seq<MovieScore>)
    requires multiset(a) == multiset(b)
    requires DistinctMovies(a)
    ensures DistinctMovies(b)
  {
    assert DistinctBy(a, MovieOf);
    PermutationKeepsDistinctBy(a, b, MovieOf);
    assert forall i, j :: 0 <= i < j < |b| ==> MovieOf(b[i]) != MovieOf(b[j]);
  }

  /** The movies `search_chunks` reports, before formatting: best first, min(limit, m)
      of them for m movies with a chunk, each movie once and with its best chunk score,
      no movie left out whose best score is above a reported one, and equal scores in
      the order the movies first appear among the chunks. */
  lemma TopMoviesFacts(cs: seq<MovieScore>, limit: nat)
    ensures var top := Take(SortDesc(BestPerMovie(cs), ScoreKey), limit);
            && IsTopK(top, BestPerMovie(cs), ScoreKey, limit)
            && |top| == Min(limit, |Movies(cs)|)
            && DistinctMovies(top)
            && (forall i, j :: 0 <= i < j < |top| ==> top[i].score >= top[j].score)
            && (forall e :: e in top ==> IsBest(cs, e))
            && (forall e :: IsBest(cs, e) && e !in top ==> forall j :: 0 <= j < |top| ==> e.score <= top[j].score)
  {
    var best := BestPerMovie(cs);
    var top := Take(SortDesc(best, ScoreKey), limit);
    TopMoviesBest(cs, limit);
    BestPerMovieFacts(cs);
    DistinctMoviesCount(best);
    TopKSelects(best, ScoreKey, limit);
    TopMoviesDropped(cs, top, limit);
  }

  /** The first `limit` entries of the sorted `movies_to_scores`: best first, each movie
      once, each with its best chunk score. */
  lemma TopMoviesBest(cs: seq<MovieScore>, limit: nat)
    ensures var top := Take(SortDesc(BestPerMovie(cs), ScoreKey), limit);
            && DistinctMovies(top)
            && (forall i, j :: 0 <= i < j < |top| ==> top[i].score >= top[j].score)
            && (forall e :: e in top ==> IsBest(cs, e))
  {
    var best := BestPerMovie(cs);
    BestPerMovieFacts(cs);
    var sorted := SortDesc(best, ScoreKey);
    SortDescFacts(best, ScoreKey);
    PermutationKeepsDistinctMovies(best, sorted);
    var top := Take(sorted, limit);
    assert top == sorted[..|top|];
    forall i, j | 0 <= i < j < |top| ensures top[i].score >= top[j].score {
      assert ScoreKey(sorted[i]) >= ScoreKey(sorted[j]);
    }
    forall e | e in top ensures IsBest(cs, e) {
      assert e in multiset(sorted);
    }
  }

  /** A top selection of `movies_to_scores` leaves out no movie whose best score is above
      a reported one. */
  lemma TopMoviesDropped(cs: seq<MovieScore>, top: seq<MovieScore>, limit: nat)
    requires IsTopK(top, BestPerMovie(cs), ScoreKey, limit)
    ensures forall e :: IsBest(cs, e) && e !in top ==> forall j :: 0 <= j < |top| ==> e.score <= top[j].score
  {
    var best := BestPerMovie(cs);
    forall e | IsBest(cs, e) && e !in top ensures forall j :: 0 <= j < |top| ==> e.score <= top[j].score {
      BestIsListed(cs, e);
      var k :| 0 <= k < |best| && best[k] == e;
      assert multiset(top)[best[k]] == 0;
      assert forall j :: 0 <= j < |top| ==> ScoreKey(best[k]) <= ScoreKey(top[j]);
    }
  }

  /** Distinct movies: as many movies as entries. */
  lemma {:induction false} DistinctMoviesCount(ms: seq<MovieScore>)
    requires DistinctMovies(ms)
    ensures |Movies(ms)| == |ms|
  {
    if ms != [] {
      HeadMovieUnique(ms);
      DistinctMoviesCount(ms[1..]);
      assert Movies(ms) == {ms[0].movieIdx} + Movies(ms[1..]) by {
        forall o | o in ms ensures o == ms[0] || o in ms[1..] {
        }
      }
    }
  }

  /** The best chunk score of a movie is the entry `movies_to_scores` keeps for it. */
  lemma BestIsListed(cs: seq<MovieScore>, e: MovieScore)
    requires IsBest(cs, e)
    ensures e in BestPerMovie(cs)
  {
    BestPerMovieFacts(cs);
    assert e.movieIdx in Movies(cs);
    var p :| p in BestPerMovie(cs) && p.movieIdx == e.movieIdx;
    assert IsBest(cs, p);
    assert p == e;
  }

  /** The message `itertools.islice` raises for a negative stop. */
  const IsliceError := "Stop argument for islice() must be None or an integer: 0 <= x <= sys.maxsize."

  /** `format_search_result(str(k), documents[k]["title"], documents[k]["description"][:100], v)`,
      with the errors of the lookups. */
  function FormatChunkResult(documents: Option<seq<Movie>>, e: MovieScore): Result<SearchResult> {
    if documents.None? then Err(TypeError)
    else if e.movieIdx >= |documents.value| then Err(IndexError)
    else
      var d := documents.value[e.movieIdx];
      if d.title.None? || d.description.None? then Err(KeyError)
      else Ok(SearchResult(NatToString(e.movieIdx), d.title.value, Take(d.description.value, 100), e.score, map[]))
  }

  /** The result loop of `search_chunks`: the first lookup that fails ends it. */
  function FormatChunkResults(documents: Option<seq<Movie>>, top: seq<MovieScore>): Result<seq<SearchResult>> {
    if top == [] then Ok([])
    else
      match FormatChunkResults(documents, top[..|top| - 1])
      case Err(err) => Err(err)
      case Ok(rs) =>
        match FormatChunkResult(documents, top[|top| - 1])
        case Err(err) => Err(err)
        case Ok(x) => Ok(rs + [x])
  }

  /** When formatting succeeds, result j reports movie `top[j]`: its index as id, its
      title, at most the first 100 characters of its description, and its score. */
  lemma {:induction false} FormatChunkResultsFacts(documents: Option<seq<Movie>>, top: seq<MovieScore>)
    ensures FormatChunkResults(documents, top).Ok? ==>
              var rs := FormatChunkResults(documents, top).value;
              && |rs| == |top|
              && (top != [] ==> documents.Some?)
              && forall j :: 0 <= j < |rs| ==>
                   && documents.Some?
                   && top[j].movieIdx < |documents.value|
                   && rs[j].id == NatToString(top[j].movieIdx)
                   && rs[j].score == top[j].score
                   && documents.value[top[j].movieIdx].title == Some(rs[j].title)
                   && documents.value[top[j].movieIdx].description.Some?
                   && rs[j].document <= documents.value[top[j].movieIdx].description.value
                   && |rs[j].document| <= 100
  {
    if top != [] {
      var init := top[..|top| - 1];
      FormatChunkResultsFacts(documents, init);
      if FormatChunkResults(documents, top).Ok? {
        var rs := FormatChunkResults(documents, top).value;
        var prev := FormatChunkResults(documents, init).value;
        assert rs == prev + [FormatChunkResult(documents, top[|top| - 1]).value];
        forall j | 0 <= j < |rs| ensures top[j].movieIdx < |documents.value| && rs[j].id == NatToString(top[j].movieIdx) {
          if j < |prev| {
            assert rs[j] == prev[j] && top[j] == init[j];
          }
        }
      }
    }
  }

  /** The first lookup that fails decides the error `search_chunks` raises. */
  lemma {:induction false} FormatChunkResultsFirstError(documents: Option<seq<Movie>>, top: seq<MovieScore>, j: nat, err: Error)
    requires j < |top|
    requires FormatChunkResults(documents, top[..j]).Ok?
    requires FormatChunkResult(documents, top[j]) == Err(err)
    ensures FormatChunkResults(documents, top) == Err(err)
    decreases |top|
  {
    if j + 1 < |top| {
      var init := top[..|top| - 1];
      assert init[..j] == top[..j] && init[j] == top[j];
      FormatChunkResultsFirstError(documents, init, j, err);
    } else {
      assert top[..|top| - 1] == top[..j];
    }
  }

  /** What `search_chunks` returns or raises. */
  function SearchChunksOutcome(chunkEmbeddings: Option<seq<Vector>>, metadata: Option<seq<ChunkMeta>>, documents: Option<seq<Movie>>,
                               query: string, limit: int, encode: string -> Vector, norm: Vector -> real): Result<seq<SearchResult>>
  {
    match GenerateEmbedding(query, encode)
    case Err(e) => Err(e)
    case Ok(q) =>
      if chunkEmbeddings.None? || metadata.None? then Ok([])
      else if |metadata.value| < |chunkEmbeddings.value| then Err(IndexError)
      else if limit < 0 then Err(ValueError(IsliceError))
      else
        var sorted := SortDesc(BestPerMovie(ChunkScores(chunkEmbeddings.value, metadata.value, q, norm)), ScoreKey);
        FormatChunkResults(documents, Take(sorted, limit))
  }

  /** `search_chunks` refuses a blank query before it looks at the chunk cache, and
      returns no results when either chunk artifact is missing. */
  lemma SearchChunksGuards(chunkEmbeddings: Option<seq<Vector>>, metadata: Option<seq<ChunkMeta>>, documents: Option<seq<Movie>>,
                           query: string, limit: int, encode: string -> Vector, norm: Vector -> real)
    ensures Strip(query) == [] ==>
              SearchChunksOutcome(chunkEmbeddings, metadata, documents, query, limit, encode, norm) == Err(ValueError("No input text provided"))
    ensures Strip(query) != [] && (chunkEmbeddings.None? || metadata.None?) ==>
              SearchChunksOutcome(chunkEmbeddings, metadata, documents, query, limit, encode, norm) == Ok([])
  {
    GenerateEmbeddingRefusesBlank(query, encode);
  }

  /** `rs` reports the top `limit` movies of the chunk scores `cs`: min(limit, m) results
      for m movies with a chunk, best first, one per movie, each carrying the best score
      among its movie's chunks; no movie left out has a best score above a reported one,
      and equal scores keep the order in which `movies_to_scores` holds the movies. */
  ghost predicate BestFirstPerMovie(rs: seq<SearchResult>, cs: seq<MovieScore>, limit: int) {
    && |rs| == Min(limit, |Movies(cs)|)
    && (forall i, j :: 0 <= i < j < |rs| ==> rs[i].score >= rs[j].score)
    && (forall i, j :: 0 <= i < j < |rs| ==> rs[i].id != rs[j].id)
    && (forall j :: 0 <= j < |rs| ==> NamesBest(rs[j], cs))
    && (forall e :: IsBest(cs, e) && Unreported(rs, e) ==> forall j :: 0 <= j < |rs| ==> e.score <= rs[j].score)
    && (forall i, j :: 0 <= i < j < |rs| && rs[i].score == rs[j].score ==> ListedInOrder(rs[i], rs[j], BestPerMovie(cs)))
  }

  /** `r` names a movie and carries the best score among that movie's chunks. */
  ghost predicate NamesBest(r: SearchResult, cs: seq<MovieScore>) {
    exists e :: IsBest(cs, e) && r.id == NatToString(e.movieIdx) && r.score == e.score
  }

  /** No result of `rs` names e's movie. */
  ghost predicate Unreported(rs: seq<SearchResult>, e: MovieScore) {
    forall j :: 0 <= j < |rs| ==> rs[j].id != NatToString(e.movieIdx)
  }

  /** `a` and `b` name movies that `best` lists in that order. */
  ghost predicate ListedInOrder(a: SearchResult, b: SearchResult, best: seq<MovieScore>) {
    exists i', j' :: 0 <= i' < j' < |best| && a.id == NatToString(best[i'].movieIdx) && b.id == NatToString(best[j'].movieIdx)
  }

  /** `rs` reports the entries of `top` in order: each movie's index as id, and its score. */
  ghost predicate Reports(rs: seq<SearchResult>, top: seq<MovieScore>) {
    && |rs| == |top|
    && forall j :: 0 <= j < |rs| ==> rs[j].id == NatToString(top[j].movieIdx) && rs[j].score == top[j].score
  }

  /** The results of `search_chunks` report the top `limit` movies by best chunk score:
      how many, their order, one per movie, none better left out, and stable ties. */
  lemma SearchChunksResults(chunkEmbeddings: seq<Vector>, metadata: seq<ChunkMeta>, documents: Option<seq<Movie>>,
                            query: string, limit: int, encode: string -> Vector, norm: Vector -> real)
    requires SearchChunksOutcome(Some(chunkEmbeddings), Some(metadata), documents, query, limit, encode, norm).Ok?
    requires Strip(query) != []
    ensures BestFirstPerMovie(SearchChunksOutcome(Some(chunkEmbeddings), Some(metadata), documents, query, limit, encode, norm).value,
                              ChunkScores(chunkEmbeddings, metadata, encode(query), norm), limit)
  {
    GenerateEmbeddingRefusesBlank(query, encode);
    assert GenerateEmbedding(query, encode) == Ok(encode(query));
    var cs := ChunkScores(chunkEmbeddings, metadata, encode(query), norm);
    assert 0 <= limit && |metadata| >= |chunkEmbeddings|;
    BestResultsFacts(cs, documents, limit);
  }

  /** The formatted first `limit` best-per-movie scores report the top `limit` movies. */
  lemma BestResultsFacts(cs: seq<MovieScore>, documents: Option<seq<Movie>>, limit: nat)
    requires FormatChunkResults(documents, Take(SortDesc(BestPerMovie(cs), ScoreKey), limit)).Ok?
    ensures BestFirstPerMovie(FormatChunkResults(documents, Take(SortDesc(BestPerMovie(cs), ScoreKey), limit)).value, cs, limit)
  {
    var top := Take(SortDesc(BestPerMovie(cs), ScoreKey), limit);
    TopMoviesFacts(cs, limit);
    FormatChunkResultsFacts(documents, top);
    var rs := FormatChunkResults(documents, top).value;
    assert Reports(rs, top);
    ReportsBestFirst(rs, top, cs, limit);
  }

  /** Distinct movies get distinct ids. */
  lemma ReportedDistinct(rs: seq<SearchResult>, top: seq<MovieScore>)
    requires Reports(rs, top) && DistinctMovies(top)
    ensures forall i, j :: 0 <= i < j < |rs| ==> rs[i].id != rs[j].id
  {
    forall i, j | 0 <= i < j < |rs| ensures rs[i].id != rs[j].id {
      assert rs[i].id == NatToString(top[i].movieIdx) && rs[j].id == NatToString(top[j].movieIdx);
      assert top[i].movieIdx != top[j].movieIdx;
      if rs[i].id == rs[j].id {
        NatToStringInjective(top[i].movieIdx, top[j].movieIdx);
      }
    }
  }

  /** Each reported result carries the best score of the movie it names. */
  lemma ReportedBest(rs: seq<SearchResult>, top: seq<MovieScore>, cs: seq<MovieScore>)
    requires Reports(rs, top) && forall e :: e in top ==> IsBest(cs, e)
    ensures forall j :: 0 <= j < |rs| ==> NamesBest(rs[j], cs)
  {
    forall j | 0 <= j < |rs| ensures NamesBest(rs[j], cs) {
      assert top[j] in top;
      assert IsBest(cs, top[j]) && rs[j].id == NatToString(top[j].movieIdx) && rs[j].score == top[j].score;
    }
  }

  /** Reporting a top selection of distinct best-per-movie entries gives the top `limit`
      movies: the count, the order, one result per movie carrying its best score, nothing
      better left out, and stable ties. */
  lemma ReportsBestFirst(rs: seq<SearchResult>, top: seq<MovieScore>, cs: seq<MovieScore>, limit: nat)
    requires Reports(rs, top) && IsTopK(top, BestPerMovie(cs), ScoreKey, limit)
    requires |top| == Min(limit, |Movies(cs)|) && DistinctMovies(top)
    requires forall e :: e in top ==> IsBest(cs, e)
    requires forall e :: IsBest(cs, e) && e !in top ==> forall j :: 0 <= j < |top| ==> e.score <= top[j].score
    ensures BestFirstPerMovie(rs, cs, limit)
  {
    ReportedOrder(rs, top);
    ReportedDistinct(rs, top);
    ReportedBest(rs, top, cs);
    ReportedDropped(rs, top, cs);
    ReportedTies(rs, top, BestPerMovie(cs));
  }

  /** The reported scores are those of `top`, so they are ordered as `top` is. */
  lemma ReportedOrder(rs: seq<SearchResult>, top: seq<MovieScore>)
    requires Reports(rs, top) && SortedDesc(top, ScoreKey)
    ensures forall i, j :: 0 <= i < j < |rs| ==> rs[i].score >= rs[j].score
  {
    forall i, j | 0 <= i < j < |rs| ensures rs[i].score >= rs[j].score {
      assert rs[i].score == top[i].score && rs[j].score == top[j].score;
      assert ScoreKey(top[i]) >= ScoreKey(top[j]);
    }
  }

  /** A movie whose id is not reported is not in `top`, so its best score is below every
      reported one. */
  lemma ReportedDropped(rs: seq<SearchResult>, top: seq<MovieScore>, cs: seq<MovieScore>)
    requires Reports(rs, top)
    requires forall e :: IsBest(cs, e) && e !in top ==> forall j :: 0 <= j < |top| ==> e.score <= top[j].score
    ensures forall e :: IsBest(cs, e) && Unreported(rs, e) ==> forall j :: 0 <= j < |rs| ==> e.score <= rs[j].score
  {
    forall e | IsBest(cs, e) && Unreported(rs, e)
      ensures forall j :: 0 <= j < |rs| ==> e.score <= rs[j].score
    {
      assert e !in top by {
        forall k | 0 <= k < |top| ensures top[k] != e {
          assert rs[k].id != NatToString(e.movieIdx);
        }
      }
      forall j | 0 <= j < |rs| ensures e.score <= rs[j].score {
        assert rs[j].score == top[j].score;
      }
    }
  }

  /** Equal reported scores come from entries of `best` in the same order. */
  lemma ReportedTies(rs: seq<SearchResult>, top: seq<MovieScore>, best: seq<MovieScore>)
    requires Reports(rs, top) && TiesKeepOrder(top, best, ScoreKey)
    ensures forall i, j :: 0 <= i < j < |rs| && rs[i].score == rs[j].score ==> ListedInOrder(rs[i], rs[j], best)
  {
    forall i, j | 0 <= i < j < |rs| && rs[i].score == rs[j].score
      ensures ListedInOrder(rs[i], rs[j], best)
    {
      assert rs[i].score == top[i].score && rs[j].score == top[j].score;
      assert ScoreKey(top[i]) == ScoreKey(top[j]);
      var i', j' :| 0 <= i' < j' < |best| && best[i'] == top[i] && best[j'] == top[j];
      assert rs[i].id == NatToString(best[i'].movieIdx) && rs[j].id == NatToString(best[j'].movieIdx);
    }
  }

  /** Movie i's turn in the `build_chunk_embeddings` loop appends its chunks ... */
  lemma AllChunksStep(docs: seq<Movie>, i: nat, maxChunkSize: nat, overlap: nat)
    requires overlap < maxChunkSize && i < |docs|
    ensures AllChunks(docs[..i + 1], maxChunkSize, overlap) == AllChunks(docs[..i], maxChunkSize, overlap) + MovieChunks(docs[i], maxChunkSize, overlap)
  {
    assert docs[..i + 1][..i] == docs[..i];
  }

  /** ... and one metadata entry per chunk. */
  lemma ChunkMetadataStep(docs: seq<Movie>, i: nat, maxChunkSize: nat, overlap: nat)
    requires overlap < maxChunkSize && i < |docs|
    ensures ChunkMetadata(docs[..i + 1], maxChunkSize, overlap)
            == ChunkMetadata(docs[..i], maxChunkSize, overlap) + MetaOf(i, |MovieChunks(docs[i], maxChunkSize, overlap)|)
  {
    assert docs[..i + 1][..i] == docs[..i];
  }

  /** `ChunkedSemanticSearch`: the chunk embeddings and their metadata on top of the
      fields it inherits from `SemanticSearch`, which live in `base`. */
  class ChunkedSemanticSearch {
    const base: SemanticSearch
    var chunkEmbeddings: Option<seq<Vector>>
    var chunkMetadata: Option<seq<ChunkMeta>>

    constructor (cache: EmbeddingCache)
      ensures fresh(base) && base.cache == cache
      ensures base.embeddings == None && base.documents == None && base.documentMap == map[]
      ensures chunkEmbeddings == None && chunkMetadata == None
    {
      base := new SemanticSearch(cache);
      chunkEmbeddings := None;
      chunkMetadata := None;
    }

    /** `build_chunk_embeddings`: chunks every non-blank description, records one
        metadata entry per chunk, encodes the chunks and writes both cache files. */
    method BuildChunkEmbeddings(docs: seq<Movie>, maxChunkSize: int, overlap: int, encode: string -> Vector) returns (r: seq<Vector>)
      requires AllHaveIds(docs)
      requires 0 <= overlap < maxChunkSize
      modifies this, base, base.cache
      ensures base.documents == Some(docs) && base.documentMap == IdMap(docs)
      ensures base.embeddings == old(base.embeddings)
      ensures r == EncodeAll(AllChunks(docs, maxChunkSize, overlap), encode)
      ensures chunkEmbeddings == Some(r)
      ensures chunkMetadata == Some(ChunkMetadata(docs, maxChunkSize, overlap))
      ensures base.cache.chunkEmbeddings == Some(r) && base.cache.chunkMetadata == chunkMetadata
      ensures base.cache.movieEmbeddings == old(base.cache.movieEmbeddings)
    {
      var cache := base.cache;
      base.documents := Some(docs);
      base.documentMap := map[];
      base.MapDocuments(docs);
      EmptyUnion(IdMap(docs));
      var allChunks, metadata := CollectChunks(docs, maxChunkSize, overlap);
      r := EncodeAll(allChunks, encode);
      chunkEmbeddings := Some(r);
      chunkMetadata := Some(metadata);
      cache.chunkEmbeddings := Some(r);
      cache.chunkMetadata := Some(metadata);
    }

    /** The chunking loop of `build_chunk_embeddings`: every non-blank description is
        chunked, and each chunk gets its metadata entry. */
    static method CollectChunks(docs: seq<Movie>, maxChunkSize: int, overlap: int)
      returns (allChunks: seq<string>, metadata: seq<ChunkMeta>)
      requires 0 <= overlap < maxChunkSize
      ensures allChunks == AllChunks(docs, maxChunkSize, overlap)
      ensures metadata == ChunkMetadata(docs, maxChunkSize, overlap)
    {
      allChunks := [];
      metadata := [];
      for i := 0 to |docs|
        invariant allChunks == AllChunks(docs[..i], maxChunkSize, overlap)
        invariant metadata == ChunkMetadata(docs[..i], maxChunkSize, overlap)
      {
        var text := DescriptionOf(docs[i]);
        if Strip(text) == [] {
          AllChunksStep(docs, i, maxChunkSize, overlap);
          ChunkMetadataStep(docs, i, maxChunkSize, overlap);
          assert allChunks + [] == allChunks && metadata + [] == metadata;
          continue;
        }
        var chunks := SemanticChunking(text, maxChunkSize, overlap);
        AllChunksStep(docs, i, maxChunkSize, overlap);
        ChunkMetadataStep(docs, i, maxChunkSize, overlap);
        allChunks, metadata := AppendMovieChunks(allChunks, metadata, i, chunks);
      }
      assert docs[..|docs|] == docs;
    }

    /** The inner loop of `build_chunk_embeddings`: appends movie i's chunks, each
        with its metadata entry (movie index, chunk index, chunk count). */
    static method AppendMovieChunks(allChunks: seq<string>, metadata: seq<ChunkMeta>, i: nat, chunks: seq<string>)
      returns (allChunks': seq<string>, metadata': seq<ChunkMeta>)
      ensures allChunks' == allChunks + chunks
      ensures metadata' == metadata + MetaOf(i, |chunks|)
    {
      allChunks', metadata' := allChunks, metadata;
      for j := 0 to |chunks|
        invariant allChunks' == allChunks + chunks[..j]
        invariant metadata' == metadata + MetaOf(i, |chunks|)[..j]
      {
        assert chunks[..j + 1] == chunks[..j] + [chunks[j]];
        assert MetaOf(i, |chunks|)[..j + 1] == MetaOf(i, |chunks|)[..j] + [ChunkMeta(i, j, |chunks|)];
        allChunks' := allChunks' + [chunks[j]];
        metadata' := metadata' + [ChunkMeta(i, j, |chunks|)];
      }
      assert chunks[..|chunks|] == chunks;
      assert MetaOf(i, |chunks|)[..|chunks|] == MetaOf(i, |chunks|);
    }

    /** `load_or_create_chunk_embeddings`: reuses both cache files whenever both exist,
        whatever their length; otherwise builds them. */
    method LoadOrCreateChunkEmbeddings(docs: seq<Movie>, maxChunkSize: int, overlap: int, encode: string -> Vector) returns (r: seq<Vector>)
      requires AllHaveIds(docs)
      requires 0 <= overlap < maxChunkSize
      modifies this, base, base.cache
      ensures base.documents == Some(docs) && base.documentMap == IdMap(docs)
      ensures base.embeddings == old(base.embeddings)
      ensures base.cache.movieEmbeddings == old(base.cache.movieEmbeddings)
      ensures if old(base.cache.chunkEmbeddings).Some? && old(base.cache.chunkMetadata).Some? then
                && r == old(base.cache.chunkEmbeddings).value
                && chunkEmbeddings == old(base.cache.chunkEmbeddings)
                && chunkMetadata == old(base.cache.chunkMetadata)
                && unchanged(base.cache)
              else
                && r == EncodeAll(AllChunks(docs, maxChunkSize, overlap), encode)
                && chunkEmbeddings == Some(r)
                && chunkMetadata == Some(ChunkMetadata(docs, maxChunkSize, overlap))
                && base.cache.chunkEmbeddings == Some(r) && base.cache.chunkMetadata == chunkMetadata
    {
      var cache := base.cache;
      base.documents := Some(docs);
      base.documentMap := map[];
      base.MapDocuments(docs);
      EmptyUnion(IdMap(docs));
      if cache.chunkEmbeddings.Some? && cache.chunkMetadata.Some? {
        chunkEmbeddings := cache.chunkEmbeddings;
        chunkMetadata := cache.chunkMetadata;
        return chunkEmbeddings.value;
      }
      r := BuildChunkEmbeddings(docs, maxChunkSize, overlap, encode);
    }

    /** `search_chunks`. */
    method SearchChunks(query: string, limit: int, encode: string -> Vector, norm: Vector -> real) returns (r: Result<seq<SearchResult>>)
      ensures r == SearchChunksOutcome(chunkEmbeddings, chunkMetadata, base.documents, query, limit, encode, norm)
    {
      var queryEmbedding := GenerateEmbedding(query, encode);
      if queryEmbedding.Err? {
        return Err(queryEmbedding.error);
      }
      var q := queryEmbedding.value;
      if chunkEmbeddings.None? {
        return Ok([]);
      }
      if chunkMetadata.None? {
        return Ok([]);
      }
      var ce, meta := chunkEmbeddings.value, chunkMetadata.value;
      var chunkScore := [];
      for i := 0 to |ce|
        invariant i <= |meta|
        invariant chunkScore == ChunkScores(ce[..i], meta, q, norm)
      {
        if i >= |meta| {
          return Err(IndexError);
        }
        chunkScore := chunkScore + [MovieScore(meta[i].movieIdx, CosineSimilarity(q, ce[i], norm))];
      }
      assert ce[..|ce|] == ce;
      var moviesToScores := BestScores(chunkScore);
      var sorted := SortDesc(moviesToScores, ScoreKey);
      if limit < 0 {
        return Err(ValueError(IsliceError));
      }
      var topMovies := Take(sorted, limit);
      r := FormatTopMovies(base.documents, topMovies);
    }

    /** The `movies_to_scores` loop of `search_chunks`: each chunk score replaces its
        movie's entry when the movie has none yet or a lower one. */
    static method BestScores(chunkScore: seq<MovieScore>) returns (moviesToScores: seq<MovieScore>)
      ensures moviesToScores == BestPerMovie(chunkScore)
    {
      moviesToScores := [];
      for i := 0 to |chunkScore|
        invariant moviesToScores == BestPerMovie(chunkScore[..i])
      {
        assert chunkScore[..i + 1][..i] == chunkScore[..i];
        moviesToScores := Upsert(moviesToScores, chunkScore[i]);
      }
      assert chunkScore[..|chunkScore|] == chunkScore;
    }

    /** The result loop of `search_chunks`: formats the top movies in order, stopping at
        the first one `format_search_result` cannot build. */
    static method FormatTopMovies(documents: Option<seq<Movie>>, topMovies: seq<MovieScore>) returns (r: Result<seq<SearchResult>>)
      ensures r == FormatChunkResults(documents, topMovies)
    {
      var results := [];
      for j := 0 to |topMovies|
        invariant FormatChunkResults(documents, topMovies[..j]) == Ok(results)
      {
        assert topMovies[..j + 1][..j] == topMovies[..j];
        var result := FormatChunkResult(documents, topMovies[j]);
        if result.Err? {
          FormatChunkResultsFirstError(documents, topMovies, j, result.error);
          return Err(result.error);
        }
        results := results + [result.value];
      }
      assert topMovies[..|topMovies|] == topMovies;
      return Ok(results);
    }
  }
}
