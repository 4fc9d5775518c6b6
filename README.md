# hoopla movie search: a verified model of the retrieval core

This project is a Dafny model of the deterministic retrieval logic of the hoopla
movie-search command-line tool. The model covers:

- the text normaliser and tokenizer;
- the inverted keyword index;
- title keyword search;
- the two text chunkers and the chunk bookkeeping of the semantic search;
- min-max normalisation, weighted score fusion and reciprocal-rank fusion (RRF);
- the post-processing of the three rerankers;
- precision at k.

Everything that is not deterministic list, map, set or string logic is a parameter
of the model:

- the Porter stemmer and the stopword file, bundled as a `Normalizer`;
- the sentence encoder (`encode`) and the vector norm (`norm`);
- the natural logarithm (`ln`);
- the keyword (BM25) search (`bm25Search`);
- the cross-encoder scores, the LLM ranking and the LLM ratings;
- the cached embedding files, as an `EmbeddingCache` object whose fields are `Option`s;
- the pickled index files, as an `IndexStore` with one `Option` per artifact.

Modules follow the source files:

| module | source |
|---|---|
| `SearchUtils` | `cli/lib/search_utils.py` |
| `InvertedIndex` | `cli/lib/inverted_index.py` |
| `KeywordSearch` | `cli/lib/keyword_search.py` |
| `Chunking` | the two chunkers of `cli/lib/semantic_search.py` |
| `SemanticSearch` | the classes of `cli/lib/semantic_search.py` |
| `HybridSearch` | `cli/lib/hybrid_search.py` |
| `Reranking` | `cli/lib/reranking.py` |
| `Evaluation` | `cli/lib/evaluation.py` |

Four helper modules support them:

- `Wrappers`: `Option`, `Result`, and the Python exceptions the core raises.
- `PyLists`: Python slicing, including negative bounds.
- `StableSort`: Python's stable `sorted(..., reverse=True)`, as a stable insertion sort, with its sortedness, permutation and stability proved.
- `Records`: movies and search results.

How the source's forms become Dafny:

- **Mutable state.** The classes that mutate fields are Dafny classes with `modifies` clauses:
  - `InvertedIndex`;
  - `SemanticSearch` and `ChunkedSemanticSearch`, where inheritance becomes a `base` field;
  - `HybridSearch`.
- **Loops.** Each loop becomes a method with invariants, proved equal to a specification function. The properties are stated as lemmas about that function.
- **Lists of dicts changed in place.** `normalize_search_results` and `rerank_cross_encoder` work on arrays.

A search result dict is the record `SearchResult(id, title, document, score, meta)`:

- `meta` holds the extra numeric fields;
- a missing key reads as 0;
- adding a key is `{**d, key: v}`.

A movie dict is `Movie(id, title, description)`, each field an `Option`, so that `.get` defaults can be modelled.

## Model

| member | source | states |
|---|---|---|
| `SearchUtils.PreprocessText` | cli/lib/search_utils.py:27-30 | the result holds no ASCII punctuation and no upper-case ASCII letter, and is no longer than the input |
| `SearchUtils.LowercaseFacts` | cli/lib/search_utils.py:28 | lowering keeps the length and maps each character on its own |
| `SearchUtils.DeletePunctuationFacts` | cli/lib/search_utils.py:29 | deleting punctuation keeps only characters of the input, none of them punctuation |
| `SearchUtils.PreprocessTextPerCharacter` | cli/lib/search_utils.py:27-30 | preprocessing distributes over concatenation; a punctuation character disappears, any other is lowered |
| `SearchUtils.PreprocessTextIdempotent` | cli/lib/search_utils.py:27-30 | preprocessing twice equals preprocessing once |
| `SearchUtils.Split` | cli/lib/search_utils.py:34 | `str.split()` yields only non-empty words without whitespace |
| `SearchUtils.SplitJoin` | cli/lib/search_utils.py:34 | splitting words joined by single spaces gives the words back |
| `SearchUtils.SplitAllSpace` | cli/lib/search_utils.py:34 | whitespace-only text splits into no words |
| `SearchUtils.StripEmpty` | cli/lib/semantic_search.py:241-243 | `strip()` is empty exactly when the text is all whitespace |
| `SearchUtils.Tokenize` | cli/lib/search_utils.py:32-49 | the three append loops produce the stems of the non-stopword words of the preprocessed text, in order |
| `SearchUtils.TokensFacts` | cli/lib/search_utils.py:33-49 | no empty candidate survives; a word is kept iff it is a word of the text and not a stopword; token k is the stem of kept word k; there are no more tokens than words |
| `SearchUtils.BlankTextHasNoTokens` | cli/lib/search_utils.py:27-38 | text of only whitespace and punctuation has no tokens |
| `SearchUtils.StemCanBeStopword` | cli/lib/search_utils.py:39-49 | filtering happens before stemming, so a stem can equal a stopword |
| `SearchUtils.RemoveStopwords` | cli/lib/search_utils.py:52-58 | the output is the input words that are not stopwords, in order, and a word is in the output iff it is in the input and not a stopword |
| `SearchUtils.WithoutStopwordsMembership` | cli/lib/search_utils.py:52-58 | a word survives filtering iff it is in the input and not a stopword |
| `SearchUtils.WithoutStopwordsCounts` | cli/lib/search_utils.py:52-58 | a kept word keeps its number of occurrences; a stopword has none |
| `SearchUtils.WithoutStopwordsAppend` | cli/lib/search_utils.py:41-43 | filtering distributes over concatenation, so the input order is kept |
| `SearchUtils.WithoutStopwordsLength` | cli/lib/search_utils.py:41-43 | filtering never lengthens the list |
| `InvertedIndex.InvertedIndex.constructor` | cli/lib/inverted_index.py:12-20 | a new index has no postings, counters or docmap entries |
| `InvertedIndex.InvertedIndex.AddDocument` | cli/lib/inverted_index.py:22-26 | the new index state is the old one with the document added to the postings of each distinct token and the token counts added to its counter |
| `InvertedIndex.AddDocumentEffect` | cli/lib/inverted_index.py:22-26 | after adding, the document is in the posting of exactly the tokens of the text, other postings are unchanged, its count of each token grows by the token's occurrences, other documents' counts and the docmap are unchanged |
| `InvertedIndex.AddCountsCounts` | cli/lib/inverted_index.py:26 | `Counter.update` adds the occurrence count of each token |
| `InvertedIndex.AddDocumentTwice` | cli/lib/inverted_index.py:22-26 | re-adding a document leaves the postings equal but counts its tokens twice |
| `InvertedIndex.InvertedIndex.GetDocuments` | cli/lib/inverted_index.py:28-30 | the result is strictly ascending, holds exactly the posting set of the term, and is empty for an unknown term |
| `InvertedIndex.SortedIdsFacts` | cli/lib/inverted_index.py:30 | sorting a set gives a strictly ascending list of exactly its elements |
| `InvertedIndex.InvertedIndex.GetTf` | cli/lib/inverted_index.py:32-38 | ValueError with nothing changed unless the term is exactly one token; otherwise the stored count (0 when unseen), and the lookup inserts an empty counter for an unseen document |
| `InvertedIndex.InvertedIndex.GetIdf` | cli/lib/inverted_index.py:40-55 | the same single-token check; otherwise ln((N+1)/(df+1)); the lookups insert an empty posting for the token and an empty counter for document 424 |
| `InvertedIndex.IdfNotNegative` | cli/lib/inverted_index.py:48-54 | when df <= N the ratio is at least 1, so the idf is not negative for a logarithm that is non-negative from 1 on |
| `InvertedIndex.InvertedIndex.GetTfidf` | cli/lib/inverted_index.py:57-62 | tf times idf, with both lookups' side effects, in order; the single-token error otherwise |
| `InvertedIndex.InvertedIndex.Build` | cli/lib/inverted_index.py:64-70 | the new state adds every movie in catalog order under its id (0 when missing), indexing title then description with no separator |
| `InvertedIndex.BuildPostings` | cli/lib/inverted_index.py:64-70 | after building from empty, a document is in a token's posting iff some movie with that id has that token |
| `InvertedIndex.BuildCounts` | cli/lib/inverted_index.py:64-70 | a document's count of a token is the sum of the token's occurrences over all movies with that id |
| `InvertedIndex.BuildDocmap` | cli/lib/inverted_index.py:67-70 | the docmap holds, for each id, the last movie carrying it |
| `InvertedIndex.InvertedIndex.Save` | cli/lib/inverted_index.py:72-82 | all three artifacts are written as they stand |
| `InvertedIndex.InvertedIndex.Load` | cli/lib/inverted_index.py:84-101 | each artifact that can be read replaces its field; a field whose artifact is missing is left unchanged |
| `InvertedIndex.LoadAfterSave` | cli/lib/inverted_index.py:72-101 | loading what was saved restores the saved state, whatever the state before |
| `KeywordSearch.Contains` | cli/lib/keyword_search.py:31 | the substring loop finds the query token iff it occurs inside the title token |
| `KeywordSearch.HasMatchingToken` | cli/lib/keyword_search.py:28-33 | true iff some query token is a substring of some title token, so false when either list is empty |
| `KeywordSearch.SearchCommand` | cli/lib/keyword_search.py:13-25 | the results are the first max(limit, 1) matching movies in catalog order; each is from the catalog and matches on its title |
| `KeywordSearch.StopAtCap` | cli/lib/keyword_search.py:22-24 | stopping once the cap is reached gives the same list as matching the whole catalog and truncating |
| `KeywordSearch.MatchingFacts` | cli/lib/keyword_search.py:17-22 | every match is a catalog movie whose title matches, and every matching catalog movie is a match |
| `KeywordSearch.MatchingAppend` | cli/lib/keyword_search.py:17-22 | matching distributes over concatenation, so catalog order is kept |
| `KeywordSearch.MatchingPrefix` | cli/lib/keyword_search.py:17-24 | the matches of a catalog prefix are a prefix of all matches |
| `KeywordSearch.DescriptionsIgnored` | cli/lib/keyword_search.py:18-21 | catalogs with the same ids and titles give the same matches whatever their descriptions |
| `Chunking.FixedSizeChunking` | cli/lib/semantic_search.py:277-294 | the loop yields ceil(#words / chunk_size) chunks; chunk j is the words from j*chunk_size - overlap (from j*chunk_size when that is below overlap) to j*chunk_size + chunk_size, joined by single spaces |
| `Chunking.FixedChunksOfBlank` | cli/lib/semantic_search.py:282-286 | whitespace-only text gives no chunks |
| `Chunking.ChunkWordsNoOverlap` | cli/lib/semantic_search.py:285-292 | without overlap, chunk j holds exactly the words of the j-th window of chunk_size words |
| `Chunking.FixedChunksRoundTrip` | cli/lib/semantic_search.py:282-294 | without overlap, the words of all chunks, concatenated, are the words of the text |
| `Chunking.FixedChunksCover` | cli/lib/semantic_search.py:285-292 | for overlap >= 0, every word of the text is in the window of one of the returned chunks, at its own position in that window |
| `Chunking.NegativeOverlapSkipsWords` | cli/lib/semantic_search.py:287-290 | with chunk size 2 and overlap -1, `a b c d` gives the chunks "b" and "d", so word `a` is in no chunk |
| `Chunking.SemanticChunking` | cli/lib/semantic_search.py:235-262 | the loop yields the sentence windows starting at 0, max - overlap, ... while below n - overlap, each stripped and joined by single spaces; blank text gives none |
| `Chunking.TakeWindows` | cli/lib/semantic_search.py:249-262 | the window loop yields exactly the windows of the specification, for 0 <= overlap < max |
| `Chunking.SentenceChunksOfBlank` | cli/lib/semantic_search.py:241-243 | text that is blank after `strip()` gives no chunks |
| `Chunking.OneSentenceWithOverlapOne` | cli/lib/semantic_search.py:252 | one sentence with overlap 1 gives no chunk at all, although the text is not blank |
| `Chunking.SentenceWindowsCover` | cli/lib/semantic_search.py:252-261 | when there are more sentences than the overlap, every sentence lies in some window |
| `Chunking.SentencesEndWithTerminators` | cli/lib/semantic_search.py:240-245 | the split happens only at whitespace after `.`, `!` or `?`, so every sentence but the last ends with one |
| `Chunking.FindBreak` | cli/lib/semantic_search.py:240 | the next split point is whitespace preceded by a terminator, and there is none before it |
| `SemanticSearch.CosineSimilarity` | cli/lib/semantic_search.py:314-322 | a zero norm on either side gives 0.0 |
| `SemanticSearch.CosineSymmetric` | cli/lib/semantic_search.py:314-322 | cosine similarity is symmetric |
| `SemanticSearch.GenerateEmbedding` | cli/lib/semantic_search.py:55-60 | the only error is ValueError("No input text provided"); otherwise the encoder's vector |
| `SemanticSearch.GenerateEmbeddingRefusesBlank` | cli/lib/semantic_search.py:56-57 | the error happens exactly for empty or whitespace-only text |
| `SemanticSearch.IdMapKeys` | cli/lib/semantic_search.py:28-29 | the document map has exactly the ids of the documents as keys |
| `SemanticSearch.IdMapLast` | cli/lib/semantic_search.py:28-29 | each id is mapped to the last document carrying it |
| `SemanticSearch.SemanticSearch.constructor` | cli/lib/semantic_search.py:16-23 | no embeddings, no documents, an empty document map |
| `SemanticSearch.SemanticSearch.BuildEmbeddings` | cli/lib/semantic_search.py:40-53 | documents are set, the map is extended, one embedding per "title:description" string is computed, kept and written to the cache, and the chunk cache is untouched |
| `SemanticSearch.ReusableEmbeddings` | cli/lib/semantic_search.py:31-36 | cached embeddings are reused only when their count equals the document count; a file of the wrong length makes the method rebuild even when memory held the right count |
| `SemanticSearch.SemanticSearch.MapDocuments` | cli/lib/semantic_search.py:28-29 | the document map becomes the old map with every document registered under its id, later ones replacing earlier ones; documents and embeddings are untouched |
| `SemanticSearch.SemanticSearch.LoadOrCreateEmbeddings` | cli/lib/semantic_search.py:25-38 | reuses the embeddings the reuse rule allows and otherwise builds and saves; either way there is one embedding per document; titles and descriptions are read only on the rebuild path |
| `SemanticSearch.SemanticSearch.Search` | cli/lib/semantic_search.py:62-90 | the result is the search outcome of the current state |
| `SemanticSearch.SearchOutcomeCases` | cli/lib/semantic_search.py:63-69 | "No embeddings loaded", then "No documents loaded", then the blank-query error, in that order; otherwise the ranked hits |
| `SemanticSearch.RankedHitsFacts` | cli/lib/semantic_search.py:71-89 | the hits are the top `limit` of the (cosine score, document) pairs, one pair per embedding: min(limit, #embeddings) of them for limit >= 0, by descending score, drawn from the pairs without repetition, none left out scoring above a kept one, ties in embedding order; each hit is built from its document and its score |
| `SemanticSearch.HitsOfSelection` | cli/lib/semantic_search.py:78-87 | turning a sorted selection of the scored pairs into hits keeps the order, and each hit carries the document and cosine score of some embedding |
| `SemanticSearch.IdMapTwice` | cli/lib/semantic_search.py:28-29 | registering the same documents twice changes nothing |
| `SemanticSearch.ChunkMetadataFacts` | cli/lib/semantic_search.py:113-131 | one metadata entry per chunk, in order; each names the movie's list position, the chunk's position within the movie and the movie's chunk count, and the entries ascend by movie then chunk |
| `SemanticSearch.AllChunksStep` | cli/lib/semantic_search.py:113-122 | each movie appends its chunks after those of the movies before it; a blank description appends none |
| `SemanticSearch.ChunkMetadataStep` | cli/lib/semantic_search.py:121-129 | each movie appends one entry per chunk after the entries of the movies before it |
| `SemanticSearch.ChunkedSemanticSearch.constructor` | cli/lib/semantic_search.py:93-102 | the base starts empty and there are no chunk embeddings or metadata |
| `SemanticSearch.ChunkedSemanticSearch.CollectChunks` | cli/lib/semantic_search.py:110-129 | the chunking loop yields every chunk of every non-blank description in order, with its metadata entry |
| `SemanticSearch.ChunkedSemanticSearch.AppendMovieChunks` | cli/lib/semantic_search.py:121-129 | the inner loop appends the movie's chunks and one metadata entry per chunk |
| `SemanticSearch.ChunkedSemanticSearch.BuildChunkEmbeddings` | cli/lib/semantic_search.py:104-142 | documents and the map are reset, every chunk is encoded in order, and embeddings and metadata are kept and written to the cache |
| `SemanticSearch.ChunkedSemanticSearch.LoadOrCreateChunkEmbeddings` | cli/lib/semantic_search.py:144-160 | when both cache files exist they are reused with no count check and the cache is untouched; otherwise everything is rebuilt |
| `SemanticSearch.ChunkedSemanticSearch.SearchChunks` | cli/lib/semantic_search.py:162-206 | the result is the chunk-search outcome of the current state |
| `SemanticSearch.ChunkedSemanticSearch.BestScores` | cli/lib/semantic_search.py:183-189 | the loop keeps, per movie, the best chunk score seen |
| `SemanticSearch.ChunkedSemanticSearch.FormatTopMovies` | cli/lib/semantic_search.py:196-204 | the loop formats the top movies in order and fails with the first formatting error |
| `SemanticSearch.SearchChunksGuards` | cli/lib/semantic_search.py:163-170 | a blank query raises ValueError before any cache check; missing chunk embeddings or metadata give `[]` |
| `SemanticSearch.UpsertFacts` | cli/lib/semantic_search.py:184-189 | one dict update keeps one entry per movie and replaces a movie's score only when the new one is strictly greater |
| `SemanticSearch.BestPerMovieFacts` | cli/lib/semantic_search.py:183-189 | after the loop, each movie of the chunk scores appears once, with the best of its chunk scores |
| `SemanticSearch.TopMoviesFacts` | cli/lib/semantic_search.py:191-194 | the top `limit` entries of `movies_to_scores`: exactly min(limit, #movies) of them, each movie once, by descending score, each with its best chunk score, no movie left out whose best score is above a kept one, ties in dict order |
| `SemanticSearch.TopMoviesBest` | cli/lib/semantic_search.py:183-194 | the kept entries are distinct movies, sorted by score, each with its movie's best chunk score |
| `SemanticSearch.TopMoviesDropped` | cli/lib/semantic_search.py:191-194 | a movie whose best entry is not kept scores at most every kept entry |
| `SemanticSearch.DistinctMoviesCount` | cli/lib/semantic_search.py:183-189 | a dict with one entry per movie has as many entries as movies |
| `SemanticSearch.BestIsListed` | cli/lib/semantic_search.py:183-189 | every movie's best chunk score is an entry of `movies_to_scores` |
| `SemanticSearch.FormatChunkResultsFacts` | cli/lib/semantic_search.py:196-204 | each result has id `str(movie index)`, the movie's title, at most the first 100 characters of its description, and the movie's score |
| `SemanticSearch.FormatChunkResultsFirstError` | cli/lib/semantic_search.py:196-204 | the first result that cannot be formatted decides the error |
| `SemanticSearch.SearchChunksResults` | cli/lib/semantic_search.py:172-206 | a successful search returns the top `limit` movies by best chunk score: exactly min(limit, #movies with a chunk) results, by descending score, distinct ids, each result the best chunk score of the movie it names, no unreported movie with a better best score, and equal scores in the order `movies_to_scores` holds the movies |
| `SemanticSearch.BestResultsFacts` | cli/lib/semantic_search.py:191-206 | formatting the first `limit` sorted best-per-movie entries reports the top `limit` movies as above |
| `SemanticSearch.ReportsBestFirst` | cli/lib/semantic_search.py:196-204 | reporting a top selection of distinct best entries, one result per entry in order, gives the top `limit` movies as above |
| `SemanticSearch.ReportedOrder` | cli/lib/semantic_search.py:196-204 | the reported scores are in the order of the selection, so descending |
| `Records.NatToStringInjective` | cli/lib/semantic_search.py:198 | `str(k)` of two different movie indices are different strings |
| `SemanticSearch.ReportedDistinct` | cli/lib/semantic_search.py:198-199 | distinct movie indices give distinct `str(k)` ids |
| `SemanticSearch.ReportedBest` | cli/lib/semantic_search.py:196-204 | each result carries the best chunk score of the movie it names |
| `SemanticSearch.ReportedDropped` | cli/lib/semantic_search.py:191-204 | a movie no result names has a best score at most every reported score |
| `SemanticSearch.ReportedTies` | cli/lib/semantic_search.py:191-204 | results with equal scores name movies in the order `movies_to_scores` lists them |
| `HybridSearch.Normalized` | cli/lib/hybrid_search.py:68-82 | the result is as long as the input, so `[]` gives `[]` |
| `HybridSearch.NormalizedAllEqual` | cli/lib/hybrid_search.py:75-76 | when all scores are equal every normalised score is 1.0 |
| `HybridSearch.NormalizedRange` | cli/lib/hybrid_search.py:78-82 | otherwise every score lies in [0, 1], the minimum maps to 0 and the maximum to 1 |
| `HybridSearch.NormalizedOrder` | cli/lib/hybrid_search.py:68-82 | normalisation preserves the order of scores |
| `HybridSearch.ScaleFacts` | cli/lib/hybrid_search.py:80 | a score between min and max scales into [0, 1], to 0 exactly at the min and to 1 exactly at the max |
| `HybridSearch.NormalizeScores` | cli/lib/hybrid_search.py:68-82 | the loop computes the normalisation of the scores |
| `HybridSearch.NormalizeSearchResults` | cli/lib/hybrid_search.py:85-94 | each result in place gains `normalized_score`, the normalisation of the scores, with order and count kept |
| `HybridSearch.WithNormalizedFacts` | cli/lib/hybrid_search.py:85-94 | only `normalized_score` changes, and it is the normalised score at the same position |
| `HybridSearch.WithNormalizedTwice` | cli/lib/hybrid_search.py:85-94 | normalising results twice equals normalising them once |
| `HybridSearch.HybridScore` | cli/lib/hybrid_search.py:97-98 | alpha 1 gives the keyword score and alpha 0 the semantic score |
| `HybridSearch.HybridScoreBetween` | cli/lib/hybrid_search.py:97-98 | for alpha in [0, 1] the hybrid score lies between the two scores |
| `HybridSearch.HybridScoreMonotone` | cli/lib/hybrid_search.py:97-98 | for alpha in [0, 1] the hybrid score grows with either score |
| `HybridSearch.BothHitsEntries` | cli/lib/hybrid_search.py:107-131 | both fusion loops leave one entry per distinct id of either list, in order of first appearance with the keyword list first, titled from that appearance |
| `HybridSearch.CombineFacts` | cli/lib/hybrid_search.py:107-131 | the generic dict-filling loop keeps distinct ids in order of first appearance, and each side's value is the fold of that side's values for the id |
| `HybridSearch.WeightedValues` | cli/lib/hybrid_search.py:109-131 | each side's component is the largest normalised score of the id in that list, or 0.0 when absent |
| `HybridSearch.KeepGreaterFold` | cli/lib/hybrid_search.py:118-119 | the strict-greater update keeps the maximum of 0.0 and the values seen |
| `HybridSearch.AbsorbResult` | cli/lib/hybrid_search.py:110-119 | one loop step creates the id's entry when missing and raises that side's component to the new score when greater |
| `HybridSearch.FillCombinedScores` | cli/lib/hybrid_search.py:107-131 | the two loops fill the combined dict |
| `HybridSearch.AbsorbResults` | cli/lib/hybrid_search.py:108-119 | one of those loops leaves the dict built from every hit so far plus its list's normalised results |
| `HybridSearch.FormatHybridResults` | cli/lib/hybrid_search.py:133-144 | one result per dict entry, in dict order, scored by `hybrid_score` |
| `HybridSearch.CombineSearchResults` | cli/lib/hybrid_search.py:101-146 | both input lists gain their normalised scores in place, and the result is the combined, sorted weighted fusion |
| `HybridSearch.CombinedResultsFacts` | cli/lib/hybrid_search.py:101-146 | sorted by non-increasing score, one result per distinct id of either list, each scored alpha·bm25 + (1−alpha)·semantic from the per-side maxima with first-appearance title and document; equal scores keep first-appearance order |
| `HybridSearch.RrfScore` | cli/lib/hybrid_search.py:149-150 | positive exactly when rank + k is positive |
| `HybridSearch.RrfScoreOrder` | cli/lib/hybrid_search.py:149-150 | a better (smaller) rank never scores less |
| `HybridSearch.RrfValues` | cli/lib/hybrid_search.py:156-178 | each id's rank on each side is its 1-based position in that list, the last occurrence winning, or 0 when absent |
| `HybridSearch.OverwriteFoldAbsent` | cli/lib/hybrid_search.py:158-178 | the overwriting update leaves 0 for an id and list with no hit |
| `HybridSearch.OverwriteFoldLast` | cli/lib/hybrid_search.py:158-178 | the overwriting update keeps the value of the last hit for an id and list |
| `HybridSearch.LastOccurrence` | cli/lib/hybrid_search.py:158-178 | the position found holds the id and no later position does |
| `HybridSearch.AbsorbRank` | cli/lib/hybrid_search.py:159-167 | one loop step creates the id's entry when missing and overwrites that side's rank |
| `HybridSearch.FillRanks` | cli/lib/hybrid_search.py:156-178 | the two loops fill the combined rank dict |
| `HybridSearch.AbsorbRanks` | cli/lib/hybrid_search.py:158-167 | one of those loops leaves the dict built from every hit so far plus its list's results with their 1-based ranks |
| `HybridSearch.RrfTotal` | cli/lib/hybrid_search.py:182-186 | the total is ZeroDivisionError or a value; for k >= 0 it is a value, 0 when both ranks are 0 and positive otherwise |
| `HybridSearch.RrfTotalValue` | cli/lib/hybrid_search.py:182-186 | for k >= 0 the total is the sum of 1/(rank + k) over the non-zero ranks |
| `HybridSearch.RrfResultsOk` | cli/lib/hybrid_search.py:180-195 | when every total is defined, there is one result per entry, built from that entry's total |
| `HybridSearch.RrfResultsFirstError` | cli/lib/hybrid_search.py:180-186 | the first entry whose total divides by zero makes the whole call raise ZeroDivisionError |
| `HybridSearch.RrfCombineSearchResults` | cli/lib/hybrid_search.py:153-197 | the method as written: ranks and totals are computed, every result is dropped, and the sorted empty list is returned |
| `HybridSearch.RrfAsWrittenIsEmpty` | cli/lib/hybrid_search.py:180-197 | for k >= 0 the function as written returns `[]` for every input |
| `HybridSearch.RrfDropsResults` | cli/lib/hybrid_search.py:188-197 | one keyword result and no semantic results give `[]` as written but one fused result once appended |
| `HybridSearch.RrfFuse` | cli/lib/hybrid_search.py:153-197 | the corrected method appends each result before sorting |
| `HybridSearch.TotalRanks` | cli/lib/hybrid_search.py:180-195 | the corrected loop over `combined` gives one fused result per entry, in dict order, or the first total's ZeroDivisionError |
| `HybridSearch.RrfFusedFacts` | cli/lib/hybrid_search.py:153-197 | corrected fusion with k >= 0: sorted by non-increasing score, one result per distinct id of either list, each carrying its two ranks and the sum of their RRF scores; equal scores keep first-appearance order |
| `HybridSearch.TopOfSorted` | cli/lib/hybrid_search.py:30-38 | truncating a sorted list keeps it sorted and drops nothing that outscores what is kept |
| `HybridSearch.WeightedSearchFacts` | cli/lib/hybrid_search.py:24-30 | fails exactly when the chunk search fails; otherwise at most `limit` results, a prefix of the sorted fusion, none of the dropped ones scoring higher |
| `HybridSearch.RrfSearchFacts` | cli/lib/hybrid_search.py:32-38 | the same for reciprocal-rank fusion |
| `HybridSearch.HybridSearch.constructor` | cli/lib/hybrid_search.py:10-13 | documents are stored and the chunk embeddings are reused from the cache or built |
| `HybridSearch.HybridSearch.WeightedSearch` | cli/lib/hybrid_search.py:24-30 | both sources are asked for `limit*500` results, fused by weight and cut to `limit` |
| `HybridSearch.HybridSearch.RrfSearch` | cli/lib/hybrid_search.py:32-38 | both sources are asked for `limit*500` results, fused by the corrected RRF and cut to `limit` |
| `StableSort.SortDescFacts` | cli/lib/hybrid_search.py:146 | the descending sort is sorted, a permutation of its input, and keeps input order among equal keys |
| `Reranking.WithMeta` | cli/lib/reranking.py:68 | `{**d, key: v}` keeps every field, sets `key` to v and adds only that key |
| `StableSort.TopKSelects` | cli/lib/semantic_search.py:76-79 | sort-then-slice is a top-k selection: sorted, a sub-multiset of the input, min(n, #input) long for n >= 0, nothing dropped above anything kept, ties in input order |
| `StableSort.TopK` | cli/lib/reranking.py:29-31 | sort-then-slice is sorted, drawn from the input, min(limit, n) long for limit >= 0, drops nothing that outscores what it keeps, and keeps input order among ties |
| `Reranking.RerankCrossEncoder` | cli/lib/reranking.py:15-31 | each score is written into its document in place, and the result is the first `limit` documents stably sorted by that score |
| `Reranking.RerankCrossEncoderFacts` | cli/lib/reranking.py:26-31 | at most `limit` results, sorted by score, each an input document carrying its own score, ties in input order |
| `Reranking.DocMapKeys` | cli/lib/reranking.py:38-42 | the map's keys are exactly the ids of the documents |
| `Reranking.DocMapLastWins` | cli/lib/reranking.py:40-42 | an id that occurs more than once maps to its last document |
| `Reranking.BatchRankedFacts` | cli/lib/reranking.py:65-68 | each result is the document of a known id of the LLM list, tagged with its 1-based position there; positions ascend; every known position yields a result, so unknown ids still use up a position and a repeated id yields repeated results |
| `Reranking.BatchRankedNone` | cli/lib/reranking.py:35-36 | no documents give no results |
| `Reranking.RerankBatch` | cli/lib/reranking.py:34-70 | the result is the first `limit` ranked documents |
| `Reranking.RerankIndividual` | cli/lib/reranking.py:73-99 | each document is tagged with its rating and the result is the first `limit` of them stably sorted by rating |
| `Reranking.RerankIndividualFacts` | cli/lib/reranking.py:95-99 | at most `limit` results, sorted by rating, each an input document carrying its own rating, ties in input order |
| `Reranking.RerankResult` | cli/lib/reranking.py:102-113 | dispatches on the method name; only the cross encoder changes the documents; an unknown name returns `docs[:limit]` unchanged |
| `Evaluation.PrecisionAtK` | cli/lib/evaluation.py:6-12 | the counting loop computes the relevant share of the first k ids over k |
| `Evaluation.PrecisionBounds` | cli/lib/evaluation.py:7-12 | ZeroDivisionError exactly for k = 0; for k > 0 the value lies in [0, 1] and times k is the relevant count of the first k; for k < 0 the value is at most 0 |
| `Evaluation.RelevantCountIsPositions` | cli/lib/evaluation.py:9-11 | the count is the number of positions holding a relevant id |
| `Evaluation.RelevantCountAppend` | cli/lib/evaluation.py:9-11 | counting is additive over concatenation |
| `Evaluation.PrecisionIgnoresTail` | cli/lib/evaluation.py:7 | ids after position k do not change precision at k |
| `Evaluation.PrecisionShortList` | cli/lib/evaluation.py:12 | with fewer than k ids retrieved, the denominator is still k |
| `Evaluation.PrecisionCountsRepeats` | cli/lib/evaluation.py:9-11 | a relevant id retrieved twice counts twice |

`HybridSearch.HybridSearch.RrfSearch` uses the corrected fusion `RrfFuse`; the fusion as written is kept beside it (see Findings).

## Left out

- File I/O is not modelled:
  - the movie catalog, the stopword file, the pickled index files and the cached embedding files;
  - catalogs and stopwords are parameters;
  - index files are an `IndexStore` with one `Option` per artifact, where `None` stands for a failed read;
  - embedding files are the `Option` fields of an `EmbeddingCache` object.
- The Porter stemmer, the sentence encoder, the cross encoder and the vector norm are parameters:
  - the stemmer is `Normalizer.stem`;
  - the sentence encoder is `encode`;
  - the cross encoder's output is `scores`;
  - the vector norm is `norm`.
- The logarithm in `get_idf` is the parameter `ln`.
- All floating point is modelled as exact `real` arithmetic.
- The Gemini calls and prompt text in the rerankers are not modelled:
  - their answers are inputs: `ranking` for the batch reranker and `ratings` for the individual one;
  - a response that `json.loads` or `int()` cannot parse is not modelled;
  - the three-second sleep is not modelled;
  - the query argument of the rerankers only feeds these calls, so it is dropped.
- Debug and progress printing is not modelled. This covers the prints in `get_idf`, `get_tfidf` and the CLI front-ends, and the encoder progress bars. The defaultdict insertions those prints cause are modelled.
- `bm25_search`, `_bm25_search` and the index build and save in `HybridSearch.__init__` are not modelled:
  - `bm25_search` is not part of this model;
  - the keyword search is the function parameter `bm25Search`;
  - the index is not built there.
- `format_search_result` is not part of this model. A result is the `SearchResult` record, and its extra numeric fields live in `meta`.
- `DEFAULT_K_VALUE`, `DEFAULT_CHUNK_SIZE`, `DEFAULT_CHUNK_OVERLAP`, `DEFAULT_MAX_CHUNK_SIZE` and `SEARCH_MULTIPLIER` are not part of this model. Where the source uses them they are parameters; the factor 500 of `HybridSearch` is written as in the source.
- `Chunking.FixedSizeChunking`: requires chunk_size > 0. With chunk_size <= 0 the source returns `[]` for text without words and loops forever on any other text, because `i` never grows.
- `Chunking.FixedChunksCover`: requires overlap >= 0. `fixed_size_chunking` accepts any overlap, but a negative one starts each window after its step, so words are skipped; `Chunking.NegativeOverlapSkipsWords` gives an example.
- `Chunking.SemanticChunking` and `Chunking.TakeWindows` require 0 <= overlap < max_chunk_size. Outside that range the source does the following, which is not modelled:
  - blank text gives `[]` whatever the parameters;
  - when max_chunk_size <= overlap, it returns `[]` if there are at most `overlap` sentences, and otherwise loops forever, because `i` never grows;
  - with a negative overlap the loop runs while `i < n - overlap`, which is past the last sentence. A window that starts at or after sentence n is an empty slice, and the `continue` at cli/lib/semantic_search.py:257-258 skips the increment, so the loop hangs;
  - for example, max_chunk_size 2 and overlap -1 give two chunks for four sentences (windows at 0 and 3), but hang on "A. B. C." at i = 3;
  - the CLI's `--overlap` option (cli/semantic_search_cli.py:62-66) accepts such values.
- `SemanticSearch.ChunkedSemanticSearch.BuildChunkEmbeddings` and `HybridSearch.HybridSearch.constructor` pass max_chunk_size and overlap on to `semantic_chunking`, so they carry the same 0 <= overlap < max_chunk_size requirement.
- KeyError for a movie without an `id`, `title` or `description` key is not modelled. The source raises it at cli/lib/semantic_search.py:29, 45, 46, 108 and 148, after it has already set `documents` and filled part of `document_map`; those partial states are not modelled either. The preconditions below hold for the catalog, where every movie has all three keys.
- `SemanticSearch.SemanticSearch.BuildEmbeddings`: requires every movie to have all three keys (`AllComplete`), so the KeyError at lines 45-46 is not modelled.
- `SemanticSearch.SemanticSearch.MapDocuments`: requires every movie to have an id (`AllHaveIds`), so the KeyError of the `document_map` loop is not modelled.
- `SemanticSearch.SemanticSearch.LoadOrCreateEmbeddings`: requires ids, and all three keys only when the cached embeddings cannot be reused. The KeyError at line 29, and on the rebuild path at lines 45-46, is not modelled.
- `SemanticSearch.ChunkedSemanticSearch.BuildChunkEmbeddings`: requires ids (`AllHaveIds`), so the KeyError at line 108 is not modelled.
- `SemanticSearch.ChunkedSemanticSearch.LoadOrCreateChunkEmbeddings`: requires ids (`AllHaveIds`), so the KeyError at line 148 is not modelled.
- `HybridSearch.HybridSearch.constructor`: requires ids, because it calls `load_or_create_chunk_embeddings`; the KeyError at line 148 is not modelled.
- A key that holds JSON `null` and a missing key are both `None` in `Movie`, so the model gives them the missing-key behaviour. The source treats a `null` value differently in these places:
  - `InvertedIndex.InvertedIndex.Build`: `movie.get("id", 0)` (cli/lib/inverted_index.py:67) keeps a `null` id as the document id `None`; the model uses 0.
  - `InvertedIndex.InvertedIndex.Build`: a `null` title (cli/lib/inverted_index.py:68) is formatted as "None" in front of the description and indexed with it; the model puts "" there.
  - `KeywordSearch.SearchCommand`: `tokenize(movie.get("title", ""))` (cli/lib/keyword_search.py:18) raises AttributeError on a `null` title; the model tokenizes "".
  - `SemanticSearch.ChunkedSemanticSearch.BuildChunkEmbeddings`: `doc.get("description", "")` (cli/lib/semantic_search.py:112-113) raises AttributeError on `.strip()` for a `null` description; the model reads it as "".
  - `SemanticSearch.ChunkedSemanticSearch.SearchChunks`: a `null` title is formatted into the result as `None`, and a `null` description raises TypeError on `[:100]` (cli/lib/semantic_search.py:200-201); the model raises KeyError for both.
- `SemanticSearch.CosineSimilarity`: vectors of different lengths are not modelled as the ValueError that `np.dot` raises (cli/lib/semantic_search.py:315). `Dot` sums over their common prefix instead. The case can arise when cached chunk embeddings, which are reused without any check, have a different dimension from the query embedding. Vectors of one dimension are what one encoder produces.
- `SearchUtils.LowerChar`: `str.lower` is modelled on ASCII letters only. Other characters are kept as they are; Unicode case mapping is not modelled.
- `SearchUtils.IsSpace`: whitespace is the set Python's `str.split()` and `str.strip()` use for single code points.
- Ids:
  - Search-result ids are strings throughout the model.
  - The source mixes int and str ids between the keyword index, the chunk search and the LLM's JSON list. An LLM id of a different type from the dict key would not match; that is not modelled.
- `Reranking.RerankCrossEncoder`, `Reranking.RerankIndividual` and `Reranking.RerankResult` require one score or rating per document, which is what the cross encoder and the one-call-per-document LLM loop produce.
- `Reranking.RerankBatch`: reads `doc["id"]` of every document. The `KeyError` for a result without an id is not modelled, because results always carry an id here.
- Dicts as objects:
  - Search results are values, not shared dicts.
  - The in-place write of `normalized_score` and `cross_encoder_score` is modelled on arrays of records.
  - Aliasing between lists that share a dict is not modelled.
- Several loop bodies are their own methods, so that each loop's proof stays small:
  - `HybridSearch.AbsorbResult`, `HybridSearch.AbsorbResults`, `HybridSearch.FillCombinedScores` and `HybridSearch.FormatHybridResults`;
  - `HybridSearch.AbsorbRank`, `HybridSearch.AbsorbRanks`, `HybridSearch.FillRanks` and `HybridSearch.TotalRanks`;
  - `SemanticSearch.ChunkedSemanticSearch.AppendMovieChunks`, `SemanticSearch.ChunkedSemanticSearch.CollectChunks`, `SemanticSearch.ChunkedSemanticSearch.BestScores` and `SemanticSearch.ChunkedSemanticSearch.FormatTopMovies`;
  - `SemanticSearch.SemanticSearch.MapDocuments`, the document-map loop shared by `load_or_create_embeddings`, `build_chunk_embeddings` and `load_or_create_chunk_embeddings`;
  - `Chunking.TakeWindows`.
- `ChunkedSemanticSearch` inherits from `SemanticSearch`. This is modelled as a `base` field holding a `SemanticSearch` object.
- `HybridSearch.RrfFusedFacts` and `HybridSearch.RrfSearchFacts` assume k >= 0. A negative k can divide by zero; that case is stated by `HybridSearch.RrfTotal` and `HybridSearch.RrfResultsFirstError`.
- `Evaluation.PrecisionBounds`: for k < 0 it states only that the value is at most 0.
- The CLI front-ends, `augmented_generation.py`, `query_enhancement.py`, `multimodal_search.py`, `evaluate_result` and `test.py` are outside the retrieval core and are not modelled.

## Findings

| source | as written | input that shows it | evidently intended | confidence | as-written member | corrected member |
|---|---|---|---|---|---|---|
| cli/lib/hybrid_search.py:188-197 | each fused result is built into `result` but never appended to `hybrid_results`, so RRF fusion always returns `[]` and so does `rrf_search` | one keyword result `{"id": "1", "title": "Alien"}`, no semantic results, k = 60: the result is `[]` | append each result, then sort by score, giving one result with score 1/61 | not executed | `HybridSearch.RrfDropsResults` | `HybridSearch.RrfFusedFacts` |
