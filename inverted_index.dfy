/** The lexical index: postings, per-document term counters and the document map,
    all updated in place (cli/lib/inverted_index.py). */
module InvertedIndex {
  import opened Wrappers
  import opened PyLists
  import opened SearchUtils
  import opened Records

  /** A `collections.Counter` of tokens; an absent key counts 0. */
  type Counter = map<string, nat>

  function CountOf(c: Counter, t: string): nat {
    if t in c then c[t] else 0
  }

  /** `Counter.update(tokens)`: one more for every occurrence. */
  function AddCounts(c: Counter, tokens: seq<string>): Counter {
    if tokens == [] then c
    else
      var before := AddCounts(c, tokens[..|tokens| - 1]);
      var t := tokens[|tokens| - 1];
      before[t := CountOf(before, t) + 1]
  }

  /** The three fields of an index, as one value. */
  datatype IndexData = IndexData(
    index: map<string, set<int>>,
    termFrequencies: map<int, Counter>,
    docmap: map<int, Movie>)

  const Empty := IndexData(map[], map[], map[])

  /** The posting set of a token; a token never indexed has none. */
  function Postings(index: map<string, set<int>>, t: string): set<int> {
    if t in index then index[t] else {}
  }

  /** How often token t was counted for document d. */
  function TermCount(tf: map<int, Counter>, d: int, t: string): nat {
    if d in tf then CountOf(tf[d], t) else 0
  }

  function CounterOf(tf: map<int, Counter>, d: int): Counter {
    if d in tf then tf[d] else map[]
  }

  /** The postings after adding d under every token of ts. */
  function AddPostings(index: map<string, set<int>>, ts: set<string>, d: int): map<string, set<int>> {
    map t | t in index.Keys + ts :: Postings(index, t) + (if t in ts then {d} else {})
  }

  lemma AddPostingsStep(index: map<string, set<int>>, done: set<string>, t: string, d: int)
    ensures AddPostings(index, done + {t}, d)
            == AddPostings(index, done, d)[t := Postings(AddPostings(index, done, d), t) + {d}]
  {
    var a, b := AddPostings(index, done + {t}, d), AddPostings(index, done, d)[t := Postings(AddPostings(index, done, d), t) + {d}];
    assert a.Keys == b.Keys;
    forall u | u in a.Keys ensures a[u] == b[u] {
      if u != t {
        assert a[u] == Postings(index, u) + (if u in done then {d} else {});
      }
    }
  }

  function TokenSet(tokens: seq<string>): set<string> {
    set t | t in tokens
  }

  /** `__add_document(d, text)` with `tokens == tokenize(text)`. */
  function AddDocumentTo(data: IndexData, d: int, tokens: seq<string>): IndexData {
    data.(index := AddPostings(data.index, TokenSet(tokens), d),
          termFrequencies := data.termFrequencies[d := AddCounts(CounterOf(data.termFrequencies, d), tokens)])
  }

  /** `movie.get("id", 0)`. */
  function DocId(m: Movie): int {
    m.id.GetOr(0)
  }

  /** `f"{movie.get('title', '')}{movie.get('description')}"`: title and description
      with nothing between them; an absent description prints as "None". */
  function MovieText(m: Movie): string {
    m.title.GetOr("") + (if m.description.Some? then m.description.value else "None")
  }

  /** The index after `build` has processed the movies in order. */
  function BuildInto(data: IndexData, movies: seq<Movie>, norm: Normalizer): IndexData {
    if movies == [] then data
    else
      var before := BuildInto(data, movies[..|movies| - 1], norm);
      var m := movies[|movies| - 1];
      var added := AddDocumentTo(before, DocId(m), Tokens(MovieText(m), norm));
      added.(docmap := added.docmap[DocId(m) := m])
  }

  /** The three pickled artifacts; None stands for a file that cannot be read. */
  datatype IndexStore = IndexStore(
    index: Option<map<string, set<int>>>,
    docmap: Option<map<int, Movie>>,
    termFrequencies: Option<map<int, Counter>>)

  function Saved(data: IndexData): IndexStore {
    IndexStore(Some(data.index), Some(data.docmap), Some(data.termFrequencies))
  }

  /** `load`: every readable artifact replaces its field; the others stay as they were. */
  function Loaded(data: IndexData, store: IndexStore): IndexData {
    IndexData(
      if store.index.Some? then store.index.value else data.index,
      if store.termFrequencies.Some? then store.termFrequencies.value else data.termFrequencies,
      if store.docmap.Some? then store.docmap.value else data.docmap)
  }

  /** `get_tfidf`'s product of a term count and an idf value. */
  function Tfidf(tf: nat, idf: real): real {
    tf as real * idf
  }

  /** The ratio whose logarithm is the smoothed IDF: (N + 1) / (df + 1). */
  function IdfRatio(docCount: nat, termDocCount: nat): real {
    (docCount + 1) as real / (termDocCount + 1) as real
  }

  /** The document whose counter `get_idf` reads (and so creates) on every call. */
  const DebugDocId := 424

  lemma HasElement(s: set<int>)
    ensures s == {} || exists z :: z in s
  {
    if forall z :: z !in s { assert s == {}; }
  }

  /** A smallest id of a non-empty set, found by taking out any element. */
  ghost function AnyMin(s: set<int>): (m: int)
    requires s != {}
    ensures m in s && forall x :: x in s ==> m <= x
    decreases |s|
  {
    HasElement(s);
    var y :| y in s;
    if s == {y} then y
    else
      var m' := AnyMin(s - {y});
      assert forall x :: x in s ==> x == y || x in s - {y};
      if y < m' then y else m'
  }

  /** The smallest id of a non-empty set. */
  function SetMin(s: set<int>): (m: int)
    requires s != {}
    ensures m in s && forall x :: x in s ==> m <= x
  {
    assert AnyMin(s) in s;
    var m :| m in s && forall x :: x in s ==> m <= x;
    m
  }

  /** `sorted(list(s))` for a set of ids. */
  function SortedIds(s: set<int>): seq<int>
    decreases |s|
  {
    if s == {} then [] else [SetMin(s)] + SortedIds(s - {SetMin(s)})
  }

  lemma {:induction false} SortedIdsFacts(s: set<int>)
    ensures forall i, j :: 0 <= i < j < |SortedIds(s)| ==> SortedIds(s)[i] < SortedIds(s)[j]
    ensures forall x :: x in SortedIds(s) <==> x in s
    decreases |s|
  {
    if s != {} {
      var m := SetMin(s);
      var rest := SortedIds(s - {m});
      SortedIdsFacts(s - {m});
      assert SortedIds(s) == [m] + rest;
      forall x ensures x in SortedIds(s) <==> x in s { if x != m {} }
      forall i, j | 0 <= i < j < |SortedIds(s)| ensures SortedIds(s)[i] < SortedIds(s)[j] {
        if i == 0 {
          assert SortedIds(s)[j] == rest[j - 1] && rest[j - 1] in s - {m};
        } else {
          assert SortedIds(s)[i] == rest[i - 1];
        }
      }
    }
  }

  class InvertedIndex {
    var index: map<string, set<int>>
    var termFrequencies: map<int, Counter>
    var docmap: map<int, Movie>

    function Data(): IndexData
      reads this
    {
      IndexData(index, termFrequencies, docmap)
    }

    constructor ()
      ensures Data() == Empty
    {
      index := map[];
      termFrequencies := map[];
      docmap := map[];
    }

    /** `__add_document`: the document joins the posting set of each distinct token,
        and its counter grows by the token occurrences. */
    method AddDocument(docId: int, text: string, norm: Normalizer)
      modifies this
      ensures Data() == AddDocumentTo(old(Data()), docId, Tokens(text, norm))
    {
      var tokens := Tokenize(text, norm);
      var distinct := TokenSet(tokens);
      var done: set<string> := {};
      assert AddPostings(index, done, docId) == index by {
        var a := AddPostings(index, done, docId);
        assert a.Keys == index.Keys;
        forall u | u in a.Keys ensures a[u] == index[u] {
          assert a[u] == Postings(index, u);
        }
      }
      while distinct != {}
        invariant distinct !! done && distinct + done == TokenSet(tokens)
        invariant index == AddPostings(old(index), done, docId)
        invariant termFrequencies == old(termFrequencies) && docmap == old(docmap)
        decreases distinct
      {
        var t :| t in distinct;
        AddPostingsStep(old(index), done, t, docId);
        index := index[t := Postings(index, t) + {docId}];
        distinct, done := distinct - {t}, done + {t};
      }
      termFrequencies := termFrequencies[docId := AddCounts(CounterOf(termFrequencies, docId), tokens)];
    }

    /** `get_documents`: the posting set of the term as an ascending list. */
    function GetDocuments(term: string): (r: seq<int>)
      reads this
      ensures forall i, j :: 0 <= i < j < |r| ==> r[i] < r[j]
      ensures forall d :: d in r <==> term in index && d in index[term]
      ensures term !in index ==> r == []
    {
      SortedIdsFacts(Postings(index, term));
      SortedIds(Postings(index, term))
    }

    /** `get_tf`: the count of the term's single token in the document. Reading an unseen
        document leaves an empty counter behind for it. */
    method GetTf(docId: int, term: string, norm: Normalizer) returns (r: Result<nat>)
      modifies this
      ensures |Tokens(term, norm)| != 1 ==> r.Err? && r.error.ValueError? && Data() == old(Data())
      ensures |Tokens(term, norm)| == 1 ==>
        && r == Ok(TermCount(old(termFrequencies), docId, Tokens(term, norm)[0]))
        && index == old(index) && docmap == old(docmap)
        && termFrequencies == old(termFrequencies)[docId := CounterOf(old(termFrequencies), docId)]
    {
      var tokens := Tokenize(term, norm);
      if |tokens| != 1 {
        return Err(ValueError("term must be a single token"));
      }
      var token := tokens[0];
      if docId !in termFrequencies {
        termFrequencies := termFrequencies[docId := map[]];
      }
      r := Ok(CountOf(termFrequencies[docId], token));
    }

    /** `get_idf`: ln((N + 1) / (df + 1)) for the term's single token, N the number of
        documents and df the size of its posting set. The logarithm is a parameter.
        Reading leaves an empty posting for an unseen token and an empty counter for
        document 424 behind. */
    method GetIdf(term: string, norm: Normalizer, ln: real -> real) returns (r: Result<real>)
      modifies this
      ensures |Tokens(term, norm)| != 1 ==> r.Err? && r.error.ValueError? && Data() == old(Data())
      ensures |Tokens(term, norm)| == 1 ==>
        var token := Tokens(term, norm)[0];
        && r == Ok(ln(IdfRatio(|old(docmap)|, |Postings(old(index), token)|)))
        && index == old(index)[token := Postings(old(index), token)]
        && termFrequencies == old(termFrequencies)[DebugDocId := CounterOf(old(termFrequencies), DebugDocId)]
        && docmap == old(docmap)
    {
      var tokens := Tokenize(term, norm);
      if |tokens| != 1 {
        return Err(ValueError("term must be a single token"));
      }
      var token := tokens[0];
      var docCount := |docmap|;
      if token !in index {
        index := index[token := {}];
      }
      var termDocCount := |index[token]|;
      if DebugDocId !in termFrequencies {
        termFrequencies := termFrequencies[DebugDocId := map[]];
      }
      r := Ok(ln(IdfRatio(docCount, termDocCount)));
    }

    /** `get_tfidf`: the product of the two, with both reads' side effects. */
    method GetTfidf(docId: int, term: string, norm: Normalizer, ln: real -> real) returns (r: Result<real>)
      modifies this
      ensures |Tokens(term, norm)| != 1 ==> r.Err? && r.error.ValueError? && Data() == old(Data())
      ensures |Tokens(term, norm)| == 1 ==>
        var token := Tokens(term, norm)[0];
        var tf1 := old(termFrequencies)[docId := CounterOf(old(termFrequencies), docId)];
        && r == Ok(Tfidf(TermCount(old(termFrequencies), docId, token),
                         ln(IdfRatio(|old(docmap)|, |Postings(old(index), token)|))))
        && index == old(index)[token := Postings(old(index), token)]
        && termFrequencies == tf1[DebugDocId := CounterOf(tf1, DebugDocId)]
        && docmap == old(docmap)
    {
      var tf := GetTf(docId, term, norm);
      if tf.Err? {
        return Err(tf.error);
      }
      var idf := GetIdf(term, norm, ln);
      r := Ok(Tfidf(tf.value, idf.value));
    }

    /** `build`: every movie is indexed under its id (0 when absent) and stored in the
        document map; a later movie with the same id replaces the earlier one there. */
    method Build(movies: seq<Movie>, norm: Normalizer)
      modifies this
      ensures Data() == BuildInto(old(Data()), movies, norm)
    {
      for i := 0 to |movies|
        invariant Data() == BuildInto(old(Data()), movies[..i], norm)
      {
        assert movies[..i + 1][..i] == movies[..i];
        var movie := movies[i];
        var docId := movie.id.GetOr(0);
        var text := movie.title.GetOr("") + (if movie.description.Some? then movie.description.value else "None");
        AddDocument(docId, text, norm);
        docmap := docmap[docId := movie];
      }
      assert movies[..|movies|] == movies;
    }

    /** `save`: the three artifacts as written. */
    method Save() returns (store: IndexStore)
      ensures store.index == Some(index) && store.docmap == Some(docmap)
      ensures store.termFrequencies == Some(termFrequencies)
    {
      store := IndexStore(Some(index), Some(docmap), Some(termFrequencies));
    }

    /** `load`: each artifact is read on its own; one that cannot be read leaves its
        field as it was and does not stop the others. */
    method Load(store: IndexStore)
      modifies this
      ensures Data() == Loaded(old(Data()), store)
    {
      if store.index.Some? {
        index := store.index.value;
      }
      if store.docmap.Some? {
        docmap := store.docmap.value;
      }
      if store.termFrequencies.Some? {
        termFrequencies := store.termFrequencies.value;
      }
    }
  }

  // ------------------------------------------------------------------ lemmas

  /** The counter after `update(tokens)` holds the old count plus the occurrences. */
  lemma {:induction false} AddCountsCounts(c: Counter, tokens: seq<string>, t: string)
    ensures CountOf(AddCounts(c, tokens), t) == CountOf(c, t) + Occurrences(tokens, t)
  {
    if tokens != [] {
      AddCountsCounts(c, tokens[..|tokens| - 1], t);
    }
  }

  /** Adding a document puts it in the posting set of each of its tokens and touches no
      other posting; its own counts grow by the token occurrences and no other document's
      counts change. */
  lemma AddDocumentEffect(data: IndexData, d: int, tokens: seq<string>)
    ensures forall t :: Postings(AddDocumentTo(data, d, tokens).index, t)
                        == Postings(data.index, t) + (if t in tokens then {d} else {})
    ensures forall t :: TermCount(AddDocumentTo(data, d, tokens).termFrequencies, d, t)
                        == TermCount(data.termFrequencies, d, t) + Occurrences(tokens, t)
    ensures forall e, t :: e != d ==> TermCount(AddDocumentTo(data, d, tokens).termFrequencies, e, t)
                                      == TermCount(data.termFrequencies, e, t)
    ensures AddDocumentTo(data, d, tokens).docmap == data.docmap
  {
    forall t ensures TermCount(AddDocumentTo(data, d, tokens).termFrequencies, d, t)
                     == TermCount(data.termFrequencies, d, t) + Occurrences(tokens, t) {
      AddCountsCounts(CounterOf(data.termFrequencies, d), tokens, t);
    }
  }

  /** Adding the same document twice leaves the postings as after one addition but
      counts every token twice. */
  lemma AddDocumentTwice(data: IndexData, d: int, tokens: seq<string>)
    ensures AddDocumentTo(AddDocumentTo(data, d, tokens), d, tokens).index
            == AddDocumentTo(data, d, tokens).index
    ensures forall t :: TermCount(AddDocumentTo(AddDocumentTo(data, d, tokens), d, tokens).termFrequencies, d, t)
                        == TermCount(data.termFrequencies, d, t) + 2 * Occurrences(tokens, t)
  {
    AddDocumentEffect(data, d, tokens);
    AddDocumentEffect(AddDocumentTo(data, d, tokens), d, tokens);
  }

  /** Movie m is indexed under id d and has token t. */
  predicate HasToken(m: Movie, d: int, t: string, norm: Normalizer) {
    DocId(m) == d && t in Tokens(MovieText(m), norm)
  }

  /** The test of one movie for id d and token t. */
  function TokenTest(d: int, t: string, norm: Normalizer): Movie -> bool {
    m => HasToken(m, d, t, norm)
  }

  /** Some element of `s` passes `test`. */
  predicate AnyOf<T>(s: seq<T>, test: T -> bool) {
    exists j :: 0 <= j < |s| && test(s[j])
  }

  /** Some movie with id d has token t in its title and description. */
  predicate IndexedIn(movies: seq<Movie>, d: int, t: string, norm: Normalizer) {
    AnyOf(movies, TokenTest(d, t, norm))
  }

  /** Some element passes exactly when one before the last does or the last does. */
  lemma AnyOfStep<T>(s: seq<T>, test: T -> bool)
    requires s != []
    ensures AnyOf(s, test) <==> AnyOf(s[..|s| - 1], test) || test(s[|s| - 1])
  {
    var init, n := s[..|s| - 1], |s| - 1;
    if AnyOf(init, test) {
      var j :| 0 <= j < |init| && test(init[j]);
      assert s[j] == init[j];
    }
    if AnyOf(s, test) {
      var j :| 0 <= j < |s| && test(s[j]);
      if j < n {
        assert init[j] == s[j];
      }
    }
  }

  lemma IndexedInStep(movies: seq<Movie>, d: int, t: string, norm: Normalizer)
    requires movies != []
    ensures IndexedIn(movies, d, t, norm)
            <==> IndexedIn(movies[..|movies| - 1], d, t, norm) || HasToken(movies[|movies| - 1], d, t, norm)
  {
    AnyOfStep(movies, TokenTest(d, t, norm));
  }

  /** After `build` on an empty index, a document is in a token's posting set exactly
      when some movie with that id has the token in its title and description. */
  lemma {:induction false} BuildPostings(movies: seq<Movie>, norm: Normalizer, t: string, d: int)
    ensures d in Postings(BuildInto(Empty, movies, norm).index, t) <==> IndexedIn(movies, d, t, norm)
  {
    if movies != [] {
      var init := movies[..|movies| - 1];
      var m := movies[|movies| - 1];
      BuildPostings(init, norm, t, d);
      AddDocumentEffect(BuildInto(Empty, init, norm), DocId(m), Tokens(MovieText(m), norm));
      IndexedInStep(movies, d, t, norm);
      assert HasToken(m, d, t, norm) <==> DocId(m) == d && t in Tokens(MovieText(m), norm);
    }
  }

  /** The occurrences of t over all movies whose id is d. */
  function OccurrencesFor(movies: seq<Movie>, d: int, t: string, norm: Normalizer): nat {
    if movies == [] then 0
    else
      var m := movies[|movies| - 1];
      OccurrencesFor(movies[..|movies| - 1], d, t, norm)
      + (if DocId(m) == d then Occurrences(Tokens(MovieText(m), norm), t) else 0)
  }

  /** After `build`, each count is the old count plus the occurrences over every movie
      carrying that id: a repeated id adds up. */
  lemma {:induction false} BuildCounts(data: IndexData, movies: seq<Movie>, norm: Normalizer, t: string, d: int)
    ensures TermCount(BuildInto(data, movies, norm).termFrequencies, d, t)
            == TermCount(data.termFrequencies, d, t) + OccurrencesFor(movies, d, t, norm)
  {
    if movies != [] {
      var init := movies[..|movies| - 1];
      var m := movies[|movies| - 1];
      BuildCounts(data, init, norm, t, d);
      AddDocumentEffect(BuildInto(data, init, norm), DocId(m), Tokens(MovieText(m), norm));
    }
  }

  /** After `build`, the document map holds, for each id, the last movie that has it. */
  lemma {:induction false} BuildDocmap(data: IndexData, movies: seq<Movie>, norm: Normalizer, j: nat)
    requires j < |movies|
    requires forall k :: j < k < |movies| ==> DocId(movies[k]) != DocId(movies[j])
    ensures DocId(movies[j]) in BuildInto(data, movies, norm).docmap
    ensures BuildInto(data, movies, norm).docmap[DocId(movies[j])] == movies[j]
  {
    var init := movies[..|movies| - 1];
    var m := movies[|movies| - 1];
    AddDocumentEffect(BuildInto(data, init, norm), DocId(m), Tokens(MovieText(m), norm));
    if j < |movies| - 1 {
      BuildDocmap(data, init, norm, j);
      assert init[j] == movies[j];
    }
  }

  /** Saving and loading all three artifacts restores the index exactly, whatever the
      index held before. */
  lemma LoadAfterSave(before: IndexData, data: IndexData)
    ensures Loaded(before, Saved(data)) == data
  {
  }

  /** With N documents and a token in at most N of them, the IDF ratio is at least 1,
      so the IDF is not negative for any logarithm that is not negative from 1 on. */
  lemma IdfNotNegative(docCount: nat, termDocCount: nat, ln: real -> real)
    requires termDocCount <= docCount
    requires forall x :: x >= 1.0 ==> ln(x) >= 0.0
    ensures IdfRatio(docCount, termDocCount) >= 1.0
    ensures ln(IdfRatio(docCount, termDocCount)) >= 0.0
  {
    var a, b := (docCount + 1) as real, (termDocCount + 1) as real;
    assert a >= b > 0.0;
    assert a / b >= 1.0 by {
      assert a / b * b == a;
    }
  }
}
