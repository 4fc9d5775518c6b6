/** Title keyword search over the catalog (cli/lib/keyword_search.py). */
module KeywordSearch {
  import opened Records
  import opened PyLists
  import opened SearchUtils

  /** Python's `a in b` on strings: a occurs in b at some offset. */
  predicate IsSubstring(a: string, b: string) {
    exists k :: 0 <= k <= |b| && a <= b[k..]
  }

  /** Some query token occurs inside some title token. */
  predicate AnyTokenMatches(queryTokens: seq<string>, titleTokens: seq<string>) {
    exists i, j :: 0 <= i < |queryTokens| && 0 <= j < |titleTokens| && IsSubstring(queryTokens[i], titleTokens[j])
  }

  method Contains(b: string, a: string) returns (found: bool)
    ensures found <==> IsSubstring(a, b)
  {
    found := false;
    var k := 0;
    while k <= |b|
      invariant 0 <= k <= |b| + 1
      invariant forall k' :: 0 <= k' < k ==> !(a <= b[k'..])
    {
      if a <= b[k..] {
        return true;
      }
      k := k + 1;
    }
  }

  /** `has_matching_token`: the nested scan with an early return. */
  method HasMatchingToken(queryTokens: seq<string>, titleTokens: seq<string>) returns (r: bool)
    ensures r <==> AnyTokenMatches(queryTokens, titleTokens)
    ensures queryTokens == [] || titleTokens == [] ==> !r
  {
    for j := 0 to |titleTokens|
      invariant forall j', i :: 0 <= j' < j && 0 <= i < |queryTokens| ==> !IsSubstring(queryTokens[i], titleTokens[j'])
    {
      for i := 0 to |queryTokens|
        invariant forall j', i' :: ((0 <= j' < j && 0 <= i' < |queryTokens|) || (j' == j && 0 <= i' < i))
                                   ==> !IsSubstring(queryTokens[i'], titleTokens[j'])
      {
        var found := Contains(titleTokens[j], queryTokens[i]);
        if found {
          return true;
        }
      }
    }
    return false;
  }

  /** The movie's title (empty when absent) shares a matching token with the query;
      the description plays no part. */
  predicate TitleMatches(query: string, m: Movie, norm: Normalizer) {
    AnyTokenMatches(Tokens(query, norm), Tokens(m.title.GetOr(""), norm))
  }

  /** The catalog's matching movies, in catalog order. */
  function Matching(query: string, movies: seq<Movie>, norm: Normalizer): seq<Movie> {
    if movies == [] then []
    else Matching(query, movies[..|movies| - 1], norm)
         + (if TitleMatches(query, movies[|movies| - 1], norm) then [movies[|movies| - 1]] else [])
  }

  /** How many results `search_command` can return: the append comes before the
      `len(results) >= limit` test, so a limit below 1 still lets one result through. */
  function Cap(limit: int): nat {
    if limit >= 1 then limit else 1
  }

  /** `search_command`: the first matching movies, in catalog order, stopping as soon as
      the limit is reached. */
  method SearchCommand(query: string, movies: seq<Movie>, limit: int, norm: Normalizer) returns (results: seq<Movie>)
    ensures results == Take(Matching(query, movies, norm), Cap(limit))
    ensures |results| <= Cap(limit)
    ensures forall k :: 0 <= k < |results| ==> results[k] in movies && TitleMatches(query, results[k], norm)
  {
    results := [];
    for i := 0 to |movies|
      invariant results == Matching(query, movies[..i], norm)
      invariant |results| < Cap(limit)
    {
      var movie := movies[i];
      var movieTokens := Tokenize(movie.title.GetOr(""), norm);
      var queryTokens := Tokenize(query, norm);
      var matches := HasMatchingToken(queryTokens, movieTokens);
      MatchingStep(query, movies, i, norm);
      if matches {
        results := results + [movie];
        if |results| >= limit {
          StopAtCap(query, movies, i + 1, limit, norm);
          return;
        }
      }
    }
    StopAtCap(query, movies, |movies|, limit, norm);
  }

  lemma MatchingStep(query: string, movies: seq<Movie>, i: nat, norm: Normalizer)
    requires i < |movies|
    ensures Matching(query, movies[..i + 1], norm)
            == Matching(query, movies[..i], norm) + (if TitleMatches(query, movies[i], norm) then [movies[i]] else [])
  {
    assert movies[..i + 1][..i] == movies[..i];
  }

  /** The scan that has found the cap's worth of matches, or has reached the end of the
      catalog, holds exactly the first matches up to the cap. */
  lemma StopAtCap(query: string, movies: seq<Movie>, i: nat, limit: int, norm: Normalizer)
    requires i <= |movies|
    requires |Matching(query, movies[..i], norm)| == Cap(limit) || (i == |movies| && |Matching(query, movies[..i], norm)| <= Cap(limit))
    ensures Matching(query, movies[..i], norm) == Take(Matching(query, movies, norm), Cap(limit))
    ensures forall k :: 0 <= k < |Matching(query, movies[..i], norm)| ==>
              Matching(query, movies[..i], norm)[k] in movies && TitleMatches(query, Matching(query, movies[..i], norm)[k], norm)
  {
    MatchingPrefix(query, movies, i, norm);
    MatchingFacts(query, movies, norm);
    var pre, all := Matching(query, movies[..i], norm), Matching(query, movies, norm);
    if i == |movies| { assert movies[..i] == movies; }
    forall k | 0 <= k < |pre| ensures pre[k] in movies && TitleMatches(query, pre[k], norm) {
      assert pre[k] == all[k];
    }
  }

  lemma {:induction false} MatchingAppend(query: string, a: seq<Movie>, b: seq<Movie>, norm: Normalizer)
    ensures Matching(query, a + b, norm) == Matching(query, a, norm) + Matching(query, b, norm)
    decreases |b|
  {
    if b == [] {
      assert a + b == a;
    } else {
      assert (a + b)[..|a + b| - 1] == a + b[..|b| - 1];
      MatchingAppend(query, a, b[..|b| - 1], norm);
    }
  }

  /** Scanning a prefix of the catalog finds a prefix of the matches. */
  lemma MatchingPrefix(query: string, movies: seq<Movie>, i: nat, norm: Normalizer)
    requires i <= |movies|
    ensures Matching(query, movies[..i], norm) <= Matching(query, movies, norm)
  {
    var a, b := movies[..i], movies[i..];
    assert a + b == movies;
    MatchingAppend(query, a, b, norm);
    var ma, mb := Matching(query, a, norm), Matching(query, b, norm);
    assert ma + mb == Matching(query, movies, norm);
    assert ma <= ma + mb;
  }

  /** Every match is a catalog movie whose title matches the query, and a title match
      is all it takes. */
  lemma {:induction false} MatchingFacts(query: string, movies: seq<Movie>, norm: Normalizer)
    ensures forall k :: 0 <= k < |Matching(query, movies, norm)|
              ==> Matching(query, movies, norm)[k] in movies && TitleMatches(query, Matching(query, movies, norm)[k], norm)
    ensures forall m :: m in movies && TitleMatches(query, m, norm) ==> m in Matching(query, movies, norm)
  {
    if movies != [] {
      var init := movies[..|movies| - 1];
      MatchingFacts(query, init, norm);
      assert movies == init + [movies[|movies| - 1]];
      forall m | m in movies && TitleMatches(query, m, norm) ensures m in Matching(query, movies, norm) {
        if m in init {
          assert m in Matching(query, init, norm);
        }
      }
    }
  }

  /** The search result does not depend on descriptions: two catalogs with the same ids
      and titles, position by position, yield the same ids and titles in the same order. */
  lemma {:induction false} DescriptionsIgnored(query: string, a: seq<Movie>, b: seq<Movie>, norm: Normalizer)
    requires |a| == |b|
    requires forall k :: 0 <= k < |a| ==> a[k].title == b[k].title && a[k].id == b[k].id
    ensures |Matching(query, a, norm)| == |Matching(query, b, norm)|
    ensures forall k :: 0 <= k < |Matching(query, a, norm)| ==>
              Matching(query, a, norm)[k].id == Matching(query, b, norm)[k].id
              && Matching(query, a, norm)[k].title == Matching(query, b, norm)[k].title
  {
    if a != [] {
      DescriptionsIgnored(query, a[..|a| - 1], b[..|b| - 1], norm);
      TitleMatchesByTitle(query, a[|a| - 1], b[|b| - 1], norm);
    }
  }

  /** Whether a movie matches depends on its title only. */
  lemma TitleMatchesByTitle(query: string, m1: Movie, m2: Movie, norm: Normalizer)
    requires m1.title == m2.title
    ensures TitleMatches(query, m1, norm) == TitleMatches(query, m2, norm)
  {
  }
}
