/** Score fusion: min-max normalisation, weighted fusion of keyword and semantic
    results, and reciprocal-rank fusion. */
module HybridSearch {
  import opened Wrappers
  import opened PyLists
  import opened StableSort
  import opened Records
  import SemanticSearch

  // ------------------------------------------------------------ normalisation

  /** One score scaled into [0, 1] between the minimum and maximum. */
  function Scale(x: real, lo: real, hi: real): real
    requires lo < hi
  {
    (x - lo) / (hi - lo)
  }

  /** `normalize_scores`: min-max scaling into [0, 1]; all 1.0 when every score is equal. */
  function Normalized(scores: seq<real>): (r: seq<real>)
    ensures |r| == |scores|
  {
    if scores == [] then []
    else
      var lo, hi := MinOf(scores), MaxOf(scores);
      if lo == hi then seq(|scores|, _ => 1.0)
      else seq(|scores|, i requires 0 <= i < |scores| => Scale(scores[i], lo, hi))
  }

  lemma DivOrder(a: real, b: real, d: real)
    requires d > 0.0
    ensures a <= b <==> a / d <= b / d
  {
    var p, q := a / d, b / d;
    assert p * d == a && q * d == b;
    if p <= q { assert (q - p) * d >= 0.0; }
    if a <= b { assert (q - p) * d == b - a; }
  }

  lemma UnitDiv(a: real, d: real)
    requires 0.0 <= a <= d && d > 0.0
    ensures 0.0 <= a / d <= 1.0
    ensures a / d == 0.0 <==> a == 0.0
    ensures a / d == 1.0 <==> a == d
  {
    assert a / d * d == a;
  }

  /** A score between the minimum and the maximum scales into [0, 1], to 0 exactly at
      the minimum and to 1 exactly at the maximum. */
  lemma ScaleFacts(x: real, lo: real, hi: real)
    requires lo <= x <= hi && lo < hi
    ensures 0.0 <= Scale(x, lo, hi) <= 1.0
    ensures Scale(x, lo, hi) == 0.0 <==> x == lo
    ensures Scale(x, lo, hi) == 1.0 <==> x == hi
  {
    UnitDiv(x - lo, hi - lo);
  }

  /** `normalize_scores` of equal scores is all 1.0. */
  lemma NormalizedAllEqual(scores: seq<real>)
    requires forall i, j :: 0 <= i < |scores| && 0 <= j < |scores| ==> scores[i] == scores[j]
    ensures forall i :: 0 <= i < |scores| ==> Normalized(scores)[i] == 1.0
  {
    if scores != [] {
      var lo, hi := MinOf(scores), MaxOf(scores);
      var a :| 0 <= a < |scores| && scores[a] == lo;
      var b :| 0 <= b < |scores| && scores[b] == hi;
      assert lo == hi;
    }
  }

  /** When the scores differ, every value lies in [0, 1], and exactly the minimal scores
      map to 0 and the maximal ones to 1. */
  lemma NormalizedRange(scores: seq<real>)
    requires exists i, j :: 0 <= i < |scores| && 0 <= j < |scores| && scores[i] != scores[j]
    ensures forall i :: 0 <= i < |scores| ==>
              && 0.0 <= Normalized(scores)[i] <= 1.0
              && (Normalized(scores)[i] == 0.0 <==> scores[i] == MinOf(scores))
              && (Normalized(scores)[i] == 1.0 <==> scores[i] == MaxOf(scores))
  {
    var lo, hi := MinOf(scores), MaxOf(scores);
    var i0, j0 :| 0 <= i0 < |scores| && 0 <= j0 < |scores| && scores[i0] != scores[j0];
    assert scores[i0] in scores && scores[j0] in scores;
    assert lo < hi;
    forall i | 0 <= i < |scores|
      ensures 0.0 <= Normalized(scores)[i] <= 1.0
      ensures Normalized(scores)[i] == 0.0 <==> scores[i] == lo
      ensures Normalized(scores)[i] == 1.0 <==> scores[i] == hi
    {
      assert scores[i] in scores;
      ScaleFacts(scores[i], lo, hi);
    }
  }

  /** `normalize_scores` keeps the order of the scores. */
  lemma NormalizedOrder(scores: seq<real>)
    ensures forall i, j :: 0 <= i < |scores| && 0 <= j < |scores| ==>
              (scores[i] <= scores[j] <==> Normalized(scores)[i] <= Normalized(scores)[j])
  {
    if scores != [] {
      var lo, hi := MinOf(scores), MaxOf(scores);
      if lo == hi {
        forall i | 0 <= i < |scores| ensures scores[i] == lo {
          assert scores[i] in scores;
        }
        NormalizedAllEqual(scores);
      } else {
        forall i, j | 0 <= i < |scores| && 0 <= j < |scores|
          ensures scores[i] <= scores[j] <==> Normalized(scores)[i] <= Normalized(scores)[j]
        {
          DivOrder(scores[i] - lo, scores[j] - lo, hi - lo);
        }
      }
    }
  }

  /** `normalize_scores`. */
  method NormalizeScores(scores: seq<real>) returns (r: seq<real>)
    ensures r == Normalized(scores)
  {
    if scores == [] {
      return [];
    }
    var lo, hi := MinOf(scores), MaxOf(scores);
    if lo == hi {
      return seq(|scores|, _ => 1.0);
    }
    r := [];
    for i := 0 to |scores|
      invariant |r| == i
      invariant forall k :: 0 <= k < i ==> r[k] == Scale(scores[k], lo, hi)
    {
      r := r + [(scores[i] - lo) / (hi - lo)];
    }
  }

  function Scores(rs: seq<SearchResult>): (r: seq<real>)
    ensures |r| == |rs| && forall i :: 0 <= i < |rs| ==> r[i] == rs[i].score
  {
    seq(|rs|, i requires 0 <= i < |rs| => rs[i].score)
  }

  const NormalizedScoreKey := "normalized_score"

  /** The results after `normalize_search_results`: each one, in place and in order,
      gains its normalised score under `normalized_score`. */
  function WithNormalized(rs: seq<SearchResult>): seq<SearchResult> {
    var ns := Normalized(Scores(rs));
    seq(|rs|, i requires 0 <= i < |rs| => rs[i].(meta := rs[i].meta[NormalizedScoreKey := ns[i]]))
  }

  /** `normalize_search_results` keeps the count, the order and every field of every
      result, and adds the normalised score of its own score. */
  lemma WithNormalizedFacts(rs: seq<SearchResult>)
    ensures |WithNormalized(rs)| == |rs|
    ensures forall i :: 0 <= i < |rs| ==>
              && WithNormalized(rs)[i].(meta := rs[i].meta) == rs[i]
              && NormalizedScoreKey in WithNormalized(rs)[i].meta
              && WithNormalized(rs)[i].meta[NormalizedScoreKey] == Normalized(Scores(rs))[i]
              && forall key :: key in rs[i].meta && key != NormalizedScoreKey ==>
                   key in WithNormalized(rs)[i].meta && WithNormalized(rs)[i].meta[key] == rs[i].meta[key]
  {
  }

  /** `normalize_search_results`: writes the normalised score into each result dict. */
  method NormalizeSearchResults(results: array<SearchResult>)
    modifies results
    ensures results[..] == WithNormalized(old(results[..]))
  {
    var scores := [];
    for i := 0 to results.Length
      invariant |scores| == i && forall k :: 0 <= k < i ==> scores[k] == results[k].score
    {
      scores := scores + [results[i].score];
    }
    ghost var before := results[..];
    assert scores == Scores(before);
    var normScores := NormalizeScores(scores);
    for i := 0 to results.Length
      invariant forall k :: i <= k < results.Length ==> results[k] == before[k]
      invariant forall k :: 0 <= k < i ==> results[k] == before[k].(meta := before[k].meta[NormalizedScoreKey := normScores[k]])
    {
      results[i] := results[i].(meta := results[i].meta[NormalizedScoreKey := normScores[i]]);
    }
    ghost var after := WithNormalized(before);
    assert forall k :: 0 <= k < results.Length ==> results[k] == after[k];
  }

  // ------------------------------------------------------------ combining by id

  /** Which input list a result came from. */
  datatype Side = Bm25 | Semantic

  /** One result of one list, with the value fusion reads from it (its normalised
      score, or its 1-based rank). */
  datatype Hit<V> = Hit(side: Side, id: string, title: string, document: string, value: V)

  /** An entry of the `combined_scores` / `combined` dict: the title and document
      first seen for the id, and one value per list. */
  datatype Entry<V> = Entry(id: string, title: string, document: string, bm25: V, semantic: V)

  /** The update of one list's value for a hit. */
  function Bump<V>(e: Entry<V>, h: Hit<V>, update: (V, V) -> V): Entry<V> {
    if h.side == Bm25 then e.(bm25 := update(e.bm25, h.value)) else e.(semantic := update(e.semantic, h.value))
  }

  /** One iteration of a fusion loop, with the dict as its entries in insertion order:
      a new id gets an entry with both values `zero`, then the hit's side is updated. */
  function Absorb<V>(es: seq<Entry<V>>, h: Hit<V>, zero: V, update: (V, V) -> V): seq<Entry<V>> {
    if es == [] then [Bump(Entry(h.id, h.title, h.document, zero, zero), h, update)]
    else if es[0].id == h.id then [Bump(es[0], h, update)] + es[1..]
    else [es[0]] + Absorb(es[1..], h, zero, update)
  }

  /** The dict after both fusion loops have consumed the hits in order. */
  function Combine<V>(hs: seq<Hit<V>>, zero: V, update: (V, V) -> V): seq<Entry<V>> {
    if hs == [] then [] else Absorb(Combine(hs[..|hs| - 1], zero, update), hs[|hs| - 1], zero, update)
  }

  function Ids<V>(es: seq<Entry<V>>): set<string> {
    set i | 0 <= i < |es| :: es[i].id
  }

  function HitIds<V>(hs: seq<Hit<V>>): set<string> {
    set i | 0 <= i < |hs| :: hs[i].id
  }

  predicate DistinctIds<V>(es: seq<Entry<V>>) {
    forall i, j :: 0 <= i < j < |es| ==> es[i].id != es[j].id
  }

  /** The values the hits for `id` from list `side` carry, in order. */
  function Values<V>(hs: seq<Hit<V>>, id: string, side: Side): seq<V> {
    if hs == [] then []
    else
      var h := hs[|hs| - 1];
      Values(hs[..|hs| - 1], id, side) + (if h.id == id && h.side == side then [h.value] else [])
  }

  /** `update` applied to `zero` and then to each value in turn. */
  function Fold<V>(zero: V, update: (V, V) -> V, vs: seq<V>): V {
    if vs == [] then zero else update(Fold(zero, update, vs[..|vs| - 1]), vs[|vs| - 1])
  }

  /** The position of the first hit for `id`. */
  function FirstIndex<V>(hs: seq<Hit<V>>, id: string): (k: nat)
    requires id in HitIds(hs)
    ensures k < |hs| && hs[k].id == id
    ensures forall k' :: 0 <= k' < k ==> hs[k'].id != id
  {
    var init := hs[..|hs| - 1];
    if id in HitIds(init) then
      var k := FirstIndex(init, id);
      assert init[k] == hs[k];
      assert forall k' :: 0 <= k' < k ==> init[k'] == hs[k'];
      k
    else
      assert forall k' :: 0 <= k' < |hs| - 1 ==> init[k'] == hs[k'] && init[k'] in init;
      |hs| - 1
  }

  /** Absorbing a hit either updates the entry of its id where it stands, or appends a
      fresh entry for it. */
  lemma {:induction false} AbsorbExact<V>(es: seq<Entry<V>>, h: Hit<V>, zero: V, update: (V, V) -> V)
    requires DistinctIds(es)
    ensures h.id in Ids(es) ==>
              && |Absorb(es, h, zero, update)| == |es|
              && forall i :: 0 <= i < |es| ==>
                   Absorb(es, h, zero, update)[i] == (if es[i].id == h.id then Bump(es[i], h, update) else es[i])
    ensures h.id !in Ids(es) ==>
              Absorb(es, h, zero, update) == es + [Bump(Entry(h.id, h.title, h.document, zero, zero), h, update)]
    decreases |es|
  {
    if es != [] {
      var rest := es[1..];
      assert es == [es[0]] + rest;
      assert DistinctIds(rest) by {
        forall i, j | 0 <= i < j < |rest| ensures rest[i].id != rest[j].id {
          assert rest[i] == es[i + 1] && rest[j] == es[j + 1];
        }
      }
      assert Ids(es) == {es[0].id} + Ids(rest);
      if es[0].id == h.id {
        forall i | 1 <= i < |es| ensures es[i].id != h.id {
          assert es[0].id != es[i].id;
        }
      } else {
        AbsorbExact(rest, h, zero, update);
      }
    }
  }

  lemma {:induction false} HitsSnoc<V>(hs: seq<Hit<V>>)
    requires hs != []
    ensures HitIds(hs) == HitIds(hs[..|hs| - 1]) + {hs[|hs| - 1].id}
  {
    var init := hs[..|hs| - 1];
    forall x | x in HitIds(hs) ensures x in HitIds(init) + {hs[|hs| - 1].id} {
      var i :| 0 <= i < |hs| && hs[i].id == x;
      if i < |init| {
        assert init[i] == hs[i];
      }
    }
    forall x | x in HitIds(init) ensures x in HitIds(hs) {
      var i :| 0 <= i < |init| && init[i].id == x;
      assert hs[i] == init[i];
    }
  }

  lemma {:induction false} ValuesAbsent<V>(hs: seq<Hit<V>>, id: string, side: Side)
    requires id !in HitIds(hs)
    ensures Values(hs, id, side) == []
    decreases |hs|
  {
    if hs != [] {
      HitsSnoc(hs);
      ValuesAbsent(hs[..|hs| - 1], id, side);
    }
  }

  /** The ids of the entries are distinct and are exactly the ids of the hits. */
  ghost predicate IdsSpec<V>(hs: seq<Hit<V>>, es: seq<Entry<V>>) {
    DistinctIds(es) && Ids(es) == HitIds(hs)
  }

  /** Each entry has the title and document of the first hit for its id. */
  ghost predicate FirstSpec<V>(hs: seq<Hit<V>>, es: seq<Entry<V>>) {
    forall i :: 0 <= i < |es| ==>
      && es[i].id in HitIds(hs)
      && hs[FirstIndex(hs, es[i].id)].title == es[i].title
      && hs[FirstIndex(hs, es[i].id)].document == es[i].document
  }

  /** The entries are in order of their ids' first appearance. */
  ghost predicate OrderSpec<V>(hs: seq<Hit<V>>, es: seq<Entry<V>>) {
    forall i, j :: 0 <= i < j < |es| ==>
      es[i].id in HitIds(hs) && es[j].id in HitIds(hs) && FirstIndex(hs, es[i].id) < FirstIndex(hs, es[j].id)
  }

  /** Each entry holds, per list, the fold of `update` over its id's values in that list. */
  ghost predicate ValuesSpec<V>(hs: seq<Hit<V>>, zero: V, update: (V, V) -> V, es: seq<Entry<V>>) {
    forall i :: 0 <= i < |es| ==>
      && es[i].bm25 == Fold(zero, update, Values(hs, es[i].id, Bm25))
      && es[i].semantic == Fold(zero, update, Values(hs, es[i].id, Semantic))
  }

  /** What both fusion loops build: one entry per distinct id, in order of first
      appearance; each entry has the title and document of that first appearance, and
      per list the fold of `update` over that id's values in that list. */
  ghost predicate CombineSpec<V>(hs: seq<Hit<V>>, zero: V, update: (V, V) -> V, es: seq<Entry<V>>) {
    IdsSpec(hs, es) && FirstSpec(hs, es) && OrderSpec(hs, es) && ValuesSpec(hs, zero, update, es)
  }

  lemma {:induction false} CombineFacts<V>(hs: seq<Hit<V>>, zero: V, update: (V, V) -> V)
    ensures CombineSpec(hs, zero, update, Combine(hs, zero, update))
    decreases |hs|
  {
    if hs != [] {
      var init, h := hs[..|hs| - 1], hs[|hs| - 1];
      var es0 := Combine(init, zero, update);
      var es := Combine(hs, zero, update);
      CombineFacts(init, zero, update);
      AbsorbExact(es0, h, zero, update);
      HitsSnoc(hs);
      assert es == Absorb(es0, h, zero, update);
      if h.id in Ids(es0) {
        CombineKnown(hs, zero, update, es0, es);
      } else {
        CombineNew(hs, zero, update, es0, es);
      }
    }
  }

  /** The step of `CombineFacts` for a hit whose id is already in the dict: that
      entry is updated where it stands. */
  lemma CombineKnown<V>(hs: seq<Hit<V>>, zero: V, update: (V, V) -> V, es0: seq<Entry<V>>, es: seq<Entry<V>>)
    requires hs != []
    requires CombineSpec(hs[..|hs| - 1], zero, update, es0)
    requires hs[|hs| - 1].id in Ids(es0)
    requires |es| == |es0|
    requires forall i :: 0 <= i < |es0| ==> es[i] == (if es0[i].id == hs[|hs| - 1].id then Bump(es0[i], hs[|hs| - 1], update) else es0[i])
    ensures CombineSpec(hs, zero, update, es)
  {
    KnownIds(hs, zero, update, es0, es);
    KnownFirst(hs, zero, update, es0, es);
    KnownValues(hs, zero, update, es0, es);
  }

  lemma {:induction false} KnownIds<V>(hs: seq<Hit<V>>, zero: V, update: (V, V) -> V, es0: seq<Entry<V>>, es: seq<Entry<V>>)
    requires hs != []
    requires IdsSpec(hs[..|hs| - 1], es0)
    requires hs[|hs| - 1].id in Ids(es0)
    requires |es| == |es0|
    requires forall i :: 0 <= i < |es0| ==> es[i] == (if es0[i].id == hs[|hs| - 1].id then Bump(es0[i], hs[|hs| - 1], update) else es0[i])
    ensures IdsSpec(hs, es)
  {
    assert forall i :: 0 <= i < |es| ==> es[i].id == es0[i].id;
    forall x | x in Ids(es) ensures x in Ids(es0) {
      var i :| 0 <= i < |es| && es[i].id == x;
    }
    forall x | x in Ids(es0) ensures x in Ids(es) {
      var i :| 0 <= i < |es0| && es0[i].id == x;
    }
    HitsSnoc(hs);
  }

  lemma {:induction false} KnownFirst<V>(hs: seq<Hit<V>>, zero: V, update: (V, V) -> V, es0: seq<Entry<V>>, es: seq<Entry<V>>)
    requires hs != []
    requires IdsSpec(hs[..|hs| - 1], es0) && FirstSpec(hs[..|hs| - 1], es0) && OrderSpec(hs[..|hs| - 1], es0)
    requires hs[|hs| - 1].id in Ids(es0)
    requires |es| == |es0|
    requires forall i :: 0 <= i < |es0| ==> es[i] == (if es0[i].id == hs[|hs| - 1].id then Bump(es0[i], hs[|hs| - 1], update) else es0[i])
    ensures FirstSpec(hs, es) && OrderSpec(hs, es)
  {
    var init := hs[..|hs| - 1];
    HitsSnoc(hs);
    forall i | 0 <= i < |es|
      ensures es[i].id == es0[i].id && es[i].title == es0[i].title && es[i].document == es0[i].document
      ensures es[i].id in HitIds(init) && FirstIndex(hs, es[i].id) == FirstIndex(init, es[i].id)
    {
      assert es0[i].id in Ids(es0);
      FirstIndexPrefix(hs, es0[i].id);
    }
  }

  lemma {:induction false} KnownValues<V>(hs: seq<Hit<V>>, zero: V, update: (V, V) -> V, es0: seq<Entry<V>>, es: seq<Entry<V>>)
    requires hs != []
    requires ValuesSpec(hs[..|hs| - 1], zero, update, es0)
    requires hs[|hs| - 1].id in Ids(es0)
    requires |es| == |es0|
    requires forall i :: 0 <= i < |es0| ==> es[i] == (if es0[i].id == hs[|hs| - 1].id then Bump(es0[i], hs[|hs| - 1], update) else es0[i])
    ensures ValuesSpec(hs, zero, update, es)
  {
    forall i | 0 <= i < |es|
      ensures es[i].bm25 == Fold(zero, update, Values(hs, es[i].id, Bm25))
      ensures es[i].semantic == Fold(zero, update, Values(hs, es[i].id, Semantic))
    {
      FoldValuesSnoc(hs, es[i].id, Bm25, zero, update);
      FoldValuesSnoc(hs, es[i].id, Semantic, zero, update);
    }
  }

  /** The step of `CombineFacts` for a hit whose id is new: a fresh entry is appended. */
  lemma CombineNew<V>(hs: seq<Hit<V>>, zero: V, update: (V, V) -> V, es0: seq<Entry<V>>, es: seq<Entry<V>>)
    requires hs != []
    requires CombineSpec(hs[..|hs| - 1], zero, update, es0)
    requires hs[|hs| - 1].id !in Ids(es0)
    requires es == es0 + [Bump(Entry(hs[|hs| - 1].id, hs[|hs| - 1].title, hs[|hs| - 1].document, zero, zero), hs[|hs| - 1], update)]
    ensures CombineSpec(hs, zero, update, es)
  {
    NewIds(hs, zero, update, es0, es);
    NewFirst(hs, zero, update, es0, es);
    NewValues(hs, zero, update, es0, es);
  }

  lemma {:induction false} NewIds<V>(hs: seq<Hit<V>>, zero: V, update: (V, V) -> V, es0: seq<Entry<V>>, es: seq<Entry<V>>)
    requires hs != []
    requires IdsSpec(hs[..|hs| - 1], es0)
    requires hs[|hs| - 1].id !in Ids(es0)
    requires es == es0 + [Bump(Entry(hs[|hs| - 1].id, hs[|hs| - 1].title, hs[|hs| - 1].document, zero, zero), hs[|hs| - 1], update)]
    ensures IdsSpec(hs, es)
  {
    var h := hs[|hs| - 1];
    HitsSnoc(hs);
    forall x | x in Ids(es) ensures x in Ids(es0) + {h.id} {
      var i :| 0 <= i < |es| && es[i].id == x;
      if i < |es0| {
        assert es[i] == es0[i];
      }
    }
    forall x | x in Ids(es0) ensures x in Ids(es) {
      var i :| 0 <= i < |es0| && es0[i].id == x;
      assert es[i] == es0[i];
    }
    assert es[|es0|].id == h.id;
    forall i, j | 0 <= i < j < |es| ensures es[i].id != es[j].id {
      if j < |es0| {
        assert es[i] == es0[i] && es[j] == es0[j];
      } else {
        assert es[i] == es0[i] && es0[i].id in Ids(es0);
      }
    }
  }

  lemma {:induction false} NewFirst<V>(hs: seq<Hit<V>>, zero: V, update: (V, V) -> V, es0: seq<Entry<V>>, es: seq<Entry<V>>)
    requires hs != []
    requires IdsSpec(hs[..|hs| - 1], es0) && FirstSpec(hs[..|hs| - 1], es0) && OrderSpec(hs[..|hs| - 1], es0)
    requires hs[|hs| - 1].id !in Ids(es0)
    requires es == es0 + [Bump(Entry(hs[|hs| - 1].id, hs[|hs| - 1].title, hs[|hs| - 1].document, zero, zero), hs[|hs| - 1], update)]
    ensures FirstSpec(hs, es) && OrderSpec(hs, es)
  {
    var init, h := hs[..|hs| - 1], hs[|hs| - 1];
    HitsSnoc(hs);
    FirstIndexPrefix(hs, h.id);
    forall i | 0 <= i < |es0|
      ensures es[i] == es0[i] && es[i].id in HitIds(init) && FirstIndex(hs, es[i].id) == FirstIndex(init, es[i].id)
    {
      assert es0[i].id in Ids(es0);
      FirstIndexPrefix(hs, es0[i].id);
    }
    assert es[|es0|].id == h.id;
  }

  lemma {:induction false} NewValues<V>(hs: seq<Hit<V>>, zero: V, update: (V, V) -> V, es0: seq<Entry<V>>, es: seq<Entry<V>>)
    requires hs != []
    requires IdsSpec(hs[..|hs| - 1], es0) && ValuesSpec(hs[..|hs| - 1], zero, update, es0)
    requires hs[|hs| - 1].id !in Ids(es0)
    requires es == es0 + [Bump(Entry(hs[|hs| - 1].id, hs[|hs| - 1].title, hs[|hs| - 1].document, zero, zero), hs[|hs| - 1], update)]
    ensures ValuesSpec(hs, zero, update, es)
  {
    var init, h := hs[..|hs| - 1], hs[|hs| - 1];
    HitsSnoc(hs);
    ValuesAbsent(init, h.id, Bm25);
    ValuesAbsent(init, h.id, Semantic);
    forall i | 0 <= i < |es|
      ensures es[i].bm25 == Fold(zero, update, Values(hs, es[i].id, Bm25))
      ensures es[i].semantic == Fold(zero, update, Values(hs, es[i].id, Semantic))
    {
      FoldValuesSnoc(hs, es[i].id, Bm25, zero, update);
      FoldValuesSnoc(hs, es[i].id, Semantic, zero, update);
      if i < |es0| {
        assert es[i] == es0[i];
      }
    }
  }

  /** Appending a hit does not move the first appearance of an id already present; a
      new id first appears at the end. */
  lemma FirstIndexPrefix<V>(hs: seq<Hit<V>>, id: string)
    requires hs != [] && id in HitIds(hs)
    ensures id in HitIds(hs[..|hs| - 1]) ==> FirstIndex(hs, id) == FirstIndex(hs[..|hs| - 1], id)
    ensures id !in HitIds(hs[..|hs| - 1]) ==> FirstIndex(hs, id) == |hs| - 1
  {
  }

  /** The fold of one list's values for an id, after one more hit. */
  lemma {:induction false} FoldValuesSnoc<V>(hs: seq<Hit<V>>, id: string, side: Side, zero: V, update: (V, V) -> V)
    requires hs != []
    ensures var h := hs[|hs| - 1];
            var before := Fold(zero, update, Values(hs[..|hs| - 1], id, side));
            Fold(zero, update, Values(hs, id, side)) == (if h.id == id && h.side == side then update(before, h.value) else before)
  {
    var h := hs[|hs| - 1];
    var vs := Values(hs[..|hs| - 1], id, side);
    if h.id == id && h.side == side {
      assert Values(hs, id, side) == vs + [h.value];
      assert (vs + [h.value])[..|vs|] == vs;
    } else {
      assert Values(hs, id, side) == vs;
    }
  }

  /** Weighted fusion keeps the larger normalised score, strictly larger to replace. */
  function KeepGreater(current: real, candidate: real): real {
    if candidate > current then candidate else current
  }

  /** Reciprocal-rank fusion records the latest rank. */
  function Overwrite(current: nat, candidate: nat): nat {
    candidate
  }

  /** Keeping the greater from 0.0 gives, for an id and list, a value at least the
      value of every hit for them, and either 0.0 or the value of one of those hits. */
  lemma {:induction false} KeepGreaterFold(hs: seq<Hit<real>>, id: string, side: Side)
    ensures forall k :: 0 <= k < |hs| && hs[k].id == id && hs[k].side == side ==>
              hs[k].value <= Fold(0.0, KeepGreater, Values(hs, id, side))
    ensures || Fold(0.0, KeepGreater, Values(hs, id, side)) == 0.0
            || exists k :: 0 <= k < |hs| && hs[k].id == id && hs[k].side == side
                 && hs[k].value == Fold(0.0, KeepGreater, Values(hs, id, side))
    decreases |hs|
  {
    if hs != [] {
      var init := hs[..|hs| - 1];
      KeepGreaterFold(init, id, side);
      FoldValuesSnoc(hs, id, side, 0.0, KeepGreater);
      assert forall k :: 0 <= k < |init| ==> init[k] == hs[k];
    }
  }

  /** Overwriting from 0 leaves, for an id and list, 0 when no hit is for them. */
  lemma {:induction false} OverwriteFoldAbsent(hs: seq<Hit<nat>>, id: string, side: Side)
    requires forall k :: 0 <= k < |hs| ==> !(hs[k].id == id && hs[k].side == side)
    ensures Fold(0, Overwrite, Values(hs, id, side)) == 0
    decreases |hs|
  {
    if hs != [] {
      var init := hs[..|hs| - 1];
      assert forall k :: 0 <= k < |init| ==> init[k] == hs[k];
      OverwriteFoldAbsent(init, id, side);
      FoldValuesSnoc(hs, id, side, 0, Overwrite);
    }
  }

  /** Overwriting from 0 leaves, for an id and list, the value of the last hit for them. */
  lemma {:induction false} OverwriteFoldLast(hs: seq<Hit<nat>>, id: string, side: Side, k: nat)
    requires k < |hs| && hs[k].id == id && hs[k].side == side
    requires forall k' :: k < k' < |hs| ==> !(hs[k'].id == id && hs[k'].side == side)
    ensures Fold(0, Overwrite, Values(hs, id, side)) == hs[k].value
    decreases |hs|
  {
    var init := hs[..|hs| - 1];
    FoldValuesSnoc(hs, id, side, 0, Overwrite);
    if k < |init| {
      assert forall k' :: 0 <= k' < |init| ==> init[k'] == hs[k'];
      OverwriteFoldLast(init, id, side, k);
    }
  }

  /** The hits of one result list, each carrying its own value. */
  function Hits<V>(rs: seq<SearchResult>, values: seq<V>, side: Side): (hs: seq<Hit<V>>)
    requires |values| == |rs|
    ensures |hs| == |rs|
  {
    seq(|rs|, i requires 0 <= i < |rs| => Hit(side, rs[i].id, rs[i].title, rs[i].document, values[i]))
  }

  /** The ids of a result list. */
  function ResultIds(rs: seq<SearchResult>): set<string> {
    set i | 0 <= i < |rs| :: rs[i].id
  }

  /** Both lists as hits, keyword results first, as the two loops visit them. */
  function BothHits<V>(bm25: seq<SearchResult>, bm25Values: seq<V>, semantic: seq<SearchResult>, semanticValues: seq<V>): (hs: seq<Hit<V>>)
    requires |bm25Values| == |bm25| && |semanticValues| == |semantic|
    ensures |hs| == |bm25| + |semantic|
    ensures forall k :: 0 <= k < |bm25| ==> hs[k] == Hit(Bm25, bm25[k].id, bm25[k].title, bm25[k].document, bm25Values[k])
    ensures forall k :: 0 <= k < |semantic| ==>
              hs[|bm25| + k] == Hit(Semantic, semantic[k].id, semantic[k].title, semantic[k].document, semanticValues[k])
  {
    Hits(bm25, bm25Values, Bm25) + Hits(semantic, semanticValues, Semantic)
  }

  /** The position of the first result with `id`. */
  function FirstOccurrence(rs: seq<SearchResult>, id: string): (k: nat)
    requires id in ResultIds(rs)
    ensures k < |rs| && rs[k].id == id
    ensures forall k' :: 0 <= k' < k ==> rs[k'].id != id
  {
    if rs[0].id == id then 0
    else
      assert id in ResultIds(rs[1..]) by {
        var i :| 0 <= i < |rs| && rs[i].id == id;
        assert rs[1..][i - 1] == rs[i];
      }
      1 + FirstOccurrence(rs[1..], id)
  }

  /** Hits over the concatenated lists find an id first where the lists do. */
  lemma FirstOccurrenceIsFirstIndex<V>(all: seq<SearchResult>, hs: seq<Hit<V>>, id: string)
    requires |hs| == |all| && forall p :: 0 <= p < |all| ==> hs[p].id == all[p].id
    requires id in ResultIds(all)
    ensures id in HitIds(hs) && FirstIndex(hs, id) == FirstOccurrence(all, id)
  {
    var a := FirstOccurrence(all, id);
    assert hs[a].id == id;
    var b := FirstIndex(hs, id);
    assert all[b].id == id;
  }

  /** The keyword hits come first, then the semantic ones. */
  lemma BothHitsSides<V>(bm25: seq<SearchResult>, bm25Values: seq<V>, semantic: seq<SearchResult>, semanticValues: seq<V>)
    requires |bm25Values| == |bm25| && |semanticValues| == |semantic|
    ensures var hs := BothHits(bm25, bm25Values, semantic, semanticValues);
            forall k :: 0 <= k < |hs| ==> (hs[k].side == Bm25 <==> k < |bm25|)
  {
    var hs := BothHits(bm25, bm25Values, semantic, semanticValues);
    forall k | 0 <= k < |hs| ensures hs[k].side == Bm25 <==> k < |bm25| {
      if k >= |bm25| {
        assert hs[|bm25| + (k - |bm25|)].side == Semantic;
      }
    }
  }

  /** The entries of both fusion dicts: one per id of either list, in order of first
      appearance, keyword list first, with the title and document of that appearance. */
  lemma BothHitsEntries<V>(bm25: seq<SearchResult>, bm25Values: seq<V>, semantic: seq<SearchResult>, semanticValues: seq<V>, zero: V, update: (V, V) -> V)
    requires |bm25Values| == |bm25| && |semanticValues| == |semantic|
    ensures var es := Combine(BothHits(bm25, bm25Values, semantic, semanticValues), zero, update);
            var all := bm25 + semantic;
            && DistinctIds(es)
            && Ids(es) == ResultIds(bm25) + ResultIds(semantic)
            && (forall i :: 0 <= i < |es| ==> es[i].id in ResultIds(all))
            && (forall i :: 0 <= i < |es| ==>
                  all[FirstOccurrence(all, es[i].id)].title == es[i].title
                  && all[FirstOccurrence(all, es[i].id)].document == es[i].document)
            && (forall i, j :: 0 <= i < j < |es| ==> FirstOccurrence(all, es[i].id) < FirstOccurrence(all, es[j].id))
  {
    var hs := BothHits(bm25, bm25Values, semantic, semanticValues);
    var es := Combine(hs, zero, update);
    var all := bm25 + semantic;
    CombineFacts(hs, zero, update);
    BothHitsMatch(bm25, bm25Values, semantic, semanticValues);
    BothHitIds(bm25, bm25Values, semantic, semanticValues);
    ResultIdsAppend(bm25, semantic);
    forall i | 0 <= i < |es| ensures es[i].id in ResultIds(all) && FirstIndex(hs, es[i].id) == FirstOccurrence(all, es[i].id) {
      assert es[i].id in Ids(es);
      FirstOccurrenceIsFirstIndex(all, hs, es[i].id);
    }
  }

  /** Each hit carries the id, title and document of the result at its position. */
  lemma BothHitsMatch<V>(bm25: seq<SearchResult>, bm25Values: seq<V>, semantic: seq<SearchResult>, semanticValues: seq<V>)
    requires |bm25Values| == |bm25| && |semanticValues| == |semantic|
    ensures var hs, all := BothHits(bm25, bm25Values, semantic, semanticValues), bm25 + semantic;
            forall p :: 0 <= p < |all| ==> all[p].id == hs[p].id && all[p].title == hs[p].title && all[p].document == hs[p].document
  {
    var hs, all := BothHits(bm25, bm25Values, semantic, semanticValues), bm25 + semantic;
    forall p | |bm25| <= p < |all| ensures all[p] == semantic[p - |bm25|] && hs[p] == hs[|bm25| + (p - |bm25|)] {
    }
  }

  /** The hits' ids are the ids of both lists. */
  lemma BothHitIds<V>(bm25: seq<SearchResult>, bm25Values: seq<V>, semantic: seq<SearchResult>, semanticValues: seq<V>)
    requires |bm25Values| == |bm25| && |semanticValues| == |semantic|
    ensures HitIds(BothHits(bm25, bm25Values, semantic, semanticValues)) == ResultIds(bm25 + semantic)
  {
    var hs, all := BothHits(bm25, bm25Values, semantic, semanticValues), bm25 + semantic;
    BothHitsMatch(bm25, bm25Values, semantic, semanticValues);
    forall x | x in HitIds(hs) ensures x in ResultIds(all) {
      var p :| 0 <= p < |hs| && hs[p].id == x;
    }
    forall x | x in ResultIds(all) ensures x in HitIds(hs) {
      var p :| 0 <= p < |all| && all[p].id == x;
    }
  }

  /** The ids of two lists one after the other are the ids of each. */
  lemma ResultIdsAppend(a: seq<SearchResult>, b: seq<SearchResult>)
    ensures ResultIds(a + b) == ResultIds(a) + ResultIds(b)
  {
    var all := a + b;
    forall x | x in ResultIds(all) ensures x in ResultIds(a) + ResultIds(b) {
      var p :| 0 <= p < |all| && all[p].id == x;
      if p >= |a| {
        assert b[p - |a|].id == x;
      }
    }
    forall x | x in ResultIds(a) ensures x in ResultIds(all) {
      var p :| 0 <= p < |a| && a[p].id == x;
      assert all[p].id == x;
    }
    forall x | x in ResultIds(b) ensures x in ResultIds(all) {
      var p :| 0 <= p < |b| && b[p].id == x;
      assert all[|a| + p].id == x;
    }
  }

  // ------------------------------------------------------------ weighted fusion

  /** Normalised scores are never negative. */
  lemma NormalizedNonNegative(scores: seq<real>)
    ensures forall i :: 0 <= i < |scores| ==> 0.0 <= Normalized(scores)[i]
  {
    if scores != [] && MinOf(scores) != MaxOf(scores) {
      forall i | 0 <= i < |scores| ensures 0.0 <= Normalized(scores)[i] {
        assert scores[i] in scores;
        ScaleFacts(scores[i], MinOf(scores), MaxOf(scores));
      }
    }
  }

  /** The hits the two weighted-fusion loops read: each result with its normalised score. */
  function WeightedHits(bm25: seq<SearchResult>, semantic: seq<SearchResult>): seq<Hit<real>> {
    BothHits(bm25, Normalized(Scores(bm25)), semantic, Normalized(Scores(semantic)))
  }

  /** `combined_scores` after both loops of `combine_search_results`. */
  function WeightedEntries(bm25: seq<SearchResult>, semantic: seq<SearchResult>): seq<Entry<real>> {
    Combine(WeightedHits(bm25, semantic), 0.0, KeepGreater)
  }

  /** `v` is the largest of `vs` at the positions where `rs` has `id`, or 0.0 when `rs`
      has no result with `id`. */
  predicate MaxFor(rs: seq<SearchResult>, vs: seq<real>, id: string, v: real)
    requires |vs| == |rs|
  {
    if id in ResultIds(rs) then
      && (forall p :: 0 <= p < |rs| && rs[p].id == id ==> vs[p] <= v)
      && exists p :: 0 <= p < |rs| && rs[p].id == id && vs[p] == v
    else v == 0.0
  }

  /** One list's part of the hits, read back from the fold over that list's values. */
  lemma SideMax(hs: seq<Hit<real>>, rs: seq<SearchResult>, vs: seq<real>, offset: nat, side: Side, id: string)
    requires |vs| == |rs| && offset + |rs| <= |hs|
    requires forall p :: 0 <= p < |rs| ==> hs[offset + p].id == rs[p].id && hs[offset + p].side == side && hs[offset + p].value == vs[p]
    requires forall k :: 0 <= k < |hs| && hs[k].side == side ==> offset <= k < offset + |rs|
    requires forall p :: 0 <= p < |vs| ==> 0.0 <= vs[p]
    ensures MaxFor(rs, vs, id, Fold(0.0, KeepGreater, Values(hs, id, side)))
  {
    var v := Fold(0.0, KeepGreater, Values(hs, id, side));
    KeepGreaterFold(hs, id, side);
    if id in ResultIds(rs) {
      forall p | 0 <= p < |rs| && rs[p].id == id ensures vs[p] <= v {
        assert hs[offset + p].value == vs[p];
      }
      var p :| 0 <= p < |rs| && rs[p].id == id;
      assert vs[p] <= v;
      if v != 0.0 {
        var k :| 0 <= k < |hs| && hs[k].id == id && hs[k].side == side && hs[k].value == v;
        assert rs[k - offset].id == id && vs[k - offset] == v;
      }
    } else {
      forall k | 0 <= k < |hs| && hs[k].side == side ensures hs[k].id != id {
        assert hs[k].id == rs[k - offset].id;
      }
    }
  }

  /** The keyword list's fold, for any id, is its largest normalised score for it. */
  lemma WeightedBm25Side(bm25: seq<SearchResult>, semantic: seq<SearchResult>, id: string)
    ensures MaxFor(bm25, Normalized(Scores(bm25)), id, Fold(0.0, KeepGreater, Values(WeightedHits(bm25, semantic), id, Bm25)))
  {
    var nb, ns := Normalized(Scores(bm25)), Normalized(Scores(semantic));
    var hs := BothHits(bm25, nb, semantic, ns);
    NormalizedNonNegative(Scores(bm25));
    BothHitsSides(bm25, nb, semantic, ns);
    SideMax(hs, bm25, nb, 0, Bm25, id);
  }

  /** The semantic list's fold, for any id, is its largest normalised score for it. */
  lemma WeightedSemanticSide(bm25: seq<SearchResult>, semantic: seq<SearchResult>, id: string)
    ensures MaxFor(semantic, Normalized(Scores(semantic)), id, Fold(0.0, KeepGreater, Values(WeightedHits(bm25, semantic), id, Semantic)))
  {
    var nb, ns := Normalized(Scores(bm25)), Normalized(Scores(semantic));
    var hs := BothHits(bm25, nb, semantic, ns);
    NormalizedNonNegative(Scores(semantic));
    BothHitsSides(bm25, nb, semantic, ns);
    SideMax(hs, semantic, ns, |bm25|, Semantic, id);
  }

  /** Each side's component of an entry is that list's largest normalised score for the
      id, or 0.0 when the list does not have the id. */
  lemma WeightedValues(bm25: seq<SearchResult>, semantic: seq<SearchResult>)
    ensures var es := WeightedEntries(bm25, semantic);
            forall i :: 0 <= i < |es| ==>
              && MaxFor(bm25, Normalized(Scores(bm25)), es[i].id, es[i].bm25)
              && MaxFor(semantic, Normalized(Scores(semantic)), es[i].id, es[i].semantic)
  {
    var hs := WeightedHits(bm25, semantic);
    var es := WeightedEntries(bm25, semantic);
    CombineFacts(hs, 0.0, KeepGreater);
    forall i | 0 <= i < |es|
      ensures MaxFor(bm25, Normalized(Scores(bm25)), es[i].id, es[i].bm25)
      ensures MaxFor(semantic, Normalized(Scores(semantic)), es[i].id, es[i].semantic)
    {
      WeightedBm25Side(bm25, semantic, es[i].id);
      WeightedSemanticSide(bm25, semantic, es[i].id);
    }
  }

  /** `hybrid_score`: `alpha` weighs the keyword score against the semantic one, so for
      `alpha` in [0, 1] the result lies between the two. */
  function HybridScore(bm25Score: real, semanticScore: real, alpha: real): (r: real)
    ensures alpha == 1.0 ==> r == bm25Score
    ensures alpha == 0.0 ==> r == semanticScore
  {
    alpha * bm25Score + (1.0 - alpha) * semanticScore
  }

  /** For `alpha` in [0, 1] the hybrid score lies between the two scores. */
  lemma HybridScoreBetween(bm25Score: real, semanticScore: real, alpha: real)
    requires 0.0 <= alpha <= 1.0
    ensures bm25Score <= semanticScore ==> bm25Score <= HybridScore(bm25Score, semanticScore, alpha) <= semanticScore
    ensures semanticScore <= bm25Score ==> semanticScore <= HybridScore(bm25Score, semanticScore, alpha) <= bm25Score
  {
    var r := HybridScore(bm25Score, semanticScore, alpha);
    assert r == bm25Score + (1.0 - alpha) * (semanticScore - bm25Score);
    assert r == semanticScore - alpha * (semanticScore - bm25Score);
    if bm25Score <= semanticScore {
      MulNonNegative(1.0 - alpha, semanticScore - bm25Score);
      MulNonNegative(alpha, semanticScore - bm25Score);
    } else {
      MulNonNegative(1.0 - alpha, bm25Score - semanticScore);
      MulNonNegative(alpha, bm25Score - semanticScore);
    }
  }

  /** The product of two non-negative reals is non-negative. */
  lemma MulNonNegative(x: real, y: real)
    requires 0.0 <= x && 0.0 <= y
    ensures 0.0 <= x * y
  {
  }

  /** For `alpha` in [0, 1], a higher score on either side never lowers the hybrid score. */
  lemma HybridScoreMonotone(b1: real, s1: real, b2: real, s2: real, alpha: real)
    requires 0.0 <= alpha <= 1.0 && b1 <= b2 && s1 <= s2
    ensures HybridScore(b1, s1, alpha) <= HybridScore(b2, s2, alpha)
  {
    MulNonNegative(alpha, b2 - b1);
    MulNonNegative(1.0 - alpha, s2 - s1);
    assert HybridScore(b2, s2, alpha) - HybridScore(b1, s1, alpha) == alpha * (b2 - b1) + (1.0 - alpha) * (s2 - s1);
  }

  const Bm25ScoreKey := "bm25_score"
  const SemanticScoreKey := "semantic_score"

  /** The result `format_search_result` builds for one `combined_scores` entry. */
  function HybridResult(e: Entry<real>, alpha: real): SearchResult {
    SearchResult(e.id, e.title, e.document, HybridScore(e.bm25, e.semantic, alpha),
                 map[Bm25ScoreKey := e.bm25, SemanticScoreKey := e.semantic])
  }

  /** `hybrid_results` before sorting: one result per entry, in the dict's order. */
  function HybridResults(es: seq<Entry<real>>, alpha: real): (r: seq<SearchResult>)
    ensures |r| == |es| && forall i :: 0 <= i < |es| ==> r[i] == HybridResult(es[i], alpha)
  {
    seq(|es|, i requires 0 <= i < |es| => HybridResult(es[i], alpha))
  }

  function ResultScore(r: SearchResult): real { r.score }

  function ResultId(r: SearchResult): string { r.id }

  /** The value of `combine_search_results`. */
  function CombinedResults(bm25: seq<SearchResult>, semantic: seq<SearchResult>, alpha: real): seq<SearchResult> {
    SortDesc(HybridResults(WeightedEntries(bm25, semantic), alpha), ResultScore)
  }

  /** `x` is the fused result for its id: the title and document of the id's first
      appearance, keyword list first; per list the largest normalised score for the id,
      or 0.0; and the hybrid score of the two. */
  predicate WeightedResult(bm25: seq<SearchResult>, semantic: seq<SearchResult>, alpha: real, x: SearchResult) {
    var all := bm25 + semantic;
    && x.id in ResultIds(all)
    && all[FirstOccurrence(all, x.id)].title == x.title
    && all[FirstOccurrence(all, x.id)].document == x.document
    && x.meta.Keys == {Bm25ScoreKey, SemanticScoreKey}
    && MaxFor(bm25, Normalized(Scores(bm25)), x.id, x.meta[Bm25ScoreKey])
    && MaxFor(semantic, Normalized(Scores(semantic)), x.id, x.meta[SemanticScoreKey])
    && x.score == HybridScore(x.meta[Bm25ScoreKey], x.meta[SemanticScoreKey], alpha)
  }

  /** The entry a fused result is built from can be read back from its extras. */
  lemma HybridResultReadsBack(e: Entry<real>, alpha: real)
    ensures var x := HybridResult(e, alpha);
            && x.meta.Keys == {Bm25ScoreKey, SemanticScoreKey}
            && x.meta[Bm25ScoreKey] == e.bm25 && x.meta[SemanticScoreKey] == e.semantic
            && x.score == HybridScore(x.meta[Bm25ScoreKey], x.meta[SemanticScoreKey], alpha)
  {
    assert Bm25ScoreKey[0] != SemanticScoreKey[0];
  }

  /** The unsorted fused results: one per id of either list, in order of first
      appearance. */
  lemma HybridResultsIds(bm25: seq<SearchResult>, semantic: seq<SearchResult>, alpha: real)
    ensures var hr := HybridResults(WeightedEntries(bm25, semantic), alpha);
            var all := bm25 + semantic;
            && DistinctBy(hr, ResultId)
            && ResultIds(hr) == ResultIds(bm25) + ResultIds(semantic)
            && (forall i :: 0 <= i < |hr| ==> hr[i].id in ResultIds(all))
            && (forall i, j :: 0 <= i < j < |hr| ==> FirstOccurrence(all, hr[i].id) < FirstOccurrence(all, hr[j].id))
  {
    var es := WeightedEntries(bm25, semantic);
    var hr := HybridResults(es, alpha);
    BothHitsEntries(bm25, Normalized(Scores(bm25)), semantic, Normalized(Scores(semantic)), 0.0, KeepGreater);
    assert forall i :: 0 <= i < |hr| ==> hr[i].id == es[i].id;
    assert ResultIds(hr) == Ids(es);
  }

  /** Each unsorted fused result is the fused result for its id. */
  lemma HybridResultsEach(bm25: seq<SearchResult>, semantic: seq<SearchResult>, alpha: real)
    ensures var hr := HybridResults(WeightedEntries(bm25, semantic), alpha);
            forall i :: 0 <= i < |hr| ==> WeightedResult(bm25, semantic, alpha, hr[i])
  {
    var es := WeightedEntries(bm25, semantic);
    var hr := HybridResults(es, alpha);
    var all := bm25 + semantic;
    BothHitsEntries(bm25, Normalized(Scores(bm25)), semantic, Normalized(Scores(semantic)), 0.0, KeepGreater);
    WeightedValues(bm25, semantic);
    forall i | 0 <= i < |hr| ensures WeightedResult(bm25, semantic, alpha, hr[i]) {
      HybridResultReadsBack(es[i], alpha);
      assert es[i].id in ResultIds(all);
    }
  }

  /** Reordering a list keeps its set of ids. */
  lemma PermutationKeepsIds(a: seq<SearchResult>, b: seq<SearchResult>)
    requires multiset(a) == multiset(b)
    ensures ResultIds(a) == ResultIds(b)
  {
    forall x | x in ResultIds(a) ensures x in ResultIds(b) {
      var i :| 0 <= i < |a| && a[i].id == x;
      assert a[i] in multiset(b);
      var k :| 0 <= k < |b| && b[k] == a[i];
    }
    forall x | x in ResultIds(b) ensures x in ResultIds(a) {
      var k :| 0 <= k < |b| && b[k].id == x;
      assert b[k] in multiset(a);
      var i :| 0 <= i < |a| && a[i] == b[k];
    }
  }

  /** The sorted fused results are the unsorted ones, highest score first. */
  lemma CombinedResultsOrder(bm25: seq<SearchResult>, semantic: seq<SearchResult>, alpha: real)
    ensures var r := CombinedResults(bm25, semantic, alpha);
            && SortedDesc(r, ResultScore)
            && DistinctBy(r, ResultId)
            && ResultIds(r) == ResultIds(bm25) + ResultIds(semantic)
  {
    var hr := HybridResults(WeightedEntries(bm25, semantic), alpha);
    var r := CombinedResults(bm25, semantic, alpha);
    HybridResultsIds(bm25, semantic, alpha);
    SortDescIsSortedPermutation(hr, ResultScore);
    PermutationKeepsDistinctBy(hr, r, ResultId);
    PermutationKeepsIds(hr, r);
  }

  lemma CombinedResultsEach(bm25: seq<SearchResult>, semantic: seq<SearchResult>, alpha: real)
    ensures var r := CombinedResults(bm25, semantic, alpha);
            forall i :: 0 <= i < |r| ==> WeightedResult(bm25, semantic, alpha, r[i])
  {
    var hr := HybridResults(WeightedEntries(bm25, semantic), alpha);
    var r := CombinedResults(bm25, semantic, alpha);
    HybridResultsEach(bm25, semantic, alpha);
    SortDescIsSortedPermutation(hr, ResultScore);
    forall i | 0 <= i < |r| ensures WeightedResult(bm25, semantic, alpha, r[i]) {
      assert r[i] in multiset(hr);
      var k :| 0 <= k < |hr| && hr[k] == r[i];
    }
  }

  lemma CombinedResultsTies(bm25: seq<SearchResult>, semantic: seq<SearchResult>, alpha: real)
    ensures var r := CombinedResults(bm25, semantic, alpha);
            var all := bm25 + semantic;
            && (forall i :: 0 <= i < |r| ==> r[i].id in ResultIds(all))
            && (forall i, j :: 0 <= i < j < |r| && r[i].score == r[j].score ==>
                  FirstOccurrence(all, r[i].id) < FirstOccurrence(all, r[j].id))
  {
    var all := bm25 + semantic;
    var hr := HybridResults(WeightedEntries(bm25, semantic), alpha);
    var r := CombinedResults(bm25, semantic, alpha);
    HybridResultsIds(bm25, semantic, alpha);
    SortDescIsSortedPermutation(hr, ResultScore);
    SortDescKeepsTies(hr, ResultScore);
    forall i | 0 <= i < |r| ensures r[i].id in ResultIds(all) {
      assert r[i] in multiset(hr);
      var k :| 0 <= k < |hr| && hr[k] == r[i];
    }
    forall i, j | 0 <= i < j < |r| && r[i].score == r[j].score
      ensures FirstOccurrence(all, r[i].id) < FirstOccurrence(all, r[j].id)
    {
      assert ResultScore(r[i]) == ResultScore(r[j]);
      var i', j' :| 0 <= i' < j' < |hr| && hr[i'] == r[i] && hr[j'] == r[j];
    }
  }

  /** `combine_search_results` returns one fused result per id of either list, highest
      hybrid score first, with ties in order of first appearance, keyword list first. */
  lemma CombinedResultsFacts(bm25: seq<SearchResult>, semantic: seq<SearchResult>, alpha: real)
    ensures var r := CombinedResults(bm25, semantic, alpha);
            var all := bm25 + semantic;
            && SortedDesc(r, ResultScore)
            && DistinctBy(r, ResultId)
            && ResultIds(r) == ResultIds(bm25) + ResultIds(semantic)
            && (forall i :: 0 <= i < |r| ==> WeightedResult(bm25, semantic, alpha, r[i]))
            && (forall i :: 0 <= i < |r| ==> r[i].id in ResultIds(all))
            && (forall i, j :: 0 <= i < j < |r| && r[i].score == r[j].score ==>
                  FirstOccurrence(all, r[i].id) < FirstOccurrence(all, r[j].id))
  {
    CombinedResultsOrder(bm25, semantic, alpha);
    CombinedResultsEach(bm25, semantic, alpha);
    CombinedResultsTies(bm25, semantic, alpha);
  }

  /** Normalising twice is normalising once: the scores it reads are left as they are. */
  lemma WithNormalizedTwice(rs: seq<SearchResult>)
    ensures WithNormalized(WithNormalized(rs)) == WithNormalized(rs)
  {
    var w := WithNormalized(rs);
    WithNormalizedFacts(rs);
    assert Scores(w) == Scores(rs) by {
      forall i | 0 <= i < |rs| ensures w[i].score == rs[i].score {
        assert w[i].(meta := rs[i].meta) == rs[i];
      }
    }
    var ns := Normalized(Scores(rs));
    forall i | 0 <= i < |rs| ensures WithNormalized(w)[i] == w[i] {
      assert w[i].meta == rs[i].meta[NormalizedScoreKey := ns[i]];
      assert w[i].meta[NormalizedScoreKey := ns[i]] == w[i].meta;
    }
  }

  /** The hit a fusion loop reads from a normalised result. */
  function HitOf(r: SearchResult, side: Side): Hit<real>
    requires NormalizedScoreKey in r.meta
  {
    Hit(side, r.id, r.title, r.document, r.meta[NormalizedScoreKey])
  }

  /** `hs` holds, from `offset` on, the hit of each normalised result of `results`. */
  ghost predicate ScoreHitsAt(hs: seq<Hit<real>>, offset: nat, results: seq<SearchResult>, side: Side) {
    && offset + |results| <= |hs|
    && forall p :: 0 <= p < |results| ==> NormalizedScoreKey in results[p].meta && HitOf(results[p], side) == hs[offset + p]
  }

  /** After normalisation each result yields, in order, the hit the fusion reads. */
  lemma NormalizedHits(b0: seq<SearchResult>, s0: seq<SearchResult>, b: seq<SearchResult>, s: seq<SearchResult>)
    requires b == WithNormalized(b0) && s == WithNormalized(s0)
    ensures |WeightedHits(b0, s0)| == |b| + |s|
    ensures ScoreHitsAt(WeightedHits(b0, s0), 0, b, Bm25) && ScoreHitsAt(WeightedHits(b0, s0), |b|, s, Semantic)
  {
    var hs, nb, ns := WeightedHits(b0, s0), Normalized(Scores(b0)), Normalized(Scores(s0));
    forall p | 0 <= p < |b| ensures NormalizedScoreKey in b[p].meta && HitOf(b[p], Bm25) == hs[p] {
      assert b[p] == b0[p].(meta := b0[p].meta[NormalizedScoreKey := nb[p]]);
    }
    forall p | 0 <= p < |s| ensures NormalizedScoreKey in s[p].meta && HitOf(s[p], Semantic) == hs[|b| + p] {
      assert s[p] == s0[p].(meta := s0[p].meta[NormalizedScoreKey := ns[p]]);
    }
  }

  /** The position of the entry for `id` in the dict, or its length when there is none. */
  function EntryIndex<V>(es: seq<Entry<V>>, id: string): (k: nat)
    ensures k <= |es|
    ensures k < |es| ==> es[k].id == id
    ensures k == |es| ==> id !in Ids(es)
  {
    if es == [] then 0
    else if es[0].id == id then 0
    else
      var k := EntryIndex(es[1..], id);
      assert id !in Ids(es[1..]) ==> id !in Ids(es) by {
        if id in Ids(es) {
          var i :| 0 <= i < |es| && es[i].id == id;
          assert es[1..][i - 1] == es[i];
        }
      }
      1 + k
  }

  /** A fusion step as the loops write it: a zeroed entry is added for a new id, then
      the hit's list value of its entry is updated. */
  lemma AbsorbInPlace<V>(es: seq<Entry<V>>, h: Hit<V>, zero: V, update: (V, V) -> V)
    requires DistinctIds(es)
    ensures var k := EntryIndex(es, h.id);
            var es1 := if k == |es| then es + [Entry(h.id, h.title, h.document, zero, zero)] else es;
            k < |es1| && Absorb(es, h, zero, update) == es1[k := Bump(es1[k], h, update)]
  {
    var k := EntryIndex(es, h.id);
    AbsorbExact(es, h, zero, update);
    if k < |es| {
      assert h.id in Ids(es);
      forall i | 0 <= i < |es| && i != k ensures es[i].id != h.id {
        assert es[k].id == h.id;
      }
    }
  }

  /** The dict after one more hit. */
  lemma CombinePrefix<V>(hs: seq<Hit<V>>, i: nat, zero: V, update: (V, V) -> V)
    requires i < |hs|
    ensures DistinctIds(Combine(hs[..i], zero, update))
    ensures Combine(hs[..i + 1], zero, update) == Absorb(Combine(hs[..i], zero, update), hs[i], zero, update)
  {
    CombineFacts(hs[..i], zero, update);
    assert hs[..i + 1][..i] == hs[..i];
  }

  /** The body of the two loops of `combine_search_results` that fill
      `combined_scores`: a zeroed entry for a new id, then the result's list score of
      that entry is raised to its normalised score when that is strictly greater. */
  method AbsorbResult(combinedScores: seq<Entry<real>>, result: SearchResult, side: Side) returns (es: seq<Entry<real>>)
    requires DistinctIds(combinedScores) && NormalizedScoreKey in result.meta
    ensures es == Absorb(combinedScores, HitOf(result, side), 0.0, KeepGreater)
  {
    var score := result.meta[NormalizedScoreKey];
    AbsorbInPlace(combinedScores, HitOf(result, side), 0.0, KeepGreater);
    es := combinedScores;
    var k := EntryIndex(es, result.id);
    if k == |es| {
      es := es + [Entry(result.id, result.title, result.document, 0.0, 0.0)];
    }
    if side == Bm25 {
      if score > es[k].bm25 {
        es := es[k := es[k].(bm25 := score)];
      } else {
        assert es[k := es[k]] == es;
      }
    } else {
      if score > es[k].semantic {
        es := es[k := es[k].(semantic := score)];
      } else {
        assert es[k := es[k]] == es;
      }
    }
  }

  /** The two loops of `combine_search_results` that fill `combined_scores` from the
      normalised keyword list and then the normalised semantic list, which read as `hs`. */
  method FillCombinedScores(bm25: seq<SearchResult>, semantic: seq<SearchResult>, ghost hs: seq<Hit<real>>)
    returns (combinedScores: seq<Entry<real>>)
    requires |hs| == |bm25| + |semantic|
    requires ScoreHitsAt(hs, 0, bm25, Bm25) && ScoreHitsAt(hs, |bm25|, semantic, Semantic)
    ensures combinedScores == Combine(hs, 0.0, KeepGreater)
  {
    assert hs[..0] == [];
    combinedScores := AbsorbResults([], bm25, Bm25, hs, 0);
    combinedScores := AbsorbResults(combinedScores, semantic, Semantic, hs, |bm25|);
    assert hs[..|bm25| + |semantic|] == hs;
  }

  /** One of those loops: each normalised result of `results`, whose hits `hs` holds
      from `offset` on, is absorbed. */
  method AbsorbResults(combined0: seq<Entry<real>>, results: seq<SearchResult>, side: Side, ghost hs: seq<Hit<real>>, offset: nat)
    returns (combinedScores: seq<Entry<real>>)
    requires ScoreHitsAt(hs, offset, results, side)
    requires combined0 == Combine(hs[..offset], 0.0, KeepGreater)
    ensures combinedScores == Combine(hs[..offset + |results|], 0.0, KeepGreater)
  {
    combinedScores := combined0;
    for i := 0 to |results|
      invariant combinedScores == Combine(hs[..offset + i], 0.0, KeepGreater)
    {
      ScoreStep(hs, offset, results, side, i);
      combinedScores := AbsorbResult(combinedScores, results[i], side);
    }
  }

  /** One step of that loop: the dict so far has distinct ids, and the next hit is the
      next result's. */
  lemma ScoreStep(hs: seq<Hit<real>>, offset: nat, results: seq<SearchResult>, side: Side, i: nat)
    requires ScoreHitsAt(hs, offset, results, side) && i < |results|
    ensures NormalizedScoreKey in results[i].meta
    ensures DistinctIds(Combine(hs[..offset + i], 0.0, KeepGreater))
    ensures Combine(hs[..offset + i + 1], 0.0, KeepGreater)
            == Absorb(Combine(hs[..offset + i], 0.0, KeepGreater), HitOf(results[i], side), 0.0, KeepGreater)
  {
    CombinePrefix(hs, offset + i, 0.0, KeepGreater);
  }

  /** The loop of `combine_search_results` that formats one fused result per entry of
      `combined_scores`, in the dict's order. */
  method FormatHybridResults(combinedScores: seq<Entry<real>>, alpha: real) returns (hybridResults: seq<SearchResult>)
    ensures hybridResults == HybridResults(combinedScores, alpha)
  {
    hybridResults := [];
    for i := 0 to |combinedScores|
      invariant hybridResults == HybridResults(combinedScores[..i], alpha)
    {
      var data := combinedScores[i];
      var scoreValue := HybridScore(data.bm25, data.semantic, alpha);
      var result := SearchResult(data.id, data.title, data.document, scoreValue,
                                 map[Bm25ScoreKey := data.bm25, SemanticScoreKey := data.semantic]);
      hybridResults := hybridResults + [result];
    }
    assert combinedScores[..|combinedScores|] == combinedScores;
  }

  /** `combine_search_results`: normalises both lists in place, fills `combined_scores`
      from the keyword list and then the semantic list, and sorts the fused results. */
  method CombineSearchResults(bm25: array<SearchResult>, semantic: array<SearchResult>, alpha: real) returns (r: seq<SearchResult>)
    modifies bm25, semantic
    ensures bm25[..] == WithNormalized(old(bm25[..]))
    ensures semantic[..] == WithNormalized(old(semantic[..]))
    ensures r == CombinedResults(old(bm25[..]), old(semantic[..]), alpha)
  {
    ghost var b0, s0 := bm25[..], semantic[..];
    NormalizeSearchResults(bm25);
    NormalizeSearchResults(semantic);
    if bm25 == semantic {
      WithNormalizedTwice(b0);
    }
    var bm25Normalized, semanticNormalized := bm25[..], semantic[..];
    NormalizedHits(b0, s0, bm25Normalized, semanticNormalized);
    var combinedScores := FillCombinedScores(bm25Normalized, semanticNormalized, WeightedHits(b0, s0));
    var hybridResults := FormatHybridResults(combinedScores, alpha);
    r := SortDesc(hybridResults, ResultScore);
  }

  // ------------------------------------------------------------ reciprocal-rank fusion

  /** `rrf_score`: 1 / (rank + k). Python raises ZeroDivisionError when rank + k is 0,
      which callers must rule out. The score is positive exactly when rank + k is. */
  function RrfScore(rank: int, k: int): (r: real)
    requires rank + k != 0
    ensures r > 0.0 <==> rank + k > 0
  {
    1.0 / (rank + k) as real
  }

  /** A better (smaller) rank never scores less. */
  lemma RrfScoreOrder(rank1: int, rank2: int, k: int)
    requires 0 < rank1 + k <= rank2 + k
    ensures RrfScore(rank2, k) <= RrfScore(rank1, k)
  {
    var a, b := (rank1 + k) as real, (rank2 + k) as real;
    var s1, s2 := RrfScore(rank1, k), RrfScore(rank2, k);
    assert s1 * a == 1.0 && s2 * b == 1.0;
    assert s1 - s2 == (b - a) * s1 * s2;
    assert (b - a) * s1 >= 0.0;
    assert (b - a) * s1 * s2 >= 0.0;
  }

  /** `enumerate(results, 1)`: the 1-based rank of each position. */
  function Ranks(n: nat): (r: seq<nat>)
    ensures |r| == n && forall i :: 0 <= i < n ==> r[i] == i + 1
  {
    seq(n, i => i + 1)
  }

  /** The hits the two rank loops read: each result with its 1-based rank in its list. */
  function RrfHits(bm25: seq<SearchResult>, semantic: seq<SearchResult>): seq<Hit<nat>> {
    BothHits(bm25, Ranks(|bm25|), semantic, Ranks(|semantic|))
  }

  /** `combined` after both loops of `rrf_combine_search_results`. */
  function RrfEntries(bm25: seq<SearchResult>, semantic: seq<SearchResult>): seq<Entry<nat>> {
    Combine(RrfHits(bm25, semantic), 0, Overwrite)
  }

  /** The position of the last result with `id`. */
  function LastOccurrence(rs: seq<SearchResult>, id: string): (k: nat)
    requires id in ResultIds(rs)
    ensures k < |rs| && rs[k].id == id
    ensures forall k' :: k < k' < |rs| ==> rs[k'].id != id
  {
    var init := rs[..|rs| - 1];
    if rs[|rs| - 1].id == id then |rs| - 1
    else
      assert id in ResultIds(init) by {
        var i :| 0 <= i < |rs| && rs[i].id == id;
        assert init[i] == rs[i];
      }
      var k := LastOccurrence(init, id);
      assert forall k' :: k < k' < |init| ==> init[k'] == rs[k'];
      k
  }

  /** The rank recorded for `id` from `rs`: the 1-based position of its last
      occurrence, or 0 when `rs` lacks it. */
  function RankOf(rs: seq<SearchResult>, id: string): (rank: nat)
    ensures rank <= |rs|
  {
    if id in ResultIds(rs) then LastOccurrence(rs, id) + 1 else 0
  }

  /** One list's part of the rank hits, read back from the fold over that list's ranks. */
  lemma RankSide(hs: seq<Hit<nat>>, rs: seq<SearchResult>, offset: nat, side: Side, id: string)
    requires offset + |rs| <= |hs|
    requires forall p :: 0 <= p < |rs| ==> hs[offset + p].id == rs[p].id && hs[offset + p].side == side && hs[offset + p].value == p + 1
    requires forall k :: 0 <= k < |hs| && hs[k].side == side ==> offset <= k < offset + |rs|
    ensures Fold(0, Overwrite, Values(hs, id, side)) == RankOf(rs, id)
  {
    if id in ResultIds(rs) {
      var p := LastOccurrence(rs, id);
      forall k' | offset + p < k' < |hs| ensures !(hs[k'].id == id && hs[k'].side == side) {
        if hs[k'].side == side {
          assert hs[k'].id == rs[k' - offset].id;
        }
      }
      assert hs[offset + p].value == p + 1;
      OverwriteFoldLast(hs, id, side, offset + p);
    } else {
      forall k | 0 <= k < |hs| ensures !(hs[k].id == id && hs[k].side == side) {
        if hs[k].side == side {
          assert hs[k].id == rs[k - offset].id;
        }
      }
      OverwriteFoldAbsent(hs, id, side);
    }
  }

  lemma RrfBm25Side(bm25: seq<SearchResult>, semantic: seq<SearchResult>, id: string)
    ensures Fold(0, Overwrite, Values(RrfHits(bm25, semantic), id, Bm25)) == RankOf(bm25, id)
  {
    var hs := BothHits(bm25, Ranks(|bm25|), semantic, Ranks(|semantic|));
    assert forall k :: 0 <= k < |hs| && hs[k].side == Bm25 ==> 0 <= k < |bm25| by {
      BothHitsSides(bm25, Ranks(|bm25|), semantic, Ranks(|semantic|));
    }
    assert forall p :: 0 <= p < |bm25| ==> hs[0 + p].id == bm25[p].id && hs[0 + p].side == Bm25 && hs[0 + p].value == p + 1;
    RankSide(hs, bm25, 0, Bm25, id);
  }

  lemma RrfSemanticSide(bm25: seq<SearchResult>, semantic: seq<SearchResult>, id: string)
    ensures Fold(0, Overwrite, Values(RrfHits(bm25, semantic), id, Semantic)) == RankOf(semantic, id)
  {
    var hs := BothHits(bm25, Ranks(|bm25|), semantic, Ranks(|semantic|));
    BothHitsSides(bm25, Ranks(|bm25|), semantic, Ranks(|semantic|));
    forall p | 0 <= p < |semantic|
      ensures hs[|bm25| + p].id == semantic[p].id && hs[|bm25| + p].side == Semantic && hs[|bm25| + p].value == p + 1
    {
    }
    RankSide(hs, semantic, |bm25|, Semantic, id);
  }

  /** Each entry records, per list, the 1-based position of the id's last occurrence
      there, or 0 when the list lacks the id. */
  lemma RrfValues(bm25: seq<SearchResult>, semantic: seq<SearchResult>)
    ensures var es := RrfEntries(bm25, semantic);
            forall i :: 0 <= i < |es| ==> es[i].bm25 == RankOf(bm25, es[i].id) && es[i].semantic == RankOf(semantic, es[i].id)
  {
    var es := RrfEntries(bm25, semantic);
    CombineFacts(RrfHits(bm25, semantic), 0, Overwrite);
    forall i | 0 <= i < |es|
      ensures es[i].bm25 == RankOf(bm25, es[i].id) && es[i].semantic == RankOf(semantic, es[i].id)
    {
      RrfBm25Side(bm25, semantic, es[i].id);
      RrfSemanticSide(bm25, semantic, es[i].id);
    }
  }

  /** `total_rrf` for one entry of `combined`: the reciprocal-rank score of each rank
      that is not 0, in the order the source adds them; ZeroDivisionError when a
      non-zero rank plus k is 0. */
  function RrfTotal(e: Entry<nat>, k: int): (r: Result<real>)
    ensures r.Err? ==> r.error == ZeroDivisionError
    ensures k >= 0 ==> r.Ok?
    ensures r.Ok? && e.bm25 == 0 && e.semantic == 0 ==> r.value == 0.0
    ensures k >= 0 && (e.bm25 != 0 || e.semantic != 0) ==> r.value > 0.0
  {
    if e.bm25 != 0 && e.bm25 + k == 0 then Err(ZeroDivisionError)
    else
      var t := if e.bm25 != 0 then RrfScore(e.bm25, k) else 0.0;
      if e.semantic != 0 && e.semantic + k == 0 then Err(ZeroDivisionError)
      else Ok(t + if e.semantic != 0 then RrfScore(e.semantic, k) else 0.0)
  }

  const Bm25RankKey := "bm25_rank"
  const SemanticRankKey := "semantic_rank"

  /** The result `format_search_result` builds for one `combined` entry and its total. */
  function RrfResult(e: Entry<nat>, total: real): SearchResult {
    SearchResult(e.id, e.title, e.document, total,
                 map[Bm25RankKey := e.bm25 as real, SemanticRankKey := e.semantic as real])
  }

  /** One fused result per entry, in the dict's order, as the loop would append them;
      the first total that fails is the error. */
  function RrfResults(es: seq<Entry<nat>>, k: int): Result<seq<SearchResult>> {
    if es == [] then Ok([])
    else
      match RrfResults(es[..|es| - 1], k)
      case Err(err) => Err(err)
      case Ok(rs) =>
        match RrfTotal(es[|es| - 1], k)
        case Err(err) => Err(err)
        case Ok(t) => Ok(rs + [RrfResult(es[|es| - 1], t)])
  }

  /** With every total defined, there is one fused result per entry, in order. */
  lemma {:induction false} RrfResultsOk(es: seq<Entry<nat>>, k: int)
    requires forall i :: 0 <= i < |es| ==> RrfTotal(es[i], k).Ok?
    ensures RrfResults(es, k).Ok?
    ensures |RrfResults(es, k).value| == |es|
    ensures forall i :: 0 <= i < |es| ==> RrfResults(es, k).value[i] == RrfResult(es[i], RrfTotal(es[i], k).value)
    decreases |es|
  {
    if es != [] {
      var init := es[..|es| - 1];
      assert forall i :: 0 <= i < |init| ==> init[i] == es[i];
      RrfResultsOk(init, k);
    }
  }

  /** A total that fails after totals that did not makes the whole list fail. */
  lemma {:induction false} RrfResultsFirstError(es: seq<Entry<nat>>, k: int, j: nat)
    requires j < |es|
    requires RrfResults(es[..j], k).Ok? && RrfTotal(es[j], k).Err?
    ensures RrfResults(es, k) == Err(ZeroDivisionError)
    decreases |es|
  {
    if j == |es| - 1 {
      assert es[..|es| - 1] == es[..j];
    } else {
      var init := es[..|es| - 1];
      assert init[..j] == es[..j] && init[j] == es[j];
      RrfResultsFirstError(init, k, j);
    }
  }

  /** What `rrf_combine_search_results` evidently means to return: the fused results,
      highest total first. */
  function RrfFused(bm25: seq<SearchResult>, semantic: seq<SearchResult>, k: int): Result<seq<SearchResult>> {
    match RrfResults(RrfEntries(bm25, semantic), k)
    case Err(err) => Err(err)
    case Ok(rs) => Ok(SortDesc(rs, ResultScore))
  }

  /** What `rrf_combine_search_results` returns as written: the fused results are built
      but never appended, so the sorted list is always empty, unless a total fails. */
  function RrfAsWritten(bm25: seq<SearchResult>, semantic: seq<SearchResult>, k: int): Result<seq<SearchResult>> {
    var es := RrfEntries(bm25, semantic);
    if exists i :: 0 <= i < |es| && RrfTotal(es[i], k).Err? then Err(ZeroDivisionError) else Ok([])
  }

  /** The body of the two loops of `rrf_combine_search_results`: a zeroed entry for a
      new id, then the rank of the result's list is overwritten. */
  method AbsorbRank(combined: seq<Entry<nat>>, result: SearchResult, side: Side, rank: nat) returns (es: seq<Entry<nat>>)
    requires DistinctIds(combined)
    ensures es == Absorb(combined, Hit(side, result.id, result.title, result.document, rank), 0, Overwrite)
  {
    AbsorbInPlace(combined, Hit(side, result.id, result.title, result.document, rank), 0, Overwrite);
    es := combined;
    var k := EntryIndex(es, result.id);
    if k == |es| {
      es := es + [Entry(result.id, result.title, result.document, 0, 0)];
    }
    if side == Bm25 {
      es := es[k := es[k].(bm25 := rank)];
    } else {
      es := es[k := es[k].(semantic := rank)];
    }
  }

  /** `hs` holds, from `offset` on, each result of `results` with its 1-based rank. */
  ghost predicate RankHitsAt(hs: seq<Hit<nat>>, offset: nat, results: seq<SearchResult>, side: Side) {
    && offset + |results| <= |hs|
    && forall p :: 0 <= p < |results| ==>
         hs[offset + p] == Hit(side, results[p].id, results[p].title, results[p].document, p + 1)
  }

  /** The rank hits are the keyword results with their ranks, then the semantic ones. */
  lemma RrfHitsAt(bm25: seq<SearchResult>, semantic: seq<SearchResult>)
    ensures |RrfHits(bm25, semantic)| == |bm25| + |semantic|
    ensures RankHitsAt(RrfHits(bm25, semantic), 0, bm25, Bm25)
    ensures RankHitsAt(RrfHits(bm25, semantic), |bm25|, semantic, Semantic)
  {
  }

  /** The two loops of `rrf_combine_search_results` that fill `combined`, over the
      lists read as the hits `hs`. */
  method FillRanks(bm25: seq<SearchResult>, semantic: seq<SearchResult>, ghost hs: seq<Hit<nat>>) returns (combined: seq<Entry<nat>>)
    requires |hs| == |bm25| + |semantic|
    requires RankHitsAt(hs, 0, bm25, Bm25) && RankHitsAt(hs, |bm25|, semantic, Semantic)
    ensures combined == Combine(hs, 0, Overwrite)
  {
    assert hs[..0] == [];
    combined := AbsorbRanks([], bm25, Bm25, hs, 0);
    combined := AbsorbRanks(combined, semantic, Semantic, hs, |bm25|);
    assert hs[..|bm25| + |semantic|] == hs;
  }

  /** One of those loops: each result of `results`, which `hs` holds from `offset` on,
      is absorbed with its 1-based rank. */
  method AbsorbRanks(combined0: seq<Entry<nat>>, results: seq<SearchResult>, side: Side, ghost hs: seq<Hit<nat>>, offset: nat)
    returns (combined: seq<Entry<nat>>)
    requires RankHitsAt(hs, offset, results, side)
    requires combined0 == Combine(hs[..offset], 0, Overwrite)
    ensures combined == Combine(hs[..offset + |results|], 0, Overwrite)
  {
    combined := combined0;
    for i := 0 to |results|
      invariant combined == Combine(hs[..offset + i], 0, Overwrite)
    {
      RankStep(hs, offset, results, side, i);
      var rank := i + 1;
      combined := AbsorbRank(combined, results[i], side, rank);
    }
  }

  /** One step of that loop: the dict so far has distinct ids, and the next hit is the
      next result with its rank. */
  lemma RankStep(hs: seq<Hit<nat>>, offset: nat, results: seq<SearchResult>, side: Side, i: nat)
    requires RankHitsAt(hs, offset, results, side) && i < |results|
    ensures DistinctIds(Combine(hs[..offset + i], 0, Overwrite))
    ensures Combine(hs[..offset + i + 1], 0, Overwrite)
            == Absorb(Combine(hs[..offset + i], 0, Overwrite), Hit(side, results[i].id, results[i].title, results[i].document, i + 1), 0, Overwrite)
  {
    CombinePrefix(hs, offset + i, 0, Overwrite);
  }

  /** `rrf_combine_search_results` as written: each fused result is built and then
      dropped, so the call returns an empty list (or the ZeroDivisionError of a total). */
  method RrfCombineSearchResults(bm25: seq<SearchResult>, semantic: seq<SearchResult>, k: int) returns (r: Result<seq<SearchResult>>)
    ensures r == RrfAsWritten(bm25, semantic, k)
  {
    RrfHitsAt(bm25, semantic);
    var combined := FillRanks(bm25, semantic, RrfHits(bm25, semantic));
    assert combined == RrfEntries(bm25, semantic);
    var hybridResults: seq<SearchResult> := [];
    for i := 0 to |combined|
      invariant forall j :: 0 <= j < i ==> RrfTotal(combined[j], k).Ok?
    {
      var data := combined[i];
      var totalRrf := 0.0;
      if data.bm25 != 0 {
        if data.bm25 + k == 0 {
          assert RrfTotal(combined[i], k).Err?;
          return Err(ZeroDivisionError);
        }
        totalRrf := totalRrf + RrfScore(data.bm25, k);
      }
      if data.semantic != 0 {
        if data.semantic + k == 0 {
          assert RrfTotal(combined[i], k).Err?;
          return Err(ZeroDivisionError);
        }
        totalRrf := totalRrf + RrfScore(data.semantic, k);
      }
      var result := RrfResult(data, totalRrf);
    }
    r := Ok(SortDesc(hybridResults, ResultScore));
  }

  /** `rrf_combine_search_results` with the fused result appended, as evidently intended. */
  method RrfFuse(bm25: seq<SearchResult>, semantic: seq<SearchResult>, k: int) returns (r: Result<seq<SearchResult>>)
    ensures r == RrfFused(bm25, semantic, k)
  {
    RrfHitsAt(bm25, semantic);
    var combined := FillRanks(bm25, semantic, RrfHits(bm25, semantic));
    var hybridResults := TotalRanks(combined, k);
    if hybridResults.Err? {
      return Err(hybridResults.error);
    }
    r := Ok(SortDesc(hybridResults.value, ResultScore));
  }

  /** The corrected loop over `combined`: each entry's `total_rrf` becomes a fused
      result appended in dict order; the first failing total stops the call. */
  method TotalRanks(combined: seq<Entry<nat>>, k: int) returns (r: Result<seq<SearchResult>>)
    ensures r == RrfResults(combined, k)
  {
    var hybridResults: seq<SearchResult> := [];
    for i := 0 to |combined|
      invariant RrfResults(combined[..i], k) == Ok(hybridResults)
    {
      var data := combined[i];
      assert combined[..i + 1][..i] == combined[..i];
      var totalRrf := 0.0;
      if data.bm25 != 0 {
        if data.bm25 + k == 0 {
          RrfResultsFirstError(combined, k, i);
          return Err(ZeroDivisionError);
        }
        totalRrf := totalRrf + RrfScore(data.bm25, k);
      }
      if data.semantic != 0 {
        if data.semantic + k == 0 {
          RrfResultsFirstError(combined, k, i);
          return Err(ZeroDivisionError);
        }
        totalRrf := totalRrf + RrfScore(data.semantic, k);
      }
      var result := RrfResult(data, totalRrf);
      hybridResults := hybridResults + [result];
    }
    assert combined[..|combined|] == combined;
    r := Ok(hybridResults);
  }

  /** For k >= 0 the as-written call returns an empty list, whatever the inputs. */
  lemma RrfAsWrittenIsEmpty(bm25: seq<SearchResult>, semantic: seq<SearchResult>, k: int)
    requires k >= 0
    ensures RrfAsWritten(bm25, semantic, k) == Ok([])
  {
  }

  /** The dropped append shown on one keyword result with k = 60: the call returns
      nothing, while the intended fusion holds that result. */
  lemma RrfDropsResults()
    ensures var bm25 := [SearchResult("1", "Alien", "", 1.0, map[])];
            && RrfAsWritten(bm25, [], 60) == Ok([])
            && RrfFused(bm25, [], 60).Ok? && |RrfFused(bm25, [], 60).value| == 1
  {
    var bm25 := [SearchResult("1", "Alien", "", 1.0, map[])];
    var hs := RrfHits(bm25, []);
    assert hs == [Hit(Bm25, "1", "Alien", "", 1)];
    assert hs[..0] == [];
    assert RrfEntries(bm25, []) == [Entry("1", "Alien", "", 1, 0)];
    var es, hr := RrfUnsorted(bm25, [], 60);
    SortDescIsSortedPermutation(hr, ResultScore);
    assert |SortDesc(hr, ResultScore)| == |multiset(hr)| == 1;
  }

  /** One part of `total_rrf`: nothing for rank 0, otherwise the rank's score. */
  function RrfPart(rank: nat, k: int): real
    requires k >= 0
  {
    if rank == 0 then 0.0 else RrfScore(rank, k)
  }

  /** For k >= 0 the total is the sum of the two parts. */
  lemma RrfTotalValue(e: Entry<nat>, k: int)
    requires k >= 0
    ensures RrfTotal(e, k) == Ok(RrfPart(e.bm25, k) + RrfPart(e.semantic, k))
  {
  }

  /** `x` is the fused result for its id: the title and document of the id's first
      appearance, keyword list first; per list the 1-based position of the id's last
      occurrence, or 0; and as score the sum of the reciprocal-rank parts. */
  predicate RrfFusedResult(bm25: seq<SearchResult>, semantic: seq<SearchResult>, k: int, x: SearchResult)
    requires k >= 0
  {
    var all := bm25 + semantic;
    && x.id in ResultIds(all)
    && all[FirstOccurrence(all, x.id)].title == x.title
    && all[FirstOccurrence(all, x.id)].document == x.document
    && x.meta.Keys == {Bm25RankKey, SemanticRankKey}
    && x.meta[Bm25RankKey] == RankOf(bm25, x.id) as real
    && x.meta[SemanticRankKey] == RankOf(semantic, x.id) as real
    && x.score == RrfPart(RankOf(bm25, x.id), k) + RrfPart(RankOf(semantic, x.id), k)
  }

  /** Sorting fused results, one per entry with the entry's id: highest score first,
      distinct ids, the entries' ids, each result one of the unsorted ones. */
  lemma SortedFusionOrder<V>(es: seq<Entry<V>>, hr: seq<SearchResult>)
    requires |hr| == |es| && (forall i :: 0 <= i < |es| ==> hr[i].id == es[i].id) && DistinctIds(es)
    ensures var r := SortDesc(hr, ResultScore);
            && SortedDesc(r, ResultScore)
            && DistinctBy(r, ResultId)
            && ResultIds(r) == Ids(es)
            && forall i :: 0 <= i < |r| ==> exists j :: 0 <= j < |hr| && r[i] == hr[j]
  {
    var r := SortDesc(hr, ResultScore);
    SortDescIsSortedPermutation(hr, ResultScore);
    assert DistinctBy(hr, ResultId);
    PermutationKeepsDistinctBy(hr, r, ResultId);
    assert ResultIds(hr) == Ids(es);
    PermutationKeepsIds(hr, r);
    forall i | 0 <= i < |r| ensures exists j :: 0 <= j < |hr| && r[i] == hr[j] {
      assert r[i] in multiset(hr);
    }
  }

  /** Sorting fused results keeps ties in the entries' order of first appearance. */
  lemma SortedFusionTies<V>(es: seq<Entry<V>>, hr: seq<SearchResult>, all: seq<SearchResult>)
    requires |hr| == |es| && forall i :: 0 <= i < |es| ==> hr[i].id == es[i].id
    requires forall i :: 0 <= i < |es| ==> es[i].id in ResultIds(all)
    requires forall i, j :: 0 <= i < j < |es| ==> FirstOccurrence(all, es[i].id) < FirstOccurrence(all, es[j].id)
    ensures var r := SortDesc(hr, ResultScore);
            && (forall i :: 0 <= i < |r| ==> r[i].id in ResultIds(all))
            && forall i, j :: 0 <= i < j < |r| && r[i].score == r[j].score ==>
                 FirstOccurrence(all, r[i].id) < FirstOccurrence(all, r[j].id)
  {
    SortedIdsIn(hr, all);
    var r := SortDesc(hr, ResultScore);
    SortDescKeepsTies(hr, ResultScore);
    forall i, j | 0 <= i < j < |r| && r[i].score == r[j].score
      ensures FirstOccurrence(all, r[i].id) < FirstOccurrence(all, r[j].id)
    {
      assert ResultScore(r[i]) == ResultScore(r[j]);
      var i', j' :| 0 <= i' < j' < |hr| && hr[i'] == r[i] && hr[j'] == r[j];
    }
  }

  /** Sorting keeps every id among the ids of `all`. */
  lemma SortedIdsIn(hr: seq<SearchResult>, all: seq<SearchResult>)
    requires forall i :: 0 <= i < |hr| ==> hr[i].id in ResultIds(all)
    ensures var r := SortDesc(hr, ResultScore); forall i :: 0 <= i < |r| ==> r[i].id in ResultIds(all)
  {
    var r := SortDesc(hr, ResultScore);
    SortDescIsSortedPermutation(hr, ResultScore);
    forall i | 0 <= i < |r| ensures r[i].id in ResultIds(all) {
      assert r[i] in multiset(hr);
      var j :| 0 <= j < |hr| && hr[j] == r[i];
    }
  }

  /** For k >= 0 every total is defined: the fused list is the sort of one result per
      entry, in the dict's order. */
  lemma RrfUnsorted(bm25: seq<SearchResult>, semantic: seq<SearchResult>, k: int) returns (es: seq<Entry<nat>>, hr: seq<SearchResult>)
    requires k >= 0
    ensures es == RrfEntries(bm25, semantic)
    ensures |hr| == |es| && forall i :: 0 <= i < |es| ==> hr[i].id == es[i].id
    ensures forall i :: 0 <= i < |es| ==> hr[i] == RrfResult(es[i], RrfPart(es[i].bm25, k) + RrfPart(es[i].semantic, k))
    ensures RrfFused(bm25, semantic, k) == Ok(SortDesc(hr, ResultScore))
  {
    es := RrfEntries(bm25, semantic);
    forall i | 0 <= i < |es| ensures RrfTotal(es[i], k) == Ok(RrfPart(es[i].bm25, k) + RrfPart(es[i].semantic, k)) {
      RrfTotalValue(es[i], k);
    }
    RrfResultsOk(es, k);
    hr := RrfResults(es, k).value;
  }

  lemma RrfFusedOrder(bm25: seq<SearchResult>, semantic: seq<SearchResult>, k: int)
    requires k >= 0
    ensures RrfFused(bm25, semantic, k).Ok?
    ensures var r := RrfFused(bm25, semantic, k).value;
            && SortedDesc(r, ResultScore)
            && DistinctBy(r, ResultId)
            && ResultIds(r) == ResultIds(bm25) + ResultIds(semantic)
  {
    var es, hr := RrfUnsorted(bm25, semantic, k);
    BothHitsEntries(bm25, Ranks(|bm25|), semantic, Ranks(|semantic|), 0, Overwrite);
    SortedFusionOrder(es, hr);
  }

  lemma RrfFusedTies(bm25: seq<SearchResult>, semantic: seq<SearchResult>, k: int)
    requires k >= 0
    ensures RrfFused(bm25, semantic, k).Ok?
    ensures var r := RrfFused(bm25, semantic, k).value;
            var all := bm25 + semantic;
            && (forall i :: 0 <= i < |r| ==> r[i].id in ResultIds(all))
            && forall i, j :: 0 <= i < j < |r| && r[i].score == r[j].score ==>
                 FirstOccurrence(all, r[i].id) < FirstOccurrence(all, r[j].id)
  {
    var es, hr := RrfUnsorted(bm25, semantic, k);
    BothHitsEntries(bm25, Ranks(|bm25|), semantic, Ranks(|semantic|), 0, Overwrite);
    SortedFusionTies(es, hr, bm25 + semantic);
  }

  /** The entry a fused result is built from can be read back from its extras. */
  lemma RrfResultReadsBack(e: Entry<nat>, total: real)
    ensures var x := RrfResult(e, total);
            && x.meta.Keys == {Bm25RankKey, SemanticRankKey}
            && x.meta[Bm25RankKey] == e.bm25 as real && x.meta[SemanticRankKey] == e.semantic as real
  {
    assert Bm25RankKey[0] != SemanticRankKey[0];
  }

  lemma RrfFusedEach(bm25: seq<SearchResult>, semantic: seq<SearchResult>, k: int)
    requires k >= 0
    ensures RrfFused(bm25, semantic, k).Ok?
    ensures var r := RrfFused(bm25, semantic, k).value;
            forall i :: 0 <= i < |r| ==> RrfFusedResult(bm25, semantic, k, r[i])
  {
    var all := bm25 + semantic;
    var es, hr := RrfUnsorted(bm25, semantic, k);
    BothHitsEntries(bm25, Ranks(|bm25|), semantic, Ranks(|semantic|), 0, Overwrite);
    RrfValues(bm25, semantic);
    forall j | 0 <= j < |hr| ensures RrfFusedResult(bm25, semantic, k, hr[j]) {
      RrfResultReadsBack(es[j], RrfPart(es[j].bm25, k) + RrfPart(es[j].semantic, k));
    }
    var r := SortDesc(hr, ResultScore);
    SortDescIsSortedPermutation(hr, ResultScore);
    forall i | 0 <= i < |r| ensures RrfFusedResult(bm25, semantic, k, r[i]) {
      assert r[i] in multiset(hr);
      var j :| 0 <= j < |hr| && hr[j] == r[i];
    }
  }

  /** For k >= 0, reciprocal-rank fusion as intended returns one fused result per id
      of either list, highest total first, with ties in order of first appearance,
      keyword list first. */
  lemma RrfFusedFacts(bm25: seq<SearchResult>, semantic: seq<SearchResult>, k: int)
    requires k >= 0
    ensures RrfFused(bm25, semantic, k).Ok?
    ensures var r := RrfFused(bm25, semantic, k).value;
            var all := bm25 + semantic;
            && SortedDesc(r, ResultScore)
            && DistinctBy(r, ResultId)
            && ResultIds(r) == ResultIds(bm25) + ResultIds(semantic)
            && (forall i :: 0 <= i < |r| ==> RrfFusedResult(bm25, semantic, k, r[i]))
            && (forall i :: 0 <= i < |r| ==> r[i].id in ResultIds(all))
            && (forall i, j :: 0 <= i < j < |r| && r[i].score == r[j].score ==>
                  FirstOccurrence(all, r[i].id) < FirstOccurrence(all, r[j].id))
  {
    RrfFusedOrder(bm25, semantic, k);
    RrfFusedEach(bm25, semantic, k);
    RrfFusedTies(bm25, semantic, k);
  }

  // ------------------------------------------------------------ the search object

  /** The first `limit` of a list sorted best first are sorted too, and none of the
      results cut off scores above a kept one. */
  lemma TopOfSorted(c: seq<SearchResult>, limit: int)
    requires SortedDesc(c, ResultScore)
    ensures var r := Take(c, limit);
            && SortedDesc(r, ResultScore)
            && forall i, j :: 0 <= i < |r| <= j < |c| ==> c[j].score <= r[i].score
  {
    var r := Take(c, limit);
    forall i, j | 0 <= i < |r| <= j < |c| ensures c[j].score <= r[i].score {
      assert r[i] == c[i] && ResultScore(c[i]) >= ResultScore(c[j]);
    }
  }

  /** What `weighted_search` returns, given the keyword results and the outcome of the
      chunk search: a failed chunk search is the error, otherwise the first `limit`
      weighted fused results. */
  function WeightedSearchOutcome(bm25: seq<SearchResult>, semantic: Result<seq<SearchResult>>, alpha: real, limit: int): Result<seq<SearchResult>> {
    match semantic
    case Err(e) => Err(e)
    case Ok(s) => Ok(Take(CombinedResults(bm25, s, alpha), limit))
  }

  /** `weighted_search` fails exactly when the chunk search fails, and otherwise returns
      at most `limit` fused results, best first, distinct ids, none of the dropped ones
      scoring above a kept one. */
  lemma WeightedSearchFacts(bm25: seq<SearchResult>, semantic: Result<seq<SearchResult>>, alpha: real, limit: int)
    ensures WeightedSearchOutcome(bm25, semantic, alpha, limit).Err? <==> semantic.Err?
    ensures semantic.Err? ==> WeightedSearchOutcome(bm25, semantic, alpha, limit).error == semantic.error
    ensures semantic.Ok? ==>
              var c := CombinedResults(bm25, semantic.value, alpha);
              var r := WeightedSearchOutcome(bm25, semantic, alpha, limit).value;
              && r <= c
              && (limit >= 0 ==> |r| == Min(limit, |c|))
              && SortedDesc(r, ResultScore)
              && DistinctBy(r, ResultId)
              && (forall i :: 0 <= i < |r| ==> WeightedResult(bm25, semantic.value, alpha, r[i]))
              && (forall i, j :: 0 <= i < |r| <= j < |c| ==> c[j].score <= r[i].score)
  {
    if semantic.Ok? {
      var c := CombinedResults(bm25, semantic.value, alpha);
      CombinedResultsFacts(bm25, semantic.value, alpha);
      TopOfSorted(c, limit);
      var r := Take(c, limit);
      assert DistinctBy(r, ResultId) by {
        forall i, j | 0 <= i < j < |r| ensures ResultId(r[i]) != ResultId(r[j]) {
          assert r[i] == c[i] && r[j] == c[j];
        }
      }
    }
  }

  /** What `rrf_search` returns with the dropped append restored: a failed chunk search
      or a failed total is the error, otherwise the first `limit` fused results. */
  function RrfSearchOutcome(bm25: seq<SearchResult>, semantic: Result<seq<SearchResult>>, k: int, limit: int): Result<seq<SearchResult>> {
    match semantic
    case Err(e) => Err(e)
    case Ok(s) =>
      match RrfFused(bm25, s, k)
      case Err(e) => Err(e)
      case Ok(c) => Ok(Take(c, limit))
  }

  /** For k >= 0, `rrf_search` fails exactly when the chunk search fails, and otherwise
      returns at most `limit` fused results, best first, distinct ids, none of the
      dropped ones scoring above a kept one. */
  lemma RrfSearchFacts(bm25: seq<SearchResult>, semantic: Result<seq<SearchResult>>, k: int, limit: int)
    requires k >= 0
    ensures RrfSearchOutcome(bm25, semantic, k, limit).Err? <==> semantic.Err?
    ensures semantic.Err? ==> RrfSearchOutcome(bm25, semantic, k, limit).error == semantic.error
    ensures semantic.Ok? ==>
              RrfFused(bm25, semantic.value, k).Ok? &&
              var c := RrfFused(bm25, semantic.value, k).value;
              var r := RrfSearchOutcome(bm25, semantic, k, limit).value;
              && r <= c
              && (limit >= 0 ==> |r| == Min(limit, |c|))
              && SortedDesc(r, ResultScore)
              && DistinctBy(r, ResultId)
              && (forall i :: 0 <= i < |r| ==> RrfFusedResult(bm25, semantic.value, k, r[i]))
              && (forall i, j :: 0 <= i < |r| <= j < |c| ==> c[j].score <= r[i].score)
  {
    if semantic.Ok? {
      RrfFusedFacts(bm25, semantic.value, k);
      var c := RrfFused(bm25, semantic.value, k).value;
      TopOfSorted(c, limit);
      var r := Take(c, limit);
      assert DistinctBy(r, ResultId) by {
        forall i, j | 0 <= i < j < |r| ensures ResultId(r[i]) != ResultId(r[j]) {
          assert r[i] == c[i] && r[j] == c[j];
        }
      }
    }
  }

  /** The search object: the movies, and a chunked semantic index over them. The
      keyword index is reached through the `bm25Search` parameter of the searches. */
  class HybridSearch {
    var documents: seq<Movie>
    const semanticSearch: SemanticSearch.ChunkedSemanticSearch

    /** `HybridSearch(documents)`: loads the chunk embeddings from the cache when both
        cache entries exist, and builds them from the movies otherwise. */
    constructor (documents: seq<Movie>, cache: SemanticSearch.EmbeddingCache, maxChunkSize: int, overlap: int, encode: string -> SemanticSearch.Vector)
      requires SemanticSearch.AllHaveIds(documents)
      requires 0 <= overlap < maxChunkSize
      modifies cache
      ensures this.documents == documents
      ensures fresh(semanticSearch) && fresh(semanticSearch.base)
      ensures semanticSearch.base.cache == cache && semanticSearch.base.documents == Some(documents)
      ensures if old(cache.chunkEmbeddings).Some? && old(cache.chunkMetadata).Some? then
                && semanticSearch.chunkEmbeddings == old(cache.chunkEmbeddings)
                && semanticSearch.chunkMetadata == old(cache.chunkMetadata)
              else
                && semanticSearch.chunkEmbeddings == Some(SemanticSearch.EncodeAll(SemanticSearch.AllChunks(documents, maxChunkSize, overlap), encode))
                && semanticSearch.chunkMetadata == Some(SemanticSearch.ChunkMetadata(documents, maxChunkSize, overlap))
    {
      this.documents := documents;
      var s := new SemanticSearch.ChunkedSemanticSearch(cache);
      var embeddings := s.LoadOrCreateChunkEmbeddings(documents, maxChunkSize, overlap, encode);
      semanticSearch := s;
    }

    /** The chunk search's outcome for `query` and `limit`, over the current index. */
    function ChunkOutcome(query: string, limit: int, encode: string -> SemanticSearch.Vector, norm: SemanticSearch.Vector -> real): Result<seq<SearchResult>>
      reads semanticSearch, semanticSearch.base
    {
      SemanticSearch.SearchChunksOutcome(semanticSearch.chunkEmbeddings, semanticSearch.chunkMetadata, semanticSearch.base.documents,
                                         query, limit, encode, norm)
    }

    /** `weighted_search`: fetches 500 times `limit` from both searches, fuses them with
        weight `alpha` and keeps the first `limit`. */
    method WeightedSearch(query: string, alpha: real, limit: int, bm25Search: (string, int) -> seq<SearchResult>,
                          encode: string -> SemanticSearch.Vector, norm: SemanticSearch.Vector -> real)
      returns (r: Result<seq<SearchResult>>)
      ensures r == WeightedSearchOutcome(bm25Search(query, limit * 500), ChunkOutcome(query, limit * 500, encode, norm), alpha, limit)
    {
      var bm25Result := bm25Search(query, limit * 500);
      var semanticResult := semanticSearch.SearchChunks(query, limit * 500, encode, norm);
      if semanticResult.Err? {
        return Err(semanticResult.error);
      }
      var semantic := semanticResult.value;
      var a := new SearchResult[|bm25Result|](i requires 0 <= i < |bm25Result| => bm25Result[i]);
      var b := new SearchResult[|semantic|](i requires 0 <= i < |semantic| => semantic[i]);
      assert a[..] == bm25Result && b[..] == semantic;
      var combined := CombineSearchResults(a, b, alpha);
      return Ok(Take(combined, limit));
    }

    /** `rrf_search`: fetches 500 times `limit` from both searches, fuses them by
        reciprocal rank with constant `k` and keeps the first `limit`. */
    method RrfSearch(query: string, k: int, limit: int, bm25Search: (string, int) -> seq<SearchResult>,
                     encode: string -> SemanticSearch.Vector, norm: SemanticSearch.Vector -> real)
      returns (r: Result<seq<SearchResult>>)
      ensures r == RrfSearchOutcome(bm25Search(query, limit * 500), ChunkOutcome(query, limit * 500, encode, norm), k, limit)
    {
      var bm25Result := bm25Search(query, limit * 500);
      var semanticResult := semanticSearch.SearchChunks(query, limit * 500, encode, norm);
      if semanticResult.Err? {
        return Err(semanticResult.error);
      }
      var combined := RrfFuse(bm25Result, semanticResult.value, k);
      if combined.Err? {
        return Err(combined.error);
      }
      return Ok(Take(combined.value, limit));
    }
  }
}
