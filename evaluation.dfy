/** Retrieval quality: precision at k of a ranked list of ids against a relevant set. */
module Evaluation {
  import opened Wrappers
  import opened PyLists

  /** How many entries of `s` are relevant, every occurrence counted. */
  function RelevantCount(s: seq<string>, relevant: set<string>): (n: nat)
    ensures n <= |s|
  {
    if s == [] then 0
    else RelevantCount(s[..|s| - 1], relevant) + if s[|s| - 1] in relevant then 1 else 0
  }

  /** The positions of `s` holding a relevant id. */
  function RelevantPositions(s: seq<string>, relevant: set<string>): set<nat> {
    set i: nat | i < |s| && s[i] in relevant
  }

  /** The count is the number of positions holding a relevant id, so a repeated relevant
      id counts once per position. */
  lemma {:induction false} RelevantCountIsPositions(s: seq<string>, relevant: set<string>)
    ensures RelevantCount(s, relevant) == |RelevantPositions(s, relevant)|
  {
    if s != [] {
      var init := s[..|s| - 1];
      var last: nat := |s| - 1;
      RelevantCountIsPositions(init, relevant);
      var before := RelevantPositions(init, relevant);
      assert last !in before;
      if s[last] in relevant {
        assert RelevantPositions(s, relevant) == before + {last};
      } else {
        assert RelevantPositions(s, relevant) == before;
      }
    }
  }

  /** Counting is additive over concatenation. */
  lemma {:induction false} RelevantCountAppend(a: seq<string>, b: seq<string>, relevant: set<string>)
    ensures RelevantCount(a + b, relevant) == RelevantCount(a, relevant) + RelevantCount(b, relevant)
  {
    if b != [] {
      var init := b[..|b| - 1];
      RelevantCountAppend(a, init, relevant);
      assert (a + b)[..|a + b| - 1] == a + init;
    } else {
      assert a + b == a;
    }
  }

  /** `precision_at_k`: the relevant share of the first k retrieved ids, over k itself;
      k = 0 divides by zero. */
  function PrecisionAt(retrieved: seq<string>, relevant: set<string>, k: int): Result<real> {
    if k == 0 then Err(ZeroDivisionError)
    else Ok(RelevantCount(Take(retrieved, k), relevant) as real / k as real)
  }

  /** `precision_at_k`: counts the relevant ids among the first k retrieved, then divides
      by k. */
  method PrecisionAtK(retrieved: seq<string>, relevant: set<string>, k: int) returns (p: Result<real>)
    ensures p == PrecisionAt(retrieved, relevant, k)
  {
    var topK := Take(retrieved, k);
    var relevantCount := 0;
    for i := 0 to |topK|
      invariant relevantCount == RelevantCount(topK[..i], relevant)
    {
      assert topK[..i + 1][..i] == topK[..i];
      if topK[i] in relevant {
        relevantCount := relevantCount + 1;
      }
    }
    assert topK[..|topK|] == topK;
    if k == 0 {
      return Err(ZeroDivisionError);
    }
    return Ok(relevantCount as real / k as real);
  }

  /** For k > 0 precision lies in [0, 1] and times k is the relevant count among the
      first k; k = 0 fails with a division by zero; a negative k (a slice that drops
      ids from the end, then a negative divisor) gives at most 0. */
  lemma PrecisionBounds(retrieved: seq<string>, relevant: set<string>, k: int)
    ensures PrecisionAt(retrieved, relevant, k).Err? <==> k == 0
    ensures k == 0 ==> PrecisionAt(retrieved, relevant, k).error == ZeroDivisionError
    ensures k > 0 ==>
              var p := PrecisionAt(retrieved, relevant, k).value;
              && 0.0 <= p <= 1.0
              && p * k as real == RelevantCount(Take(retrieved, k), relevant) as real
    ensures k < 0 ==> PrecisionAt(retrieved, relevant, k).value <= 0.0
  {
    if k > 0 {
      var n := RelevantCount(Take(retrieved, k), relevant);
      assert n <= k;
      ShareBounds(n as real, k as real);
    } else if k < 0 {
      NegativeShare(RelevantCount(Take(retrieved, k), relevant) as real, k as real);
    }
  }

  /** A count between 0 and a positive total, over that total, is a share in [0, 1]
      that gives the count back when multiplied by the total. */
  lemma ShareBounds(c: real, k: real)
    requires 0.0 <= c <= k && 0.0 < k
    ensures 0.0 <= c / k <= 1.0 && (c / k) * k == c
  {
  }

  /** A non-negative count over a negative divisor is not positive. */
  lemma NegativeShare(c: real, k: real)
    requires 0.0 <= c && k < 0.0
    ensures c / k <= 0.0
  {
  }

  /** Ids retrieved after position k do not change precision at k. */
  lemma PrecisionIgnoresTail(retrieved: seq<string>, extra: seq<string>, relevant: set<string>, k: int)
    requires 0 <= k <= |retrieved|
    ensures PrecisionAt(retrieved + extra, relevant, k) == PrecisionAt(retrieved, relevant, k)
  {
    assert Take(retrieved + extra, k) == Take(retrieved, k);
  }

  /** With fewer than k ids retrieved, the denominator is still k. */
  lemma PrecisionShortList(retrieved: seq<string>, relevant: set<string>, k: int)
    requires 0 <= |retrieved| <= k && k > 0
    ensures PrecisionAt(retrieved, relevant, k) == Ok(RelevantCount(retrieved, relevant) as real / k as real)
  {
    assert Take(retrieved, k) == retrieved;
  }

  /** A relevant id retrieved twice is counted twice. */
  lemma PrecisionCountsRepeats()
    ensures PrecisionAt(["a", "a"], {"a"}, 2) == Ok(1.0)
  {
    var s := ["a", "a"];
    assert Take(s, 2) == s;
    assert s[..1] == ["a"] && s[..1][..0] == [];
    assert RelevantCount(s, {"a"}) == 2;
  }
}
