/** Python's `sorted(xs, key=..., reverse=True)`: a stable sort, highest key first,
    where elements with equal keys keep their input order. */
module StableSort {
  import opened PyLists

  predicate SortedDesc<T>(s: seq<T>, key: T -> real) {
    forall i, j :: 0 <= i < j < |s| ==> key(s[i]) >= key(s[j])
  }

  /** The elements of s whose key is c, in the order of s. */
  function WithKey<T>(s: seq<T>, key: T -> real, c: real): seq<T> {
    if s == [] then []
    else (if key(s[0]) == c then [s[0]] else []) + WithKey(s[1..], key, c)
  }

  /** Puts x in front of the first element whose key is not above x's key. */
  function Insert<T>(x: T, s: seq<T>, key: T -> real): seq<T> {
    if s == [] || key(s[0]) <= key(x) then [x] + s
    else [s[0]] + Insert(x, s[1..], key)
  }

  function SortDesc<T>(s: seq<T>, key: T -> real): seq<T> {
    if s == [] then [] else Insert(s[0], SortDesc(s[1..], key), key)
  }

  lemma {:induction false} InsertPermutes<T>(x: T, s: seq<T>, key: T -> real)
    ensures multiset(Insert(x, s, key)) == multiset(s) + multiset{x}
  {
    if !(s == [] || key(s[0]) <= key(x)) {
      InsertPermutes(x, s[1..], key);
      assert s == [s[0]] + s[1..];
    }
  }

  lemma {:induction false} InsertKeepsKeyOrder<T>(x: T, s: seq<T>, key: T -> real, c: real)
    ensures WithKey(Insert(x, s, key), key, c) == (if key(x) == c then [x] else []) + WithKey(s, key, c)
  {
    var mine := if key(x) == c then [x] else [];
    if s == [] || key(s[0]) <= key(x) {
      var u := [x] + s;
      assert u[0] == x && u[1..] == s;
      assert WithKey(u, key, c) == mine + WithKey(s, key, c);
    } else {
      var t := Insert(x, s[1..], key);
      var head := if key(s[0]) == c then [s[0]] else [];
      var rest := WithKey(s[1..], key, c);
      InsertKeepsKeyOrder(x, s[1..], key, c);
      var u := [s[0]] + t;
      assert Insert(x, s, key) == u;
      assert u[0] == s[0] && u[1..] == t;
      assert WithKey(u, key, c) == head + (mine + rest);
      assert WithKey(s, key, c) == head + rest;
      if head == [] {
        assert head + (mine + rest) == mine + rest;
      } else {
        assert mine == [];
        assert head + (mine + rest) == head + rest;
      }
    }
  }

  lemma {:induction false} InsertSorted<T>(x: T, s: seq<T>, key: T -> real)
    requires SortedDesc(s, key)
    ensures SortedDesc(Insert(x, s, key), key)
  {
    if !(s == [] || key(s[0]) <= key(x)) {
      var t := Insert(x, s[1..], key);
      InsertSorted(x, s[1..], key);
      InsertPermutes(x, s[1..], key);
      forall j | 0 <= j < |t| ensures key(s[0]) >= key(t[j]) {
        assert t[j] in multiset(t);
        if t[j] != x {
          assert t[j] in multiset(s[1..]);
          var k :| 0 <= k < |s[1..]| && s[1..][k] == t[j];
          assert s[1 + k] == t[j];
        }
      }
    }
  }

  /** The sort returns a permutation of its input, highest key first. */
  lemma {:induction false} SortDescIsSortedPermutation<T>(s: seq<T>, key: T -> real)
    ensures SortedDesc(SortDesc(s, key), key)
    ensures multiset(SortDesc(s, key)) == multiset(s)
    ensures |SortDesc(s, key)| == |s|
  {
    if s != [] {
      SortDescIsSortedPermutation(s[1..], key);
      InsertSorted(s[0], SortDesc(s[1..], key), key);
      InsertPermutes(s[0], SortDesc(s[1..], key), key);
      assert s == [s[0]] + s[1..];
    }
  }

  /** The sort is stable: among equal keys the input order survives. */
  lemma {:induction false} SortDescIsStable<T>(s: seq<T>, key: T -> real, c: real)
    ensures WithKey(SortDesc(s, key), key, c) == WithKey(s, key, c)
  {
    if s != [] {
      SortDescIsStable(s[1..], key, c);
      InsertKeepsKeyOrder(s[0], SortDesc(s[1..], key), key, c);
    }
  }

  /** Where `Insert` puts x: after the leading elements with a higher key. */
  lemma {:induction false} InsertAt<T>(x: T, s: seq<T>, key: T -> real) returns (p: nat)
    ensures p <= |s| && Insert(x, s, key) == s[..p] + [x] + s[p..]
    ensures forall q :: 0 <= q < p ==> key(s[q]) > key(x)
  {
    if s == [] || key(s[0]) <= key(x) {
      p := 0;
    } else {
      var p' := InsertAt(x, s[1..], key);
      p := p' + 1;
      assert s[..p] == [s[0]] + s[1..][..p'];
      assert s[p..] == s[1..][p'..];
      forall q | 0 <= q < p ensures key(s[q]) > key(x) {
        if q > 0 {
          assert s[q] == s[1..][q - 1];
        }
      }
    }
  }

  /** Two elements of `u` with the same key come from positions of `s` in the same order. */
  ghost predicate TiesKeepOrder<T>(u: seq<T>, s: seq<T>, key: T -> real) {
    forall i, j :: 0 <= i < j < |u| && key(u[i]) == key(u[j]) ==>
      exists i', j' :: 0 <= i' < j' < |s| && s[i'] == u[i] && s[j'] == u[j]
  }

  lemma {:induction false} InsertKeepsTies<T>(x: T, t: seq<T>, rest: seq<T>, key: T -> real)
    requires TiesKeepOrder(t, rest, key) && multiset(t) == multiset(rest)
    ensures TiesKeepOrder(Insert(x, t, key), [x] + rest, key)
  {
    var u := Insert(x, t, key);
    var p := InsertAt(x, t, key);
    forall i, j | 0 <= i < j < |u| && key(u[i]) == key(u[j])
      ensures exists i', j' :: 0 <= i' < j' < |[x] + rest| && ([x] + rest)[i'] == u[i] && ([x] + rest)[j'] == u[j]
    {
      InsertedPair(x, t, rest, key, p, i, j);
    }
  }

  /** One pair of equal-key positions of `t` with `x` put at position p, after only
      elements keyed above x: the pair comes from positions of `[x] + rest` in the same
      order. */
  lemma InsertedPair<T>(x: T, t: seq<T>, rest: seq<T>, key: T -> real, p: nat, i: int, j: int)
    requires TiesKeepOrder(t, rest, key) && multiset(t) == multiset(rest)
    requires p <= |t| && 0 <= i < j < |t| + 1 && forall q :: 0 <= q < p ==> key(t[q]) > key(x)
    requires var u := t[..p] + [x] + t[p..]; key(u[i]) == key(u[j])
    ensures var u, s := t[..p] + [x] + t[p..], [x] + rest;
            exists i', j' :: 0 <= i' < j' < |s| && s[i'] == u[i] && s[j'] == u[j]
  {
    var u, s := t[..p] + [x] + t[p..], [x] + rest;
    if i == p {
      assert u[j] == t[j - 1];
      assert t[j - 1] in multiset(rest);
      var m :| 0 <= m < |rest| && rest[m] == t[j - 1];
      assert s[0] == u[i] && s[m + 1] == u[j];
    } else {
      assert j != p;
      var i2 := if i < p then i else i - 1;
      var j2 := if j < p then j else j - 1;
      assert u[i] == t[i2] && u[j] == t[j2];
      var i', j' :| 0 <= i' < j' < |rest| && rest[i'] == t[i2] && rest[j'] == t[j2];
      assert s[i' + 1] == u[i] && s[j' + 1] == u[j];
    }
  }

  /** Ties keep their input order: two outputs with the same key come from input
      positions in the same order. */
  lemma {:induction false} SortDescKeepsTies<T>(s: seq<T>, key: T -> real)
    ensures TiesKeepOrder(SortDesc(s, key), s, key)
  {
    if s != [] {
      SortDescKeepsTies(s[1..], key);
      SortDescIsSortedPermutation(s[1..], key);
      InsertKeepsTies(s[0], SortDesc(s[1..], key), s[1..], key);
      assert [s[0]] + s[1..] == s;
    }
  }

  /** Everything the callers rely on, in one place. */
  lemma SortDescFacts<T>(s: seq<T>, key: T -> real)
    ensures SortedDesc(SortDesc(s, key), key)
    ensures multiset(SortDesc(s, key)) == multiset(s)
    ensures |SortDesc(s, key)| == |s|
    ensures forall c :: WithKey(SortDesc(s, key), key, c) == WithKey(s, key, c)
  {
    SortDescIsSortedPermutation(s, key);
    forall c ensures WithKey(SortDesc(s, key), key, c) == WithKey(s, key, c) {
      SortDescIsStable(s, key, c);
    }
  }

  /** The first n of a stable descending sort: sorted, drawn from the input, as many as
      the limit allows, none of the dropped ones above a kept one, and equal keys in
      input order. */
  lemma TopK<T>(s: seq<T>, key: T -> real, n: int)
    ensures var c := SortDesc(s, key);
            var r := Take(c, n);
            && SortedDesc(r, key)
            && multiset(r) <= multiset(s)
            && (n >= 0 ==> |r| == Min(n, |s|))
            && (forall i, j :: 0 <= i < |r| <= j < |c| ==> key(c[j]) <= key(r[i]))
            && TiesKeepOrder(r, s, key)
  {
    var c := SortDesc(s, key);
    var r := Take(c, n);
    SortDescIsSortedPermutation(s, key);
    SortDescKeepsTies(s, key);
    assert c == r + c[|r|..];
    assert multiset(c) == multiset(r) + multiset(c[|r|..]);
    forall i, j | 0 <= i < |r| <= j < |c| ensures key(c[j]) <= key(r[i]) {
      assert r[i] == c[i];
    }
    forall i, j | 0 <= i < j < |r| && key(r[i]) == key(r[j])
      ensures exists i', j' :: 0 <= i' < j' < |s| && s[i'] == r[i] && s[j'] == r[j]
    {
      assert r[i] == c[i] && r[j] == c[j];
    }
  }

  /** `r` is a top-n selection from `s`: best key first, drawn from `s` with each
      element used at most as often as it occurs there, as many as n allows, nothing left
      out keyed above anything kept, and equal keys in their order in `s`. */
  ghost predicate IsTopK<T>(r: seq<T>, s: seq<T>, key: T -> real, n: int) {
    && SortedDesc(r, key)
    && multiset(r) <= multiset(s)
    && |r| <= |s|
    && (n >= 0 ==> |r| == Min(n, |s|))
    && (forall j :: 0 <= j < |s| && multiset(r)[s[j]] < multiset(s)[s[j]] ==> forall i :: 0 <= i < |r| ==> key(s[j]) <= key(r[i]))
    && TiesKeepOrder(r, s, key)
  }

  /** Sorting stably by descending key and then taking the first n is a top-n selection. */
  lemma TopKSelects<T>(s: seq<T>, key: T -> real, n: int)
    ensures IsTopK(Take(SortDesc(s, key), n), s, key, n)
  {
    var c := SortDesc(s, key);
    var r := Take(c, n);
    TopK(s, key, n);
    SortDescIsSortedPermutation(s, key);
    assert |multiset(c)| == |c| && |multiset(s)| == |s|;
    DroppedBelowKept(s, c, r, key);
  }

  /** When r is a prefix of a reordering c of s and nothing after the prefix is keyed
      above anything in it, every element of s that r leaves out (or keeps fewer times)
      is keyed at most as high as anything r keeps. */
  lemma DroppedBelowKept<T>(s: seq<T>, c: seq<T>, r: seq<T>, key: T -> real)
    requires multiset(c) == multiset(s) && r <= c
    requires forall i, j :: 0 <= i < |r| <= j < |c| ==> key(c[j]) <= key(r[i])
    ensures forall k :: 0 <= k < |s| && multiset(r)[s[k]] < multiset(s)[s[k]] ==> forall i :: 0 <= i < |r| ==> key(s[k]) <= key(r[i])
  {
    assert c == r + c[|r|..];
    assert multiset(c) == multiset(r) + multiset(c[|r|..]);
    forall k | 0 <= k < |s| && multiset(r)[s[k]] < multiset(s)[s[k]] ensures forall i :: 0 <= i < |r| ==> key(s[k]) <= key(r[i]) {
      var x := s[k];
      assert x in multiset(c[|r|..]);
      var j :| |r| <= j < |c| && c[j] == x;
      assert c[|r|..][j - |r|] == x;
    }
  }
}
