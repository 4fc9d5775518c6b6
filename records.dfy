/** The records that flow between the components: catalog movies and scored results. */
module Records {
  import opened Wrappers

  /** A catalog entry as loaded from the JSON file; any of its keys may be absent. */
  datatype Movie = Movie(id: Option<int>, title: Option<string>, description: Option<string>)

  /** A movie that carries all three keys, as every entry of the shipped catalog does. */
  predicate Complete(m: Movie) {
    m.id.Some? && m.title.Some? && m.description.Some?
  }

  /** A scored search result: the fixed fields every search path fills in, and the
      numeric extras that fusion and reranking attach under their own keys. */
  datatype SearchResult = SearchResult(
    id: string,
    title: string,
    document: string,
    score: real,
    meta: map<string, real>)

  /** The value stored under `key` in a result's extras, 0.0 when it is absent. */
  function MetaOr(r: SearchResult, key: string): real {
    if key in r.meta then r.meta[key] else 0.0
  }

  /** `str(n)` for a natural number. */
  function NatToString(n: nat): (s: string)
    ensures |s| > 0
    ensures forall i :: 0 <= i < |s| ==> '0' <= s[i] <= '9'
    decreases n
  {
    if n < 10 then [('0' as int + n) as char]
    else NatToString(n / 10) + [('0' as int + n % 10) as char]
  }

  /** Different numbers print differently, so `str(k)` identifies k. */
  lemma {:induction false} NatToStringInjective(a: nat, b: nat)
    requires NatToString(a) == NatToString(b)
    ensures a == b
    decreases a
  {
    var sa, sb := NatToString(a), NatToString(b);
    if a < 10 && b < 10 {
      assert sa[0] == sb[0];
    } else if a >= 10 && b >= 10 {
      assert sa[|sa| - 1] == sb[|sb| - 1];
      assert sa[..|sa| - 1] == NatToString(a / 10);
      assert sb[..|sb| - 1] == NatToString(b / 10);
      NatToStringInjective(a / 10, b / 10);
    }
  }
}
