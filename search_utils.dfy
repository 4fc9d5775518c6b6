/** Text normalisation shared by every search path: lower-casing, punctuation removal,
    whitespace splitting, stopword removal and stemming (cli/lib/search_utils.py). */
module SearchUtils {
  import opened PyLists

  // ---------------------------------------------------------------- characters

  predicate IsAsciiUpper(c: char) { 'A' <= c <= 'Z' }

  /** `str.lower` on one character (ASCII letters only). */
  function LowerChar(c: char): (r: char)
    ensures !IsAsciiUpper(r)
    ensures IsAsciiUpper(c) ==> r as int == c as int + 32
    ensures !IsAsciiUpper(c) ==> r == c
  {
    if IsAsciiUpper(c) then (c as int + 32) as char else c
  }

  /** Membership in Python's `string.punctuation`: the 32 printable ASCII characters
      that are neither letters, digits nor the space. */
  predicate IsPunctuation(c: char) {
    ('!' <= c <= '/') || (':' <= c <= '@') || ('[' <= c <= '`') || ('{' <= c <= '~')
  }

  /** The characters `str.split()` and `str.strip()` treat as whitespace. */
  predicate IsSpace(c: char) {
    || ('\t' <= c <= '\r')
    || ('\U{1c}' <= c <= ' ')
    || c == '\U{85}' || c == '\U{a0}' || c == '\U{1680}'
    || ('\U{2000}' <= c <= '\U{200a}')
    || c == '\U{2028}' || c == '\U{2029}' || c == '\U{202f}' || c == '\U{205f}' || c == '\U{3000}'
  }

  predicate NoSpace(w: string) { forall i :: 0 <= i < |w| ==> !IsSpace(w[i]) }

  predicate AllSpace(w: string) { forall i :: 0 <= i < |w| ==> IsSpace(w[i]) }

  // ------------------------------------------------------------ preprocess_text

  function Lowercase(s: string): string {
    if s == [] then [] else Lowercase(s[..|s| - 1]) + [LowerChar(s[|s| - 1])]
  }

  function DeletePunctuation(s: string): string {
    if s == [] then []
    else DeletePunctuation(s[..|s| - 1]) + (if IsPunctuation(s[|s| - 1]) then [] else [s[|s| - 1]])
  }

  /** `text.lower()` followed by deleting every character of `string.punctuation`. */
  function PreprocessText(text: string): (r: string)
    ensures |r| <= |text|
    ensures forall i :: 0 <= i < |r| ==> !IsPunctuation(r[i]) && !IsAsciiUpper(r[i])
  {
    DeletePunctuationFacts(Lowercase(text));
    LowercaseFacts(text);
    DeletePunctuation(Lowercase(text))
  }

  lemma {:induction false} LowercaseFacts(s: string)
    ensures |Lowercase(s)| == |s|
    ensures forall i :: 0 <= i < |s| ==> Lowercase(s)[i] == LowerChar(s[i])
  {
    if s != [] { LowercaseFacts(s[..|s| - 1]); }
  }

  lemma {:induction false} DeletePunctuationFacts(s: string)
    ensures |DeletePunctuation(s)| <= |s|
    ensures forall i :: 0 <= i < |DeletePunctuation(s)| ==> DeletePunctuation(s)[i] in s
    ensures forall i :: 0 <= i < |DeletePunctuation(s)| ==> !IsPunctuation(DeletePunctuation(s)[i])
  {
    if s != [] {
      DeletePunctuationFacts(s[..|s| - 1]);
      var r := DeletePunctuation(s);
      forall i | 0 <= i < |r| ensures r[i] in s {
        if i < |DeletePunctuation(s[..|s| - 1])| {
          assert r[i] in s[..|s| - 1];
        }
      }
    }
  }

  lemma {:induction false} LowercaseAppend(a: string, b: string)
    ensures Lowercase(a + b) == Lowercase(a) + Lowercase(b)
    decreases |b|
  {
    if b != [] {
      assert (a + b)[..|a + b| - 1] == a + b[..|b| - 1];
      LowercaseAppend(a, b[..|b| - 1]);
    } else {
      assert a + b == a;
    }
  }

  lemma {:induction false} DeletePunctuationAppend(a: string, b: string)
    ensures DeletePunctuation(a + b) == DeletePunctuation(a) + DeletePunctuation(b)
    decreases |b|
  {
    if b != [] {
      assert (a + b)[..|a + b| - 1] == a + b[..|b| - 1];
      DeletePunctuationAppend(a, b[..|b| - 1]);
    } else {
      assert a + b == a;
    }
  }

  /** Preprocessing works character by character: on a concatenation it is the
      concatenation of the parts, and a single character is deleted exactly when it is
      punctuation, and lower-cased otherwise. */
  lemma PreprocessTextPerCharacter(a: string, b: string, c: char)
    ensures PreprocessText(a + b) == PreprocessText(a) + PreprocessText(b)
    ensures PreprocessText([c]) == if IsPunctuation(c) then [] else [LowerChar(c)]
  {
    LowercaseAppend(a, b);
    DeletePunctuationAppend(Lowercase(a), Lowercase(b));
    assert Lowercase([c]) == [LowerChar(c)] by { assert [c][..0] == []; }
    assert DeletePunctuation([LowerChar(c)]) == if IsPunctuation(LowerChar(c)) then [] else [LowerChar(c)] by {
      assert [LowerChar(c)][..0] == [];
    }
  }

  lemma {:induction false} DeletePunctuationNoop(s: string)
    requires forall i :: 0 <= i < |s| ==> !IsPunctuation(s[i])
    ensures DeletePunctuation(s) == s
  {
    if s != [] { DeletePunctuationNoop(s[..|s| - 1]); }
  }

  lemma {:induction false} LowercaseNoop(s: string)
    requires forall i :: 0 <= i < |s| ==> !IsAsciiUpper(s[i])
    ensures Lowercase(s) == s
  {
    if s != [] { LowercaseNoop(s[..|s| - 1]); }
  }

  /** Preprocessing an already preprocessed text changes nothing. */
  lemma PreprocessTextIdempotent(text: string)
    ensures PreprocessText(PreprocessText(text)) == PreprocessText(text)
  {
    var p := PreprocessText(text);
    LowercaseNoop(p);
    DeletePunctuationNoop(p);
  }

  // -------------------------------------------------------------- str.split()

  /** Length of the longest prefix of s without whitespace. */
  function WordLength(s: string): (n: nat)
    ensures n <= |s|
    ensures forall i :: 0 <= i < n ==> !IsSpace(s[i])
    ensures n < |s| ==> IsSpace(s[n])
  {
    if s == [] || IsSpace(s[0]) then 0 else 1 + WordLength(s[1..])
  }

  /** `s.split()`: the maximal runs of non-whitespace characters, in order. */
  function Split(s: string): (words: seq<string>)
    ensures forall k :: 0 <= k < |words| ==> |words[k]| > 0 && NoSpace(words[k])
    decreases |s|
  {
    if s == [] then []
    else if IsSpace(s[0]) then Split(s[1..])
    else
      var n := WordLength(s);
      [s[..n]] + Split(s[n..])
  }

  /** `sep.join(ws)`. */
  function Join(ws: seq<string>, sep: string): string {
    if ws == [] then []
    else if |ws| == 1 then ws[0]
    else Join(ws[..|ws| - 1], sep) + sep + ws[|ws| - 1]
  }

  lemma {:induction false} JoinCons(w: string, ws: seq<string>, sep: string)
    requires ws != []
    ensures Join([w] + ws, sep) == w + sep + Join(ws, sep)
    decreases |ws|
  {
    if |ws| == 1 {
      assert ([w] + ws)[..1] == [w];
    } else {
      var init := ws[..|ws| - 1];
      assert ([w] + ws)[..|[w] + ws| - 1] == [w] + init;
      JoinCons(w, init, sep);
    }
  }

  lemma {:induction false} SplitAllSpace(s: string)
    requires AllSpace(s)
    ensures Split(s) == []
    decreases |s|
  {
    if s != [] { SplitAllSpace(s[1..]); }
  }

  lemma {:induction false} SplitSkipsSpaces(sp: string, rest: string)
    requires AllSpace(sp)
    ensures Split(sp + rest) == Split(rest)
    decreases |sp|
  {
    if sp != [] {
      assert (sp + rest)[1..] == sp[1..] + rest;
      SplitSkipsSpaces(sp[1..], rest);
    } else {
      assert sp + rest == rest;
    }
  }

  /** Splitting words joined by single spaces gives the words back. */
  lemma {:induction false} SplitJoin(ws: seq<string>)
    requires forall k :: 0 <= k < |ws| ==> |ws[k]| > 0 && NoSpace(ws[k])
    ensures Split(Join(ws, " ")) == ws
    decreases |ws|
  {
    if ws == [] {
    } else if |ws| == 1 {
      SplitWord(ws[0], []);
      assert ws[0] + [] == ws[0];
    } else {
      var w, rest := ws[0], ws[1..];
      assert ws == [w] + rest;
      JoinCons(w, rest, " ");
      SplitJoin(rest);
      SplitSpaced(w, Join(rest, " "));
    }
  }

  /** A word, a space and more text split into the word and the split of the rest. */
  lemma SplitSpaced(w: string, tail: string)
    requires |w| > 0 && NoSpace(w)
    ensures Split(w + " " + tail) == [w] + Split(tail)
  {
    assert w + " " + tail == w + (" " + tail);
    SplitWord(w, " " + tail);
    SplitSkipsSpaces(" ", tail);
  }

  lemma SplitWord(w: string, rest: string)
    requires |w| > 0 && NoSpace(w)
    requires rest == [] || IsSpace(rest[0])
    ensures Split(w + rest) == [w] + Split(rest)
  {
    var s := w + rest;
    WordLengthOf(w, rest);
    assert s[..|w|] == w && s[|w|..] == rest;
  }

  lemma {:induction false} WordLengthOf(w: string, rest: string)
    requires NoSpace(w)
    requires rest == [] || IsSpace(rest[0])
    ensures WordLength(w + rest) == |w|
    decreases |w|
  {
    if w != [] {
      assert (w + rest)[1..] == w[1..] + rest;
      WordLengthOf(w[1..], rest);
    } else {
      assert w + rest == rest;
    }
  }

  // -------------------------------------------------------------- str.strip()

  function StripLeading(s: string): (r: string)
    ensures r == [] || !IsSpace(r[0])
    ensures |r| <= |s| && r == s[|s| - |r|..]
  {
    if s != [] && IsSpace(s[0]) then StripLeading(s[1..]) else s
  }

  function StripTrailing(s: string): (r: string)
    ensures r == [] || !IsSpace(r[|r| - 1])
    ensures |r| <= |s| && r == s[..|r|]
  {
    if s != [] && IsSpace(s[|s| - 1]) then StripTrailing(s[..|s| - 1]) else s
  }

  /** `s.strip()`: the text without leading and trailing whitespace. */
  function Strip(s: string): (r: string)
    ensures r == [] || (!IsSpace(r[0]) && !IsSpace(r[|r| - 1]))
  {
    StripTrailing(StripLeading(s))
  }

  lemma {:induction false} StripLeadingEmpty(s: string)
    ensures StripLeading(s) == [] <==> AllSpace(s)
  {
    if s != [] && IsSpace(s[0]) {
      StripLeadingEmpty(s[1..]);
      assert StripLeading(s) == StripLeading(s[1..]);
      AllSpaceCons(s);
    } else if s != [] {
      assert StripLeading(s) == s;
      assert !AllSpace(s);
    }
  }

  /** A text that starts with whitespace is all whitespace exactly when its rest is. */
  lemma AllSpaceCons(s: string)
    requires s != [] && IsSpace(s[0])
    ensures AllSpace(s) <==> AllSpace(s[1..])
  {
    if AllSpace(s[1..]) {
      forall i | 0 <= i < |s| ensures IsSpace(s[i]) {
        if i > 0 { assert s[i] == s[1..][i - 1]; }
      }
    }
  }

  lemma {:induction false} StripTrailingEmpty(s: string)
    ensures StripTrailing(s) == [] <==> AllSpace(s)
  {
    if s != [] && IsSpace(s[|s| - 1]) { StripTrailingEmpty(s[..|s| - 1]); }
  }

  /** `s.strip() == ""` exactly when s is empty or whitespace only. */
  lemma StripEmpty(s: string)
    ensures Strip(s) == [] <==> AllSpace(s)
  {
    var l := StripLeading(s);
    StripLeadingEmpty(s);
    StripTrailingEmpty(l);
  }

  // ------------------------------------------------------------ tokenisation

  /** The stopword list and the stemmer: both are external data and code
      (a stopword file and the Porter stemmer) and enter the model as parameters. */
  datatype Normalizer = Normalizer(stopwords: seq<string>, stem: string -> string)

  /** The `if token:` filter. */
  function DropEmpty(ws: seq<string>): seq<string> {
    if ws == [] then []
    else DropEmpty(ws[..|ws| - 1]) + (if ws[|ws| - 1] != [] then [ws[|ws| - 1]] else [])
  }

  /** The words not in the stopword list, in their original order. */
  function WithoutStopwords(ws: seq<string>, stopwords: seq<string>): seq<string> {
    if ws == [] then []
    else WithoutStopwords(ws[..|ws| - 1], stopwords)
         + (if ws[|ws| - 1] !in stopwords then [ws[|ws| - 1]] else [])
  }

  /** One stem per word, position by position. */
  function Stems(ws: seq<string>, stem: string -> string): (r: seq<string>)
    ensures |r| == |ws|
    ensures forall i :: 0 <= i < |ws| ==> r[i] == stem(ws[i])
  {
    if ws == [] then [] else Stems(ws[..|ws| - 1], stem) + [stem(ws[|ws| - 1])]
  }

  /** The whitespace-split words of the preprocessed text. */
  function Words(text: string): seq<string> {
    Split(PreprocessText(text))
  }

  /** The words that survive stopword removal; they are what gets stemmed. */
  function KeptWords(text: string, norm: Normalizer): seq<string> {
    WithoutStopwords(DropEmpty(Words(text)), norm.stopwords)
  }

  /** `tokenize(text)` as a value. */
  function Tokens(text: string, norm: Normalizer): seq<string> {
    Stems(KeptWords(text, norm), norm.stem)
  }

  /** `tokenize`: three passes over the words, as the source makes them. */
  method Tokenize(input: string, norm: Normalizer) returns (stemmed: seq<string>)
    ensures stemmed == Tokens(input, norm)
  {
    var text := PreprocessText(input);
    var tokens := Split(text);
    var validTokens := [];
    for i := 0 to |tokens|
      invariant validTokens == DropEmpty(tokens[..i])
    {
      assert tokens[..i + 1][..i] == tokens[..i];
      if tokens[i] != [] {
        validTokens := validTokens + [tokens[i]];
      }
    }
    assert tokens[..|tokens|] == tokens;
    var filteredWords := [];
    for i := 0 to |validTokens|
      invariant filteredWords == WithoutStopwords(validTokens[..i], norm.stopwords)
    {
      assert validTokens[..i + 1][..i] == validTokens[..i];
      if validTokens[i] !in norm.stopwords {
        filteredWords := filteredWords + [validTokens[i]];
      }
    }
    assert validTokens[..|validTokens|] == validTokens;
    stemmed := [];
    for i := 0 to |filteredWords|
      invariant stemmed == Stems(filteredWords[..i], norm.stem)
    {
      assert filteredWords[..i + 1][..i] == filteredWords[..i];
      stemmed := stemmed + [norm.stem(filteredWords[i])];
    }
    assert filteredWords[..|filteredWords|] == filteredWords;
  }

  /** `remove_stopwords`: the input words that are not stopwords, in order. */
  method RemoveStopwords(input: seq<string>, stopwords: seq<string>) returns (output: seq<string>)
    ensures output == WithoutStopwords(input, stopwords)
    ensures forall w :: w in output <==> w in input && w !in stopwords
  {
    output := [];
    for i := 0 to |input|
      invariant output == WithoutStopwords(input[..i], stopwords)
    {
      assert input[..i + 1][..i] == input[..i];
      if input[i] in stopwords {
        continue;
      }
      output := output + [input[i]];
    }
    assert input[..|input|] == input;
    WithoutStopwordsMembership(input, stopwords);
  }

  // --------------------------------------------------------------- properties

  lemma {:induction false} WithoutStopwordsMembership(ws: seq<string>, stopwords: seq<string>)
    ensures forall w :: w in WithoutStopwords(ws, stopwords) <==> w in ws && w !in stopwords
  {
    if ws != [] {
      var init := ws[..|ws| - 1];
      WithoutStopwordsMembership(init, stopwords);
      assert ws == init + [ws[|ws| - 1]];
    }
  }

  /** Stopword removal keeps the relative order: it distributes over concatenation. */
  lemma {:induction false} WithoutStopwordsAppend(a: seq<string>, b: seq<string>, stopwords: seq<string>)
    ensures WithoutStopwords(a + b, stopwords) == WithoutStopwords(a, stopwords) + WithoutStopwords(b, stopwords)
    decreases |b|
  {
    if b == [] {
      assert a + b == a;
    } else {
      assert (a + b)[..|a + b| - 1] == a + b[..|b| - 1];
      WithoutStopwordsAppend(a, b[..|b| - 1], stopwords);
    }
  }

  /** Each word keeps all its occurrences unless it is a stopword, which keeps none. */
  lemma {:induction false} WithoutStopwordsCounts(ws: seq<string>, stopwords: seq<string>, w: string)
    ensures Occurrences(WithoutStopwords(ws, stopwords), w)
            == if w in stopwords then 0 else Occurrences(ws, w)
  {
    if ws != [] {
      var init := ws[..|ws| - 1];
      var last := ws[|ws| - 1];
      WithoutStopwordsCounts(init, stopwords, w);
      OccurrencesAppend(WithoutStopwords(init, stopwords), if last !in stopwords then [last] else [], w);
      assert [last][..0] == [];
    }
  }

  lemma {:induction false} DropEmptyNoop(ws: seq<string>)
    requires forall k :: 0 <= k < |ws| ==> ws[k] != []
    ensures DropEmpty(ws) == ws
  {
    if ws != [] { DropEmptyNoop(ws[..|ws| - 1]); }
  }

  lemma {:induction false} WithoutStopwordsLength(ws: seq<string>, stopwords: seq<string>)
    ensures |WithoutStopwords(ws, stopwords)| <= |ws|
  {
    if ws != [] { WithoutStopwordsLength(ws[..|ws| - 1], stopwords); }
  }

  /** What `tokenize` returns: the non-stopword words of the preprocessed text, in order,
      each replaced by its stem; no empty word is ever kept, and no more tokens come out
      than there are words. */
  lemma TokensFacts(text: string, norm: Normalizer)
    ensures DropEmpty(Words(text)) == Words(text)
    ensures forall w :: w in KeptWords(text, norm) <==> w in Words(text) && w !in norm.stopwords
    ensures forall k :: 0 <= k < |KeptWords(text, norm)| ==> KeptWords(text, norm)[k] != []
    ensures |Tokens(text, norm)| == |KeptWords(text, norm)| <= |Words(text)|
    ensures forall k :: 0 <= k < |Tokens(text, norm)|
                        ==> Tokens(text, norm)[k] == norm.stem(KeptWords(text, norm)[k])
  {
    DropEmptyNoop(Words(text));
    WithoutStopwordsMembership(Words(text), norm.stopwords);
    WithoutStopwordsLength(Words(text), norm.stopwords);
    forall k | 0 <= k < |KeptWords(text, norm)| ensures KeptWords(text, norm)[k] != [] {
      assert KeptWords(text, norm)[k] in Words(text);
    }
  }

  /** Text made only of whitespace and punctuation (including the empty text) has no tokens. */
  lemma BlankTextHasNoTokens(text: string, norm: Normalizer)
    requires forall i :: 0 <= i < |text| ==> IsSpace(text[i]) || IsPunctuation(text[i])
    ensures Tokens(text, norm) == []
  {
    BlankPreprocess(text);
    SplitAllSpace(PreprocessText(text));
    WithoutStopwordsLength(DropEmpty(Words(text)), norm.stopwords);
  }

  lemma {:induction false} BlankPreprocess(text: string)
    requires forall i :: 0 <= i < |text| ==> IsSpace(text[i]) || IsPunctuation(text[i])
    ensures AllSpace(PreprocessText(text))
    decreases |text|
  {
    if text != [] {
      var init, c := text[..|text| - 1], text[|text| - 1];
      BlankPreprocess(init);
      PreprocessTextPerCharacter(init, [c], c);
      assert init + [c] == text;
      BlankCharPreprocess(c);
      AllSpaceAppend(PreprocessText(init), PreprocessText([c]));
    }
  }

  /** A whitespace or punctuation character preprocesses to itself or to nothing. */
  lemma BlankCharPreprocess(c: char)
    requires IsSpace(c) || IsPunctuation(c)
    ensures AllSpace(PreprocessText([c]))
  {
    assert [c][..0] == [];
    assert Lowercase([c]) == [LowerChar(c)];
    assert LowerChar(c) == c;
    assert DeletePunctuation([c]) == if IsPunctuation(c) then [] else [c];
  }

  lemma AllSpaceAppend(a: string, b: string)
    requires AllSpace(a) && AllSpace(b)
    ensures AllSpace(a + b)
  {
    forall i | 0 <= i < |a + b| ensures IsSpace((a + b)[i]) {
      if i < |a| { assert (a + b)[i] == a[i]; } else { assert (a + b)[i] == b[i - |a|]; }
    }
  }

  /** "b" is not in the stopword list ["a"]. */
  lemma OtherWordNotStopword()
    ensures "b" !in ["a"]
  {
    var stop: seq<string> := ["a"];
    assert |stop| == 1 && stop[0] == "a";
    assert "b" != "a" by { assert "b"[0] != "a"[0]; }
  }

  /** Stopwords are removed before stemming, so a stem can itself be a stopword:
      with the stopword "a" and a stemmer that maps every word to "a", the text "b"
      tokenizes to the stopword "a". */
  lemma StemCanBeStopword()
    ensures Tokens("b", Normalizer(["a"], w => "a")) == ["a"]
  {
    var norm := Normalizer(["a"], w => "a");
    WordsOfOneLetter();
    assert DropEmpty(["b"]) == ["b"] by { assert ["b"][..0] == []; }
    OtherWordNotStopword();
    assert WithoutStopwords(["b"], ["a"]) == ["b"] by { assert ["b"][..0] == []; }
    assert KeptWords("b", norm) == ["b"];
  }

  /** The text "b" is the single word "b". */
  lemma WordsOfOneLetter()
    ensures Words("b") == ["b"]
  {
    assert PreprocessText("b") == "b" by {
      LowercaseNoop("b");
      DeletePunctuationNoop("b");
    }
    assert !IsSpace('b');
    assert NoSpace("b") by { assert forall i :: 0 <= i < |"b"| ==> "b"[i] == 'b'; }
    SplitWord("b", []);
    assert "b" + [] == "b";
  }
}
