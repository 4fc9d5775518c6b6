/** The two chunkers of the semantic index: fixed-size word windows and sentence
    windows (cli/lib/semantic_search.py, `fixed_size_chunking` and `semantic_chunking`). */
module Chunking {
  import opened Wrappers
  import opened PyLists
  import opened SearchUtils

  /** ceil(a / b). */
  function CeilDiv(a: nat, b: nat): nat
    requires b > 0
  {
    (a + b - 1) / b
  }

  /** c windows of width b starting at 0, b, 2b, ... are exactly the ones that start
      below a: c * b >= a and (c - 1) * b < a. */
  lemma CeilDivCount(a: nat, b: nat, c: nat)
    requires b > 0
    requires c * b >= a
    requires c == 0 || (c - 1) * b < a
    ensures CeilDiv(a, b) == c
  {
    var q, r := (a + b - 1) / b, (a + b - 1) % b;
    assert a + b - 1 == q * b + r && 0 <= r < b;
    assert q * b < (c + 1) * b;
    MulCancel(q, c + 1, b);
    if c > 0 {
      assert (c - 1) * b + b == c * b;
      assert c * b < (q + 1) * b;
      MulCancel(c, q + 1, b);
    }
  }

  lemma MulMonotone(x: nat, y: nat, b: nat)
    requires x <= y
    ensures x * b <= y * b
  {
  }

  lemma MulCancel(x: nat, y: nat, b: nat)
    requires x * b < y * b
    ensures x < y
  {
    if x >= y {
      MulMonotone(y, x, b);
    }
  }

  lemma DivCeil(n: nat, b: nat)
    requires b > 0
    ensures CeilDiv(n, b) * b >= n
  {
    var q, r := (n + b - 1) / b, (n + b - 1) % b;
    assert n + b - 1 == q * b + r;
  }

  /** Position k lies in the window of `size` elements that starts at j * step. */
  predicate InWindow(j: nat, step: nat, size: nat, k: nat) {
    j * step <= k < j * step + size
  }

  // ------------------------------------------------------------ fixed windows

  /** Where the chunk whose step starts at word i begins: `overlap` words earlier when i
      is at least `overlap`, at i itself before that. */
  function WindowStart(i: nat, overlap: int): nat {
    if i < overlap then i else i - overlap
  }

  /** The words of the chunk whose step starts at word i, up to word i + chunkSize. */
  function FixedWindow(words: seq<string>, i: nat, chunkSize: nat, overlap: int): seq<string> {
    Slice(words, WindowStart(i, overlap), i + chunkSize)
  }

  /** Word k of `words` is in chunk j, at its own position within the chunk's window. */
  predicate WordInChunk(words: seq<string>, chunkSize: nat, overlap: int, j: nat, k: nat) {
    var start := WindowStart(j * chunkSize, overlap);
    var w := FixedWindow(words, j * chunkSize, chunkSize, overlap);
    k < |words| && start <= k < start + |w| && w[k - start] == words[k]
  }

  /** What `fixed_size_chunking` returns for the words of a text: one chunk per step of
      `chunkSize` words, each chunk its window joined by single spaces. */
  function FixedChunks(words: seq<string>, chunkSize: nat, overlap: int): (chunks: seq<string>)
    requires chunkSize > 0
  {
    FirstChunks(words, chunkSize, overlap, CeilDiv(|words|, chunkSize))
  }

  /** The first c of those chunks. */
  function FirstChunks(words: seq<string>, chunkSize: nat, overlap: int, c: nat): seq<string> {
    seq(c, j requires 0 <= j => Join(FixedWindow(words, j * chunkSize, chunkSize, overlap), " "))
  }

  /** One more chunk is the next window joined, appended. */
  lemma FirstChunksStep(words: seq<string>, chunkSize: nat, overlap: int, c: nat)
    ensures FirstChunks(words, chunkSize, overlap, c + 1)
            == FirstChunks(words, chunkSize, overlap, c) + [Join(FixedWindow(words, c * chunkSize, chunkSize, overlap), " ")]
  {
  }

  /** `fixed_size_chunking`. It loops forever for a chunk size below 1 on a text with
      words, hence the precondition. */
  method FixedSizeChunking(text: string, chunkSize: int, overlap: int) returns (chunks: seq<string>)
    requires chunkSize > 0
    ensures chunks == FixedChunks(Split(text), chunkSize, overlap)
  {
    var words := Split(text);
    chunks := [];
    var i := 0;
    while i < |words|
      invariant i == |chunks| * chunkSize
      invariant |chunks| == 0 || i - chunkSize < |words|
      invariant chunks == FirstChunks(words, chunkSize, overlap, |chunks|)
      decreases |words| - i
    {
      var chunkWords;
      if i < overlap {
        chunkWords := Slice(words, i, i + chunkSize);
      } else {
        chunkWords := Slice(words, i - overlap, i + chunkSize);
      }
      assert chunkWords == FixedWindow(words, i, chunkSize, overlap);
      NextChunk(words, chunkSize, overlap, chunks, i);
      chunks := chunks + [Join(chunkWords, " ")];
      i := i + chunkSize;
    }
    if |chunks| > 0 {
      MulSucc(|chunks| - 1, chunkSize);
    }
    CeilDivCount(|words|, chunkSize, |chunks|);
  }

  /** One turn of the `fixed_size_chunking` loop appends the next chunk and moves i on
      by one step. */
  lemma NextChunk(words: seq<string>, chunkSize: nat, overlap: int, chunks: seq<string>, i: nat)
    requires i == |chunks| * chunkSize
    requires chunks == FirstChunks(words, chunkSize, overlap, |chunks|)
    ensures chunks + [Join(FixedWindow(words, i, chunkSize, overlap), " ")] == FirstChunks(words, chunkSize, overlap, |chunks| + 1)
    ensures i + chunkSize == (|chunks| + 1) * chunkSize
  {
    MulSucc(|chunks|, chunkSize);
    FirstChunksStep(words, chunkSize, overlap, |chunks|);
  }

  lemma MulSucc(n: nat, b: nat)
    ensures 0 <= n * b && (n + 1) * b == n * b + b
  {
  }

  /** A text with no words (empty or whitespace only) has no fixed-size chunks. */
  lemma FixedChunksOfBlank(text: string, chunkSize: nat, overlap: int)
    requires chunkSize > 0
    requires AllSpace(text)
    ensures FixedChunks(Split(text), chunkSize, overlap) == []
  {
    SplitAllSpace(text);
  }

  /** The words of the chunks, chunk by chunk. */
  function ChunkWords(chunks: seq<string>): seq<seq<string>> {
    seq(|chunks|, j requires 0 <= j < |chunks| => Split(chunks[j]))
  }

  /** Consecutive windows of b words, the first c of them, put back together. */
  lemma {:induction false} FlattenWindows(words: seq<string>, b: nat, c: nat)
    requires b > 0
    ensures Flatten(Windows(words, b, c)) == words[..Min(c * b, |words|)]
  {
    if c > 0 {
      var ws, init := Windows(words, b, c), Windows(words, b, c - 1);
      MulSucc(c - 1, b);
      var lo := (c - 1) * b;
      var part := Slice(words, lo, lo + b);
      assert ws == init + [part];
      assert ws[..c - 1] == init;
      FlattenWindows(words, b, c - 1);
      if lo <= |words| {
        assert words[..Min(lo + b, |words|)] == words[..lo] + part;
      } else {
        assert part == [];
      }
    }
  }

  /** The windows of the fixed-size chunks without overlap: consecutive slices. */
  function Windows(words: seq<string>, b: nat, c: nat): seq<seq<string>> {
    seq(c, j requires 0 <= j => Slice(words, j * b, j * b + b))
  }

  lemma ChunkWordsNoOverlap(words: seq<string>, chunkSize: nat)
    requires chunkSize > 0
    requires forall k :: 0 <= k < |words| ==> |words[k]| > 0 && NoSpace(words[k])
    ensures ChunkWords(FixedChunks(words, chunkSize, 0)) == Windows(words, chunkSize, CeilDiv(|words|, chunkSize))
  {
    var chunks := FixedChunks(words, chunkSize, 0);
    var windows := Windows(words, chunkSize, CeilDiv(|words|, chunkSize));
    forall j | 0 <= j < |chunks| ensures Split(chunks[j]) == windows[j] {
      var w := windows[j];
      assert FixedWindow(words, j * chunkSize, chunkSize, 0) == w;
      assert forall k :: 0 <= k < |w| ==> w[k] == words[j * chunkSize + k];
      SplitJoin(w);
    }
  }

  /** Without overlap, splitting every chunk again and concatenating the pieces gives
      back the text's words. */
  lemma FixedChunksRoundTrip(text: string, chunkSize: nat)
    requires chunkSize > 0
    ensures Flatten(ChunkWords(FixedChunks(Split(text), chunkSize, 0))) == Split(text)
  {
    var words := Split(text);
    var c := CeilDiv(|words|, chunkSize);
    ChunkWordsNoOverlap(words, chunkSize);
    FlattenWindows(words, chunkSize, c);
    DivCeil(|words|, chunkSize);
    assert Min(c * chunkSize, |words|) == |words|;
    assert words[..|words|] == words;
  }

  /** With a non-negative overlap, every word of the text is in the window of some chunk
      that `fixed_size_chunking` returns: the chunk of the step that contains it. */
  lemma FixedChunksCover(words: seq<string>, chunkSize: nat, overlap: int, k: nat)
    requires chunkSize > 0 && overlap >= 0
    requires k < |words|
    ensures exists j :: 0 <= j < |FixedChunks(words, chunkSize, overlap)| && WordInChunk(words, chunkSize, overlap, j, k)
  {
    var j := k / chunkSize;
    assert InWindow(j, chunkSize, chunkSize, k);
    var c := CeilDiv(|words|, chunkSize);
    DivCeil(|words|, chunkSize);
    if j >= c {
      MulMonotone(c, j, chunkSize);
    }
    assert |FixedChunks(words, chunkSize, overlap)| == c;
    WordInStepChunk(words, chunkSize, overlap, j, k);
  }

  /** Word k is in the chunk of the step that contains it, when the overlap is not negative. */
  lemma WordInStepChunk(words: seq<string>, chunkSize: nat, overlap: int, j: nat, k: nat)
    requires overlap >= 0 && k < |words|
    requires InWindow(j, chunkSize, chunkSize, k)
    ensures WordInChunk(words, chunkSize, overlap, j, k)
  {
    var i := j * chunkSize;
    var start := WindowStart(i, overlap);
    var w := FixedWindow(words, i, chunkSize, overlap);
    assert start <= k;
    assert |w| == Min(i + chunkSize, |words|) - start;
    assert w[k - start] == words[k];
  }

  /** A negative overlap skips words: with chunk size 2 and overlap -1, the chunks of
      `a b c d` are "b" and "d". */
  lemma NegativeOverlapSkipsWords()
    ensures FixedChunks(["a", "b", "c", "d"], 2, -1) == ["b", "d"]
    ensures forall j :: 0 <= j < 2 ==> !WordInChunk(["a", "b", "c", "d"], 2, -1, j, 0)
  {
    var words := ["a", "b", "c", "d"];
    assert CeilDiv(4, 2) == 2;
    assert FixedWindow(words, 0, 2, -1) == ["b"];
    assert FixedWindow(words, 2, 2, -1) == ["d"];
  }

  // --------------------------------------------------------- sentence windows

  predicate IsTerminator(c: char) { c == '.' || c == '!' || c == '?' }

  /** The sentence pattern `(?<=[.!?])\s+` can start matching at position q of t:
      a whitespace character right after a terminator. */
  predicate BreakAt(t: string, q: nat) {
    1 <= q < |t| && IsSpace(t[q]) && IsTerminator(t[q - 1])
  }

  /** The first position p >= from at which the sentence pattern can match; |t| when
      there is none. */
  function FindBreak(t: string, from: nat): (p: nat)
    requires from >= 1
    ensures from <= p <= |t| || (p == from && from > |t|)
    ensures p < |t| ==> BreakAt(t, p)
    ensures forall q :: from <= q < p ==> !BreakAt(t, q)
    decreases |t| - from
  {
    if from >= |t| then from
    else if BreakAt(t, from) then from
    else FindBreak(t, from + 1)
  }

  /** Length of the whitespace run that starts s. */
  function SpaceRun(s: string): (n: nat)
    ensures n <= |s|
    ensures forall i :: 0 <= i < n ==> IsSpace(s[i])
    ensures n < |s| ==> !IsSpace(s[n])
  {
    if s != [] && IsSpace(s[0]) then 1 + SpaceRun(s[1..]) else 0
  }

  /** `re.split(r"(?<=[.!?])\s+", t)`: cut at every whitespace run that follows a
      terminator, dropping the run. */
  function SplitSentences(t: string): (pieces: seq<string>)
    ensures |pieces| >= 1
    decreases |t|
  {
    var p := FindBreak(t, 1);
    if p >= |t| then [t]
    else
      var run := SpaceRun(t[p..]);
      assert run >= 1;
      [t[..p]] + SplitSentences(t[p + run..])
  }

  predicate EndsWithTerminator(t: string) {
    |t| > 0 && IsTerminator(t[|t| - 1])
  }

  /** The sentences `semantic_chunking` works on, for a stripped, non-empty text. */
  function Sentences(t: string): seq<string> {
    var pieces := SplitSentences(t);
    if |pieces| == 1 && !EndsWithTerminator(t) then [t] else pieces
  }

  /** `[s.strip() for s in ss]`. */
  function StripAll(ss: seq<string>): seq<string> {
    seq(|ss|, k requires 0 <= k < |ss| => Strip(ss[k]))
  }

  /** How `semantic_chunking` turns a window of sentences into a chunk: the stripped
      sentences joined by single spaces. */
  function CleanChunk(window: seq<string>): string {
    Join(StripAll(window), " ")
  }

  /** What `semantic_chunking` returns. */
  function SentenceChunks(text: string, maxChunkSize: nat, overlap: nat): seq<string>
    requires overlap < maxChunkSize
  {
    var t := Strip(text);
    if t == [] then []
    else
      SentenceWindows(Sentences(t), maxChunkSize, overlap, CleanChunk)
  }

  /** The starts the sentence loop visits from i on: i, i + step, ... while below `stop`. */
  function WindowStarts(i: nat, step: nat, stop: int): (starts: seq<nat>)
    requires step > 0
    decreases stop - i
  {
    if i >= stop then [] else [i] + WindowStarts(i + step, step, stop)
  }

  /** Where the sentence loop's windows start, for n sentences. */
  function ChunkStarts(n: nat, maxChunkSize: nat, overlap: nat): seq<nat>
    requires overlap < maxChunkSize
  {
    WindowStarts(0, maxChunkSize - overlap, n - overlap)
  }

  /** The chunks of the sentence loop: the windows of `maxChunkSize` sentences, each
      starting `maxChunkSize - overlap` sentences after the previous one, for every
      start below `|sentences| - overlap`, each turned into a chunk by `clean`. */
  function SentenceWindows(sentences: seq<string>, maxChunkSize: nat, overlap: nat, clean: seq<string> -> string): seq<string>
    requires overlap < maxChunkSize
  {
    ChunksAt(sentences, ChunkStarts(|sentences|, maxChunkSize, overlap), maxChunkSize, clean)
  }

  /** The chunks of the windows of `size` sentences starting at each of `starts`. */
  function ChunksAt(sentences: seq<string>, starts: seq<nat>, size: nat, clean: seq<string> -> string): seq<string> {
    seq(|starts|, j requires 0 <= j < |starts| => clean(Slice(sentences, starts[j], starts[j] + size)))
  }

  /** The windows of one more start are those before it and the window at that start. */
  lemma ChunksAtSnoc(sentences: seq<string>, starts: seq<nat>, c: nat, size: nat, clean: seq<string> -> string)
    requires c < |starts|
    ensures ChunksAt(sentences, starts[..c + 1], size, clean)
            == ChunksAt(sentences, starts[..c], size, clean) + [clean(Slice(sentences, starts[c], starts[c] + size))]
  {
  }

  /** `semantic_chunking`. The step is `maxChunkSize - overlap`; a step below 1, or a
      negative overlap (which can leave the loop spinning on an empty window), never
      finishes, hence the precondition. */
  method SemanticChunking(text: string, maxChunkSize: int, overlap: int) returns (chunks: seq<string>)
    requires 0 <= overlap < maxChunkSize
    ensures chunks == SentenceChunks(text, maxChunkSize, overlap)
  {
    var t := Strip(text);
    if t == [] {
      return [];
    }
    var splitText := SplitSentences(t);
    if |splitText| == 1 && !EndsWithTerminator(t) {
      splitText := [t];
    }
    chunks := TakeWindows(splitText, maxChunkSize, overlap, CleanChunk);
  }

  /** The window loop of `semantic_chunking`, with the making of a chunk out of a
      window of sentences left to `clean`. */
  method TakeWindows(splitText: seq<string>, maxChunkSize: int, overlap: int, clean: seq<string> -> string)
    returns (chunks: seq<string>)
    requires 0 <= overlap < maxChunkSize
    ensures chunks == SentenceWindows(splitText, maxChunkSize, overlap, clean)
  {
    chunks := [];
    var i: nat := 0;
    var n := |splitText|;
    var step: nat := maxChunkSize - overlap;
    ghost var starts := ChunkStarts(n, maxChunkSize, overlap);
    assert starts[0..] == starts;
    while i < n - overlap
      invariant |chunks| <= |starts| && starts[|chunks|..] == WindowStarts(i, step, n - overlap)
      invariant chunks == ChunksAt(splitText, starts[..|chunks|], maxChunkSize, clean)
      decreases n - overlap - i
    {
      var chunk := Slice(splitText, i, i + maxChunkSize);
      // the source's `continue` on an empty window cannot be reached: i < n here
      assert chunk != [];
      NextWindow(splitText, starts, chunks, i, step, n - overlap, maxChunkSize, clean);
      chunks := chunks + [clean(chunk)];
      i := i + step;
    }
    assert starts[|chunks|..] == [];
    assert starts[..|starts|] == starts;
  }

  /** One turn of the sentence loop appends the window at i and moves to the next start. */
  lemma NextWindow(sentences: seq<string>, starts: seq<nat>, chunks: seq<string>, i: nat, step: nat, stop: int,
                   size: nat, clean: seq<string> -> string)
    requires step > 0 && i < stop
    requires |chunks| <= |starts| && starts[|chunks|..] == WindowStarts(i, step, stop)
    requires chunks == ChunksAt(sentences, starts[..|chunks|], size, clean)
    ensures |chunks| + 1 <= |starts| && starts[|chunks| + 1..] == WindowStarts(i + step, step, stop)
    ensures chunks + [clean(Slice(sentences, i, i + size))] == ChunksAt(sentences, starts[..|chunks| + 1], size, clean)
  {
    WindowStartsNext(starts, |chunks|, i, step, stop);
    ChunksAtSnoc(sentences, starts, |chunks|, size, clean);
  }

  /** One step of the sentence loop: the suffix of starts still to visit begins at i. */
  lemma WindowStartsNext(starts: seq<nat>, c: nat, i: nat, step: nat, stop: int)
    requires step > 0 && i < stop
    requires c <= |starts| && starts[c..] == WindowStarts(i, step, stop)
    ensures c < |starts| && starts[c] == i && starts[c + 1..] == WindowStarts(i + step, step, stop)
  {
    assert starts[c..] == [i] + WindowStarts(i + step, step, stop);
    assert starts[c + 1..] == starts[c..][1..];
  }

  /** Empty or whitespace-only text has no sentence chunks. */
  lemma SentenceChunksOfBlank(text: string, maxChunkSize: nat, overlap: nat)
    requires overlap < maxChunkSize
    requires AllSpace(text)
    ensures SentenceChunks(text, maxChunkSize, overlap) == []
  {
    StripEmpty(text);
  }

  /** With no more sentences than the overlap, the loop never starts: a non-empty
      text of one sentence and an overlap of 1 gives no chunk at all. */
  lemma OneSentenceWithOverlapOne()
    ensures SentenceChunks("Hi.", 2, 1) == []
  {
    var t := "Hi.";
    assert !IsSpace(t[0]) && !IsSpace(t[1]) && !IsSpace(t[2]);
    assert StripLeading(t) == t;
    assert StripTrailing(t) == t;
    assert FindBreak(t, 3) == 3;
    assert FindBreak(t, 2) == 3;
    assert FindBreak(t, 1) == 3;
    assert SplitSentences(t) == [t];
    assert Sentences(t) == [t];
  }

  /** The loop's windows from start i on cover every position from i up to the end of
      the last window: each such k lies in the window whose start p is the last start
      not after k. */
  lemma {:induction false} WindowStartsCover(i: nat, size: nat, step: nat, stop: int, k: nat)
    requires 0 < step <= size
    requires i < stop && i <= k < stop + (size - step)
    ensures exists p :: p in WindowStarts(i, step, stop) && p <= k < p + size
    decreases k - i
  {
    var starts := WindowStarts(i, step, stop);
    assert starts == [i] + WindowStarts(i + step, step, stop);
    if k < i + size {
      assert i in starts && i <= k < i + size;
    } else {
      assert i + step < stop;
      var rest := WindowStarts(i + step, step, stop);
      WindowStartsCover(i + step, size, step, stop, k);
      var p :| p in rest && p <= k < p + size;
      assert p in starts;
    }
  }

  /** When there are more sentences than the overlap, every sentence lies in the
      window of some chunk. */
  lemma SentenceWindowsCover(n: nat, maxChunkSize: nat, overlap: nat, k: nat)
    requires overlap < maxChunkSize
    requires overlap < n && k < n
    ensures exists p :: p in ChunkStarts(n, maxChunkSize, overlap) && p <= k < p + maxChunkSize
  {
    var starts := WindowStarts(0, maxChunkSize - overlap, n - overlap);
    WindowStartsCover(0, maxChunkSize, maxChunkSize - overlap, n - overlap, k);
    var p :| p in starts && p <= k < p + maxChunkSize;
    assert p in ChunkStarts(n, maxChunkSize, overlap);
  }

  /** Every sentence but the last ends with a terminator: that is where the text was cut. */
  lemma {:induction false} SentencesEndWithTerminators(t: string)
    ensures forall k :: 0 <= k < |SplitSentences(t)| - 1 ==> EndsWithTerminator(SplitSentences(t)[k])
    decreases |t|
  {
    var ss := SplitSentences(t);
    var p := FindBreak(t, 1);
    if p < |t| {
      var run := SpaceRun(t[p..]);
      var rest := t[p + run..];
      SentencesEndWithTerminators(rest);
      var tail := SplitSentences(rest);
      assert ss == [t[..p]] + tail;
      assert EndsWithTerminator(t[..p]) by {
        assert t[..p][p - 1] == t[p - 1];
      }
      forall k | 0 <= k < |ss| - 1 ensures EndsWithTerminator(ss[k]) {
        if k > 0 {
          assert ss[k] == tail[k - 1];
        }
      }
    }
  }
}
