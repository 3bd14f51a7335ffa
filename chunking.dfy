/**
 * `nlp/chunking.py`: fixed-stride word windows over a section's text, each
 * window but the last pulled back to a sentence boundary, every window turned
 * into a `TextChunk` record.
 *
 * nltk's `word_tokenize` and `sent_tokenize` are the chunker's `wordTok` and
 * `sentTok`: arbitrary functions, about which nothing is assumed.
 */
module Chunking {
  import opened Wrappers
  import opened Text
  import PdfLoader

  /**
   * A `TextChunker`: the three settings it reads from the configuration
   * (`CHUNK_MAX_WORDS`, `CHUNK_OVERLAP_WORDS`, `CHUNK_MIN_SIZE`) and the two
   * tokenizers.
   */
  datatype Chunker = Chunker(
    maxWords: int,
    overlapWords: int,
    minChunkSize: int,
    wordTok: string -> seq<string>,
    sentTok: string -> seq<string>)

  /** Settings under which the window loop ends: a positive window and a positive stride. */
  predicate Valid(c: Chunker) {
    c.maxWords > 0 && c.maxWords > c.overlapWords
  }

  /** How far `start_idx` moves from one window to the next. */
  function Step(c: Chunker): int {
    c.maxWords - c.overlapWords
  }

  datatype TextChunk = TextChunk(
    chunkText: string,
    heading: string,
    startPage: int,
    endPage: int,
    model: string,
    year: Option<string>,
    sourcePdf: string,
    wordCount: nat,
    sentenceCount: nat,
    chunkIndex: int,
    totalChunks: int)

  /**
   * What `_chunk_section` is handed: a mapping with the section's keys, or a
   * `PDFSection` record itself, which cannot be subscripted.
   */
  datatype SectionInput = Mapping(section: PdfLoader.Section) | Record(section: PdfLoader.Section)

  const NotSubscriptable := "'PDFSection' object is not subscriptable"
  const IndexOutOfRange := "list index out of range"

  function Min(a: int, b: int): int {
    if a <= b then a else b
  }

  /** `_create_chunk`: the section's fields, the chunk's own word and sentence counts, its place. */
  function CreateChunk(c: Chunker, text: string, s: PdfLoader.Section, index: int, total: int): (r: TextChunk)
    ensures r.chunkText == text && r.chunkIndex == index && r.totalChunks == total
    ensures r.heading == s.heading && r.startPage == s.startPage && r.endPage == s.endPage
    ensures r.model == s.model && r.year == s.year && r.sourcePdf == s.sourcePdf
    ensures r.wordCount == |c.wordTok(text)| && r.sentenceCount == |c.sentTok(text)|
  {
    TextChunk(text, s.heading, s.startPage, s.endPage, s.model, s.year, s.sourcePdf,
              |c.wordTok(text)|, |c.sentTok(text)|, index, total)
  }

  /** Ceiling division of a count by a positive divisor, as the source spells it. */
  function CeilDiv(n: nat, d: int): int
    requires d > 0
  {
    (n + d - 1) / d
  }

  /** The number of window starts `0, step, 2*step, ...` below `n`. */
  function WindowCount(n: int, step: int): (r: nat)
    requires step > 0
    ensures r == 0 <==> n <= 0
    decreases n
  {
    if n <= 0 then 0 else 1 + WindowCount(n - step, step)
  }

  /** Window `k` starts inside the text exactly when `k` is below the window count. */
  lemma {:induction false} WindowCountSpec(n: int, step: int, k: nat)
    requires step > 0
    ensures k * step < n <==> k < WindowCount(n, step)
    decreases k
  {
    if k > 0 && n > 0 {
      WindowCountSpec(n - step, step, k - 1);
      assert k * step == (k - 1) * step + step;
    }
  }

  /** Euclidean division has one quotient: any `q` with `a == d * q + r`, `0 <= r < d` is `a / d`. */
  lemma DivUnique(a: int, d: int, q: int, r: int)
    requires d > 0 && a == d * q + r && 0 <= r < d
    ensures a / d == q
  {
    var q', r' := a / d, a % d;
    assert a == d * q' + r';
    assert d * (q - q') == r' - r;
    MulAtLeast(d, q - q');
    MulAtLeast(d, q' - q);
  }

  lemma MulAtLeast(d: int, x: int)
    requires d > 0
    ensures x >= 1 ==> d * x >= d
  {
    if x >= 1 {
      assert d * x == d + d * (x - 1);
    }
  }

  /** The window count is the ceiling of `n / step`. */
  lemma {:induction false} WindowCountIsCeiling(n: nat, step: int)
    requires step > 0
    ensures WindowCount(n, step) == CeilDiv(n, step)
    decreases n
  {
    if n == 0 {
      DivUnique(step - 1, step, 0, step - 1);
    } else if n <= step {
      DivUnique(n + step - 1, step, 1, n - 1);
    } else {
      WindowCountIsCeiling(n - step, step);
      var q, r := (n - 1) / step, (n - 1) % step;
      DivUnique(n - step + step - 1, step, q - 1 + 1, r);
      DivUnique(n + step - 1, step, q + 1, r);
    }
  }

  /** A larger stride never needs more windows. */
  lemma WindowCountAntitone(n: int, s1: int, s2: int)
    requires 0 < s1 <= s2
    ensures WindowCount(n, s2) <= WindowCount(n, s1)
  {
    var k := WindowCount(n, s2);
    if k > 0 {
      WindowCountSpec(n, s2, k - 1);
      assert (k - 1) * s1 <= (k - 1) * s2;
      WindowCountSpec(n, s1, k - 1);
    }
  }

  /**
   * The text of the window starting at word `start`: the words up to
   * `start + max_words` joined by spaces; unless the window reaches the end,
   * an unfinished last sentence is dropped when there is another sentence.
   * The last sentence is read with `[-1]`, which fails on an empty list.
   */
  function WindowText(c: Chunker, words: seq<string>, start: nat): (r: Result<string>)
    requires Valid(c) && start < |words|
    ensures start + c.maxWords >= |words| ==> r == Ok(Join(words[start..], " "))
    ensures r.Err? <==> start + c.maxWords < |words| && c.sentTok(Join(words[start..start + c.maxWords], " ")) == []
    // A window short of the end is kept whole when its last sentence is finished or is its only one ...
    ensures start + c.maxWords < |words| ==>
      var t := Join(words[start..start + c.maxWords], " ");
      var ss := c.sentTok(t);
      ss != [] && (EndsWithTerminator(ss[|ss| - 1]) || |ss| == 1) ==> r == Ok(t)
    // ... and otherwise loses its unfinished last sentence.
    ensures start + c.maxWords < |words| ==>
      var ss := c.sentTok(Join(words[start..start + c.maxWords], " "));
      |ss| > 1 && !EndsWithTerminator(ss[|ss| - 1]) ==> r == Ok(Join(ss[..|ss| - 1], " "))
  {
    var end := Min(start + c.maxWords, |words|);
    var text := Join(words[start..end], " ");
    assert end == |words| ==> words[start..end] == words[start..];
    if end < |words| then
      var sentences := c.sentTok(text);
      if sentences == [] then Err(IndexOutOfRange)
      else if !EndsWithTerminator(sentences[|sentences| - 1]) && |sentences| > 1 then
        Ok(Join(sentences[..|sentences| - 1], " "))
      else Ok(text)
    else Ok(text)
  }

  /** The chunks of the first `k` windows, or the first failure among them. */
  function Windows(c: Chunker, words: seq<string>, s: PdfLoader.Section, k: nat): (r: Result<seq<TextChunk>>)
    requires Valid(c) && k <= WindowCount(|words|, Step(c))
    ensures r.Ok? ==> |r.value| == k
  {
    if k == 0 then Ok([])
    else
      WindowCountSpec(|words|, Step(c), k - 1);
      match Windows(c, words, s, k - 1)
      case Err(e) => Err(e)
      case Ok(prev) =>
        match WindowText(c, words, (k - 1) * Step(c))
        case Err(e) => Err(e)
        case Ok(text) => Ok(prev + [CreateChunk(c, text, s, k - 1, CeilDiv(|words|, c.maxWords))])
  }

  /** Chunk `i` is made from the text of the window starting at word `i * step`. */
  lemma {:induction false} WindowsChunks(c: Chunker, words: seq<string>, s: PdfLoader.Section, k: nat)
    requires Valid(c) && k <= WindowCount(|words|, Step(c))
    requires Windows(c, words, s, k).Ok?
    ensures var r := Windows(c, words, s, k).value;
      forall i :: 0 <= i < k ==>
        && i * Step(c) < |words|
        && WindowText(c, words, i * Step(c)) == Ok(r[i].chunkText)
        && r[i] == CreateChunk(c, r[i].chunkText, s, i, CeilDiv(|words|, c.maxWords))
  {
    if k > 0 {
      WindowsChunks(c, words, s, k - 1);
      WindowCountSpec(|words|, Step(c), k - 1);
    }
  }

  /** One more window that succeeds appends its chunk. */
  lemma WindowsNext(c: Chunker, words: seq<string>, s: PdfLoader.Section, k: nat, chunks: seq<TextChunk>, text: string)
    requires Valid(c) && k < WindowCount(|words|, Step(c)) && k * Step(c) < |words|
    requires Windows(c, words, s, k) == Ok(chunks)
    requires WindowText(c, words, k * Step(c)) == Ok(text)
    ensures Windows(c, words, s, k + 1) == Ok(chunks + [CreateChunk(c, text, s, k, CeilDiv(|words|, c.maxWords))])
  {
  }

  /** One more window that fails makes the run fail. */
  lemma WindowsFail(c: Chunker, words: seq<string>, s: PdfLoader.Section, k: nat)
    requires Valid(c) && k < WindowCount(|words|, Step(c)) && k * Step(c) < |words|
    requires Windows(c, words, s, k).Ok?
    requires WindowText(c, words, k * Step(c)).Err?
    ensures Windows(c, words, s, k + 1) == Err(IndexOutOfRange)
  {
  }

  /** A window that fails makes the whole section fail. */
  lemma WindowsAbort(c: Chunker, words: seq<string>, s: PdfLoader.Section, k: nat)
    requires Valid(c) && k < WindowCount(|words|, Step(c)) && k * Step(c) < |words|
    requires Windows(c, words, s, k).Ok?
    requires WindowText(c, words, k * Step(c)).Err?
    ensures Windows(c, words, s, WindowCount(|words|, Step(c))) == Err(IndexOutOfRange)
  {
    WindowsFail(c, words, s, k);
    WindowsErrSticky(c, words, s, k + 1, WindowCount(|words|, Step(c)));
  }

  /** Once a window fails, so does every longer run of windows, with the same error. */
  lemma {:induction false} WindowsErrSticky(c: Chunker, words: seq<string>, s: PdfLoader.Section, k: nat, k': nat)
    requires Valid(c) && k <= k' <= WindowCount(|words|, Step(c))
    requires Windows(c, words, s, k).Err?
    ensures Windows(c, words, s, k') == Windows(c, words, s, k)
    decreases k' - k
  {
    if k < k' {
      WindowsErrSticky(c, words, s, k, k' - 1);
    }
  }

  /** `_chunk_section` on one section. */
  function SectionChunks(c: Chunker, input: SectionInput): (r: Result<seq<TextChunk>>)
    requires Valid(c)
    ensures input.Record? ==> r == Err(NotSubscriptable)
    ensures input.Mapping? && |Strip(input.section.text)| == 0 ==> r == Ok([])
  {
    if input.Record? then Err(NotSubscriptable)
    else
      var s := input.section;
      if s.text == [] || |Strip(s.text)| == 0 then Ok([])
      else
        var words := c.wordTok(s.text);
        if |words| < c.minChunkSize then Ok([CreateChunk(c, s.text, s, 0, 1)])
        else Windows(c, words, s, WindowCount(|words|, Step(c)))
  }

  /** The body of the window loop up to the chunk's text: cut, join, pull back to a sentence end. */
  method CutWindow(c: Chunker, words: seq<string>, startIdx: nat) returns (r: Result<string>)
    requires Valid(c) && startIdx < |words|
    ensures r == WindowText(c, words, startIdx)
  {
    var endIdx := Min(startIdx + c.maxWords, |words|);
    var chunkText := Join(words[startIdx..endIdx], " ");
    if endIdx < |words| {
      var lastSentences := c.sentTok(chunkText);
      if lastSentences == [] {
        return Err(IndexOutOfRange);
      }
      if !EndsWithTerminator(lastSentences[|lastSentences| - 1]) {
        var currentSentences := c.sentTok(chunkText);
        if |currentSentences| > 1 {
          chunkText := Join(currentSentences[..|currentSentences| - 1], " ");
        }
      }
    }
    return Ok(chunkText);
  }

  method ChunkSection(c: Chunker, input: SectionInput) returns (r: Result<seq<TextChunk>>)
    requires Valid(c)
    ensures r == SectionChunks(c, input)
  {
    if input.Record? {
      return Err(NotSubscriptable);
    }
    var section := input.section;
    var text := section.text;
    if text == [] || |Strip(text)| == 0 {
      return Ok([]);
    }
    var words := c.wordTok(text);
    if |words| < c.minChunkSize {
      return Ok([CreateChunk(c, text, section, 0, 1)]);
    }
    r := ChunkWindows(c, words, section);
  }

  /** The window loop of `_chunk_section`, over the section's words. */
  method ChunkWindows(c: Chunker, words: seq<string>, section: PdfLoader.Section) returns (r: Result<seq<TextChunk>>)
    requires Valid(c)
    ensures r == Windows(c, words, section, WindowCount(|words|, Step(c)))
  {
    var count := WindowCount(|words|, Step(c));
    var chunks: seq<TextChunk> := [];
    var startIdx := 0;
    var chunkIndex := 0;
    while startIdx < |words|
      invariant startIdx == chunkIndex * Step(c)
      invariant chunkIndex <= count
      invariant Windows(c, words, section, chunkIndex) == Ok(chunks)
      decreases |words| - startIdx
    {
      WindowCountSpec(|words|, Step(c), chunkIndex);
      var window := CutWindow(c, words, startIdx);
      if window.Err? {
        WindowsAbort(c, words, section, chunkIndex);
        return Err(IndexOutOfRange);
      }
      var chunkText := window.value;
      WindowsNext(c, words, section, chunkIndex, chunks, chunkText);
      chunks := chunks + [CreateChunk(c, chunkText, section, chunkIndex, CeilDiv(|words|, c.maxWords))];
      assert (chunkIndex + 1) * Step(c) == chunkIndex * Step(c) + Step(c);
      startIdx := startIdx + Step(c);
      chunkIndex := chunkIndex + 1;
    }
    WindowCountSpec(|words|, Step(c), chunkIndex);
    return Ok(chunks);
  }

  /** `TextChunker.chunk`: the sections' chunks in section order; a section that fails adds nothing. */
  function ChunkAll(c: Chunker, content: seq<SectionInput>): seq<TextChunk>
    requires Valid(c)
  {
    if content == [] then []
    else
      var last := SectionChunks(c, content[|content| - 1]);
      ChunkAll(c, content[..|content| - 1]) + (if last.Ok? then last.value else [])
  }

  method Chunk(c: Chunker, content: seq<SectionInput>) returns (all: seq<TextChunk>)
    requires Valid(c)
    ensures all == ChunkAll(c, content)
  {
    all := [];
    for i := 0 to |content|
      invariant all == ChunkAll(c, content[..i])
    {
      var sectionChunks := ChunkSection(c, content[i]);
      if sectionChunks.Ok? {
        all := all + sectionChunks.value;
      }
      assert content[..i + 1][..i] == content[..i];
    }
    assert content[..|content|] == content;
  }

  // ---------------------------------------------------------------- properties

  /** Empty or whitespace-only text gives no chunks. */
  lemma BlankSectionNoChunks(c: Chunker, s: PdfLoader.Section)
    requires Valid(c)
    requires forall k :: 0 <= k < |s.text| ==> IsSpace(s.text[k])
    ensures SectionChunks(c, Mapping(s)) == Ok([])
  {
  }

  /** A section with fewer words than the minimum is one chunk holding its text verbatim. */
  lemma SmallSectionOneChunk(c: Chunker, s: PdfLoader.Section)
    requires Valid(c)
    requires exists k :: 0 <= k < |s.text| && !IsSpace(s.text[k])
    requires |c.wordTok(s.text)| < c.minChunkSize
    ensures var r := SectionChunks(c, Mapping(s));
      && r.Ok? && |r.value| == 1
      && r.value[0].chunkText == s.text && r.value[0].chunkIndex == 0 && r.value[0].totalChunks == 1
  {
  }

  /**
   * A section chunked by windows yields one chunk per window start `k * step`
   * below the word count, numbered `0, 1, 2, ...`, each carrying the estimate
   * `ceil(n / max_words)` as its total and the section's own fields.
   */
  lemma WindowedSectionChunks(c: Chunker, s: PdfLoader.Section)
    requires Valid(c)
    requires exists k :: 0 <= k < |s.text| && !IsSpace(s.text[k])
    requires |c.wordTok(s.text)| >= c.minChunkSize
    requires SectionChunks(c, Mapping(s)).Ok?
    ensures var r := SectionChunks(c, Mapping(s)).value;
      var n := |c.wordTok(s.text)|;
      && |r| == CeilDiv(n, Step(c))
      && forall i :: 0 <= i < |r| ==>
           && r[i].chunkIndex == i && r[i].totalChunks == CeilDiv(n, c.maxWords)
           && r[i].heading == s.heading && r[i].startPage == s.startPage && r[i].endPage == s.endPage
           && r[i].model == s.model && r[i].year == s.year && r[i].sourcePdf == s.sourcePdf
  {
    var words := c.wordTok(s.text);
    WindowCountIsCeiling(|words|, Step(c));
    WindowsChunks(c, words, s, WindowCount(|words|, Step(c)));
  }

  /** Word `j` lies in the window starting at `k * step`, `maxWords` long. */
  predicate InWindow(j: int, k: nat, step: int, maxWords: int) {
    k * step <= j < k * step + maxWords
  }

  /** With a non-negative overlap every word lies in a window: word `j` in window `j / step`. */
  lemma WindowsCover(n: nat, maxWords: int, overlapWords: int, j: nat)
    requires 0 <= overlapWords < maxWords && j < n
    ensures j / (maxWords - overlapWords) < WindowCount(n, maxWords - overlapWords)
    ensures InWindow(j, j / (maxWords - overlapWords), maxWords - overlapWords, maxWords)
  {
    var step := maxWords - overlapWords;
    var k := j / step;
    assert k * step <= j < k * step + step;
    WindowCountSpec(n, step, k);
  }

  /**
   * The `total_chunks` estimate never exceeds the number of windows actually
   * taken when the overlap is non-negative.
   */
  lemma EstimateAtMostWindows(n: nat, c: Chunker)
    requires Valid(c) && c.overlapWords >= 0
    ensures CeilDiv(n, c.maxWords) <= WindowCount(n, Step(c))
  {
    WindowCountIsCeiling(n, c.maxWords);
    WindowCountAntitone(n, Step(c), c.maxWords);
  }

  /** The estimate and the count differ: 10 words, windows of 4 overlapping by 2. */
  lemma EstimateDiffersExample()
    ensures CeilDiv(10, 4) == 3 && WindowCount(10, 4 - 2) == 5
  {
  }

  lemma {:induction false} ChunkAllAppend(c: Chunker, a: seq<SectionInput>, b: seq<SectionInput>)
    requires Valid(c)
    ensures ChunkAll(c, a + b) == ChunkAll(c, a) + ChunkAll(c, b)
    decreases |b|
  {
    if b == [] {
      assert a + b == a;
    } else {
      var init := b[..|b| - 1];
      var last := SectionChunks(c, b[|b| - 1]);
      var added := if last.Ok? then last.value else [];
      ChunkAllAppend(c, a, init);
      assert (a + b)[..|a + b| - 1] == a + init;
      assert (a + b)[|a + b| - 1] == b[|b| - 1];
      assert ChunkAll(c, a + b) == ChunkAll(c, a + init) + added;
      assert ChunkAll(c, b) == ChunkAll(c, init) + added;
    }
  }

  /** Every chunk of a section carries the section's model, year and source file. */
  lemma SectionChunksSource(c: Chunker, input: SectionInput)
    requires Valid(c) && SectionChunks(c, input).Ok?
    ensures forall t :: t in SectionChunks(c, input).value ==>
      t.model == input.section.model && t.year == input.section.year && t.sourcePdf == input.section.sourcePdf
  {
    var s := input.section;
    if s.text != [] && |Strip(s.text)| != 0 && |c.wordTok(s.text)| >= c.minChunkSize {
      var words := c.wordTok(s.text);
      WindowsChunks(c, words, s, WindowCount(|words|, Step(c)));
    }
  }

  /** Sections that all come from one file give chunks that all name that file. */
  lemma {:induction false} ChunksFromFile(c: Chunker, content: seq<SectionInput>, pdf: string)
    requires Valid(c)
    requires forall i :: 0 <= i < |content| ==> content[i].section.sourcePdf == pdf
    ensures forall t :: t in ChunkAll(c, content) ==> t.sourcePdf == pdf
    decreases |content|
  {
    if content != [] {
      var last := content[|content| - 1];
      ChunksFromFile(c, content[..|content| - 1], pdf);
      if SectionChunks(c, last).Ok? {
        SectionChunksSource(c, last);
      }
    }
  }

  /** Sections handed over as records, not mappings, produce no chunks at all. */
  lemma {:induction false} RecordsYieldNothing(c: Chunker, content: seq<SectionInput>)
    requires Valid(c)
    requires forall i :: 0 <= i < |content| ==> content[i].Record?
    ensures ChunkAll(c, content) == []
    decreases |content|
  {
    if content != [] {
      RecordsYieldNothing(c, content[..|content| - 1]);
    }
  }

  /** Every section as the `PDFSection` record itself, as `process_pdf` hands it over. */
  function AsRecords(sections: seq<PdfLoader.Section>): (r: seq<SectionInput>)
    ensures |r| == |sections|
    ensures forall i :: 0 <= i < |r| ==> r[i] == Record(sections[i])
  {
    seq(|sections|, i requires 0 <= i < |sections| => Record(sections[i]))
  }

  /** Chunking yields nothing exactly when no section that chunks successfully yields a chunk. */
  lemma {:induction false} ChunkAllEmpty(c: Chunker, content: seq<SectionInput>)
    requires Valid(c)
    ensures ChunkAll(c, content) == [] <==>
      forall i :: 0 <= i < |content| ==> SectionChunks(c, content[i]).Ok? ==> SectionChunks(c, content[i]).value == []
    decreases |content|
  {
    if content != [] {
      var n := |content| - 1;
      ChunkAllEmpty(c, content[..n]);
      assert forall i :: 0 <= i < n ==> content[..n][i] == content[i];
    }
  }

  /** Every section as the mapping `_chunk_section` subscripts. */
  function AsMappings(sections: seq<PdfLoader.Section>): (r: seq<SectionInput>)
    ensures |r| == |sections|
    ensures forall i :: 0 <= i < |r| ==> r[i] == Mapping(sections[i])
  {
    seq(|sections|, i requires 0 <= i < |sections| => Mapping(sections[i]))
  }

  /**
   * Handed as mappings, a section with some text whose chunking succeeds
   * contributes at least one chunk, in place.
   */
  lemma MappedSectionChunked(c: Chunker, before: seq<PdfLoader.Section>, s: PdfLoader.Section)
    requires Valid(c)
    requires exists k :: 0 <= k < |s.text| && !IsSpace(s.text[k])
    requires c.minChunkSize > 0 || |c.wordTok(s.text)| > 0
    requires SectionChunks(c, Mapping(s)).Ok?
    ensures |SectionChunks(c, Mapping(s)).value| >= 1
    ensures ChunkAll(c, AsMappings(before + [s]))
         == ChunkAll(c, AsMappings(before)) + SectionChunks(c, Mapping(s)).value
  {
    NonBlankSectionChunked(c, s);
    var m := AsMappings(before + [s]);
    assert m[..|m| - 1] == AsMappings(before);
    assert m[|m| - 1] == Mapping(s);
  }

  lemma NonBlankSectionChunked(c: Chunker, s: PdfLoader.Section)
    requires Valid(c)
    requires exists k :: 0 <= k < |s.text| && !IsSpace(s.text[k])
    requires c.minChunkSize > 0 || |c.wordTok(s.text)| > 0
    requires SectionChunks(c, Mapping(s)).Ok?
    ensures |SectionChunks(c, Mapping(s)).value| >= 1
  {
    StripSpec(s.text);
    var words := c.wordTok(s.text);
    if |words| >= c.minChunkSize {
      assert WindowCount(|words|, Step(c)) > 0;
    }
  }

  // ---------------------------------------------------------------- dictionaries

  /** A value of the dictionaries the module-level `chunk` returns. */
  datatype Value = Str(s: string) | Int(i: int) | Null

  function OptionValue(o: Option<string>): Value {
    if o.Some? then Str(o.value) else Null
  }

  const ChunkKeys: set<string> := {"chunk_text", "heading", "start_page", "end_page", "model", "year",
                                   "source_pdf", "word_count", "sentence_count", "chunk_index", "total_chunks"}

  /** One chunk as a dictionary, field by field. */
  function AsDict(t: TextChunk): (d: map<string, Value>)
    ensures d.Keys == ChunkKeys
  {
    map["chunk_text" := Str(t.chunkText), "heading" := Str(t.heading), "start_page" := Int(t.startPage),
        "end_page" := Int(t.endPage), "model" := Str(t.model), "year" := OptionValue(t.year),
        "source_pdf" := Str(t.sourcePdf), "word_count" := Int(t.wordCount),
        "sentence_count" := Int(t.sentenceCount), "chunk_index" := Int(t.chunkIndex),
        "total_chunks" := Int(t.totalChunks)]
  }

  /** Reads a chunk back from a dictionary built by `AsDict`. */
  function FromDict(d: map<string, Value>): Option<TextChunk> {
    if && ChunkKeys <= d.Keys
       && d["chunk_text"].Str? && d["heading"].Str? && d["start_page"].Int? && d["end_page"].Int?
       && d["model"].Str? && !d["year"].Int? && d["source_pdf"].Str?
       && d["word_count"].Int? && d["word_count"].i >= 0
       && d["sentence_count"].Int? && d["sentence_count"].i >= 0
       && d["chunk_index"].Int? && d["total_chunks"].Int?
    then
      var year := if d["year"].Str? then Some(d["year"].s) else None;
      Some(TextChunk(d["chunk_text"].s, d["heading"].s, d["start_page"].i, d["end_page"].i, d["model"].s,
                     year, d["source_pdf"].s, d["word_count"].i, d["sentence_count"].i,
                     d["chunk_index"].i, d["total_chunks"].i))
    else None
  }

  /** The dictionary loses nothing: the chunk can be read back from it. */
  lemma DictRoundTrip(t: TextChunk)
    ensures FromDict(AsDict(t)) == Some(t)
  {
  }

  /** The module-level `chunk`: the chunker's output as dictionaries, in the same order. */
  function ChunkDicts(c: Chunker, content: seq<SectionInput>): (r: seq<map<string, Value>>)
    requires Valid(c)
    ensures |r| == |ChunkAll(c, content)|
    ensures forall i :: 0 <= i < |r| ==> FromDict(r[i]) == Some(ChunkAll(c, content)[i])
  {
    var chunks := ChunkAll(c, content);
    var r := seq(|chunks|, i requires 0 <= i < |chunks| => AsDict(chunks[i]));
    assert forall i :: 0 <= i < |r| ==> r[i] == AsDict(chunks[i]);
    DictsRoundTrip(chunks);
    r
  }

  lemma DictsRoundTrip(chunks: seq<TextChunk>)
    ensures forall i :: 0 <= i < |chunks| ==> FromDict(AsDict(chunks[i])) == Some(chunks[i])
  {
    forall i | 0 <= i < |chunks| ensures FromDict(AsDict(chunks[i])) == Some(chunks[i]) {
      DictRoundTrip(chunks[i]);
    }
  }
}
