/**
 * `main.py`: the `MotoBot` orchestrator. Each PDF file goes through metadata
 * extraction, the table of contents, page text, cleaning, sectioning,
 * chunking, diagram detection and drawing mapping; the result is cached,
 * counted in the processing statistics, and its drawings are grouped by
 * motorcycle family. Batches of files are processed one after another.
 */
module MotoBotMain {
  import opened Wrappers
  import PdfLoader
  import ImagesExtract
  import Chunking
  import Cleaning

  // ---------------------------------------------------------------- records

  /**
   * One input file as the PDF libraries see it: `str(file_path)` and
   * `file_path.name`; opening it with PyMuPDF, `open` and pypdf (PyMuPDF's
   * page count, or the message of the exception raised); PyMuPDF's outline;
   * pypdf's page texts; the pages pypdfium2 renders (or the message raised
   * while opening it).
   */
  datatype PdfFile = PdfFile(
    path: string,
    name: string,
    opening: Result<nat>,
    toc: Result<seq<PdfLoader.RawTocEntry>>,
    pages: Result<seq<Option<string>>>,
    rendered: Result<seq<ImagesExtract.RenderedPage>>)

  /** A `TextChunk` once `map_drawings_to_sections` has set its `drawings` attribute. */
  datatype MappedChunk = MappedChunk(chunk: Chunking.TextChunk, drawings: seq<PdfLoader.DrawingRef>)

  /** `PDFDocument` without `processing_time`. */
  datatype PdfDocument = PdfDocument(
    family: Option<string>,
    year: Option<string>,
    model: string,
    content: seq<MappedChunk>,
    drawings: seq<MappedChunk>,
    filePath: string,
    error: Option<string>)

  /** An entry of `ProcessingStats.errors`, without its timestamp. */
  datatype ErrorRecord = ErrorRecord(file: string, error: string)

  /** The value of a `ProcessingStats`, without `processing_time`. */
  datatype Stats = Stats(
    totalFiles: int,
    processedFiles: int,
    failedFiles: int,
    totalPages: int,
    totalDrawings: int,
    errors: seq<ErrorRecord>)

  /**
   * What the orchestrator reads from `Config` and its collaborators: the
   * cleaning functions, the chunker settings, the image root, whether caching
   * is on, whether the cache directory is a path object (`config.py` makes it
   * a string, and `str / str` raises), the cache file of a path (an `md5` of
   * the path string), and the batch size.
   */
  datatype Settings = Settings(
    steps: seq<Cleaning.CleaningStep>,
    chunker: Chunking.Chunker,
    imagesDir: string,
    cacheEnabled: bool,
    cacheDirIsPath: bool,
    cacheKey: string -> string,
    batchSize: int)

  const CacheDirError := "unsupported operand type(s) for /: 'str' and 'str'"
  const ZeroBatchSize := "range() arg 3 must not be zero"

  /** Everything `process_batch` changes: the statistics, `grouped_family` and the cache store. */
  datatype State = State(
    stats: Stats,
    grouped: map<Option<string>, seq<MappedChunk>>,
    cache: map<string, PdfDocument>)

  // ---------------------------------------------------------------- one file

  /** `"Error processing <name>: <message>"`. */
  function ErrorMessage(f: PdfFile, e: string): (m: string)
    ensures |m| > |e|
  {
    "Error processing " + f.name + ": " + e
  }

  /** The document `process_pdf` returns when its `try` block raised. */
  function FailedDocument(f: PdfFile, e: string): (d: PdfDocument)
    ensures d.family == Some("") && d.year == Some("") && d.model == ""
    ensures d.content == [] && d.drawings == [] && d.filePath == f.path
    ensures d.error.Some? && d.error.value != []
  {
    PdfDocument(Some(""), Some(""), "", [], [], f.path, Some(ErrorMessage(f, e)))
  }

  /** The texts `clean_content` produces, page by page. */
  function CleanedPages(steps: seq<Cleaning.CleaningStep>, content: map<int, string>): (r: map<int, string>)
    ensures r.Keys == content.Keys
  {
    map p | p in content :: Cleaning.CleanPage(steps, Cleaning.Text(content[p])).text
  }

  /** Texts cleaned page by page, keyed as the pages, are the cleaned pages. */
  lemma CleanedPagesAre(steps: seq<Cleaning.CleaningStep>, content: map<int, string>,
                        pages: map<int, Cleaning.PageContent>, cleaned: map<int, string>)
    requires pages == map p | p in content :: Cleaning.Text(content[p])
    requires cleaned.Keys == pages.Keys
    requires forall p :: p in pages ==> cleaned[p] == Cleaning.CleanPage(steps, pages[p]).text
    ensures cleaned == CleanedPages(steps, content)
  {
    var expected := CleanedPages(steps, content);
    forall p | p in content ensures cleaned[p] == expected[p] {
      assert pages[p] == Cleaning.Text(content[p]);
    }
    assert cleaned.Keys == expected.Keys;
  }

  /** `organize_by_section` over the cleaned pages. */
  function SectionsOf(cfg: Settings, toc: seq<PdfLoader.TocItem>, content: map<int, string>, m: PdfLoader.Metadata, path: string)
    : seq<PdfLoader.Section>
  {
    PdfLoader.OrganizeBySection(toc, CleanedPages(cfg.steps, content), m.year, m.modelName, path)
  }

  /**
   * `self.text_chunker.chunk(organized_content)` as written: the sections are
   * handed over as `PDFSection` records, every one of them raises inside
   * `_chunk_section`, and nothing is chunked.
   */
  function ChunksOf(cfg: Settings, toc: seq<PdfLoader.TocItem>, content: map<int, string>, m: PdfLoader.Metadata, path: string)
    : (r: seq<Chunking.TextChunk>)
    requires Chunking.Valid(cfg.chunker)
    ensures r == []
  {
    var inputs := Chunking.AsRecords(SectionsOf(cfg, toc, content, m, path));
    Chunking.RecordsYieldNothing(cfg.chunker, inputs);
    Chunking.ChunkAll(cfg.chunker, inputs)
  }

  /** The chunks the hand-over evidently intends: each section as the mapping `_chunk_section` reads. */
  function CorrectedChunksOf(cfg: Settings, toc: seq<PdfLoader.TocItem>, content: map<int, string>, m: PdfLoader.Metadata, path: string)
    : seq<Chunking.TextChunk>
    requires Chunking.Valid(cfg.chunker)
  {
    Chunking.ChunkAll(cfg.chunker, Chunking.AsMappings(SectionsOf(cfg, toc, content, m, path)))
  }

  /**
   * What the record hand-over loses: the written pipeline yields no chunk,
   * while the corrected one yields none only when no section, handed over as
   * a mapping, chunks into anything.
   */
  lemma HandOverLosesChunks(cfg: Settings, toc: seq<PdfLoader.TocItem>, content: map<int, string>, m: PdfLoader.Metadata, path: string)
    requires Chunking.Valid(cfg.chunker)
    ensures ChunksOf(cfg, toc, content, m, path) == []
    ensures var sections := SectionsOf(cfg, toc, content, m, path);
      CorrectedChunksOf(cfg, toc, content, m, path) == [] <==>
        forall i :: 0 <= i < |sections| ==>
          Chunking.SectionChunks(cfg.chunker, Chunking.Mapping(sections[i])).Ok? ==>
          Chunking.SectionChunks(cfg.chunker, Chunking.Mapping(sections[i])).value == []
  {
    var sections := SectionsOf(cfg, toc, content, m, path);
    Chunking.ChunkAllEmpty(cfg.chunker, Chunking.AsMappings(sections));
  }

  /** Chunks before mapping: no drawings. */
  function Unmapped(chunks: seq<Chunking.TextChunk>): (r: seq<MappedChunk>)
    ensures |r| == |chunks|
    ensures forall i :: 0 <= i < |r| ==> r[i] == MappedChunk(chunks[i], [])
  {
    seq(|chunks|, i requires 0 <= i < |chunks| => MappedChunk(chunks[i], []))
  }

  /** What `map_drawings_to_sections` compares of a chunk. */
  function ChunkSpan(m: MappedChunk): PdfLoader.Span {
    PdfLoader.Span(m.chunk.model, m.chunk.year, m.chunk.sourcePdf, m.chunk.startPage, m.chunk.endPage)
  }

  function Attach(m: MappedChunk, ds: seq<PdfLoader.DrawingRef>): MappedChunk {
    m.(drawings := ds)
  }

  /** The drawings pypdfium2 and the detector yield, as dictionaries, or the message of what raised. */
  function DrawingsOf(cfg: Settings, f: PdfFile, m: PdfLoader.Metadata): (r: Result<seq<ImagesExtract.Drawing>>)
    ensures f.rendered.Err? ==> r == Err(f.rendered.error)
  {
    match f.rendered
    case Err(e) => Err(e)
    case Ok(rendered) =>
      match ImagesExtract.DiagramsUpTo(rendered, |rendered|, cfg.imagesDir, m.modelName, m.year)
      case Err(e) => Err(e)
      case Ok(ds) => Ok(ImagesExtract.AsDrawings(ds))
  }

  /**
   * The successful `PDFDocument` as `process_pdf` builds it: the file's
   * metadata, and as `content` and `drawings` the mapped chunks, which the
   * record hand-over leaves empty.
   */
  function Document(cfg: Settings, f: PdfFile, m: PdfLoader.Metadata, drawings: seq<ImagesExtract.Drawing>): (d: PdfDocument)
    requires Chunking.Valid(cfg.chunker)
    ensures d.family == m.family && d.year == m.year && d.model == m.modelName
    ensures d.content == [] && d.drawings == []
    ensures d.error == None && d.filePath == f.path
  {
    var chunks := ChunksOf(cfg, PdfLoader.ExtractToc(f.toc), PdfLoader.ExtractPageContent(f.pages), m, f.path);
    var mapped := PdfLoader.MapDrawings(Unmapped(chunks), drawings, ChunkSpan, Attach);
    PdfDocument(m.family, m.year, m.modelName, mapped, mapped, f.path, None)
  }

  /** The document the corrected hand-over would build: `content` and `drawings` are one list, the chunks with their drawings. */
  function CorrectedDocument(cfg: Settings, f: PdfFile, m: PdfLoader.Metadata, drawings: seq<ImagesExtract.Drawing>): (d: PdfDocument)
    requires Chunking.Valid(cfg.chunker)
    ensures d.family == m.family && d.year == m.year && d.model == m.modelName
    ensures d.error == None && d.filePath == f.path && d.content == d.drawings
    ensures |d.content| == |CorrectedChunksOf(cfg, PdfLoader.ExtractToc(f.toc), PdfLoader.ExtractPageContent(f.pages), m, f.path)|
    ensures Document(cfg, f, m, drawings) == d.(content := [], drawings := [])
  {
    var chunks := CorrectedChunksOf(cfg, PdfLoader.ExtractToc(f.toc), PdfLoader.ExtractPageContent(f.pages), m, f.path);
    var mapped := PdfLoader.MapDrawings(Unmapped(chunks), drawings, ChunkSpan, Attach);
    PdfDocument(m.family, m.year, m.modelName, mapped, mapped, f.path, None)
  }

  /**
   * What the pipeline part of `process_pdf`'s `try` block yields: the
   * document, or the message of the exception that ended it, and what it
   * added to `total_pages` and `total_drawings` before it ended.
   */
  datatype Attempt = Attempt(result: Result<PdfDocument>, pages: nat, drawings: nat)

  function Attempted(cfg: Settings, f: PdfFile): (a: Attempt)
    requires Chunking.Valid(cfg.chunker)
    ensures f.opening.Err? ==> a == Attempt(Err(f.opening.error), 0, 0)
    ensures f.opening.Ok? ==> a.pages == f.opening.value
    ensures a.result.Ok? ==>
      && a.result.value.error == None
      && a.result.value.filePath == f.path
      && a.result.value.content == a.result.value.drawings == []
    ensures a.result.Ok? ==>
      var m := PdfLoader.ExtractMetadata(f.name);
      DrawingsOf(cfg, f, m).Ok? && a.drawings == |DrawingsOf(cfg, f, m).value|
    ensures a.result.Err? ==> a.drawings == 0
  {
    var m := PdfLoader.ExtractMetadata(f.name);
    match f.opening
    case Err(e) => Attempt(Err(e), 0, 0)
    case Ok(pageCount) =>
      match DrawingsOf(cfg, f, m)
      case Err(e) => Attempt(Err(e), pageCount, 0)
      case Ok(drawings) => Attempt(Ok(Document(cfg, f, m, drawings)), pageCount, |drawings|)
  }

  /** `_load_from_cache`: nothing when caching is off; the stored document when there is one. */
  function Load(cfg: Settings, cache: map<string, PdfDocument>, path: string): (r: Result<Option<PdfDocument>>)
    ensures !cfg.cacheEnabled ==> r == Ok(None)
    ensures r.Err? <==> cfg.cacheEnabled && !cfg.cacheDirIsPath
    ensures r.Ok? && r.value.Some? ==> cfg.cacheKey(path) in cache && r.value.value == cache[cfg.cacheKey(path)]
    ensures r.Ok? && r.value.None? ==> !cfg.cacheEnabled || cfg.cacheKey(path) !in cache
  {
    if !cfg.cacheEnabled then Ok(None)
    else if !cfg.cacheDirIsPath then Err(CacheDirError)
    else if cfg.cacheKey(path) in cache then Ok(Some(cache[cfg.cacheKey(path)]))
    else Ok(None)
  }

  /** `_save_to_cache` after a successful run. */
  function Saved(cfg: Settings, cache: map<string, PdfDocument>, doc: PdfDocument): (r: map<string, PdfDocument>)
    ensures !cfg.cacheEnabled ==> r == cache
    ensures cfg.cacheEnabled ==> r.Keys == cache.Keys + {cfg.cacheKey(doc.filePath)} && r[cfg.cacheKey(doc.filePath)] == doc
    ensures forall k :: k in cache && k != cfg.cacheKey(doc.filePath) ==> k in r && r[k] == cache[k]
  {
    if cfg.cacheEnabled then cache[cfg.cacheKey(doc.filePath) := doc] else cache
  }

  /**
   * The rest of `process_pdf` after a cache miss, given what the pipeline
   * yielded: the counts it reached, then the document cached (computing the
   * cache file name raises when the cache directory is a string), or, when
   * something raised, one error record and the failure document.
   */
  function Missed(cfg: Settings, s: State, f: PdfFile, a: Attempt): (Result<PdfDocument>, State)
  {
    var counted := s.stats.(totalPages := s.stats.totalPages + a.pages,
                            totalDrawings := s.stats.totalDrawings + a.drawings);
    var e := if a.result.Err? then a.result.error else CacheDirError;
    if a.result.Ok? && !(cfg.cacheEnabled && !cfg.cacheDirIsPath) then
      (Ok(a.result.value), s.(stats := counted, cache := Saved(cfg, s.cache, a.result.value)))
    else
      (Ok(FailedDocument(f, e)), s.(stats := counted.(errors := counted.errors + [ErrorRecord(f.path, e)])))
  }

  /**
   * `process_pdf`, given what its pipeline yields on a cache miss: the
   * document it returns (or the exception that escapes it, from the cache
   * lookup) and the state afterwards. A cache hit changes nothing.
   */
  function ProcessWith(cfg: Settings, s: State, f: PdfFile, a: Attempt): (Result<PdfDocument>, State)
  {
    match Load(cfg, s.cache, f.path)
    case Err(e) => (Err(e), s)
    case Ok(Some(d)) => (Ok(d), s)
    case Ok(None) => Missed(cfg, s, f, a)
  }

  /** `process_pdf`. */
  function Process(cfg: Settings, s: State, f: PdfFile): (Result<PdfDocument>, State)
    requires Chunking.Valid(cfg.chunker)
  {
    ProcessWith(cfg, s, f, Attempted(cfg, f))
  }

  // ---------------------------------------------------------------- batches

  /** `grouped_family[family].extend(drawings)`, creating the key when absent. */
  function Group(g: map<Option<string>, seq<MappedChunk>>, family: Option<string>, drawings: seq<MappedChunk>)
    : (r: map<Option<string>, seq<MappedChunk>>)
    ensures r.Keys == g.Keys + {family}
    ensures r[family] == (if family in g then g[family] else []) + drawings
    ensures forall k :: k in g && k != family ==> r[k] == g[k]
  {
    g[family := (if family in g then g[family] else []) + drawings]
  }

  /** `if doc.error:` — a present, non-empty message. */
  predicate HasError(d: PdfDocument) {
    d.error.Some? && d.error.value != ""
  }

  /**
   * What `process_batch` does with the outcome of `process_pdf`: an
   * exception or an error counts the file as failed (an exception also leaves
   * an error record); a document without error counts as processed and its
   * drawings join its family.
   */
  function Tally(s: State, f: PdfFile, r: Result<PdfDocument>): (t: State)
    ensures t.stats.totalFiles == s.stats.totalFiles
    ensures t.stats.processedFiles + t.stats.failedFiles == s.stats.processedFiles + s.stats.failedFiles + 1
    ensures t.stats.totalPages == s.stats.totalPages && t.stats.totalDrawings == s.stats.totalDrawings
    ensures t.cache == s.cache
  {
    match r
    case Err(e) =>
      s.(stats := s.stats.(failedFiles := s.stats.failedFiles + 1,
                           errors := s.stats.errors + [ErrorRecord(f.path, e)]))
    case Ok(doc) =>
      if HasError(doc) then s.(stats := s.stats.(failedFiles := s.stats.failedFiles + 1))
      else s.(stats := s.stats.(processedFiles := s.stats.processedFiles + 1),
              grouped := Group(s.grouped, doc.family, doc.drawings))
  }

  /** The file counted in `total_files` before it is processed. */
  function Counted(s: State): State {
    s.(stats := s.stats.(totalFiles := s.stats.totalFiles + 1))
  }

  /** One iteration of `process_batch`, given the file's pipeline outcome. */
  function BatchStep(cfg: Settings, s: State, f: PdfFile, a: Attempt): State
  {
    var (r, s1) := ProcessWith(cfg, Counted(s), f, a);
    Tally(s1, f, r)
  }

  /**
   * The pipeline outcome of every file. It depends on the file and the
   * settings alone, never on the statistics or the cache, so the outcomes can
   * be named up front; whether each is used depends on the cache.
   */
  function Attempts(cfg: Settings, files: seq<PdfFile>): (r: seq<Attempt>)
    requires Chunking.Valid(cfg.chunker)
    ensures |r| == |files|
    ensures forall i :: 0 <= i < |files| ==> r[i] == Attempted(cfg, files[i])
  {
    seq(|files|, i requires 0 <= i < |files| => Attempted(cfg, files[i]))
  }

  /** Steps applied to the files in order, file `i` with pipeline outcome `attempts[i]`. */
  function Fold(step: (State, PdfFile, Attempt) -> State, s: State, files: seq<PdfFile>, attempts: seq<Attempt>): State
    requires |attempts| == |files|
    decreases |files|
  {
    if files == [] then s
    else
      var n := |files| - 1;
      step(Fold(step, s, files[..n], attempts[..n]), files[n], attempts[n])
  }

  /** `process_batch` over the files in order, file `i` with pipeline outcome `attempts[i]`. */
  function Batch(cfg: Settings, s: State, files: seq<PdfFile>, attempts: seq<Attempt>): State
    requires |attempts| == |files|
  {
    Fold((x, f, a) => BatchStep(cfg, x, f, a), s, files, attempts)
  }

  /** Consecutive slices `files[i:i + size]` for `i` in `range(0, len(files), size)`, for a positive size. */
  function Slices(files: seq<PdfFile>, size: nat): (r: seq<seq<PdfFile>>)
    requires size > 0
    decreases |files|
  {
    if files == [] then []
    else if |files| <= size then [files]
    else [files[..size]] + Slices(files[size..], size)
  }

  /** The batches of `process_all_pdfs`; `range` refuses a zero step and yields nothing for a negative one. */
  function Batches(files: seq<PdfFile>, size: int): (r: Result<seq<seq<PdfFile>>>)
    ensures r.Err? <==> size == 0
    ensures size < 0 ==> r == Ok([])
  {
    if size == 0 then Err(ZeroBatchSize)
    else if size < 0 then Ok([])
    else Ok(Slices(files, size))
  }

  function Flatten(batches: seq<seq<PdfFile>>): seq<PdfFile>
    decreases |batches|
  {
    if batches == [] then [] else Flatten(batches[..|batches| - 1]) + batches[|batches| - 1]
  }

  // ---------------------------------------------------------------- the orchestrator

  /** `ProcessingStats`, updated in place. */
  class ProcessingStats {
    var totalFiles: int
    var processedFiles: int
    var failedFiles: int
    var totalPages: int
    var totalDrawings: int
    var errors: seq<ErrorRecord>

    constructor ()
      ensures Value() == Stats(0, 0, 0, 0, 0, [])
    {
      totalFiles, processedFiles, failedFiles, totalPages, totalDrawings := 0, 0, 0, 0, 0;
      errors := [];
    }

    function Value(): Stats
      reads this
    {
      Stats(totalFiles, processedFiles, failedFiles, totalPages, totalDrawings, errors)
    }
  }

  /** A chunk list as an array, its drawings mapped in place, read back. */
  method MapChunkDrawings(chunks: seq<Chunking.TextChunk>, drawings: seq<ImagesExtract.Drawing>)
    returns (mapped: seq<MappedChunk>)
    ensures mapped == PdfLoader.MapDrawings(Unmapped(chunks), drawings, ChunkSpan, Attach)
  {
    var list := new MappedChunk[|chunks|](i requires 0 <= i < |chunks| => MappedChunk(chunks[i], []));
    assert list[..] == Unmapped(chunks);
    PdfLoader.MapDrawingsToSections(list, drawings, ChunkSpan, Attach);
    mapped := list[..];
  }

  class MotoBot {
    const config: Settings
    const stats: ProcessingStats
    var groupedFamily: map<Option<string>, seq<MappedChunk>>
    /** The cache directory's documents, by cache file name. */
    var cache: map<string, PdfDocument>

    /** `MotoBot()`: fresh statistics, no families yet, the cache directory as found. */
    constructor (config: Settings, cache: map<string, PdfDocument>)
      ensures this.config == config && this.cache == cache
      ensures stats.Value() == Stats(0, 0, 0, 0, 0, [])
      ensures groupedFamily == map[]
      ensures fresh(stats)
    {
      this.config := config;
      this.cache := cache;
      stats := new ProcessingStats();
      groupedFamily := map[];
    }

    function Snapshot(): State
      reads this, stats
    {
      State(stats.Value(), groupedFamily, cache)
    }

    method LoadFromCache(path: string) returns (r: Result<Option<PdfDocument>>)
      ensures r == Load(config, cache, path)
    {
      if !config.cacheEnabled {
        return Ok(None);
      }
      if !config.cacheDirIsPath {
        return Err(CacheDirError);
      }
      var key := config.cacheKey(path);
      if key in cache {
        return Ok(Some(cache[key]));
      }
      return Ok(None);
    }

    /** `_save_to_cache`; computing the cache file name raises when the directory is a string. */
    method SaveToCache(doc: PdfDocument) returns (raised: Option<string>)
      modifies this
      ensures raised.Some? <==> config.cacheEnabled && !config.cacheDirIsPath
      ensures raised.Some? ==> raised.value == CacheDirError
      ensures cache == if raised.Some? then old(cache) else Saved(config, old(cache), doc)
      ensures groupedFamily == old(groupedFamily)
    {
      if !config.cacheEnabled {
        return None;
      }
      if !config.cacheDirIsPath {
        return Some(CacheDirError);
      }
      cache := cache[config.cacheKey(doc.filePath) := doc];
      return None;
    }

    /** The `except` block of `process_pdf`: one error record, and the failure document. */
    method RecordFailure(f: PdfFile, e: string) returns (r: Result<PdfDocument>)
      modifies stats
      ensures stats.Value() == old(stats.Value()).(errors := old(stats.errors) + [ErrorRecord(f.path, e)])
      ensures r == Ok(FailedDocument(f, e))
    {
      stats.errors := stats.errors + [ErrorRecord(f.path, e)];
      r := Ok(FailedDocument(f, e));
    }

    /** `clean_content` over one file's pages, numbered from 1. */
    method CleanPages(content: map<int, string>, pageCount: nat) returns (cleaned: map<int, string>)
      requires forall p :: p in content <==> 1 <= p <= pageCount
      ensures cleaned == CleanedPages(config.steps, content)
    {
      var pages := map p | p in content :: Cleaning.Text(content[p]);
      var order := seq(pageCount, i => i + 1);
      forall p | p in pages ensures p in order {
        assert order[p - 1] == p;
      }
      var pageStats;
      cleaned, pageStats := Cleaning.CleanContent(config.steps, pages, order);
      CleanedPagesAre(config.steps, content, pages, cleaned);
    }

    /** Cleaning, sectioning and chunking of one file's pages. */
    method ChunkPages(toc: seq<PdfLoader.TocItem>, content: map<int, string>, pageCount: nat, m: PdfLoader.Metadata, path: string)
      returns (chunks: seq<Chunking.TextChunk>)
      requires Chunking.Valid(config.chunker)
      requires forall p :: p in content <==> 1 <= p <= pageCount
      ensures chunks == ChunksOf(config, toc, content, m, path)
    {
      var cleaned := CleanPages(content, pageCount);
      var sections := PdfLoader.OrganizeBySection(toc, cleaned, m.year, m.modelName, path);
      chunks := Chunking.Chunk(config.chunker, Chunking.AsRecords(sections));
    }

    /** pypdfium2 opens the file, then the detector runs over its pages. */
    method DetectDrawings(f: PdfFile, m: PdfLoader.Metadata) returns (r: Result<seq<ImagesExtract.Drawing>>)
      ensures r == DrawingsOf(config, f, m)
    {
      if f.rendered.Err? {
        return Err(f.rendered.error);
      }
      r := ImagesExtract.ExtractDiagramFromPdf(f.rendered.value, config.imagesDir, m.modelName, m.year);
    }

    /** Metadata, outline, page text, cleaning, sections, chunks, diagrams and their mapping, for one file. */
    method RunPipeline(f: PdfFile) returns (a: Attempt)
      requires Chunking.Valid(config.chunker)
      ensures a == Attempted(config, f)
    {
      var m := PdfLoader.ExtractMetadata(f.name);
      if f.opening.Err? {
        return Attempt(Err(f.opening.error), 0, 0);
      }
      var toc := PdfLoader.ExtractToc(f.toc);
      var content := PdfLoader.ExtractPageContent(f.pages);
      var pageCount := if f.pages.Ok? then |f.pages.value| else 0;
      var chunks := ChunkPages(toc, content, pageCount, m, f.path);
      var drawings := DetectDrawings(f, m);
      if drawings.Err? {
        return Attempt(Err(drawings.error), f.opening.value, 0);
      }
      var mapped := MapChunkDrawings(chunks, drawings.value);
      var result := PdfDocument(m.family, m.year, m.modelName, mapped, mapped, f.path, None);
      assert result == Document(config, f, m, drawings.value);
      return Attempt(Ok(result), f.opening.value, |drawings.value|);
    }

    /**
     * The effects of the `try` and `except` blocks of `process_pdf`: the page
     * and drawing counts the run reached, then the cache write, or the error
     * record.
     */
    method Conclude(f: PdfFile, a: Attempt) returns (r: Result<PdfDocument>)
      modifies this, stats
      ensures (r, Snapshot()) == Missed(config, old(Snapshot()), f, a)
    {
      stats.totalPages := stats.totalPages + a.pages;
      stats.totalDrawings := stats.totalDrawings + a.drawings;
      if a.result.Err? {
        r := RecordFailure(f, a.result.error);
        return;
      }
      var raised := SaveToCache(a.result.value);
      if raised.Some? {
        r := RecordFailure(f, raised.value);
        return;
      }
      r := Ok(a.result.value);
    }

    /** `process_pdf`: a cached document as it is, otherwise a fresh run. */
    method ProcessPdf(f: PdfFile) returns (r: Result<PdfDocument>)
      requires Chunking.Valid(config.chunker)
      modifies this, stats
      ensures (r, Snapshot()) == Process(config, old(Snapshot()), f)
    {
      var cached := LoadFromCache(f.path);
      if cached.Err? {
        return Err(cached.error);
      }
      if cached.value.Some? {
        return Ok(cached.value.value);
      }
      var a := RunPipeline(f);
      r := Conclude(f, a);
    }

    /** What `process_batch` does with the outcome of `process_pdf`. */
    method TallyOutcome(file: PdfFile, doc: Result<PdfDocument>)
      modifies this, stats
      ensures Snapshot() == Tally(old(Snapshot()), file, doc)
    {
      if doc.Err? {
        stats.failedFiles := stats.failedFiles + 1;
        stats.errors := stats.errors + [ErrorRecord(file.path, doc.error)];
      } else if HasError(doc.value) {
        stats.failedFiles := stats.failedFiles + 1;
      } else {
        stats.processedFiles := stats.processedFiles + 1;
        var existing := if doc.value.family in groupedFamily then groupedFamily[doc.value.family] else [];
        groupedFamily := groupedFamily[doc.value.family := existing + doc.value.drawings];
      }
    }

    /** One iteration of `process_batch`. */
    method BatchOne(file: PdfFile)
      requires Chunking.Valid(config.chunker)
      modifies this, stats
      ensures Snapshot() == BatchStep(config, old(Snapshot()), file, Attempted(config, file))
    {
      ghost var before := Snapshot();
      stats.totalFiles := stats.totalFiles + 1;
      assert Snapshot() == Counted(before);
      var doc := ProcessPdf(file);
      TallyOutcome(file, doc);
    }

    /** `process_batch`: every file counted once, as processed or as failed. */
    method ProcessBatch(files: seq<PdfFile>)
      requires Chunking.Valid(config.chunker)
      modifies this, stats
      ensures Snapshot() == Batch(config, old(Snapshot()), files, Attempts(config, files))
    {
      ghost var attempts := Attempts(config, files);
      for i := 0 to |files|
        invariant Snapshot() == Batch(config, old(Snapshot()), files[..i], attempts[..i])
      {
        BatchOne(files[i]);
        assert files[..i + 1][..i] == files[..i];
        assert attempts[..i + 1][..i] == attempts[..i];
      }
      assert files[..|files|] == files;
      assert attempts[..|files|] == attempts;
    }

    /** One batch after the ones already run. */
    method RunBatch(ghost start: State, ghost done: seq<PdfFile>, batch: seq<PdfFile>)
      requires Chunking.Valid(config.chunker)
      requires Snapshot() == Batch(config, start, done, Attempts(config, done))
      modifies this, stats
      ensures Snapshot() == Batch(config, start, done + batch, Attempts(config, done + batch))
    {
      ProcessBatch(batch);
      BatchAppend(config, start, done, batch);
    }

    /**
     * `process_all_pdfs` over the files found: nothing for an empty list;
     * otherwise the batches in order, or the `ValueError` of a zero batch size.
     */
    method ProcessAllPdfs(files: seq<PdfFile>) returns (raised: Option<string>)
      requires Chunking.Valid(config.chunker)
      modifies this, stats
      ensures raised.Some? <==> files != [] && config.batchSize == 0
      ensures raised.Some? ==> raised.value == ZeroBatchSize
      ensures files == [] || config.batchSize <= 0 ==> Snapshot() == old(Snapshot())
      ensures files != [] && config.batchSize > 0 ==>
        Snapshot() == Batch(config, old(Snapshot()), files, Attempts(config, files))
    {
      if files == [] {
        return None;
      }
      var batches := Batches(files, config.batchSize);
      if batches.Err? {
        return Some(batches.error);
      }
      ghost var start := Snapshot();
      ghost var done: seq<PdfFile> := [];
      for i := 0 to |batches.value|
        invariant done == Flatten(batches.value[..i])
        invariant Snapshot() == Batch(config, start, done, Attempts(config, done))
      {
        var batch := batches.value[i];
        RunBatch(start, done, batch);
        FlattenPrefix(batches.value, i);
        done := done + batch;
      }
      assert batches.value[..|batches.value|] == batches.value;
      if config.batchSize > 0 {
        SlicesFlatten(files, config.batchSize);
      }
      return None;
    }
  }

  /** The outcomes of two runs of files are the outcomes of their concatenation. */
  lemma AttemptsAppend(cfg: Settings, a: seq<PdfFile>, b: seq<PdfFile>)
    requires Chunking.Valid(cfg.chunker)
    ensures Attempts(cfg, a + b) == Attempts(cfg, a) + Attempts(cfg, b)
  {
    var whole, parts := Attempts(cfg, a + b), Attempts(cfg, a) + Attempts(cfg, b);
    forall i | 0 <= i < |whole| ensures whole[i] == parts[i] {
      if i < |a| {
        assert (a + b)[i] == a[i];
      } else {
        assert (a + b)[i] == b[i - |a|];
      }
    }
  }

  /** Steps over two lists of files one after the other are steps over their concatenation. */
  lemma {:induction false} FoldAppend(step: (State, PdfFile, Attempt) -> State, s: State,
                                      a: seq<PdfFile>, b: seq<PdfFile>, xa: seq<Attempt>, xb: seq<Attempt>)
    requires |xa| == |a| && |xb| == |b|
    ensures Fold(step, s, a + b, xa + xb) == Fold(step, Fold(step, s, a, xa), b, xb)
    decreases |b|
  {
    if b == [] {
      assert a + b == a && xa + xb == xa;
    } else {
      var n := |b| - 1;
      FoldAppend(step, s, a, b[..n], xa, xb[..n]);
      assert (a + b)[..|a| + n] == a + b[..n];
      assert (xa + xb)[..|a| + n] == xa + xb[..n];
    }
  }

  /** Running a second list of files after a first is running their concatenation. */
  lemma BatchAppend(cfg: Settings, s: State, a: seq<PdfFile>, b: seq<PdfFile>)
    requires Chunking.Valid(cfg.chunker)
    ensures Batch(cfg, s, a + b, Attempts(cfg, a + b)) == Batch(cfg, Batch(cfg, s, a, Attempts(cfg, a)), b, Attempts(cfg, b))
  {
    AttemptsAppend(cfg, a, b);
    FoldAppend((x, f, y) => BatchStep(cfg, x, f, y), s, a, b, Attempts(cfg, a), Attempts(cfg, b));
  }

  /** The slices, put back together, are the file list. */
  lemma {:induction false} SlicesFlatten(files: seq<PdfFile>, size: nat)
    requires size > 0
    ensures Flatten(Slices(files, size)) == files
    decreases |files|
  {
    if files != [] && |files| > size {
      SlicesFlatten(files[size..], size);
      FlattenCons(files[..size], Slices(files[size..], size));
      assert files[..size] + files[size..] == files;
    } else if files != [] {
      assert Flatten([files]) == Flatten([]) + files;
    }
  }

  lemma FlattenPrefix(batches: seq<seq<PdfFile>>, i: nat)
    requires i < |batches|
    ensures Flatten(batches[..i + 1]) == Flatten(batches[..i]) + batches[i]
  {
    assert batches[..i + 1][..i] == batches[..i];
  }

  lemma {:induction false} FlattenCons(b: seq<PdfFile>, rest: seq<seq<PdfFile>>)
    ensures Flatten([b] + rest) == b + Flatten(rest)
    decreases |rest|
  {
    if rest == [] {
      assert [b] + rest == [b];
      assert Flatten([b]) == Flatten([]) + b;
    } else {
      var n := |rest| - 1;
      var all := [b] + rest;
      FlattenCons(b, rest[..n]);
      assert all[..|all| - 1] == [b] + rest[..n];
      assert all[|all| - 1] == rest[n];
      assert Flatten(all) == Flatten([b] + rest[..n]) + rest[n];
      assert Flatten(rest) == Flatten(rest[..n]) + rest[n];
    }
  }

  // ---------------------------------------------------------------- the batch partition

  /** Every batch holds between one and `size` files, and only the last may hold fewer than `size`. */
  lemma {:induction false} SlicesSizes(files: seq<PdfFile>, size: nat)
    requires size > 0
    ensures forall i :: 0 <= i < |Slices(files, size)| ==> 0 < |Slices(files, size)[i]| <= size
    ensures forall i :: 0 <= i < |Slices(files, size)| - 1 ==> |Slices(files, size)[i]| == size
    decreases |files|
  {
    if |files| > size {
      SlicesSizes(files[size..], size);
    }
  }

  /** The batches of a non-empty list with a positive size are its consecutive slices, in order. */
  lemma BatchesPartition(files: seq<PdfFile>, size: int)
    requires size > 0
    ensures Batches(files, size).Ok?
    ensures Flatten(Batches(files, size).value) == files
    ensures forall i :: 0 <= i < |Batches(files, size).value| ==>
      0 < |Batches(files, size).value[i]| <= size
    ensures forall i :: 0 <= i < |Batches(files, size).value| - 1 ==>
      |Batches(files, size).value[i]| == size
  {
    SlicesFlatten(files, size);
    SlicesSizes(files, size);
  }

  // ---------------------------------------------------------------- the accounting

  /** Only documents without error are in the cache. */
  predicate CacheClean(cache: map<string, PdfDocument>) {
    forall k :: k in cache ==> cache[k].error == None
  }

  /** A pipeline outcome that is a document is one without error. */
  predicate Clean(a: Attempt) {
    a.result.Ok? ==> a.result.value.error == None
  }

  /**
   * The accounting `process_batch` keeps: every file counted is processed or
   * failed, every failure left exactly one error record, and only documents
   * without error are cached.
   */
  predicate Consistent(s: State) {
    && s.stats.totalFiles == s.stats.processedFiles + s.stats.failedFiles
    && s.stats.failedFiles == |s.stats.errors|
    && 0 <= s.stats.processedFiles && 0 <= s.stats.failedFiles
    && CacheClean(s.cache)
  }

  /**
   * `process_pdf` leaves the file counters and `grouped_family` alone, keeps
   * only clean documents in the cache, and leaves one error record exactly
   * when it returns a failure document. A disabled cache is neither read nor
   * written; a string cache directory makes it raise, changing nothing.
   */
  lemma ProcessAccounts(cfg: Settings, s: State, f: PdfFile, a: Attempt)
    requires CacheClean(s.cache) && Clean(a)
    ensures var (r, t) := ProcessWith(cfg, s, f, a);
      && CacheClean(t.cache)
      && t.grouped == s.grouped
      && t.stats.totalFiles == s.stats.totalFiles
      && t.stats.processedFiles == s.stats.processedFiles
      && t.stats.failedFiles == s.stats.failedFiles
      && |t.stats.errors| == |s.stats.errors| + (if r.Ok? && HasError(r.value) then 1 else 0)
      && (!cfg.cacheEnabled ==> r.Ok? && t.cache == s.cache)
      && (r.Err? <==> cfg.cacheEnabled && !cfg.cacheDirIsPath)
      && (r.Err? ==> r.error == CacheDirError && t == s)
  {
    var (r, t) := ProcessWith(cfg, s, f, a);
    match Load(cfg, s.cache, f.path)
    case Err(e) =>
    case Ok(Some(d)) =>
      assert s.cache[cfg.cacheKey(f.path)] == d;
    case Ok(None) =>
      if a.result.Ok? && !(cfg.cacheEnabled && !cfg.cacheDirIsPath) {
        assert t.cache == Saved(cfg, s.cache, a.result.value);
      }
  }

  /**
   * The page and drawing counts of `process_pdf`: on a cache miss they grow by
   * what the pipeline reached, whether it then succeeds or raises; a cache
   * hit, or a lookup that raises, changes nothing at all.
   */
  lemma ProcessCounts(cfg: Settings, s: State, f: PdfFile, a: Attempt)
    ensures var (r, t) := ProcessWith(cfg, s, f, a);
      && (Load(cfg, s.cache, f.path) == Ok(None) ==>
            && t.stats.totalPages == s.stats.totalPages + a.pages
            && t.stats.totalDrawings == s.stats.totalDrawings + a.drawings)
      && (Load(cfg, s.cache, f.path) != Ok(None) ==> t == s)
  {
  }

  /**
   * One iteration of `process_batch`: the file adds one to `total_files` and
   * one to exactly one of `processed_files` and `failed_files`; a failure
   * leaves `grouped_family` alone, a success appends the document's drawings
   * under its family. The accounting is kept.
   */
  lemma StepAccounts(cfg: Settings, s: State, f: PdfFile, a: Attempt)
    requires Consistent(s) && Clean(a)
    ensures var t := BatchStep(cfg, s, f, a);
      && Consistent(t)
      && t.stats.totalFiles == s.stats.totalFiles + 1
      && (|| (t.stats.processedFiles == s.stats.processedFiles + 1 && t.stats.failedFiles == s.stats.failedFiles)
          || (t.stats.failedFiles == s.stats.failedFiles + 1 && t.stats.processedFiles == s.stats.processedFiles))
      && (t.stats.failedFiles == s.stats.failedFiles + 1 ==> t.grouped == s.grouped)
      && (t.stats.processedFiles == s.stats.processedFiles + 1 ==>
            var d := ProcessWith(cfg, Counted(s), f, a).0.value;
            t.grouped == Group(s.grouped, d.family, d.drawings))
  {
    ProcessAccounts(cfg, Counted(s), f, a);
  }

  /** A batch of `n` files adds `n` to `total_files` and keeps the accounting. */
  lemma {:induction false} BatchAccounts(cfg: Settings, s: State, files: seq<PdfFile>, attempts: seq<Attempt>)
    requires |attempts| == |files|
    requires Consistent(s)
    requires forall i :: 0 <= i < |attempts| ==> Clean(attempts[i])
    ensures Consistent(Batch(cfg, s, files, attempts))
    ensures Batch(cfg, s, files, attempts).stats.totalFiles == s.stats.totalFiles + |files|
    decreases |files|
  {
    if files != [] {
      var n := |files| - 1;
      BatchAccounts(cfg, s, files[..n], attempts[..n]);
      StepAccounts(cfg, Batch(cfg, s, files[..n], attempts[..n]), files[n], attempts[n]);
    }
  }

  /** The pipeline's outcomes are all clean. */
  lemma AttemptsClean(cfg: Settings, files: seq<PdfFile>)
    requires Chunking.Valid(cfg.chunker)
    ensures forall i :: 0 <= i < |files| ==> Clean(Attempts(cfg, files)[i])
  {
    forall i | 0 <= i < |files| ensures Clean(Attempts(cfg, files)[i]) {
      var a := Attempted(cfg, files[i]);
    }
  }

  /**
   * With a string cache directory and caching on, every file of a batch fails
   * on the cache lookup: each is counted as failed, with one error record
   * naming it, and nothing else changes.
   */
  lemma {:induction false} StringCacheDirFailsAll(cfg: Settings, s: State, files: seq<PdfFile>, attempts: seq<Attempt>)
    requires |attempts| == |files|
    requires cfg.cacheEnabled && !cfg.cacheDirIsPath
    ensures var t := Batch(cfg, s, files, attempts);
      && t.stats == s.stats.(totalFiles := s.stats.totalFiles + |files|,
                             failedFiles := s.stats.failedFiles + |files|,
                             errors := s.stats.errors + seq(|files|, i requires 0 <= i < |files| => ErrorRecord(files[i].path, CacheDirError)))
      && t.grouped == s.grouped && t.cache == s.cache
    decreases |files|
  {
    if files != [] {
      var n := |files| - 1;
      StringCacheDirFailsAll(cfg, s, files[..n], attempts[..n]);
      var prefix := seq(n, i requires 0 <= i < n => ErrorRecord(files[..n][i].path, CacheDirError));
      var all := seq(|files|, i requires 0 <= i < |files| => ErrorRecord(files[i].path, CacheDirError));
      assert all == prefix + [ErrorRecord(files[n].path, CacheDirError)];
    }
  }

  // ---------------------------------------------------------------- the cache

  /**
   * With caching on, a file whose run returned a document without error is
   * served from the cache the next time, whatever its pipeline would yield:
   * the same document, and nothing changes.
   */
  lemma SecondRunHitsCache(cfg: Settings, s: State, f: PdfFile, a: Attempt, b: Attempt)
    requires cfg.cacheEnabled && cfg.cacheDirIsPath
    requires a.result.Ok? ==> a.result.value.filePath == f.path && a.result.value.error == None
    requires ProcessWith(cfg, s, f, a).0.Ok? && !HasError(ProcessWith(cfg, s, f, a).0.value)
    ensures ProcessWith(cfg, ProcessWith(cfg, s, f, a).1, f, b) == ProcessWith(cfg, s, f, a)
  {
    var (r, t) := ProcessWith(cfg, s, f, a);
    if cfg.cacheKey(f.path) !in s.cache {
      assert r == Ok(a.result.value);
      assert t.cache == Saved(cfg, s.cache, a.result.value);
    }
  }

  /** `process_pdf` run twice on a file that succeeded: the second run is a cache hit. */
  lemma ProcessTwice(cfg: Settings, s: State, f: PdfFile)
    requires Chunking.Valid(cfg.chunker)
    requires cfg.cacheEnabled && cfg.cacheDirIsPath
    requires Process(cfg, s, f).0.Ok? && !HasError(Process(cfg, s, f).0.value)
    ensures Process(cfg, Process(cfg, s, f).1, f) == Process(cfg, s, f)
  {
    var a := Attempted(cfg, f);
    SecondRunHitsCache(cfg, s, f, a, a);
  }

  // ---------------------------------------------------------------- drawings

  /** `str.endswith(".pdf")`, which `glob("*.pdf")` guarantees of every path found. */
  predicate IsPdfPath(p: string) {
    |p| >= 4 && p[|p| - 4..] == ".pdf"
  }

  /** Every chunk of a file's sections, handed over as mappings, names the file as its source. */
  lemma CorrectedChunksOfSource(cfg: Settings, toc: seq<PdfLoader.TocItem>, content: map<int, string>, m: PdfLoader.Metadata, path: string)
    requires Chunking.Valid(cfg.chunker)
    ensures forall t :: t in CorrectedChunksOf(cfg, toc, content, m, path) ==> t.sourcePdf == path
  {
    var sections := SectionsOf(cfg, toc, content, m, path);
    var inputs := Chunking.AsMappings(sections);
    forall i | 0 <= i < |inputs| ensures inputs[i].section.sourcePdf == path {
      assert sections[i] in sections;
    }
    Chunking.ChunksFromFile(cfg.chunker, inputs, path);
  }

  /** A drawing whose source is a PNG path matches no chunk whose source is a PDF path. */
  lemma MappingAttachesNothing(chunks: seq<Chunking.TextChunk>, drawings: seq<ImagesExtract.Drawing>, path: string)
    requires IsPdfPath(path)
    requires forall t :: t in chunks ==> t.sourcePdf == path
    requires forall d :: d in drawings ==> ImagesExtract.IsPng(d.sourcePdf)
    ensures forall x :: x in PdfLoader.MapDrawings(Unmapped(chunks), drawings, ChunkSpan, Attach) ==> x.drawings == []
  {
    var unmapped := Unmapped(chunks);
    var mapped := PdfLoader.MapDrawings(unmapped, drawings, ChunkSpan, Attach);
    forall x | x in mapped ensures x.drawings == [] {
      var i :| 0 <= i < |mapped| && mapped[i] == x;
      assert chunks[i] in chunks;
      PdfLoader.NoImageMatchesPdf(drawings, ChunkSpan(unmapped[i]));
      assert mapped[i] == Attach(unmapped[i], PdfLoader.Attached(drawings, ChunkSpan(unmapped[i])));
    }
  }

  /**
   * Even with the hand-over corrected, no chunk of a document gets a drawing:
   * every chunk's `source_pdf` is the PDF's path, every drawing's is the path
   * of its PNG file.
   */
  lemma CorrectedDocumentHasNoDrawings(cfg: Settings, f: PdfFile, m: PdfLoader.Metadata, drawings: seq<ImagesExtract.Drawing>)
    requires Chunking.Valid(cfg.chunker) && IsPdfPath(f.path)
    requires forall d :: d in drawings ==> ImagesExtract.IsPng(d.sourcePdf)
    ensures forall x :: x in CorrectedDocument(cfg, f, m, drawings).content ==> x.drawings == []
  {
    var toc, content := PdfLoader.ExtractToc(f.toc), PdfLoader.ExtractPageContent(f.pages);
    CorrectedChunksOfSource(cfg, toc, content, m, f.path);
    MappingAttachesNothing(CorrectedChunksOf(cfg, toc, content, m, f.path), drawings, f.path);
  }

  /**
   * `map_drawings_to_sections` attaches nothing, even once the hand-over is
   * corrected: for every `.pdf` file whose diagrams are detected, every chunk
   * of the corrected document has empty drawings.
   */
  lemma DrawingsNeverAttach(cfg: Settings, f: PdfFile)
    requires Chunking.Valid(cfg.chunker) && IsPdfPath(f.path)
    requires DrawingsOf(cfg, f, PdfLoader.ExtractMetadata(f.name)).Ok?
    ensures var m := PdfLoader.ExtractMetadata(f.name);
      forall x :: x in CorrectedDocument(cfg, f, m, DrawingsOf(cfg, f, m).value).content ==> x.drawings == []
  {
    var m := PdfLoader.ExtractMetadata(f.name);
    var rendered := f.rendered.value;
    var diagrams := ImagesExtract.DiagramsUpTo(rendered, |rendered|, cfg.imagesDir, m.modelName, m.year);
    var drawings := ImagesExtract.AsDrawings(diagrams.value);
    ImagesExtract.DiagramsUpToFields(rendered, |rendered|, cfg.imagesDir, m.modelName, m.year);
    forall d | d in drawings ensures ImagesExtract.IsPng(d.sourcePdf) {
      var i :| 0 <= i < |drawings| && drawings[i] == d;
    }
    CorrectedDocumentHasNoDrawings(cfg, f, m, drawings);
  }

  // ---------------------------------------------------------------- family grouping

  /** Every family's list is empty, and so is every cached document's drawing list. */
  predicate NothingGrouped(s: State) {
    && (forall k :: k in s.grouped ==> s.grouped[k] == [])
    && (forall k :: k in s.cache ==> s.cache[k].drawings == [])
  }

  /** A pipeline outcome that is a document has no drawings. */
  predicate Drawingless(a: Attempt) {
    a.result.Ok? ==> a.result.value.drawings == []
  }

  lemma StepGroupsNothing(cfg: Settings, s: State, f: PdfFile, a: Attempt)
    requires NothingGrouped(s) && Drawingless(a)
    ensures NothingGrouped(BatchStep(cfg, s, f, a))
  {
    var c := Counted(s);
    match Load(cfg, c.cache, f.path)
    case Err(e) =>
    case Ok(Some(d)) =>
      assert c.cache[cfg.cacheKey(f.path)] == d;
    case Ok(None) =>
      if a.result.Ok? && !(cfg.cacheEnabled && !cfg.cacheDirIsPath) {
        assert ProcessWith(cfg, c, f, a).1.cache == Saved(cfg, c.cache, a.result.value);
      }
  }

  /** Steps over any files keep every family's list and every cached document's drawings empty. */
  lemma {:induction false} BatchGroupsNothing(cfg: Settings, s: State, files: seq<PdfFile>, attempts: seq<Attempt>)
    requires |attempts| == |files|
    requires NothingGrouped(s)
    requires forall i :: 0 <= i < |attempts| ==> Drawingless(attempts[i])
    ensures NothingGrouped(Batch(cfg, s, files, attempts))
    decreases |files|
  {
    if files != [] {
      var n := |files| - 1;
      BatchGroupsNothing(cfg, s, files[..n], attempts[..n]);
      StepGroupsNothing(cfg, Batch(cfg, s, files[..n], attempts[..n]), files[n], attempts[n]);
    }
  }

  /**
   * As the code stands, `grouped_family` collects nothing: starting from an
   * empty index and a cache of such documents, after any batch of files every
   * family's list is `[]`.
   */
  lemma GroupedFamilyStaysEmpty(cfg: Settings, s: State, files: seq<PdfFile>)
    requires Chunking.Valid(cfg.chunker)
    requires NothingGrouped(s)
    ensures var t := Batch(cfg, s, files, Attempts(cfg, files));
      forall k :: k in t.grouped ==> t.grouped[k] == []
  {
    var attempts := Attempts(cfg, files);
    forall i | 0 <= i < |attempts| ensures Drawingless(attempts[i]) {
      var a := Attempted(cfg, files[i]);
    }
    BatchGroupsNothing(cfg, s, files, attempts);
  }
}
