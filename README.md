# MotoBot document pipeline, modelled in Dafny

MotoBot turns a library of Ducati owner's manuals (PDF files) into retrieval
chunks. For every manual it:

- reads the model family, model year and model name from the file name;
- reads the table of contents and the text of every page;
- runs a fixed chain of text cleaners over each page;
- cuts the pages into one section per table-of-contents entry;
- splits each section into overlapping word windows (`TextChunk` records);
- detects diagrams on the rendered pages and crops them with a 15-pixel margin;
- attaches the diagrams to the sections whose pages they lie on.

The orchestrator, `MotoBot`, counts files, pages, drawings and errors in its
`ProcessingStats`. It caches each successfully processed document under a
key derived from its path. It groups the drawings of every successful
document by motorcycle family, and processes the file list in fixed-size
batches.

The Dafny modules follow the Python files:

| module | file |
|---|---|
| `PdfLoader` | `pdf_loading/pdf_loader.py` |
| `Chunking` | `nlp/chunking.py` |
| `ImagesExtract` | `Image_extraction/images_extract.py` |
| `Cleaning` | `nlp/cleaning.py` |
| `FormatEncoding` | `encoding_scripts/format_encoding.py` |
| `MotoBotMain` | `main.py` |

Three support modules have no Python counterpart:

- `Text`: the few `str` behaviours the code relies on (`strip`, `replace(p, '')`, `in`, `join`, `str(int)`, `splitlines`).
- `Sorting`: Python's stable `sorted`.
- `Wrappers`: `Option` and `Result`. A `Result.Err` carries `str(e)` of a raised exception.

Foreign libraries enter the model as data or as function parameters:

- PyMuPDF's outline, pypdf's page texts and the raised messages are fields of a `PdfFile`.
- pypdfium2's pages are reduced to their size and OpenCV's contour boxes and areas.
- nltk's tokenizers are fields of a `Chunker`.
- The eleven cleaning functions are `CleaningStep` values.
- pickle and md5 become a map under an abstract `cacheKey`.

Some configuration values are read by the code but never defined by
`config.py`: `CHUNK_MAX_WORDS`, `CHUNK_OVERLAP_WORDS`, `CHUNK_MIN_SIZE` and
`IMAGES_DIR`. They are parameters of the model.

Where the code does something other than what its names suggest, the model
follows the code. There are two main cases:

- **Chunking.** `process_pdf` hands the `PDFSection` records to the chunker
  (main.py:174-178), which subscripts each one as a dictionary. Each record
  raises `TypeError`, and the error is swallowed per section. As a result:
  - every successful `PDFDocument` has empty `content` and `drawings`
    (`MotoBotMain.Document`);
  - the cache stores such documents;
  - every list in `grouped_family` stays empty
    (`MotoBotMain.GroupedFamilyStaysEmpty`).

  `MotoBotMain.CorrectedChunksOf` and `MotoBotMain.CorrectedDocument` model
  the evidently intended hand-over, with each section as a mapping.
  `MotoBotMain.HandOverLosesChunks` relates the two.
- **Drawing mapping.** A drawing's `source_pdf` is the path of its PNG crop,
  and its page number is 0-based. A section's `source_pdf` is the PDF path,
  and its pages are 1-based. So even with the corrected hand-over,
  `map_drawings_to_sections` attaches nothing
  (`MotoBotMain.DrawingsNeverAttach`).

The orchestrator is a class (`MotoBotMain.MotoBot`) whose methods update the
statistics object, the family index and the cache in place. Each method is
proved against a function of the old state (`Process`, `Tally`, `Batch`).
The lemmas about those functions carry the accounting invariants.

## Model

| member | source | states |
|---|---|---|
| `FormatEncoding.Normalise` | encoding_scripts/format_encoding.py:9 | every character is lower-cased with `_` turned into `-`; the length is kept |
| `FormatEncoding.FormatEncodingStr` | encoding_scripts/format_encoding.py:9-16 | the output is the normalised input, two characters shorter exactly when the normalised name is one of the four annotated Arabic/Hebrew charsets; it has no upper-case letter and no `_` |
| `FormatEncoding.FormatEncodingIdempotent` | encoding_scripts/format_encoding.py:9-16 | formatting a formatted name changes nothing |
| `FormatEncoding.FormatAnnotatedExample` | encoding_scripts/format_encoding.py:12-14 | `"ISO_8859_8_E"` formats to `"iso-8859-8"` |
| `FormatEncoding.FormatPlainExample` | encoding_scripts/format_encoding.py:9 | `"UTF_8"` formats to `"utf-8"`, length kept |
| `Text.StripSpec` | pdf_loading/pdf_loader.py:190 | `strip` gives `""` exactly for all-whitespace input; otherwise the result starts and ends with a non-space; a string without spaces at its ends is kept |
| `Text.Remove` | pdf_loading/pdf_loader.py:189 | `replace(p, '')` only deletes: result no longer, only characters of the input, a one-character pattern is gone entirely, and input without an occurrence is returned unchanged |
| `Text.NatToStringInjective` | Image_extraction/images_extract.py:103-107 | distinct page numbers and counts print as distinct decimal strings |
| `Sorting.SortByCorrect` | Image_extraction/images_extract.py:80 | `sorted` returns a permutation of its input, ordered by key |
| `Sorting.SortByStable` | Image_extraction/images_extract.py:80 | `sorted` is stable: the elements with any one key keep their input order |
| `PdfLoader.RemoveEachDeletes` | pdf_loading/pdf_loader.py:188-189 | the cleanup loop only deletes characters, and no one-character token survives it |
| `PdfLoader.RemoveEachAppend` | pdf_loading/pdf_loader.py:188-189 | deleting one list of tokens and then another is deleting their concatenation, in list order |
| `PdfLoader.RemoveEach` | pdf_loading/pdf_loader.py:188-189 | deleting the tokens one after another never lengthens the name |
| `PdfLoader.CleanupDeletes` | pdf_loading/pdf_loader.py:44-47 | after the cleanup list only characters of the file name remain, and neither `_` nor `-` does |
| `PdfLoader.CleanName` | pdf_loading/pdf_loader.py:187-190 | the cleaned name is no longer than the file name, holds no `_` or `-`, only its characters, and has no whitespace at either end |
| `PdfLoader.FirstFamilyIndex` | pdf_loading/pdf_loader.py:193-197 | the index found is the first family contained in the name, or the list length when none is |
| `PdfLoader.FindFamily` | pdf_loading/pdf_loader.py:193-197 | `None` exactly when no family occurs in the name; otherwise the first listed family that occurs |
| `PdfLoader.NeverXDiavel` | pdf_loading/pdf_loader.py:39-43 | `XDiavel` is never reported, since `Diavel` is listed earlier and is contained in it |
| `PdfLoader.FamilyContained` | pdf_loading/pdf_loader.py:194-197 | a reported family occurs in the name |
| `PdfLoader.NeverOffRoad` | pdf_loading/pdf_loader.py:188-197 | `Off-Road` is never reported for a file name, since the cleanup has deleted every `-` |
| `PdfLoader.FirstYearToken` | pdf_loading/pdf_loader.py:205 | the leftmost `MY` + two digits from a position, or none at or after it |
| `PdfLoader.YearOf` | pdf_loading/pdf_loader.py:207-208 | two digits give a four-digit year ending in them, between 1951 and 2050 |
| `PdfLoader.MetadataOf` | pdf_loading/pdf_loader.py:193-216 | without a family the result is `(None, None, cleaned, name)`; a year exists exactly when a family and a year token exist; it is that token's year, and the model name is the cleaned name with every occurrence of the token deleted and stripped again |
| `PdfLoader.ExtractMetadata` | pdf_loading/pdf_loader.py:185-216 | a reported family is listed and is neither `XDiavel` nor `Off-Road`; without one, no year and the cleaned name |
| `PdfLoader.MetadataExample` | pdf_loading/pdf_loader.py:175-216 | `DucatiMonsterMY23OM_EN.pdf` gives family `Monster`, year `2023`, model `DucatiMonster` |
| `PdfLoader.Put` | pdf_loading/pdf_loader.py:72 | `toc[title] = page` keeps titles distinct, replaces an existing key in place, appends a new one |
| `PdfLoader.LookupPut` | pdf_loading/pdf_loader.py:72 | after `toc[title] = page`, that title reads `page` and every other title reads as before |
| `PdfLoader.TocUpTo` | pdf_loading/pdf_loader.py:68-72 | the dictionary built from the first `n` entries has distinct titles |
| `PdfLoader.ExtractToc` | pdf_loading/pdf_loader.py:63-81 | a failing or empty outline gives the empty dictionary; keys are distinct |
| `PdfLoader.TocLastWins` | pdf_loading/pdf_loader.py:68-72 | the dictionary holds exactly the titles of entries with at least three fields, each with the page of its last such entry |
| `PdfLoader.PagesUpTo` | pdf_loading/pdf_loader.py:97-102 | keys are exactly `1..n`; page `i` holds the text of the `i`-th page, `""` when extraction raised |
| `PdfLoader.ExtractPageContent` | pdf_loading/pdf_loader.py:93-109 | an unreadable page list gives the empty dictionary; otherwise keys exactly `1..n` with each page's text |
| `PdfLoader.PagesText` | pdf_loading/pdf_loader.py:153-155 | an empty page range gathers no text |
| `PdfLoader.SectionsUpTo` | pdf_loading/pdf_loader.py:140-166 | the sorted entries yield at most one section each |
| `PdfLoader.SectionsUpToBuilt` | pdf_loading/pdf_loader.py:145-166 | every section emitted lies within `1..page count`, holds its pages' text and the document's model, year and path, and no drawings |
| `PdfLoader.KeptEntries` | pdf_loading/pdf_loader.py:140-150 | the kept entry positions are exactly those whose start page is at least 1 and whose end page is within the page count, in increasing order |
| `PdfLoader.SectionsUpToEntries` | pdf_loading/pdf_loader.py:140-166 | the `j`-th section built is the one the `j`-th kept entry opens |
| `PdfLoader.OrganizeBySection` | pdf_loading/pdf_loader.py:132-173 | no TOC gives no sections, and there are never more sections than entries. Section `j` comes from the `j`-th page-sorted entry in range, and takes that entry's title and page. It ends one page before the next sorted entry, even a skipped one, or at the page count if it is last. It lies within the pages and holds the stripped, newline-joined text of its pages. It carries the arguments' model, year and path, with no drawings |
| `PdfLoader.EmptyRangeEmptyText` | pdf_loading/pdf_loader.py:142-161 | a section whose end precedes its start (two entries on one page) has empty text |
| `PdfLoader.SectionsUpToOrdered` | pdf_loading/pdf_loader.py:137-150 | sections from page-sorted entries are disjoint and end before the next entry's page |
| `PdfLoader.SectionsDisjoint` | pdf_loading/pdf_loader.py:137-166 | the organised sections never overlap: each ends before the next starts |
| `PdfLoader.SectionsUpToTile` | pdf_loading/pdf_loader.py:140-150 | with every page in range no entry is dropped, and section `i` is entry `i`'s title, start and end page |
| `PdfLoader.OneSectionPerEntryTiles` | pdf_loading/pdf_loader.py:142 | with one section per entry, each section ends one page before the next begins and the last ends at the page count |
| `PdfLoader.SortedWithin` | pdf_loading/pdf_loader.py:137 | sorting the entries keeps every page within the document |
| `PdfLoader.OrganizeTiles` | pdf_loading/pdf_loader.py:137-166 | when every TOC page lies within the document, section `i` is opened by sorted entry `i`, carrying its title and page; there is one section per entry, and the sections tile the pages up to the last |
| `PdfLoader.Attached` | pdf_loading/pdf_loader.py:241-256 | every attached drawing is the projection of a matching drawing, and every matching drawing's projection is attached |
| `PdfLoader.AttachedAppend` | pdf_loading/pdf_loader.py:241-256 | attaching over two lists of drawings is attaching over the first and then the second, so attached drawings keep the drawings' order |
| `PdfLoader.AttachedOne` | pdf_loading/pdf_loader.py:242-256 | a single drawing contributes its projection exactly when it matches, and nothing otherwise |
| `PdfLoader.NoImageMatchesPdf` | pdf_loading/pdf_loader.py:242-247 | drawings whose source is a `.png` never match a section whose source is a `.pdf` |
| `PdfLoader.MapDrawings` | pdf_loading/pdf_loader.py:238-259 | mapping keeps the number of sections |
| `PdfLoader.MapDrawingsIdempotent` | pdf_loading/pdf_loader.py:238-259 | mapping drawings twice is mapping them once |
| `PdfLoader.MapSectionsCorrect` | pdf_loading/pdf_loader.py:238-259 | each section's drawings become the matching drawings in order; every other field and the section order are unchanged; mapping twice is mapping once |
| `PdfLoader.MapDrawingsToSections` | pdf_loading/pdf_loader.py:237-263 | the sections, updated in place, are the mapping of the old sections |
| `Chunking.CreateChunk` | nlp/chunking.py:55-76 | a chunk copies the section's heading, pages, model, year and source, counts its own words and sentences, and records its index and total |
| `Chunking.WindowCount` | nlp/chunking.py:106-133 | there is no window exactly when there are no words |
| `Chunking.WindowCountSpec` | nlp/chunking.py:106-133 | window `k` starts inside the words exactly when `k` is below the window count |
| `Chunking.WindowCountIsCeiling` | nlp/chunking.py:106-133 | the number of windows is `ceil(n / step)` |
| `Chunking.WindowCountAntitone` | nlp/chunking.py:132 | a larger stride never needs more windows |
| `Chunking.WindowText` | nlp/chunking.py:107-122 | a window reaching the end is the remaining words joined by single spaces, untrimmed. A window short of the end raises exactly when the sentence tokenizer returns nothing for its `max_words` joined words. It is kept whole when its last sentence ends in `.`, `!` or `?`, or is its only sentence. Otherwise it is its sentences without the last, joined by spaces |
| `Chunking.Windows` | nlp/chunking.py:106-135 | a successful run of `k` windows yields `k` chunks |
| `Chunking.WindowsChunks` | nlp/chunking.py:106-135 | chunk `i` is the text of the window starting at word `i * step`, numbered `i`, with total `ceil(n / max_words)` |
| `Chunking.WindowsErrSticky` | nlp/chunking.py:136-138 | once a window raises, the section fails with that error |
| `Chunking.CutWindow` | nlp/chunking.py:107-122 | the loop body computes the window text |
| `Chunking.ChunkWindows` | nlp/chunking.py:106-135 | the window loop computes the windows' chunks |
| `Chunking.SectionChunks` | nlp/chunking.py:81-138 | defines `_chunk_section`'s outcome: a record raises `TypeError`; a blank section gives no chunks; a small section is one chunk; otherwise its windows, or the first window that raises |
| `Chunking.ChunkSection` | nlp/chunking.py:81-138 | `_chunk_section` computes the section's chunks, or its error |
| `Chunking.ChunkAll` | nlp/chunking.py:140-156 | defines `chunk`'s result: the sections' chunks concatenated in order, a section that raises adding nothing |
| `Chunking.Chunk` | nlp/chunking.py:140-156 | `chunk` computes the concatenated chunks of the sections that did not raise |
| `Chunking.BlankSectionNoChunks` | nlp/chunking.py:92-95 | empty or whitespace-only text gives no chunks |
| `Chunking.SmallSectionOneChunk` | nlp/chunking.py:98-100 | fewer words than the minimum gives one chunk holding the text verbatim, index 0, total 1 |
| `Chunking.WindowedSectionChunks` | nlp/chunking.py:102-135 | a windowed section yields `ceil(n / step)` chunks numbered `0, 1, 2, ...`, each with total `ceil(n / max_words)` and the section's own fields |
| `Chunking.WindowsCover` | nlp/chunking.py:106-133 | with a non-negative overlap every word lies in some window |
| `Chunking.EstimateAtMostWindows` | nlp/chunking.py:124-133 | with a non-negative overlap the `total_chunks` estimate never exceeds the number of windows |
| `Chunking.EstimateDiffersExample` | nlp/chunking.py:128-132 | the estimate and the real count differ: 10 words, windows of 4 overlapping by 2 give estimate 3 and 5 chunks |
| `Chunking.ChunkAllAppend` | nlp/chunking.py:145-151 | chunking two section lists one after the other is chunking their concatenation |
| `Chunking.SectionChunksSource` | nlp/chunking.py:64-70 | every chunk carries its section's model, year and source |
| `Chunking.ChunksFromFile` | nlp/chunking.py:145-151 | sections from one file give chunks that all name that file |
| `Chunking.AsRecords` | main.py:174-178 | every section is handed over as the record itself, in order |
| `Chunking.ChunkAllEmpty` | nlp/chunking.py:145-151 | chunking yields nothing exactly when every section that does not raise yields no chunk |
| `Chunking.RecordsYieldNothing` | nlp/chunking.py:92 | sections handed over as `PDFSection` records produce no chunks at all |
| `Chunking.MappedSectionChunked` | nlp/chunking.py:145-151 | handed over as mappings, a section with some text whose chunking succeeds contributes at least one chunk, after the earlier sections' chunks |
| `Chunking.NonBlankSectionChunked` | nlp/chunking.py:92-135 | a section with some text whose chunking succeeds yields at least one chunk |
| `Chunking.AsDict` | nlp/chunking.py:164-179 | a chunk dictionary has exactly the eleven `TextChunk` keys |
| `Chunking.DictRoundTrip` | nlp/chunking.py:164-179 | a chunk can be read back from its dictionary |
| `Chunking.ChunkDicts` | nlp/chunking.py:158-179 | the module-level `chunk` returns one dictionary per chunk, in order, each reading back as that chunk |
| `ImagesExtract.CandidateInIntegers` | Image_extraction/images_extract.py:67-77 | a contour is kept exactly when its area exceeds 30000 and `h < 2w` and `w < 2h` |
| `ImagesExtract.Candidates` | Image_extraction/images_extract.py:66-77 | the kept contours are exactly the input contours passing both strict filters |
| `ImagesExtract.RankedCandidates` | Image_extraction/images_extract.py:59-83 | defines `_find_diagrams`: `ZeroDivisionError` when a large contour has zero height, otherwise the candidates stably sorted by decreasing area |
| `ImagesExtract.RankedCandidatesCorrect` | Image_extraction/images_extract.py:59-83 | ranking fails exactly when a large contour has zero height; otherwise it is a permutation of the candidates, by non-increasing area, equal areas in contour order |
| `ImagesExtract.FindDiagrams` | Image_extraction/images_extract.py:59-83 | the filter loop and sort compute the ranking |
| `ImagesExtract.PadBox` | Image_extraction/images_extract.py:92-95 | the padded box lies inside the image and grows each side by at most 30; it contains a box inside the image; away from the edges it is the box grown by 15 on every side |
| `ImagesExtract.PathJoin` | Image_extraction/images_extract.py:34 | pathlib's `/`: an empty or `.` part adds nothing; otherwise the result ends with the part, and joins a plain directory with one `/` |
| `ImagesExtract.ImagePath` | Image_extraction/images_extract.py:101-103 | the crop's path ends with its file name and names a `.png` file |
| `ImagesExtract.ImagePathPlain` | Image_extraction/images_extract.py:101-103 | with a plain directory and a non-empty model name, the path is `dir/model/file` |
| `ImagesExtract.EmptyModelPathExample` | Image_extraction/images_extract.py:101-103 | a model name that cleans to `""` adds no directory: `images/_None_pg0_1.png` |
| `ImagesExtract.DrawingIdUnique` | Image_extraction/images_extract.py:107 | within a document a drawing id names one page and one sequence number |
| `ImagesExtract.ExtractDiagram` | Image_extraction/images_extract.py:85-120 | the crop raises exactly when it cannot be saved; otherwise it has the deterministic id and path, the image path as `source_pdf`, the page, model and year, and the padded box |
| `ImagesExtract.PageDiagrams` | Image_extraction/images_extract.py:138-146 | a page yields at most one diagram per ranked contour |
| `ImagesExtract.SavedCounts` | Image_extraction/images_extract.py:138-146 | the sequence numbers whose crop is saved are exactly the `k` in `1..n` not failing, in increasing order |
| `ImagesExtract.PageDiagramsKept` | Image_extraction/images_extract.py:138-146 | whatever crops fail, the rest continue: diagram `j` is the `k`-th ranked contour cropped with number `k`, for the `j`-th saved `k`, and its id names `k` |
| `ImagesExtract.PageDiagramsNumbered` | Image_extraction/images_extract.py:138-146 | when no crop fails, diagram `k` is the `k`-th ranked contour, numbered from 1, with its padded box |
| `ImagesExtract.PageDiagramsFields` | Image_extraction/images_extract.py:106-116 | every diagram of a page carries that page's number and its `.png` path as source |
| `ImagesExtract.DiagramsUpTo` | Image_extraction/images_extract.py:122-152 | defines `extract_diagrams_from_pdf` over the first `n` pages: each page's kept diagrams appended in page order, the first page error aborting the document |
| `ImagesExtract.DiagramsUpToFields` | Image_extraction/images_extract.py:127-152 | diagrams come in page order, each from one of the pages read, with a `.png` source |
| `ImagesExtract.DiagramsFailure` | Image_extraction/images_extract.py:126-150 | the document fails exactly when some page fails to render or holds a large contour of zero height |
| `ImagesExtract.DiagramsErrSticky` | Image_extraction/images_extract.py:148-150 | once a page has failed, the whole document fails with that error |
| `ImagesExtract.DiagramsStep` | Image_extraction/images_extract.py:127-146 | a page that renders and ranks appends its diagrams to those of the earlier pages |
| `ImagesExtract.DiagramsAbort` | Image_extraction/images_extract.py:148-150 | a page that fails ends the document with that page's error |
| `ImagesExtract.ExtractPageDiagrams` | Image_extraction/images_extract.py:138-146 | the inner loop computes the page's diagrams, skipping failed crops |
| `ImagesExtract.ExtractDiagramsFromPdf` | Image_extraction/images_extract.py:122-152 | the nested loops compute the document's diagrams, or the first error |
| `ImagesExtract.AsDrawings` | Image_extraction/images_extract.py:160-174 | the dictionaries have the same length and order, with `width` and `height` renamed `w` and `h` |
| `ImagesExtract.ExtractDiagramFromPdf` | Image_extraction/images_extract.py:154-174 | the detector's error propagates; otherwise its records are returned as dictionaries |
| `Cleaning.Run` | nlp/cleaning.py:123-129 | a run of steps leaves at most one error per step |
| `Cleaning.Prepared` | nlp/cleaning.py:109 | the prepared text holds no NUL and is no longer than the input |
| `Cleaning.CleanWithStats` | nlp/cleaning.py:98-144 | text that is empty after NUL removal and strip gives `""` with all counts 0; otherwise the raw input's length, the cleaned length, their difference, the line difference and the steps' errors |
| `Cleaning.CleanTextWithStats` | nlp/cleaning.py:98-144 | the step loop computes the cleaning and its statistics |
| `Cleaning.CleanText` | nlp/cleaning.py:158-161 | `clean_text` is the text part of the cleaning |
| `Cleaning.RunAppend` | nlp/cleaning.py:123-129 | steps run in list order, each on the previous one's output, and the errors accumulate in order |
| `Cleaning.NoFailureNoErrors` | nlp/cleaning.py:123-129 | steps that never raise leave no error |
| `Cleaning.AllFailuresKeepText` | nlp/cleaning.py:124-129 | steps that all raise leave the text unchanged and one error each, naming the step, in step order |
| `Cleaning.BlankInputZeroStats` | nlp/cleaning.py:109-120 | NUL- and whitespace-only input cleans to `""` with every count 0 |
| `Cleaning.CleanPage` | nlp/cleaning.py:171-183 | an empty or non-text page gives `""` and `Invalid content type`; a list is joined with single spaces before cleaning |
| `Cleaning.CleanContent` | nlp/cleaning.py:163-217 | the cleaned texts and statistics have exactly the input's pages, each page cleaned on its own |
| `MotoBotMain.ErrorMessage` | main.py:204 | the error message is longer than the exception's text |
| `MotoBotMain.FailedDocument` | main.py:211-220 | a failure document has empty family, year, model, content and drawings, the file's path and a non-empty error |
| `MotoBotMain.CleanedPagesAre` | main.py:173 | the pages cleaned one by one are the cleaned page map |
| `MotoBotMain.DrawingsOf` | main.py:181-182 | a file pypdfium2 cannot open raises its error |
| `MotoBotMain.ChunksOf` | main.py:174-178 | the sections handed over as records yield no chunks at all |
| `MotoBotMain.HandOverLosesChunks` | main.py:174-178 | the written hand-over yields no chunk. The corrected one (`CorrectedChunksOf`) yields none only when no section, handed over as a mapping, chunks into anything |
| `MotoBotMain.Document` | main.py:188-196 | a successful document carries the file's family, year and model name, empty content and drawings, no error and the file's path |
| `MotoBotMain.CorrectedDocument` | main.py:174-196 | with the corrected hand-over, the document has the same metadata, with one mapped chunk per chunk as both content and drawings. Emptying its lists gives `Document` |
| `MotoBotMain.Attempted` | main.py:155-201 | a file that cannot be opened raises with no counts; an opened file adds its page count; a document returned has no error, the file's path and empty content and drawings, and comes with the number of detected drawings as its drawing count; a raise adds no drawings |
| `MotoBotMain.Load` | main.py:95-107 | with caching off, nothing; a string cache directory raises; otherwise the stored document exactly when there is one |
| `MotoBotMain.Saved` | main.py:109-119 | with caching off the cache is unchanged; otherwise the document is stored under its key and every other entry is kept |
| `MotoBotMain.Group` | main.py:234-236 | the family's list is extended by the drawings, created when absent; other families are unchanged |
| `MotoBotMain.Batches` | main.py:259-262 | a zero batch size raises; a negative one gives no batches |
| `MotoBotMain.ProcessingStats.constructor` | main.py:27-36 | all counters start at zero with no errors |
| `MotoBotMain.MapChunkDrawings` | main.py:183 | mapping drawings onto the chunk list in place gives the mapped chunks |
| `MotoBotMain.MotoBot.constructor` | main.py:53-73 | fresh statistics, an empty family index, the cache as found |
| `MotoBotMain.MotoBot.LoadFromCache` | main.py:95-107 | the lookup computes `Load` |
| `MotoBotMain.MotoBot.SaveToCache` | main.py:109-119 | saving raises exactly with caching on and a string cache directory; otherwise the cache becomes `Saved`; the family index is unchanged |
| `MotoBotMain.MotoBot.RecordFailure` | main.py:203-220 | one error record is appended and the failure document returned |
| `MotoBotMain.MotoBot.CleanPages` | main.py:173 | `clean_content` over the pages computes the cleaned page map |
| `MotoBotMain.MotoBot.ChunkPages` | main.py:173-178 | cleaning, sectioning and chunking the records compute `ChunksOf`, which is empty |
| `MotoBotMain.MotoBot.DetectDrawings` | main.py:181-182 | opening the rendered document and detecting diagrams computes its drawings or error |
| `MotoBotMain.MotoBot.RunPipeline` | main.py:155-196 | the pipeline computes the file's outcome |
| `MotoBotMain.MotoBot.Conclude` | main.py:170-220 | the page and drawing counts grow, then the document is cached, or one error record is left and the failure document returned |
| `MotoBotMain.MotoBot.ProcessPdf` | main.py:144-220 | `process_pdf` changes the statistics and cache as `Process` says |
| `MotoBotMain.MotoBot.TallyOutcome` | main.py:229-247 | an exception or an error counts the file as failed; a clean document counts as processed and its drawings join its family |
| `MotoBotMain.MotoBot.BatchOne` | main.py:224-247 | one loop iteration counts the file, processes it, and tallies the outcome |
| `MotoBotMain.MotoBot.ProcessBatch` | main.py:222-247 | the loop runs the files in order, changing the state as `Batch` says |
| `MotoBotMain.MotoBot.RunBatch` | main.py:264-268 | running one more batch is running the files so far followed by the batch |
| `MotoBotMain.MotoBot.ProcessAllPdfs` | main.py:249-274 | an empty file list changes nothing; a zero batch size raises; otherwise all files are processed in order, batch after batch |
| `MotoBotMain.BatchAppend` | main.py:264-268 | running a second list of files after a first is running their concatenation |
| `MotoBotMain.SlicesFlatten` | main.py:259-262 | the batches put back together are the file list |
| `MotoBotMain.SlicesSizes` | main.py:259-262 | every batch holds between 1 and `batch_size` files, and all but the last hold exactly `batch_size` |
| `MotoBotMain.BatchesPartition` | main.py:259-262 | with a positive size the batches are consecutive non-empty slices covering the files in order, all but the last of full size |
| `MotoBotMain.Process` | main.py:144-220 | defines `process_pdf`: the cache lookup (which may raise), a hit returned as it is, otherwise the pipeline's counts, then the cache write or one error record with the failure document |
| `MotoBotMain.Tally` | main.py:225-247 | `process_batch`'s bookkeeping for one outcome leaves `total_files`, the page and drawing counts and the cache alone, and adds one to exactly the sum of `processed_files` and `failed_files` |
| `MotoBotMain.Batch` | main.py:222-247 | defines `process_batch`: each file counted, processed and tallied, in list order |
| `MotoBotMain.ProcessCounts` | main.py:169-186 | on a cache miss `total_pages` and `total_drawings` grow by what the pipeline reached, whether it then succeeds or raises; a cache hit or a raising lookup changes nothing |
| `MotoBotMain.ProcessAccounts` | main.py:144-220 | `process_pdf` leaves the file counters and the family index alone, keeps only clean documents in the cache, and leaves one error record exactly when it returns a failure document; with caching off the cache is neither read nor written; a string cache directory raises and changes nothing |
| `MotoBotMain.StepAccounts` | main.py:224-240 | each file adds one to `total_files` and one to exactly one of `processed_files` and `failed_files`; a failure leaves the family index alone, a success appends its drawings under its family; the accounting is kept |
| `MotoBotMain.BatchAccounts` | main.py:222-247 | a batch of `n` files adds `n` to `total_files` and keeps `total = processed + failed`, `failed = number of error records` and a clean cache |
| `MotoBotMain.AttemptsClean` | main.py:188-201 | every document the pipeline returns has no error |
| `MotoBotMain.StringCacheDirFailsAll` | main.py:90-107 | with caching on and a string cache directory every file fails on the lookup, with one error record naming it, and nothing else changes |
| `MotoBotMain.SecondRunHitsCache` | main.py:150-153 | a file that succeeded is served from the cache next time: the same document, nothing changed |
| `MotoBotMain.ProcessTwice` | main.py:144-201 | running `process_pdf` twice on a file that succeeded gives the same document and state as running it once |
| `MotoBotMain.CorrectedChunksOfSource` | main.py:174-178 | with the corrected hand-over, every chunk of a file's sections names the file as its source |
| `MotoBotMain.MappingAttachesNothing` | main.py:183 | drawings with a `.png` source attach to no chunk of a `.pdf` file |
| `MotoBotMain.CorrectedDocumentHasNoDrawings` | main.py:181-196 | even with the corrected hand-over, no chunk of a document gets a drawing |
| `MotoBotMain.DrawingsNeverAttach` | main.py:181-196 | for every `.pdf` file whose diagrams are detected, every chunk of the corrected document has empty drawings |
| `MotoBotMain.StepGroupsNothing` | main.py:224-240 | one file keeps every family's list and every cached document's drawings empty |
| `MotoBotMain.BatchGroupsNothing` | main.py:222-247 | steps over any files keep every family's list and every cached document's drawings empty |
| `MotoBotMain.GroupedFamilyStaysEmpty` | main.py:222-247 | as written, after any batch every list in `grouped_family` is `[]` |

## Left out

- Concurrency: `process_all_pdfs` hands batches to a `ProcessPoolExecutor` (main.py:264-274). Workers mutate copies of the statistics that are never merged back. The model runs the batches one after another in the parent.
- `lib_path.glob("*.pdf")` is called on a string (`LIB_PATH` in `config.py`), so the file list is a parameter of `ProcessAllPdfs`. The paths are assumed to end in `.pdf`, as the glob guarantees.
- Logging is not modelled. `setup_logging` reads `Config.LOG_FILE`, which `config.py` does not define.
- `processing_time`, `time.time()`, timestamps in error records, and the writes in `_save_processing_stats`, `_save_cleaning_stats` and `save_results` are not modelled.
- The cache file name is an abstract `cacheKey` of the path, standing in for md5 of `str(path)`. The cache directory is a map.
- Reading or writing a pickle can fail, and the code logs that and carries on. This is not modelled: a stored document is always read back as stored. `cacheDirIsPath` records whether `CACHE_DIR` is a path; `config.py` makes it a string, so `CACHE_DIR / name` raises.
- `MotoBotMain.Batches`: does not state the number of batches as a ceiling division; `MotoBotMain.SlicesSizes` states the sizes instead.
- The order of keys in `grouped_family` is not modelled. It is a Dafny map, so the model does not capture the JSON key order.
- `Chunking.Valid`: every chunking member requires `max_words > 0` and `max_words > overlap_words`, even on the record, blank and small-section paths, which never read the settings. Other settings behave as follows, and none of this is modelled:
  - With `max_words == 0`, the first window is `""`, and `sent_tokenize("")[-1]` raises `IndexError`. `chunk` swallows it, so the section contributes nothing.
  - With `max_words > 0` and a stride `max_words - overlap_words <= 0`, the window loop never ends.
  - A negative `max_words` slices from the end of the word list.

  `max_words or self.max_words` falls back to the setting when the argument is 0, and the model always uses the setting.
- The nltk tokenizers, the eleven cleaning functions and the raster operations (rendering, grayscale, threshold, dilation, `findContours`, `contourArea`, `boundingRect`, PNG saving) are parameters. Their behaviour is not modelled. A PNG save that fails is a set of per-page sequence numbers.
- `Cleaning.CleanWithStats`: the outer `except` of `_clean_text_with_stats` and the per-page `except` of `clean_content` are not modelled. With steps that return strings, neither can be reached.
- `FormatEncoding.FormatEncodingStr`: `str.lower()` is modelled on ASCII letters only. Non-ASCII case folding is not modelled.
- `Text.Strip`: its own contract states only length and characters; what `strip` removes is stated by `Text.StripSpec`.
- `PdfLoader.PagesText`: its contract states only the empty range; the section text itself is stated by `PdfLoader.OrganizeBySection`.
- The backward-compatibility wrappers at the ends of `pdf_loader.py` and `cleaning.py` only construct the class and forward the call, so they are not modelled separately.
- Construction is not modelled: `MotoBot.__init__`, `Config.create_directories()` and the `PDFLoader`, `TextCleaner` and `TextChunker` constructors. Under the shipped `config.py` it raises:
  - `TextCleaner()` computes `Config.STATS_DIR / "cleaning"` with `STATS_DIR` a string, which raises `TypeError` (nlp/cleaning.py:57).
  - `TextChunker()` reads `CHUNK_MAX_WORDS`, `CHUNK_OVERLAP_WORDS`, `CHUNK_MIN_SIZE` and `NLTK_DATA_DIR`, none of which `config.py` defines.

  The model assumes construction succeeds, with those settings as parameters.
- `ImagesExtract.PathJoin`: pathlib's normalisation is modelled only for a part without `/`. That covers empty and `.` parts, a trailing `/` on the directory, and `.` or empty directories. Parts holding `/`, absolute parts and repeated separators are not modelled; a model name taken from a file name cannot hold `/`.

## Findings

| source | as written | input that shows it | evidently intended | confidence | as-written member | corrected member |
|---|---|---|---|---|---|---|
| main.py:174-178 | `organize_by_section` returns `PDFSection` records and `chunk` passes each to `_chunk_section`, which subscripts `section_data["text"]` (nlp/chunking.py:92). That raises `TypeError`, and `chunk` catches it per section (nlp/chunking.py:149-151), so every document's content is empty | any manual with a table of contents, e.g. one section covering page 1 with text `"Engine oil"` | each section handed over as a mapping of its fields, contributing its chunks | high; not executed | `MotoBotMain.ChunksOf` | `Chunking.MappedSectionChunked` |
