# PDF structure extraction and text chunking, modelled in Dafny

This project models the document-analysis core of a PDF-to-video pipeline.

- **`PDFProcessor`** opens a PDF and picks an extraction configuration. It either uses
  the configuration it was given, or samples five pages and classifies the book
  (academic, novel, textbook, manual, unknown) by keyword families. It then runs four
  page loops:
  - all page texts with their character counts;
  - the first content page after the cover pages;
  - the pages handed to the index extractor;
  - the tables of a page range.

  A summary of the four results ends `extract_structured_content`.
- **`AdaptiveIndexExtractor`** finds the table of contents with three locators tried in
  order: keyword pages (plus up to two continuation pages), enumerated pages (plus one
  continuation page), and a line-length profile of the first ten pages. A line-by-line
  state machine then turns the located text into entries. A last pass filters and
  deduplicates them.
- **`AdaptiveTableExtractor`** checks each grid found on a page for enough non-empty
  rows, columns, filled cells and not too many over-long cells. It then structures an
  accepted grid as a header row plus data rows fitted to the header's width.
- **The two chunkers**, of the summarizer and of the speech client, estimate tokens as
  `len(text) // 4` and pack text greedily into chunks within a token budget.
  - The summarizer packs paragraphs. A paragraph over the budget first closes the
    pending chunk and is then packed sentence by sentence.
  - The speech client packs the pieces of `text.split('. ')`.

Layout:

| module | what |
|---|---|
| `Wrappers` (`wrappers.dfy`) | `Option`, and `Result` for raised exceptions |
| `Text` (`text.dfy`) | `strip`, `lower`, `join`, keys, first-match and deduplication helpers over sequences |
| `Splitting` (`splitting.dfy`) | `str.split(sep)`, `str.split()`, and `re.split` on `\n\s*\n` and `([.!?]\s+)` |
| `Patterns` (`patterns.dfy`) | the regex engine as an abstract value, and the fixed expressions written out |
| `Config` (`config.dfy`) | `BookType`, `ExtractionConfig` with its defaults, and the per-type table |
| `BookStructure` (`analyzer.dfy`) | `analyze_book_type` |
| `IndexPages` (`index_pages.dfy`) | the three index-page locators and the continuation test |
| `IndexEntries` (`index_entries.dfy`) | `_extract_entries_adaptive` and `_is_content_line` |
| `IndexExtraction` (`index_extraction.dfy`) | `AdaptiveIndexExtractor.extract` |
| `TableExtraction` (`table_extraction.dfy`) | `_validate_table`, `_structure_table`, `AdaptiveTableExtractor.extract` |
| `Collecting` (`collecting.dfy`) | the numbered "keep what each item yields" loop shared by the page loops |
| `Processor` (`processor.dfy`) | `PDFProcessor` as a class over the document's pages |
| `Chunking` (`chunking.dfy`) | `_estimate_tokens` and the greedy packing both chunkers share |
| `SummaryChunks` (`summary_chunks.dfy`) | the summarizer's `_split_text_into_chunks` |
| `SpeechChunks` (`speech_chunks.dfy`) | the speech client's `_split_text_into_chunks` |

The loops of the source are methods with loop invariants. Each method that computes a
value is proved to return what a specification function gives on the same inputs. The
summarizer's two packing steps are tied to theirs through a ghost list of the closed
chunks. The properties the code promises are lemmas about those functions: order,
completeness, budgets, round trips and which records are kept. `PDFProcessor` is a
class. Its open/closed state, configuration and book type are fields that `Enter`,
`AutoConfigure` and `Exit` update, and each of these states the new value of every field.

## Model

S = `app/phase1_pdf_processing/utils/pdf_extraction_strategies.py`, P =
`app/phase1_pdf_processing/processor.py`, Z = `app/phase2_ai_services/pdf_summarizer.py`,
C = `app/phase2_ai_services/cartesia_client.py` (the cells give the full paths).

| member | source | states |
|---|---|---|
| Text.Lower | app/phase1_pdf_processing/utils/pdf_extraction_strategies.py:91 | `lower()` keeps the length and maps each character on its own |
| Text.StripTrims | app/phase1_pdf_processing/utils/pdf_extraction_strategies.py:306 | `strip()` is a slice of the text, removes only whitespace from both ends, and leaves no whitespace at either end |
| Text.StripIsTrimmed | app/phase1_pdf_processing/utils/pdf_extraction_strategies.py:306 | `strip()` leaves no whitespace at either end |
| Text.StripOfTrimmed | app/phase1_pdf_processing/utils/pdf_extraction_strategies.py:356 | `strip()` leaves a text without outer whitespace as it is |
| Text.KeyLength | app/phase1_pdf_processing/utils/pdf_extraction_strategies.py:310 | the title key `lower().strip()` is as long as the stripped title: lower-casing does not change what `strip` removes |
| Text.Strip | app/phase1_pdf_processing/processor.py:130 | `strip()` never lengthens the text |
| Text.Prefix | app/phase1_pdf_processing/processor.py:78 | `text[:1000]` is the first `min(n, len)` characters of the text |
| Text.FirstWhere | app/phase1_pdf_processing/utils/pdf_extraction_strategies.py:254-274 | the position a first-match loop stops at: no earlier element matches, and the element there matches unless it is the length |
| Text.KeysBy | app/phase1_pdf_processing/processor.py:144 | `[p["text"] for p in pages]`: one key per element, in order |
| Text.UniqueBy | app/phase1_pdf_processing/utils/pdf_extraction_strategies.py:420-431 | the filter loop keeps only accepted keys, and no key twice |
| Text.UniqueByKeepsEveryKey | app/phase1_pdf_processing/utils/pdf_extraction_strategies.py:420-431 | every accepted key of the input survives the filter |
| Text.UniqueByKeepsFirstInOrder | app/phase1_pdf_processing/utils/pdf_extraction_strategies.py:421-429 | each kept entry is the first of its key in the input, and the kept entries keep input order |
| Text.UniqueByOfUnique | app/phase1_pdf_processing/utils/pdf_extraction_strategies.py:420-431 | a list of accepted, distinct keys passes the filter unchanged (the filter is idempotent) |
| Text.JoinAppend | app/phase2_ai_services/pdf_summarizer.py:45 | joining two non-empty lists is joining each and gluing them with the separator |
| Splitting.SpaceRunIsMaximal | app/phase2_ai_services/pdf_summarizer.py:34 | the `\s*` run is all whitespace and stops at a non-whitespace character or the end |
| Splitting.WordRun | app/phase1_pdf_processing/utils/pdf_extraction_strategies.py:358 | a word run holds no whitespace and ends at whitespace or the end |
| Splitting.Words | app/phase1_pdf_processing/utils/pdf_extraction_strategies.py:358 | `title.split()` yields only non-empty words without whitespace |
| Splitting.WordsOfJoin | app/phase1_pdf_processing/utils/pdf_extraction_strategies.py:358-360 | `" ".join(ws).split() == ws` for words without whitespace |
| Splitting.JoinedWordsTrimmed | app/phase1_pdf_processing/utils/pdf_extraction_strategies.py:360 | `" ".join(words)` of at least one word neither starts nor ends with whitespace |
| Splitting.WordsOfWordLed | app/phase1_pdf_processing/utils/pdf_extraction_strategies.py:358 | a text that opens with a word and then a space splits that word off first |
| Splitting.LastNewline | app/phase2_ai_services/pdf_summarizer.py:34 | the newline that `\s*` backs off to lies inside the whitespace run, or there is none |
| Splitting.SeparatorAtIsSlice | app/phase2_ai_services/cartesia_client.py:70 | a separator found character by character is the slice of the text there |
| Splitting.NextMatch | app/phase2_ai_services/pdf_summarizer.py:34 | a found delimiter is non-empty, starts at or after the scan position, and lies inside the text |
| Splitting.NextMatchIsLeftmost | app/phase2_ai_services/pdf_summarizer.py:34 | the delimiter found is a match, and no match starts before it (or anywhere, when none is found) |
| Splitting.Cuts | app/phase2_ai_services/pdf_summarizer.py:50 | the delimiters found fit the text one after the other |
| Splitting.Evens | app/phase2_ai_services/cartesia_client.py:70 | the pieces of an alternating split are its elements at even positions |
| Splitting.CutAtConcat | app/phase2_ai_services/pdf_summarizer.py:50 | pieces and delimiters glued back together give the text |
| Splitting.CutAtLength | app/phase2_ai_services/pdf_summarizer.py:50-55 | `k` cuts give `k + 1` pieces and `k` delimiters |
| Splitting.PartsConcat | app/phase2_ai_services/pdf_summarizer.py:50 | `"".join(re.split(r'([.!?]\s+)', p)) == p`: nothing is lost or reordered |
| Splitting.PartsOdd | app/phase2_ai_services/pdf_summarizer.py:50-55 | `re.split` with one group gives an odd number of parts, so the stride-2 loop pairs every delimiter with its sentence |
| Splitting.LiteralCutsAreSeparator | app/phase2_ai_services/cartesia_client.py:70 | every delimiter a literal split cuts at is the separator itself |
| Splitting.JoinCutPieces | app/phase2_ai_services/cartesia_client.py:70 | joining the pieces between copies of `sep` with `sep` gives the text back |
| Splitting.SplitOnRoundTrip | app/phase2_ai_services/cartesia_client.py:70 | `sep.join(s.split(sep)) == s`, and the split is never empty |
| Config.MakeConfig | app/phase1_pdf_processing/utils/pdf_extraction_strategies.py:25-73 | `__post_init__` replaces exactly the pattern lists left as `None` with the built-in lists; every other field is as given |
| Config.ConfigForType | app/phase1_pdf_processing/utils/pdf_extraction_strategies.py:131-160 | the per-type table: Unknown gets the defaults; every type keeps the default keyword, pattern and indicator lists and the shared row, column and cell limits; only Novel skips pages (3), with 5 index pages, 1 entry and 100 characters; the fill threshold is 400, 350 or 300 permille for Academic, Textbook and the rest; every entry asks for at least one index entry, five index pages and 100 characters |
| BookStructure.Score | app/phase1_pdf_processing/utils/pdf_extraction_strategies.py:99-100 | a family's score is at most its number of patterns, and 0 when none of them matches |
| BookStructure.AnalyzeBookType | app/phase1_pdf_processing/utils/pdf_extraction_strategies.py:80-128 | the three scores stay within their family sizes, and each type is chosen exactly when its rule is the first that fires: Academic when the academic score is at least 3; Novel when not Academic, the novel score is at least 2 and the book has over 100 pages; Manual when neither of those and the manual score is at least 2; Textbook when none of those and the academic score is 2; Unknown otherwise |
| BookStructure.EmptySamplesAreUnknown | app/phase1_pdf_processing/utils/pdf_extraction_strategies.py:91-128 | with no samples, when no indicator matches the empty text, the book is Unknown |
| BookStructure.ShortBooksAreNotNovels | app/phase1_pdf_processing/utils/pdf_extraction_strategies.py:119-128 | a book of at most 100 pages is never a novel, and its page count plays no other part |
| IndexPages.StrippedNonBlank | app/phase1_pdf_processing/utils/pdf_extraction_strategies.py:256 | `[l.strip() for l in lines if l.strip()]` keeps only non-empty lines, and no more than there were |
| IndexPages.LooksLikeIndexContinuation | app/phase1_pdf_processing/utils/pdf_extraction_strategies.py:278-293 | a continuation has at least 3 lines and fewer than 2 prose openers, and two numbered lines or over 60 % short lines; with 3 lines and fewer than 2 prose openers, either two numbered lines or over 60 % short lines suffices on its own |
| IndexPages.TakeContinuation | app/phase1_pdf_processing/utils/pdf_extraction_strategies.py:222-228 | the scan computes the continuation run: the located page first, then later pages before the limit only while each continues the index, without repeats, and over distinct pages exactly the consecutive run up to the first page that does not continue |
| IndexPages.RunFrom | app/phase1_pdf_processing/utils/pdf_extraction_strategies.py:223-228 | the scan from a position only appends pages before the limit that continue the index, one per page visited at most |
| IndexPages.RunFromTakesContinuing | app/phase1_pdf_processing/utils/pdf_extraction_strategies.py:223-228 | every page the scan appends lies before the limit, from its starting position on, and continues the index |
| IndexPages.ContinuationRun | app/phase1_pdf_processing/utils/pdf_extraction_strategies.py:220-228 | the run starts at the located page and adds only later pages before the limit that continue the index |
| IndexPages.ContinuationRunIsRun | app/phase1_pdf_processing/utils/pdf_extraction_strategies.py:220-228 | the run meets every clause of a continuation run, including the consecutive-run clause over distinct pages |
| IndexPages.ContinuationRunConsecutive | app/phase1_pdf_processing/utils/pdf_extraction_strategies.py:220-228 | when no two pages from the located one to the limit are equal, the run is the consecutive pages from the located one, and the page after it, if before the limit, does not continue the index |
| IndexPages.RunEnd | app/phase1_pdf_processing/utils/pdf_extraction_strategies.py:224-228 | the run of continuing pages ends at the limit or at a page that does not continue the index |
| IndexPages.RunFromDistinct | app/phase1_pdf_processing/utils/pdf_extraction_strategies.py:223-228 | over pages without repeats the scan takes consecutive pages and stops exactly at the first page that does not continue the index |
| IndexPages.NotAmongEarlier | app/phase1_pdf_processing/utils/pdf_extraction_strategies.py:225 | a page different from each earlier page of the window is not already among them, so the `not in` test lets it through |
| IndexPages.RunAmongPages | app/phase1_pdf_processing/utils/pdf_extraction_strategies.py:220-228 | every page of the continuation run is one of the given pages |
| IndexPages.KeywordTier | app/phase1_pdf_processing/utils/pdf_extraction_strategies.py:213-230 | nothing exactly when no page has a keyword; otherwise it starts at the first keyword page and holds only given pages |
| IndexPages.FindIndexPagesByKeywords | app/phase1_pdf_processing/utils/pdf_extraction_strategies.py:213-230 | the loop returns the keyword tier: nothing exactly when no page has a keyword, otherwise the first keyword page and its continuation run within the next two pages |
| IndexPages.FirstNumberedPage | app/phase1_pdf_processing/utils/pdf_extraction_strategies.py:235-241 | the scan stops at the first page with at least three enumerated lines |
| IndexPages.PatternTier | app/phase1_pdf_processing/utils/pdf_extraction_strategies.py:232-249 | nothing exactly when no page has three enumerated lines; otherwise it starts at the first such page, holds at most two pages, all of them given pages |
| IndexPages.PatternTierShape | app/phase1_pdf_processing/utils/pdf_extraction_strategies.py:244-247 | the pattern tier holds a second page exactly when the next page continues the index and differs from the first, and that second page is the next page |
| IndexPages.FindIndexPagesByPatterns | app/phase1_pdf_processing/utils/pdf_extraction_strategies.py:232-249 | the loop returns the pattern tier: nothing exactly when no page is enumerated; otherwise the first enumerated page, plus the next page exactly when it continues the index and differs from it |
| IndexPages.MidLengthLines | app/phase1_pdf_processing/utils/pdf_extraction_strategies.py:266 | the count of 11-to-79-character lines is at most the number of lines |
| IndexPages.LongLines | app/phase1_pdf_processing/utils/pdf_extraction_strategies.py:267 | the count of over-150-character lines is at most the number of lines |
| IndexPages.IsStatisticalIndexPage | app/phase1_pdf_processing/utils/pdf_extraction_strategies.py:255-272 | a page with the index profile has at least five non-blank lines |
| IndexPages.StatisticsTier | app/phase1_pdf_processing/utils/pdf_extraction_strategies.py:251-276 | at most one page, which has the index profile; nothing exactly when none of the first ten pages has it |
| IndexPages.FindIndexPagesByStatistics | app/phase1_pdf_processing/utils/pdf_extraction_strategies.py:251-276 | the loop returns the statistics tier: nothing exactly when none of the first ten pages has the profile; otherwise that first page alone |
| IndexEntries.IsContentLine | app/phase1_pdf_processing/utils/pdf_extraction_strategies.py:433-456 | a prose line exactly when over 250 characters, or, once enough entries exist, a prose opener over 150 characters or a lone PROLOGUE |
| IndexEntries.CollapseDoubledTitle | app/phase1_pdf_processing/utils/pdf_extraction_strategies.py:357-360 | "Title Page Title Page" becomes "Title Page": a doubled word list collapses to one copy |
| IndexEntries.CollapseKeepsSingleTitle | app/phase1_pdf_processing/utils/pdf_extraction_strategies.py:357-360 | a title whose halves differ is left as it is |
| IndexEntries.CollapseKeepsTrimmed | app/phase1_pdf_processing/utils/pdf_extraction_strategies.py:355-360 | collapsing a stripped title leaves no outer whitespace |
| IndexEntries.EntryFromMatch | app/phase1_pdf_processing/utils/pdf_extraction_strategies.py:349-371 | the entry number is group 1 exactly when that group is non-empty; the title is group 2 (the whole line when it is empty or absent), stripped and with a doubled word list collapsed, and has no outer whitespace; the page reference exists exactly when group 3 is all digits, and is its value |
| IndexEntries.DoubledTitleGroupCollapses | app/phase1_pdf_processing/utils/pdf_extraction_strategies.py:351-360 | a group 2 holding "Title Page Title Page" gives the title "Title Page" |
| IndexEntries.SaveCurrent | app/phase1_pdf_processing/utils/pdf_extraction_strategies.py:308-314 | the open entry is appended and its key taken exactly when the key is new (and, where the source checks it, over two characters long); otherwise nothing changes; the entry stays open and the scan stays valid |
| IndexEntries.AppendOpenKeepsValid | app/phase1_pdf_processing/utils/pdf_extraction_strategies.py:311-313 | appending the open entry, which stays aliased at the new position, keeps the scan valid |
| IndexEntries.CloseCurrent | app/phase1_pdf_processing/utils/pdf_extraction_strategies.py:314 | `current_entry = None` keeps the entries and the seen keys |
| IndexEntries.ExtendTitle | app/phase1_pdf_processing/utils/pdf_extraction_strategies.py:382-385 | `+= " " + line` lengthens the open entry and, through the shared dictionary, every aliased entry; other entries are unchanged |
| IndexEntries.SaveIfOpen | app/phase1_pdf_processing/utils/pdf_extraction_strategies.py:342-347 | saving before a new match only adds entries and keys and keeps the open entry |
| IndexEntries.TryPattern | app/phase1_pdf_processing/utils/pdf_extraction_strategies.py:340-376 | a non-match changes nothing; a match saves the open entry, then opens the matched entry exactly when its title is 3 to 299 characters and unseen, closes the open entry when the title has another length, and otherwise leaves the saved state |
| IndexEntries.FirstOpening | app/phase1_pdf_processing/utils/pdf_extraction_strategies.py:337-376 | the patterns tried in order up to the first that opens an entry: the scan stays valid, an opened entry is fresh, and when no pattern matches nothing changes |
| IndexEntries.MatchEntryPatterns | app/phase1_pdf_processing/utils/pdf_extraction_strategies.py:337-376 | the pattern loop computes the first-opening function, stopping at the first pattern that opens an entry |
| IndexEntries.FollowLine | app/phase1_pdf_processing/utils/pdf_extraction_strategies.py:379-412 | with an open entry, a line under 150 characters that keeps the title under 300 extends it unless it repeats it, and any other line saves and closes it; with no open entry, an unseen unnumbered heading is appended as an entry of its own, and anything else changes nothing |
| IndexEntries.AppendClosedKeepsValid | app/phase1_pdf_processing/utils/pdf_extraction_strategies.py:406-412 | recording an unnumbered heading while no entry is open keeps the scan valid |
| IndexEntries.ProcessLine | app/phase1_pdf_processing/utils/pdf_extraction_strategies.py:305-412 | one iteration of the line loop computes the line step |
| IndexEntries.LineStep | app/phase1_pdf_processing/utils/pdf_extraction_strategies.py:305-412 | a blank line saves and closes the open entry; before the keyword line only a keyword line changes anything, and only starts collecting; a prose line changes nothing and stops the loop exactly when enough entries exist; a stop happens only there |
| IndexEntries.PageTexts | app/phase1_pdf_processing/utils/pdf_extraction_strategies.py:297 | the texts of the located pages, in order |
| IndexEntries.Scan | app/phase1_pdf_processing/utils/pdf_extraction_strategies.py:305-412 | the line loop up to its stop keeps the scan valid |
| IndexEntries.Finish | app/phase1_pdf_processing/utils/pdf_extraction_strategies.py:414-418 | the final save leaves only titles of 3 to 300 characters |
| IndexEntries.Collected | app/phase1_pdf_processing/utils/pdf_extraction_strategies.py:297-418 | the entries the line loop and the final save collect all have titles of 3 to 300 characters |
| IndexEntries.FirstKeywordLine | app/phase1_pdf_processing/utils/pdf_extraction_strategies.py:318-322 | the position of the first line that turns collecting on: no earlier line does, and that one does unless it is the end |
| IndexEntries.ScanSkipsToKeyword | app/phase1_pdf_processing/utils/pdf_extraction_strategies.py:305-322 | the scan of all lines is the scan of the lines after the first keyword line started in the collecting state, and the start state when there is none |
| IndexEntries.CollectedNeedsKeywordLine | app/phase1_pdf_processing/utils/pdf_extraction_strategies.py:297-418 | without a keyword line nothing is collected |
| IndexEntries.CollectEntries | app/phase1_pdf_processing/utils/pdf_extraction_strategies.py:297-418 | the line loop with its early stop and final save computes the collected entries |
| IndexEntries.FilterEntries | app/phase1_pdf_processing/utils/pdf_extraction_strategies.py:420-431 | the filter loop computes the deduplicated entries |
| IndexEntries.EntriesOf | app/phase1_pdf_processing/utils/pdf_extraction_strategies.py:295-431 | the returned entries have accepted, pairwise distinct keys, and filtering them again changes nothing |
| IndexEntries.NoKeywordLineNoEntries | app/phase1_pdf_processing/utils/pdf_extraction_strategies.py:295-431 | without a keyword line no entries are returned |
| IndexEntries.ExtractEntries | app/phase1_pdf_processing/utils/pdf_extraction_strategies.py:295-431 | the method computes the collected entries, filtered |
| IndexExtraction.PyPrefix | app/phase1_pdf_processing/utils/pdf_extraction_strategies.py:184 | `pages[:n]` is a prefix of length `min(n, len)`, or `len + n` for a negative `n` |
| IndexExtraction.CheckedPages | app/phase1_pdf_processing/utils/pdf_extraction_strategies.py:180-184 | the locators see a prefix of the pages, as long as the page limit allows |
| IndexExtraction.PageNumbers | app/phase1_pdf_processing/utils/pdf_extraction_strategies.py:207 | the page numbers of the located pages, in order |
| IndexExtraction.Locate | app/phase1_pdf_processing/utils/pdf_extraction_strategies.py:183-192 | nothing is located exactly when no tier finds a page; the located pages are clipped pages; the keyword tier decides when it finds a page, and the pattern tier when only it does |
| IndexExtraction.LocateByTier | app/phase1_pdf_processing/utils/pdf_extraction_strategies.py:183-192 | with a keyword page the located pages are its continuation run within the next two pages; otherwise with an enumerated page they are that page, followed by the next page exactly when it continues the index and differs from it; otherwise the one located page is the first of the ten with the index profile |
| IndexExtraction.IndexOf | app/phase1_pdf_processing/utils/pdf_extraction_strategies.py:169-211 | `None` exactly when nothing is located or fewer than `min_index_entries` entries survive; otherwise the record starts at the first located page, which is a given page, lists the located pages, their text and their entries, which have distinct keys |
| IndexExtraction.IndexStartsOnGivenPage | app/phase1_pdf_processing/utils/pdf_extraction_strategies.py:169-211 | a found index starts on the page number of one of the given pages |
| IndexExtraction.Extract | app/phase1_pdf_processing/utils/pdf_extraction_strategies.py:169-211 | the method computes `IndexOf`, the located pages are `Locate` of the clipped pages and the entries are those parsed from them; `None` exactly when nothing is located or too few entries survive, otherwise the record of the located pages with entries of distinct keys |
| TableExtraction.NonEmptyRowsKeepsExactly | app/phase1_pdf_processing/utils/pdf_extraction_strategies.py:492-493 | the kept rows are non-empty, and no non-empty row of the grid is dropped |
| TableExtraction.FirstNonEmptyRow | app/phase1_pdf_processing/utils/pdf_extraction_strategies.py:528-529 | the first kept row is the first non-empty row of the grid |
| TableExtraction.MaxWidth | app/phase1_pdf_processing/utils/pdf_extraction_strategies.py:499 | `max(len(row) ...)` bounds every row and is the width of some row |
| TableExtraction.FilledCountBounds | app/phase1_pdf_processing/utils/pdf_extraction_strategies.py:505-506 | a row has no more filled cells than cells, and a non-empty row has one |
| TableExtraction.FilledCellsBounds | app/phase1_pdf_processing/utils/pdf_extraction_strategies.py:504-509 | non-empty rows have at least one filled cell each and never more filled cells than cells |
| TableExtraction.ValidateTableDecides | app/phase1_pdf_processing/utils/pdf_extraction_strategies.py:486-523 | `_validate_table` raises exactly when no row is non-empty under a non-positive row minimum, and accepts exactly when rows, width, fill share and long-cell count all pass; the `total_cells == 0` test never decides |
| TableExtraction.ValidateTableTotalForTypes | app/phase1_pdf_processing/utils/pdf_extraction_strategies.py:495-499 | under every per-type configuration the validation never raises |
| TableExtraction.CleanRow | app/phase1_pdf_processing/utils/pdf_extraction_strategies.py:539 | cleaning keeps the row's length |
| TableExtraction.CleanRowAt | app/phase1_pdf_processing/utils/pdf_extraction_strategies.py:539 | cleaning works cell by cell |
| TableExtraction.CleanNonEmptyRowIsFilled | app/phase1_pdf_processing/utils/pdf_extraction_strategies.py:539-541 | a non-empty row still has a filled cell after cleaning, so the `not any(cleaned)` skip never fires |
| TableExtraction.Repeat | app/phase1_pdf_processing/utils/pdf_extraction_strategies.py:556 | `[""] * n` has `n` elements |
| TableExtraction.FitRow | app/phase1_pdf_processing/utils/pdf_extraction_strategies.py:555-558 | a padded or cut row has exactly the header's width |
| TableExtraction.FitRowAt | app/phase1_pdf_processing/utils/pdf_extraction_strategies.py:555-558 | a fitted row keeps the row's cells up to the width and is padding after them |
| TableExtraction.FitRows | app/phase1_pdf_processing/utils/pdf_extraction_strategies.py:554-559 | fitting keeps the number of rows |
| TableExtraction.FitRowsAt | app/phase1_pdf_processing/utils/pdf_extraction_strategies.py:554-559 | fitting works row by row |
| TableExtraction.CleanRows | app/phase1_pdf_processing/utils/pdf_extraction_strategies.py:538-546 | cleaning keeps the number of rows |
| TableExtraction.SplitHeader | app/phase1_pdf_processing/utils/pdf_extraction_strategies.py:538-546 | the first row, cleaned, is the header and the rest, cleaned, the data; no rows give neither |
| TableExtraction.PadRows | app/phase1_pdf_processing/utils/pdf_extraction_strategies.py:552-559 | the normalisation loop fits every row to the width |
| TableExtraction.StructuredTableShape | app/phase1_pdf_processing/utils/pdf_extraction_strategies.py:525-584 | a record exactly when there are two non-empty rows; it is well formed, carries the page and grid number, and has one data row per later non-empty row |
| TableExtraction.HeaderIsFirstNonEmptyRow | app/phase1_pdf_processing/utils/pdf_extraction_strategies.py:534-544 | the header is the first row of the grid with a filled cell, cleaned |
| TableExtraction.AcceptedTableIsStructured | app/phase1_pdf_processing/utils/pdf_extraction_strategies.py:476-479 | under a row minimum of at least 2, an accepted grid always yields a record |
| TableExtraction.StructureTable | app/phase1_pdf_processing/utils/pdf_extraction_strategies.py:525-584 | `_structure_table` computes the structured record |
| TableExtraction.TableStepKeeps | app/phase1_pdf_processing/utils/pdf_extraction_strategies.py:471-479 | a kept record is well formed, belongs to the page, carries its grid's number, and that grid passed validation |
| TableExtraction.PageTables | app/phase1_pdf_processing/utils/pdf_extraction_strategies.py:465-484 | a page the library cannot read yields no tables |
| TableExtraction.PageTablesComeFromTheirGrids | app/phase1_pdf_processing/utils/pdf_extraction_strategies.py:465-484 | every record of a page is the structured form of a validated grid at its 1-based position, and the positions increase |
| TableExtraction.ExamineGrid | app/phase1_pdf_processing/utils/pdf_extraction_strategies.py:472-479 | the loop body: skip an empty grid, raise when validation raises, otherwise keep the structured record if there is one |
| TableExtraction.ExtractPageTables | app/phase1_pdf_processing/utils/pdf_extraction_strategies.py:465-484 | `extract` computes the page's records, and none when anything raised |
| TableExtraction.CollectGrids | app/phase1_pdf_processing/utils/pdf_extraction_strategies.py:471-481 | the grid loop computes the collected records, and fails once a validation raised |
| Collecting.CollectUpTo | app/phase1_pdf_processing/processor.py:123-139 | a page loop keeps at most one record per item |
| Collecting.CollectOrigins | app/phase1_pdf_processing/utils/pdf_extraction_strategies.py:471-479 | each collected record comes from the item at its 1-based position, and the positions increase |
| Collecting.CollectNext | app/phase1_pdf_processing/processor.py:124-139 | one more item extends, keeps or fails the collection as its step says |
| Collecting.CollectAdvances | app/phase1_pdf_processing/processor.py:124-139 | one more item advances the collection by its step |
| Collecting.CollectStaysFailed | app/phase1_pdf_processing/utils/pdf_extraction_strategies.py:482-484 | once an item has raised, the whole loop fails |
| Collecting.CollectTotal | app/phase1_pdf_processing/processor.py:124-139 | a loop whose items never raise always succeeds |
| Collecting.CollectComplete | app/phase1_pdf_processing/processor.py:124-139 | every item that yields a record has it collected |
| Processor.PyIndex | app/phase1_pdf_processing/processor.py:76 | `pages[i]` with Python's negative indices: in range when it succeeds, the page itself for a valid index |
| Processor.SampleIndices | app/phase1_pdf_processing/processor.py:65-71 | five sampling positions |
| Processor.SampleIndicesInRange | app/phase1_pdf_processing/processor.py:65-74 | in a non-empty document every sampling position is a page |
| Processor.SampleAt | app/phase1_pdf_processing/processor.py:73-80 | a sample is the non-empty first 1000 characters of some page |
| Processor.SamplesFrom | app/phase1_pdf_processing/processor.py:73-80 | at most one sample per position |
| Processor.SamplesAreFromPages | app/phase1_pdf_processing/processor.py:73-80 | every sample is the non-empty first 1000 characters of some page |
| Processor.SampleTexts | app/phase1_pdf_processing/processor.py:64-80 | the sampling loop computes the samples |
| Processor.NoSamplesFrom | app/phase1_pdf_processing/processor.py:73-80 | positions that all yield nothing give no samples |
| Processor.EmptyDocumentHasNoSamples | app/phase1_pdf_processing/processor.py:65-80 | an empty document yields no samples: its position -1 passes the bound check but the index fails |
| Processor.AutoConfig | app/phase1_pdf_processing/processor.py:82-94 | the chosen configuration is always the table entry of the chosen book type |
| Processor.TextRecordsFaithful | app/phase1_pdf_processing/processor.py:123-139 | records come in increasing page order: a failing page as an empty placeholder, any other as its stripped text with the unstripped length |
| Processor.TextRecordsComplete | app/phase1_pdf_processing/processor.py:123-139 | a page is left out exactly when it reads as empty |
| Processor.CharCountsSumRawLengths | app/phase1_pdf_processing/processor.py:337 | the summed character counts are the unstripped lengths of the readable pages |
| Processor.TextPagesAreVisiblePages | app/phase1_pdf_processing/processor.py:333 | the pages counted as text pages are exactly those whose stripped text is not empty |
| Processor.SummaryCountsDocument | app/phase1_pdf_processing/processor.py:329-338 | both summary counters over the whole document |
| Processor.Candidates | app/phase1_pdf_processing/processor.py:177-179 | `enumerate(pages[skip:], start=skip + 1)` numbers each remaining page correctly |
| Processor.ChoosePosition | app/phase1_pdf_processing/processor.py:179-213 | the two-loop choice lands on an accepted page exactly when one exists |
| Processor.FirstContentPage | app/phase1_pdf_processing/processor.py:147-217 | the first content page lies between the first page after the skipped ones and the last page |
| Processor.FirstContentPageIsSubstantial | app/phase1_pdf_processing/processor.py:179-213 | when some page passes either rule, the chosen page exists and its stripped text is at least the minimum long |
| Processor.ChosenPageAccepted | app/phase1_pdf_processing/processor.py:179-213 | the chosen candidate is the page returned, and one of the rules accepts it |
| Processor.AcceptedPageIsSubstantial | app/phase1_pdf_processing/processor.py:185-190 | an accepted page's stripped text is at least the minimum long |
| Processor.FirstContentPageDefault | app/phase1_pdf_processing/processor.py:217 | when no page passes, the first page after the skipped ones is returned |
| Processor.PrimaryRuleFirst | app/phase1_pdf_processing/processor.py:179-201 | when some candidate passes the main rule, the chosen page is the first candidate that does |
| Processor.FallbackRuleSecond | app/phase1_pdf_processing/processor.py:207-213 | when no candidate passes the main rule, the chosen page is the first candidate the fallback rule accepts |
| Processor.PagesToCheck | app/phase1_pdf_processing/processor.py:245 | the loop of `extract_index` visits no more pages than there are |
| Processor.IndexInputFaithful | app/phase1_pdf_processing/processor.py:243-256 | the index extractor sees, in page order, exactly the checked pages with text, each with its text |
| Processor.TablesOfPageOrdered | app/phase1_pdf_processing/processor.py:284-289 | one page's tables are well formed, carry its number, and follow its grids |
| Processor.AppendPageOrdered | app/phase1_pdf_processing/processor.py:289 | `all_tables.extend(tables)` keeps the order |
| Processor.TablesBetweenOrdered | app/phase1_pdf_processing/processor.py:282-295 | the gathered tables are ordered by page, then by grid, all within the range |
| Processor.SummaryOf | app/phase1_pdf_processing/processor.py:329-338 | the summary counters: the type name, text pages, index found and its entry count (zero without an index), table count, character total |
| Processor.InputPageHasText | app/phase1_pdf_processing/processor.py:245-253 | every page handed to the extractor is a checked page with text |
| Processor.IndexOfInputIsFound | app/phase1_pdf_processing/processor.py:245-259 | an index the extractor returns on the collected pages has enough distinct entries and starts on a checked page with text |
| Processor.RunIndexExtractor | app/phase1_pdf_processing/processor.py:259 | the call returns what `extract` computes on the collected pages, and a found index has enough distinct entries and starts on a checked page with text |
| Processor.TablesOfPageNumber | app/phase1_pdf_processing/processor.py:285-292 | one pass of the table loop: a page the library cannot index is skipped |
| Processor.GatherTables | app/phase1_pdf_processing/processor.py:282-293 | the table loop computes the tables of the page range |
| Processor.SearchPatterns | app/phase1_pdf_processing/processor.py:193-196 | the indicator loop finds a match exactly when some indicator matches |
| Processor.ExaminePrimary | app/phase1_pdf_processing/processor.py:181-201 | one pass of the first loop accepts exactly the pages the main rule accepts |
| Processor.ScanPrimary | app/phase1_pdf_processing/processor.py:179-205 | the first loop stops at the first page the main rule accepts |
| Processor.ScanFallback | app/phase1_pdf_processing/processor.py:208-215 | the fallback loop stops at the first page longer than the minimum |
| Processor.PDFProcessor.constructor | app/phase1_pdf_processing/processor.py:27-44 | nothing is open; the configuration is remembered |
| Processor.PDFProcessor.Enter | app/phase1_pdf_processing/processor.py:46-58 | opens and counts the pages; a given configuration is kept, otherwise the sampled one is chosen |
| Processor.PDFProcessor.AutoConfigure | app/phase1_pdf_processing/processor.py:60-106 | the configuration and book type become those of the samples (Unknown and the defaults without samples), and both extractors share the configuration |
| Processor.PDFProcessor.Exit | app/phase1_pdf_processing/processor.py:108-111 | closes an opened document and changes nothing else |
| Processor.PDFProcessor.ExtractAllText | app/phase1_pdf_processing/processor.py:113-145 | refused while closed; otherwise the records of every page and their texts joined by blank lines |
| Processor.PDFProcessor.IdentifyFirstPage | app/phase1_pdf_processing/processor.py:147-217 | refused while closed; otherwise the first content page |
| Processor.PDFProcessor.ExtractIndex | app/phase1_pdf_processing/processor.py:219-259 | refused while closed; the extractor sees the checked pages with text, and the result is what `extract` computes on them, a found index starting on one of them with enough distinct entries |
| Processor.PDFProcessor.CollectIndexPages | app/phase1_pdf_processing/processor.py:243-256 | the page loop collects the checked pages with text |
| Processor.PDFProcessor.ExtractTables | app/phase1_pdf_processing/processor.py:261-295 | refused while closed; otherwise the tables of the clipped page range, ordered by page and grid |
| Processor.PDFProcessor.ExtractStructuredContent | app/phase1_pdf_processing/processor.py:297-339 | refused while closed; the record holds the page count, the type name, the four extractions (the index as `extract` computes it on the default page limit) and their summary, which counts the pages with visible text, adds up the readable pages' lengths, counts the tables, and reports the index entries, none without an index |
| Chunking.EstimateTokens | app/phase2_ai_services/pdf_summarizer.py:18-20 | `len(text) // 4` (the same in cartesia_client.py:57-59): `4n <= len < 4n + 4` |
| Chunking.AddKeepsPacked | app/phase2_ai_services/pdf_summarizer.py:58-64 | one piece keeps every chunk within the budget or a single piece, and the token count exact |
| Chunking.AddCovers | app/phase2_ai_services/pdf_summarizer.py:58-64 | one piece lands at the end: nothing is dropped or reordered |
| Chunking.PackFacts | app/phase2_ai_services/pdf_summarizer.py:51-64 | packing keeps the invariant, lays the pieces down in order, and leaves a pending chunk |
| Chunking.PackKeepsPacked | app/phase2_ai_services/pdf_summarizer.py:51-64 | packing keeps the invariant and leaves a pending chunk |
| Chunking.PackLaysDown | app/phase2_ai_services/pdf_summarizer.py:51-64 | packing lays the pieces down in order after what was there |
| Chunking.FlushFacts | app/phase2_ai_services/pdf_summarizer.py:44-47 | flushing keeps the invariant and the order and empties the pending chunk |
| Chunking.CloseFacts | app/phase2_ai_services/pdf_summarizer.py:76-77 | the final chunks all have pieces, keep the budget, and hold the pieces in order |
| Chunking.PackShift | app/phase2_ai_services/pdf_summarizer.py:51-64 | packing does not look at the chunks closed before it |
| Chunking.FlushIsShiftedStart | app/phase2_ai_services/pdf_summarizer.py:44-47 | after a flush the loop starts afresh behind the closed chunks |
| SummaryChunks.PairUp | app/phase2_ai_services/pdf_summarizer.py:51-55 | the stride-2 loop makes `ceil(n / 2)` sentences |
| SummaryChunks.PairUpAt | app/phase2_ai_services/pdf_summarizer.py:52-55 | sentence `k` glues parts `2k` and `2k + 1`, or is the last part alone |
| SummaryChunks.PairUpConcat | app/phase2_ai_services/pdf_summarizer.py:51-55 | pairing loses no text |
| SummaryChunks.SentencesRebuildParagraph | app/phase2_ai_services/pdf_summarizer.py:50-55 | a paragraph has at least one sentence, and its sentences glued together are the paragraph |
| SummaryChunks.JoinEach | app/phase2_ai_services/pdf_summarizer.py:45 | one chunk per group |
| SummaryChunks.JoinEachAt | app/phase2_ai_services/pdf_summarizer.py:45 | each chunk is its group joined by blank lines |
| SummaryChunks.JoinEachSnoc | app/phase2_ai_services/pdf_summarizer.py:59 | closing a group appends its joined text |
| SummaryChunks.SummaryChunks | app/phase2_ai_services/pdf_summarizer.py:28-30 | never empty; a text within the budget comes back whole |
| SummaryChunks.ParagraphStepFacts | app/phase2_ai_services/pdf_summarizer.py:39-73 | one paragraph keeps the invariant and lays its pieces down in order |
| SummaryChunks.FlushThenPack | app/phase2_ai_services/pdf_summarizer.py:42-64 | an oversize paragraph flushes and then lays its sentences down in order |
| SummaryChunks.PackParagraphsFacts | app/phase2_ai_services/pdf_summarizer.py:38-73 | the paragraph loop keeps the invariant and lays all pieces down in order |
| SummaryChunks.SummaryChunksShape | app/phase2_ai_services/pdf_summarizer.py:23-79 | over the budget: each chunk is a group joined by blank lines; every group has pieces and keeps the budget unless it is one piece; the groups hold the paragraphs, with oversize ones replaced by their sentences, in order |
| SummaryChunks.OversizeStepIsShifted | app/phase2_ai_services/pdf_summarizer.py:42-47 | an oversize paragraph's step ignores what came before it |
| SummaryChunks.OversizeParagraphStartsChunk | app/phase2_ai_services/pdf_summarizer.py:42-47 | an oversize paragraph never shares a chunk with earlier paragraphs |
| SummaryChunks.SplitTextIntoChunks | app/phase2_ai_services/pdf_summarizer.py:23-79 | the loop computes the chunks |
| SummaryChunks.PackSentences | app/phase2_ai_services/pdf_summarizer.py:51-64 | the sentence loop packs the paired sentences |
| SummaryChunks.AddPiece | app/phase2_ai_services/pdf_summarizer.py:58-73 | one loop step adds the piece, closing the pending chunk first when it would overflow |
| SummaryChunks.PackOneMore | app/phase2_ai_services/pdf_summarizer.py:51-64 | packing one more sentence adds it to what the earlier ones left |
| SpeechChunks.DottedAll | app/phase2_ai_services/cartesia_client.py:77 | `'. '.join(group) + '.'` for every closed group |
| SpeechChunks.SpeechChunks | app/phase2_ai_services/cartesia_client.py:66-67 | never empty; a text within the budget comes back whole |
| SpeechChunks.DottedJoin | app/phase2_ai_services/cartesia_client.py:77-85 | closing with "." and gluing with " " is joining the sentences with ". " |
| SpeechChunks.SpeechChunksRoundTrip | app/phase2_ai_services/cartesia_client.py:61-87 | `" ".join(chunks) == text` for every budget |
| SpeechChunks.SpeechChunksShape | app/phase2_ai_services/cartesia_client.py:69-87 | over the budget: the groups hold every sentence once, in order, each within the budget or a single sentence; every chunk but the last ends with the "." put back |
| SpeechChunks.SplitTextIntoChunks | app/phase2_ai_services/cartesia_client.py:61-87 | the loop computes the chunks |

## Left out

- The regular-expression engine. `Patterns.Regex` stands for `re.search` and `re.match`
  with `re.IGNORECASE`, as two functions the model only calls. The configurable pattern
  lists and the classifier's keyword families are kept as their source text. The fixed
  simple expressions are written out as predicates: the enumerator, the function-word
  opener, `^PROLOGUE$`, and the two split delimiters.
- Characters are ASCII. `lower` and `isupper` cover `A`..`Z` only. Whitespace is the ten
  ASCII characters `str.isspace` accepts, `\x1c`..`\x1f` included. There is no Unicode
  case folding, and non-ASCII whitespace such as `\x85` or `\xa0` is not whitespace here.
- Floats. `min_table_cell_fill` is held in thousandths (300, 350, 400). The ratio tests
  (`fill_ratio`, the long-cell half, the shares of short and long lines on index
  pages, the average line length) are integer cross-multiplications, exact where the floating-point products
  might round.
- PDF reading through pdfplumber. The document is a sequence of pages. Each page gives
  its text or a read failure, and its table grids or a read failure. `extract_text` is
  taken to return the same text every time it is called.
- The file path. The existence check of `__init__`, its `FileNotFoundError`, and the
  `pdf_path` field of the returned content are not modelled.
- The pandas views of a table (`dataframe`, `csv`) and the `raw_table` fallback record.
  The record holds the page, the grid number, the header, the data and the two counts.
- Logging, and the LLM and text-to-speech calls around the chunkers.
- Processor.PDFProcessor.AutoConfigure: the outer `except` that falls back to the
  default configuration is not modelled. No modelled step can raise there: a page that
  fails to read is already caught per page.
- The fallbacks of `extract_index` and `extract_tables` that build an extractor when
  none exists. Once the document is open, both extractors always exist, so these
  fallbacks are unreachable.
- Processor.PDFProcessor.Exit: after `__exit__` the handle stays set and the extraction
  methods stay callable. The model records the closing as `released` and lets them run.
- SpeechChunks.SplitTextIntoChunks: the caller's default `max_tokens` of 2000 is not a
  separate entry point. The budget is always passed.
- `_estimate_tokens` is defined once, as `Chunking.EstimateTokens`. The summarizer and
  the speech client have identical copies.
- TableExtraction.StructureTable: the `if not any(cleaned): continue` skip has no branch
  of its own. `CleanNonEmptyRowIsFilled` proves it never fires on the rows it sees.
- Table cells are `Option<string>`. `None` is a missing cell. A string cell's `str()` is
  itself; other cell types are not modelled.
