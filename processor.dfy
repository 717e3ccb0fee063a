/**
 * `PDFProcessor`: opens a document, picks a configuration from a few sampled pages
 * when none is given, and runs the page loops that gather the text, locate the first
 * content page, feed the index extractor and collect the tables.
 */
module Processor {
  import opened Wrappers
  import opened Text
  import opened Patterns
  import opened Config
  import opened BookStructure
  import opened IndexPages
  import opened IndexEntries
  import opened IndexExtraction
  import opened TableExtraction
  import opened Collecting

  /** `page.extract_text()`: the page's text (a `None` reads as ""), or a failure of the PDF library. */
  datatype TextRead = Read(text: string) | ReadFails

  /** One page of the document, as the PDF library presents it. */
  datatype Page = Page(text: TextRead, tables: TablesRead)

  /** The `RuntimeError` every extraction method raises while no document is open. */
  datatype NotOpened = NotOpened

  function Max(a: int, b: int): int {
    if a < b then b else a
  }

  /** `pages[i]` with Python's reading of a negative index; `None` is the `IndexError`. */
  function PyIndex(n: nat, i: int): (r: Option<nat>)
    ensures r.Some? ==> r.value < n
    ensures 0 <= i < n ==> r == Some(i)
  {
    if 0 <= i < n then Some(i) else if i < 0 && 0 <= n + i then Some((n + i) as nat) else None
  }

  /** Text that Python treats as true: present and not empty. */
  predicate HasText(page: Page) {
    page.text.Read? && page.text.text != []
  }

  // ---------------------------------------------------------------- sampling

  /** The positions `_auto_configure` samples: first, early, mid-early, middle and near the end. */
  function SampleIndices(n: nat): (r: seq<int>)
    ensures |r| == 5
  {
    [0, Min(5, n - 1), Min(10, n - 1), n / 2, Max(0, n - 5)]
  }

  /** Every sampled position is a page of a non-empty document. */
  lemma {:induction false} SampleIndicesInRange(n: nat)
    requires n >= 1
    ensures forall i | 0 <= i < 5 :: 0 <= SampleIndices(n)[i] < n
  {
  }

  /** `s` is the first 1000 characters of the non-empty text of some page. */
  predicate IsPageSample(doc: seq<Page>, s: string) {
    exists j | 0 <= j < |doc| :: HasText(doc[j]) && s == Prefix(doc[j].text.text, 1000)
  }

  /**
   * What sampling position `idx` yields: nothing past the last page, nothing when the
   * page cannot be read (an index error included) or has no text, and otherwise the
   * first 1000 characters of its text.
   */
  function SampleAt(doc: seq<Page>, idx: int): (r: Option<string>)
    ensures r.Some? ==> 0 < |r.value| <= 1000 && IsPageSample(doc, r.value)
  {
    if idx >= |doc| then None
    else match PyIndex(|doc|, idx)
      case None => None
      case Some(j) => if HasText(doc[j]) then Some(Prefix(doc[j].text.text, 1000)) else None
  }

  /** The samples the positions `idxs` yield, in order. */
  function SamplesFrom(doc: seq<Page>, idxs: seq<int>): (r: seq<string>)
    ensures |r| <= |idxs|
  {
    if idxs == [] then []
    else
      var s := SampleAt(doc, idxs[|idxs| - 1]);
      SamplesFrom(doc, idxs[..|idxs| - 1]) + (if s.Some? then [s.value] else [])
  }

  /** Every sample is the non-empty first 1000 characters (at most) of some page's text. */
  lemma {:induction false} SamplesAreFromPages(doc: seq<Page>, idxs: seq<int>, i: nat)
    requires i < |SamplesFrom(doc, idxs)|
    ensures 0 < |SamplesFrom(doc, idxs)[i]| <= 1000 && IsPageSample(doc, SamplesFrom(doc, idxs)[i])
  {
    var before := SamplesFrom(doc, idxs[..|idxs| - 1]);
    if i < |before| {
      SamplesAreFromPages(doc, idxs[..|idxs| - 1], i);
    }
  }

  /** The texts `_auto_configure` hands to the book-type classifier. */
  function Samples(doc: seq<Page>): seq<string> {
    SamplesFrom(doc, SampleIndices(|doc|))
  }

  /** The sampling loop of `_auto_configure`: the texts the five positions yield, in order. */
  method SampleTexts(doc: seq<Page>) returns (samples: seq<string>)
    ensures samples == Samples(doc)
  {
    var n := |doc|;
    var indices := SampleIndices(n);
    samples := [];
    for k := 0 to 5
      invariant samples == SamplesFrom(doc, indices[..k])
    {
      var idx := indices[k];
      assert indices[..k + 1][..k] == indices[..k];
      if idx < n {
        var j := PyIndex(n, idx);
        if j.Some? && HasText(doc[j.value]) {
          samples := samples + [Prefix(doc[j.value].text.text, 1000)];
        }
      }
    }
    assert indices[..5] == indices;
  }

  /** Positions that all yield nothing give no samples. */
  lemma {:induction false} NoSamplesFrom(doc: seq<Page>, idxs: seq<int>)
    requires forall k | 0 <= k < |idxs| :: SampleAt(doc, idxs[k]).None?
    ensures SamplesFrom(doc, idxs) == []
  {
    if idxs != [] {
      NoSamplesFrom(doc, idxs[..|idxs| - 1]);
    }
  }

  /** An empty document yields no samples: its position -1 passes the bound check but has no page. */
  lemma {:induction false} EmptyDocumentHasNoSamples(doc: seq<Page>)
    requires doc == []
    ensures Samples(doc) == []
  {
    assert SampleIndices(0) == [0, -1, -1, 0, 0];
    NoSamplesFrom(doc, SampleIndices(0));
  }

  /** The book type `_auto_configure` settles on: the classifier's, or Unknown without samples. */
  function AutoBookType(re: Regex, doc: seq<Page>): BookType {
    var samples := Samples(doc);
    if samples == [] then Unknown else AnalyzeBookType(re, samples, |doc|)
  }

  /** The configuration `_auto_configure` settles on: always the table entry of the chosen book type. */
  function AutoConfig(re: Regex, doc: seq<Page>): (c: ExtractionConfig)
    ensures c == ConfigForType(AutoBookType(re, doc))
  {
    var samples := Samples(doc);
    if samples == [] then DefaultConfig() else ConfigForType(AnalyzeBookType(re, samples, |doc|))
  }

  // ---------------------------------------------------------------- all text

  /** One entry of `pages_text`. */
  datatype PageRecord = PageRecord(pageNumber: int, text: string, charCount: int)

  /** The record `extract_all_text` returns. */
  datatype TextExtraction = TextExtraction(totalPages: int, pages: seq<PageRecord>, fullText: string)

  /**
   * One pass of the loop of `extract_all_text`: a failing page becomes an empty
   * placeholder, a page without text is left out, and a page with text becomes its
   * stripped text with the length of the text as read.
   */
  function TextStep(page: Page, pageNumber: nat): Step<PageRecord> {
    match page.text
    case ReadFails => Keep(PageRecord(pageNumber, "", 0))
    case Read(t) => if t == [] then Skip else Keep(PageRecord(pageNumber, Strip(t), |t|))
  }

  /** `pages_text` after the first `n` pages. */
  function TextRecordsUpTo(doc: seq<Page>, n: nat): seq<PageRecord>
    requires n <= |doc|
  {
    var r := CollectUpTo(doc, TextStep, n);
    if r.Some? then r.value else []
  }

  function TextOf(r: PageRecord): string {
    r.text
  }

  function CharCount(r: PageRecord): int {
    r.charCount
  }

  /** What `extract_all_text` returns for the document. */
  function AllText(doc: seq<Page>): TextExtraction {
    var records := TextRecordsUpTo(doc, |doc|);
    TextExtraction(|doc|, records, Join("\n\n", KeysBy(records, TextOf)))
  }

  /** `r` is what `extract_all_text` records for page number `p`. */
  predicate RecordsPage(doc: seq<Page>, p: int, r: PageRecord) {
    && 1 <= p <= |doc| && r.pageNumber == p
    && match doc[p - 1].text
       case ReadFails => r.text == "" && r.charCount == 0
       case Read(t) => t != [] && r.text == Strip(t) && r.charCount == |t|
  }

  /**
   * The records of `extract_all_text` come in increasing page order, a failing page as an
   * empty placeholder and any other as its stripped text with the unstripped length.
   */
  lemma {:induction false} TextRecordsFaithful(doc: seq<Page>)
    ensures var r := AllText(doc).pages;
      && (forall i | 0 <= i < |r| :: RecordsPage(doc, r[i].pageNumber, r[i]))
      && (forall i, j | 0 <= i < j < |r| :: r[i].pageNumber < r[j].pageNumber)
  {
    CollectTotal(doc, TextStep, |doc|);
    var r := AllText(doc).pages;
    var origin := CollectOrigins(doc, TextStep, |doc|);
    forall i | 0 <= i < |r|
      ensures r[i].pageNumber == origin[i] && RecordsPage(doc, r[i].pageNumber, r[i])
    {
    }
  }

  /** Exactly the pages that failed or have text are recorded: only pages read as empty are left out. */
  lemma {:induction false} TextRecordsComplete(doc: seq<Page>)
    ensures var r := AllText(doc).pages;
      forall q | 0 <= q < |doc| :: !HasText(doc[q]) && !doc[q].text.ReadFails? <==>
        forall i | 0 <= i < |r| :: r[i].pageNumber != q + 1
  {
    TextRecordsFaithful(doc);
    CollectTotal(doc, TextStep, |doc|);
    var r := AllText(doc).pages;
    forall q | 0 <= q < |doc|
      ensures !HasText(doc[q]) && !doc[q].text.ReadFails? <==> forall i | 0 <= i < |r| :: r[i].pageNumber != q + 1
    {
      if HasText(doc[q]) || doc[q].text.ReadFails? {
        var i := CollectComplete(doc, TextStep, |doc|, q);
        assert r[i].pageNumber == q + 1;
      } else {
        forall i | 0 <= i < |r| ensures r[i].pageNumber != q + 1 {
          assert RecordsPage(doc, r[i].pageNumber, r[i]);
        }
      }
    }
  }

  /** The characters `extract_all_text` reports: the unstripped length of every readable page. */
  function RawLength(page: Page): int {
    if page.text.Read? then |page.text.text| else 0
  }

  /** A page whose stripped text is not empty. */
  predicate HasVisibleText(page: Page) {
    page.text.Read? && Strip(page.text.text) != []
  }

  predicate IsTextPage(r: PageRecord) {
    r.text != []
  }

  /** Summing the recorded counts adds up the unstripped length of every readable page. */
  lemma {:induction false} CharCountsSumRawLengths(doc: seq<Page>, n: nat)
    requires n <= |doc|
    ensures SumOf(TextRecordsUpTo(doc, n), CharCount) == SumOf(doc[..n], RawLength)
  {
    if n > 0 {
      CharCountsSumRawLengths(doc, n - 1);
      CollectTotal(doc, TextStep, n);
      CollectTotal(doc, TextStep, n - 1);
      var before := TextRecordsUpTo(doc, n - 1);
      var now := TextRecordsUpTo(doc, n);
      var page := doc[n - 1];
      assert doc[..n][..n - 1] == doc[..n - 1];
      assert SumOf(doc[..n], RawLength) == SumOf(doc[..n - 1], RawLength) + RawLength(page);
      if page.text.Read? && page.text.text == [] {
        assert now == before;
      } else {
        var rec := TextStep(page, n).record;
        assert now == before + [rec];
        assert now[..|now| - 1] == before;
        assert SumOf(now, CharCount) == SumOf(before, CharCount) + rec.charCount;
      }
    }
  }

  /** The pages counted as text pages are exactly the pages whose stripped text is not empty. */
  lemma {:induction false} TextPagesAreVisiblePages(doc: seq<Page>, n: nat)
    requires n <= |doc|
    ensures CountWhere(TextRecordsUpTo(doc, n), IsTextPage) == CountWhere(doc[..n], HasVisibleText)
  {
    if n > 0 {
      TextPagesAreVisiblePages(doc, n - 1);
      CollectTotal(doc, TextStep, n);
      CollectTotal(doc, TextStep, n - 1);
      var before := TextRecordsUpTo(doc, n - 1);
      var now := TextRecordsUpTo(doc, n);
      var page := doc[n - 1];
      assert doc[..n][..n - 1] == doc[..n - 1];
      assert CountWhere(doc[..n], HasVisibleText)
          == CountWhere(doc[..n - 1], HasVisibleText) + (if HasVisibleText(page) then 1 else 0);
      if page.text.Read? && page.text.text == [] {
        assert now == before;
      } else {
        var rec := TextStep(page, n).record;
        assert now == before + [rec];
        assert now[..|now| - 1] == before;
        assert IsTextPage(rec) == HasVisibleText(page);
      }
    }
  }

  /**
   * Over the whole document: the recorded counts add up the unstripped length of every
   * readable page, and the pages with recorded text are those with visible text.
   */
  lemma {:induction false} SummaryCountsDocument(doc: seq<Page>)
    ensures SumOf(AllText(doc).pages, CharCount) == SumOf(doc, RawLength)
    ensures CountWhere(AllText(doc).pages, IsTextPage) == CountWhere(doc, HasVisibleText)
  {
    assert doc[..|doc|] == doc;
    CharCountsSumRawLengths(doc, |doc|);
    TextPagesAreVisiblePages(doc, |doc|);
  }

  // ---------------------------------------------------------------- first content page

  /** The indicators, minimum length and skipped pages `identify_first_page` works with. */
  datatype FirstPageSettings = FirstPageSettings(indicators: seq<string>, minLength: int, skip: nat)

  /** The indicators `identify_first_page` falls back on without a configuration. */
  const FallbackIndicators: seq<string> := [
    @"\bintroduction\b",
    @"\bchapter\s+[1i]",
    @"\bpreface\b",
    @"\bforeword\b",
    @"\bprologue\b",
    @"\bpart\s+[1i]"
  ]

  function SettingsFor(config: Option<ExtractionConfig>): FirstPageSettings {
    if config.Some? then
      FirstPageSettings(config.value.contentIndicators, config.value.minContentLength, config.value.skipInitialPages)
    else FirstPageSettings(FallbackIndicators, 200, 0)
  }

  /** A page with the number the enumeration gives it. */
  datatype NumberedPage = NumberedPage(number: int, page: Page)

  /** `enumerate(self.pdf.pages[skip:], start=skip + 1)` */
  function Candidates(doc: seq<Page>, skip: nat): (r: seq<NumberedPage>)
    ensures |r| == (if skip <= |doc| then |doc| - skip else 0)
    ensures forall i | 0 <= i < |r| :: r[i] == NumberedPage(skip + 1 + i, doc[skip + i])
  {
    if skip <= |doc| then seq(|doc| - skip, i requires 0 <= i < |doc| - skip => NumberedPage(skip + 1 + i, doc[skip + i]))
    else []
  }

  /**
   * The main rule of `identify_first_page`: the lower-cased, stripped text is at least
   * the minimum long, and either an indicator occurs in it, or the page lies more than
   * two pages past the skipped ones and the text is over one and a half times the minimum.
   */
  predicate IsPrimaryContentPage(re: Regex, st: FirstPageSettings, c: NumberedPage) {
    && HasText(c.page)
    && var t := Key(c.page.text.text);
    && |t| >= st.minLength
    && (SearchAny(re, st.indicators, t) || (c.number > st.skip + 2 && 2 * |t| > 3 * st.minLength))
  }

  /** The fallback rule: the stripped text is longer than the minimum. */
  predicate IsFallbackContentPage(st: FirstPageSettings, c: NumberedPage) {
    HasText(c.page) && |Strip(c.page.text.text)| > st.minLength
  }

  function PrimaryTest(re: Regex, st: FirstPageSettings): NumberedPage -> bool {
    c => IsPrimaryContentPage(re, st, c)
  }

  function FallbackTest(st: FirstPageSettings): NumberedPage -> bool {
    c => IsFallbackContentPage(st, c)
  }

  /**
   * The position two rules choose among `xs`: the first the main rule `p` accepts, else
   * the first the fallback rule `q` accepts; `|xs|` when neither accepts any.
   */
  function ChoosePosition<T>(xs: seq<T>, p: T -> bool, q: T -> bool): (k: nat)
    ensures k <= |xs|
    ensures k < |xs| ==> p(xs[k]) || q(xs[k])
    ensures (exists i | 0 <= i < |xs| :: p(xs[i]) || q(xs[i])) <==> k < |xs|
  {
    var k := FirstWhere(xs, p);
    if k < |xs| then k else FirstWhere(xs, q)
  }

  /**
   * The page `identify_first_page` settles on: the first candidate the main rule accepts,
   * else the first the fallback rule accepts, else the first page after the skipped ones.
   */
  function FirstContentPage(re: Regex, st: FirstPageSettings, doc: seq<Page>): (r: int)
    ensures st.skip + 1 <= r <= Max(|doc|, st.skip + 1)
  {
    var cands := Candidates(doc, st.skip);
    var k := ChoosePosition(cands, PrimaryTest(re, st), FallbackTest(st));
    if k < |cands| then cands[k].number else st.skip + 1
  }

  /** Page number `p` exists and its stripped text is at least `minLength` long. */
  predicate IsSubstantialPage(doc: seq<Page>, p: int, minLength: int) {
    1 <= p <= |doc| && HasText(doc[p - 1]) && |Strip(doc[p - 1].text.text)| >= minLength
  }

  /**
   * When some page after the skipped ones passes either rule, the chosen page exists and
   * its stripped text is at least the minimum long.
   */
  lemma {:induction false} FirstContentPageIsSubstantial(re: Regex, st: FirstPageSettings, doc: seq<Page>, i: nat)
    requires i < |Candidates(doc, st.skip)|
    requires IsPrimaryContentPage(re, st, Candidates(doc, st.skip)[i]) || IsFallbackContentPage(st, Candidates(doc, st.skip)[i])
    ensures IsSubstantialPage(doc, FirstContentPage(re, st, doc), st.minLength)
  {
    var cands := Candidates(doc, st.skip);
    var primary := PrimaryTest(re, st);
    var fallback := FallbackTest(st);
    ChoiceFound(cands, primary, fallback, i);
    var k := ChoosePosition(cands, primary, fallback);
    ChosenPageAccepted(re, st, doc, k);
    AcceptedPageIsSubstantial(re, st, doc, k, FirstContentPage(re, st, doc));
  }

  /** A rule that accepts some item makes the choice land on an item some rule accepts. */
  lemma {:induction false} ChoiceFound<T>(xs: seq<T>, p: T -> bool, q: T -> bool, i: nat)
    requires i < |xs| && (p(xs[i]) || q(xs[i]))
    ensures ChoosePosition(xs, p, q) < |xs|
  {
  }

  /** The chosen candidate is the page `FirstContentPage` names, and one of the rules accepts it. */
  lemma {:induction false} ChosenPageAccepted(re: Regex, st: FirstPageSettings, doc: seq<Page>, k: nat)
    requires k == ChoosePosition(Candidates(doc, st.skip), PrimaryTest(re, st), FallbackTest(st))
    requires k < |Candidates(doc, st.skip)|
    ensures FirstContentPage(re, st, doc) == st.skip + 1 + k
    ensures IsAccepted(re, st, Candidates(doc, st.skip)[k])
  {
    var c := Candidates(doc, st.skip)[k];
    assert PrimaryTest(re, st)(c) || FallbackTest(st)(c);
  }

  predicate IsAccepted(re: Regex, st: FirstPageSettings, c: NumberedPage) {
    IsPrimaryContentPage(re, st, c) || IsFallbackContentPage(st, c)
  }

  /**
   * Page number `p`, that of a candidate one of the rules accepts, is substantial: the
   * main rule measures the lower-cased stripped text, which is as long as the stripped text.
   */
  lemma {:induction false} AcceptedPageIsSubstantial(re: Regex, st: FirstPageSettings, doc: seq<Page>, k: nat, p: int)
    requires k < |Candidates(doc, st.skip)| && IsAccepted(re, st, Candidates(doc, st.skip)[k])
    requires p == st.skip + 1 + k
    ensures IsSubstantialPage(doc, p, st.minLength)
  {
    var c := Candidates(doc, st.skip)[k];
    assert c.page == doc[p - 1];
    if IsPrimaryContentPage(re, st, c) {
      KeyLength(c.page.text.text);
    }
  }

  /**
   * The main rule has priority: when some candidate passes it, the chosen page is the
   * first candidate that does, even when the fallback rule accepts an earlier one.
   */
  lemma {:induction false} PrimaryRuleFirst(re: Regex, st: FirstPageSettings, doc: seq<Page>, i: nat)
    requires i < |Candidates(doc, st.skip)| && IsPrimaryContentPage(re, st, Candidates(doc, st.skip)[i])
    requires forall j | 0 <= j < i :: !IsPrimaryContentPage(re, st, Candidates(doc, st.skip)[j])
    ensures FirstContentPage(re, st, doc) == st.skip + 1 + i
  {
    var cands := Candidates(doc, st.skip);
    var primary := PrimaryTest(re, st);
    assert forall j | 0 <= j < i :: !primary(cands[j]);
    FirstWhereAt(cands, primary, i);
  }

  /**
   * Only when no candidate passes the main rule does the fallback rule decide: the
   * chosen page is then the first candidate the fallback rule accepts.
   */
  lemma {:induction false} FallbackRuleSecond(re: Regex, st: FirstPageSettings, doc: seq<Page>, i: nat)
    requires forall j | 0 <= j < |Candidates(doc, st.skip)| :: !IsPrimaryContentPage(re, st, Candidates(doc, st.skip)[j])
    requires i < |Candidates(doc, st.skip)| && IsFallbackContentPage(st, Candidates(doc, st.skip)[i])
    requires forall j | 0 <= j < i :: !IsFallbackContentPage(st, Candidates(doc, st.skip)[j])
    ensures FirstContentPage(re, st, doc) == st.skip + 1 + i
  {
    var cands := Candidates(doc, st.skip);
    var primary := PrimaryTest(re, st);
    var fallback := FallbackTest(st);
    assert forall j | 0 <= j < |cands| :: !primary(cands[j]);
    FirstWhereNone(cands, primary);
    assert forall j | 0 <= j < i :: !fallback(cands[j]);
    FirstWhereAt(cands, fallback, i);
  }

  /** When no page after the skipped ones passes either rule, the first page after them is chosen. */
  lemma {:induction false} FirstContentPageDefault(re: Regex, st: FirstPageSettings, doc: seq<Page>)
    requires forall c | c in Candidates(doc, st.skip) :: !IsPrimaryContentPage(re, st, c) && !IsFallbackContentPage(st, c)
    ensures FirstContentPage(re, st, doc) == st.skip + 1
  {
    var cands := Candidates(doc, st.skip);
    var primary := PrimaryTest(re, st);
    var fallback := FallbackTest(st);
    forall i | 0 <= i < |cands| ensures !primary(cands[i]) && !fallback(cands[i]) {
      assert cands[i] in cands;
    }
    assert ChoosePosition(cands, primary, fallback) == |cands|;
  }

  // ---------------------------------------------------------------- index input

  /** One pass of the loop of `extract_index`: a page with text is handed on, any other skipped. */
  function IndexStep(page: Page, pageNumber: nat): Step<PageText> {
    if HasText(page) then Keep(PageText(pageNumber, page.text.text)) else Skip
  }

  /** How many pages `range(1, min(limit + 1, n + 1))` visits. */
  function PagesToCheck(limit: int, n: nat): (k: nat)
    ensures k <= n
  {
    if limit <= 0 then 0 else Min(limit, n)
  }

  /** The pages `extract_index` hands to the index extractor. */
  function IndexInput(doc: seq<Page>, limit: int): seq<PageText> {
    var r := CollectUpTo(doc, IndexStep, PagesToCheck(limit, |doc|));
    if r.Some? then r.value else []
  }

  /**
   * The index extractor sees, in increasing page order, exactly the pages numbered 1 to
   * `min(limit, n)` that have text, each with its text as read.
   */
  lemma {:induction false} IndexInputFaithful(doc: seq<Page>, limit: int)
    ensures var input := IndexInput(doc, limit);
      && (forall i | 0 <= i < |input| ::
            && 1 <= input[i].pageNumber <= PagesToCheck(limit, |doc|)
            && HasText(doc[input[i].pageNumber - 1])
            && input[i].text == doc[input[i].pageNumber - 1].text.text)
      && (forall i, j | 0 <= i < j < |input| :: input[i].pageNumber < input[j].pageNumber)
      && (forall q | 0 <= q < PagesToCheck(limit, |doc|) && HasText(doc[q]) ::
            exists i | 0 <= i < |input| :: input[i].pageNumber == q + 1)
  {
    var n := PagesToCheck(limit, |doc|);
    CollectTotal(doc, IndexStep, n);
    var input := IndexInput(doc, limit);
    var origin := CollectOrigins(doc, IndexStep, n);
    forall i | 0 <= i < |input|
      ensures input[i].pageNumber == origin[i]
    {
    }
    forall q | 0 <= q < n && HasText(doc[q])
      ensures exists i | 0 <= i < |input| :: input[i].pageNumber == q + 1
    {
      var i := CollectComplete(doc, IndexStep, n, q);
      assert input[i].pageNumber == q + 1;
    }
  }

  // ---------------------------------------------------------------- tables

  /** The tables of page number `pageNumber`; a page the library cannot index contributes none. */
  function TablesOfPage(cfg: ExtractionConfig, doc: seq<Page>, pageNumber: int): seq<TableRecord> {
    match PyIndex(|doc|, pageNumber - 1)
    case None => []
    case Some(j) => PageTables(cfg, doc[j].tables, pageNumber)
  }

  /** The tables of the pages numbered `start` up to, not including, `stop`, page after page. */
  function TablesBetween(cfg: ExtractionConfig, doc: seq<Page>, start: int, stop: int): seq<TableRecord>
    decreases stop - start
  {
    if stop <= start then [] else TablesBetween(cfg, doc, start, stop - 1) + TablesOfPage(cfg, doc, stop - 1)
  }

  /** `start_page` of `extract_tables` */
  function FirstTablePage(pageRange: Option<(int, int)>): int {
    if pageRange.Some? then pageRange.value.0 else 1
  }

  /** The end of `range(start_page, min(end_page + 1, total_pages + 1))` */
  function TableStop(pageRange: Option<(int, int)>, n: nat): int {
    var end := if pageRange.Some? then pageRange.value.1 else n;
    Min(end + 1, n + 1)
  }

  /** Tables of page `pageNumber`: well formed, carrying that number, in the order of its grids. */
  predicate PageOrdered(r: seq<TableRecord>, pageNumber: int) {
    && (forall i | 0 <= i < |r| :: WellFormed(r[i]) && r[i].pageNumber == pageNumber)
    && (forall i, j | 0 <= i < j < |r| :: r[i].tableIndex < r[j].tableIndex)
  }

  /** The tables of one page are well formed, carry its number, and come in the order of its grids. */
  lemma {:induction false} TablesOfPageOrdered(cfg: ExtractionConfig, doc: seq<Page>, pageNumber: int)
    ensures PageOrdered(TablesOfPage(cfg, doc, pageNumber), pageNumber)
  {
    var j := PyIndex(|doc|, pageNumber - 1);
    if j.Some? && doc[j.value].tables.Grids? {
      PageTablesComeFromTheirGrids(cfg, doc[j.value].tables.grids, pageNumber);
    }
  }

  /**
   * Tables that are well formed, carry page numbers in `[start, stop)` in non-decreasing
   * order, and within one page come in the order of its grids.
   */
  predicate OrderedTables(r: seq<TableRecord>, start: int, stop: int) {
    && (forall i | 0 <= i < |r| :: WellFormed(r[i]) && start <= r[i].pageNumber < stop)
    && (forall i, j | 0 <= i < j < |r| ::
          r[i].pageNumber < r[j].pageNumber || (r[i].pageNumber == r[j].pageNumber && r[i].tableIndex < r[j].tableIndex))
  }

  /** Appending the tables of page `stop - 1` keeps the order. */
  lemma {:induction false} AppendPageOrdered(before: seq<TableRecord>, page: seq<TableRecord>, start: int, stop: int)
    requires start < stop
    requires OrderedTables(before, start, stop - 1)
    requires PageOrdered(page, stop - 1)
    ensures OrderedTables(before + page, start, stop)
  {
    var r := before + page;
    forall i | 0 <= i < |r|
      ensures WellFormed(r[i]) && start <= r[i].pageNumber < stop
    {
      if i < |before| {
        assert r[i] == before[i];
      } else {
        assert r[i] == page[i - |before|];
      }
    }
    forall i, k | 0 <= i < k < |r|
      ensures r[i].pageNumber < r[k].pageNumber || (r[i].pageNumber == r[k].pageNumber && r[i].tableIndex < r[k].tableIndex)
    {
      if k < |before| {
        assert r[i] == before[i] && r[k] == before[k];
      } else if i >= |before| {
        assert r[i] == page[i - |before|] && r[k] == page[k - |before|];
      } else {
        assert r[i] == before[i] && r[k] == page[k - |before|];
      }
    }
  }

  /** The tables `extract_tables` gathers are ordered by page, then by grid. */
  lemma {:induction false} TablesBetweenOrdered(cfg: ExtractionConfig, doc: seq<Page>, start: int, stop: int)
    ensures OrderedTables(TablesBetween(cfg, doc, start, stop), start, stop)
    decreases stop - start
  {
    if start < stop {
      TablesBetweenOrdered(cfg, doc, start, stop - 1);
      TablesOfPageOrdered(cfg, doc, stop - 1);
      AppendPageOrdered(TablesBetween(cfg, doc, start, stop - 1), TablesOfPage(cfg, doc, stop - 1), start, stop);
    }
  }

  // ---------------------------------------------------------------- summary

  /** The `summary` block of `extract_structured_content`. */
  datatype Summary = Summary(
    totalPages: int,
    bookType: string,
    firstContentPage: int,
    totalTextPages: nat,
    indexFound: bool,
    indexEntriesCount: nat,
    tablesCount: nat,
    totalCharacters: int)

  /**
   * The counters: pages with non-empty recorded text, whether an index was found, how many
   * entries it has (none without an index), how many tables, and the summed character counts.
   */
  function SummaryOf(totalPages: int, bookType: Option<BookType>, firstPage: int, text: TextExtraction,
                     index: Option<IndexResult>, tables: seq<TableRecord>): (s: Summary)
    ensures s.indexFound <==> index.Some?
    ensures index.None? ==> s.indexEntriesCount == 0
    ensures index.Some? ==> s.indexEntriesCount == |index.value.entries|
    ensures s.tablesCount == |tables|
    ensures s.totalTextPages <= |text.pages|
  {
    Summary(
      totalPages,
      BookTypeName(bookType),
      firstPage,
      CountWhere(text.pages, IsTextPage),
      index.Some?,
      if index.Some? then |index.value.entries| else 0,
      |tables|,
      SumOf(text.pages, CharCount))
  }

  // ---------------------------------------------------------------- the processor object

  /** What `extract_structured_content` returns, its path left out. */
  datatype StructuredContent = StructuredContent(
    totalPages: int,
    bookType: string,
    firstContentPage: int,
    textExtraction: TextExtraction,
    index: Option<IndexResult>,
    tables: seq<TableRecord>,
    summary: Summary)

  /**
   * An index `extract_index` may return: at least the configured number of entries, no
   * two with the same key, starting on a page with text among those checked.
   */
  predicate IsFoundIndex(cfg: ExtractionConfig, doc: seq<Page>, limit: int, index: IndexResult) {
    && |index.entries| >= cfg.minIndexEntries
    && (forall i, j | 0 <= i < j < |index.entries| :: EntryKey(index.entries[i]) != EntryKey(index.entries[j]))
    && 1 <= index.pageNumber <= PagesToCheck(limit, |doc|)
    && HasText(doc[index.pageNumber - 1])
  }

  /** Every page handed to the index extractor is a checked page with text. */
  lemma {:induction false} InputPageHasText(doc: seq<Page>, limit: int, page: PageText)
    requires page in IndexInput(doc, limit)
    ensures 1 <= page.pageNumber <= PagesToCheck(limit, |doc|) && HasText(doc[page.pageNumber - 1])
  {
    IndexInputFaithful(doc, limit);
  }

  /**
   * What the extractor returns on the pages `extract_index` collected is an index it
   * may return: the page it starts on is one of the checked pages with text.
   */
  lemma {:induction false} IndexOfInputIsFound(re: Regex, cfg: ExtractionConfig, doc: seq<Page>, limit: int)
    requires IndexOf(re, cfg, IndexInput(doc, limit), Some(limit)).Some?
    ensures IsFoundIndex(cfg, doc, limit, IndexOf(re, cfg, IndexInput(doc, limit), Some(limit)).value)
  {
    var first := IndexStartsOnGivenPage(re, cfg, IndexInput(doc, limit), Some(limit));
    InputPageHasText(doc, limit, first);
  }

  /** `self.index_extractor.extract(pages_data, max_pages)` on the pages `extract_index` collected. */
  method RunIndexExtractor(re: Regex, cfg: ExtractionConfig, doc: seq<Page>, pagesData: seq<PageText>, maxPages: int)
    returns (result: Option<IndexResult>)
    requires pagesData == IndexInput(doc, maxPages)
    ensures result == IndexOf(re, cfg, pagesData, Some(maxPages))
    ensures result.Some? ==> IsFoundIndex(cfg, doc, maxPages, result.value)
  {
    ghost var located, entries;
    result, located, entries := Extract(re, cfg, pagesData, Some(maxPages));
    if result.Some? {
      IndexOfInputIsFound(re, cfg, doc, maxPages);
    }
  }

  /** One pass of the loop of `extract_tables`: a page the library cannot index is skipped. */
  method TablesOfPageNumber(cfg: ExtractionConfig, doc: seq<Page>, pageNum: int) returns (tables: seq<TableRecord>)
    ensures tables == TablesOfPage(cfg, doc, pageNum)
  {
    var j := PyIndex(|doc|, pageNum - 1);
    if j.Some? {
      tables := ExtractPageTables(cfg, doc[j.value].tables, pageNum);
    } else {
      tables := [];
    }
  }

  /** The loop of `extract_tables` over the pages numbered `start` up to, not including, `stop`. */
  method GatherTables(cfg: ExtractionConfig, doc: seq<Page>, start: int, stop: int) returns (allTables: seq<TableRecord>)
    ensures allTables == TablesBetween(cfg, doc, start, stop)
  {
    allTables := [];
    var pageNum := start;
    while pageNum < stop
      invariant start <= pageNum && (pageNum <= stop || pageNum == start)
      invariant allTables == TablesBetween(cfg, doc, start, pageNum)
      decreases stop - pageNum
    {
      var tables := TablesOfPageNumber(cfg, doc, pageNum);
      allTables := allTables + tables;
      pageNum := pageNum + 1;
    }
  }

  /** The name of the book type in the summary, "unknown" before one is chosen. */
  function BookTypeName(bookType: Option<BookType>): string {
    if bookType.Some? then bookType.value.Value() else "unknown"
  }

  /** The inner loop of `identify_first_page`: does some indicator occur in the text? */
  method SearchPatterns(re: Regex, patterns: seq<string>, text: string) returns (found: bool)
    ensures found == SearchAny(re, patterns, text)
  {
    for i := 0 to |patterns|
      invariant forall m | 0 <= m < i :: !re.search(patterns[m], text)
    {
      if re.search(patterns[i], text) {
        return true;
      }
    }
    return false;
  }

  /** One pass of the first loop of `identify_first_page`: does the main rule accept this page? */
  method ExaminePrimary(re: Regex, st: FirstPageSettings, c: NumberedPage) returns (accept: bool)
    ensures accept == IsPrimaryContentPage(re, st, c)
  {
    if !HasText(c.page) {
      return false;
    }
    var textLower := Key(c.page.text.text);
    var textLength := |textLower|;
    if textLength < st.minLength {
      return false;
    }
    var matched := SearchPatterns(re, st.indicators, textLower);
    if matched {
      return true;
    }
    return c.number > st.skip + 2 && 2 * textLength > 3 * st.minLength;
  }

  /** The first loop of `identify_first_page`: the position of the first page the main rule accepts. */
  method ScanPrimary(re: Regex, st: FirstPageSettings, cands: seq<NumberedPage>) returns (k: nat)
    ensures k == FirstWhere(cands, PrimaryTest(re, st))
  {
    var primary := PrimaryTest(re, st);
    for i := 0 to |cands|
      invariant forall m | 0 <= m < i :: !primary(cands[m])
    {
      var accept := ExaminePrimary(re, st, cands[i]);
      if accept {
        FirstWhereAt(cands, primary, i);
        return i;
      }
    }
    FirstWhereNone(cands, primary);
    return |cands|;
  }

  /** The fallback loop of `identify_first_page`: the position of the first page the fallback rule accepts. */
  method ScanFallback(st: FirstPageSettings, cands: seq<NumberedPage>) returns (f: nat)
    ensures f == FirstWhere(cands, FallbackTest(st))
  {
    var fallback := FallbackTest(st);
    for i := 0 to |cands|
      invariant forall m | 0 <= m < i :: !fallback(cands[m])
    {
      var page := cands[i].page;
      if page.text.Read? && page.text.text != [] && |Strip(page.text.text)| > st.minLength {
        FirstWhereAt(cands, fallback, i);
        return i;
      }
    }
    FirstWhereNone(cands, fallback);
    return |cands|;
  }

  /**
   * A `PDFProcessor` over one document. `document` stands for the pages the PDF library
   * presents once the file is open; `re` is the regular-expression engine. The index and
   * table extractors are represented by the configuration they were built with.
   */
  class PDFProcessor {
    const document: seq<Page>
    const re: Regex
    /** `self.pdf` is set */
    var isOpen: bool
    /** the handle was closed by `__exit__`, which leaves `self.pdf` set */
    var released: bool
    var totalPages: nat
    var config: Option<ExtractionConfig>
    var bookType: Option<BookType>
    /** the configuration `index_extractor` and `table_extractor` were built with */
    var extractorConfig: Option<ExtractionConfig>

    /**
     * Once open, the page count is the document's and both extractors share the
     * configuration; before that, nothing has been read or configured.
     */
    predicate Valid()
      reads this
    {
      && (isOpen ==> totalPages == |document| && config.Some? && extractorConfig == config)
      && (!isOpen ==> totalPages == 0 && extractorConfig.None? && bookType.None? && !released)
    }

    /** `__init__`: remembers the configuration; nothing is open yet. */
    constructor (document: seq<Page>, re: Regex, config: Option<ExtractionConfig>)
      ensures Valid() && !isOpen
      ensures this.document == document && this.re == re && this.config == config
    {
      this.document := document;
      this.re := re;
      isOpen := false;
      released := false;
      totalPages := 0;
      this.config := config;
      bookType := None;
      extractorConfig := None;
    }

    /**
     * `__enter__`: opens the document, counts its pages, and either builds the extractors
     * from the given configuration or chooses one from sampled pages.
     */
    method Enter()
      requires Valid()
      modifies this
      ensures Valid() && isOpen && !released
      ensures old(config).Some? ==> config == old(config) && bookType == old(bookType)
      ensures old(config).None? ==>
        config == Some(AutoConfig(re, document)) && bookType == Some(AutoBookType(re, document))
    {
      isOpen := true;
      released := false;
      totalPages := |document|;
      if config.None? {
        AutoConfigure();
      } else {
        extractorConfig := config;
      }
    }

    /**
     * `_auto_configure`: samples up to five pages, classifies the book from them (Unknown
     * without samples), and takes that type's configuration for itself and both extractors.
     */
    method AutoConfigure()
      requires totalPages == |document|
      modifies this
      ensures config == Some(AutoConfig(re, document)) && bookType == Some(AutoBookType(re, document))
      ensures extractorConfig == config
      ensures isOpen == old(isOpen) && released == old(released) && totalPages == old(totalPages)
    {
      var samples := SampleTexts(document);
      if samples != [] {
        var t := AnalyzeBookType(re, samples, totalPages);
        bookType := Some(t);
        config := Some(ConfigForType(t));
      } else {
        config := Some(DefaultConfig());
        bookType := Some(Unknown);
      }
      extractorConfig := config;
    }

    /** `__exit__`: closes an opened document; the handle stays set. */
    method Exit()
      requires Valid()
      modifies this
      ensures Valid()
      ensures released == (old(released) || old(isOpen))
      ensures isOpen == old(isOpen) && totalPages == old(totalPages) && config == old(config)
      ensures bookType == old(bookType) && extractorConfig == old(extractorConfig)
    {
      if isOpen {
        released := true;
      }
    }

    /**
     * `extract_all_text`: the per-page records, in page order, and their stripped texts
     * joined by blank lines; refused while no document is open.
     */
    method ExtractAllText() returns (r: Result<TextExtraction, NotOpened>)
      requires Valid()
      ensures isOpen <==> r.Ok?
      ensures isOpen ==> r == Ok(AllText(document))
    {
      if !isOpen {
        return Err(NotOpened);
      }
      var pagesText: seq<PageRecord> := [];
      for i := 0 to |document|
        invariant CollectUpTo(document, TextStep, i) == Some(pagesText)
      {
        CollectNext(document, TextStep, i, pagesText);
        var pageNumber := i + 1;
        match document[i].text
        case ReadFails =>
          pagesText := pagesText + [PageRecord(pageNumber, "", 0)];
        case Read(text) =>
          if text != [] {
            pagesText := pagesText + [PageRecord(pageNumber, Strip(text), |text|)];
          }
      }
      return Ok(TextExtraction(totalPages, pagesText, Join("\n\n", KeysBy(pagesText, TextOf))));
    }

    /**
     * `identify_first_page`: the first page after the skipped ones the main rule accepts,
     * else the first the fallback rule accepts, else the first page after the skipped ones.
     */
    method IdentifyFirstPage() returns (r: Result<int, NotOpened>)
      requires Valid()
      ensures isOpen <==> r.Ok?
      ensures isOpen ==> r == Ok(FirstContentPage(re, SettingsFor(config), document))
    {
      if !isOpen {
        return Err(NotOpened);
      }
      var st := SettingsFor(config);
      var cands := Candidates(document, st.skip);
      var k := ScanPrimary(re, st, cands);
      if k < |cands| {
        return Ok(cands[k].number);
      }
      var f := ScanFallback(st, cands);
      assert ChoosePosition(cands, PrimaryTest(re, st), FallbackTest(st)) == f;
      if f < |cands| {
        return Ok(cands[f].number);
      }
      return Ok(st.skip + 1);
    }

    /**
     * `extract_index`: hands the pages numbered 1 to the page limit that have text to the
     * index extractor. `input` is that list.
     */
    method ExtractIndex(maxPagesToCheck: Option<int>) returns (r: Result<Option<IndexResult>, NotOpened>, ghost input: seq<PageText>)
      requires Valid()
      ensures isOpen <==> r.Ok?
      ensures isOpen ==> input == IndexInput(document, PageLimit(config.value, maxPagesToCheck))
      ensures isOpen ==>
        var limit := PageLimit(config.value, maxPagesToCheck);
        r == Ok(IndexOf(re, config.value, IndexInput(document, limit), Some(limit)))
      ensures r.Ok? && r.value.Some? ==>
        IsFoundIndex(config.value, document, PageLimit(config.value, maxPagesToCheck), r.value.value)
    {
      if !isOpen {
        return Err(NotOpened), [];
      }
      var cfg := extractorConfig.value;
      var maxPages := PageLimit(cfg, maxPagesToCheck);
      var pagesData := CollectIndexPages(maxPages);
      input := pagesData;
      var result := RunIndexExtractor(re, cfg, document, pagesData, maxPages);
      return Ok(result), input;
    }

    /** The page loop of `extract_index`: pages numbered 1 up to the limit that have text. */
    method CollectIndexPages(maxPages: int) returns (pagesData: seq<PageText>)
      requires Valid() && isOpen
      ensures pagesData == IndexInput(document, maxPages)
    {
      var stop := Min(maxPages + 1, totalPages + 1);
      pagesData := [];
      var pageNum := 1;
      while pageNum < stop
        invariant 1 <= pageNum && (pageNum <= stop || pageNum == 1)
        invariant CollectUpTo(document, IndexStep, pageNum - 1) == Some(pagesData)
      {
        var page := document[pageNum - 1];
        CollectNext(document, IndexStep, pageNum - 1, pagesData);
        if page.text.Read? && page.text.text != [] {
          pagesData := pagesData + [PageText(pageNum, page.text.text)];
        }
        pageNum := pageNum + 1;
      }
      assert pageNum - 1 == PagesToCheck(maxPages, |document|);
    }

    /**
     * `extract_tables`: the tables of the pages from the range's start (1 without a range)
     * to its end (the last page without one), clipped to the document, page after page.
     */
    method ExtractTables(pageRange: Option<(int, int)>) returns (r: Result<seq<TableRecord>, NotOpened>)
      requires Valid()
      ensures isOpen <==> r.Ok?
      ensures isOpen ==>
        r == Ok(TablesBetween(config.value, document, FirstTablePage(pageRange), TableStop(pageRange, |document|)))
      ensures r.Ok? ==> OrderedTables(r.value, FirstTablePage(pageRange), TableStop(pageRange, |document|))
    {
      if !isOpen {
        return Err(NotOpened);
      }
      var cfg := extractorConfig.value;
      var start := FirstTablePage(pageRange);
      var stop := TableStop(pageRange, totalPages);
      var allTables := GatherTables(cfg, document, start, stop);
      TablesBetweenOrdered(cfg, document, start, stop);
      return Ok(allTables);
    }

    /**
     * `extract_structured_content`: runs the four extractions and summarises them. The
     * summary counts the pages whose stripped text is not empty and adds up the length of
     * the text of every readable page.
     */
    method ExtractStructuredContent() returns (r: Result<StructuredContent, NotOpened>)
      requires Valid()
      ensures isOpen <==> r.Ok?
      ensures r.Ok? ==>
        var c := r.value;
        && c.textExtraction == AllText(document)
        && c.firstContentPage == FirstContentPage(re, SettingsFor(config), document)
        && c.tables == TablesBetween(config.value, document, 1, |document| + 1)
        && c.summary.totalPages == |document|
        && c.summary.totalTextPages == CountWhere(document, HasVisibleText)
        && c.summary.totalCharacters == SumOf(document, RawLength)
        && c.summary.tablesCount == |c.tables|
        && (c.summary.indexFound <==> c.index.Some?)
        && (c.index.Some? ==> c.summary.indexEntriesCount == |c.index.value.entries| >= config.value.minIndexEntries)
        && (c.index.None? ==> c.summary.indexEntriesCount == 0)
        && c.totalPages == |document|
        && c.bookType == BookTypeName(bookType)
        && c.summary == SummaryOf(|document|, bookType, c.firstContentPage, c.textExtraction, c.index, c.tables)
        && var limit := PageLimit(config.value, None);
           c.index == IndexOf(re, config.value, IndexInput(document, limit), Some(limit))
    {
      if !isOpen {
        return Err(NotOpened);
      }
      var textData := ExtractAllText();
      var firstPage := IdentifyFirstPage();
      ghost var input;
      var indexData;
      indexData, input := ExtractIndex(None);
      var tablesData := ExtractTables(None);
      var text := textData.value;
      var summary := SummaryOf(totalPages, bookType, firstPage.value, text, indexData.value, tablesData.value);
      SummaryCountsDocument(document);
      var name := BookTypeName(bookType);
      return Ok(StructuredContent(totalPages, name, firstPage.value, text, indexData.value, tablesData.value, summary));
    }
  }
}
