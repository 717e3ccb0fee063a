/**
 * `AdaptiveIndexExtractor.extract`: clip the page list, try the three locators in
 * order, parse the entries of the located pages, and build the index record.
 */
module IndexExtraction {
  import opened Wrappers
  import opened Text
  import opened Patterns
  import opened Config
  import opened IndexPages
  import opened IndexEntries

  /** The index record returned by `extract`. */
  datatype IndexResult = IndexResult(
    pageNumber: int,
    pages: seq<int>,
    hasIndexKeyword: bool,
    entries: seq<IndexEntry>,
    rawText: string)

  /** `xs[:n]` with Python's reading of a negative bound (counted from the end). */
  function PyPrefix<T>(xs: seq<T>, n: int): (r: seq<T>)
    ensures |r| <= |xs| && r == xs[..|r|]
    ensures 0 <= n ==> |r| == Min(n, |xs|)
    ensures n < 0 ==> |r| == (if |xs| + n < 0 then 0 else |xs| + n)
  {
    if 0 <= n then xs[..Min(n, |xs|)]
    else if |xs| + n < 0 then []
    else xs[..|xs| + n]
  }

  /** `max_pages or self.config.max_index_pages`: a missing or zero argument falls back to the config. */
  function PageLimit(cfg: ExtractionConfig, maxPages: Option<int>): int {
    if maxPages.Some? && maxPages.value != 0 then maxPages.value else cfg.maxIndexPages
  }

  /** `pages[:min(max_pages, len(pages))]`: the only pages any locator sees. */
  function CheckedPages(cfg: ExtractionConfig, pages: seq<PageText>, maxPages: Option<int>): (r: seq<PageText>)
    ensures |r| <= |pages| && r == pages[..|r|]
    ensures 0 <= PageLimit(cfg, maxPages) ==> |r| == Min(PageLimit(cfg, maxPages), |pages|)
  {
    PyPrefix(pages, Min(PageLimit(cfg, maxPages), |pages|))
  }

  /** The page numbers of a list of pages, in order. */
  function PageNumbers(pages: seq<PageText>): (r: seq<int>)
    ensures |r| == |pages| && forall i | 0 <= i < |pages| :: r[i] == pages[i].pageNumber
  {
    seq(|pages|, i requires 0 <= i < |pages| => pages[i].pageNumber)
  }

  /** None of the three locators finds a page. */
  predicate NoTierFinds(re: Regex, cfg: ExtractionConfig, checked: seq<PageText>) {
    && FirstKeywordPage(re, cfg, checked) == |checked|
    && FirstWhere(checked, IsNumberedPage) == |checked|
    && var window := checked[..Min(10, |checked|)];
       FirstWhere(window, IsStatisticalIndexPage) == |window|
  }

  /**
   * The pages the three locators choose among the clipped pages: the keyword tier's when
   * it finds any, otherwise the pattern tier's when it finds any, otherwise the
   * statistics tier's. Nothing is located exactly when no tier finds a page, and every
   * located page is one of the clipped pages.
   */
  function Locate(re: Regex, cfg: ExtractionConfig, checked: seq<PageText>): (r: seq<PageText>)
    ensures r == [] <==> NoTierFinds(re, cfg, checked)
    ensures forall j | 0 <= j < |r| :: r[j] in checked
    ensures FirstKeywordPage(re, cfg, checked) < |checked| ==> r == KeywordTier(re, cfg, checked)
    ensures FirstKeywordPage(re, cfg, checked) == |checked| && FirstWhere(checked, IsNumberedPage) < |checked| ==>
      r == PatternTier(checked)
  {
    var byKeywords := KeywordTier(re, cfg, checked);
    if byKeywords != [] then byKeywords
    else
      var byPatterns := PatternTier(checked);
      if byPatterns != [] then byPatterns
      else
        var window := checked[..Min(10, |checked|)];
        var k := FirstWhere(window, IsStatisticalIndexPage);
        assert k < |window| ==> window[k] == checked[k];
        StatisticsTier(checked)
  }

  /**
   * What `extract` returns: `None` exactly when no page is located or fewer than
   * `min_index_entries` entries survive the parse of the located pages; otherwise the
   * record starts at the first located page, which is one of the given pages, lists
   * the located pages in order, holds their text and entries with pairwise distinct keys.
   */
  function IndexOf(re: Regex, cfg: ExtractionConfig, pages: seq<PageText>, maxPages: Option<int>): (r: Option<IndexResult>)
    ensures var located := Locate(re, cfg, CheckedPages(cfg, pages, maxPages));
      && (r.None? <==> located == [] || |EntriesOf(re, cfg, located)| < cfg.minIndexEntries)
      && (r.Some? ==>
            && located[0] in pages
            && r.value == IndexResult(located[0].pageNumber, PageNumbers(located), true,
                                      EntriesOf(re, cfg, located), Join("\n", PageTexts(located))))
    ensures r.Some? ==>
      && |r.value.entries| >= cfg.minIndexEntries
      && forall i, j | 0 <= i < j < |r.value.entries| :: EntryKey(r.value.entries[i]) != EntryKey(r.value.entries[j])
  {
    var checked := CheckedPages(cfg, pages, maxPages);
    var located := Locate(re, cfg, checked);
    if located == [] then None
    else
      var entries := EntriesOf(re, cfg, located);
      if |entries| < cfg.minIndexEntries then None
      else
        assert located[0] in checked && checked == pages[..|checked|];
        Some(IndexResult(located[0].pageNumber, PageNumbers(located), true, entries, Join("\n", PageTexts(located))))
  }

  /** A found index starts on one of the given pages. */
  lemma {:induction false} IndexStartsOnGivenPage(re: Regex, cfg: ExtractionConfig, pages: seq<PageText>, maxPages: Option<int>)
    returns (first: PageText)
    requires IndexOf(re, cfg, pages, maxPages).Some?
    ensures first in pages && first.pageNumber == IndexOf(re, cfg, pages, maxPages).value.pageNumber
  {
    first := Locate(re, cfg, CheckedPages(cfg, pages, maxPages))[0];
  }

  /**
   * What each tier contributes to the located pages: the keyword page and its
   * continuation run when there is a keyword page; otherwise the first enumerated page
   * and at most the next page when it continues the index; otherwise the first page of
   * the ten with the index profile.
   */
  lemma {:induction false} LocateByTier(re: Regex, cfg: ExtractionConfig, checked: seq<PageText>)
    ensures var located := Locate(re, cfg, checked);
      var k := FirstKeywordPage(re, cfg, checked);
      k < |checked| ==> IsContinuationRun(checked, k, Min(k + 3, |checked|), IsContinuationPage, located)
    ensures var located := Locate(re, cfg, checked);
      var k := FirstWhere(checked, IsNumberedPage);
      FirstKeywordPage(re, cfg, checked) == |checked| && k < |checked| ==>
        && 1 <= |located| <= 2 && located[0] == checked[k]
        && (|located| == 2 <==>
              k + 1 < |checked| && IsContinuationPage(checked[k + 1]) && checked[k + 1] != checked[k])
        && (|located| == 2 ==> located[1] == checked[k + 1])
    ensures var located := Locate(re, cfg, checked);
      var window := checked[..Min(10, |checked|)];
      (FirstKeywordPage(re, cfg, checked) == |checked| && FirstWhere(checked, IsNumberedPage) == |checked|
       && located != []) ==> located == [window[FirstWhere(window, IsStatisticalIndexPage)]]
  {
    var k := FirstKeywordPage(re, cfg, checked);
    if k < |checked| {
      assert Locate(re, cfg, checked) == KeywordTier(re, cfg, checked);
      ContinuationRunIsRun(checked, k, Min(k + 3, |checked|), IsContinuationPage);
    } else if FirstWhere(checked, IsNumberedPage) < |checked| {
      assert Locate(re, cfg, checked) == PatternTier(checked);
      PatternTierShape(checked);
    } else {
      assert Locate(re, cfg, checked) == StatisticsTier(checked);
    }
  }

  /**
   * `extract`. `located` and `entries` are the pages the locators chose and the parsed
   * entries. The locators run in order on the clipped pages, each only when the ones
   * before it found nothing; the result is `None` exactly when no page is located or
   * fewer than `min_index_entries` entries survive; otherwise it starts at the first
   * located page and lists the located pages in order.
   */
  method Extract(re: Regex, cfg: ExtractionConfig, pages: seq<PageText>, maxPages: Option<int>)
    returns (r: Option<IndexResult>, ghost located: seq<PageText>, ghost entries: seq<IndexEntry>)
    ensures r == IndexOf(re, cfg, pages, maxPages)
    ensures located == Locate(re, cfg, CheckedPages(cfg, pages, maxPages))
    ensures entries == if located == [] then [] else EntriesOf(re, cfg, located)
    ensures r.None? <==> located == [] || |entries| < cfg.minIndexEntries
    ensures r.Some? ==>
      && r.value == IndexResult(located[0].pageNumber, PageNumbers(located), true, entries,
                                Join("\n", PageTexts(located)))
      && |entries| >= cfg.minIndexEntries
      && forall i, j | 0 <= i < j < |entries| :: EntryKey(entries[i]) != EntryKey(entries[j])
  {
    var checked := CheckedPages(cfg, pages, maxPages);
    var found := FindIndexPagesByKeywords(re, cfg, checked);
    if found == [] {
      found := FindIndexPagesByPatterns(checked);
    }
    if found == [] {
      found := FindIndexPagesByStatistics(checked);
    }
    located := found;
    entries := [];
    if found == [] {
      return None, located, entries;
    }
    var parsed := ExtractEntries(re, cfg, found);
    entries := parsed;
    if |parsed| < cfg.minIndexEntries {
      return None, located, entries;
    }
    r := Some(IndexResult(found[0].pageNumber, PageNumbers(found), true, parsed, Join("\n", PageTexts(found))));
  }
}
