/**
 * The three locators of `AdaptiveIndexExtractor` that decide which pages hold the
 * table of contents: by keyword, by enumerated lines, and by line-length statistics,
 * together with the continuation test that lets a located index run on to the next pages.
 */
module IndexPages {
  import opened Text
  import opened Splitting
  import opened Patterns
  import opened Config

  /** A page handed to the extractor: `{"page_number": ..., "text": ...}`. */
  datatype PageText = PageText(pageNumber: int, text: string)

  function Min(a: int, b: int): int {
    if a < b then a else b
  }

  /** `[l.strip() for l in lines if l.strip()]` */
  function StrippedNonBlank(lines: seq<string>): (r: seq<string>)
    ensures |r| <= |lines|
    ensures forall k | 0 <= k < |r| :: r[k] != []
  {
    if lines == [] then []
    else
      var rest := StrippedNonBlank(lines[..|lines| - 1]);
      var l := Strip(lines[|lines| - 1]);
      if l == [] then rest else rest + [l]
  }

  /** The stripped non-blank lines of a page. */
  function NonBlankLines(text: string): seq<string> {
    StrippedNonBlank(Lines(text))
  }

  /** The words that mark a line as running prose in the continuation test. */
  const StopWords: seq<string> := ["this", "the", "we", "it", "in", "on", "at"]

  /** `any(l.lower().startswith(ind + ' ') for ind in content_indicators)` */
  predicate OpensWithStopWord(line: string) {
    exists i | 0 <= i < |StopWords| :: StartsWith(Lower(line), StopWords[i] + " ")
  }

  predicate IsShortEntryLine(l: string) {
    5 < |l| < 100
  }

  predicate IsNumberedLine(l: string) {
    HasEnumerator(l, false)
  }

  /**
   * `_looks_like_index_continuation`: at least three non-blank lines, enough of them
   * numbered (two) or short (more than 60 %), and fewer than two prose openers. Each
   * of the two "enough" rules suffices on its own, and one of them is needed.
   */
  function LooksLikeIndexContinuation(text: string): (r: bool)
    ensures r ==> |NonBlankLines(text)| >= 3
    ensures r ==> CountWhere(NonBlankLines(text), OpensWithStopWord) < 2
    ensures r ==> CountWhere(NonBlankLines(text), IsNumberedLine) >= 2
                  || 10 * CountWhere(NonBlankLines(text), IsShortEntryLine) > 6 * |NonBlankLines(text)|
    ensures (|NonBlankLines(text)| >= 3 && CountWhere(NonBlankLines(text), OpensWithStopWord) < 2
             && CountWhere(NonBlankLines(text), IsNumberedLine) >= 2) ==> r
    ensures (|NonBlankLines(text)| >= 3 && CountWhere(NonBlankLines(text), OpensWithStopWord) < 2
             && 10 * CountWhere(NonBlankLines(text), IsShortEntryLine) > 6 * |NonBlankLines(text)|) ==> r
  {
    var lines := NonBlankLines(text);
    if |lines| < 3 then false
    else
      var numbered := CountWhere(lines, IsNumberedLine);
      var short := CountWhere(lines, IsShortEntryLine);
      var prose := CountWhere(lines, OpensWithStopWord);
      (numbered >= 2 || 10 * short > 6 * |lines|) && prose < 2
  }

  // ---------------------------------------------------------------- keyword tier

  predicate IsKeywordPage(re: Regex, cfg: ExtractionConfig, p: PageText) {
    SearchAny(re, cfg.indexKeywords, Lower(p.text))
  }

  /** The keyword test as a value, for `FirstWhere`. */
  function KeywordTest(re: Regex, cfg: ExtractionConfig): PageText -> bool {
    p => IsKeywordPage(re, cfg, p)
  }

  /** The position of the first page with an index keyword (`|pages|` when none has one). */
  function FirstKeywordPage(re: Regex, cfg: ExtractionConfig, pages: seq<PageText>): nat {
    FirstWhere(pages, KeywordTest(re, cfg))
  }

  /** A page whose text looks like the index running on. */
  predicate IsContinuationPage(p: PageText) {
    LooksLikeIndexContinuation(p.text)
  }

  /**
   * What the continuation scan returns when it starts at the located page `k` and may
   * look at the pages before `limit`: the located page first, then only later pages
   * before `limit` that continue the index; nothing more once the next page does not
   * continue it; and, when no page repeats, exactly the consecutive run of pages from
   * `k` that ends at the first page that does not continue the index.
   */
  predicate IsContinuationRun<T(==)>(xs: seq<T>, k: nat, limit: nat, continues: T -> bool, found: seq<T>)
    requires k < limit <= |xs|
  {
    && 1 <= |found| <= limit - k
    && found[0] == xs[k]
    && (forall j | 1 <= j < |found| :: found[j] in xs[k + 1..limit] && continues(found[j]))
    && (k + 1 < limit && !continues(xs[k + 1]) ==> |found| == 1)
    && (Distinct(xs) ==>
          && found == xs[k..k + |found|]
          && (k + |found| < limit ==> !continues(xs[k + |found|])))
  }

  /**
   * The scan from position `m` with `found` taken so far: while the pages before `limit`
   * continue the index, each one not yet taken is appended. What it returns extends
   * `found` by at most one page per page visited.
   */
  function RunFrom<T(==)>(xs: seq<T>, m: nat, limit: nat, continues: T -> bool, found: seq<T>): (r: seq<T>)
    requires m <= limit <= |xs|
    ensures found <= r && |r| <= |found| + (limit - m)
    decreases limit - m
  {
    if m == limit then found
    else if continues(xs[m]) then
      RunFrom(xs, m + 1, limit, continues, if xs[m] in found then found else found + [xs[m]])
    else found
  }

  /** What the scan appends to `found` are pages before `limit`, from `m` on, that continue the index. */
  lemma {:induction false} RunFromTakesContinuing<T>(xs: seq<T>, m: nat, limit: nat, continues: T -> bool, found: seq<T>)
    requires m <= limit <= |xs|
    ensures forall j | |found| <= j < |RunFrom(xs, m, limit, continues, found)| ::
      RunFrom(xs, m, limit, continues, found)[j] in xs[m..limit] && continues(RunFrom(xs, m, limit, continues, found)[j])
    decreases limit - m
  {
    if m < limit && continues(xs[m]) {
      var next := if xs[m] in found then found else found + [xs[m]];
      RunFromTakesContinuing(xs, m + 1, limit, continues, next);
      var r := RunFrom(xs, m + 1, limit, continues, next);
      assert RunFrom(xs, m, limit, continues, found) == r;
      forall j | |found| <= j < |r| ensures r[j] in xs[m..limit] && continues(r[j]) {
        if j >= |next| {
          assert r[j] in xs[m + 1..limit];
          assert xs[m + 1..limit] == xs[m..limit][1..];
        } else {
          assert r[j] == next[j] == xs[m];
          assert xs[m..limit][0] == xs[m];
        }
      }
    }
  }

  /** The continuation scan from the located page `k`: that page, then the run that follows it. */
  function ContinuationRun<T(==)>(xs: seq<T>, k: nat, limit: nat, continues: T -> bool): (r: seq<T>)
    requires k < limit <= |xs|
    ensures 1 <= |r| <= limit - k && r[0] == xs[k]
    ensures forall j | 1 <= j < |r| :: r[j] in xs[k + 1..limit] && continues(r[j])
  {
    RunFromTakesContinuing(xs, k + 1, limit, continues, [xs[k]]);
    RunFrom(xs, k + 1, limit, continues, [xs[k]])
  }

  /**
   * The continuation scan of the keyword tier: starting from the located page at `k`,
   * take the pages before `limit` in order while each continues the index, skipping
   * one already taken.
   */
  method TakeContinuation<T(==)>(xs: seq<T>, k: nat, limit: nat, continues: T -> bool)
    returns (found: seq<T>)
    requires k < limit <= |xs|
    ensures found == ContinuationRun(xs, k, limit, continues)
    ensures IsContinuationRun(xs, k, limit, continues, found)
  {
    found := [xs[k]];
    for m := k + 1 to limit
      invariant ContinuationRun(xs, k, limit, continues) == RunFrom(xs, m, limit, continues, found)
    {
      if continues(xs[m]) {
        if xs[m] !in found {
          found := found + [xs[m]];
        }
      } else {
        break;
      }
    }
    ContinuationRunIsRun(xs, k, limit, continues);
  }

  /** The continuation scan returns a continuation run. */
  lemma {:induction false} ContinuationRunIsRun<T>(xs: seq<T>, k: nat, limit: nat, continues: T -> bool)
    requires k < limit <= |xs|
    ensures IsContinuationRun(xs, k, limit, continues, ContinuationRun(xs, k, limit, continues))
  {
    var r := ContinuationRun(xs, k, limit, continues);
    if k + 1 < limit && !continues(xs[k + 1]) {
      assert r == RunFrom(xs, k + 1, limit, continues, [xs[k]]) == [xs[k]];
    }
    if Distinct(xs) {
      ContinuationRunConsecutive(xs, k, limit, continues);
    }
  }

  /**
   * When no two pages from `k` to `limit` are equal, the continuation scan
   * takes consecutive pages up to the first that does not continue the index.
   */
  lemma {:induction false} ContinuationRunConsecutive<T>(xs: seq<T>, k: nat, limit: nat, continues: T -> bool)
    requires k < limit <= |xs|
    requires forall i, j | k <= i < j < limit :: xs[i] != xs[j]
    ensures ContinuationRun(xs, k, limit, continues) == xs[k..k + |ContinuationRun(xs, k, limit, continues)|]
    ensures k + |ContinuationRun(xs, k, limit, continues)| < limit ==>
      !continues(xs[k + |ContinuationRun(xs, k, limit, continues)|])
  {
    var r := ContinuationRun(xs, k, limit, continues);
    assert [xs[k]] == xs[k..k + 1];
    assert r == RunFrom(xs, k + 1, limit, continues, xs[k..k + 1]);
    forall j | k + 1 <= j < limit ensures NewAfter(xs, k, j) {
      NotAmongEarlier(xs, k, j);
    }
    RunFromDistinct(xs, k, k + 1, limit, continues);
    var e := RunEnd(xs, k + 1, limit, continues);
    assert r == xs[k..e];
    assert k + |r| == e;
  }

  /** The continuation scan takes only pages of the list. */
  lemma {:induction false} RunAmongPages<T>(xs: seq<T>, k: nat, limit: nat, continues: T -> bool)
    requires k < limit <= |xs|
    ensures forall j | 0 <= j < |ContinuationRun(xs, k, limit, continues)| :: ContinuationRun(xs, k, limit, continues)[j] in xs
  {
    var r := ContinuationRun(xs, k, limit, continues);
    assert xs == xs[..k + 1] + xs[k + 1..limit] + xs[limit..];
    forall j | 0 <= j < |r| ensures r[j] in xs {
      if j > 0 {
        assert r[j] in xs[k + 1..limit];
      }
    }
  }

  /** Where a run of pages continuing the index from `m` ends: the first page that does not continue it, or `limit`. */
  function RunEnd<T>(xs: seq<T>, m: nat, limit: nat, continues: T -> bool): (e: nat)
    requires m <= limit <= |xs|
    ensures m <= e <= limit
    ensures e < limit ==> !continues(xs[e])
    decreases limit - m
  {
    if m < limit && continues(xs[m]) then RunEnd(xs, m + 1, limit, continues) else m
  }

  /**
   * Over pages no two of which are equal from `k` on, a scan that has taken
   * the consecutive pages from `k` to `m` goes on taking consecutive pages and stops at
   * the first that does not continue the index.
   */
  lemma {:induction false} RunFromDistinct<T>(xs: seq<T>, k: nat, m: nat, limit: nat, continues: T -> bool)
    requires k < m <= limit <= |xs|
    requires forall j | m <= j < limit :: NewAfter(xs, k, j)
    ensures RunFrom(xs, m, limit, continues, xs[k..m]) == xs[k..RunEnd(xs, m, limit, continues)]
    decreases limit - m
  {
    if m < limit && continues(xs[m]) {
      assert NewAfter(xs, k, m);
      assert xs[k..m] + [xs[m]] == xs[k..m + 1];
      RunFromDistinct(xs, k, m + 1, limit, continues);
    }
  }

  /** The element at `j` is not among the ones from `k` before it. */
  predicate NewAfter<T(==)>(xs: seq<T>, k: nat, j: nat)
    requires k <= j < |xs|
  {
    xs[j] !in xs[k..j]
  }

  /** An element different from each of the ones before it from `k` is not among them. */
  lemma {:induction false} NotAmongEarlier<T>(xs: seq<T>, k: nat, m: nat)
    requires k <= m < |xs|
    requires forall i | k <= i < m :: xs[i] != xs[m]
    ensures NewAfter(xs, k, m)
  {
    forall i | 0 <= i < m - k ensures xs[k..m][i] != xs[m] {
      assert xs[k..m][i] == xs[k + i];
    }
  }

  /**
   * What the keyword tier locates: nothing without a keyword page, otherwise the first
   * keyword page and the continuation run among the two pages after it.
   */
  function KeywordTier(re: Regex, cfg: ExtractionConfig, pages: seq<PageText>): (r: seq<PageText>)
    ensures r == [] <==> FirstKeywordPage(re, cfg, pages) == |pages|
    ensures r != [] ==> r[0] == pages[FirstKeywordPage(re, cfg, pages)] && IsKeywordPage(re, cfg, r[0])
    ensures forall j | 0 <= j < |r| :: r[j] in pages
  {
    var k := FirstKeywordPage(re, cfg, pages);
    if k == |pages| then []
    else
      var r := ContinuationRun(pages, k, Min(k + 3, |pages|), IsContinuationPage);
      RunAmongPages(pages, k, Min(k + 3, |pages|), IsContinuationPage);
      r
  }

  /**
   * `_find_index_pages_by_keywords`: the first keyword page, then up to two following
   * pages while they look like a continuation. (`pages.index(page)` is the loop
   * position: the first page equal to the first keyword page is that page itself.)
   */
  method FindIndexPagesByKeywords(re: Regex, cfg: ExtractionConfig, pages: seq<PageText>)
    returns (found: seq<PageText>)
    ensures found == KeywordTier(re, cfg, pages)
    ensures found == [] <==> FirstKeywordPage(re, cfg, pages) == |pages|
    ensures var k := FirstKeywordPage(re, cfg, pages);
      found != [] ==> IsContinuationRun(pages, k, Min(k + 3, |pages|), IsContinuationPage, found)
  {
    var isKeywordPage := KeywordTest(re, cfg);
    found := [];
    for k := 0 to |pages|
      invariant found == []
      invariant forall i | 0 <= i < k :: !isKeywordPage(pages[i])
    {
      if isKeywordPage(pages[k]) {
        found := TakeContinuation(pages, k, Min(k + 3, |pages|), IsContinuationPage);
        FirstWhereAt(pages, isKeywordPage, k);
        return;
      }
    }
    FirstWhereNone(pages, isKeywordPage);
  }

  // ---------------------------------------------------------------- pattern tier

  predicate IsEnumeratedLine(l: string) {
    HasEnumerator(l, true)
  }

  /** A page with at least three lines that carry an enumerator. */
  predicate IsNumberedPage(p: PageText) {
    CountWhere(Lines(p.text), IsEnumeratedLine) >= 3
  }

  /** The scan of `_find_index_pages_by_patterns` for the first enumerated page. */
  method FirstNumberedPage(pages: seq<PageText>) returns (k: nat)
    ensures k == FirstWhere(pages, IsNumberedPage)
  {
    var isNumberedPage := IsNumberedPage;
    for i := 0 to |pages|
      invariant forall m | 0 <= m < i :: !isNumberedPage(pages[m])
    {
      if isNumberedPage(pages[i]) {
        FirstWhereAt(pages, isNumberedPage, i);
        return i;
      }
    }
    FirstWhereNone(pages, isNumberedPage);
    return |pages|;
  }

  /**
   * What the pattern tier locates: nothing without an enumerated page, otherwise the
   * first enumerated page, followed by the next page when that one continues the index
   * and differs from it.
   */
  function PatternTier(pages: seq<PageText>): (r: seq<PageText>)
    ensures var k := FirstWhere(pages, IsNumberedPage);
      && (r == [] <==> k == |pages|)
      && (r != [] ==> r[0] == pages[k] && IsNumberedPage(r[0]))
    ensures |r| <= 2 && forall j | 0 <= j < |r| :: r[j] in pages
  {
    var k := FirstWhere(pages, IsNumberedPage);
    if k == |pages| then []
    else if k + 1 < |pages| && IsContinuationPage(pages[k + 1]) && pages[k + 1] != pages[k] then
      [pages[k], pages[k + 1]]
    else [pages[k]]
  }

  /** The pattern tier takes the next page exactly when it continues the index and differs from the first. */
  lemma {:induction false} PatternTierShape(pages: seq<PageText>)
    ensures var k := FirstWhere(pages, IsNumberedPage);
      var r := PatternTier(pages);
      && (|r| == 2 <==> k + 1 < |pages| && IsContinuationPage(pages[k + 1]) && pages[k + 1] != pages[k])
      && (|r| == 2 ==> r[1] == pages[k + 1])
  {
  }

  /** `_find_index_pages_by_patterns`: the first enumerated page and at most one continuation page. */
  method FindIndexPagesByPatterns(pages: seq<PageText>) returns (found: seq<PageText>)
    ensures found == PatternTier(pages)
    ensures var k := FirstWhere(pages, IsNumberedPage);
      && (found == [] <==> k == |pages|)
      && (found != [] ==> found[0] == pages[k])
      && |found| <= 2
      && (|found| == 2 <==>
            k + 1 < |pages| && IsContinuationPage(pages[k + 1]) && pages[k + 1] != pages[k])
      && (|found| == 2 ==> found[1] == pages[k + 1])
  {
    var k := FirstNumberedPage(pages);
    found := [];
    if k < |pages| {
      found := [pages[k]];
      // `pages[page_idx + 1:page_idx + 2]` holds at most the next page
      if k + 1 < |pages| && IsContinuationPage(pages[k + 1]) && pages[k + 1] !in found {
        found := found + [pages[k + 1]];
      }
    }
    PatternTierShape(pages);
  }

  // ---------------------------------------------------------------- statistics tier

  /** How many of `lines` have 11 to 79 characters. */
  function MidLengthLines(lines: seq<string>): (n: nat)
    ensures n <= |lines|
  {
    if lines == [] then 0
    else MidLengthLines(lines[..|lines| - 1]) + (if 10 < |lines[|lines| - 1]| < 80 then 1 else 0)
  }

  /** How many of `lines` have more than 150 characters. */
  function LongLines(lines: seq<string>): (n: nat)
    ensures n <= |lines|
  {
    if lines == [] then 0
    else LongLines(lines[..|lines| - 1]) + (if |lines[|lines| - 1]| > 150 then 1 else 0)
  }

  /** The characters of `lines` together. */
  function TotalLength(lines: seq<string>): nat {
    if lines == [] then 0 else TotalLength(lines[..|lines| - 1]) + |lines[|lines| - 1]|
  }

  /**
   * The line profile of an index page: at least five non-blank lines, more than half
   * of them of 11 to 79 characters, fewer than a fifth over 150, and an average length
   * below 60 (the float comparisons written as integer cross-multiplications).
   */
  function IsStatisticalIndexPage(p: PageText): (r: bool)
    ensures r ==> |NonBlankLines(p.text)| >= 5
  {
    var lines := NonBlankLines(p.text);
    var n := |lines|;
    n >= 5
    && 2 * MidLengthLines(lines) > n
    && 5 * LongLines(lines) < n
    && TotalLength(lines) < 60 * n
  }

  /** What the statistics tier locates: the first page among the first ten with the index profile. */
  function StatisticsTier(pages: seq<PageText>): (r: seq<PageText>)
    ensures |r| <= 1 && forall j | 0 <= j < |r| :: r[j] in pages && IsStatisticalIndexPage(r[j])
    ensures r == [] <==> forall i | 0 <= i < Min(10, |pages|) :: !IsStatisticalIndexPage(pages[i])
  {
    var window := pages[..Min(10, |pages|)];
    var k := FirstWhere(window, IsStatisticalIndexPage);
    if k == |window| then []
    else
      assert window[k] == pages[k];
      [window[k]]
  }

  /** `_find_index_pages_by_statistics`: the first page among the first ten with the index profile. */
  method FindIndexPagesByStatistics(pages: seq<PageText>) returns (found: seq<PageText>)
    ensures found == StatisticsTier(pages)
    ensures var window := pages[..Min(10, |pages|)];
      var k := FirstWhere(window, IsStatisticalIndexPage);
      && (found == [] <==> k == |window|)
      && (found != [] ==> found == [window[k]] && k < 10 && |NonBlankLines(found[0].text)| >= 5)
  {
    var isIndexProfile := IsStatisticalIndexPage;
    found := [];
    var window := pages[..Min(10, |pages|)];
    for k := 0 to |window|
      invariant found == []
      invariant forall i | 0 <= i < k :: !isIndexProfile(window[i])
    {
      if isIndexProfile(window[k]) {
        found := [window[k]];
        FirstWhereAt(window, isIndexProfile, k);
        return;
      }
    }
    FirstWhereNone(window, isIndexProfile);
  }
}
