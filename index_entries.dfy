/**
 * `AdaptiveIndexExtractor._extract_entries_adaptive`: the line-by-line state machine
 * that turns the located index text into entries, and the closing filter pass.
 *
 * The extractor keeps an open `current_entry` dictionary. Once that dictionary has
 * been appended to `entries`, a later `current_entry["title"] += ...` also changes
 * the copy inside `entries`, because both are the same object. The model keeps the
 * entries as values and records in `aliases` the positions of `entries` that are the
 * open entry, so a title extension updates those positions too.
 */
module IndexEntries {
  import opened Wrappers
  import opened Text
  import opened Splitting
  import opened Patterns
  import opened Config
  import opened IndexPages

  /** `{"entry_number": ..., "title": ..., "page_reference": ...}` */
  datatype IndexEntry = IndexEntry(entryNumber: Option<string>, title: string, pageReference: Option<nat>)

  // ---------------------------------------------------------------- line tests

  /** `_is_content_line`: a line of running prose that may end the index. */
  function IsContentLine(line: string, entryCount: nat, minEntries: int): (r: bool)
    ensures r <==>
      || |line| > 250
      || (entryCount >= minEntries
          && ((StartsWithFunctionWord(Lower(line), 1) && |line| > 150) || IsPrologue(line)))
  {
    if |line| > 250 then true
    else if StartsWithFunctionWord(Lower(line), 1) && entryCount < minEntries then false
    else if StartsWithFunctionWord(Lower(line), 1) && |line| > 150 then true
    else IsPrologue(line) && entryCount >= minEntries
  }

  const SkipWords: seq<string> := ["copyright", "penguin", "title page", "dedication", "epigraph"]

  /** Header and footer text: one of the skip words occurs in the lower-cased line. */
  predicate ContainsSkipWord(line: string) {
    exists i | 0 <= i < |SkipWords| :: Contains(Lower(line), SkipWords[i])
  }

  const KnownEntries: seq<string> :=
    ["epilogue", "notes", "suggestions", "about", "appendix", "bibliography", "references", "prologue", "preface"]

  /** The lower-cased line starts with a known unnumbered section name. */
  predicate StartsWithKnownEntry(line: string) {
    exists i | 0 <= i < |KnownEntries| :: StartsWith(Lower(line), KnownEntries[i])
  }

  /**
   * A heading without a number, such as "Epilogue": 3 to 79 characters, starting with
   * a capital, not all capitals, without a leading enumerator, and either a known
   * section name or at most four words that do not open like a sentence.
   */
  predicate IsUnnumberedHeading(line: string) {
    && 2 < |line| < 80
    && IsUpperAscii(line[0])
    && !IsUpperString(line)
    && !HasLeadingEnumerator(line)
    && (StartsWithKnownEntry(line) || (|Words(line)| <= 4 && !StartsWithFunctionWord(line, 1)))
  }

  // ---------------------------------------------------------------- matched entries

  /** A capture group that took part and is not empty (Python truthiness). */
  predicate Truthy(g: Option<string>) {
    g.Some? && g.value != []
  }

  /** A title whose first half of words repeats as its second half keeps only the first half. */
  function CollapseRepeatedTitle(title: string): string {
    var words := Words(title);
    var half := |words| / 2;
    if |words| > 1 && words[..half] == words[half..] then Join(" ", words[..half]) else title
  }

  /** "Title Page Title Page" becomes "Title Page": a doubled word list collapses to one copy. */
  lemma {:induction false} CollapseDoubledTitle(ws: seq<string>)
    requires ws != []
    requires forall k | 0 <= k < |ws| :: IsWord(ws[k])
    ensures CollapseRepeatedTitle(Join(" ", ws + ws)) == Join(" ", ws)
  {
    var doubled := ws + ws;
    forall k | 0 <= k < |doubled| ensures IsWord(doubled[k]) {
      if k < |ws| {
        assert doubled[k] == ws[k];
      } else {
        assert doubled[k] == ws[k - |ws|];
      }
    }
    WordsOfJoin(doubled);
    assert |doubled| / 2 == |ws|;
    assert doubled[..|ws|] == ws && doubled[|ws|..] == ws;
  }

  /** A title that is not a doubled word list is kept as it is. */
  lemma {:induction false} CollapseKeepsSingleTitle(title: string)
    requires var words := Words(title); |words| <= 1 || words[..|words| / 2] != words[|words| / 2..]
    ensures CollapseRepeatedTitle(title) == title
  {
  }

  /** A title collapsed from a title without outer whitespace has none either. */
  lemma {:induction false} CollapseKeepsTrimmed(title: string)
    requires Trimmed(title)
    ensures Trimmed(CollapseRepeatedTitle(title))
  {
    var words := Words(title);
    var half := |words| / 2;
    if |words| > 1 && words[..half] == words[half..] {
      assert forall k | 0 <= k < half :: words[..half][k] == words[k];
      JoinedWordsTrimmed(words[..half]);
    }
  }

  /** The text a match takes its title from: group 2 when non-empty, otherwise the whole line. */
  function TitleSource(groups: seq<Option<string>>, line: string): string {
    if |groups| > 1 && Truthy(groups[1]) then groups[1].value else line
  }

  /**
   * The entry a successful pattern match describes: group 1 is the number when
   * non-empty, group 2 the title (the whole line when empty or absent), stripped and
   * with a doubled word list collapsed, and group 3 the page reference, kept only when
   * it is all digits. The title carries no outer whitespace.
   */
  function EntryFromMatch(groups: seq<Option<string>>, line: string): (e: IndexEntry)
    ensures e.entryNumber.Some? ==> |groups| > 0 && Truthy(e.entryNumber) && e.entryNumber == groups[0]
    ensures |groups| > 0 && Truthy(groups[0]) ==> e.entryNumber == groups[0]
    ensures e.title == CollapseRepeatedTitle(Strip(TitleSource(groups, line)))
    ensures Strip(e.title) == e.title
    ensures e.pageReference.Some? ==> |groups| > 2 && groups[2].Some? && IsDigitString(groups[2].value)
    ensures |groups| > 2 && groups[2].Some? && IsDigitString(groups[2].value) ==>
      e.pageReference == Some(DecimalValue(groups[2].value))
  {
    var number := if |groups| > 0 && Truthy(groups[0]) then groups[0] else None;
    var title := Strip(TitleSource(groups, line));
    var pageRef :=
      if |groups| > 2 && Truthy(groups[2]) && IsDigitString(groups[2].value)
      then Some(DecimalValue(groups[2].value)) else None;
    StripIsTrimmed(TitleSource(groups, line));
    CollapseKeepsTrimmed(title);
    StripOfTrimmed(CollapseRepeatedTitle(title));
    IndexEntry(number, CollapseRepeatedTitle(title), pageRef)
  }

  /** A group 2 holding a doubled word list, such as "Title Page Title Page", gives the title once. */
  lemma {:induction false} DoubledTitleGroupCollapses(groups: seq<Option<string>>, line: string, ws: seq<string>)
    requires ws != [] && forall k | 0 <= k < |ws| :: IsWord(ws[k])
    requires |groups| > 1 && groups[1] == Some(Join(" ", ws + ws))
    ensures EntryFromMatch(groups, line).title == Join(" ", ws)
  {
    var doubled := ws + ws;
    forall k | 0 <= k < |doubled| ensures IsWord(doubled[k]) {
      if k < |ws| {
        assert doubled[k] == ws[k];
      } else {
        assert doubled[k] == ws[k - |ws|];
      }
    }
    JoinedWordsTrimmed(doubled);
    StripOfTrimmed(Join(" ", doubled));
    CollapseDoubledTitle(ws);
  }

  // ---------------------------------------------------------------- scanner state

  /**
   * The variables of the line loop: the entries so far, the open entry, the positions
   * of `entries` that are the open entry itself, whether collecting has started, and
   * the keys already taken.
   */
  datatype EntryScan = EntryScan(
    entries: seq<IndexEntry>,
    current: Option<IndexEntry>,
    aliases: set<nat>,
    collecting: bool,
    seen: set<string>)
  {
    /**
     * Nothing is recorded before collecting starts; every title is 3 to 300 characters
     * long; and every aliased position holds the open entry.
     */
    predicate Valid() {
      && (!collecting ==> entries == [] && current.None? && aliases == {})
      && (current.Some? ==> 3 <= |current.value.title| <= 300)
      && (forall k | 0 <= k < |entries| :: 3 <= |entries[k].title| <= 300)
      && (forall a | a in aliases :: a < |entries| && current.Some? && entries[a] == current.value)
    }
  }

  const Start := EntryScan([], None, {}, false, {})

  /**
   * Saving the open entry: it is appended, and its key taken, exactly when the key is
   * new (and, when `checkLength`, longer than two characters); otherwise nothing
   * changes. The open entry stays open, now also at the new position.
   */
  function SaveCurrent(st: EntryScan, checkLength: bool): (r: EntryScan)
    requires st.Valid() && st.current.Some?
    ensures r.Valid()
    ensures r.current == st.current && r.collecting == st.collecting
    ensures var key := Key(st.current.value.title);
      if key !in st.seen && (!checkLength || |key| > 2)
      then r.entries == st.entries + [st.current.value] && r.seen == st.seen + {key}
      else r == st
  {
    var e := st.current.value;
    var key := Key(e.title);
    if key !in st.seen && (!checkLength || |key| > 2) then
      AppendOpenKeepsValid(st, key);
      st.(entries := st.entries + [e], seen := st.seen + {key}, aliases := st.aliases + {|st.entries|})
    else st
  }

  /** Appending the open entry, which then is also at the new position, keeps the state valid. */
  lemma {:induction false} AppendOpenKeepsValid(st: EntryScan, key: string)
    requires st.Valid() && st.current.Some?
    ensures st.(entries := st.entries + [st.current.value], seen := st.seen + {key},
                aliases := st.aliases + {|st.entries|}).Valid()
  {
    var e := st.current.value;
    var entries := st.entries + [e];
    forall k | 0 <= k < |entries| ensures 3 <= |entries[k].title| <= 300 {
      if k < |st.entries| {
        assert entries[k] == st.entries[k];
      }
    }
    forall a | a in st.aliases + {|st.entries|} ensures a < |entries| && entries[a] == e {
      if a in st.aliases {
        assert entries[a] == st.entries[a];
      }
    }
  }

  /** `current_entry = None` */
  function CloseCurrent(st: EntryScan): (r: EntryScan)
    requires st.Valid()
    ensures r.Valid() && r.current.None? && r.entries == st.entries && r.seen == st.seen
    ensures r.collecting == st.collecting
  {
    st.(current := None, aliases := {})
  }

  /**
   * `current_entry["title"] += " " + line`: the open entry and every position of
   * `entries` that is the same dictionary get the longer title.
   */
  function ExtendTitle(st: EntryScan, line: string): (r: EntryScan)
    requires st.Valid() && st.current.Some? && line != [] && |st.current.value.title| + |line| < 300
    ensures r.Valid()
    ensures r.current == Some(st.current.value.(title := st.current.value.title + " " + line))
    ensures |r.entries| == |st.entries|
    ensures forall k | 0 <= k < |st.entries| && k !in st.aliases :: r.entries[k] == st.entries[k]
    ensures forall k | k in st.aliases :: r.entries[k] == r.current.value
    ensures r.seen == st.seen && r.collecting == st.collecting
  {
    var cur := st.current.value.(title := st.current.value.title + " " + line);
    var entries := seq(|st.entries|, k requires 0 <= k < |st.entries| =>
      if k in st.aliases then cur else st.entries[k]);
    st.(current := Some(cur), entries := entries)
  }

  // ---------------------------------------------------------------- one line

  /** `next` extends `st`: the keys taken and the entries recorded only grow. */
  predicate Extends(st: EntryScan, next: EntryScan) {
    st.seen <= next.seen && st.entries <= next.entries
  }

  /** An entry just opened: its title is 3 to 299 characters and its key not yet taken. */
  predicate JustOpened(st: EntryScan) {
    && st.current.Some? && st.aliases == {}
    && 2 < |st.current.value.title| < 300 && Key(st.current.value.title) !in st.seen
  }

  /** `if current_entry:` then save it, as a matched line does before reading its own entry. */
  function SaveIfOpen(st: EntryScan): (r: EntryScan)
    requires st.Valid()
    ensures r.Valid() && r.current == st.current && r.collecting == st.collecting && Extends(st, r)
  {
    if st.current.Some? then SaveCurrent(st, true) else st
  }

  /**
   * One entry pattern tried on a line: the state after it, and whether it opened an
   * entry. A non-match changes nothing. A match first saves the open entry; then the
   * entry the match describes is opened exactly when its title is 3 to 299 characters
   * and its key is not taken; a title of another length closes the open entry; a taken
   * title leaves the saved state as it is.
   */
  function TryPattern(re: Regex, pattern: string, st: EntryScan, line: string): (r: (EntryScan, bool))
    requires st.Valid() && st.collecting
    ensures r.0.Valid() && r.0.collecting && Extends(st, r.0)
    ensures r.1 ==> JustOpened(r.0)
    ensures re.matchGroups(pattern, line).None? ==> r == (st, false)
    ensures re.matchGroups(pattern, line).Some? ==>
      var saved := SaveIfOpen(st);
      var e := EntryFromMatch(re.matchGroups(pattern, line).value, line);
      && r.0.entries == saved.entries && r.0.seen == saved.seen
      && (r.1 <==> 2 < |e.title| < 300 && Key(e.title) !in saved.seen)
      && (r.1 ==> r.0.current == Some(e))
      && (!(2 < |e.title| < 300) ==> r.0.current.None?)
      && (2 < |e.title| < 300 && Key(e.title) in saved.seen ==> r.0 == saved)
  {
    var m := re.matchGroups(pattern, line);
    if m.None? then (st, false)
    else
      var saved := SaveIfOpen(st);
      var entry := EntryFromMatch(m.value, line);
      if 2 < |entry.title| < 300 then
        if Key(entry.title) !in saved.seen then (saved.(current := Some(entry), aliases := {}), true)
        else (saved, false)
      else (CloseCurrent(saved), false)
  }

  /**
   * The patterns tried in order on a line until one opens an entry: the first pattern
   * that opens an entry decides the state, and the patterns after it are not tried.
   */
  function FirstOpening(re: Regex, patterns: seq<string>, st: EntryScan, line: string): (r: (EntryScan, bool))
    requires st.Valid() && st.collecting
    ensures r.0.Valid() && r.0.collecting && Extends(st, r.0)
    ensures r.1 ==> JustOpened(r.0)
    ensures (forall i | 0 <= i < |patterns| :: re.matchGroups(patterns[i], line).None?) ==> r == (st, false)
    decreases |patterns|
  {
    if patterns == [] then (st, false)
    else
      var step := TryPattern(re, patterns[0], st, line);
      if step.1 then step
      else
        var r := FirstOpening(re, patterns[1..], step.0, line);
        assert forall i | 0 <= i < |patterns| - 1 :: patterns[1..][i] == patterns[i + 1];
        r
  }

  /** The loop over the entry patterns for one line, stopping at the first pattern that opens an entry. */
  method MatchEntryPatterns(re: Regex, patterns: seq<string>, st: EntryScan, line: string)
    returns (next: EntryScan, matched: bool)
    requires st.Valid() && st.collecting
    ensures (next, matched) == FirstOpening(re, patterns, st, line)
  {
    next := st;
    matched := false;
    for i := 0 to |patterns|
      invariant next.Valid() && next.collecting
      invariant FirstOpening(re, patterns, st, line) == FirstOpening(re, patterns[i..], next, line)
    {
      assert patterns[i..][0] == patterns[i] && patterns[i..][1..] == patterns[i + 1..];
      var step := TryPattern(re, patterns[i], next, line);
      next := step.0;
      if step.1 {
        matched := true;
        break;
      }
    }
  }

  /**
   * A line no entry pattern opened an entry on. With an open entry: a line under 150
   * characters that keeps the title under 300 extends the title (unless it repeats it),
   * any other line saves the open entry and closes it. With no open entry: an unseen
   * unnumbered heading is recorded as an entry of its own, and anything else is ignored.
   */
  function FollowLine(st: EntryScan, line: string): (r: EntryScan)
    requires st.Valid() && st.collecting && line != []
    ensures r.Valid() && r.collecting && st.seen <= r.seen && |st.entries| <= |r.entries|
    ensures st.current.Some? && |line| < 150 && |st.current.value.title| + |line| < 300 ==>
      r == if Key(line) != Key(st.current.value.title) then ExtendTitle(st, line) else st
    ensures st.current.Some? && !(|line| < 150 && |st.current.value.title| + |line| < 300) ==>
      r == CloseCurrent(SaveCurrent(st, false))
    ensures st.current.None? && IsUnnumberedHeading(line) && Key(line) !in st.seen ==>
      r.current.None? && r.entries == st.entries + [IndexEntry(None, line, None)] && r.seen == st.seen + {Key(line)}
    ensures st.current.None? && !(IsUnnumberedHeading(line) && Key(line) !in st.seen) ==> r == st
  {
    if st.current.Some? then
      var title := st.current.value.title;
      if |line| < 150 && |title| + |line| < 300 then
        if Key(line) != Key(title) then ExtendTitle(st, line) else st
      else CloseCurrent(SaveCurrent(st, false))
    else if IsUnnumberedHeading(line) && Key(line) !in st.seen then
      AppendClosedKeepsValid(st, IndexEntry(None, line, None), Key(line));
      st.(entries := st.entries + [IndexEntry(None, line, None)], seen := st.seen + {Key(line)})
    else st
  }

  /** With no entry open, appending an entry with a title of 3 to 300 characters keeps the state valid. */
  lemma {:induction false} AppendClosedKeepsValid(st: EntryScan, e: IndexEntry, key: string)
    requires st.Valid() && st.collecting && st.current.None? && 3 <= |e.title| <= 300
    ensures st.(entries := st.entries + [e], seen := st.seen + {key}).Valid()
  {
    var entries := st.entries + [e];
    forall k | 0 <= k < |entries| ensures 3 <= |entries[k].title| <= 300 {
      if k < |st.entries| {
        assert entries[k] == st.entries[k];
      }
    }
  }

  /** A line that turns collecting on: non-blank once stripped, and an index keyword occurs in it. */
  predicate IsKeywordLine(re: Regex, cfg: ExtractionConfig, raw: string) {
    Strip(raw) != [] && SearchAny(re, cfg.indexKeywords, Strip(raw))
  }

  /**
   * One iteration of the line loop: the state after the line, and whether the loop stops
   * there. A blank line saves and closes the open entry. Before collecting starts, only
   * a keyword line changes anything, and it only starts collecting. A prose line changes
   * nothing and stops the loop exactly when enough entries are collected. Otherwise a
   * skip-word line with no open entry is ignored, and any other line goes through the
   * entry patterns and, when none opens an entry, `FollowLine`.
   */
  function LineStep(re: Regex, cfg: ExtractionConfig, st: EntryScan, raw: string): (r: (EntryScan, bool))
    requires st.Valid()
    ensures r.0.Valid()
    ensures st.seen <= r.0.seen && |st.entries| <= |r.0.entries|
    ensures Strip(raw) == [] ==>
      r == (if st.current.Some? then CloseCurrent(SaveCurrent(st, true)) else st, false)
    ensures !st.collecting ==> r == (if IsKeywordLine(re, cfg, raw) then st.(collecting := true) else st, false)
    ensures st.collecting && Strip(raw) != [] && IsContentLine(Strip(raw), |st.entries|, cfg.minIndexEntries) ==>
      r == (st, |st.entries| >= cfg.minIndexEntries)
    ensures r.1 ==> r.0 == st && st.collecting && |st.entries| >= cfg.minIndexEntries
  {
    var line := Strip(raw);
    if line == [] then
      (if st.current.Some? then CloseCurrent(SaveCurrent(st, true)) else st, false)
    else if !st.collecting then
      (if SearchAny(re, cfg.indexKeywords, line) then st.(collecting := true) else st, false)
    else if IsContentLine(line, |st.entries|, cfg.minIndexEntries) then
      (st, |st.entries| >= cfg.minIndexEntries)
    else if ContainsSkipWord(line) && st.current.None? then
      (st, false)
    else
      var step := FirstOpening(re, cfg.indexPatterns, st, line);
      if step.1 then (step.0, false) else (FollowLine(step.0, line), false)
  }

  /** One iteration of the line loop of `_extract_entries_adaptive`. */
  method ProcessLine(re: Regex, cfg: ExtractionConfig, st: EntryScan, raw: string)
    returns (next: EntryScan, stop: bool)
    requires st.Valid()
    ensures (next, stop) == LineStep(re, cfg, st, raw)
  {
    var line := Strip(raw);
    next := st;
    stop := false;
    if line == [] {
      if st.current.Some? {
        next := CloseCurrent(SaveCurrent(st, true));
      }
      return;
    }
    if !st.collecting {
      if SearchAny(re, cfg.indexKeywords, line) {
        next := st.(collecting := true);
      }
      return;
    }
    if IsContentLine(line, |st.entries|, cfg.minIndexEntries) {
      stop := |st.entries| >= cfg.minIndexEntries;
      return;
    }
    if ContainsSkipWord(line) && st.current.None? {
      return;
    }
    var matched;
    next, matched := MatchEntryPatterns(re, cfg.indexPatterns, st, line);
    if !matched {
      next := FollowLine(next, line);
    }
  }

  // ---------------------------------------------------------------- all lines

  /** The texts of the located pages. */
  function PageTexts(pages: seq<PageText>): (r: seq<string>)
    ensures |r| == |pages| && forall i | 0 <= i < |pages| :: r[i] == pages[i].text
  {
    seq(|pages|, i requires 0 <= i < |pages| => pages[i].text)
  }

  /** The lines the state machine reads: the page texts joined by newlines, split at newlines. */
  function IndexLines(pages: seq<PageText>): seq<string> {
    Lines(Join("\n", PageTexts(pages)))
  }

  /** The line loop from state `st` over `lines`, up to the line that stops it. */
  function Scan(re: Regex, cfg: ExtractionConfig, st: EntryScan, lines: seq<string>): (r: EntryScan)
    requires st.Valid()
    ensures r.Valid()
    decreases |lines|
  {
    if lines == [] then st
    else
      var step := LineStep(re, cfg, st, lines[0]);
      if step.1 then st else Scan(re, cfg, step.0, lines[1..])
  }

  /** The final save after the line loop: an open entry with a new key of over two characters is appended. */
  function Finish(st: EntryScan): (r: seq<IndexEntry>)
    requires st.Valid()
    ensures forall k | 0 <= k < |r| :: 3 <= |r[k].title| <= 300
  {
    (if st.current.Some? then SaveCurrent(st, true) else st).entries
  }

  /** The entries the line loop and the final save collect from the located pages. */
  function Collected(re: Regex, cfg: ExtractionConfig, pages: seq<PageText>): (r: seq<IndexEntry>)
    ensures forall k | 0 <= k < |r| :: 3 <= |r[k].title| <= 300
  {
    Finish(Scan(re, cfg, Start, IndexLines(pages)))
  }

  /** The position of the first keyword line (`|lines|` when there is none). */
  function FirstKeywordLine(re: Regex, cfg: ExtractionConfig, lines: seq<string>): (k: nat)
    ensures k <= |lines|
    ensures forall i | 0 <= i < k :: !IsKeywordLine(re, cfg, lines[i])
    ensures k < |lines| ==> IsKeywordLine(re, cfg, lines[k])
  {
    if lines == [] then 0
    else if IsKeywordLine(re, cfg, lines[0]) then 0
    else 1 + FirstKeywordLine(re, cfg, lines[1..])
  }

  /**
   * Nothing happens before the first keyword line: the scan is the scan of the lines
   * after it, started in the collecting state, and with no keyword line it is the start.
   */
  lemma {:induction false} ScanSkipsToKeyword(re: Regex, cfg: ExtractionConfig, lines: seq<string>)
    ensures var k := FirstKeywordLine(re, cfg, lines);
      Scan(re, cfg, Start, lines)
      == if k == |lines| then Start else Scan(re, cfg, Start.(collecting := true), lines[k + 1..])
    decreases |lines|
  {
    if lines != [] {
      if !IsKeywordLine(re, cfg, lines[0]) {
        ScanSkipsToKeyword(re, cfg, lines[1..]);
        var k := FirstKeywordLine(re, cfg, lines);
        if k < |lines| {
          assert lines[1..][k - 1 + 1..] == lines[k + 1..];
        }
      }
    }
  }

  /** Without a keyword line nothing is collected. */
  lemma {:induction false} CollectedNeedsKeywordLine(re: Regex, cfg: ExtractionConfig, pages: seq<PageText>)
    requires FirstKeywordLine(re, cfg, IndexLines(pages)) == |IndexLines(pages)|
    ensures Collected(re, cfg, pages) == []
  {
    ScanSkipsToKeyword(re, cfg, IndexLines(pages));
  }

  /** The line loop of `_extract_entries_adaptive` and its final save. */
  method CollectEntries(re: Regex, cfg: ExtractionConfig, pages: seq<PageText>)
    returns (entries: seq<IndexEntry>)
    ensures entries == Collected(re, cfg, pages)
  {
    var lines := IndexLines(pages);
    var st := Start;
    for i := 0 to |lines|
      invariant st.Valid()
      invariant Scan(re, cfg, Start, lines) == Scan(re, cfg, st, lines[i..])
    {
      assert lines[i..][0] == lines[i] && lines[i..][1..] == lines[i + 1..];
      var next, stop := ProcessLine(re, cfg, st, lines[i]);
      if stop {
        break;
      }
      st := next;
    }
    if st.current.Some? {
      st := SaveCurrent(st, true);
    }
    entries := st.entries;
  }

  // ---------------------------------------------------------------- filter pass

  /** A key the filter accepts: 3 to 299 characters and not a prose opener. */
  predicate AcceptedKey(key: string) {
    2 < |key| < 300 && !StartsWithFunctionWord(key, 10)
  }

  function EntryKey(e: IndexEntry): string {
    Key(e.title)
  }

  /**
   * The filter pass: keep an entry when its key is accepted and not yet kept. The kept
   * keys are accepted and pairwise distinct, every accepted key of the input survives,
   * and each kept entry is the first of its key, in input order (see `UniqueBy`).
   */
  function Deduplicated(entries: seq<IndexEntry>): seq<IndexEntry> {
    UniqueBy(entries, EntryKey, AcceptedKey)
  }

  /** The filter loop over the collected entries, with the keys kept so far in `seen`. */
  method FilterEntries(entries: seq<IndexEntry>) returns (filtered: seq<IndexEntry>)
    ensures filtered == Deduplicated(entries)
  {
    var entryKey := EntryKey;
    filtered := [];
    var seen: set<string> := {};
    for i := 0 to |entries|
      invariant filtered == UniqueBy(entries[..i], entryKey, AcceptedKey)
      invariant forall k :: k in seen <==> k in KeysBy(filtered, entryKey)
    {
      UniqueByStep(entries, i, entryKey, AcceptedKey);
      KeysByAppend(filtered, entries[i], entryKey);
      var key := entryKey(entries[i]);
      if key != [] && key !in seen && 2 < |key| < 300 {
        if !StartsWithFunctionWord(key, 10) {
          filtered := filtered + [entries[i]];
          seen := seen + {key};
        }
      }
    }
    assert entries[..|entries|] == entries;
  }

  /**
   * What `_extract_entries_adaptive` returns: the collected entries, filtered. They have
   * accepted, pairwise distinct keys, and filtering them again changes nothing.
   */
  function EntriesOf(re: Regex, cfg: ExtractionConfig, pages: seq<PageText>): (r: seq<IndexEntry>)
    ensures forall i | 0 <= i < |r| :: AcceptedKey(EntryKey(r[i]))
    ensures forall i, j | 0 <= i < j < |r| :: EntryKey(r[i]) != EntryKey(r[j])
    ensures Deduplicated(r) == r
  {
    var r := Deduplicated(Collected(re, cfg, pages));
    UniqueByOfUnique(r, EntryKey, AcceptedKey);
    r
  }

  /** Without a keyword line `_extract_entries_adaptive` returns no entries. */
  lemma {:induction false} NoKeywordLineNoEntries(re: Regex, cfg: ExtractionConfig, pages: seq<PageText>)
    requires FirstKeywordLine(re, cfg, IndexLines(pages)) == |IndexLines(pages)|
    ensures EntriesOf(re, cfg, pages) == []
  {
    CollectedNeedsKeywordLine(re, cfg, pages);
  }

  /** `_extract_entries_adaptive`: the line loop followed by the filter pass. */
  method ExtractEntries(re: Regex, cfg: ExtractionConfig, pages: seq<PageText>)
    returns (entries: seq<IndexEntry>)
    ensures entries == EntriesOf(re, cfg, pages)
  {
    var collected := CollectEntries(re, cfg, pages);
    entries := FilterEntries(collected);
  }
}
