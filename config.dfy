/**
 * `BookType`, the `ExtractionConfig` record with the defaults its `__post_init__`
 * fills in, and the per-type configuration table of `BookStructureAnalyzer`.
 * The cell-fill ratio, a float in the source, is held in thousandths.
 */
module Config {
  import opened Wrappers

  datatype BookType = Academic | Novel | Textbook | Manual | Unknown {
    /** The enum's string value, as written into the report. */
    function Value(): string {
      match this
      case Academic => "academic"
      case Novel => "novel"
      case Textbook => "textbook"
      case Manual => "manual"
      case Unknown => "unknown"
    }
  }

  datatype ExtractionConfig = ExtractionConfig(
    indexKeywords: seq<string>,
    indexPatterns: seq<string>,
    maxIndexPages: int,
    minIndexEntries: int,
    contentIndicators: seq<string>,
    minContentLength: int,
    skipInitialPages: nat,
    minTableRows: int,
    minTableCols: int,
    minTableCellFillPermille: nat,
    maxCellLength: int)

  const DefaultIndexKeywords: seq<string> := [
    @"\btable\s+of\s+contents\b",
    @"\bcontents\b",
    @"\bindex\b",
    @"\btoc\b",
    @"\boverview\b",
    @"\bchapters?\b"
  ]

  const DefaultIndexPatterns: seq<string> := [
    @"^[\s]*([IVX]+[\.\)]?|\d+[\.\)]?|chapter\s+\d+|part\s+\d+)[\s]+(.+?)(?:[\s]*\.{2,}[\s]*(\d+))?[\s]*$",
    @"^[\s]*([IVX]+[\.\)]?|\d+[\.\)]?)[\s]+(.+?)[\s]*$",
    @"^[\s]*([A-Z][^\.]{3,50})(?:[\s]*\.{2,}[\s]*(\d+))?[\s]*$"
  ]

  const DefaultContentIndicators: seq<string> := [
    @"\bintroduction\b",
    @"\bchapter\s+[1i]",
    @"\bpreface\b",
    @"\bforeword\b",
    @"\bprologue\b",
    @"\bpart\s+[1i]",
    @"\bchapter\s+one\b",
    @"\bchapter\s+first\b"
  ]

  /**
   * `ExtractionConfig(...)` followed by `__post_init__`: every pattern list left as
   * `None` becomes the built-in default list; a list that was given, even an empty
   * one, is kept.
   */
  function MakeConfig(
    indexKeywords: Option<seq<string>> := None,
    indexPatterns: Option<seq<string>> := None,
    maxIndexPages: int := 15,
    minIndexEntries: int := 3,
    contentIndicators: Option<seq<string>> := None,
    minContentLength: int := 200,
    skipInitialPages: nat := 0,
    minTableRows: int := 2,
    minTableCols: int := 2,
    minTableCellFillPermille: nat := 300,
    maxCellLength: int := 500): (c: ExtractionConfig)
    ensures c.indexKeywords == if indexKeywords.Some? then indexKeywords.value else DefaultIndexKeywords
    ensures c.indexPatterns == if indexPatterns.Some? then indexPatterns.value else DefaultIndexPatterns
    ensures c.contentIndicators == if contentIndicators.Some? then contentIndicators.value else DefaultContentIndicators
    ensures c.maxIndexPages == maxIndexPages && c.minIndexEntries == minIndexEntries
    ensures c.minContentLength == minContentLength && c.skipInitialPages == skipInitialPages
    ensures c.minTableRows == minTableRows && c.minTableCols == minTableCols
    ensures c.minTableCellFillPermille == minTableCellFillPermille && c.maxCellLength == maxCellLength
  {
    var c := ExtractionConfig(
      if indexKeywords.Some? then indexKeywords.value else [],
      if indexPatterns.Some? then indexPatterns.value else [],
      maxIndexPages, minIndexEntries,
      if contentIndicators.Some? then contentIndicators.value else [],
      minContentLength, skipInitialPages,
      minTableRows, minTableCols, minTableCellFillPermille, maxCellLength);
    var c := if indexKeywords.None? then c.(indexKeywords := DefaultIndexKeywords) else c;
    var c := if indexPatterns.None? then c.(indexPatterns := DefaultIndexPatterns) else c;
    if contentIndicators.None? then c.(contentIndicators := DefaultContentIndicators) else c
  }

  /** `ExtractionConfig()` */
  function DefaultConfig(): ExtractionConfig {
    MakeConfig()
  }

  /** `BookStructureAnalyzer.get_config_for_type`: one pre-tuned record per book type. */
  function ConfigForType(t: BookType): (c: ExtractionConfig)
    ensures t == Unknown ==> c == DefaultConfig()
    ensures c.indexKeywords == DefaultIndexKeywords && c.indexPatterns == DefaultIndexPatterns
    ensures c.contentIndicators == DefaultContentIndicators
    ensures c.skipInitialPages == (if t == Novel then 3 else 0)
    ensures t == Novel ==> c.maxIndexPages == 5 && c.minIndexEntries == 1 && c.minContentLength == 100
    ensures c.minTableRows == 2 && c.minTableCols == 2 && c.maxCellLength == 500
    ensures 1 <= c.minIndexEntries && 5 <= c.maxIndexPages && 100 <= c.minContentLength
    ensures c.minTableCellFillPermille == match t
      case Academic => 400
      case Textbook => 350
      case _ => 300
  {
    match t
    case Academic =>
      MakeConfig(maxIndexPages := 20, minIndexEntries := 5, minContentLength := 300,
                 minTableCellFillPermille := 400)
    case Textbook =>
      MakeConfig(maxIndexPages := 25, minIndexEntries := 10, minContentLength := 250,
                 minTableCellFillPermille := 350)
    case Novel =>
      MakeConfig(maxIndexPages := 5, minIndexEntries := 1, minContentLength := 100,
                 skipInitialPages := 3)
    case Manual =>
      MakeConfig(maxIndexPages := 15, minIndexEntries := 3, minContentLength := 150,
                 minTableCellFillPermille := 300)
    case Unknown => DefaultConfig()
  }
}
