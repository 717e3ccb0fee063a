/**
 * `BookStructureAnalyzer.analyze_book_type`: the book type is decided from how many
 * of three fixed keyword families occur in the lower-cased, space-joined samples.
 * A family's score counts the distinct patterns found, not their occurrences.
 */
module BookStructure {
  import opened Text
  import opened Patterns
  import opened Config

  const AcademicIndicators: seq<string> := [
    @"\breferences\b", @"\bbibliography\b", @"\bcitation\b",
    @"\babstract\b", @"\bintroduction\b", @"\bconclusion\b",
    @"\bfigure\s+\d+", @"\btable\s+\d+", @"\bequation\b"
  ]

  const NovelIndicators: seq<string> := [
    @"\bchapter\s+\d+", @"\bpart\s+\d+", @"\bepilogue\b",
    @"""[^""]{20,}""", @"\bhe\s+said\b", @"\bshe\s+said\b"
  ]

  const ManualIndicators: seq<string> := [
    @"\bstep\s+\d+", @"\bprocedure\b", @"\binstruction\b",
    @"\bhow\s+to\b", @"\btutorial\b", @"\bguide\b"
  ]

  /** `sum(1 for p in patterns if re.search(p, text, re.IGNORECASE))` */
  function Score(re: Regex, patterns: seq<string>, text: string): (n: nat)
    ensures n <= |patterns|
    ensures n == 0 <== !SearchAny(re, patterns, text)
  {
    if patterns == [] then 0
    else
      var last := patterns[|patterns| - 1];
      Score(re, patterns[..|patterns| - 1], text) + (if re.search(last, text) then 1 else 0)
  }

  /** `" ".join(text_samples).lower()` */
  function CombinedSample(samples: seq<string>): string {
    Lower(Join(" ", samples))
  }

  function AcademicScore(re: Regex, samples: seq<string>): nat {
    Score(re, AcademicIndicators, CombinedSample(samples))
  }

  function NovelScore(re: Regex, samples: seq<string>): nat {
    Score(re, NovelIndicators, CombinedSample(samples))
  }

  function ManualScore(re: Regex, samples: seq<string>): nat {
    Score(re, ManualIndicators, CombinedSample(samples))
  }

  /** `analyze_book_type(text_samples, total_pages)`: the first rule that fires decides. */
  function AnalyzeBookType(re: Regex, samples: seq<string>, totalPages: int): (t: BookType)
    ensures AcademicScore(re, samples) <= 9 && NovelScore(re, samples) <= 6 && ManualScore(re, samples) <= 6
    ensures t == Academic <==> AcademicScore(re, samples) >= 3
    ensures t == Novel <==>
      AcademicScore(re, samples) < 3 && NovelScore(re, samples) >= 2 && totalPages > 100
    ensures t == Manual <==>
      && AcademicScore(re, samples) < 3 && !(NovelScore(re, samples) >= 2 && totalPages > 100)
      && ManualScore(re, samples) >= 2
    ensures t == Textbook <==>
      && AcademicScore(re, samples) == 2 && !(NovelScore(re, samples) >= 2 && totalPages > 100)
      && ManualScore(re, samples) < 2
    ensures t == Unknown <==>
      && AcademicScore(re, samples) < 2 && !(NovelScore(re, samples) >= 2 && totalPages > 100)
      && ManualScore(re, samples) < 2
  {
    var academic := AcademicScore(re, samples);
    var novel := NovelScore(re, samples);
    var manual := ManualScore(re, samples);
    if academic >= 3 then Academic
    else if novel >= 2 && totalPages > 100 then Novel
    else if manual >= 2 then Manual
    else if academic >= 2 then Textbook
    else Unknown
  }

  /**
   * With no samples the combined text is empty; an engine that finds none of the
   * keyword patterns in the empty text classifies the book as Unknown.
   */
  lemma {:induction false} EmptySamplesAreUnknown(re: Regex, totalPages: int)
    requires !SearchAny(re, AcademicIndicators + NovelIndicators + ManualIndicators, "")
    ensures AnalyzeBookType(re, [], totalPages) == Unknown
  {
    assert CombinedSample([]) == "";
    forall i | 0 <= i < |AcademicIndicators| ensures !re.search(AcademicIndicators[i], "") {
      assert AcademicIndicators[i] == (AcademicIndicators + NovelIndicators + ManualIndicators)[i];
    }
    forall i | 0 <= i < |ManualIndicators| ensures !re.search(ManualIndicators[i], "") {
      var all := AcademicIndicators + NovelIndicators + ManualIndicators;
      assert ManualIndicators[i] == all[|AcademicIndicators| + |NovelIndicators| + i];
    }
    forall i | 0 <= i < |NovelIndicators| ensures !re.search(NovelIndicators[i], "") {
      var all := AcademicIndicators + NovelIndicators + ManualIndicators;
      assert NovelIndicators[i] == all[|AcademicIndicators| + i];
    }
    assert !SearchAny(re, AcademicIndicators, "");
    assert !SearchAny(re, NovelIndicators, "");
    assert !SearchAny(re, ManualIndicators, "");
    assert AcademicScore(re, []) == 0 && NovelScore(re, []) == 0 && ManualScore(re, []) == 0;
  }

  /**
   * A book of at most 100 pages is never classified as a novel: whatever the novel
   * score, the decision falls through to the manual, textbook and unknown rules.
   */
  lemma {:induction false} ShortBooksAreNotNovels(re: Regex, samples: seq<string>, totalPages: int)
    requires totalPages <= 100
    ensures AnalyzeBookType(re, samples, totalPages) != Novel
    ensures AnalyzeBookType(re, samples, totalPages) == AnalyzeBookType(re, samples, 0)
  {
  }
}
