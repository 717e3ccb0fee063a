/**
 * The regular expressions of the extraction engine.
 *
 * The configurable pattern lists (index keywords, index-entry patterns, content
 * indicators) and the fixed keyword families of the book-type classifier are kept as
 * their regex source text; the engine that runs them is the abstract `Regex` value.
 * The handful of fixed expressions that are simple enough are written out here as
 * predicates over characters.
 */
module Patterns {
  import opened Wrappers
  import opened Text
  import opened Splitting

  /**
   * Python's `re` module, left abstract. `search(p, s)` is
   * `re.search(p, s, re.IGNORECASE) is not None`; `matchGroups(p, s)` is
   * `re.match(p, s, re.IGNORECASE)`, giving the match's capture groups
   * (`None` for a group that did not take part).
   */
  datatype Regex = Regex(
    search: (string, string) -> bool,
    matchGroups: (string, string) -> Option<seq<Option<string>>>)

  /** `any(re.search(p, text, re.IGNORECASE) for p in patterns)` */
  predicate SearchAny(re: Regex, patterns: seq<string>, text: string) {
    exists i | 0 <= i < |patterns| :: re.search(patterns[i], text)
  }

  predicate IsRomanChar(c: char, ignoreCase: bool) {
    c == 'I' || c == 'V' || c == 'X' || (ignoreCase && (c == 'i' || c == 'v' || c == 'x'))
  }

  predicate IsCloser(c: char) {
    c == '.' || c == ')'
  }

  /** An enumerator (`[IVX]+[.)]` or `\d+[.)]`) whose closing `.` or `)` is at `k`. */
  predicate EnumeratorEndsAt(s: string, k: nat, ignoreCase: bool) {
    1 <= k < |s| && IsCloser(s[k]) && (IsRomanChar(s[k - 1], ignoreCase) || IsDigit(s[k - 1]))
  }

  /** `re.search(r'[IVX]+[\.\)]|\d+[\.\)]', s)`, with `re.IGNORECASE` when `ignoreCase`. */
  predicate HasEnumerator(s: string, ignoreCase: bool) {
    exists k | 0 <= k < |s| :: EnumeratorEndsAt(s, k, ignoreCase)
  }

  /** Upper-case roman digits fill `s[..k]` and `s[k]` closes them. */
  predicate RomanLeadEndsAt(s: string, k: nat) {
    1 <= k < |s| && IsCloser(s[k]) && forall i | 0 <= i < k :: IsRomanChar(s[i], false)
  }

  /** `re.search(r'^[IVX]+[\.\)]|\d+[\.\)]', s)`: a roman enumerator at the start, or a numeric one anywhere. */
  predicate HasLeadingEnumerator(s: string) {
    (exists k | 0 <= k < |s| :: RomanLeadEndsAt(s, k))
    || (exists k | 0 <= k < |s| :: EnumeratorEndsAt(s, k, false) && IsDigit(s[k - 1]))
  }

  /** The function words the prose detectors look for. */
  const FunctionWords: seq<string> :=
    ["this", "the", "we", "it", "in", "on", "at", "as", "to", "for", "of", "a", "an"]

  /** `w`, then whitespace, then at least `letters` lower-case letters, at the start of `s`. */
  predicate LeadsWithWord(s: string, w: string, letters: nat) {
    StartsWith(s, w)
    && var rest := s[|w|..];
      var gap := SpaceRun(rest, 0);
      gap > 0 && gap + letters <= |rest|
      && forall k | gap <= k < gap + letters :: IsLowerAscii(rest[k])
  }

  /**
   * `re.search(r'^(this|the|we|it|in|on|at|as|to|for|of|a|an)\s+[a-z]{n,}', s)` with
   * `n = letters`. Case-insensitive uses apply it to `Lower(s)`.
   */
  predicate StartsWithFunctionWord(s: string, letters: nat) {
    exists i | 0 <= i < |FunctionWords| :: LeadsWithWord(s, FunctionWords[i], letters)
  }

  /** `re.match(r'^PROLOGUE$', s, re.IGNORECASE)` for a stripped line. */
  predicate IsPrologue(s: string) {
    Lower(s) == "prologue"
  }
}
