/**
 * Splitting text the way Python does: `str.split(sep)`, `str.split()` and `re.split`
 * for the two delimiter expressions the engine uses (`\n\s*\n` and `([.!?]\s+)`).
 * Every split scans left to right and takes the leftmost, non-overlapping delimiter.
 */
module Splitting {
  import opened Wrappers
  import opened Text

  /** The delimiters text is split on. */
  datatype Delimiter =
    | Literal(sep: string)  // str.split(sep)
    | ParagraphBreak        // re.split(r'\n\s*\n', ...)
    | SentenceEnd           // re.split(r'([.!?]\s+)', ...)

  /** Length of the run of whitespace that starts at `j`. */
  function SpaceRun(s: string, j: nat): (n: nat)
    requires j <= |s|
    ensures j + n <= |s|
    decreases |s| - j
  {
    if j < |s| && IsSpace(s[j]) then 1 + SpaceRun(s, j + 1) else 0
  }

  /** The run is all whitespace and maximal. */
  lemma {:induction false} SpaceRunIsMaximal(s: string, j: nat)
    requires j <= |s|
    ensures forall k | j <= k < j + SpaceRun(s, j) :: IsSpace(s[k])
    ensures j + SpaceRun(s, j) == |s| || !IsSpace(s[j + SpaceRun(s, j)])
    decreases |s| - j
  {
    if j < |s| && IsSpace(s[j]) {
      SpaceRunIsMaximal(s, j + 1);
    }
  }

  /** Length of the run of non-whitespace that starts at `j`. */
  function WordRun(s: string, j: nat): (n: nat)
    requires j <= |s|
    ensures j + n <= |s|
    ensures forall k | j <= k < j + n :: !IsSpace(s[k])
    ensures j + n == |s| || IsSpace(s[j + n])
    decreases |s| - j
  {
    if j < |s| && !IsSpace(s[j]) then 1 + WordRun(s, j + 1) else 0
  }

  /** Index of the last newline in `s[lo..hi]`, or -1. */
  function LastNewline(s: string, lo: nat, hi: nat): (r: int)
    requires lo <= hi <= |s|
    ensures r == -1 || lo <= r < hi
    decreases hi - lo
  {
    if hi == lo then -1 else if s[hi - 1] == '\n' then hi - 1 else LastNewline(s, lo, hi - 1)
  }

  /** `sep` occurs in `s` at `i`, compared character by character. */
  predicate SeparatorAt(s: string, sep: string, i: nat)
    requires i <= |s|
    ensures SeparatorAt(s, sep, i) ==> i + |sep| <= |s|
    decreases |sep|
  {
    sep == [] || (i < |s| && s[i] == sep[0] && SeparatorAt(s, sep[1..], i + 1))
  }

  /** A separator found character by character is the slice of `s` there. */
  lemma {:induction false} SeparatorAtIsSlice(s: string, sep: string, i: nat)
    requires i <= |s| && SeparatorAt(s, sep, i)
    ensures s[i..i + |sep|] == sep
    decreases |sep|
  {
    if sep != [] {
      SeparatorAtIsSlice(s, sep[1..], i + 1);
      assert s[i..i + |sep|] == [s[i]] + s[i + 1..i + 1 + |sep[1..]|];
      assert sep == [sep[0]] + sep[1..];
    }
  }

  /**
   * Length of the delimiter that the regular expression (or literal separator) matches
   * at position `i`, 0 when none starts there. For `\n\s*\n` the greedy `\s*` backs off
   * to the last newline of the whitespace run.
   */
  function MatchAt(d: Delimiter, s: string, i: nat): (n: nat)
    requires i <= |s|
    ensures i + n <= |s|
  {
    match d
    case Literal(sep) => if sep != [] && SeparatorAt(s, sep, i) then |sep| else 0
    case ParagraphBreak =>
      if i < |s| && s[i] == '\n' then
        var k := LastNewline(s, i + 1, i + 1 + SpaceRun(s, i + 1));
        if k < 0 then 0 else k + 1 - i
      else 0
    case SentenceEnd =>
      if i < |s| && (s[i] == '.' || s[i] == '!' || s[i] == '?') then
        var w := SpaceRun(s, i + 1);
        if w > 0 then 1 + w else 0
      else 0
  }

  /**
   * Position and length of the leftmost delimiter that starts at `i` or later, before the
   * end of `s`.
   */
  function NextMatch(d: Delimiter, s: string, i: nat): (r: Option<(nat, nat)>)
    requires i <= |s|
    ensures r.Some? ==> i <= r.value.0 && 0 < r.value.1 && r.value.0 + r.value.1 <= |s|
    decreases |s| - i
  {
    if i == |s| then None
    else
      var n := MatchAt(d, s, i);
      if n > 0 then Some((i, n)) else NextMatch(d, s, i + 1)
  }

  /** The delimiter found is a match, and no match starts between `i` and it (or before the end, when none is found). */
  lemma {:induction false} NextMatchIsLeftmost(d: Delimiter, s: string, i: nat)
    requires i <= |s|
    ensures var r := NextMatch(d, s, i);
      var stop := if r.Some? then r.value.0 else |s|;
      && (r.Some? ==> MatchAt(d, s, r.value.0) == r.value.1)
      && forall k | i <= k < stop :: MatchAt(d, s, k) == 0
    decreases |s| - i
  {
    if i < |s| && MatchAt(d, s, i) == 0 {
      NextMatchIsLeftmost(d, s, i + 1);
    }
  }

  /**
   * The delimiters of `s`, leftmost first: for each, where it starts in the text left after
   * the previous one, and its length.
   */
  function Cuts(d: Delimiter, s: string): (r: seq<(nat, nat)>)
    ensures Fits(s, r)
    decreases |s|
  {
    match NextMatch(d, s, 0)
    case None => []
    case Some((j, n)) =>
      var rest := Cuts(d, s[j + n..]);
      assert ([(j, n)] + rest)[1..] == rest;
      [(j, n)] + rest
  }

  /** Each cut is a non-empty stretch inside the text left after the previous one. */
  predicate Fits(s: string, cuts: seq<(nat, nat)>)
    decreases |cuts|
  {
    cuts == [] || (0 < cuts[0].1 && cuts[0].0 + cuts[0].1 <= |s| && Fits(s[cuts[0].0 + cuts[0].1..], cuts[1..]))
  }

  /** The text cut at `cuts`: pieces and delimiters alternating, `[piece, delim, ..., piece]`. */
  function CutAt(s: string, cuts: seq<(nat, nat)>): seq<string>
    requires Fits(s, cuts)
    decreases |cuts|
  {
    if cuts == [] then [s]
    else
      var j, n := cuts[0].0, cuts[0].1;
      [s[..j], s[j..j + n]] + CutAt(s[j + n..], cuts[1..])
  }

  /**
   * `re.split` with one capturing group around the delimiter: the text cut at its
   * delimiters.
   */
  function Parts(d: Delimiter, s: string): seq<string> {
    CutAt(s, Cuts(d, s))
  }

  /** The elements at even positions: the pieces of an alternating split. */
  function Evens<T>(xs: seq<T>): (r: seq<T>)
    ensures |r| == (|xs| + 1) / 2
    ensures forall k | 0 <= k < |r| :: r[k] == xs[2 * k]
  {
    if |xs| <= 1 then xs else [xs[0]] + Evens(xs[2..])
  }

  /** `s.split(sep)` */
  function SplitOn(s: string, sep: string): seq<string> {
    Evens(Parts(Literal(sep), s))
  }

  /** `s.split('\n')` */
  function Lines(s: string): seq<string> {
    SplitOn(s, "\n")
  }

  lemma {:induction false} ConcatCut(s: string, i: nat, n: nat, rest: seq<string>)
    requires i + n <= |s|
    requires Concat(rest) == s[i + n..]
    ensures Concat([s[..i], s[i..i + n]] + rest) == s
  {
    ConcatAppend([s[..i], s[i..i + n]], rest);
    assert Concat([s[..i], s[i..i + n]]) == s[..i] + s[i..i + n] by {
      assert Concat([s[i..i + n]]) == s[i..i + n] + Concat([]);
    }
    assert s[..i] + s[i..i + n] + s[i + n..] == s;
  }

  /** Gluing the pieces and the delimiters of a cut text back together gives the text. */
  lemma {:induction false} CutAtConcat(s: string, cuts: seq<(nat, nat)>)
    requires Fits(s, cuts)
    ensures Concat(CutAt(s, cuts)) == s
    decreases |cuts|
  {
    if cuts == [] {
      assert Concat([s]) == s + Concat([]);
    } else {
      var j, n := cuts[0].0, cuts[0].1;
      CutAtConcat(s[j + n..], cuts[1..]);
      ConcatCut(s, j, n, CutAt(s[j + n..], cuts[1..]));
    }
  }

  /** A text with `k` cuts has `k + 1` pieces and `k` delimiters. */
  lemma {:induction false} CutAtLength(s: string, cuts: seq<(nat, nat)>)
    requires Fits(s, cuts)
    ensures |CutAt(s, cuts)| == 2 * |cuts| + 1
    decreases |cuts|
  {
    if cuts != [] {
      var j, n := cuts[0].0, cuts[0].1;
      CutAtLength(s[j + n..], cuts[1..]);
    }
  }

  /** Gluing the pieces and the delimiters back together gives the text. */
  lemma {:induction false} PartsConcat(d: Delimiter, s: string)
    ensures Concat(Parts(d, s)) == s
  {
    CutAtConcat(s, Cuts(d, s));
  }

  /** There is one more piece than there are delimiters. */
  lemma {:induction false} PartsOdd(d: Delimiter, s: string)
    ensures |Parts(d, s)| == 2 * |Cuts(d, s)| + 1
  {
    CutAtLength(s, Cuts(d, s));
  }

  /** Every delimiter the cuts mark in `s` is `sep`. */
  predicate CutsAre(s: string, cuts: seq<(nat, nat)>, sep: string)
    requires Fits(s, cuts)
    decreases |cuts|
  {
    cuts == [] ||
      var j, n := cuts[0].0, cuts[0].1;
      s[j..j + n] == sep && CutsAre(s[j + n..], cuts[1..], sep)
  }

  /** The delimiters of a literal split are the separator itself. */
  lemma {:induction false} LiteralCutsAreSeparator(s: string, sep: string)
    requires sep != []
    ensures CutsAre(s, Cuts(Literal(sep), s), sep)
    decreases |s|
  {
    var d := Literal(sep);
    match NextMatch(d, s, 0)
    case None =>
      assert Cuts(d, s) == [];
    case Some((j, n)) =>
      NextMatchIsLeftmost(d, s, 0);
      SeparatorAtIsSlice(s, sep, j);
      LiteralCutsAreSeparator(s[j + n..], sep);
      var rest := Cuts(d, s[j + n..]);
      var cuts := Cuts(d, s);
      assert cuts == [(j, n)] + rest;
      assert cuts[0] == (j, n) && cuts[1..] == rest;
      assert s[j..j + n] == sep && CutsAre(s[j + n..], rest, sep);
  }

  /** Joining the pieces of a text cut at copies of `sep` with `sep` gives the text back. */
  lemma {:induction false} JoinCutPieces(s: string, cuts: seq<(nat, nat)>, sep: string)
    requires Fits(s, cuts) && CutsAre(s, cuts, sep)
    ensures Join(sep, Evens(CutAt(s, cuts))) == s && Evens(CutAt(s, cuts)) != []
    decreases |cuts|
  {
    if cuts != [] {
      var j, n := cuts[0].0, cuts[0].1;
      var rest := CutAt(s[j + n..], cuts[1..]);
      JoinCutPieces(s[j + n..], cuts[1..], sep);
      var all := CutAt(s, cuts);
      assert all[2..] == rest;
      var pieces := Evens(all);
      assert pieces == [s[..j]] + Evens(rest);
      assert pieces[1..] == Evens(rest);
      assert s[..j] + sep + s[j + n..] == s;
    }
  }

  /** `sep.join(s.split(sep)) == s`, and the split is never empty. */
  lemma {:induction false} SplitOnRoundTrip(s: string, sep: string)
    requires sep != []
    ensures Join(sep, SplitOn(s, sep)) == s && SplitOn(s, sep) != []
  {
    LiteralCutsAreSeparator(s, sep);
    JoinCutPieces(s, Cuts(Literal(sep), s), sep);
  }

  /** `s.split()`: the maximal runs of non-whitespace, in order. */
  function Words(s: string): (r: seq<string>)
    ensures forall k | 0 <= k < |r| :: IsWord(r[k])
    decreases |s|
  {
    if s == [] then []
    else if IsSpace(s[0]) then Words(s[1..])
    else
      var n := WordRun(s, 0);
      [s[..n]] + Words(s[n..])
  }

  /** A non-empty string without whitespace. */
  predicate IsWord(w: string) {
    w != [] && forall k | 0 <= k < |w| :: !IsSpace(w[k])
  }

  /** `" ".join(ws).split() == ws` for words without whitespace. */
  lemma {:induction false} WordsOfJoin(ws: seq<string>)
    requires forall k | 0 <= k < |ws| :: IsWord(ws[k])
    ensures Words(Join(" ", ws)) == ws
  {
    if ws != [] {
      var w := ws[0];
      var j := Join(" ", ws);
      assert IsWord(w);
      if |ws| == 1 {
        assert j == w;
        WordsOfWordLed(j, w, []);
      } else {
        var rest := Join(" ", ws[1..]);
        assert j == w + " " + rest;
        WordsOfJoin(ws[1..]);
        WordsOfWordLed(j, w, " " + rest);
        assert Words(" " + rest) == Words(rest) by {
          assert (" " + rest)[1..] == rest;
        }
        assert [w] + ws[1..] == ws;
      }
    }
  }

  /** `" ".join(ws)` of a non-empty list of words neither starts nor ends with whitespace. */
  lemma {:induction false} JoinedWordsTrimmed(ws: seq<string>)
    requires ws != [] && forall k | 0 <= k < |ws| :: IsWord(ws[k])
    ensures Join(" ", ws) != [] && Trimmed(Join(" ", ws))
  {
    assert IsWord(ws[0]);
    if |ws| > 1 {
      JoinedWordsTrimmed(ws[1..]);
      var rest := Join(" ", ws[1..]);
      var j := ws[0] + " " + rest;
      assert Join(" ", ws) == j;
      assert j[0] == ws[0][0];
      assert j[|j| - 1] == rest[|rest| - 1];
    }
  }

  /** A text that starts with a word followed by a space or the end splits off that word first. */
  lemma {:induction false} WordsOfWordLed(j: string, w: string, tail: string)
    requires IsWord(w) && j == w + tail && (tail == [] || IsSpace(tail[0]))
    ensures Words(j) == [w] + Words(tail)
  {
    assert j[0] == w[0];
    var n := WordRun(j, 0);
    assert forall k | 0 <= k < |w| :: j[k] == w[k] && !IsSpace(j[k]);
    assert |w| < |j| ==> j[|w|] == tail[0] && IsSpace(j[|w|]);
    assert n == |w|;
    assert j[..n] == w;
    assert j[n..] == tail;
  }
}
