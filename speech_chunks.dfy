/**
 * `CartesiaService._split_text_into_chunks`: the text is cut at every ". " and the
 * sentences are packed greedily; a chunk closed inside the loop is its sentences joined
 * by ". " with a final "." put back, the last chunk gets no "." added.
 */
module SpeechChunks {
  import opened Text
  import opened Splitting
  import opened Chunking

  /** A chunk closed inside the loop: `'. '.join(current_chunk) + '.'`. */
  function Dotted(g: seq<string>): string {
    Join(". ", g) + "."
  }

  function DottedAll(gs: seq<seq<string>>): (r: seq<string>)
    ensures |r| == |gs| && forall i | 0 <= i < |gs| :: r[i] == Dotted(gs[i])
  {
    seq(|gs|, i requires 0 <= i < |gs| => Dotted(gs[i]))
  }

  /** `text.split('. ')` */
  function Sentences(text: string): seq<string> {
    SplitOn(text, ". ")
  }

  /** The chunks `_split_text_into_chunks` returns; a text within the budget comes back whole. */
  function SpeechChunks(text: string, maxTokens: int): (r: seq<string>)
    ensures r != []
    ensures EstimateTokens(text) <= maxTokens ==> r == [text]
  {
    if EstimateTokens(text) <= maxTokens then [text]
    else
      var sentences := Sentences(text);
      var st := Pack(Start, sentences, maxTokens);
      SplitOnRoundTrip(text, ". ");
      PackFacts(Start, sentences, maxTokens);
      DottedAll(st.chunks) + (if st.current != [] then [Join(". ", st.current)] else [])
  }

  /** Closing with a "." and gluing with " " is joining the sentences with ". ". */
  lemma {:induction false} DottedJoin(gs: seq<seq<string>>, cur: seq<string>)
    requires forall i | 0 <= i < |gs| :: gs[i] != []
    requires cur != []
    ensures Join(" ", DottedAll(gs) + [Join(". ", cur)]) == Join(". ", Flatten(gs) + cur)
  {
    var last := Join(". ", cur);
    if gs == [] {
      assert DottedAll(gs) + [last] == [last];
      assert Flatten(gs) + cur == cur;
    } else {
      var g := gs[0];
      var rest := gs[1..];
      DottedJoin(rest, cur);
      var tail := DottedAll(rest) + [last];
      assert DottedAll(gs) + [last] == [Dotted(g)] + tail;
      JoinAppend(" ", [Dotted(g)], tail);
      assert Flatten(gs) + cur == g + (Flatten(rest) + cur);
      JoinAppend(". ", g, Flatten(rest) + cur);
      assert ". " == "." + " ";
    }
  }

  /** `" ".join(chunks)` gives back the text, whatever the budget. */
  lemma {:induction false} SpeechChunksRoundTrip(text: string, maxTokens: int)
    ensures Join(" ", SpeechChunks(text, maxTokens)) == text
  {
    if EstimateTokens(text) > maxTokens {
      var sentences := Sentences(text);
      var st := Pack(Start, sentences, maxTokens);
      SplitOnRoundTrip(text, ". ");
      PackFacts(Start, sentences, maxTokens);
      assert Flatten(st.chunks) + st.current == sentences;
      DottedJoin(st.chunks, st.current);
    }
  }

  /**
   * Over the budget, the chunks come from groups of sentences that hold every sentence
   * once, in order; each group has sentences and keeps the budget unless it is a single
   * sentence; every chunk but the last is its group joined by ". " plus ".", the last
   * without the ".".
   */
  lemma {:induction false} SpeechChunksShape(text: string, maxTokens: int) returns (groups: seq<seq<string>>)
    requires EstimateTokens(text) > maxTokens
    ensures var r := SpeechChunks(text, maxTokens);
      && |groups| == |r|
      && (forall i | 0 <= i < |r| - 1 :: r[i] == Join(". ", groups[i]) + ".")
      && r[|r| - 1] == Join(". ", groups[|r| - 1])
      && (forall i | 0 <= i < |groups| :: groups[i] != [] && WithinBudget(groups[i], maxTokens))
      && Flatten(groups) == Sentences(text)
  {
    var sentences := Sentences(text);
    var st := Pack(Start, sentences, maxTokens);
    SplitOnRoundTrip(text, ". ");
    PackFacts(Start, sentences, maxTokens);
    CloseFacts(st, maxTokens);
    groups := Close(st);
    var r := SpeechChunks(text, maxTokens);
    assert r == DottedAll(st.chunks) + [Join(". ", st.current)];
    forall i | 0 <= i < |r| - 1
      ensures r[i] == Join(". ", groups[i]) + "."
    {
      assert r[i] == DottedAll(st.chunks)[i];
    }
  }

  /** The loop of `_split_text_into_chunks` (a `max_tokens` of 2000 when the caller gives none). */
  method SplitTextIntoChunks(text: string, maxTokens: int) returns (chunks: seq<string>)
    ensures chunks == SpeechChunks(text, maxTokens)
  {
    if EstimateTokens(text) <= maxTokens {
      return [text];
    }
    chunks := [];
    var sentences := Sentences(text);
    var currentChunk: seq<string> := [];
    var currentTokens := 0;
    ghost var closed: seq<seq<string>> := [];
    for k := 0 to |sentences|
      invariant Packing(closed, currentChunk, currentTokens) == Pack(Start, sentences[..k], maxTokens)
      invariant chunks == DottedAll(closed)
    {
      var sentence := sentences[k];
      var sentenceTokens := EstimateTokens(sentence);
      assert sentences[..k + 1][..k] == sentences[..k];
      if currentTokens + sentenceTokens > maxTokens && currentChunk != [] {
        chunks := chunks + [Join(". ", currentChunk) + "."];
        closed := closed + [currentChunk];
        currentChunk := [sentence];
        currentTokens := sentenceTokens;
      } else {
        currentChunk := currentChunk + [sentence];
        currentTokens := currentTokens + sentenceTokens;
      }
    }
    assert sentences[..|sentences|] == sentences;
    if currentChunk != [] {
      chunks := chunks + [Join(". ", currentChunk)];
    }
  }
}
