/**
 * `_split_text_into_chunks` of the summarizer: the text is cut into paragraphs at blank
 * lines and packed greedily; a paragraph over the budget first closes the pending chunk
 * and is then packed sentence by sentence. Chunks are their pieces joined by blank lines.
 */
module SummaryChunks {
  import opened Text
  import opened Splitting
  import opened Chunking

  /** `re.split(r'\n\s*\n', text)` */
  function Paragraphs(text: string): seq<string> {
    Evens(Parts(ParagraphBreak, text))
  }

  /** The pairs `sentences[i] + sentences[i + 1]` for even `i`, the last part alone when it has no partner. */
  function PairUp(parts: seq<string>): (r: seq<string>)
    ensures |r| == (|parts| + 1) / 2
  {
    if |parts| <= 1 then parts else [parts[0] + parts[1]] + PairUp(parts[2..])
  }

  /** Pair `k` glues parts `2k` and `2k + 1`, or is the last part alone. */
  lemma {:induction false} PairUpAt(parts: seq<string>, k: nat)
    requires k < |PairUp(parts)|
    ensures PairUp(parts)[k] == if 2 * k + 1 < |parts| then parts[2 * k] + parts[2 * k + 1] else parts[2 * k]
  {
    if k > 0 {
      PairUpAt(parts[2..], k - 1);
    }
  }

  /** The sentences of a paragraph: each piece of `re.split(r'([.!?]\s+)', ...)` with its delimiter. */
  function Sentences(paragraph: string): seq<string> {
    PairUp(Parts(SentenceEnd, paragraph))
  }

  lemma {:induction false} PairUpConcat(parts: seq<string>)
    ensures Concat(PairUp(parts)) == Concat(parts)
  {
    if |parts| > 1 {
      PairUpConcat(parts[2..]);
      assert parts == [parts[0], parts[1]] + parts[2..];
      ConcatAppend([parts[0], parts[1]], parts[2..]);
      ConcatAppend([parts[0] + parts[1]], PairUp(parts[2..]));
      assert Concat([parts[0], parts[1]]) == parts[0] + (parts[1] + Concat([]));
      assert Concat([parts[0] + parts[1]]) == parts[0] + parts[1] + Concat([]);
    }
  }

  /** A paragraph has at least one sentence, and its sentences glued together are the paragraph. */
  lemma {:induction false} SentencesRebuildParagraph(paragraph: string)
    ensures Sentences(paragraph) != []
    ensures Concat(Sentences(paragraph)) == paragraph
  {
    PartsConcat(SentenceEnd, paragraph);
    PairUpConcat(Parts(SentenceEnd, paragraph));
  }

  /** One paragraph: one piece, or, over the budget, a closed pending chunk and then its sentences. */
  function ParagraphStep(st: Packing, paragraph: string, maxTokens: int): Packing {
    if EstimateTokens(paragraph) > maxTokens then Pack(Flush(st), Sentences(paragraph), maxTokens)
    else Add(st, paragraph, maxTokens)
  }

  /** The paragraphs `ps` one after the other. */
  function PackParagraphs(st: Packing, ps: seq<string>, maxTokens: int): Packing {
    if ps == [] then st
    else ParagraphStep(PackParagraphs(st, ps[..|ps| - 1], maxTokens), ps[|ps| - 1], maxTokens)
  }

  /** The pieces a paragraph contributes. */
  function PiecesOf(paragraph: string, maxTokens: int): seq<string> {
    if EstimateTokens(paragraph) > maxTokens then Sentences(paragraph) else [paragraph]
  }

  /** The pieces of the paragraphs: oversize paragraphs replaced by their sentences. */
  function Pieces(ps: seq<string>, maxTokens: int): seq<string> {
    if ps == [] then [] else Pieces(ps[..|ps| - 1], maxTokens) + PiecesOf(ps[|ps| - 1], maxTokens)
  }

  /** The groups of pieces the loop closes for the paragraphs `ps`. */
  function GroupsOf(ps: seq<string>, maxTokens: int): seq<seq<string>> {
    Close(PackParagraphs(Start, ps, maxTokens))
  }

  /** `'\n\n'.join(group)` for every group. */
  function JoinEach(gs: seq<seq<string>>): (r: seq<string>)
    ensures |r| == |gs|
  {
    if gs == [] then [] else JoinEach(gs[..|gs| - 1]) + [Join("\n\n", gs[|gs| - 1])]
  }

  /** Each chunk is its group joined by blank lines. */
  lemma {:induction false} JoinEachAt(gs: seq<seq<string>>, i: nat)
    requires i < |gs|
    ensures JoinEach(gs)[i] == Join("\n\n", gs[i])
  {
    if i < |gs| - 1 {
      JoinEachAt(gs[..|gs| - 1], i);
    }
  }

  /** Closing one more group adds its joined text at the end. */
  lemma {:induction false} JoinEachSnoc(gs: seq<seq<string>>, g: seq<string>)
    ensures JoinEach(gs + [g]) == JoinEach(gs) + [Join("\n\n", g)]
  {
    assert (gs + [g])[..|gs|] == gs;
  }

  /** The chunks `_split_text_into_chunks` returns; a text within the budget comes back whole. */
  function SummaryChunks(text: string, maxTokens: int): (r: seq<string>)
    ensures r != []
    ensures EstimateTokens(text) <= maxTokens ==> r == [text]
  {
    if EstimateTokens(text) <= maxTokens then [text]
    else
      var ps := Paragraphs(text);
      PackParagraphsFacts(Start, ps, maxTokens);
      JoinEach(GroupsOf(ps, maxTokens))
  }

  /** What a step leaves behind: the invariant, a pending chunk, and the pieces laid down in order. */
  predicate StepKeeps(st: Packing, r: Packing, pieces: seq<string>, maxTokens: int) {
    && Packed(r, maxTokens) && r.current != []
    && Flatten(r.chunks) + r.current == Flatten(st.chunks) + st.current + pieces
  }

  /** One paragraph keeps the invariant and lays its pieces down after what was there. */
  lemma {:induction false} ParagraphStepFacts(st: Packing, paragraph: string, maxTokens: int)
    requires Packed(st, maxTokens)
    ensures StepKeeps(st, ParagraphStep(st, paragraph, maxTokens), PiecesOf(paragraph, maxTokens), maxTokens)
  {
    if EstimateTokens(paragraph) > maxTokens {
      SentencesRebuildParagraph(paragraph);
      FlushThenPack(st, Sentences(paragraph), maxTokens);
    } else {
      AddKeepsPacked(st, paragraph, maxTokens);
      AddCovers(st, paragraph, maxTokens);
    }
  }

  /** Closing the pending chunk and packing some pieces lays them down after what was there. */
  lemma {:induction false} FlushThenPack(st: Packing, xs: seq<string>, maxTokens: int)
    requires Packed(st, maxTokens) && xs != []
    ensures StepKeeps(st, Pack(Flush(st), xs, maxTokens), xs, maxTokens)
  {
    FlushFacts(st, maxTokens);
    PackFacts(Flush(st), xs, maxTokens);
  }

  /** Packing paragraphs keeps the invariant and lays their pieces down after what was there. */
  lemma {:induction false} PackParagraphsFacts(st: Packing, ps: seq<string>, maxTokens: int)
    requires Packed(st, maxTokens)
    ensures Packed(PackParagraphs(st, ps, maxTokens), maxTokens)
    ensures ps != [] ==> StepKeeps(st, PackParagraphs(st, ps, maxTokens), Pieces(ps, maxTokens), maxTokens)
  {
    if ps != [] {
      var init := ps[..|ps| - 1];
      var last := ps[|ps| - 1];
      var before := PackParagraphs(st, init, maxTokens);
      PackParagraphsFacts(st, init, maxTokens);
      ParagraphStepFacts(before, last, maxTokens);
      if init == [] {
        assert before == st;
        assert Pieces(ps, maxTokens) == PiecesOf(last, maxTokens);
      } else {
        AppendStep(st, before, ParagraphStep(before, last, maxTokens), Pieces(init, maxTokens), PiecesOf(last, maxTokens), maxTokens);
      }
    }
  }

  /** Two steps in a row lay down both lists of pieces. */
  lemma {:induction false} AppendStep(st: Packing, mid: Packing, r: Packing, xs: seq<string>, ys: seq<string>, maxTokens: int)
    requires StepKeeps(st, mid, xs, maxTokens) && StepKeeps(mid, r, ys, maxTokens)
    ensures StepKeeps(st, r, xs + ys, maxTokens)
  {
  }

  /**
   * Over the budget, the chunks come from groups holding the pieces in order (the
   * paragraphs, oversize ones replaced by their sentences); each group has pieces and keeps
   * the budget unless it is a single piece; each chunk is its group joined by blank lines.
   */
  lemma {:induction false} SummaryChunksShape(text: string, maxTokens: int) returns (groups: seq<seq<string>>)
    requires EstimateTokens(text) > maxTokens
    ensures var r := SummaryChunks(text, maxTokens);
      && |groups| == |r|
      && (forall i | 0 <= i < |r| :: r[i] == Join("\n\n", groups[i]))
      && (forall i | 0 <= i < |groups| :: groups[i] != [] && WithinBudget(groups[i], maxTokens))
      && Flatten(groups) == Pieces(Paragraphs(text), maxTokens)
  {
    var ps := Paragraphs(text);
    var st := PackParagraphs(Start, ps, maxTokens);
    PackParagraphsFacts(Start, ps, maxTokens);
    CloseFacts(st, maxTokens);
    groups := GroupsOf(ps, maxTokens);
    forall i | 0 <= i < |groups|
      ensures SummaryChunks(text, maxTokens)[i] == Join("\n\n", groups[i])
    {
      JoinEachAt(groups, i);
    }
  }

  // An oversize paragraph starts a chunk of its own.

  lemma {:induction false} FlushShift(cs: seq<seq<string>>, st: Packing)
    ensures Flush(Shift(cs, st)) == Shift(cs, Flush(st))
  {
    if st.current != [] {
      assert cs + st.chunks + [st.current] == cs + (st.chunks + [st.current]);
    }
  }

  lemma {:induction false} ParagraphStepShift(cs: seq<seq<string>>, st: Packing, paragraph: string, maxTokens: int)
    ensures ParagraphStep(Shift(cs, st), paragraph, maxTokens) == Shift(cs, ParagraphStep(st, paragraph, maxTokens))
  {
    if EstimateTokens(paragraph) > maxTokens {
      FlushShift(cs, st);
      PackShift(cs, Flush(st), Sentences(paragraph), maxTokens);
    } else {
      AddShift(cs, st, paragraph, maxTokens);
    }
  }

  lemma {:induction false} PackParagraphsShift(cs: seq<seq<string>>, st: Packing, ps: seq<string>, maxTokens: int)
    ensures PackParagraphs(Shift(cs, st), ps, maxTokens) == Shift(cs, PackParagraphs(st, ps, maxTokens))
  {
    if ps != [] {
      var init := ps[..|ps| - 1];
      PackParagraphsShift(cs, st, init, maxTokens);
      ParagraphStepShift(cs, PackParagraphs(st, init, maxTokens), ps[|ps| - 1], maxTokens);
    }
  }

  lemma {:induction false} PackParagraphsAppend(st: Packing, xs: seq<string>, ys: seq<string>, maxTokens: int)
    ensures PackParagraphs(st, xs + ys, maxTokens) == PackParagraphs(PackParagraphs(st, xs, maxTokens), ys, maxTokens)
  {
    if ys == [] {
      assert xs + ys == xs;
    } else {
      var init := ys[..|ys| - 1];
      PackParagraphsAppend(st, xs, init, maxTokens);
      assert (xs + ys)[..|xs + ys| - 1] == xs + init;
    }
  }

  /** Over the budget, a paragraph's step from a state is its step from a fresh start, behind the closed chunks. */
  lemma {:induction false} OversizeStepIsShifted(st: Packing, p: string, maxTokens: int)
    requires Packed(st, maxTokens) && EstimateTokens(p) > maxTokens
    ensures ParagraphStep(st, p, maxTokens) == Shift(Close(st), ParagraphStep(Start, p, maxTokens))
  {
    FlushIsShiftedStart(st, maxTokens);
    PackShift(Close(st), Start, Sentences(p), maxTokens);
  }

  /** Packing `[p] + rest` is packing `rest` after the step of `p`. */
  lemma {:induction false} PackFirst(st: Packing, p: string, rest: seq<string>, maxTokens: int)
    ensures PackParagraphs(st, [p] + rest, maxTokens) == PackParagraphs(ParagraphStep(st, p, maxTokens), rest, maxTokens)
  {
    PackParagraphsAppend(st, [p], rest, maxTokens);
    assert [p][..0] == [];
  }

  /**
   * A paragraph over the budget never shares a chunk with what came before it: the groups
   * of all paragraphs are those of the paragraphs before it followed by those of the rest.
   */
  lemma {:induction false} OversizeParagraphStartsChunk(ps: seq<string>, k: nat, maxTokens: int)
    requires k < |ps| && EstimateTokens(ps[k]) > maxTokens
    ensures GroupsOf(ps, maxTokens) == GroupsOf(ps[..k], maxTokens) + GroupsOf(ps[k..], maxTokens)
  {
    var pre := ps[..k];
    var p := ps[k];
    var rest := ps[k + 1..];
    var st := PackParagraphs(Start, pre, maxTokens);
    var cs := Close(st);
    var opening := ParagraphStep(Start, p, maxTokens);
    assert ps == pre + ([p] + rest);
    assert [p] + rest == ps[k..];
    PackParagraphsAppend(Start, pre, [p] + rest, maxTokens);
    PackFirst(st, p, rest, maxTokens);
    PackFirst(Start, p, rest, maxTokens);
    PackParagraphsFacts(Start, pre, maxTokens);
    OversizeStepIsShifted(st, p, maxTokens);
    PackParagraphsShift(cs, opening, rest, maxTokens);
    CloseShift(cs, PackParagraphs(opening, rest, maxTokens));
  }

  /** The loop of `_split_text_into_chunks`. */
  method SplitTextIntoChunks(text: string, maxTokens: int) returns (chunks: seq<string>)
    ensures chunks == SummaryChunks(text, maxTokens)
  {
    if EstimateTokens(text) <= maxTokens {
      return [text];
    }
    chunks := [];
    var paragraphs := Paragraphs(text);
    var currentChunk: seq<string> := [];
    var currentTokens := 0;
    ghost var closed: seq<seq<string>> := [];
    for k := 0 to |paragraphs|
      invariant Packing(closed, currentChunk, currentTokens) == PackParagraphs(Start, paragraphs[..k], maxTokens)
      invariant chunks == JoinEach(closed)
    {
      var paragraph := paragraphs[k];
      var paraTokens := EstimateTokens(paragraph);
      assert paragraphs[..k + 1][..k] == paragraphs[..k];
      ghost var before := Packing(closed, currentChunk, currentTokens);
      if paraTokens > maxTokens {
        if currentChunk != [] {
          JoinEachSnoc(closed, currentChunk);
          chunks := chunks + [Join("\n\n", currentChunk)];
          closed := closed + [currentChunk];
          currentChunk := [];
          currentTokens := 0;
        }
        var sentences := Parts(SentenceEnd, paragraph);
        chunks, closed, currentChunk, currentTokens :=
          PackSentences(sentences, maxTokens, chunks, closed, currentChunk, currentTokens);
      } else {
        chunks, closed, currentChunk, currentTokens :=
          AddPiece(chunks, closed, currentChunk, currentTokens, paragraph, maxTokens);
      }
    }
    assert paragraphs[..|paragraphs|] == paragraphs;
    if currentChunk != [] {
      chunks := chunks + [Join("\n\n", currentChunk)];
    }
  }

  /** The sentence loop for a paragraph over the budget, over the parts of its split. */
  method PackSentences(sentences: seq<string>, maxTokens: int, chunks0: seq<string>, ghost closed0: seq<seq<string>>,
                       current0: seq<string>, tokens0: int)
    returns (chunks: seq<string>, ghost closed: seq<seq<string>>, currentChunk: seq<string>, currentTokens: int)
    requires chunks0 == JoinEach(closed0)
    ensures chunks == JoinEach(closed)
    ensures Packing(closed, currentChunk, currentTokens)
         == Pack(Packing(closed0, current0, tokens0), PairUp(sentences), maxTokens)
  {
    ghost var pairs := PairUp(sentences);
    ghost var start := Packing(closed0, current0, tokens0);
    chunks, closed, currentChunk, currentTokens := chunks0, closed0, current0, tokens0;
    var i := 0;
    ghost var j := 0;
    while i < |sentences|
      invariant i == 2 * j && j <= |pairs|
      invariant Packing(closed, currentChunk, currentTokens) == Pack(start, pairs[..j], maxTokens)
      invariant chunks == JoinEach(closed)
    {
      var sentence := if i + 1 < |sentences| then sentences[i] + sentences[i + 1] else sentences[i];
      PairUpAt(sentences, j);
      PackOneMore(start, pairs, j, maxTokens);
      chunks, closed, currentChunk, currentTokens :=
        AddPiece(chunks, closed, currentChunk, currentTokens, sentence, maxTokens);
      i := i + 2;
      j := j + 1;
    }
    assert pairs[..j] == pairs;
  }

  /** One step of either loop: close the current chunk when `piece` would overflow it, then add `piece`. */
  method AddPiece(chunks0: seq<string>, ghost closed0: seq<seq<string>>, current0: seq<string>, tokens0: int,
                  piece: string, maxTokens: int)
    returns (chunks: seq<string>, ghost closed: seq<seq<string>>, currentChunk: seq<string>, currentTokens: int)
    requires chunks0 == JoinEach(closed0)
    ensures chunks == JoinEach(closed)
    ensures Packing(closed, currentChunk, currentTokens) == Add(Packing(closed0, current0, tokens0), piece, maxTokens)
  {
    var pieceTokens := EstimateTokens(piece);
    if tokens0 + pieceTokens > maxTokens && current0 != [] {
      JoinEachSnoc(closed0, current0);
      chunks := chunks0 + [Join("\n\n", current0)];
      closed := closed0 + [current0];
      currentChunk := [piece];
      currentTokens := pieceTokens;
    } else {
      chunks, closed := chunks0, closed0;
      currentChunk := current0 + [piece];
      currentTokens := tokens0 + pieceTokens;
    }
  }

  /** Packing one more piece of `xs` is adding it to what the earlier ones left. */
  lemma {:induction false} PackOneMore(start: Packing, xs: seq<string>, j: nat, maxTokens: int)
    requires j < |xs|
    ensures Pack(start, xs[..j + 1], maxTokens) == Add(Pack(start, xs[..j], maxTokens), xs[j], maxTokens)
  {
    assert xs[..j + 1][..j] == xs[..j];
  }
}
