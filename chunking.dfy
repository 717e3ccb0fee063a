/**
 * The greedy token-budget packing both text chunkers share: pieces are taken in order
 * and appended to the pending chunk while its estimated tokens stay within the budget;
 * a piece that would overflow a non-empty pending chunk closes it and starts the next.
 */
module Chunking {
  import opened Text

  /** `len(text) // 4`: roughly one token per four characters. */
  function EstimateTokens(text: string): (n: int)
    ensures 0 <= n && 4 * n <= |text| < 4 * n + 4
  {
    |text| / 4
  }

  /**
   * The loop state: the closed chunks (as their pieces), `current_chunk` and
   * `current_tokens`.
   */
  datatype Packing = Packing(chunks: seq<seq<string>>, current: seq<string>, tokens: int)

  const Start: Packing := Packing([], [], 0)

  /** The estimated tokens of a chunk's pieces. */
  function ChunkTokens(g: seq<string>): int {
    if g == [] then 0 else ChunkTokens(g[..|g| - 1]) + EstimateTokens(g[|g| - 1])
  }

  /** One piece: close the pending chunk first when the piece would push it over the budget. */
  function Add(st: Packing, piece: string, maxTokens: int): Packing {
    var t := EstimateTokens(piece);
    if st.tokens + t > maxTokens && st.current != [] then
      Packing(st.chunks + [st.current], [piece], t)
    else
      Packing(st.chunks, st.current + [piece], st.tokens + t)
  }

  /** The pieces `xs` one after the other. */
  function Pack(st: Packing, xs: seq<string>, maxTokens: int): Packing {
    if xs == [] then st else Add(Pack(st, xs[..|xs| - 1], maxTokens), xs[|xs| - 1], maxTokens)
  }

  /** Close the pending chunk, if it has pieces. */
  function Flush(st: Packing): Packing {
    if st.current != [] then Packing(st.chunks + [st.current], [], 0) else st
  }

  /** The chunks once the pending one is closed. */
  function Close(st: Packing): seq<seq<string>> {
    if st.current != [] then st.chunks + [st.current] else st.chunks
  }

  /** The pieces of the chunks, chunk after chunk. */
  function Flatten(gs: seq<seq<string>>): seq<string> {
    if gs == [] then [] else gs[0] + Flatten(gs[1..])
  }

  /** A chunk within the budget, or one that holds a single piece. */
  predicate WithinBudget(g: seq<string>, maxTokens: int) {
    |g| == 1 || ChunkTokens(g) <= maxTokens
  }

  /**
   * The invariant of the loop: every closed chunk has pieces and keeps the budget, so does
   * the pending one, and `current_tokens` is the estimate of the pending pieces.
   */
  predicate Packed(st: Packing, maxTokens: int) {
    && (forall i | 0 <= i < |st.chunks| :: st.chunks[i] != [] && WithinBudget(st.chunks[i], maxTokens))
    && (st.current != [] ==> WithinBudget(st.current, maxTokens))
    && st.tokens == ChunkTokens(st.current)
  }

  lemma {:induction false} FlattenAppend(gs: seq<seq<string>>, g: seq<string>)
    ensures Flatten(gs + [g]) == Flatten(gs) + g
  {
    if gs != [] {
      assert (gs + [g])[1..] == gs[1..] + [g];
      FlattenAppend(gs[1..], g);
    } else {
      assert Flatten([g]) == g + Flatten([]);
    }
  }

  /** A piece keeps the invariant and leaves the pending chunk non-empty. */
  lemma {:induction false} AddKeepsPacked(st: Packing, piece: string, maxTokens: int)
    requires Packed(st, maxTokens)
    ensures Packed(Add(st, piece, maxTokens), maxTokens)
    ensures Add(st, piece, maxTokens).current != []
  {
    var t := EstimateTokens(piece);
    var next := Add(st, piece, maxTokens);
    if st.tokens + t > maxTokens && st.current != [] {
      assert next == Packing(st.chunks + [st.current], [piece], t);
      forall i | 0 <= i < |next.chunks|
        ensures next.chunks[i] != [] && WithinBudget(next.chunks[i], maxTokens)
      {
        if i == |st.chunks| {
          assert next.chunks[i] == st.current;
        } else {
          assert next.chunks[i] == st.chunks[i];
        }
      }
      assert [piece][..0] == [];
      assert ChunkTokens([piece]) == ChunkTokens([]) + t;
      assert WithinBudget(next.current, maxTokens);
    } else {
      assert next == Packing(st.chunks, st.current + [piece], st.tokens + t);
      assert next.current[..|next.current| - 1] == st.current;
      assert ChunkTokens(next.current) == ChunkTokens(st.current) + t;
      if st.current == [] {
        assert |next.current| == 1;
      }
      assert WithinBudget(next.current, maxTokens);
    }
  }

  /** Each piece lands at the end of the chunks: nothing is dropped or reordered. */
  lemma {:induction false} AddCovers(st: Packing, piece: string, maxTokens: int)
    ensures var next := Add(st, piece, maxTokens);
      Flatten(next.chunks) + next.current == Flatten(st.chunks) + st.current + [piece]
  {
    if st.tokens + EstimateTokens(piece) > maxTokens && st.current != [] {
      FlattenAppend(st.chunks, st.current);
    }
  }

  /**
   * Packing pieces keeps the invariant, lays the pieces down in order after what was
   * there, and leaves a pending chunk as soon as there was a piece.
   */
  lemma {:induction false} PackFacts(st: Packing, xs: seq<string>, maxTokens: int)
    requires Packed(st, maxTokens)
    ensures var r := Pack(st, xs, maxTokens);
      && Packed(r, maxTokens)
      && Flatten(r.chunks) + r.current == Flatten(st.chunks) + st.current + xs
      && (xs != [] ==> r.current != [])
  {
    PackKeepsPacked(st, xs, maxTokens);
    PackLaysDown(st, xs, maxTokens);
  }

  /** The invariant half of `PackFacts`. */
  lemma {:induction false} PackKeepsPacked(st: Packing, xs: seq<string>, maxTokens: int)
    requires Packed(st, maxTokens)
    ensures Packed(Pack(st, xs, maxTokens), maxTokens)
    ensures xs != [] ==> Pack(st, xs, maxTokens).current != []
  {
    if xs != [] {
      PackKeepsPacked(st, xs[..|xs| - 1], maxTokens);
      AddKeepsPacked(Pack(st, xs[..|xs| - 1], maxTokens), xs[|xs| - 1], maxTokens);
    }
  }

  /** The order half of `PackFacts`. */
  lemma {:induction false} PackLaysDown(st: Packing, xs: seq<string>, maxTokens: int)
    ensures var r := Pack(st, xs, maxTokens);
      Flatten(r.chunks) + r.current == Flatten(st.chunks) + st.current + xs
  {
    if xs != [] {
      var init := xs[..|xs| - 1];
      var last := xs[|xs| - 1];
      PackLaysDown(st, init, maxTokens);
      AddCovers(Pack(st, init, maxTokens), last, maxTokens);
      assert init + [last] == xs;
    }
  }

  /** Closing the pending chunk keeps the invariant and the order of the pieces. */
  lemma {:induction false} FlushFacts(st: Packing, maxTokens: int)
    requires Packed(st, maxTokens)
    ensures var r := Flush(st);
      && Packed(r, maxTokens) && r.current == []
      && Flatten(r.chunks) == Flatten(st.chunks) + st.current
  {
    if st.current != [] {
      FlattenAppend(st.chunks, st.current);
    } else {
      assert st.current == [];
    }
  }

  /** The closed-up chunks all have pieces, keep the budget, and hold the pieces in order. */
  lemma {:induction false} CloseFacts(st: Packing, maxTokens: int)
    requires Packed(st, maxTokens)
    ensures var gs := Close(st);
      && (forall i | 0 <= i < |gs| :: gs[i] != [] && WithinBudget(gs[i], maxTokens))
      && Flatten(gs) == Flatten(st.chunks) + st.current
  {
    if st.current != [] {
      FlattenAppend(st.chunks, st.current);
    }
  }

  // Putting chunks in front of the state changes nothing else.

  function Shift(cs: seq<seq<string>>, st: Packing): Packing {
    Packing(cs + st.chunks, st.current, st.tokens)
  }

  lemma {:induction false} AddShift(cs: seq<seq<string>>, st: Packing, piece: string, maxTokens: int)
    ensures Add(Shift(cs, st), piece, maxTokens) == Shift(cs, Add(st, piece, maxTokens))
  {
    if st.tokens + EstimateTokens(piece) > maxTokens && st.current != [] {
      assert cs + st.chunks + [st.current] == cs + (st.chunks + [st.current]);
    }
  }

  /** Packing does not look at the chunks closed before it. */
  lemma {:induction false} PackShift(cs: seq<seq<string>>, st: Packing, xs: seq<string>, maxTokens: int)
    ensures Pack(Shift(cs, st), xs, maxTokens) == Shift(cs, Pack(st, xs, maxTokens))
  {
    if xs != [] {
      PackShift(cs, st, xs[..|xs| - 1], maxTokens);
      AddShift(cs, Pack(st, xs[..|xs| - 1], maxTokens), xs[|xs| - 1], maxTokens);
    }
  }

  lemma {:induction false} CloseShift(cs: seq<seq<string>>, st: Packing)
    ensures Close(Shift(cs, st)) == cs + Close(st)
  {
    if st.current != [] {
      assert cs + st.chunks + [st.current] == cs + (st.chunks + [st.current]);
    }
  }

  /** Closing a state that keeps the invariant leaves a fresh start behind the closed chunks. */
  lemma {:induction false} FlushIsShiftedStart(st: Packing, maxTokens: int)
    requires Packed(st, maxTokens)
    ensures Flush(st) == Shift(Close(st), Start)
  {
    if st.current == [] {
      assert st.tokens == 0;
    }
  }
}
