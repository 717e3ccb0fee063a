/**
 * The shape shared by the page loops of the processor and of the table extractor: walk
 * the items in order, numbering them from 1, and keep the record each item yields.
 */
module Collecting {
  import opened Wrappers

  /** What one item of a page loop contributes: a raise that ends the loop, nothing, or a record. */
  datatype Step<R> = Raise | Skip | Keep(record: R)

  /** The records the first `n` items yield, in order; `None` once one of them has raised. */
  function CollectUpTo<G, R>(xs: seq<G>, step: (G, nat) -> Step<R>, n: nat): (r: Option<seq<R>>)
    requires n <= |xs|
    ensures r.Some? ==> |r.value| <= n
  {
    if n == 0 then Some([])
    else
      var before := CollectUpTo(xs, step, n - 1);
      if before.None? then None
      else match step(xs[n - 1], n)
        case Raise => None
        case Skip => before
        case Keep(t) => Some(before.value + [t])
  }

  /**
   * Each collected record comes from the item at its 1-based position `origin[i]`, and the
   * positions increase.
   */
  lemma {:induction false} CollectOrigins<G, R>(xs: seq<G>, step: (G, nat) -> Step<R>, n: nat) returns (origin: seq<nat>)
    requires n <= |xs| && CollectUpTo(xs, step, n).Some?
    ensures var r := CollectUpTo(xs, step, n).value;
      && |origin| == |r|
      && (forall i | 0 <= i < |r| :: 1 <= origin[i] <= n && step(xs[origin[i] - 1], origin[i]) == Keep(r[i]))
      && (forall i, j | 0 <= i < j < |r| :: origin[i] < origin[j])
  {
    if n == 0 {
      origin := [];
    } else {
      var o := CollectOrigins(xs, step, n - 1);
      assert step(xs[n - 1], n) != Raise;
      if step(xs[n - 1], n).Keep? {
        origin := o + [n];
      } else {
        origin := o;
      }
    }
  }

  /** One more item: the collection grows by its record, stays, or fails, as its step says. */
  lemma {:induction false} CollectNext<G, R>(xs: seq<G>, step: (G, nat) -> Step<R>, n: nat, acc: seq<R>)
    requires n < |xs| && CollectUpTo(xs, step, n) == Some(acc)
    ensures step(xs[n], n + 1).Raise? ==> CollectUpTo(xs, step, n + 1).None?
    ensures step(xs[n], n + 1).Skip? ==> CollectUpTo(xs, step, n + 1) == Some(acc)
    ensures step(xs[n], n + 1).Keep? ==> CollectUpTo(xs, step, n + 1) == Some(acc + [step(xs[n], n + 1).record])
  {
  }

  /** The collection after one more item whose step is `s`. */
  function Advance<R>(acc: seq<R>, s: Step<R>): Option<seq<R>> {
    match s
    case Raise => None
    case Skip => Some(acc)
    case Keep(t) => Some(acc + [t])
  }

  /** One more item, whose step is `s`, advances the collection by `s`. */
  lemma {:induction false} CollectAdvances<G, R>(xs: seq<G>, step: (G, nat) -> Step<R>, n: nat, acc: seq<R>, s: Step<R>)
    requires n < |xs| && CollectUpTo(xs, step, n) == Some(acc) && s == step(xs[n], n + 1)
    ensures CollectUpTo(xs, step, n + 1) == Advance(acc, s)
  {
  }

  /** Once an item has raised, nothing is collected at all. */
  lemma {:induction false} CollectStaysFailed<G, R>(xs: seq<G>, step: (G, nat) -> Step<R>, n: nat)
    requires n <= |xs| && CollectUpTo(xs, step, n).None?
    ensures CollectUpTo(xs, step, |xs|).None?
    decreases |xs| - n
  {
    if n < |xs| {
      CollectStaysFailed(xs, step, n + 1);
    }
  }

  /** Without raising items the collection always succeeds. */
  lemma {:induction false} CollectTotal<G, R>(xs: seq<G>, step: (G, nat) -> Step<R>, n: nat)
    requires n <= |xs|
    requires forall j | 0 <= j < n :: !step(xs[j], j + 1).Raise?
    ensures CollectUpTo(xs, step, n).Some?
  {
    if n > 0 {
      CollectTotal(xs, step, n - 1);
      assert !step(xs[n - 1], n).Raise?;
    }
  }

  /** Every item below `n` that yields a record has it collected, at the place its position says. */
  lemma {:induction false} CollectComplete<G, R>(xs: seq<G>, step: (G, nat) -> Step<R>, n: nat, j: nat) returns (i: nat)
    requires j < n <= |xs| && CollectUpTo(xs, step, n).Some? && step(xs[j], j + 1).Keep?
    ensures i < |CollectUpTo(xs, step, n).value|
    ensures CollectUpTo(xs, step, n).value[i] == step(xs[j], j + 1).record
  {
    var before := CollectUpTo(xs, step, n - 1);
    assert before.Some?;
    if j == n - 1 {
      i := |before.value|;
    } else {
      i := CollectComplete(xs, step, n - 1, j);
    }
  }
}
