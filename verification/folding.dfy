/** Running a list of events through a step function. */
module Folding {

  function Fold<S, E>(step: (S, E) -> S, s: S, es: seq<E>): S
    decreases |es|
  {
    if es == [] then s else Fold(step, step(s, es[0]), es[1..])
  }

  lemma {:induction false} FoldSplit<S, E>(step: (S, E) -> S, s: S, first: seq<E>, second: seq<E>)
    ensures Fold(step, s, first + second) == Fold(step, Fold(step, s, first), second)
    decreases |first|
  {
    if first == [] {
      assert first + second == second;
    } else {
      assert (first + second)[1..] == first[1..] + second;
      FoldSplit(step, step(s, first[0]), first[1..], second);
    }
  }

  lemma FoldOne<S, E>(step: (S, E) -> S, s: S, e: E)
    ensures Fold(step, s, [e]) == step(s, e)
  {
    assert [e][1..] == [];
  }
}
