/** Positions in a sequence, listed in order: how a selection of its elements is described. */
module Positions {
  ghost predicate Increasing(at: seq<nat>, bound: nat) {
    && (forall i, j :: 0 <= i < j < |at| ==> at[i] < at[j])
    && (forall i :: 0 <= i < |at| ==> at[i] < bound)
  }

  lemma IncreasingExtends(before: seq<nat>, n: nat)
    requires Increasing(before, n)
    ensures Increasing(before + [n], n + 1) && Increasing(before, n + 1) && n !in before
    ensures forall k :: k in before + [n] <==> k in before || k == n
  {
  }
}
