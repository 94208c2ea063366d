/** Choosing some elements of a sequence, in their order. */
module Picks {

  /** `picked` are the elements at the positions `at`, which ascend. */
  ghost predicate PickedAt<T>(all: seq<T>, picked: seq<T>, at: seq<nat>) {
    && |at| == |picked|
    && (forall i, j :: 0 <= i < j < |at| ==> at[i] < at[j])
    && (forall i :: 0 <= i < |at| ==> at[i] < |all| && picked[i] == all[at[i]])
  }

  /** One more element, chosen or not. */
  lemma PickMore<T>(all: seq<T>, picked: seq<T>, at: seq<nat>, chosen: bool) returns (at2: seq<nat>)
    requires all != [] && PickedAt(all[..|all| - 1], picked, at)
    ensures PickedAt(all, if chosen then picked + [all[|all| - 1]] else picked, at2)
    ensures forall i :: i in at2 <==> i in at || (chosen && i == |all| - 1)
  {
    at2 := if chosen then at + [|all| - 1] else at;
    var picked2 := if chosen then picked + [all[|all| - 1]] else picked;
    forall i | 0 <= i < |at2| ensures at2[i] < |all| && picked2[i] == all[at2[i]] {
      if i < |at| {
        assert all[..|all| - 1][at[i]] == all[at[i]];
      }
    }
  }
}
