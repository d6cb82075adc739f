/** Which elements of a list are kept, by their places. */
module Selections {

  predicate Rising(at: seq<nat>) { forall i, j :: 0 <= i < j < |at| ==> at[i] < at[j] }

  /** `at` are the places, in order, of the elements of `xs` that are kept. */
  ghost predicate Selects<T(!new)>(xs: seq<T>, keep: T -> bool, at: seq<nat>) {
    && Rising(at) && (forall i :: 0 <= i < |at| ==> at[i] < |xs|)
    && (forall k :: 0 <= k < |xs| ==> (k in at <==> keep(xs[k])))
  }

  lemma SelectsNone<T(!new)>(keep: T -> bool)
    ensures Selects([], keep, [])
  {
  }

  /** With one more element at the end. */
  lemma {:induction false} SelectsSnoc<T(!new)>(xs: seq<T>, x: T, keep: T -> bool, at: seq<nat>)
    requires Selects(xs, keep, at)
    ensures Selects(xs + [x], keep, if keep(x) then at + [|xs|] else at)
    ensures forall i :: 0 <= i < |at| ==> at[i] < |xs|
  {
    var all, now := xs + [x], if keep(x) then at + [|xs|] else at;
    forall k | 0 <= k < |all| ensures k in now <==> keep(all[k]) {
      assert k < |xs| ==> all[k] == xs[k];
    }
  }

  /** With one more element in front. */
  lemma {:induction false} SelectsCons<T(!new)>(x: T, xs: seq<T>, keep: T -> bool, at: seq<nat>)
    requires Selects(xs, keep, at)
    ensures Selects([x] + xs, keep, if keep(x) then [0] + Shifted(at) else Shifted(at))
    ensures forall i :: 0 <= i < |at| ==> at[i] < |xs|
  {
    var all, now := [x] + xs, if keep(x) then [0] + Shifted(at) else Shifted(at);
    forall k | 0 <= k < |all| ensures k in now <==> keep(all[k]) {
      ShiftedIn(at, if k == 0 then 0 else k - 1);
      assert k > 0 ==> all[k] == xs[k - 1];
    }
  }

  function Shifted(at: seq<nat>): (r: seq<nat>)
    ensures |r| == |at| && forall i :: 0 <= i < |at| ==> r[i] == at[i] + 1
  {
    seq(|at|, i requires 0 <= i < |at| => at[i] + 1)
  }

  lemma {:induction false} ShiftedIn(at: seq<nat>, k: nat)
    ensures 0 !in Shifted(at) && (k + 1 in Shifted(at) <==> k in at)
  {
    if k in at { var i :| 0 <= i < |at| && at[i] == k; assert Shifted(at)[i] == k + 1; }
  }
}
