/**
 * Random identifiers are drawn until one is unused. The model receives the
 * draws as a sequence, so "draw until unused" becomes "the first candidate
 * that is not taken"; running out of draws is the model's only way to fail.
 */
module Draws {
  import opened Wrappers

  /** The first candidate, in draw order, that is not in `taken`. */
  function FirstUnused<T(==)>(candidates: seq<T>, taken: set<T>): (r: Option<T>)
    ensures r.Some? ==> r.value !in taken
    ensures r.None? <==> forall i :: 0 <= i < |candidates| ==> candidates[i] in taken
    ensures r.Some? ==> exists k :: 0 <= k < |candidates| && candidates[k] == r.value &&
                                    forall j :: 0 <= j < k ==> candidates[j] in taken
  {
    if candidates == [] then None
    else if candidates[0] !in taken then
      assert candidates[0] == candidates[0];
      Some(candidates[0])
    else
      var rest := FirstUnused(candidates[1..], taken);
      assert rest.Some? ==> exists k :: 0 <= k < |candidates| && candidates[k] == rest.value &&
                                        forall j :: 0 <= j < k ==> candidates[j] in taken by {
        if rest.Some? {
          var k :| 0 <= k < |candidates| - 1 && candidates[1..][k] == rest.value &&
                   forall j :: 0 <= j < k ==> candidates[1..][j] in taken;
          assert candidates[k + 1] == rest.value;
          forall j | 0 <= j < k + 1 ensures candidates[j] in taken {
            if j > 0 { assert candidates[j] == candidates[1..][j - 1]; }
          }
        }
      }
      assert rest.None? ==> forall i :: 0 <= i < |candidates| ==> candidates[i] in taken by {
        if rest.None? {
          forall i | 0 <= i < |candidates| ensures candidates[i] in taken {
            if i > 0 { assert candidates[i] == candidates[1..][i - 1]; }
          }
        }
      }
      rest
  }

  /** Looking past candidates that are all taken does not change the answer. */
  lemma {:induction false} FirstUnusedSkip<T>(candidates: seq<T>, taken: set<T>, i: nat)
    requires i <= |candidates|
    requires forall j :: 0 <= j < i ==> candidates[j] in taken
    ensures FirstUnused(candidates, taken) == FirstUnused(candidates[i..], taken)
  {
    if i > 0 {
      assert candidates[1..][i - 1..] == candidates[i..];
      FirstUnusedSkip(candidates[1..], taken, i - 1);
    }
  }
}
