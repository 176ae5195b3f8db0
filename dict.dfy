/**
 * Python dictionary semantics used by the translator: a dict built from pairs
 * left to right (a later pair overwrites an earlier one with the same key),
 * and `dict.get(key, default)`.
 */
module Dict {

  /** The dict that results from inserting `pairs` in order. */
  function Overwrite(pairs: seq<(string, string)>): map<string, string> {
    if pairs == [] then map[]
    else Overwrite(pairs[..|pairs| - 1])[pairs[|pairs| - 1].0 := pairs[|pairs| - 1].1]
  }

  /** The keys are exactly the keys of the pairs. */
  lemma {:induction false} OverwriteKeys(pairs: seq<(string, string)>, k: string)
    ensures k in Overwrite(pairs) <==> exists i :: 0 <= i < |pairs| && pairs[i].0 == k
  {
    if pairs != [] {
      var init := pairs[..|pairs| - 1];
      OverwriteKeys(init, k);
      assert forall i :: 0 <= i < |init| ==> init[i] == pairs[i];
    }
  }

  /** Every stored entry is one of the pairs. */
  lemma {:induction false} OverwriteValues(pairs: seq<(string, string)>, k: string)
    requires k in Overwrite(pairs)
    ensures exists i :: 0 <= i < |pairs| && pairs[i] == (k, Overwrite(pairs)[k])
  {
    var init := pairs[..|pairs| - 1];
    if pairs[|pairs| - 1].0 != k {
      OverwriteValues(init, k);
      var i :| 0 <= i < |init| && init[i] == (k, Overwrite(init)[k]);
      assert pairs[i] == init[i];
    }
  }

  /** The value stored for a key is the one of the last pair carrying that key. */
  lemma {:induction false} OverwriteLast(pairs: seq<(string, string)>, i: nat)
    requires i < |pairs|
    requires forall j :: i < j < |pairs| ==> pairs[j].0 != pairs[i].0
    ensures pairs[i].0 in Overwrite(pairs) && Overwrite(pairs)[pairs[i].0] == pairs[i].1
  {
    if i < |pairs| - 1 {
      var init := pairs[..|pairs| - 1];
      OverwriteLast(init, i);
    }
  }

  /** `dict.get(key, default)`. */
  function Get(m: map<string, string>, key: string, default: string): string {
    if key in m then m[key] else default
  }
}
