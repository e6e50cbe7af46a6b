/** Lists without repetition. */
module PointerLists {

  ghost predicate Distinct<T>(list: seq<T>) {
    forall i, j | 0 <= i < j < |list| :: list[i] != list[j]
  }

  /** `list` without the first occurrence of `victim`. */
  function Without<T(==)>(list: seq<T>, victim: T): (rest: seq<T>)
    ensures forall p | p in rest :: p in list
    ensures forall p | p in list && p != victim :: p in rest
    ensures Distinct(list) ==> Distinct(rest) && victim !in rest
    ensures victim in list ==> |rest| == |list| - 1
  {
    if list == [] then []
    else if list[0] == victim then list[1..]
    else
      var tail := list[1..];
      assert forall p | p in list :: p == list[0] || p in tail;
      assert Distinct(list) ==> Distinct(tail) && list[0] !in tail;
      [list[0]] + Without(tail, victim)
  }

  lemma DistinctConcat<T>(a: seq<T>, b: seq<T>)
    requires Distinct(a) && Distinct(b) && forall p | p in b :: p !in a
    ensures Distinct(a + b)
  {
    var ab := a + b;
    forall i, j | 0 <= i < j < |ab|
      ensures ab[i] != ab[j]
    {
      if i < |a| <= j {
        assert ab[i] in a && ab[j] == b[j - |a|];
        assert b[j - |a|] in b;
      }
    }
  }

  /** `y`, and nothing else, has been taken off the list. */
  ghost predicate Removed<T>(before: seq<T>, after: seq<T>, y: T) {
    (forall p | p in after :: p in before && p != y) && (forall p | p in before && p != y :: p in after)
  }

  lemma RemovedAt<T>(list: seq<T>, i: nat)
    requires Distinct(list) && i < |list|
    ensures Removed(list, list[..i] + list[i + 1..], list[i]) && Distinct(list[..i] + list[i + 1..])
  {
    forall p | p in list && p != list[i]
      ensures p in list[..i] + list[i + 1..]
    {
      var k :| 0 <= k < |list| && list[k] == p;
      assert p in if k < i then list[..i] else list[i + 1..];
    }
  }
}
