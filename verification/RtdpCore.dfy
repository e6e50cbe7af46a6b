/** Common code of the labelling searches. */
module RtdpCore {
  import opened Mdp
  import opened PointerLists

  lemma DistinctPosition(s: seq<NodeId>, i: nat, j: nat)
    requires Distinct(s) && i < |s| && j < |s| && s[i] == s[j]
    ensures i == j
  {
  }

  ghost function Elements(s: seq<NodeId>): (r: set<NodeId>)
    ensures forall k | k in s :: k in r
    ensures forall k | k in r :: k in s
  {
    set k | k in s
  }

  /** A stack with a membership index. */
  class NodeStack {
    var data: seq<NodeId>
    var lookup: set<NodeId>

    /** The index holds exactly the nodes on the stack, and no node is on the stack twice. */
    ghost predicate Valid()
      reads this
    {
      Distinct(data) && lookup == Elements(data)
    }

    constructor ()
      ensures Valid() && data == []
    {
      data, lookup := [], {};
    }

    method Push(n: NodeId)
      requires Valid() && n !in data
      modifies this
      ensures Valid() && data == old(data) + [n]
    {
      data := data + [n];
      lookup := lookup + {n};
    }

    method Pop() returns (n: NodeId)
      requires Valid() && data != []
      modifies this
      ensures Valid() && n == old(data)[|old(data)| - 1] && data == old(data)[..|old(data)| - 1]
    {
      n := data[|data| - 1];
      data := data[..|data| - 1];
      lookup := lookup - {n};
      assert old(data) == data + [n];
    }

    method Clear()
      modifies this
      ensures Valid() && data == []
    {
      data, lookup := [], {};
    }

    method Top() returns (n: NodeId)
      requires Valid() && data != []
      ensures n == data[|data| - 1]
    {
      n := data[|data| - 1];
    }

    method Contains(n: NodeId) returns (found: bool)
      requires Valid()
      ensures found <==> n in data
    {
      found := n in lookup;
    }
  }

  lemma {:induction false} DistinctSize(s: seq<NodeId>)
    requires Distinct(s)
    ensures |Elements(s)| == |s|
  {
    if s != [] {
      var n := |s| - 1;
      DistinctSize(s[..n]);
      assert Elements(s) == Elements(s[..n]) + {s[n]};
    }
  }
}
