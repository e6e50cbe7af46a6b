/** The reward decision tree: a trie over (action, state, next state, observation), rewritten in place, in which
    the last matching rule wins. */
module DecisionTree {
  import opened Wrappers

  const DT_TABLE_DEPTH: nat := 4
  const WILDCARD_SPEC: int := -1

  // ---------- The tree as a value ----------

  datatype Tree =
    | Val(v: real)
    | Table(entries: seq<Option<Tree>>, fallback: Tree)

  /** A rule's fields, in range or wildcards. */
  ghost predicate RuleOk(sizes: seq<nat>, vec: seq<int>) {
    && |sizes| == |vec| == DT_TABLE_DEPTH
    && forall i | 0 <= i < DT_TABLE_DEPTH :: vec[i] == WILDCARD_SPEC || 0 <= vec[i] < sizes[i]
  }

  /** A query's fields are in range; without observations the last one may be anything. */
  ghost predicate QueryOk(sizes: seq<nat>, q: seq<int>) {
    && |sizes| == |q| == DT_TABLE_DEPTH
    && (forall i | 0 <= i < 3 :: 0 <= q[i] < sizes[i])
    && (0 <= q[3] < sizes[3] || sizes[3] == 0)
  }

  /** Tables have the size of their level, and there is none at a level without values. */
  ghost predicate TreeOk(sizes: seq<nat>, t: Tree, index: nat)
    requires |sizes| == DT_TABLE_DEPTH
  {
    t.Table? ==>
      && index < DT_TABLE_DEPTH && |t.entries| == sizes[index] && (index == 3 ==> sizes[3] > 0)
      && TreeOk(sizes, t.fallback, index + 1)
      && forall i | 0 <= i < |t.entries| && t.entries[i].Some? :: TreeOk(sizes, t.entries[i].value, index + 1)
  }

  predicate AllWildcards(vec: seq<int>, index: nat) {
    forall i | index <= i < |vec| :: vec[i] == WILDCARD_SPEC
  }

  /** From `index` on, every field of the rule is a wildcard or equal to the query's. */
  predicate Matches(vec: seq<int>, q: seq<int>, index: nat)
    requires |vec| == |q|
  {
    forall i | index <= i < |vec| :: vec[i] == WILDCARD_SPEC || vec[i] == q[i]
  }

  /** What a look-up finds. */
  ghost function Get(sizes: seq<nat>, t: Tree, q: seq<int>, index: nat): real
    requires QueryOk(sizes, q) && TreeOk(sizes, t, index)
    decreases t
  {
    match t
    case Val(v) => v
    case Table(entries, fallback) =>
      if entries[q[index]].Some? then Get(sizes, entries[q[index]].value, q, index + 1)
      else Get(sizes, fallback, q, index + 1)
  }

  ghost function AsTable(t: Tree, size: nat): Tree {
    if t.Val? then Table(seq(size, _ => None), t) else t
  }

  /** `u` is `t` after adding a rule. */
  ghost predicate Added(sizes: seq<nat>, t: Tree, vec: seq<int>, index: nat, val: real, u: Tree)
    requires RuleOk(sizes, vec) && TreeOk(sizes, t, index) && index <= DT_TABLE_DEPTH
    decreases DT_TABLE_DEPTH - index, 0
  {
    if AllWildcards(vec, index) then u == Val(val)
    else
      AsTableOk(sizes, t, index, vec);
      var table := AsTable(t, sizes[index]);
      && u.Table? && |u.entries| == sizes[index]
      && if vec[index] == WILDCARD_SPEC then
           && Added(sizes, table.fallback, vec, index + 1, val, u.fallback)
           && forall i | 0 <= i < sizes[index] ::
                AddedEntry(sizes, table.entries[i], vec, index + 1, val, u.entries[i])
         else
           var k := vec[index];
           && u.fallback == table.fallback
           && u.entries[k].Some?
           && Added(sizes, if table.entries[k].Some? then table.entries[k].value else table.fallback,
                    vec, index + 1, val, u.entries[k].value)
           && forall i | 0 <= i < sizes[index] && i != k :: u.entries[i] == table.entries[i]
  }

  ghost predicate AddedEntry(sizes: seq<nat>, e: Option<Tree>, vec: seq<int>, index: nat, val: real, f: Option<Tree>)
    requires RuleOk(sizes, vec) && (e.Some? ==> TreeOk(sizes, e.value, index)) && index <= DT_TABLE_DEPTH
    decreases DT_TABLE_DEPTH - index, 1
  {
    if e.None? then f.None? else f.Some? && Added(sizes, e.value, vec, index, val, f.value)
  }

  lemma AsTableOk(sizes: seq<nat>, t: Tree, index: nat, vec: seq<int>)
    requires RuleOk(sizes, vec) && TreeOk(sizes, t, index) && index < DT_TABLE_DEPTH && !AllWildcards(vec, index)
    ensures var u := AsTable(t, sizes[index]); u.Table? && TreeOk(sizes, u, index) && |u.entries| == sizes[index]
  {
    if t.Val? {
      assert TreeOk(sizes, t, index + 1);
    }
  }

  /** Adding a rule changes exactly the queries that match it, and keeps the tables in shape. */
  lemma {:induction false} GetAdded(sizes: seq<nat>, t: Tree, vec: seq<int>, index: nat, val: real, u: Tree,
      q: seq<int>)
    requires RuleOk(sizes, vec) && QueryOk(sizes, q) && TreeOk(sizes, t, index) && index <= DT_TABLE_DEPTH
    requires Added(sizes, t, vec, index, val, u)
    ensures TreeOk(sizes, u, index)
    ensures Get(sizes, u, q, index) == if Matches(vec, q, index) then val else Get(sizes, t, q, index)
    decreases DT_TABLE_DEPTH - index
  {
    AddedOk(sizes, t, vec, index, val, u);
    if !AllWildcards(vec, index) {
      AsTableOk(sizes, t, index, vec);
      var table := AsTable(t, sizes[index]);
      var k := q[index];
      assert Get(sizes, t, q, index) == Get(sizes, table, q, index);
      var before := if table.entries[k].Some? then table.entries[k].value else table.fallback;
      var after := if u.entries[k].Some? then u.entries[k].value else u.fallback;
      if vec[index] == WILDCARD_SPEC || vec[index] == k {
        assert AddedEntry(sizes, table.entries[k], vec, index + 1, val, u.entries[k]) || vec[index] == k;
        GetAdded(sizes, before, vec, index + 1, val, after, q);
      }
    }
  }

  lemma {:induction false} AddedOk(sizes: seq<nat>, t: Tree, vec: seq<int>, index: nat, val: real, u: Tree)
    requires RuleOk(sizes, vec) && TreeOk(sizes, t, index) && index <= DT_TABLE_DEPTH
    requires Added(sizes, t, vec, index, val, u)
    ensures TreeOk(sizes, u, index)
    decreases DT_TABLE_DEPTH - index
  {
    if !AllWildcards(vec, index) {
      AsTableOk(sizes, t, index, vec);
      var table := AsTable(t, sizes[index]);
      if vec[index] == WILDCARD_SPEC {
        AddedOk(sizes, table.fallback, vec, index + 1, val, u.fallback);
        forall i | 0 <= i < |u.entries| && u.entries[i].Some?
          ensures TreeOk(sizes, u.entries[i].value, index + 1)
        {
          assert AddedEntry(sizes, table.entries[i], vec, index + 1, val, u.entries[i]);
          AddedOk(sizes, table.entries[i].value, vec, index + 1, val, u.entries[i].value);
        }
      } else {
        var k := vec[index];
        var before := if table.entries[k].Some? then table.entries[k].value else table.fallback;
        AddedOk(sizes, before, vec, index + 1, val, u.entries[k].value);
      }
    }
  }

  // ---------- The tree on the heap ----------

  class DTNode {
    var isTable: bool
    var val: real
    var entries: seq<DTNode?>
    var defaultEntry: DTNode?
    /** The nodes below and including this one, and the tree they make up. */
    ghost var Repr: set<object>
    ghost var tree: Tree

    ghost predicate Valid()
      reads this, Repr
      decreases Repr
    {
      && this in Repr
      && if !isTable then tree == Val(val)
         else
           && tree.Table? && |tree.entries| == |entries|
           && Child(defaultEntry, Some(tree.fallback))
           && (forall i | 0 <= i < |entries| :: Child(entries[i], tree.entries[i]))
           && (forall i | 0 <= i < |entries| && entries[i] != null :: entries[i].Repr !! defaultEntry.Repr)
           && (forall i, j | 0 <= i < j < |entries| && entries[i] != null && entries[j] != null ::
                 entries[i].Repr !! entries[j].Repr)
    }

    /** `n` is a subtree of this node with value `t`, or absent. */
    ghost predicate Child(n: DTNode?, t: Option<Tree>)
      reads this, Repr
      decreases Repr, 0
    {
      if n == null then t.None?
      else n in Repr && n.Repr < Repr && this !in n.Repr && n.Valid() && t == Some(n.tree)
    }

    constructor NewVal(v: real)
      ensures Valid() && fresh(Repr) && tree == Val(v)
    {
      isTable, val, entries, defaultEntry := false, v, [], null;
      Repr, tree := {this}, Val(v);
    }

    /** A table that so far only has a default. */
    constructor NewTable(numEntries: nat, fallback: DTNode)
      requires fallback.Valid()
      ensures Valid() && fresh(Repr - fallback.Repr)
      ensures tree == Table(seq(numEntries, _ => None), fallback.tree)
    {
      isTable, val, entries, defaultEntry := true, 0.0, seq(numEntries, _ => null), fallback;
      Repr, tree := {this} + fallback.Repr, Table(seq(numEntries, _ => None), fallback.tree);
    }
  }

  /** A copy that shares nothing with the original. */
  method DeepCopyNode(node: DTNode) returns (out: DTNode)
    requires node.Valid()
    ensures out.Valid() && fresh(out.Repr) && out.tree == node.tree
    decreases node.Repr
  {
    if !node.isTable {
      out := new DTNode.NewVal(node.val);
    } else {
      var fallback := DeepCopyNode(node.defaultEntry);
      out := new DTNode.NewTable(|node.entries|, fallback);
      for i := 0 to |node.entries|
        invariant fresh(out.Repr) && out.Valid() && out.isTable && |out.entries| == |node.entries|
        invariant out.tree == Table(out.tree.entries, node.tree.fallback)
        invariant forall j | 0 <= j < i :: out.tree.entries[j] == node.tree.entries[j]
        invariant forall j | i <= j < |out.entries| :: out.entries[j] == null
      {
        assert node.Child(node.entries[i], node.tree.entries[i]);
        if node.entries[i] != null {
          var copy := DeepCopyNode(node.entries[i]);
          SetEntry(out, i, copy);
        }
      }
    }
  }

  /** Hangs a subtree into a table slot. */
  method SetEntry(table: DTNode, i: nat, n: DTNode)
    requires table.Valid() && table.isTable && i < |table.entries| && n.Valid()
    requires n.Repr !! table.Repr
    modifies table
    ensures table.Valid() && table.isTable && table.entries == old(table.entries)[i := n]
    ensures table.Repr == old(table.Repr) + n.Repr && table.defaultEntry == old(table.defaultEntry)
    ensures table.tree == old(table.tree).(entries := old(table.tree.entries)[i := Some(n.tree)])
  {
    ghost var repr := table.Repr;
    table.entries := table.entries[i := n];
    table.Repr := table.Repr + n.Repr;
    table.tree := table.tree.(entries := table.tree.entries[i := Some(n.tree)]);
  }

  /** A table node with the same content: the node itself, or a new table that falls back to its value. */
  method ConvertToTable(node: DTNode, numEntries: nat) returns (out: DTNode)
    requires node.Valid()
    ensures out.Valid() && out.isTable && fresh(out.Repr - node.Repr) && out.tree == AsTable(node.tree, numEntries)
  {
    if node.isTable {
      out := node;
    } else {
      var fallback := new DTNode.NewVal(node.val);
      out := new DTNode.NewTable(numEntries, fallback);
    }
  }

  /** Adds the rule to the default of a table. */
  method AddToDefault(sizes: seq<nat>, t: DTNode, vec: seq<int>, index: nat, val: real)
    requires t.Valid() && t.isTable && RuleOk(sizes, vec) && index < DT_TABLE_DEPTH && TreeOk(sizes, t.tree, index)
    modifies t.Repr
    ensures t.Valid() && t.isTable && fresh(t.Repr - old(t.Repr)) && |t.entries| == old(|t.entries|)
    ensures t.tree == old(t.tree).(fallback := t.tree.fallback)
    ensures Added(sizes, old(t.tree.fallback), vec, index + 1, val, t.tree.fallback)
    decreases DT_TABLE_DEPTH - index, 0
  {
    hide Added, TreeOk;
    assert TreeOk(sizes, t.tree.fallback, index + 1) by { FallbackOk(sizes, t.tree, index); }
    ghost var es, dr := t.entries, t.defaultEntry.Repr;
    forall j | 0 <= j < |es| && es[j] != null
      ensures es[j].Valid() && es[j] in es[j].Repr && t !in es[j].Repr && es[j].Repr !! dr
    {
      assert t.Child(es[j], t.tree.entries[j]);
    }
    label before:
    var d := AddInternal(sizes, t.defaultEntry, vec, index + 1, val);
    forall j | 0 <= j < |es| && es[j] != null
      ensures es[j].Valid() && es[j].Repr == old@before(es[j].Repr) && es[j].tree == old@before(es[j].tree)
    {
      assert es[j] !in dr;
    }
    t.defaultEntry := d;
    t.Repr := t.Repr + d.Repr;
    t.tree := t.tree.(fallback := d.tree);
    assert t.Child(d, Some(d.tree));
    forall j | 0 <= j < |es|
      ensures t.Child(es[j], t.tree.entries[j])
    {
      assert old(t.Child(t.entries[j], t.tree.entries[j]));
    }
  }

  /** Adds the rule to a slot of a table that is set. */
  method AddToEntry(sizes: seq<nat>, t: DTNode, i: nat, vec: seq<int>, index: nat, val: real)
    requires t.Valid() && t.isTable && RuleOk(sizes, vec) && index < DT_TABLE_DEPTH
    requires i < |t.entries| && t.entries[i] != null && t.tree.entries[i].Some?
    requires TreeOk(sizes, t.tree.entries[i].value, index + 1)
    modifies t.Repr
    ensures t.Valid() && t.isTable && fresh(t.Repr - old(t.Repr)) && |t.entries| == old(|t.entries|)
    ensures t.tree == old(t.tree).(entries := old(t.tree.entries)[i := t.tree.entries[i]])
    ensures t.tree.entries[i].Some?
    ensures Added(sizes, old(t.tree.entries[i].value), vec, index + 1, val, t.tree.entries[i].value)
    decreases DT_TABLE_DEPTH - index, 0
  {
    hide Added, TreeOk;
    ghost var es, fb, er := t.entries, t.defaultEntry, t.entries[i].Repr;
    assert t.Child(t.entries[i], t.tree.entries[i]) && t.Child(fb, Some(t.tree.fallback));
    forall j | 0 <= j < |es| && es[j] != null && j != i
      ensures es[j].Valid() && es[j] in es[j].Repr && t !in es[j].Repr && es[j].Repr !! er
    {
      assert t.Child(es[j], t.tree.entries[j]);
    }
    label before:
    var e := AddInternal(sizes, t.entries[i], vec, index + 1, val);
    assert fb.Valid() && fb.Repr == old(fb.Repr) && fb.tree == old(fb.tree) by {
      assert fb !in er;
    }
    forall j | 0 <= j < |es| && es[j] != null && j != i
      ensures es[j].Valid() && es[j].Repr == old@before(es[j].Repr) && es[j].tree == old@before(es[j].tree)
    {
      assert es[j] !in er;
    }
    t.entries := t.entries[i := e];
    t.Repr := t.Repr + e.Repr;
    t.tree := t.tree.(entries := t.tree.entries[i := Some(e.tree)]);
    assert t.Child(e, Some(e.tree)) && t.Child(fb, Some(t.tree.fallback));
    forall j | 0 <= j < |es| && j != i
      ensures t.Child(es[j], t.tree.entries[j])
    {
      assert old(t.Child(t.entries[j], t.tree.entries[j]));
    }
  }

  lemma FallbackOk(sizes: seq<nat>, t: Tree, index: nat)
    requires |sizes| == DT_TABLE_DEPTH && TreeOk(sizes, t, index) && t.Table?
    ensures TreeOk(sizes, t.fallback, index + 1)
  {
  }

  /** Adds a rule to a subtree, reusing its nodes where it can. */
  method AddInternal(sizes: seq<nat>, node: DTNode, vec: seq<int>, index: nat, val: real) returns (out: DTNode)
    requires node.Valid() && RuleOk(sizes, vec) && index <= DT_TABLE_DEPTH && TreeOk(sizes, node.tree, index)
    modifies node.Repr
    ensures out.Valid() && fresh(out.Repr - old(node.Repr))
    ensures Added(sizes, old(node.tree), vec, index, val, out.tree)
    decreases DT_TABLE_DEPTH - index, 2
  {
    var allWildcards := true;
    for i := index to DT_TABLE_DEPTH
      modifies {}
      invariant allWildcards && forall j | index <= j < i :: vec[j] == WILDCARD_SPEC
    {
      if vec[i] != WILDCARD_SPEC {
        allWildcards := false;
        break;
      }
    }
    if allWildcards {
      out := new DTNode.NewVal(val);
    } else if vec[index] == WILDCARD_SPEC {
      AsTableOk(sizes, node.tree, index, vec);
      out := ConvertToTable(node, sizes[index]);
      AddEverywhere(sizes, out, vec, index, val);
    } else {
      AsTableOk(sizes, node.tree, index, vec);
      out := ConvertToTable(node, sizes[index]);
      AddAt(sizes, out, vec, index, val);
    }
  }

  /** Adds a rule with a wildcard at this level: to the default and to every slot that is set. */
  method AddEverywhere(sizes: seq<nat>, t: DTNode, vec: seq<int>, index: nat, val: real)
    requires t.Valid() && t.isTable && RuleOk(sizes, vec) && index < DT_TABLE_DEPTH && TreeOk(sizes, t.tree, index)
    modifies t.Repr
    ensures t.Valid() && t.isTable && fresh(t.Repr - old(t.Repr)) && |t.tree.entries| == old(|t.tree.entries|)
    ensures Added(sizes, old(t.tree.fallback), vec, index + 1, val, t.tree.fallback)
    ensures forall i | 0 <= i < |t.tree.entries| ::
      AddedEntry(sizes, old(t.tree.entries[i]), vec, index + 1, val, t.tree.entries[i])
    decreases DT_TABLE_DEPTH - index, 1
  {
    ghost var tree0 := t.tree;
    AddToDefault(sizes, t, vec, index, val);
    for i := 0 to |t.entries|
      invariant t.Valid() && t.isTable && fresh(t.Repr - old(t.Repr)) && |t.entries| == |tree0.entries|
      invariant Added(sizes, tree0.fallback, vec, index + 1, val, t.tree.fallback)
      invariant forall j | 0 <= j < i :: AddedEntry(sizes, tree0.entries[j], vec, index + 1, val, t.tree.entries[j])
      invariant forall j | i <= j < |tree0.entries| :: t.tree.entries[j] == tree0.entries[j]
    {
      hide Added;
      assert t.Child(t.entries[i], t.tree.entries[i]);
      if t.entries[i] != null {
        AddToEntry(sizes, t, i, vec, index, val);
      }
    }
  }

  /** Adds a rule with a value at this level: to the slot of that value, filling it from the default if needed. */
  method AddAt(sizes: seq<nat>, t: DTNode, vec: seq<int>, index: nat, val: real)
    requires t.Valid() && t.isTable && RuleOk(sizes, vec) && index < DT_TABLE_DEPTH && TreeOk(sizes, t.tree, index)
    requires vec[index] != WILDCARD_SPEC
    modifies t.Repr
    ensures t.Valid() && t.isTable && fresh(t.Repr - old(t.Repr)) && |t.tree.entries| == old(|t.tree.entries|)
    ensures var k := vec[index]; var e := old(t.tree.entries[k]);
      && t.tree == old(t.tree).(entries := old(t.tree.entries)[k := t.tree.entries[k]]) && t.tree.entries[k].Some?
      && Added(sizes, if e.Some? then e.value else old(t.tree.fallback), vec, index + 1, val, t.tree.entries[k].value)
    decreases DT_TABLE_DEPTH - index, 1
  {
    var k := vec[index];
    hide Added;
    assert t.Child(t.entries[k], t.tree.entries[k]);
    if t.entries[k] == null {
      var copy := DeepCopyNode(t.defaultEntry);
      SetEntry(t, k, copy);
    }
    AddToEntry(sizes, t, k, vec, index, val);
  }

  /** Looks a query up. */
  method GetInternal(sizes: seq<nat>, node: DTNode, vec: seq<int>, index: nat) returns (val: real)
    requires node.Valid() && QueryOk(sizes, vec) && TreeOk(sizes, node.tree, index)
    ensures val == Get(sizes, node.tree, vec, index)
    decreases node.Repr
  {
    if !node.isTable {
      return node.val;
    }
    assert node.Child(node.entries[vec[index]], node.tree.entries[vec[index]]);
    var entry := node.entries[vec[index]];
    if entry == null {
      entry := node.defaultEntry;
    }
    val := GetInternal(sizes, entry, vec, index + 1);
  }

  // ---------- The library ----------

  datatype Rule = Rule(vec: seq<int>, val: real)

  /** The value of the last rule that matches the query, or 0. */
  function Latest(rules: seq<Rule>, q: seq<int>): real
    requires forall r | r in rules :: |r.vec| == |q|
  {
    if rules == [] then 0.0
    else if Matches(rules[|rules| - 1].vec, q, 0) then rules[|rules| - 1].val
    else Latest(rules[..|rules| - 1], q)
  }

  class RewardTree {
    const gTableSizes: seq<nat>
    var gTree: DTNode
    /** All rules added so far. */
    ghost var rules: seq<Rule>

    ghost predicate Valid()
      reads this, gTree, gTree.Repr
    {
      && gTree.Valid() && this !in gTree.Repr && |gTableSizes| == DT_TABLE_DEPTH
      && TreeOk(gTableSizes, gTree.tree, 0)
      && (forall r | r in rules :: RuleOk(gTableSizes, r.vec))
      && (forall q | QueryOk(gTableSizes, q) :: Get(gTableSizes, gTree.tree, q, 0) == Latest(rules, q))
    }

    constructor (numActions: nat, numStates: nat, numObservations: nat)
      ensures Valid() && fresh(gTree.Repr) && rules == []
      ensures gTableSizes == [numActions, numStates, numStates, numObservations]
    {
      gTableSizes := [numActions, numStates, numStates, numObservations];
      gTree := new DTNode.NewVal(0.0);
      rules := [];
    }

    method Add(action: int, curState: int, nextState: int, obs: int, val: real)
      requires Valid() && RuleOk(gTableSizes, [action, curState, nextState, obs])
      modifies this, gTree.Repr
      ensures Valid() && fresh(gTree.Repr - old(gTree.Repr))
      ensures rules == old(rules) + [Rule([action, curState, nextState, obs], val)]
    {
      var vec := [action, curState, nextState, obs];
      ghost var t0, rules0 := gTree.tree, rules;
      gTree := AddInternal(gTableSizes, gTree, vec, 0, val);
      rules := rules + [Rule(vec, val)];
      hide Get, Latest, Added, TreeOk;
      AddedOk(gTableSizes, t0, vec, 0, val, gTree.tree);
      forall q | QueryOk(gTableSizes, q)
        ensures Get(gTableSizes, gTree.tree, q, 0) == Latest(rules, q)
      {
        GetAdded(gTableSizes, t0, vec, 0, val, gTree.tree, q);
        LatestPush(rules0, Rule(vec, val), q);
      }
    }

    /** After any sequence of additions a query yields the value of the last rule that matches it. */
    method Query(action: int, curState: int, nextState: int, obs: int) returns (val: real)
      requires Valid() && QueryOk(gTableSizes, [action, curState, nextState, obs])
      ensures val == Latest(rules, [action, curState, nextState, obs])
    {
      val := GetInternal(gTableSizes, gTree, [action, curState, nextState, obs], 0);
    }
  }

  lemma LatestPush(rules: seq<Rule>, r: Rule, q: seq<int>)
    requires forall x | x in rules + [r] :: |x.vec| == |q|
    ensures forall x | x in rules :: |x.vec| == |q|
    ensures Latest(rules + [r], q) == if Matches(r.vec, q, 0) then r.val else Latest(rules, q)
  {
    assert (rules + [r])[..|rules|] == rules;
    assert r in rules + [r];
    forall x | x in rules
      ensures |x.vec| == |q|
    {
      assert x in rules + [r];
    }
  }
}
