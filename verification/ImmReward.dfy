/** Immediate rewards: the list of reward entries of a model file, its interpreter, and its translation into the
    decision tree. */
module ImmRewards {
  import opened Wrappers
  import opened DecisionTree

  /** A row of a sparse matrix: columns and values. */
  type Row = seq<(nat, real)>

  datatype Rep =
    | IrValue(value: real)
    | IrVector(vector: seq<real>)
    | IrMatrix(rows: seq<Row>)

  datatype ImmReward = ImmReward(action: int, curState: int, nextState: int, obs: int, rep: Rep)

  datatype Problem = Problem(isPomdp: bool, numActions: nat, numStates: nat, numObservations: nat) {
    function Sizes(): seq<nat> {
      [numActions, numStates, numStates, numObservations]
    }

    /** The number of entries of a vector, and of columns of a matrix. */
    function Width(): nat {
      if isPomdp then numObservations else numStates
    }
  }

  predicate FieldOk(v: int, size: nat) {
    v == WILDCARD_SPEC || 0 <= v < size
  }

  ghost predicate RowOk(row: Row, width: nat) {
    && (forall i | 0 <= i < |row| :: row[i].0 < width)
    && (forall i, j | 0 <= i < j < |row| :: row[i].0 != row[j].0)
  }

  /** What the parser delivers: the fields that the entry's kind uses are in range or wildcards. */
  ghost predicate EntryOk(p: Problem, e: ImmReward) {
    && FieldOk(e.action, p.numActions)
    && match e.rep
       case IrValue(_) =>
         && FieldOk(e.curState, p.numStates) && FieldOk(e.nextState, p.numStates)
         && (p.isPomdp ==> FieldOk(e.obs, p.numObservations))
       case IrVector(vector) =>
         && |vector| == p.Width() && FieldOk(e.curState, p.numStates)
         && (p.isPomdp ==> FieldOk(e.nextState, p.numStates))
       case IrMatrix(rows) =>
         && |rows| == p.numStates && (p.isPomdp ==> FieldOk(e.curState, p.numStates))
         && forall i | 0 <= i < |rows| :: RowOk(rows[i], p.Width())
  }

  /** A query (action, state, next state, observation); an MDP ignores the observation. */
  ghost predicate AskOk(p: Problem, q: seq<int>) {
    && QueryOk(p.Sizes(), q) && (p.isPomdp ==> 0 <= q[3] < p.numObservations)
  }

  predicate Fits(field: int, v: int) {
    field == WILDCARD_SPEC || field == v
  }

  /** The last of the first `n` values of the row in column `col`. */
  function InRow(row: Row, n: nat, col: int): Option<real>
    requires n <= |row|
  {
    if n == 0 then None
    else if row[n - 1].0 == col then Some(row[n - 1].1)
    else InRow(row, n - 1, col)
  }

  /** The value stored in a cell of a sparse matrix, or 0. */
  method GetEntryMatrix(rows: seq<Row>, row: nat, col: int, ghost width: nat) returns (value: real)
    requires row < |rows| && RowOk(rows[row], width)
    ensures var cell := InRow(rows[row], |rows[row]|, col);
      value == if cell.Some? then cell.value else 0.0
  {
    for j := 0 to |rows[row]|
      invariant InRow(rows[row], j, col) == None
    {
      if rows[row][j].0 == col {
        InRowStays(rows[row], j + 1, |rows[row]|, col, width);
        return rows[row][j].1;
      }
    }
    return 0.0;
  }

  lemma {:induction false} InRowStays(row: Row, m: nat, n: nat, col: int, width: nat)
    requires RowOk(row, width) && 1 <= m <= n <= |row| && row[m - 1].0 == col
    ensures InRow(row, n, col) == Some(row[m - 1].1)
  {
    if m < n {
      InRowStays(row, m, n - 1, col, width);
    }
  }

  /** The entry speaks about the query. */
  predicate Applies(p: Problem, e: ImmReward, q: seq<int>)
    requires |q| == 4
  {
    && Fits(e.action, q[0])
    && match e.rep
       case IrValue(_) => Fits(e.curState, q[1]) && Fits(e.nextState, q[2]) && (p.isPomdp ==> Fits(e.obs, q[3]))
       case IrVector(_) => Fits(e.curState, q[1]) && (p.isPomdp ==> Fits(e.nextState, q[2]))
       case IrMatrix(_) => p.isPomdp ==> Fits(e.curState, q[1])
  }

  /** The cell of a matrix entry that the query asks for. */
  function Cell(p: Problem, rows: seq<Row>, q: seq<int>): Option<real>
    requires |q| == 4 && 0 <= q[1] < |rows| && 0 <= q[2] < |rows|
  {
    if p.isPomdp then InRow(rows[q[2]], |rows[q[2]]|, q[3]) else InRow(rows[q[1]], |rows[q[1]]|, q[2])
  }

  /** The value that the entry gives to the query. */
  ghost function ValueOf(p: Problem, e: ImmReward, q: seq<int>): real
    requires EntryOk(p, e) && AskOk(p, q)
  {
    match e.rep
    case IrValue(value) => value
    case IrVector(vector) => vector[if p.isPomdp then q[3] else q[2]]
    case IrMatrix(rows) => var cell := Cell(p, rows, q); if cell.Some? then cell.value else 0.0
  }

  /** Cells of a matrix that are not stored are not written to the tree. */
  ghost predicate Writes(p: Problem, e: ImmReward, q: seq<int>)
    requires EntryOk(p, e) && AskOk(p, q)
  {
    e.rep.IrMatrix? ==> Cell(p, e.rep.rows, q).Some?
  }

  ghost predicate ListOk(p: Problem, list: seq<ImmReward>) {
    forall e | e in list :: EntryOk(p, e)
  }

  /** The list interpreter: the last entry that applies gives the value. */
  ghost function Interpret(p: Problem, list: seq<ImmReward>, q: seq<int>): real
    requires ListOk(p, list) && AskOk(p, q)
  {
    if list == [] then 0.0
    else
      var e := list[|list| - 1];
      if Applies(p, e, q) then ValueOf(p, e, q) else Interpret(p, list[..|list| - 1], q)
  }

  /** What the tree holds: the last entry that applies and writes gives the value. */
  ghost function InTree(p: Problem, list: seq<ImmReward>, q: seq<int>): real
    requires ListOk(p, list) && AskOk(p, q)
  {
    if list == [] then 0.0
    else
      var e := list[|list| - 1];
      if Applies(p, e, q) && Writes(p, e, q) then ValueOf(p, e, q) else InTree(p, list[..|list| - 1], q)
  }

  /** On lists of values and vectors the tree agrees with the interpreter. */
  lemma {:induction false} TreeAgrees(p: Problem, list: seq<ImmReward>, q: seq<int>)
    requires ListOk(p, list) && AskOk(p, q) && forall e | e in list :: !e.rep.IrMatrix?
    ensures InTree(p, list, q) == Interpret(p, list, q)
  {
    if list != [] {
      assert list[|list| - 1] in list;
      TreeAgrees(p, list[..|list| - 1], q);
    }
  }

  /** With matrices, tree and interpreter agree after an appended entry exactly when they did and the entry does not
      apply, or when it applies and stores the cell asked for, or when it applies and the tree holds 0 anyway. */
  lemma AgreesAfter(p: Problem, list: seq<ImmReward>, e: ImmReward, q: seq<int>)
    requires ListOk(p, list + [e]) && ListOk(p, list) && EntryOk(p, e) && AskOk(p, q)
    ensures InTree(p, list + [e], q) == Interpret(p, list + [e], q) <==>
      if Applies(p, e, q) then Writes(p, e, q) || InTree(p, list, q) == 0.0
      else InTree(p, list, q) == Interpret(p, list, q)
  {
    assert (list + [e])[..|list|] == list;
  }

  /** The last entry that applies, if any, stores the cell asked for, or covers up a 0. */
  ghost predicate Agrees(p: Problem, list: seq<ImmReward>, q: seq<int>)
    requires ListOk(p, list) && AskOk(p, q)
  {
    list == [] ||
    var front, e := list[..|list| - 1], list[|list| - 1];
    if Applies(p, e, q) then Writes(p, e, q) || InTree(p, front, q) == 0.0 else Agrees(p, front, q)
  }

  /** That is the exact condition for tree and interpreter to agree, for every list. */
  lemma {:induction false} AgreesExactly(p: Problem, list: seq<ImmReward>, q: seq<int>)
    requires ListOk(p, list) && AskOk(p, q)
    ensures InTree(p, list, q) == Interpret(p, list, q) <==> Agrees(p, list, q)
  {
    if list != [] {
      var front, e := list[..|list| - 1], list[|list| - 1];
      AgreesExactly(p, front, q);
      assert front + [e] == list;
      AgreesAfter(p, front, e, q);
    }
  }

  /** A zero cell does not override: a general reward of 5, then a matrix without stored cells. */
  lemma ZeroCellIsLost()
    ensures var p := Problem(true, 1, 1, 1);
      var list := [ImmReward(-1, -1, -1, -1, IrValue(5.0)), ImmReward(0, 0, -99, -99, IrMatrix([[]]))];
      ListOk(p, list) && AskOk(p, [0, 0, 0, 0])
      && Interpret(p, list, [0, 0, 0, 0]) == 0.0 && InTree(p, list, [0, 0, 0, 0]) == 5.0
  {
    var p := Problem(true, 1, 1, 1);
    var general, matrix := ImmReward(-1, -1, -1, -1, IrValue(5.0)), ImmReward(0, 0, -99, -99, IrMatrix([[]]));
    var q := [0, 0, 0, 0];
    assert [general, matrix][..1] == [general] && [general][..0] == [];
    assert Cell(p, [[]], q) == None;
    assert EntryOk(p, general) && EntryOk(p, matrix);
    assert Interpret(p, [general, matrix], q) == ValueOf(p, matrix, q);
    assert InTree(p, [general, matrix], q) == InTree(p, [general], q);
  }

  // ---------- Writing an entry to the tree ----------

  ghost predicate RulesOk(p: Problem, rules: seq<Rule>) {
    forall r | r in rules :: RuleOk(p.Sizes(), r.vec)
  }

  /** The value that the entry writes for the query, if only the cells before (row, col) of a matrix, or the first
      `row` elements of a vector, have been written. */
  ghost function Written(p: Problem, e: ImmReward, row: nat, col: nat, q: seq<int>): Option<real>
    requires EntryOk(p, e) && AskOk(p, q)
    requires e.rep.IrMatrix? && row < |e.rep.rows| ==> col <= |e.rep.rows[row]|
  {
    if !Applies(p, e, q) then None
    else
      match e.rep
      case IrValue(value) => if row > 0 then Some(value) else None
      case IrVector(vector) =>
        var k := if p.isPomdp then q[3] else q[2];
        if k < row then Some(vector[k]) else None
      case IrMatrix(rows) =>
        var i, j := if p.isPomdp then q[2] else q[1], if p.isPomdp then q[3] else q[2];
        if i < row then InRow(rows[i], |rows[i]|, j)
        else if i == row then InRow(rows[i], col, j)
        else None
  }

  /** The tree's rules so far: what the entry has written, over what was there before. */
  ghost predicate Progress(p: Problem, e: ImmReward, row: nat, col: nat, rules0: seq<Rule>, rules: seq<Rule>)
    requires EntryOk(p, e) && RulesOk(p, rules0) && RulesOk(p, rules)
    requires e.rep.IrMatrix? && row < |e.rep.rows| ==> col <= |e.rep.rows[row]|
  {
    forall q | AskOk(p, q) ::
      Latest(rules, q) == (var w := Written(p, e, row, col, q); if w.Some? then w.value else Latest(rules0, q))
  }

  /** The rule that is added for one element of the entry. */
  ghost function RuleFor(p: Problem, e: ImmReward, row: nat, col: nat): Rule
    requires EntryOk(p, e)
    requires e.rep.IrVector? ==> row < |e.rep.vector|
    requires e.rep.IrMatrix? ==> row < |e.rep.rows| && col < |e.rep.rows[row]|
  {
    match e.rep
    case IrValue(value) => Rule([e.action, e.curState, e.nextState, if p.isPomdp then e.obs else WILDCARD_SPEC], value)
    case IrVector(vector) =>
      if p.isPomdp then Rule([e.action, e.curState, e.nextState, row], vector[row])
      else Rule([e.action, e.curState, row, WILDCARD_SPEC], vector[row])
    case IrMatrix(rows) =>
      var cell := rows[row][col];
      if p.isPomdp then Rule([e.action, e.curState, row, cell.0], cell.1)
      else Rule([e.action, row, cell.0, WILDCARD_SPEC], cell.1)
  }

  lemma RuleForOk(p: Problem, e: ImmReward, row: nat, col: nat)
    requires EntryOk(p, e)
    requires e.rep.IrVector? ==> row < |e.rep.vector|
    requires e.rep.IrMatrix? ==> row < |e.rep.rows| && col < |e.rep.rows[row]|
    ensures RuleOk(p.Sizes(), RuleFor(p, e, row, col).vec)
  {
    if e.rep.IrMatrix? {
      assert RowOk(e.rep.rows[row], p.Width());
    }
  }

  /** Adding the rule for an element writes that element. */
  lemma ProgressStep(p: Problem, e: ImmReward, row: nat, col: nat, rules0: seq<Rule>, rules: seq<Rule>)
    requires EntryOk(p, e) && RulesOk(p, rules0) && RulesOk(p, rules)
    requires e.rep.IrValue? ==> row == 0
    requires e.rep.IrVector? ==> row < |e.rep.vector|
    requires e.rep.IrMatrix? ==> row < |e.rep.rows| && col < |e.rep.rows[row]|
    requires Progress(p, e, row, col, rules0, rules)
    ensures RulesOk(p, rules + [RuleFor(p, e, row, col)])
    ensures if e.rep.IrMatrix? then Progress(p, e, row, col + 1, rules0, rules + [RuleFor(p, e, row, col)])
            else Progress(p, e, row + 1, col, rules0, rules + [RuleFor(p, e, row, col)])
  {
    var r := RuleFor(p, e, row, col);
    RuleForOk(p, e, row, col);
    forall q | AskOk(p, q)
      ensures Latest(rules + [r], q) ==
        (var w := if e.rep.IrMatrix? then Written(p, e, row, col + 1, q) else Written(p, e, row + 1, col, q);
         if w.Some? then w.value else Latest(rules0, q))
    {
      LatestPush(rules, r, q);
      WrittenStep(p, e, row, col, q);
    }
  }

  lemma WrittenStep(p: Problem, e: ImmReward, row: nat, col: nat, q: seq<int>)
    requires EntryOk(p, e) && AskOk(p, q)
    requires e.rep.IrValue? ==> row == 0
    requires e.rep.IrVector? ==> row < |e.rep.vector|
    requires e.rep.IrMatrix? ==> row < |e.rep.rows| && col < |e.rep.rows[row]|
    ensures var r := RuleFor(p, e, row, col);
      (if e.rep.IrMatrix? then Written(p, e, row, col + 1, q) else Written(p, e, row + 1, col, q))
      == if Matches(r.vec, q, 0) then Some(r.val) else Written(p, e, row, col, q)
  {
    var v := RuleFor(p, e, row, col).vec;
    assert Matches(v, q, 0) <==> Fits(v[0], q[0]) && Fits(v[1], q[1]) && Fits(v[2], q[2]) && Fits(v[3], q[3]);
  }

  lemma NothingWritten(p: Problem, e: ImmReward, rules: seq<Rule>)
    requires EntryOk(p, e) && RulesOk(p, rules)
    ensures Progress(p, e, 0, 0, rules, rules)
    ensures e.rep.IrVector? ==> |e.rep.vector| == p.Width()
  {
  }

  lemma NextRow(p: Problem, e: ImmReward, row: nat, rules0: seq<Rule>, rules: seq<Rule>)
    requires EntryOk(p, e) && RulesOk(p, rules0) && RulesOk(p, rules)
    requires e.rep.IrMatrix? && row < |e.rep.rows| && Progress(p, e, row, |e.rep.rows[row]|, rules0, rules)
    ensures Progress(p, e, row + 1, 0, rules0, rules)
  {
    forall q | AskOk(p, q)
      ensures Written(p, e, row + 1, 0, q) == Written(p, e, row, |e.rep.rows[row]|, q)
    {
    }
  }

  /** The rules give every query the value the entry writes for it, and otherwise what they gave before. */
  ghost predicate Taken(p: Problem, e: ImmReward, rules0: seq<Rule>, rules: seq<Rule>)
    requires EntryOk(p, e) && RulesOk(p, rules0) && RulesOk(p, rules)
  {
    forall q | AskOk(p, q) ::
      (Latest(rules, q) == if Applies(p, e, q) && Writes(p, e, q) then ValueOf(p, e, q) else Latest(rules0, q))
  }

  lemma AllWritten(p: Problem, e: ImmReward, row: nat, rules0: seq<Rule>, rules: seq<Rule>)
    requires EntryOk(p, e) && RulesOk(p, rules0) && RulesOk(p, rules) && Progress(p, e, row, 0, rules0, rules)
    requires row == match e.rep case IrValue(_) => 1 case IrVector(vector) => |vector| case IrMatrix(rows) => |rows|
    ensures Taken(p, e, rules0, rules)
  {
  }

  /** The reward store: the list of entries and the tree built from it. */
  class RewardStore {
    const p: Problem
    const tree: RewardTree
    var immRewardList: seq<ImmReward>

    ghost predicate Valid()
      reads this, tree, tree.gTree, tree.gTree.Repr
    {
      && tree.Valid() && this !in tree.gTree.Repr && tree.gTableSizes == p.Sizes() && ListOk(p, immRewardList)
      && RulesOk(p, tree.rules)
      && forall q | AskOk(p, q) :: Latest(tree.rules, q) == InTree(p, immRewardList, q)
    }

    constructor (p: Problem)
      ensures Valid() && this.p == p && immRewardList == [] && fresh(tree) && fresh(tree.gTree.Repr)
    {
      this.p := p;
      tree := new RewardTree(p.numActions, p.numStates, p.numObservations);
      immRewardList := [];
    }

    /** Adds the rule for one element. */
    method AddRule(action: int, curState: int, nextState: int, obs: int, val: real)
      requires tree.Valid() && this !in tree.gTree.Repr && RuleOk(tree.gTableSizes, [action, curState, nextState, obs])
      modifies tree, tree.gTree.Repr
      ensures tree.Valid() && this !in tree.gTree.Repr && fresh(tree.gTree.Repr - old(tree.gTree.Repr))
      ensures tree.rules == old(tree.rules) + [Rule([action, curState, nextState, obs], val)]
    {
      tree.Add(action, curState, nextState, obs, val);
    }

    /** Writes an entry to the tree, element by element. */
    method AddToDecisionTree(e: ImmReward)
      requires tree.Valid() && this !in tree.gTree.Repr && tree.gTableSizes == p.Sizes() && EntryOk(p, e)
      requires RulesOk(p, tree.rules)
      modifies tree, tree.gTree.Repr
      ensures tree.Valid() && this !in tree.gTree.Repr && fresh(tree.gTree.Repr - old(tree.gTree.Repr))
      ensures RulesOk(p, tree.rules)
      ensures Taken(p, e, old(tree.rules), tree.rules)
    {
      hide Progress, RulesOk, RuleOk, Latest, Written, RowOk, ValueOf, Writes, Applies, RewardTree.Valid, EntryOk;
      ghost var rules0 := tree.rules;
      NothingWritten(p, e, rules0);
      ghost var done := 0;
      match e.rep {
        case IrValue(value) =>
          RuleForOk(p, e, 0, 0);
          ProgressStep(p, e, 0, 0, rules0, tree.rules);
          AddRule(e.action, e.curState, e.nextState, if p.isPomdp then e.obs else WILDCARD_SPEC, value);
          done := 1;
        case IrVector(vector) =>
          for i := 0 to |vector|
            invariant tree.Valid() && this !in tree.gTree.Repr && fresh(tree.gTree.Repr - old(tree.gTree.Repr))
            invariant RulesOk(p, tree.rules) && Progress(p, e, i, 0, rules0, tree.rules)
          {
            RuleForOk(p, e, i, 0);
            ProgressStep(p, e, i, 0, rules0, tree.rules);
            if p.isPomdp {
              AddRule(e.action, e.curState, e.nextState, i, vector[i]);
            } else {
              AddRule(e.action, e.curState, i, WILDCARD_SPEC, vector[i]);
            }
          }
          done := |vector|;
        case IrMatrix(rows) =>
          for i := 0 to |rows|
            invariant tree.Valid() && this !in tree.gTree.Repr && fresh(tree.gTree.Repr - old(tree.gTree.Repr))
            invariant RulesOk(p, tree.rules) && Progress(p, e, i, 0, rules0, tree.rules)
          {
            for j := 0 to |rows[i]|
              invariant tree.Valid() && this !in tree.gTree.Repr && fresh(tree.gTree.Repr - old(tree.gTree.Repr))
              invariant RulesOk(p, tree.rules) && Progress(p, e, i, j, rules0, tree.rules)
            {
              RuleForOk(p, e, i, j);
              ProgressStep(p, e, i, j, rules0, tree.rules);
              if p.isPomdp {
                AddRule(e.action, e.curState, i, rows[i][j].0, rows[i][j].1);
              } else {
                AddRule(e.action, i, rows[i][j].0, WILDCARD_SPEC, rows[i][j].1);
              }
            }
            NextRow(p, e, i, rules0, tree.rules);
          }
          done := |rows|;
      }
      AllWritten(p, e, done, rules0, tree.rules);
    }

    /** Takes over an entry that has been read completely. */
    method DoneImmReward(e: ImmReward)
      requires Valid() && EntryOk(p, e)
      modifies this, tree, tree.gTree.Repr
      ensures Valid() && fresh(tree.gTree.Repr - old(tree.gTree.Repr))
      ensures immRewardList == old(immRewardList) + [e]
    {
      hide EntryOk, Latest, AskOk, RulesOk;
      ghost var rules0 := tree.rules;
      ghost var list0 := immRewardList;
      AddToDecisionTree(e);
      immRewardList := immRewardList + [e];
      assert immRewardList[..|list0|] == list0;
    }

    method GetImmediateReward(action: int, curState: int, nextState: int, obs: int) returns (r: real)
      requires Valid() && AskOk(p, [action, curState, nextState, obs])
      ensures r == InTree(p, immRewardList, [action, curState, nextState, obs])
      ensures r == Interpret(p, immRewardList, [action, curState, nextState, obs]) <==>
        Agrees(p, immRewardList, [action, curState, nextState, obs])
      ensures (forall e | e in immRewardList :: !e.rep.IrMatrix?) ==>
        r == Interpret(p, immRewardList, [action, curState, nextState, obs])
    {
      AgreesExactly(p, immRewardList, [action, curState, nextState, obs]);
      r := tree.Query(action, curState, nextState, obs);
      if forall e | e in immRewardList :: !e.rep.IrMatrix? {
        TreeAgrees(p, immRewardList, [action, curState, nextState, obs]);
      }
    }
  }
}
