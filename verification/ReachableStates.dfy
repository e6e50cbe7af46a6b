/** The state table of a RockExplore model: a breadth-first search enters exactly the states that can be reached. */
module ReachableStates {
  import opened RealArith
  import opened REBasicPomdp
  import opened RockExplore

  /** The state after a sequence of actions. */
  function Follow(rockPos: seq<REPos>, s: REState, acts: seq<nat>): REState
    requires StateOk(rockPos, s)
    decreases |acts|
  {
    if acts == [] then s
    else
      EffectStaysOk(rockPos, s, ActionOf(acts[0]));
      Follow(rockPos, Effect(rockPos, s, ActionOf(acts[0])).1, acts[1..])
  }

  function NumActions(rockPos: seq<REPos>): nat {
    |rockPos| + 5
  }

  /** Actions that exist. */
  ghost predicate ActsOk(rockPos: seq<REPos>, acts: seq<nat>) {
    forall a | a in acts :: a < NumActions(rockPos)
  }

  lemma {:induction false} FollowPush(rockPos: seq<REPos>, s: REState, acts: seq<nat>, a: nat)
    requires StateOk(rockPos, s)
    ensures StateOk(rockPos, Follow(rockPos, s, acts))
    ensures Follow(rockPos, s, acts + [a]) == Effect(rockPos, Follow(rockPos, s, acts), ActionOf(a)).1
    decreases |acts|
  {
    hide Effect;
    if acts == [] {
      EffectStaysOk(rockPos, s, ActionOf(a));
      assert ([] + [a])[1..] == [];
    } else {
      EffectStaysOk(rockPos, s, ActionOf(acts[0]));
      FollowPush(rockPos, Effect(rockPos, s, ActionOf(acts[0])).1, acts[1..], a);
      assert (acts + [a])[1..] == acts[1..] + [a];
    }
  }

  /** `s` can be reached from one of the states `starts`. */
  ghost predicate Reachable(rockPos: seq<REPos>, starts: seq<REState>, s: REState) {
    exists i, acts :: 0 <= i < |starts| && StateOk(rockPos, starts[i]) && ActsOk(rockPos, acts)
      && Follow(rockPos, starts[i], acts) == s
  }

  lemma StartReachable(rockPos: seq<REPos>, starts: seq<REState>, i: nat)
    requires i < |starts| && StateOk(rockPos, starts[i])
    ensures Reachable(rockPos, starts, starts[i])
  {
    assert Follow(rockPos, starts[i], []) == starts[i] && ActsOk(rockPos, []);
  }

  lemma StepReachable(rockPos: seq<REPos>, starts: seq<REState>, s: REState, a: nat)
    requires Reachable(rockPos, starts, s) && a < NumActions(rockPos) && StateOk(rockPos, s)
    ensures Reachable(rockPos, starts, Effect(rockPos, s, ActionOf(a)).1)
  {
    hide Effect, StateOk, Follow;
    var i, acts :| 0 <= i < |starts| && StateOk(rockPos, starts[i]) && ActsOk(rockPos, acts)
      && Follow(rockPos, starts[i], acts) == s;
    FollowPush(rockPos, starts[i], acts, a);
    assert ActsOk(rockPos, acts + [a]);
  }

  /** No action leads out of the table. */
  ghost predicate Closed(rockPos: seq<REPos>, states: seq<REState>) {
    forall i, a: nat | 0 <= i < |states| && a < NumActions(rockPos) :: LeadsInto(rockPos, states, states[i], a)
  }

  ghost predicate LeadsInto(rockPos: seq<REPos>, states: seq<REState>, s: REState, a: nat) {
    StateOk(rockPos, s) && Effect(rockPos, s, ActionOf(a)).1 in states
  }

  /** A closed table that holds a state holds everything that can be reached from it. */
  lemma {:induction false} ClosedHasAll(rockPos: seq<REPos>, states: seq<REState>, s: REState, acts: seq<nat>)
    requires Closed(rockPos, states) && s in states && ActsOk(rockPos, acts)
    ensures StateOk(rockPos, s) && Follow(rockPos, s, acts) in states
    decreases |acts|
  {
    hide Effect;
    var i :| 0 <= i < |states| && states[i] == s;
    assert LeadsInto(rockPos, states, states[i], 0);
    if acts != [] {
      assert acts[0] in acts && forall a | a in acts[1..] :: a in acts;
      assert LeadsInto(rockPos, states, states[i], acts[0]);
      ClosedHasAll(rockPos, states, Effect(rockPos, s, ActionOf(acts[0])).1, acts[1..]);
    }
  }

  /** There are finitely many states. */
  ghost function Universe(n: nat): set<REState> {
    {TERMINAL} + (set x, y, k | 0 <= x < RE_WIDTH && 0 <= y < RE_HEIGHT && 0 <= k < |AllBits(n)| ::
                    REState(false, REPos(x, y), AllBits(n)[k]))
  }

  lemma InUniverse(rockPos: seq<REPos>, s: REState)
    requires StateOk(rockPos, s)
    ensures s in Universe(|rockPos|)
  {
    hide AllBits;
    if s != TERMINAL {
      var k := AllBitsComplete(s.rockIsGood);
      assert s == REState(false, REPos(s.robotPos.x, s.robotPos.y), AllBits(|rockPos|)[k]);
    }
  }

  /** The states of a belief. */
  function Support(states: seq<REState>, b: REBelief): (r: seq<REState>)
    requires forall j | 0 <= j < |b| :: b[j].index < |states|
    ensures |r| == |b| && forall j | 0 <= j < |b| :: r[j] == states[b[j].index]
  {
    seq(|b|, j requires 0 <= j < |b| => states[b[j].index])
  }

  /** A state of the table is reachable, or it is the terminal state, which has index 0. */
  ghost predicate Entered(rockPos: seq<REPos>, starts: seq<REState>, s: REState) {
    StateOk(rockPos, s) && (s == TERMINAL || Reachable(rockPos, starts, s))
  }

  /** State `i` has been visited or is in the queue, or need not be. */
  ghost predicate Noted(visited: set<nat>, queue: seq<nat>, i: nat) {
    i == 0 || i in visited || i in queue
  }

  /** The state of the search between two queue entries. */
  ghost predicate Searching(rockPos: seq<REPos>, states: seq<REState>, starts: seq<REState>, visited: set<nat>,
                            queue: seq<nat>) {
    && |states| > 0 && states[0] == TERMINAL
    && (forall i | 0 <= i < |states| :: Entered(rockPos, starts, states[i]) && Noted(visited, queue, i))
    && (forall q | q in queue :: q < |states|) && (forall i | i in visited :: i < |states|)
    && (forall i, a: nat | i in visited && i < |states| && a < NumActions(rockPos) ::
          LeadsInto(rockPos, states, states[i], a))
  }

  lemma SearchDone(rockPos: seq<REPos>, states: seq<REState>, starts: seq<REState>, visited: set<nat>)
    requires Searching(rockPos, states, starts, visited, [])
    ensures Closed(rockPos, states)
  {
    forall i, a: nat | 0 <= i < |states| && a < NumActions(rockPos)
      ensures LeadsInto(rockPos, states, states[i], a)
    {
      assert Noted(visited, [], i);
      if i !in visited {
        assert Effect(rockPos, TERMINAL, ActionOf(a)).1 == states[0];
      }
    }
  }

  lemma SearchStart(rockPos: seq<REPos>, states: seq<REState>, b0: REBelief, pos: REPos, queue: seq<nat>)
    requires OnMap(pos) && AllAt(states, b0, pos, |rockPos|) && AddsOnly(b0, 1, |states|)
    requires |states| > 0 && states[0] == TERMINAL
    requires |queue| == |b0| && forall j | 0 <= j < |b0| :: queue[j] == b0[j].index
    ensures Searching(rockPos, states, Support(states, b0), {}, queue)
  {
    var starts := Support(states, b0);
    forall i | 0 <= i < |states|
      ensures Entered(rockPos, starts, states[i]) && Noted({}, queue, i)
    {
      if i > 0 {
        assert HasIndex(b0, i);
        var j :| 0 <= j < |b0| && b0[j].index == i;
        assert queue[j] == i && starts[j] == states[i];
        StartReachable(rockPos, starts, j);
      }
    }
  }

  /** An entry that was visited before is dropped. */
  lemma SearchSkip(rockPos: seq<REPos>, states: seq<REState>, starts: seq<REState>, visited: set<nat>, queue: seq<nat>)
    requires Searching(rockPos, states, starts, visited, queue) && queue != [] && queue[0] in visited
    ensures Searching(rockPos, states, starts, visited, queue[1..])
  {
    assert forall q | q in queue[1..] :: q in queue;
    forall i | 0 <= i < |states|
      ensures Noted(visited, queue[1..], i)
    {
      assert Noted(visited, queue, i);
    }
  }

  /** The state of the search while the actions of `si` are tried: those before `n` have been. */
  ghost predicate Trying(rockPos: seq<REPos>, states: seq<REState>, starts: seq<REState>, visited: set<nat>,
                         queue: seq<nat>, si: nat, n: nat) {
    && |states| > 0 && states[0] == TERMINAL && si < |states|
    && (forall i | 0 <= i < |states| :: Entered(rockPos, starts, states[i]) && Noted(visited + {si}, queue, i))
    && (forall q | q in queue :: q < |states|) && (forall i | i in visited :: i < |states|)
    && (forall i, a: nat | i in visited && i < |states| && a < NumActions(rockPos) ::
          LeadsInto(rockPos, states, states[i], a))
    && (forall a: nat | a < n :: LeadsInto(rockPos, states, states[si], a))
  }

  lemma TryFirst(rockPos: seq<REPos>, states: seq<REState>, starts: seq<REState>, visited: set<nat>, queue: seq<nat>)
    requires Searching(rockPos, states, starts, visited, queue) && queue != []
    ensures Trying(rockPos, states, starts, visited, queue[1..], queue[0], 0)
  {
    assert queue[0] in queue && forall q | q in queue[1..] :: q in queue;
    forall i | 0 <= i < |states|
      ensures Noted(visited + {queue[0]}, queue[1..], i)
    {
      assert Noted(visited, queue, i);
    }
  }

  lemma TryNext(rockPos: seq<REPos>, states: seq<REState>, starts: seq<REState>, visited: set<nat>, queue: seq<nat>,
                si: nat, a: nat, states': seq<REState>, id: nat)
    requires Trying(rockPos, states, starts, visited, queue, si, a) && a < NumActions(rockPos)
    requires StateOk(rockPos, states[si])
    requires states' == states || states' == states + [Effect(rockPos, states[si], ActionOf(a)).1]
    requires |states'| > |states| ==> id == |states|
    requires id < |states'| && states'[id] == Effect(rockPos, states[si], ActionOf(a)).1
    ensures Trying(rockPos, states', starts, visited, queue + [id], si, a + 1)
  {
    var next := Effect(rockPos, states[si], ActionOf(a)).1;
    EffectStaysOk(rockPos, states[si], ActionOf(a));
    assert Entered(rockPos, starts, next) by {
      assert Entered(rockPos, starts, states[si]);
      if states[si] != TERMINAL {
        StepReachable(rockPos, starts, states[si], a);
      }
    }
    hide Effect, StateOk, Reachable;
    forall i | 0 <= i < |states'|
      ensures Entered(rockPos, starts, states'[i]) && Noted(visited + {si}, queue + [id], i)
    {
      if i < |states| {
        assert states'[i] == states[i] && Noted(visited + {si}, queue, i);
      } else {
        assert (queue + [id])[|queue|] == i;
      }
    }
    forall i, b: nat | i in visited && i < |states'| && b < NumActions(rockPos)
      ensures LeadsInto(rockPos, states', states'[i], b)
    {
      assert LeadsInto(rockPos, states, states[i], b);
    }
    forall b: nat | b < a + 1
      ensures LeadsInto(rockPos, states', states'[si], b)
    {
      if b < a {
        assert LeadsInto(rockPos, states, states[si], b);
      }
    }
  }

  lemma HeadInUniverse(rockPos: seq<REPos>, states: seq<REState>, starts: seq<REState>, visited: set<nat>,
      queue: seq<nat>)
    requires Searching(rockPos, states, starts, visited, queue) && queue != []
    ensures queue[0] < |states| && states[queue[0]] in Universe(|rockPos|)
  {
    hide Universe;
    assert queue[0] in queue;
    assert Entered(rockPos, starts, states[queue[0]]);
    InUniverse(rockPos, states[queue[0]]);
  }

  /** The search starts where the belief has its weight. */
  lemma StartStates(states: seq<REState>, b: REBelief, pos: REPos, p: seq<real>)
    requires AllAt(states, b, pos, |p|)
    requires forall bits: Bits | |bits| == |p| && ProbOf(bits, p) > 0.0 :: Holds(states, b, REState(false, pos, bits))
    ensures forall j | 0 <= j < |b| :: b[j].index < |states|
    ensures forall s | s in Support(states, b) :: !s.isTerminalState && s.robotPos == pos && |s.rockIsGood| == |p|
    ensures forall bits: Bits | |bits| == |p| && ProbOf(bits, p) > 0.0 ::
      REState(false, pos, bits) in Support(states, b)
    ensures Done(states, {}, {})
  {
    hide ProbOf;
    forall bits: Bits | |bits| == |p| && ProbOf(bits, p) > 0.0
      ensures REState(false, pos, bits) in Support(states, b)
    {
      var j :| 0 <= j < |b| && b[j].index < |states| && states[b[j].index] == REState(false, pos, bits);
      assert Support(states, b)[j] == REState(false, pos, bits);
    }
  }

  /** `done` holds states that have been visited. */
  ghost predicate Done(states: seq<REState>, visited: set<nat>, done: set<REState>) {
    forall s | s in done :: exists i :: i in visited && i < |states| && states[i] == s
  }

  lemma NotYetDone(re: RockExploreModel, visited: set<nat>, done: set<REState>, si: nat)
    requires re.Valid() && Done(re.states, visited, done) && si < |re.states| && si !in visited
    ensures re.states[si] !in done
  {
  }

  lemma DoneStep(states: seq<REState>, visited: set<nat>, done: set<REState>, si: nat, states': seq<REState>)
    requires Done(states, visited, done) && si < |states| && states <= states'
    ensures Done(states', visited + {si}, done + {states[si]})
  {
    forall s | s in done + {states[si]}
      ensures exists i :: i in visited + {si} && i < |states'| && states'[i] == s
    {
      if s in done {
        var i :| i in visited && i < |states| && states[i] == s;
        assert i in visited + {si} && states'[i] == s;
      } else {
        assert si in visited + {si} && states'[si] == s;
      }
    }
  }

  lemma TryDone(rockPos: seq<REPos>, states: seq<REState>, starts: seq<REState>, visited: set<nat>, queue: seq<nat>,
      si: nat)
    requires Trying(rockPos, states, starts, visited, queue, si, NumActions(rockPos))
    ensures Searching(rockPos, states, starts, visited + {si}, queue)
  {
  }

  lemma TableIsExact(rockPos: seq<REPos>, states: seq<REState>, starts: seq<REState>, visited: set<nat>)
    requires Searching(rockPos, states, starts, visited, []) && Closed(rockPos, states)
    requires forall s | s in starts :: s in states
    ensures forall s | s in states :: Entered(rockPos, starts, s)
    ensures forall s | Reachable(rockPos, starts, s) :: s in states
  {
    hide Effect, StateOk, Closed, Follow, Entered;
    forall s | Reachable(rockPos, starts, s)
      ensures s in states
    {
      var i, acts :| 0 <= i < |starts| && StateOk(rockPos, starts[i]) && ActsOk(rockPos, acts)
        && Follow(rockPos, starts[i], acts) == s;
      ClosedHasAll(rockPos, states, starts[i], acts);
    }
  }

  /** Visits the state at the head of the queue: tries every action, and queues what it leads to. */
  method TryActions(re: RockExploreModel, ghost starts: seq<REState>, ghost visited: set<nat>, queue0: seq<nat>)
    returns (queue: seq<nat>)
    requires re.Valid() && queue0 != [] && Searching(re.rockPos, re.states, starts, visited, queue0)
    modifies re
    ensures re.Valid() && old(re.states) <= re.states
    ensures Searching(re.rockPos, re.states, starts, visited + {queue0[0]}, queue)
    ensures queue0[0] < |old(re.states)|
  {
    hide StateOk, Searching, Reachable, Effect, Mass;
    var si := queue0[0];
    TryFirst(re.rockPos, re.states, starts, visited, queue0);
    queue := queue0[1..];
    for a := 0 to NumActions(re.rockPos)
      invariant re.Valid() && old(re.states) <= re.states
      invariant Trying(re.rockPos, re.states, starts, visited, queue, si, a)
    {
      ghost var states0 := re.states;
      assert Entered(re.rockPos, starts, re.states[si]);
      var result := re.GetActionResult(si, a);
      TryNext(re.rockPos, states0, starts, visited, queue, si, a, re.states, result.outcomes[0].index);
      queue := queue + [result.outcomes[0].index];
    }
    TryDone(re.rockPos, re.states, starts, visited, queue, si);
  }

  /** Enters all reachable states into the table of a new model: the table ends up closed under every action, and
      holds nothing that cannot be reached, except perhaps the terminal state. The search starts from every state in
      which the robot is at `pos` and that has positive probability. */
  method GenerateReachableStates(re: RockExploreModel, pos: REPos,
      rockProbs: seq<real>) returns (ghost starts: seq<REState>)
    requires re.Valid() && re.states == [TERMINAL]
    requires OnMap(pos) && ProbsOk(rockProbs) && |rockProbs| == |re.rockPos|
    modifies re
    ensures re.Valid() && Closed(re.rockPos, re.states)
    ensures forall s | s in re.states :: Entered(re.rockPos, starts, s)
    ensures forall s | s in starts :: s in re.states
    ensures forall s | s in starts :: !s.isTerminalState && s.robotPos == pos && |s.rockIsGood| == |rockProbs|
    ensures forall bits: Bits | |bits| == |rockProbs| && ProbOf(bits, rockProbs) > 0.0 ::
      REState(false, pos, bits) in starts
    ensures forall s | Reachable(re.rockPos, starts, s) :: s in re.states
  {
    hide *;
    var b0 := re.GetBelief(pos, rockProbs);
    var queue: seq<nat> := [];
    for j := 0 to |b0|
      invariant |queue| == j && forall l | 0 <= l < j :: queue[l] == b0[l].index
    {
      queue := queue + [b0[j].index];
    }
    StartStates(re.states, b0, pos, rockProbs);
    starts := Support(re.states, b0);
    ghost var states0 := re.states;
    SearchStart(re.rockPos, re.states, b0, pos, queue);
    var visited: set<nat> := {};
    ghost var done: set<REState> := {};
    while queue != []
      invariant re.Valid() && states0 <= re.states && Searching(re.rockPos, re.states, starts, visited, queue)
      invariant Done(re.states, visited, done)
      decreases Universe(|re.rockPos|) - done, |queue|
    {
      var si := queue[0];
      if si in visited {
        SearchSkip(re.rockPos, re.states, starts, visited, queue);
        queue := queue[1..];
      } else {
        HeadInUniverse(re.rockPos, re.states, starts, visited, queue);
        NotYetDone(re, visited, done, si);
        ghost var states1 := re.states;
        queue := TryActions(re, starts, visited, queue);
        DoneStep(states1, visited, done, si, re.states);
        visited := visited + {si};
        done := done + {re.states[si]};
      }
    }
    SearchDone(re.rockPos, re.states, starts, visited);
    TableIsExact(re.rockPos, re.states, starts, visited);
  }

  /** The position of a state in the table. */
  function IndexOf(states: seq<REState>, s: REState): (k: nat)
    requires s in states
    ensures k < |states| && states[k] == s
  {
    if states[0] == s then 0 else 1 + IndexOf(states[1..], s)
  }

  /** One action in one state, as an entry of the model. */
  function ResultOf(rockPos: seq<REPos>, states: seq<REState>, s: REState, a: nat): REActionResult
    requires LeadsInto(rockPos, states, s, a)
  {
    var effect := Effect(rockPos, s, ActionOf(a));
    REActionResult(effect.0, [REBeliefEntry(1.0, IndexOf(states, effect.1))])
  }

  lemma ClosedLeadsInto(rockPos: seq<REPos>, states: seq<REState>)
    requires Closed(rockPos, states)
    ensures forall i, a: nat | 0 <= i < |states| && a < NumActions(rockPos) :: LeadsInto(rockPos, states, states[i], a)
    ensures forall i | 0 <= i < |states| :: StateOk(rockPos, states[i])
  {
    forall i | 0 <= i < |states|
      ensures StateOk(rockPos, states[i])
    {
      assert LeadsInto(rockPos, states, states[i], 0);
    }
  }

  /** The model that a closed table describes. */
  ghost function ModelOf(rockPos: seq<REPos>, states: seq<REState>): BasicPomdp
    requires Closed(rockPos, states)
  {
    ClosedLeadsInto(rockPos, states);
    BasicPomdp(|states|, 2, NumActions(rockPos),
      seq(|states|, i requires 0 <= i < |states| =>
        seq(NumActions(rockPos), a requires 0 <= a < NumActions(rockPos) => ResultOf(rockPos, states, states[i], a))),
      seq(NumActions(rockPos), a requires 0 <= a < NumActions(rockPos) =>
        seq(|states|, i requires 0 <= i < |states| =>
          [GetObsProb(rockPos, ActionOf(a), states[i], 0), GetObsProb(rockPos, ActionOf(a), states[i], 1)])))
  }

  /** So the belief updates and the value iteration are defined on what the search has entered. */
  lemma ModelIsValid(rockPos: seq<REPos>, states: seq<REState>)
    requires Closed(rockPos, states)
    ensures ModelOf(rockPos, states).Valid()
  {
    ClosedLeadsInto(rockPos, states);
    var m := ModelOf(rockPos, states);
    hide Effect, IndexOf;
    forall si, a | 0 <= si < |states| && 0 <= a < m.numActions
      ensures m.ResultOk(si, a)
    {
      var outs := m.results[si][a].outcomes;
      assert outs == ResultOf(rockPos, states, states[si], a).outcomes;
      assert outs[..0] == [] && Mass([]) == 0.0;
      assert Normalized(outs, m.numStates);
    }
    forall a, sp | 0 <= a < m.numActions && 0 <= sp < |states|
      ensures m.ObsOk(a, sp)
    {
      ObsProbsAddUp(rockPos, ActionOf(a), states[sp]);
      PairSum(m.obsProbs[a][sp]);
    }
  }

  lemma PairSum(u: seq<real>)
    requires |u| == 2
    ensures SumTo(u, 2) == u[0] + u[1]
  {
    assert SumTo(u, 1) == SumTo(u, 0) + u[0];
  }
}
