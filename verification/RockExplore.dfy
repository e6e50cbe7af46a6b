/** RockExplore: its states and dynamics, and the passage between rock probabilities and beliefs. */
module RockExplore {
  import opened RealArith
  import opened REBasicPomdp

  const RE_WIDTH: int := 4
  const RE_HEIGHT: int := 4
  const RE_COST_MOVE: real := -1.0
  const RE_COST_CHECK: real := -1.0
  const RE_COST_ILLEGAL: real := -100.0
  const RE_COST_SAMPLE_BAD: real := -15.0
  const RE_REWARD_SAMPLE_GOOD: real := 15.0
  const RE_REWARD_EXIT: real := 15.0

  type Bits = seq<bool>

  datatype REPos = REPos(x: int, y: int)

  datatype REState = REState(isTerminalState: bool, robotPos: REPos, rockIsGood: Bits)

  const TERMINAL := REState(true, REPos(0, 0), [])

  // ---------- Bit vectors ----------

  function Prefixed(b: bool, list: seq<Bits>): (r: seq<Bits>)
    ensures |r| == |list| && forall i | 0 <= i < |r| :: r[i] == [b] + list[i]
  {
    seq(|list|, i requires 0 <= i < |list| => [b] + list[i])
  }

  /** All vectors of `n` bits, counted upwards with the first bit as the most significant one. */
  function AllBits(n: nat): (r: seq<Bits>)
    ensures |r| > 0 && forall i | 0 <= i < |r| :: |r[i]| == n
  {
    if n == 0 then [[]] else Prefixed(false, AllBits(n - 1)) + Prefixed(true, AllBits(n - 1))
  }

  function Pow2(n: nat): nat {
    if n == 0 then 1 else 2 * Pow2(n - 1)
  }

  lemma {:induction false} AllBitsCount(n: nat)
    ensures |AllBits(n)| == Pow2(n)
  {
    if n > 0 {
      AllBitsCount(n - 1);
    }
  }

  lemma AllBitsStep(n: nat)
    ensures AllBits(0) == [[]]
    ensures n > 0 ==> AllBits(n) == Prefixed(false, AllBits(n - 1)) + Prefixed(true, AllBits(n - 1))
  {
  }

  lemma AllBitsSplit(n: nat, k: nat)
    requires n > 0 && k < |AllBits(n)|
    ensures |AllBits(n)| == 2 * |AllBits(n - 1)|
    ensures var half := |AllBits(n - 1)|;
      && AllBits(n)[k][0] == (k >= half)
      && AllBits(n)[k][1..] == AllBits(n - 1)[if k < half then k else k - half]
  {
    hide Prefixed;
  }

  /** No vector is listed twice. */
  lemma {:induction false} AllBitsDistinct(n: nat, i: nat, j: nat)
    requires i < j < |AllBits(n)|
    ensures AllBits(n)[i] != AllBits(n)[j]
  {
    hide AllBits;
    AllBitsStep(0);
    if n > 0 {
      AllBitsSplit(n, i);
      AllBitsSplit(n, j);
      var half := |AllBits(n - 1)|;
      if i < half <= j {
        assert AllBits(n)[i][0] != AllBits(n)[j][0];
      } else {
        AllBitsDistinct(n - 1, if i < half then i else i - half, if j < half then j else j - half);
      }
    }
  }

  /** Every vector is listed. */
  lemma {:induction false} AllBitsComplete(bits: Bits) returns (k: nat)
    ensures k < |AllBits(|bits|)| && AllBits(|bits|)[k] == bits
  {
    hide AllBits;
    AllBitsStep(0);
    if bits == [] {
      k := 0;
    } else {
      var h := AllBitsComplete(bits[1..]);
      var half := |AllBits(|bits| - 1)|;
      k := if bits[0] then half + h else h;
      AllBitsStep(|bits|);
      AllBitsSplit(|bits|, k);
      var found := AllBits(|bits|)[k];
      assert found == [found[0]] + found[1..] && bits == [bits[0]] + bits[1..];
    }
  }

  predicate AllTrue(bits: Bits) {
    forall i | 0 <= i < |bits| :: bits[i]
  }

  function Falses(n: nat): (r: Bits)
    ensures |r| == n && forall i | 0 <= i < n :: !r[i]
  {
    seq(n, _ => false)
  }

  /** One more than the vector, read as a binary number. */
  function Succ(bits: Bits): Bits
    requires !AllTrue(bits)
  {
    if AllTrue(bits[1..]) then [true] + Falses(|bits| - 1) else [bits[0]] + Succ(bits[1..])
  }

  lemma {:induction false} SuccAt(bits: Bits, r: nat)
    requires r < |bits| && !bits[r] && forall j | r < j < |bits| :: bits[j]
    ensures !AllTrue(bits) && Succ(bits) == bits[..r] + [true] + Falses(|bits| - r - 1)
  {
    if r == 0 {
      assert AllTrue(bits[1..]);
    } else {
      assert !bits[1..][r - 1];
      SuccAt(bits[1..], r - 1);
      assert bits[..r] == [bits[0]] + bits[1..][..r - 1];
    }
  }

  lemma {:induction false} FirstIsFalse(n: nat)
    ensures AllBits(n)[0] == Falses(n)
  {
    if n > 0 {
      AllBitsSplit(n, 0);
      FirstIsFalse(n - 1);
      var first := AllBits(n)[0];
      assert first == [first[0]] + first[1..];
    }
  }

  lemma {:induction false} LastIsTrue(n: nat, k: nat)
    requires k < |AllBits(n)|
    ensures AllTrue(AllBits(n)[k]) <==> k == |AllBits(n)| - 1
  {
    if n > 0 {
      AllBitsSplit(n, k);
      var bits, half := AllBits(n)[k], |AllBits(n - 1)|;
      LastIsTrue(n - 1, if k < half then k else k - half);
      AllTrueSplits(bits);
    }
  }

  lemma AllTrueSplits(bits: Bits)
    requires bits != []
    ensures AllTrue(bits) <==> bits[0] && AllTrue(bits[1..])
  {
    if bits[0] && AllTrue(bits[1..]) {
      forall i | 0 <= i < |bits|
        ensures bits[i]
      {
        assert i > 0 ==> bits[1..][i - 1] == bits[i];
      }
    }
  }

  lemma SuccSplits(bits: Bits)
    requires !AllTrue(bits)
    ensures |bits| > 0
    ensures Succ(bits) == if AllTrue(bits[1..]) then [true] + Falses(|bits| - 1) else [bits[0]] + Succ(bits[1..])
    ensures AllTrue(bits[1..]) ==> !bits[0]
  {
    AllTrueSplits(bits);
  }

  /** Adding one goes through the list in order. */
  lemma {:induction false} SuccIsNext(n: nat, k: nat)
    requires k < |AllBits(n)| && !AllTrue(AllBits(n)[k])
    ensures k + 1 < |AllBits(n)| && Succ(AllBits(n)[k]) == AllBits(n)[k + 1]
  {
    hide AllBits, AllTrue, Falses;
    LastIsTrue(n, k);
    AllBitsStep(0);
    LastIsTrue(0, 0);
    if n > 0 {
      var bits, next, half := AllBits(n)[k], AllBits(n)[k + 1], |AllBits(n - 1)|;
      AllBitsSplit(n, k);
      AllBitsSplit(n, k + 1);
      var h := if k < half then k else k - half;
      assert next == [next[0]] + next[1..];
      LastIsTrue(n - 1, h);
      FirstIsFalse(n - 1);
      if !AllTrue(bits[1..]) {
        SuccIsNext(n - 1, h);
      }
      SuccSplits(bits);
    }
  }

  // ---------- Probabilities of vectors ----------

  function BitProb(good: bool, p: real): real {
    if good then p else 1.0 - p
  }

  function ProbOf(bits: Bits, p: seq<real>): real
    requires |bits| == |p|
  {
    if bits == [] then 1.0 else Times(BitProb(bits[0], p[0]), ProbOf(bits[1..], p[1..]))
  }

  ghost predicate ProbsOk(p: seq<real>) {
    forall i | 0 <= i < |p| :: 0.0 <= p[i] <= 1.0
  }

  lemma {:induction false} ProbNonNegative(bits: Bits, p: seq<real>)
    requires |bits| == |p| && ProbsOk(p)
    ensures ProbOf(bits, p) >= 0.0
  {
    if bits != [] {
      ProbNonNegative(bits[1..], p[1..]);
      ProductNonNegative(BitProb(bits[0], p[0]), ProbOf(bits[1..], p[1..]));
    }
  }

  /** The total probability of the listed vectors, or of those in which bit `r` is set. */
  ghost function SumProb(list: seq<Bits>, p: seq<real>): real
    requires forall i | 0 <= i < |list| :: |list[i]| == |p|
  {
    if list == [] then 0.0 else SumProb(list[..|list| - 1], p) + ProbOf(list[|list| - 1], p)
  }

  ghost function SumGood(list: seq<Bits>, p: seq<real>, r: nat): real
    requires (forall i | 0 <= i < |list| :: |list[i]| == |p|) && r < |p|
  {
    if list == [] then 0.0
    else SumGood(list[..|list| - 1], p, r) + if list[|list| - 1][r] then ProbOf(list[|list| - 1], p) else 0.0
  }

  lemma {:induction false} SumConcat(a: seq<Bits>, b: seq<Bits>, p: seq<real>)
    requires (forall i | 0 <= i < |a| :: |a[i]| == |p|) && (forall i | 0 <= i < |b| :: |b[i]| == |p|)
    ensures SumProb(a + b, p) == SumProb(a, p) + SumProb(b, p)
    ensures forall r: nat | r < |p| :: SumGood(a + b, p, r) == SumGood(a, p, r) + SumGood(b, p, r)
  {
    hide ProbOf;
    if b == [] {
      assert a + b == a;
    } else {
      var front := b[..|b| - 1];
      assert (a + b)[..|a + b| - 1] == a + front;
      SumConcat(a, front, p);
    }
  }

  /** Sums over the vectors with one more bit in front, from the sums over the vectors themselves. */
  lemma {:induction false} SumPrefixed(good: bool, list: seq<Bits>, p: seq<real>)
    requires |p| > 0 && forall i | 0 <= i < |list| :: |list[i]| == |p| - 1
    ensures SumProb(Prefixed(good, list), p) == Times(BitProb(good, p[0]), SumProb(list, p[1..]))
    ensures SumGood(Prefixed(good, list), p, 0) == if good then Times(p[0], SumProb(list, p[1..])) else 0.0
  {
    if list == [] {
      TimesIs(BitProb(good, p[0]), 0.0);
      TimesIs(p[0], 0.0);
    } else {
      var front, last := list[..|list| - 1], list[|list| - 1];
      SumPrefixed(good, front, p);
      PrefixedPush(good, front, last, p);
      hide Times, ProbOf, Prefixed, SumProb, SumGood;
      assert list == front + [last];
      SumPush(Prefixed(good, front), [good] + last, p);
      SumPush(front, last, p[1..]);
      TimesPlus(BitProb(good, p[0]), SumProb(front, p[1..]), ProbOf(last, p[1..]));
    }
  }

  lemma {:induction false} GoodPrefixed(good: bool, list: seq<Bits>, p: seq<real>, r: nat)
    requires 0 < r < |p| && forall i | 0 <= i < |list| :: |list[i]| == |p| - 1
    ensures SumGood(Prefixed(good, list), p, r) == Times(BitProb(good, p[0]), SumGood(list, p[1..], r - 1))
  {
    if list == [] {
      TimesIs(BitProb(good, p[0]), 0.0);
    } else {
      hide *;
      var front, last := list[..|list| - 1], list[|list| - 1];
      assert list == front + [last];
      GoodPrefixed(good, front, p, r);
      GoodPrefixedStep(good, front, last, p, r);
    }
  }

  lemma GoodPrefixedStep(good: bool, list: seq<Bits>, bits: Bits, p: seq<real>, r: nat)
    requires 0 < r < |p| == |bits| + 1 && forall i | 0 <= i < |list| :: |list[i]| == |bits|
    requires SumGood(Prefixed(good, list), p, r) == Times(BitProb(good, p[0]), SumGood(list, p[1..], r - 1))
    ensures SumGood(Prefixed(good, list + [bits]), p, r)
         == Times(BitProb(good, p[0]), SumGood(list + [bits], p[1..], r - 1))
  {
    hide *;
    PrefixedPush(good, list, bits, p);
    SumPush(Prefixed(good, list), [good] + bits, p);
    SumPush(list, bits, p[1..]);
    assert ([good] + bits)[r] == bits[r - 1];
    TimesPlus(BitProb(good, p[0]), SumGood(list, p[1..], r - 1), ProbOf(bits, p[1..]));
  }

  lemma PrefixedPush(good: bool, list: seq<Bits>, bits: Bits, p: seq<real>)
    requires |p| == |bits| + 1
    ensures Prefixed(good, list + [bits]) == Prefixed(good, list) + [[good] + bits]
    ensures ProbOf([good] + bits, p) == Times(BitProb(good, p[0]), ProbOf(bits, p[1..]))
  {
    assert ([good] + bits)[1..] == bits;
  }

  lemma SumPush(list: seq<Bits>, bits: Bits, p: seq<real>)
    requires |bits| == |p| && forall i | 0 <= i < |list| :: |list[i]| == |p|
    ensures SumProb(list + [bits], p) == SumProb(list, p) + ProbOf(bits, p)
    ensures forall r: nat | r < |p| ::
      SumGood(list + [bits], p, r) == SumGood(list, p, r) + if bits[r] then ProbOf(bits, p) else 0.0
  {
    hide ProbOf;
    assert (list + [bits])[..|list|] == list;
  }

  /** The vectors' probabilities sum to 1. */
  lemma {:induction false} TotalIsOne(n: nat, p: seq<real>)
    requires |p| == n
    ensures SumProb(AllBits(n), p) == 1.0
  {
    if n == 0 {
      assert AllBits(0)[..0] == [];
      assert ProbOf([], p) == 1.0;
    } else {
      hide Times, SumProb, SumGood, Prefixed, AllBits, ProbOf;
      AllBitsStep(n);
      var half := AllBits(n - 1);
      TotalIsOne(n - 1, p[1..]);
      SumPrefixed(false, half, p);
      SumPrefixed(true, half, p);
      SumConcat(Prefixed(false, half), Prefixed(true, half), p);
      UnitTimes(p[0]);
      UnitTimes(1.0 - p[0]);
    }
  }

  /** The vectors with bit `r` set have the probability of that bit. */
  lemma {:induction false} Marginal(n: nat, p: seq<real>, r: nat)
    requires |p| == n && r < n
    ensures SumGood(AllBits(n), p, r) == p[r]
  {
    hide Times, SumProb, SumGood, Prefixed, AllBits, ProbOf;
    AllBitsStep(n);
    var half := AllBits(n - 1);
    SumConcat(Prefixed(false, half), Prefixed(true, half), p);
    if r == 0 {
      SumPrefixed(false, half, p);
      SumPrefixed(true, half, p);
      TotalIsOne(n - 1, p[1..]);
      UnitTimes(p[0]);
    } else {
      GoodPrefixed(false, half, p, r);
      GoodPrefixed(true, half, p, r);
      Marginal(n - 1, p[1..], r - 1);
      TimesPlus(p[r], 1.0 - p[0], p[0]);
      UnitTimes(p[r]);
    }
  }

  // ---------- Dynamics ----------

  datatype REAction =
    | Move(dx: int, dy: int)
    | Sample
    | Check(rock: nat)

  function ActionOf(ai: nat): REAction {
    if ai == 0 then Move(0, 1)
    else if ai == 1 then Move(1, 0)
    else if ai == 2 then Move(0, -1)
    else if ai == 3 then Move(-1, 0)
    else if ai == 4 then Sample
    else Check(ai - 5)
  }

  predicate OnMap(pos: REPos) {
    0 <= pos.x < RE_WIDTH && 0 <= pos.y < RE_HEIGHT
  }

  /** The first rock at a position, or the number of rocks. */
  function RockAt(rockPos: seq<REPos>, pos: REPos, r: nat): (k: nat)
    requires r <= |rockPos|
    ensures r <= k <= |rockPos| && (k < |rockPos| ==> rockPos[k] == pos)
    ensures forall j | r <= j < k :: rockPos[j] != pos
    decreases |rockPos| - r
  {
    if r == |rockPos| || rockPos[r] == pos then r else RockAt(rockPos, pos, r + 1)
  }

  /** The reward and next state of an action; every action has one outcome. */
  function Effect(rockPos: seq<REPos>, s: REState, a: REAction): (real, REState)
    requires !s.isTerminalState ==> |s.rockIsGood| == |rockPos|
  {
    if s.isTerminalState then (0.0, TERMINAL)
    else
      match a
      case Move(dx, dy) =>
        var next := REPos(s.robotPos.x + dx, s.robotPos.y + dy);
        if OnMap(next) then (RE_COST_MOVE, s.(robotPos := next))
        else if next.x == RE_WIDTH then (RE_REWARD_EXIT, TERMINAL)
        else (RE_COST_ILLEGAL, s)
      case Sample =>
        var r := RockAt(rockPos, s.robotPos, 0);
        if r == |rockPos| then (RE_COST_ILLEGAL, s)
        else (if s.rockIsGood[r] then RE_REWARD_SAMPLE_GOOD else RE_COST_SAMPLE_BAD,
              s.(rockIsGood := s.rockIsGood[r := false]))
      case Check(_) => (RE_COST_CHECK, s)
  }

  ghost predicate StateOk(rockPos: seq<REPos>, s: REState) {
    s == TERMINAL || (!s.isTerminalState && OnMap(s.robotPos) && |s.rockIsGood| == |rockPos|)
  }

  /** The robot stays on the map until it exits; no rock turns good, and only the rock under a sampling robot
      changes. */
  lemma EffectStaysOk(rockPos: seq<REPos>, s: REState, a: REAction)
    requires StateOk(rockPos, s)
    ensures StateOk(rockPos, Effect(rockPos, s, a).1)
    ensures var s' := Effect(rockPos, s, a).1;
      !s.isTerminalState && !s'.isTerminalState ==>
        forall r | 0 <= r < |rockPos| :: s'.rockIsGood[r] ==
          (s.rockIsGood[r] && !(a == Sample && r == RockAt(rockPos, s.robotPos, 0)))
  {
  }

  /** What the actions do to a robot on the map, and what they pay. Moves go north, east, south and west; the move off
      the east side is the exit, any other move off the map costs 100 and has no effect. Sampling pays for a good rock,
      which is then bad, and costs for a bad one; without a rock it is illegal. Checking costs the same everywhere and
      changes nothing. */
  lemma ActionLaws(rockPos: seq<REPos>, s: REState, ai: nat)
    requires StateOk(rockPos, s) && !s.isTerminalState && ai < 5 + |rockPos|
    ensures Effect(rockPos, TERMINAL, ActionOf(ai)) == (0.0, TERMINAL)
    ensures ai < 4 ==> var x, y := s.robotPos.x, s.robotPos.y; var (reward, s') := Effect(rockPos, s, ActionOf(ai));
      && (s'.isTerminalState <==> ai == 1 && x + 1 == RE_WIDTH)
      && (s' == s <==> (ai == 0 && y + 1 == RE_HEIGHT) || (ai == 2 && y == 0) || (ai == 3 && x == 0))
      && (!s'.isTerminalState && s' != s ==>
            && s'.rockIsGood == s.rockIsGood
            && s'.robotPos == [REPos(x, y + 1), REPos(x + 1, y), REPos(x, y - 1), REPos(x - 1, y)][ai])
      && reward == if s'.isTerminalState then 15.0 else if s' == s then -100.0 else -1.0
    ensures ai == 4 ==> var (reward, s') := Effect(rockPos, s, ActionOf(ai));
      && s'.robotPos == s.robotPos && !s'.isTerminalState && |s'.rockIsGood| == |s.rockIsGood|
      && (s.robotPos !in rockPos ==> s' == s && reward == -100.0)
      && (s.robotPos in rockPos ==> exists r: nat :: SamplesRock(rockPos, s, r, s', reward))
    ensures ai > 4 ==> Effect(rockPos, s, ActionOf(ai)) == (-1.0, s)
  {
    if ai == 4 && s.robotPos in rockPos {
      var (reward, s') := Effect(rockPos, s, ActionOf(ai));
      assert SamplesRock(rockPos, s, RockAt(rockPos, s.robotPos, 0), s', reward);
    }
  }

  /** Rock `r`, the first at the robot's position, is sampled. */
  ghost predicate SamplesRock(rockPos: seq<REPos>, s: REState, r: nat, s': REState, reward: real) {
    && r < |rockPos| == |s.rockIsGood| && rockPos[r] == s.robotPos && s.robotPos !in rockPos[..r]
    && s'.rockIsGood == s.rockIsGood[r := false]
    && reward == if s.rockIsGood[r] then 15.0 else -15.0
  }

  function Abs(x: int): nat {
    if x < 0 then -x else x
  }

  const OBS_PROB_TABLE: seq<real> := [1.0, 0.0, 0.0, 1.0, 0.95, 0.05, 0.05, 0.95]

  function GetObsProb(rockPos: seq<REPos>, a: REAction, s: REState, o: nat): real
    requires StateOk(rockPos, s) && o < 2 && (a.Check? ==> a.rock < |rockPos|)
  {
    if a.Check? && !s.isTerminalState then
      var distance := Abs(rockPos[a.rock].x - s.robotPos.x) + Abs(rockPos[a.rock].y - s.robotPos.y);
      OBS_PROB_TABLE[4 * (if distance > 0 then 1 else 0) + 2 * (if s.rockIsGood[a.rock] then 1 else 0) + o]
    else if o == 0 then 1.0 else 0.0
  }

  /** The observation probabilities form a distribution. A check shows whether the rock is good: always right at the
      rock itself, and right with probability 0.95 from anywhere else. Nothing else shows anything. */
  lemma ObsProbsAddUp(rockPos: seq<REPos>, a: REAction, s: REState)
    requires StateOk(rockPos, s) && (a.Check? ==> a.rock < |rockPos|)
    ensures GetObsProb(rockPos, a, s, 0) >= 0.0 && GetObsProb(rockPos, a, s, 1) >= 0.0
    ensures GetObsProb(rockPos, a, s, 0) + GetObsProb(rockPos, a, s, 1) == 1.0
    ensures a.Check? && !s.isTerminalState ==>
      GetObsProb(rockPos, a, s, if s.rockIsGood[a.rock] then 1 else 0) ==
        if rockPos[a.rock] == s.robotPos then 1.0 else 0.95
    ensures !a.Check? || s.isTerminalState ==> GetObsProb(rockPos, a, s, 0) == 1.0
  {
  }

  // ---------- Beliefs from rock probabilities ----------

  /** The probability that rock `r` is good. */
  ghost function MarginalOf(states: seq<REState>, b: REBelief, r: nat): real
    requires BeliefOk(b, |states|) && forall i | 0 <= i < |b| :: r < |states[b[i].index].rockIsGood|
  {
    if b == [] then 0.0
    else
      var e := b[|b| - 1];
      MarginalOf(states, b[..|b| - 1], r) + if states[e.index].rockIsGood[r] then e.prob else 0.0
  }

  /** Entries of the belief are states at `pos` with `n` rocks. */
  ghost predicate AllAt(states: seq<REState>, b: REBelief, pos: REPos, n: nat) {
    && BeliefOk(b, |states|)
    && forall i | 0 <= i < |b| ::
         (var s := states[b[i].index]; !s.isTerminalState && s.robotPos == pos && |s.rockIsGood| == n)
  }

  lemma {:induction false} MarginalKept(states: seq<REState>, states': seq<REState>, b: REBelief, pos: REPos, n: nat,
      r: nat)
    requires AllAt(states, b, pos, n) && states <= states' && r < n
    ensures AllAt(states', b, pos, n) && MarginalOf(states', b, r) == MarginalOf(states, b, r)
  {
    if b != [] {
      MarginalKept(states, states', b[..|b| - 1], pos, n, r);
    }
  }

  /** The belief gives positive weight to the state. */
  ghost predicate Holds(states: seq<REState>, b: REBelief, s: REState) {
    exists j :: 0 <= j < |b| && b[j].index < |states| && states[b[j].index] == s && b[j].prob > 0.0
  }

  /** So for every listed vector of positive probability. */
  ghost predicate AllHeld(states: seq<REState>, b: REBelief, pos: REPos, list: seq<Bits>, p: seq<real>) {
    forall bits | bits in list && |bits| == |p| && ProbOf(bits, p) > 0.0 :: Holds(states, b, REState(false, pos, bits))
  }

  lemma HeldStep(states: seq<REState>, b: REBelief, pos: REPos, list: seq<Bits>, p: seq<real>, bits: Bits,
                 prob: real, states': seq<REState>, b': REBelief)
    requires AllHeld(states, b, pos, list, p) && |bits| == |p| && prob == ProbOf(bits, p)
    requires if prob > 0.0 then
        && states <= states' && |b'| == |b| + 1 && b'[..|b|] == b && b'[|b|].prob == prob
        && b'[|b|].index < |states'| && states'[b'[|b|].index] == REState(false, pos, bits)
      else states' == states && b' == b
    ensures AllHeld(states', b', pos, list + [bits], p)
  {
    hide ProbOf;
    forall other | other in list + [bits] && |other| == |p| && ProbOf(other, p) > 0.0
      ensures Holds(states', b', REState(false, pos, other))
    {
      var s := REState(false, pos, other);
      if other in list {
        assert Holds(states, b, s);
        var j :| 0 <= j < |b| && b[j].index < |states| && states[b[j].index] == s && b[j].prob > 0.0;
        assert b'[..|b|][j] == b'[j] || b' == b;
      }
    }
  }

  lemma EveryVectorHeld(states: seq<REState>, b: REBelief, pos: REPos, p: seq<real>)
    requires AllHeld(states, b, pos, AllBits(|p|), p)
    ensures forall bits: Bits | |bits| == |p| && ProbOf(bits, p) > 0.0 :: Holds(states, b, REState(false, pos, bits))
  {
    hide ProbOf, Holds, AllBits;
    forall bits: Bits | |bits| == |p| && ProbOf(bits, p) > 0.0
      ensures Holds(states, b, REState(false, pos, bits))
    {
      var l := AllBitsComplete(bits);
    }
  }

  lemma AddsNothing(b: REBelief, n: nat)
    ensures AddsOnly(b, n, n)
  {
  }

  /** Every state with an index from `lo` to `hi` is in the belief. */
  ghost predicate AddsOnly(b: REBelief, lo: nat, hi: nat) {
    forall i | lo <= i < hi :: HasIndex(b, i)
  }

  ghost predicate HasIndex(b: REBelief, i: nat) {
    exists j :: 0 <= j < |b| && b[j].index == i
  }

  lemma AddsOnlyStep(b: REBelief, b': REBelief, lo: nat, mid: nat, hi: nat, id: nat)
    requires AddsOnly(b, lo, mid) && |b'| == |b| + 1 && b'[..|b|] == b && b'[|b|].index == id
    requires hi == mid || (hi == mid + 1 && id == mid)
    ensures AddsOnly(b', lo, hi)
  {
    forall i | lo <= i < hi
      ensures HasIndex(b', i)
    {
      if i < mid {
        assert HasIndex(b, i);
        var j :| 0 <= j < |b| && b[j].index == i;
        assert b'[..|b|][j] == b'[j];
      }
    }
  }

  /** The belief holds the listed vectors with their probabilities. */
  ghost predicate Represents(states: seq<REState>, b: REBelief, pos: REPos, list: seq<Bits>, p: seq<real>) {
    && AllAt(states, b, pos, |p|) && (forall i | 0 <= i < |list| :: |list[i]| == |p|)
    && Mass(b) == SumProb(list, p)
    && forall r: nat | r < |p| :: MarginalOf(states, b, r) == SumGood(list, p, r)
  }

  lemma RepresentsStep(states: seq<REState>, b: REBelief, pos: REPos, list: seq<Bits>, p: seq<real>, bits: Bits,
                       prob: real, states': seq<REState>, b': REBelief)
    requires Represents(states, b, pos, list, p) && |bits| == |p| && prob == ProbOf(bits, p) >= 0.0
    requires if prob > 0.0 then
        && states <= states' && |b'| == |b| + 1 && b'[..|b|] == b && b'[|b|].prob == prob
        && b'[|b|].index < |states'| && states'[b'[|b|].index] == REState(false, pos, bits)
      else states' == states && b' == b
    ensures Represents(states', b', pos, list + [bits], p)
  {
    hide ProbOf, SumProb, SumGood, MarginalOf, AllAt, Mass;
    SumPush(list, bits, p);
    if prob > 0.0 {
      MarginalPush(states, b, pos, |p|, bits, prob, states', b');
    }
  }

  lemma MarginalPush(states: seq<REState>, b: REBelief, pos: REPos, n: nat, bits: Bits, prob: real,
                     states': seq<REState>, b': REBelief)
    requires AllAt(states, b, pos, n) && states <= states' && |bits| == n && prob >= 0.0
    requires |b'| == |b| + 1 && b'[..|b|] == b && b'[|b|].prob == prob
    requires b'[|b|].index < |states'| && states'[b'[|b|].index] == REState(false, pos, bits)
    ensures AllAt(states', b', pos, n) && Mass(b') == Mass(b) + prob
    ensures forall r: nat | r < n ::
      MarginalOf(states', b', r) == MarginalOf(states, b, r) + if bits[r] then prob else 0.0
  {
    AllAtKept(states, states', b, pos, n);
    AllAtPush(states', b, pos, n, b');
    forall r: nat | r < n
      ensures MarginalOf(states', b', r) == MarginalOf(states, b, r) + if bits[r] then prob else 0.0
    {
      MarginalKept(states, states', b, pos, n, r);
    }
  }

  lemma AllAtPush(states: seq<REState>, b: REBelief, pos: REPos, n: nat, b': REBelief)
    requires AllAt(states, b, pos, n) && |b'| == |b| + 1 && b'[..|b|] == b && b'[|b|].prob >= 0.0
    requires b'[|b|].index < |states|
    requires var s := states[b'[|b|].index]; !s.isTerminalState && s.robotPos == pos && |s.rockIsGood| == n
    ensures AllAt(states, b', pos, n)
  {
    forall i | 0 <= i < |b|
      ensures b'[i] == b[i]
    {
      assert b'[..|b|][i] == b[i];
    }
  }

  lemma AllAtKept(states: seq<REState>, states': seq<REState>, b: REBelief, pos: REPos, n: nat)
    requires AllAt(states, b, pos, n) && states <= states'
    ensures AllAt(states', b, pos, n)
  {
  }

  class RockExploreModel {
    const rockPos: seq<REPos>
    /** The states met so far, and the index of each. */
    var states: seq<REState>
    var stateLookup: map<REState, nat>

    constructor (rockPos: seq<REPos>)
      ensures Valid() && this.rockPos == rockPos && states == []
    {
      this.rockPos, states, stateLookup := rockPos, [], map[];
    }

    ghost predicate Valid()
      reads this
    {
      && (forall s | s in stateLookup :: stateLookup[s] < |states| && states[stateLookup[s]] == s)
      && (forall i | 0 <= i < |states| :: states[i] in stateLookup && stateLookup[states[i]] == i)
    }

    /** The index of a state, assigned on first use. */
    method GetStateId(s: REState) returns (id: nat)
      requires Valid()
      modifies this
      ensures Valid() && id < |states| && states[id] == s
      ensures states == if s in old(states) then old(states) else old(states) + [s]
    {
      if s !in stateLookup {
        id := |states|;
        states := states + [s];
        stateLookup := stateLookup[s := id];
      } else {
        id := stateLookup[s];
      }
    }

    /** The one outcome of an action. */
    method GetActionResult(si: nat, ai: nat) returns (result: REActionResult)
      requires Valid() && si < |states| && StateOk(rockPos, states[si])
      modifies this
      ensures Valid()
      ensures states == old(states) || states == old(states) + [Effect(rockPos, old(states)[si], ActionOf(ai)).1]
      ensures |states| > |old(states)| ==> |result.outcomes| > 0 && result.outcomes[0].index == |old(states)|
      ensures |result.outcomes| == 1 && Normalized(result.outcomes, |states|)
      ensures (result.reward, states[result.outcomes[0].index]) == Effect(rockPos, old(states)[si], ActionOf(ai))
    {
      var effect := Effect(rockPos, states[si], ActionOf(ai));
      var id := GetStateId(effect.1);
      result := REActionResult(effect.0, [REBeliefEntry(1.0, id)]);
      assert result.outcomes[..0] == [];
    }

    /** The probability of a bit vector. */
    method VectorProb(bits: Bits, p: seq<real>) returns (prob: real)
      requires |bits| == |p|
      ensures prob == ProbOf(bits, p)
    {
      prob := 1.0;
      assert bits[0..] == bits && p[0..] == p;
      UnitTimes(ProbOf(bits, p));
      for r := 0 to |bits|
        invariant Times(prob, ProbOf(bits[r..], p[r..])) == ProbOf(bits, p)
      {
        var q := BitProb(bits[r], p[r]);
        assert bits[r..][1..] == bits[r + 1..] && p[r..][1..] == p[r + 1..];
        assert ProbOf(bits[r..], p[r..]) == Times(q, ProbOf(bits[r + 1..], p[r + 1..]));
        TimesAssoc(prob, q, ProbOf(bits[r + 1..], p[r + 1..]));
        TimesIs(prob, q);
        prob := prob * q;
      }
      UnitTimes(prob);
    }

    /** Adds one to a bit vector in place; the last combination has no successor. */
    method Advance(bits: Bits) returns (next: Bits, reachedLastCombination: bool)
      ensures reachedLastCombination <==> AllTrue(bits)
      ensures !reachedLastCombination ==> next == Succ(bits)
    {
      next := bits;
      var r := |bits| - 1;
      while r >= 0
        invariant -1 <= r < |bits| && next == bits && forall j | r < j < |bits| :: bits[j]
      {
        if !bits[r] {
          SuccAt(bits, r);
          next := next[r := true];
          for rr := r + 1 to |bits|
            invariant |next| == |bits|
            invariant forall j | 0 <= j < |bits| ::
              next[j] == if j < r then bits[j] else if j == r then true else if j < rr then false else bits[j]
          {
            next := next[rr := false];
          }
          assert next == bits[..r] + [true] + Falses(|bits| - r - 1);
          return next, false;
        }
        r := r - 1;
      }
      return bits, true;
    }

    /** The belief in which the robot is at `pos` and the rocks are good independently, with the given probabilities. */
    method GetBelief(pos: REPos, rockProbs: seq<real>) returns (result: REBelief)
      requires Valid() && ProbsOk(rockProbs)
      modifies this
      ensures Valid() && old(states) <= states
      ensures Normalized(result, |states|) && AllAt(states, result, pos, |rockProbs|)
      ensures forall r: nat | r < |rockProbs| :: MarginalOf(states, result, r) == rockProbs[r]
      ensures AddsOnly(result, |old(states)|, |states|)
      ensures forall bits: Bits | |bits| == |rockProbs| && ProbOf(bits, rockProbs) > 0.0 ::
        Holds(states, result, REState(false, pos, bits))
    {
      hide *;
      var n := |rockProbs|;
      var rockIsGood := Falses(n);
      ghost var all, k := AllBits(n), 0;
      FirstIsFalse(n);
      result := [];
      var done := false;
      NothingYet(states, pos, all, rockProbs);
      AddsNothing(result, |states|);
      while !done
        invariant Valid() && old(states) <= states && k <= |all| && (done ==> k == |all|)
        invariant !done ==> k < |all| && rockIsGood == all[k]
        invariant Represents(states, result, pos, all[..k], rockProbs)
        invariant AddsOnly(result, |old(states)|, |states|)
        invariant AllHeld(states, result, pos, all[..k], rockProbs)
        decreases !done, |all| - k
      {
        ghost var states0, result0 := states, result;
        var prob := VectorProb(rockIsGood, rockProbs);
        ProbNonNegative(rockIsGood, rockProbs);
        if prob > 0.0 {
          var id := GetStateId(REState(false, pos, rockIsGood));
          result := result + [REBeliefEntry(prob, id)];
          AddsOnlyStep(result0, result, |old(states)|, |states0|, |states|, id);
        }
        RepresentsStep(states0, result0, pos, all[..k], rockProbs, rockIsGood, prob, states, result);
        HeldStep(states0, result0, pos, all[..k], rockProbs, rockIsGood, prob, states, result);
        assert all[..k + 1] == all[..k] + [all[k]];
        LastIsTrue(n, k);
        var next, last := Advance(rockIsGood);
        if last {
          done := true;
        } else {
          SuccIsNext(n, k);
          rockIsGood := next;
        }
        k := k + 1;
      }
      assert all[..k] == all;
      AllRepresented(states, result, pos, rockProbs);
      EveryVectorHeld(states, result, pos, rockProbs);
    }

    /** The marginal probability of each rock; on a belief made from probabilities it gives those back. */
    method GetRockProbs(b: REBelief) returns (result: seq<real>)
      requires BeliefOk(b, |states|) && forall i | 0 <= i < |b| :: |states[b[i].index].rockIsGood| == |rockPos|
      ensures |result| == |rockPos| && forall r: nat | r < |rockPos| :: result[r] == MarginalOf(states, b, r)
    {
      result := seq(|rockPos|, _ => 0.0);
      for i := 0 to |b|
        invariant |result| == |rockPos|
        invariant forall r: nat | r < |rockPos| :: result[r] == MarginalOf(states, b[..i], r)
      {
        assert b[..i + 1][..i] == b[..i];
        var s := states[b[i].index];
        ghost var before := result;
        for r := 0 to |rockPos|
          invariant |result| == |rockPos|
          invariant forall k: nat | k < |rockPos| ::
            result[k] == before[k] + if k < r && s.rockIsGood[k] then b[i].prob else 0.0
        {
          if s.rockIsGood[r] {
            result := result[r := result[r] + b[i].prob];
          }
        }
      }
      assert b[..|b|] == b;
    }

    /** Making a belief from rock probabilities and reading them back changes nothing. */
    method RockProbsRoundTrip(pos: REPos, rockProbs: seq<real>) returns (result: seq<real>)
      requires Valid() && ProbsOk(rockProbs) && |rockProbs| == |rockPos|
      modifies this
      ensures Valid() && result == rockProbs
    {
      var b := GetBelief(pos, rockProbs);
      hide MarginalOf, ProbOf, Holds, AddsOnly;
      result := GetRockProbs(b);
    }
  }

  lemma NothingYet(states: seq<REState>, pos: REPos, all: seq<Bits>, p: seq<real>)
    requires forall i | 0 <= i < |all| :: |all[i]| == |p|
    ensures Represents(states, [], pos, all[..0], p) && AllHeld(states, [], pos, all[..0], p)
  {
    assert all[..0] == [];
  }

  lemma AllRepresented(states: seq<REState>, b: REBelief, pos: REPos, p: seq<real>)
    requires Represents(states, b, pos, AllBits(|p|), p)
    ensures Normalized(b, |states|) && AllAt(states, b, pos, |p|)
    ensures forall r: nat | r < |p| :: MarginalOf(states, b, r) == p[r]
  {
    TotalIsOne(|p|, p);
    forall r: nat | r < |p|
      ensures MarginalOf(states, b, r) == p[r]
    {
      Marginal(|p|, p, r);
    }
  }
}
