/** The plane that a backup of a node computes for one action, and why it is a lower bound. */
module PlaneBackups {
  import opened Wrappers
  import opened RealArith
  import opened SparseVectors
  import opened SparseMatrices
  import opened Beliefs
  import opened MaxPlanesBound

  /** One action: transition and observation probabilities, and the reward of each state. */
  datatype ActionModel = ActionModel(T: CMatrix, O: CMatrix, R: CVector) {
    ghost predicate Valid(n: nat, numObs: nat) {
      && T.Valid() && T.size1 == n == T.size2
      && O.Valid() && O.size1 == n && O.size2 == numObs
      && R.Valid() && R.size == n
    }

    ghost predicate NonNegative(n: nat, numObs: nat)
      requires Valid(n, numObs)
    {
      && (forall s, k | 0 <= s < n && 0 <= k < n :: T.Get(s, k) >= 0.0)
      && (forall k, o | 0 <= k < n && 0 <= o < numObs :: O.Get(k, o) >= 0.0)
    }
  }

  // ---------- Sums ----------

  lemma {:induction false} DotAgree(u: seq<real>, v: seq<real>, w: seq<real>, x: seq<real>, n: nat)
    requires n <= |u| && n <= |v| && n <= |w| && n <= |x|
    requires forall k | 0 <= k < n :: Times(u[k], v[k]) == Times(w[k], x[k])
    ensures Dot(u, v, n) == Dot(w, x, n)
  {
    if n > 0 {
      DotAgree(u, v, w, x, n - 1);
      TimesIs(u[n - 1], v[n - 1]);
      TimesIs(w[n - 1], x[n - 1]);
    }
  }

  /** The inner product is linear in its second argument. */
  lemma {:induction false} DotLinear(w: seq<real>, f: seq<real>, a: real, r: seq<real>, g: seq<real>, n: nat)
    requires n <= |w| && n <= |f| && n <= |r| && n <= |g|
    requires forall k | 0 <= k < n :: g[k] == f[k] + Times(a, r[k])
    ensures Dot(w, g, n) == Dot(w, f, n) + Times(a, Dot(w, r, n))
  {
    if n == 0 {
      TimesIs(a, 0.0);
    } else {
      DotLinear(w, f, a, r, g, n - 1);
      LinearTerm(w[n - 1], f[n - 1], a, r[n - 1], Dot(w, r, n - 1));
    }
  }

  lemma LinearTerm(w: real, f: real, a: real, r: real, rest: real)
    ensures w * (f + Times(a, r)) + Times(a, rest) == w * f + Times(a, rest + w * r)
  {
    assert w * (f + a * r) == w * f + w * (a * r);
    assert w * (a * r) == a * (w * r);
    assert a * (rest + w * r) == a * rest + a * (w * r);
  }

  lemma {:induction false} DotZero(w: seq<real>, z: seq<real>, n: nat)
    requires n <= |w| && n <= |z| && forall k | 0 <= k < n :: z[k] == 0.0
    ensures Dot(w, z, n) == 0.0
  {
    if n > 0 {
      DotZero(w, z, n - 1);
      ZeroTimes(0.0, w[n - 1]);
    }
  }

  lemma {:induction false} DotSwap(u: seq<real>, v: seq<real>, n: nat)
    requires n <= |u| && n <= |v|
    ensures Dot(u, v, n) == Dot(v, u, n)
  {
    if n > 0 {
      DotSwap(u, v, n - 1);
    }
  }

  // ---------- Successors of a belief ----------

  /** What the first `m` states contribute to the probability of each state after the action. */
  ghost function Flow(t: CMatrix, u: seq<real>, n: nat, m: nat): (f: seq<real>)
    requires t.Valid() && t.size1 == n == t.size2 && m <= n == |u|
    ensures |f| == n
  {
    seq(n, k requires 0 <= k < n => FlowAt(t, u, k, m))
  }

  ghost function FlowAt(t: CMatrix, u: seq<real>, k: nat, m: nat): real
    requires t.Valid() && k < t.size2 && m <= |u|
  {
    if m == 0 then 0.0 else FlowAt(t, u, k, m - 1) + Times(u[m - 1], t.Get(m - 1, k))
  }

  /** The weights of the states after the action together with observation `o`, before normalizing. */
  ghost function Joint(a: ActionModel, u: seq<real>, o: nat, n: nat, numObs: nat): (j: seq<real>)
    requires a.Valid(n, numObs) && |u| == n && o < numObs
    ensures |j| == n
  {
    seq(n, k requires 0 <= k < n => Times(a.O.Get(k, o), FlowAt(a.T, u, k, n)))
  }

  lemma {:induction false} FlowNonNegative(t: CMatrix, u: seq<real>, k: nat, m: nat)
    requires t.Valid() && k < t.size2 && m <= |u|
    requires forall s | 0 <= s < m :: u[s] >= 0.0 && t.Get(s, k) >= 0.0
    ensures FlowAt(t, u, k, m) >= 0.0
    ensures FlowAt(t, u, k, m) > 0.0 ==> exists s :: 0 <= s < m && u[s] > 0.0 && t.Get(s, k) > 0.0
  {
    hide CMatrix.Get, Times;
    if m > 0 {
      FlowNonNegative(t, u, k, m - 1);
      TimesMono(u[m - 1], 0.0, t.Get(m - 1, k));
      TimesIs(u[m - 1], 0.0);
      TimesIs(u[m - 1], t.Get(m - 1, k));
    }
  }

  /** Where the weights are positive, some state of positive weight leads there, with this observation. */
  lemma JointSign(a: ActionModel, u: seq<real>, o: nat, n: nat, numObs: nat, k: nat)
    requires a.Valid(n, numObs) && a.NonNegative(n, numObs) && |u| == n && o < numObs && k < n
    requires NonNegative(u)
    ensures Joint(a, u, o, n, numObs)[k] >= 0.0
    ensures Joint(a, u, o, n, numObs)[k] > 0.0 ==>
      a.O.Get(k, o) > 0.0 && exists s :: 0 <= s < n && u[s] > 0.0 && a.T.Get(s, k) > 0.0
  {
    hide CMatrix.Get, CMatrix.Valid, Times;
    FlowNonNegative(a.T, u, k, n);
    var p, f := a.O.Get(k, o), FlowAt(a.T, u, k, n);
    TimesMono(p, 0.0, f);
    TimesIs(p, 0.0);
    TimesIs(p, f);
  }

  /** Summing over the states that one comes from, or over those that one gets to, is the same. */
  lemma {:induction false} Exchange(t: CMatrix, w: seq<real>, u: seq<real>, p: seq<real>, n: nat, m: nat)
    requires t.Valid() && t.size1 == n == t.size2 && |w| == n == |u| == |p| && m <= n
    requires forall s | 0 <= s < n :: p[s] == Dot(w, RowOf(t, s), n)
    ensures Dot(p, u, m) == Dot(w, Flow(t, u, n, m), n)
  {
    hide CMatrix.Get, CMatrix.Valid;
    if m == 0 {
      DotZero(w, Flow(t, u, n, 0), n);
    } else {
      Exchange(t, w, u, p, n, m - 1);
      DotLinear(w, Flow(t, u, n, m - 1), u[m - 1], RowOf(t, m - 1), Flow(t, u, n, m), n);
      TimesIs(u[m - 1], p[m - 1]);
    }
  }

  // ---------- The plane ----------

  /** The node that an outcome leads to: the plane looked up for it, with its mask, and its belief. */
  datatype Successor = Successor(alpha: CVector, mask: CVector, s: CVector)

  ghost predicate SuccessorsOk(succ: seq<Option<Successor>>, n: nat) {
    forall o | 0 <= o < |succ| && succ[o].Some? ::
      && succ[o].value.alpha.Valid() && succ[o].value.alpha.size == n
      && succ[o].value.s.Valid() && succ[o].value.s.size == n
  }

  /** `beta` is what the backup uses for an outcome: the plane of the successor, at least on its states, or the
      default plane if the observation is impossible. */
  ghost predicate Stands(beta: CVector, succ: Option<Successor>, default: CVector, n: nat) {
    && beta.Valid() && beta.size == n
    && match succ
       case Some(e) => forall k: nat :: e.s.Has(k) ==> beta.Get(k) == e.alpha.Get(k)
       case None => beta == default
  }

  /** The plane `beta` weighted with the probability of observation `o`. */
  ghost function WeightedPlane(a: ActionModel, beta: CVector, o: nat, n: nat, numObs: nat): (w: seq<real>)
    requires a.Valid(n, numObs) && o < numObs
    ensures |w| == n
  {
    seq(n, k requires 0 <= k < n => Times(a.O.Get(k, o), beta.Get(k)))
  }

  /** What observation `o` contributes to the plane at state `s`. */
  ghost function ObsTerm(a: ActionModel, beta: CVector, o: nat, n: nat, numObs: nat, s: nat): real
    requires a.Valid(n, numObs) && o < numObs
  {
    Dot(WeightedPlane(a, beta, o, n, numObs), RowOf(a.T, s), n)
  }

  ghost function ObsSum(a: ActionModel, betas: seq<CVector>, n: nat, numObs: nat, s: nat): real
    requires a.Valid(n, numObs) && |betas| <= numObs
  {
    if betas == [] then 0.0
    else
      var o := |betas| - 1;
      ObsSum(a, betas[..o], n, numObs, s) + ObsTerm(a, betas[o], o, n, numObs, s)
  }

  /** How far dropping tiny elements may take `m` products from their sum. */
  function Slack(m: nat): real {
    m as real * SPARSE_EPS
  }

  /** On the states of the belief, the sum over the observations up to what dropping tiny elements costs. */
  ghost predicate Sums(a: ActionModel, betas: seq<CVector>, s: CVector, n: nat, numObs: nat, sum: CVector)
    requires a.Valid(n, numObs) && |betas| <= numObs
  {
    && sum.Valid() && sum.size == n
    && forall k: nat | k < n ::
         if s.Has(k) then Abs(sum.Get(k) - ObsSum(a, betas, n, numObs, k)) <= Slack(|betas|) else sum.Get(k) == 0.0
  }

  ghost predicate IsNewPlane(a: ActionModel, discount: real, betas: seq<CVector>, s: CVector, n: nat, numObs: nat,
                             alpha: CVector)
    requires a.Valid(n, numObs) && |betas| == numObs
  {
    && alpha.Valid() && alpha.size == n
    && forall k: nat | k < n :: NewElement(a, discount, betas, s, n, numObs, alpha, k)
  }

  ghost predicate NewElement(a: ActionModel, discount: real, betas: seq<CVector>, s: CVector, n: nat, numObs: nat,
                             alpha: CVector, k: nat)
    requires a.Valid(n, numObs) && |betas| == numObs
  {
    if s.Has(k) then
      Abs(alpha.Get(k) - (Times(discount, ObsSum(a, betas, n, numObs, k)) + a.R.Get(k)))
        <= Times(discount, Slack(numObs))
    else alpha.Get(k) == 0.0
  }

  /** The plane for one action: reward plus discounted sum over the observations, on the states of the belief. */
  method GetNewLBPlaneQ(a: ActionModel, discount: real, s: CVector, succ: seq<Option<Successor>>, default: CVector)
    returns (result: CVector, ghost betas: seq<CVector>)
    requires a.Valid(s.size, |succ|) && s.Valid() && discount >= 0.0
    requires SuccessorsOk(succ, s.size) && default.Valid() && default.size == s.size
    ensures |betas| == |succ| && forall o | 0 <= o < |succ| :: Stands(betas[o], succ[o], default, s.size)
    ensures IsNewPlane(a, discount, betas, s, s.size, |succ|, result)
  {
    ghost var n, numObs := s.size, |succ|;
    var sum := CVector(s.size, []);
    betas := [];
    NothingSummed(a, s, n, numObs);
    hide *;
    SizesAre(a, n, numObs);
    for o := 0 to |succ|
      invariant |betas| == o && forall p | 0 <= p < o :: Stands(betas[p], succ[p], default, n)
      invariant Sums(a, betas, s, n, numObs, sum)
    {
      SuccessorIs(succ, o, n);
      var beta := ChooseBeta(succ[o], default, s);
      StandsIs(beta, succ[o], default, n);
      sum := AddObservation(a, s, o, beta, sum, numObs, betas);
      betas := betas + [beta];
    }
    var reward := MaskPart(a.R, s);
    SumIs(a, betas, s, n, numObs, sum);
    var scaled := ScaleBy(sum, discount);
    result := Add(scaled, reward);
    NewPlaneIs(a, discount, betas, s, n, numObs, sum, scaled, reward, result);
  }

  lemma SuccessorIs(succ: seq<Option<Successor>>, o: nat, n: nat)
    requires SuccessorsOk(succ, n) && o < |succ|
    ensures SuccessorsOk([succ[o]], n)
  {
  }

  lemma StandsIs(beta: CVector, succ: Option<Successor>, default: CVector, n: nat)
    requires Stands(beta, succ, default, n)
    ensures beta.Valid() && beta.size == n
  {
  }

  lemma SizesAre(a: ActionModel, n: nat, numObs: nat)
    requires a.Valid(n, numObs)
    ensures a.R.Valid() && a.R.size == n
  {
  }

  lemma NothingSummed(a: ActionModel, s: CVector, n: nat, numObs: nat)
    requires a.Valid(n, numObs)
    ensures Sums(a, [], s, n, numObs, CVector(n, []))
  {
  }

  lemma SumIs(a: ActionModel, betas: seq<CVector>, s: CVector, n: nat, numObs: nat, sum: CVector)
    requires a.Valid(n, numObs) && |betas| <= numObs && Sums(a, betas, s, n, numObs, sum)
    ensures sum.Valid() && sum.size == n
  {
  }

  /** The plane of the successor, cut down to its belief if it is not sparse, or the default. */
  method ChooseBeta(succ: Option<Successor>, default: CVector, s: CVector) returns (beta: CVector)
    requires SuccessorsOk([succ], s.size) && default.Valid() && default.size == s.size
    ensures Stands(beta, succ, default, s.size)
  {
    assert [succ][0] == succ;
    if succ.None? {
      return default;
    }
    beta := succ.value.alpha;
    if |beta.data| > |s.data| {
      beta := MaskPart(beta, succ.value.s);
    }
  }

  /** Adds the contribution of one observation. */
  method AddObservation(a: ActionModel, s: CVector, o: nat, beta: CVector, sum: CVector, ghost numObs: nat,
                        ghost betas: seq<CVector>)
    returns (result: CVector)
    requires a.Valid(s.size, numObs) && s.Valid() && o == |betas| < numObs && beta.Valid() && beta.size == s.size
    requires Sums(a, betas, s, s.size, numObs, sum)
    ensures Sums(a, betas + [beta], s, s.size, numObs, result)
  {
    ghost var n := s.size;
    hide *;
    ColumnIs(a, o, n, numObs);
    SumIs(a, betas, s, n, numObs, sum);
    var tmp := EMult(a.O.Column(o), beta);
    var product := Mult(a.T, tmp);
    ProductIs(a, beta, o, n, numObs, tmp, product.value);
    var masked := MaskPart(product.value, s);
    result := Add(sum, masked);
    OneMoreSummed(a, betas, beta, s, n, numObs, sum, product.value, result);
  }

  lemma ColumnIs(a: ActionModel, o: nat, n: nat, numObs: nat)
    requires a.Valid(n, numObs) && o < numObs
    ensures o < a.O.size2 && |a.O.colStarts| == a.O.size2 + 1
    ensures a.O.colStarts[o] <= a.O.colStarts[o + 1] <= |a.O.data|
    ensures a.O.Column(o).Valid() && a.O.Column(o).size == n
    ensures forall k: nat :: a.O.Column(o).Get(k) == a.O.Get(k, o)
    ensures a.T.Valid() && a.T.size1 == n == a.T.size2
  {
    assert a.O.ColumnOk(o);
  }

  /** The sparse product is the weighted plane times the transitions, up to tiny elements. */
  lemma ProductIs(a: ActionModel, beta: CVector, o: nat, n: nat, numObs: nat, tmp: CVector, product: CVector)
    requires a.Valid(n, numObs) && o < numObs && tmp.size == n
    requires forall k: nat :: tmp.Get(k) == a.O.Get(k, o) * beta.Get(k)
    requires SparseOf(product, Product(a.T, tmp))
    ensures product.Valid() && product.size == n
    ensures forall k: nat | k < n :: Abs(product.Get(k) - ObsTerm(a, beta, o, n, numObs, k)) <= SPARSE_EPS
  {
    ColumnIs(a, o, n, numObs);
    hide CMatrix.Get, CMatrix.Valid, CVector.Get;
    var w := WeightedPlane(a, beta, o, n, numObs);
    forall k: nat | k < n
      ensures Dense(tmp)[k] == w[k]
    {
      DenseAt(tmp, k);
      TimesIs(a.O.Get(k, o), beta.Get(k));
    }
    assert Dense(tmp) == w;
    forall k: nat | k < n
      ensures Abs(product.Get(k) - ObsTerm(a, beta, o, n, numObs, k)) <= SPARSE_EPS
    {
      assert Product(a.T, tmp)[k] == ProductAt(a.T, tmp, k);
    }
  }

  lemma DenseAt(x: CVector, k: nat)
    requires k < x.size
    ensures Dense(x)[k] == x.Get(k)
  {
  }

  lemma OneMoreSummed(a: ActionModel, betas: seq<CVector>, beta: CVector, s: CVector, n: nat, numObs: nat, sum: CVector,
                      product: CVector, result: CVector)
    requires a.Valid(n, numObs) && |betas| < numObs && Sums(a, betas, s, n, numObs, sum)
    requires result.Valid() && result.size == n
    requires forall k: nat | k < n ::
      Abs(product.Get(k) - ObsTerm(a, beta, |betas|, n, numObs, k)) <= SPARSE_EPS
    requires forall k :: result.Get(k) == sum.Get(k) + if s.Has(k) then product.Get(k) else 0.0
    ensures Sums(a, betas + [beta], s, n, numObs, result)
  {
    hide CVector.Get, CVector.Has, ObsTerm, CMatrix.Valid;
    var o := |betas|;
    assert (betas + [beta])[..o] == betas;
    assert Slack(o + 1) == Slack(o) + SPARSE_EPS;
  }

  lemma NewPlaneIs(a: ActionModel, discount: real, betas: seq<CVector>, s: CVector, n: nat, numObs: nat, sum: CVector,
                   scaled: CVector, reward: CVector, result: CVector)
    requires a.Valid(n, numObs) && |betas| == numObs && Sums(a, betas, s, n, numObs, sum) && discount >= 0.0
    requires result.Valid() && result.size == n
    requires forall k: nat :: scaled.Get(k) == Times(discount, sum.Get(k))
    requires forall k: nat :: reward.Get(k) == if s.Has(k) then a.R.Get(k) else 0.0
    requires forall k :: result.Get(k) == scaled.Get(k) + reward.Get(k)
    ensures IsNewPlane(a, discount, betas, s, n, numObs, result)
  {
    forall k: nat | k < n
      ensures NewElement(a, discount, betas, s, n, numObs, result, k)
    {
      hide CVector.Get, CVector.Has, ObsSum, CMatrix.Valid, Slack, Times;
      if s.Has(k) {
        ScaledNear(discount, sum.Get(k), ObsSum(a, betas, n, numObs, k), Slack(numObs));
      } else {
        TimesIs(discount, 0.0);
      }
    }
  }

  lemma ScaledNear(g: real, x: real, y: real, d: real)
    requires g >= 0.0 && Abs(x - y) <= d
    ensures Abs(Times(g, x) - Times(g, y)) <= Times(g, d)
  {
    hide Times;
    TimesMinus(g, x, y);
    TimesMinus(g, y, x);
    TimesMono(g, x - y, d);
    TimesMono(g, y - x, d);
  }

  // ---------- Validity ----------

  /** The weights are on states that the mask stores. */
  ghost predicate CoveredBy(u: seq<real>, mask: CVector) {
    forall k: nat | k < |u| && u[k] > 0.0 :: mask.Has(k)
  }

  /** Where the plane applies, it lies below the value, normalized or not. */
  ghost predicate PlaneBelow(value: seq<real> -> real, alpha: CVector, mask: CVector, n: nat) {
    && alpha.size == n
    && forall u | |u| == n && NonNegative(u) && CoveredBy(u, mask) :: Dot(Dense(alpha), u, n) <= value(u)
  }

  /** The successor's belief stores every state that can be reached from the belief with this observation, and the
      plane looked up for it applies to it and is valid; an outcome without successor is impossible. */
  ghost predicate SuccessorSound(value: seq<real> -> real, a: ActionModel, s: CVector, o: nat, succ: Option<Successor>,
                                 default: CVector, n: nat, numObs: nat)
    requires a.Valid(n, numObs) && o < numObs
  {
    match succ
    case Some(e) =>
      && PlaneBelow(value, e.alpha, e.mask, n) && (forall k: nat :: e.s.Has(k) ==> e.mask.Has(k))
      && (forall j: nat, k: nat | j < n && k < n && s.Has(j) && a.T.Get(j, k) > 0.0 && a.O.Get(k, o) > 0.0 ::
            e.s.Has(k))
    case None =>
      && default.size == n
      && (forall j: nat, k: nat | j < n && k < n && s.Has(j) && a.T.Get(j, k) > 0.0 :: a.O.Get(k, o) <= 0.0)
  }

  /** The expectation of the value after the action, over the first `m` observations. */
  ghost function ValueSum(value: seq<real> -> real, a: ActionModel, u: seq<real>, n: nat, numObs: nat, m: nat): real
    requires a.Valid(n, numObs) && |u| == n && m <= numObs
  {
    if m == 0 then 0.0 else ValueSum(value, a, u, n, numObs, m - 1) + value(Joint(a, u, m - 1, n, numObs))
  }

  /** The value is at least the lookahead of the action, with a margin for each unit of weight. */
  ghost predicate Superharmonic(value: seq<real> -> real, a: ActionModel, discount: real, n: nat, numObs: nat,
                                margin: real)
    requires a.Valid(n, numObs)
  {
    forall u | |u| == n && NonNegative(u) ::
      Dot(Dense(a.R), u, n) + Times(discount, ValueSum(value, a, u, n, numObs, numObs)) + Times(margin, Sum(u, n))
        <= value(u)
  }

  /** What the planes of the successors are worth together. */
  ghost function PlaneSum(a: ActionModel, betas: seq<CVector>, u: seq<real>, n: nat, numObs: nat): real
    requires a.Valid(n, numObs) && |u| == n && |betas| <= numObs && forall b | b in betas :: b.size == n
  {
    if betas == [] then 0.0
    else
      var o := |betas| - 1;
      PlaneSum(a, betas[..o], u, n, numObs) + Dot(Dense(betas[o]), Joint(a, u, o, n, numObs), n)
  }

  ghost function ObsSums(a: ActionModel, betas: seq<CVector>, n: nat, numObs: nat): (f: seq<real>)
    requires a.Valid(n, numObs) && |betas| <= numObs
    ensures |f| == n
  {
    seq(n, k requires 0 <= k < n => ObsSum(a, betas, n, numObs, k))
  }

  /** One observation: weighting the plane and going back over the transitions, or going forward and weighting. */
  lemma ObsTermIsForward(a: ActionModel, beta: CVector, o: nat, u: seq<real>, n: nat, numObs: nat, p: seq<real>)
    requires a.Valid(n, numObs) && o < numObs && |u| == n == |p| && beta.size == n
    requires forall k | 0 <= k < n :: p[k] == ObsTerm(a, beta, o, n, numObs, k)
    ensures Dot(p, u, n) == Dot(Dense(beta), Joint(a, u, o, n, numObs), n)
  {
    var w, f, j := WeightedPlane(a, beta, o, n, numObs), Flow(a.T, u, n, n), Joint(a, u, o, n, numObs);
    Exchange(a.T, w, u, p, n, n);
    hide CMatrix.Get, CMatrix.Valid, CVector.Get, FlowAt, Dot;
    forall k | 0 <= k < n
      ensures Times(w[k], f[k]) == Times(Dense(beta)[k], j[k])
    {
      DenseAt(beta, k);
      hide Times, Dense;
      Regroup(a.O.Get(k, o), beta.Get(k), FlowAt(a.T, u, k, n));
    }
    DotAgree(w, f, Dense(beta), j, n);
  }

  lemma Regroup(x: real, y: real, z: real)
    ensures Times(Times(x, y), z) == Times(y, Times(x, z))
  {
    assert x * y * z == y * (x * z);
  }

  lemma {:induction false} ObsSumsAreForward(a: ActionModel, betas: seq<CVector>, u: seq<real>, n: nat, numObs: nat)
    requires a.Valid(n, numObs) && |u| == n && |betas| <= numObs && forall b | b in betas :: b.size == n
    ensures Dot(ObsSums(a, betas, n, numObs), u, n) == PlaneSum(a, betas, u, n, numObs)
  {
    hide CMatrix.Valid, ObsTerm, Joint, Dense;
    var f := ObsSums(a, betas, n, numObs);
    DotSwap(f, u, n);
    if betas == [] {
      DotZero(u, f, n);
    } else {
      var o := |betas| - 1;
      var g := ObsSums(a, betas[..o], n, numObs);
      var p := seq(n, k requires 0 <= k < n => ObsTerm(a, betas[o], o, n, numObs, k));
      ObsSumsAreForward(a, betas[..o], u, n, numObs);
      DotSwap(g, u, n);
      DotSwap(p, u, n);
      forall k | 0 <= k < n
        ensures f[k] == g[k] + Times(1.0, p[k])
      {
        UnitTimes(p[k]);
      }
      DotLinear(u, g, 1.0, p, f, n);
      UnitTimes(Dot(u, p, n));
      assert betas[o] in betas;
      ObsTermIsForward(a, betas[o], o, u, n, numObs, p);
    }
  }

  /** On the weights that the belief can lead to, what the backup uses lies below the value. */
  lemma BetaBelow(value: seq<real> -> real, a: ActionModel, s: CVector, o: nat, succ: Option<Successor>,
                  default: CVector, beta: CVector, u: seq<real>, n: nat, numObs: nat)
    requires a.Valid(n, numObs) && a.NonNegative(n, numObs) && o < numObs && |u| == n
    requires NonNegative(u) && CoveredBy(u, s)
    requires SuccessorSound(value, a, s, o, succ, default, n, numObs) && Stands(beta, succ, default, n)
    requires forall z | |z| == n && (forall k | 0 <= k < n :: z[k] == 0.0) :: 0.0 <= value(z)
    ensures Dot(Dense(beta), Joint(a, u, o, n, numObs), n) <= value(Joint(a, u, o, n, numObs))
  {
    var j := Joint(a, u, o, n, numObs);
    forall k: nat | k < n
      ensures j[k] >= 0.0
      ensures j[k] > 0.0 ==> a.O.Get(k, o) > 0.0 && exists i: nat :: i < n && s.Has(i) && a.T.Get(i, k) > 0.0
    {
      JointSign(a, u, o, n, numObs, k);
    }
    hide CMatrix.Get, CMatrix.Valid, CVector.Has, CVector.Get, Joint, Dot, ActionModel.NonNegative, ActionModel.Valid;
    match succ
    case Some(e) => {
      assert CoveredBy(j, e.mask) && CoveredBy(j, e.s);
      forall k | 0 <= k < n
        ensures Times(Dense(beta)[k], j[k]) == Times(Dense(e.alpha)[k], j[k])
      {
        SameWhereCovered(beta, e.alpha, e.s, j, k);
      }
      DotAgree(Dense(beta), j, Dense(e.alpha), j, n);
    }
    case None => {
      forall k: nat | k < n
        ensures j[k] == 0.0
      {
      }
      DotZero(Dense(beta), j, n);
    }
  }

  lemma SameWhereCovered(beta: CVector, alpha: CVector, s: CVector, j: seq<real>, k: nat)
    requires k < |j| == beta.size == alpha.size && j[k] >= 0.0 && (j[k] > 0.0 ==> s.Has(k))
    requires s.Has(k) ==> beta.Get(k) == alpha.Get(k)
    ensures Times(Dense(beta)[k], j[k]) == Times(Dense(alpha)[k], j[k])
  {
    DenseAt(beta, k);
    DenseAt(alpha, k);
    hide Dense, CVector.Get, CVector.Has;
    if j[k] == 0.0 {
      TimesIs(beta.Get(k), 0.0);
      TimesIs(alpha.Get(k), 0.0);
    }
  }

  lemma {:induction false} PlanesBelow(value: seq<real> -> real, a: ActionModel, betas: seq<CVector>, u: seq<real>,
                                       n: nat, numObs: nat)
    requires a.Valid(n, numObs) && |u| == n && |betas| <= numObs && forall b | b in betas :: b.size == n
    requires forall o | 0 <= o < |betas| ::
      Dot(Dense(betas[o]), Joint(a, u, o, n, numObs), n) <= value(Joint(a, u, o, n, numObs))
    ensures PlaneSum(a, betas, u, n, numObs) <= ValueSum(value, a, u, n, numObs, |betas|)
  {
    hide CMatrix.Valid, Joint, Dense, Dot;
    if betas != [] {
      PlanesBelow(value, a, betas[..|betas| - 1], u, n, numObs);
    }
  }

  /** A vector that exceeds another one by at most `d` where there is weight. */
  lemma {:induction false} DotWithin(x: seq<real>, y: seq<real>, u: seq<real>, d: real, n: nat)
    requires n <= |x| && n <= |y| && n <= |u|
    requires forall k | 0 <= k < n :: u[k] == 0.0 || (u[k] > 0.0 && x[k] <= y[k] + d)
    ensures Dot(x, u, n) <= Dot(y, u, n) + Times(d, Sum(u, n))
  {
    if n == 0 {
      TimesIs(d, 0.0);
    } else {
      DotWithin(x, y, u, d, n - 1);
      TimesPlus(d, Sum(u, n - 1), u[n - 1]);
      var xk, yk, uk := x[n - 1], y[n - 1], u[n - 1];
      assert xk * uk <= yk * uk + d * uk by {
        if uk == 0.0 {
        } else {
          ScaleMono(uk, xk, yk + d);
          assert uk * (yk + d) == uk * yk + uk * d;
        }
      }
    }
  }

  /** The new plane is valid wherever its mask allows, if the value exceeds its lookahead by the margin that dropping
      tiny elements may cost. */
  lemma NewPlaneIsBelow(value: seq<real> -> real, a: ActionModel, discount: real, s: CVector,
                        succ: seq<Option<Successor>>, default: CVector, betas: seq<CVector>, alpha: CVector)
    requires a.Valid(s.size, |succ|) && a.NonNegative(s.size, |succ|) && discount >= 0.0 && |betas| == |succ|
    requires forall o | 0 <= o < |succ| :: Stands(betas[o], succ[o], default, s.size)
    requires forall o | 0 <= o < |succ| ::
      SuccessorSound(value, a, s, o, succ[o], default, s.size, |succ|)
    requires IsNewPlane(a, discount, betas, s, s.size, |succ|, alpha)
    requires Superharmonic(value, a, discount, s.size, |succ|, Times(discount, Slack(|succ|)))
    requires forall z | |z| == s.size && (forall k | 0 <= k < s.size :: z[k] == 0.0) :: 0.0 <= value(z)
    ensures PlaneBelow(value, alpha, s, s.size)
  {
    var n, numObs := s.size, |succ|;
    forall u | |u| == n && NonNegative(u) && CoveredBy(u, s)
      ensures Dot(Dense(alpha), u, n) <= value(u)
    {
      PlaneAtWeights(value, a, discount, s, succ, default, betas, alpha, u);
    }
  }

  lemma PlaneAtWeights(value: seq<real> -> real, a: ActionModel, discount: real, s: CVector,
                       succ: seq<Option<Successor>>, default: CVector, betas: seq<CVector>, alpha: CVector,
                       u: seq<real>)
    requires a.Valid(s.size, |succ|) && a.NonNegative(s.size, |succ|) && discount >= 0.0 && |betas| == |succ|
    requires forall o | 0 <= o < |succ| :: Stands(betas[o], succ[o], default, s.size)
    requires forall o | 0 <= o < |succ| ::
      SuccessorSound(value, a, s, o, succ[o], default, s.size, |succ|)
    requires IsNewPlane(a, discount, betas, s, s.size, |succ|, alpha)
    requires Superharmonic(value, a, discount, s.size, |succ|, Times(discount, Slack(|succ|)))
    requires forall z | |z| == s.size && (forall k | 0 <= k < s.size :: z[k] == 0.0) :: 0.0 <= value(z)
    requires |u| == s.size && NonNegative(u) && CoveredBy(u, s)
    ensures alpha.size == s.size && Dot(Dense(alpha), u, s.size) <= value(u)
  {
    var n, numObs := s.size, |succ|;
    var f, d := ObsSums(a, betas, n, numObs), Times(discount, Slack(numObs));
    var g := seq(n, k requires 0 <= k < n => a.R.Get(k) + Times(discount, f[k]));
    forall k: nat | k < n
      ensures u[k] == 0.0 || (u[k] > 0.0 && Dense(alpha)[k] <= g[k] + d)
    {
      assert NewElement(a, discount, betas, s, n, numObs, alpha, k);
      DenseAt(alpha, k);
    }
    assert forall b | b in betas :: b.size == n;
    hide CMatrix.Get, CMatrix.Valid, CVector.Get, CVector.Has, ObsSum, Slack, Dense, Joint, Times, Dot, Stands;
    DotWithin(Dense(alpha), g, u, d, n);
    RewardAndSums(a, discount, f, g, u, n, numObs);
    ObsSumsAreForward(a, betas, u, n, numObs);
    forall o | 0 <= o < |betas|
      ensures Dot(Dense(betas[o]), Joint(a, u, o, n, numObs), n) <= value(Joint(a, u, o, n, numObs))
    {
      BetaBelow(value, a, s, o, succ[o], default, betas[o], u, n, numObs);
    }
    PlanesBelow(value, a, betas, u, n, numObs);
    TimesMono(discount, PlaneSum(a, betas, u, n, numObs), ValueSum(value, a, u, n, numObs, numObs));
  }

  lemma RewardAndSums(a: ActionModel, discount: real, f: seq<real>, g: seq<real>, u: seq<real>, n: nat, numObs: nat)
    requires a.Valid(n, numObs) && |f| == n == |g| == |u|
    requires forall k: nat | k < n :: g[k] == a.R.Get(k) + Times(discount, f[k])
    ensures a.R.size == n && Dot(g, u, n) == Dot(Dense(a.R), u, n) + Times(discount, Dot(f, u, n))
  {
    forall k: nat | k < n
      ensures Dense(a.R)[k] == a.R.Get(k)
    {
      DenseAt(a.R, k);
    }
    hide CMatrix.Valid, CVector.Get, Dense, Times, Dot;
    DotSwap(g, u, n);
    DotSwap(f, u, n);
    DotSwap(Dense(a.R), u, n);
    DotLinear(u, Dense(a.R), discount, f, g, n);
  }

  /** At all weights on states of the belief, the new plane is worth the reward plus the discounted worth of the planes
      of the successors, up to what dropping tiny elements costs. */
  lemma NewPlaneAttains(a: ActionModel, discount: real, s: CVector, betas: seq<CVector>, alpha: CVector, u: seq<real>)
    requires a.Valid(s.size, |betas|) && discount >= 0.0 && forall b | b in betas :: b.size == s.size
    requires IsNewPlane(a, discount, betas, s, s.size, |betas|, alpha)
    requires |u| == s.size && NonNegative(u) && CoveredBy(u, s)
    ensures alpha.size == s.size
    ensures Abs(Dot(Dense(alpha), u, s.size)
        - (Dot(Dense(a.R), u, s.size) + Times(discount, PlaneSum(a, betas, u, s.size, |betas|))))
      <= Times(Times(discount, Slack(|betas|)), Sum(u, s.size))
  {
    var n, numObs := s.size, |betas|;
    var f, d := ObsSums(a, betas, n, numObs), Times(discount, Slack(numObs));
    var g := seq(n, k requires 0 <= k < n => a.R.Get(k) + Times(discount, f[k]));
    assert alpha.size == n && a.R.size == n;
    hide *;
    forall k: nat | k < n
      ensures u[k] == 0.0 || (u[k] > 0.0 && Dense(alpha)[k] <= g[k] + d && g[k] <= Dense(alpha)[k] + d)
    {
      NearElement(a, discount, s, betas, alpha, u, k);
    }
    DotWithin(Dense(alpha), g, u, d, n);
    DotWithin(g, Dense(alpha), u, d, n);
    RewardAndSums(a, discount, f, g, u, n, numObs);
    ObsSumsAreForward(a, betas, u, n, numObs);
    AbsWithin(Dot(Dense(alpha), u, n), Dot(g, u, n), Times(d, Sum(u, n)));
  }

  lemma AbsWithin(x: real, y: real, d: real)
    requires x <= y + d && y <= x + d
    ensures Abs(x - y) <= d
  {
  }

  lemma NearElement(a: ActionModel, discount: real, s: CVector, betas: seq<CVector>, alpha: CVector, u: seq<real>,
                    k: nat)
    requires a.Valid(s.size, |betas|) && IsNewPlane(a, discount, betas, s, s.size, |betas|, alpha)
    requires |u| == s.size && NonNegative(u) && CoveredBy(u, s) && k < s.size
    ensures var x, y := Dense(alpha)[k], a.R.Get(k) + Times(discount, ObsSums(a, betas, s.size, |betas|)[k]);
      var d := Times(discount, Slack(|betas|));
      u[k] == 0.0 || (u[k] > 0.0 && x <= y + d && y <= x + d)
  {
    assert NewElement(a, discount, betas, s, s.size, |betas|, alpha, k);
    DenseAt(alpha, k);
    hide CMatrix.Get, CMatrix.Valid, CVector.Get, CVector.Has, ObsSum, Slack, Dense, Times;
  }

  /** With all weight on one state, the weight after the action and observation is the probability of both. */
  lemma JointOfState(a: ActionModel, u: seq<real>, i: nat, o: nat, n: nat, numObs: nat, k: nat)
    requires a.Valid(n, numObs) && |u| == n && i < n && o < numObs && k < n
    requires forall j | 0 <= j < n :: u[j] == if j == i then 1.0 else 0.0
    ensures Joint(a, u, o, n, numObs)[k] == a.T.Get(i, k) * a.O.Get(k, o)
  {
    FlowOfState(a.T, u, i, k, n);
    TimesIs(a.O.Get(k, o), a.T.Get(i, k));
  }

  lemma {:induction false} FlowOfState(t: CMatrix, u: seq<real>, i: nat, k: nat, m: nat)
    requires t.Valid() && k < t.size2 && i < |u| && m <= |u|
    requires forall j | 0 <= j < m :: u[j] == if j == i then 1.0 else 0.0
    ensures FlowAt(t, u, k, m) == if i < m then t.Get(i, k) else 0.0
  {
    hide CMatrix.Get, CMatrix.Valid, Times;
    if m > 0 {
      FlowOfState(t, u, i, k, m - 1);
      UnitTimes(t.Get(m - 1, k));
      TimesIs(0.0, t.Get(m - 1, k));
    }
  }

  // ---------- The margin ----------

  function Ones(n: nat): (u: seq<real>)
    ensures |u| == n && forall k | 0 <= k < n :: u[k] == 1.0
  {
    seq(n, _ => 1.0)
  }

  /** The probability of the first `m` observations in state `k`. */
  ghost function ObsMass(a: ActionModel, k: nat, m: nat): real
    requires a.O.Valid() && m <= a.O.size2
  {
    if m == 0 then 0.0 else ObsMass(a, k, m - 1) + a.O.Get(k, m - 1)
  }

  /** Every state leads somewhere, and every state is observed somehow, with total probability 1. */
  ghost predicate Stochastic(a: ActionModel, n: nat, numObs: nat)
    requires a.Valid(n, numObs)
  {
    && (forall s | 0 <= s < n :: Dot(Ones(n), RowOf(a.T, s), n) == 1.0)
    && (forall k: nat | k < n :: ObsMass(a, k, numObs) == 1.0)
  }

  lemma {:induction false} SumIsDot(u: seq<real>, n: nat)
    requires n <= |u|
    ensures Sum(u, n) == Dot(Ones(|u|), u, n)
  {
    if n > 0 {
      SumIsDot(u, n - 1);
    }
  }

  lemma {:induction false} SumPlus(u: seq<real>, v: seq<real>, w: seq<real>, n: nat)
    requires n <= |u| && n <= |v| && n <= |w| && forall k | 0 <= k < n :: w[k] == u[k] + v[k]
    ensures Sum(w, n) == Sum(u, n) + Sum(v, n)
  {
    if n > 0 {
      SumPlus(u, v, w, n - 1);
    }
  }

  /** The weights of the first `m` observations together. */
  ghost function JointMass(a: ActionModel, u: seq<real>, n: nat, numObs: nat, m: nat): real
    requires a.Valid(n, numObs) && |u| == n && m <= numObs
  {
    if m == 0 then 0.0 else JointMass(a, u, n, numObs, m - 1) + Sum(Joint(a, u, m - 1, n, numObs), n)
  }

  lemma {:induction false} JointMassIs(a: ActionModel, u: seq<real>, n: nat, numObs: nat, m: nat, w: seq<real>)
    requires a.Valid(n, numObs) && |u| == n == |w| && m <= numObs
    requires forall k: nat | k < n :: w[k] == Times(ObsMass(a, k, m), FlowAt(a.T, u, k, n))
    ensures JointMass(a, u, n, numObs, m) == Sum(w, n)
  {
    hide CMatrix.Get, CMatrix.Valid, FlowAt, Times;
    if m == 0 {
      forall k: nat | k < n
        ensures w[k] == 0.0
      {
        TimesIs(0.0, FlowAt(a.T, u, k, n));
      }
      SumZero(w, n);
    } else {
      var v := seq(n, k requires 0 <= k < n => Times(ObsMass(a, k, m - 1), FlowAt(a.T, u, k, n)));
      JointMassIs(a, u, n, numObs, m - 1, v);
      var j := Joint(a, u, m - 1, n, numObs);
      forall k: nat | k < n
        ensures w[k] == v[k] + j[k]
      {
        TimesPlus(FlowAt(a.T, u, k, n), ObsMass(a, k, m - 1), a.O.Get(k, m - 1));
      }
      SumPlus(v, j, w, n);
    }
  }

  /** No weight is lost: the successors together weigh as much as the belief. */
  lemma NoMassIsLost(a: ActionModel, u: seq<real>, n: nat, numObs: nat)
    requires a.Valid(n, numObs) && Stochastic(a, n, numObs) && |u| == n
    ensures JointMass(a, u, n, numObs, numObs) == Sum(u, n)
  {
    var f, ones := Flow(a.T, u, n, n), Ones(n);
    hide CMatrix.Get, CMatrix.Valid, FlowAt, Dot;
    forall k: nat | k < n
      ensures f[k] == Times(ObsMass(a, k, numObs), FlowAt(a.T, u, k, n))
    {
      UnitTimes(FlowAt(a.T, u, k, n));
    }
    JointMassIs(a, u, n, numObs, numObs, f);
    SumIsDot(f, n);
    Exchange(a.T, ones, u, ones, n, n);
    SumIsDot(u, n);
  }

  /** The value with `sigma` added for each unit of weight. */
  ghost function Raised(value: seq<real> -> real, sigma: real): seq<real> -> real {
    (u: seq<real>) => value(u) + Times(sigma, Sum(u, |u|))
  }

  lemma {:induction false} RaisedSum(value: seq<real> -> real, sigma: real, a: ActionModel, u: seq<real>, n: nat,
                                     numObs: nat, m: nat)
    requires a.Valid(n, numObs) && |u| == n && m <= numObs
    ensures ValueSum(Raised(value, sigma), a, u, n, numObs, m)
         == ValueSum(value, a, u, n, numObs, m) + Times(sigma, JointMass(a, u, n, numObs, m))
  {
    hide CMatrix.Valid, Joint, Times;
    if m == 0 {
      TimesIs(sigma, 0.0);
    } else {
      RaisedSum(value, sigma, a, u, n, numObs, m - 1);
      TimesPlus(sigma, JointMass(a, u, n, numObs, m - 1), Sum(Joint(a, u, m - 1, n, numObs), n));
    }
  }

  /** Raising a value that satisfies the Bellman inequality gives it a margin, because the raise is discounted. */
  lemma RaisedHasMargin(value: seq<real> -> real, sigma: real, a: ActionModel, discount: real, n: nat, numObs: nat,
                        margin: real)
    requires a.Valid(n, numObs) && Stochastic(a, n, numObs) && Superharmonic(value, a, discount, n, numObs, 0.0)
    requires margin + Times(discount, sigma) <= sigma
    ensures Superharmonic(Raised(value, sigma), a, discount, n, numObs, margin)
  {
    forall u | |u| == n && NonNegative(u)
      ensures Dot(Dense(a.R), u, n) + Times(discount, ValueSum(Raised(value, sigma), a, u, n, numObs, numObs))
            + Times(margin, Sum(u, n)) <= Raised(value, sigma)(u)
    {
      TimesIs(0.0, Sum(u, n));
      assert Dot(Dense(a.R), u, n) + Times(discount, ValueSum(value, a, u, n, numObs, numObs))
           + Times(0.0, Sum(u, n)) <= value(u);
      hide *;
      MarginAt(value, sigma, a, discount, n, numObs, margin, u);
    }
  }

  lemma MarginAt(value: seq<real> -> real, sigma: real, a: ActionModel, discount: real, n: nat, numObs: nat,
                 margin: real, u: seq<real>)
    requires a.Valid(n, numObs) && Stochastic(a, n, numObs) && |u| == n && NonNegative(u)
    requires Dot(Dense(a.R), u, n) + Times(discount, ValueSum(value, a, u, n, numObs, numObs)) <= value(u)
    requires margin + Times(discount, sigma) <= sigma
    ensures a.R.size == n
    ensures Dot(Dense(a.R), u, n) + Times(discount, ValueSum(Raised(value, sigma), a, u, n, numObs, numObs))
          + Times(margin, Sum(u, n)) <= Raised(value, sigma)(u)
  {
    SumNonNegative(u, n);
    RaisedSum(value, sigma, a, u, n, numObs, numObs);
    NoMassIsLost(a, u, n, numObs);
    hide CMatrix.Valid, Dot, Times, Stochastic, ValueSum, JointMass;
    var mass, plain := Sum(u, n), ValueSum(value, a, u, n, numObs, numObs);
    TimesPlus(discount, plain, Times(sigma, mass));
    TimesAssoc(discount, sigma, mass);
    TimesPlus(mass, margin, Times(discount, sigma));
    TimesMonoLeft(margin + Times(discount, sigma), sigma, mass);
  }

  lemma {:induction false} SumNonNegative(u: seq<real>, n: nat)
    requires n <= |u| && NonNegative(u)
    ensures Sum(u, n) >= 0.0
  {
    if n > 0 {
      SumNonNegative(u, n - 1);
    }
  }

  /** Over any number of backups the planes exceed the value by no more than `sigma`: if those used do not, neither
      does the new one, as soon as `sigma` is at least what one backup may lose over 1 minus the discount. */
  lemma NewPlaneIsNear(value: seq<real> -> real, sigma: real, a: ActionModel, discount: real, s: CVector,
                       succ: seq<Option<Successor>>, default: CVector, betas: seq<CVector>, alpha: CVector)
    requires a.Valid(s.size, |succ|) && a.NonNegative(s.size, |succ|) && Stochastic(a, s.size, |succ|)
    requires 0.0 <= discount < 1.0 && |betas| == |succ| && sigma >= Times(discount, Slack(|succ|)) / (1.0 - discount)
    requires forall o | 0 <= o < |succ| :: Stands(betas[o], succ[o], default, s.size)
    requires forall o | 0 <= o < |succ| ::
      SuccessorSound(Raised(value, sigma), a, s, o, succ[o], default, s.size, |succ|)
    requires IsNewPlane(a, discount, betas, s, s.size, |succ|, alpha)
    requires Superharmonic(value, a, discount, s.size, |succ|, 0.0)
    requires forall z | |z| == s.size && (forall k | 0 <= k < s.size :: z[k] == 0.0) :: 0.0 <= value(z)
    ensures PlaneBelow(Raised(value, sigma), alpha, s, s.size)
  {
    var margin := Times(discount, Slack(|succ|));
    hide *;
    EnoughRaise(discount, margin, sigma);
    RaisedHasMargin(value, sigma, a, discount, s.size, |succ|, margin);
    forall z | |z| == s.size && (forall k | 0 <= k < s.size :: z[k] == 0.0)
      ensures 0.0 <= Raised(value, sigma)(z)
    {
      RaisedAtZero(value, sigma, z);
    }
    NewPlaneIsBelow(Raised(value, sigma), a, discount, s, succ, default, betas, alpha);
  }

  lemma RaisedAtZero(value: seq<real> -> real, sigma: real, z: seq<real>)
    requires forall k | 0 <= k < |z| :: z[k] == 0.0
    ensures Raised(value, sigma)(z) == value(z)
  {
    SumZero(z, |z|);
    TimesIs(sigma, 0.0);
  }

  lemma EnoughRaise(g: real, margin: real, sigma: real)
    requires 0.0 <= g < 1.0 && sigma >= margin / (1.0 - g)
    ensures margin + Times(g, sigma) <= sigma
  {
    var h := 1.0 - g;
    var x := margin / h;
    assert x * h == margin;
    ScaleMono(h, x, sigma);
    assert sigma * h == sigma - g * sigma;
  }

  // ---------- As a plane of the bound ----------

  /** A plane that lies below the value at all weights is a valid plane of the bound. */
  lemma BelowIsSound(value: seq<real> -> real, p: LBPlane, n: nat)
    requires PlaneOk(p, n) && PlaneBelow(value, p.alpha, p.mask, n)
    ensures PlaneSound((b: CVector) => value(Dense(b)), p, n)
  {
    forall b | Belief(b, n) && b.size == n && Applicable(p, b)
      ensures PlaneValue(p, b) <= value(Dense(b))
    {
      forall k: nat | k < n
        ensures Dense(b)[k] >= 0.0
        ensures Dense(b)[k] > 0.0 ==> p.mask.Has(k)
      {
        BeliefSign(b, n, k);
        DenseAt(b, k);
      }
      hide Dense, CVector.Has, CVector.Get, Dot;
      assert CoveredBy(Dense(b), p.mask);
    }
  }

  /** The best of the planes for the single actions, at the belief of the node. */
  method GetNewLBPlane(models: seq<ActionModel>, discount: real, s: CVector, succs: seq<seq<Option<Successor>>>,
                       default: CVector)
    returns (alpha: CVector, action: nat, lbVals: seq<real>, ghost betas: seq<CVector>)
    requires 0 < |models| == |succs| && s.Valid() && discount >= 0.0 && default.Valid() && default.size == s.size
    requires forall a | 0 <= a < |models| :: models[a].Valid(s.size, |succs[a]|) && SuccessorsOk(succs[a], s.size)
    ensures action < |models| == |lbVals|
    ensures var succ := succs[action];
      && |betas| == |succ| && (forall o | 0 <= o < |succ| :: Stands(betas[o], succ[o], default, s.size))
      && IsNewPlane(models[action], discount, betas, s, s.size, |succ|, alpha)
    ensures alpha.Valid() && alpha.size == s.size && lbVals[action] == Dot(Dense(alpha), Dense(s), s.size)
    ensures forall a | 0 <= a < |models| :: lbVals[a] <= lbVals[action]
    ensures forall a | 0 <= a < action :: lbVals[a] < lbVals[action]
  {
    hide Stands, IsNewPlane, SuccessorsOk, ActionModel.Valid, CVector.Valid, Dot, Dense;
    alpha, action, lbVals, betas := CVector(s.size, []), 0, [], [];
    for a := 0 to |models|
      invariant |lbVals| == a && (a > 0 ==> action < a)
      invariant a > 0 ==> var succ := succs[action];
        && |betas| == |succ| && (forall o | 0 <= o < |succ| :: Stands(betas[o], succ[o], default, s.size))
        && IsNewPlane(models[action], discount, betas, s, s.size, |succ|, alpha)
        && alpha.Valid() && alpha.size == s.size && lbVals[action] == Dot(Dense(alpha), Dense(s), s.size)
      invariant a > 0 ==> forall b | 0 <= b < a :: lbVals[b] <= lbVals[action]
      invariant a > 0 ==> forall b | 0 <= b < action :: lbVals[b] < lbVals[action]
    {
      var betaA;
      ghost var used;
      betaA, used := GetNewLBPlaneQ(models[a], discount, s, succs[a], default);
      NewPlaneSize(models[a], discount, used, s, s.size, |succs[a]|, betaA);
      var val := InnerProd(betaA, s);
      lbVals := lbVals + [val];
      if a == 0 || val > lbVals[action] {
        alpha, action, betas := betaA, a, used;
      }
    }
  }

  lemma NewPlaneSize(a: ActionModel, discount: real, betas: seq<CVector>, s: CVector, n: nat, numObs: nat,
                     alpha: CVector)
    requires a.Valid(n, numObs) && |betas| == numObs && IsNewPlane(a, discount, betas, s, n, numObs, alpha)
    ensures alpha.Valid() && alpha.size == n
  {
  }
}
