/** Reward priors over a batch of reward values (one entry per input row).
    Every prior builds a vector of non-zero values of one sign and divides it by
    its own sum, so the result is a probability vector over the batch.
    `exp` and the constant sqrt(2*pi) are transcendental; they are parameters
    here, with only the property the normalisation needs (exp is positive). */
module Priors {

  /** Sum of a vector (`np.sum`). */
  function Sum(s: seq<real>): real
  {
    if |s| == 0 then 0.0 else s[0] + Sum(s[1..])
  }

  /** All entries strictly positive, or all strictly negative. */
  predicate SameSign(s: seq<real>)
  {
    (forall i :: 0 <= i < |s| ==> s[i] > 0.0) ||
    (forall i :: 0 <= i < |s| ==> s[i] < 0.0)
  }

  /** A sum of positive (negative) entries is positive (negative). */
  lemma {:induction false} SumSign(s: seq<real>)
    requires |s| > 0 && SameSign(s)
    ensures (s[0] > 0.0 ==> Sum(s) > 0.0) && (s[0] < 0.0 ==> Sum(s) < 0.0)
  {
    if |s| > 1 {
      assert SameSign(s[1..]) by {
        if s[0] > 0.0 {
          forall i | 0 <= i < |s[1..]| ensures s[1..][i] > 0.0 { assert s[1..][i] == s[i + 1]; }
        } else {
          forall i | 0 <= i < |s[1..]| ensures s[1..][i] < 0.0 { assert s[1..][i] == s[i + 1]; }
        }
      }
      SumSign(s[1..]);
    }
  }

  /** Dividing every entry by c divides the sum by c. */
  lemma {:induction false} SumDivided(s: seq<real>, c: real, d: seq<real>)
    requires c != 0.0 && |d| == |s|
    requires forall i :: 0 <= i < |s| ==> d[i] == s[i] / c
    ensures Sum(d) == Sum(s) / c
  {
    if |s| > 0 {
      SumDivided(s[1..], c, d[1..]);
    }
  }

  /** `rp / np.sum(rp)`: the normalisation step shared by all priors.
      An empty batch gives an empty result. */
  function Normalize(rp: seq<real>): (d: seq<real>)
    requires SameSign(rp)
    ensures |d| == |rp|
    ensures forall i :: 0 <= i < |d| ==> d[i] > 0.0
    ensures |rp| > 0 ==> Sum(d) == 1.0
  {
    if |rp| == 0 then []
    else
      SumSign(rp);
      var d := seq(|rp|, i requires 0 <= i < |rp| => rp[i] / Sum(rp));
      NormalizedFacts(rp, Sum(rp), d);
      d
  }

  /** What dividing a one-signed vector by its own (non-zero) sum gives. */
  lemma NormalizedFacts(rp: seq<real>, total: real, d: seq<real>)
    requires |rp| > 0 && SameSign(rp) && total == Sum(rp)
    requires (rp[0] > 0.0 ==> total > 0.0) && (rp[0] < 0.0 ==> total < 0.0)
    requires |d| == |rp| && forall i :: 0 <= i < |rp| ==> d[i] == rp[i] / total
    ensures forall i :: 0 <= i < |d| ==> d[i] > 0.0
    ensures Sum(d) == 1.0
  {
    SumDivided(rp, total, d);
    SelfQuotient(total);
    forall i | 0 <= i < |d| ensures d[i] > 0.0 {
      if rp[0] > 0.0 {
        assert rp[i] > 0.0;
        PositiveQuotient(rp[i], total);
      } else {
        assert rp[i] < 0.0;
        NegativeQuotient(rp[i], total);
      }
    }
  }

  /** Normalisation preserves the ratio between any two entries. */
  lemma NormalizeKeepsRatios(rp: seq<real>, i: nat, j: nat)
    requires SameSign(rp) && i < |rp| && j < |rp|
    ensures Normalize(rp)[i] * rp[j] == Normalize(rp)[j] * rp[i]
  {
    NormalizeAt(rp, i);
    NormalizeAt(rp, j);
    QuotientCross(rp[i], rp[j], Sum(rp));
  }

  lemma SelfQuotient(t: real)
    requires t != 0.0
    ensures t / t == 1.0
  {
  }

  lemma PositiveQuotient(x: real, t: real)
    requires x > 0.0 && t > 0.0
    ensures x / t > 0.0
  {
  }

  lemma NegativeQuotient(x: real, t: real)
    requires x < 0.0 && t < 0.0
    ensures x / t > 0.0
  {
    assert x / t == (-x) / (-t);
  }

  lemma QuotientCross(x: real, y: real, t: real)
    requires t != 0.0
    ensures (x / t) * y == (y / t) * x
  {
  }

  lemma NormalizeAt(rp: seq<real>, i: nat)
    requires SameSign(rp) && i < |rp|
    ensures Sum(rp) != 0.0 && Normalize(rp)[i] == rp[i] / Sum(rp)
  {
    SumSign(rp);
  }

  /** A product with a positive factor keeps the other factor's sign, and a
      product with a negative factor flips it. */
  lemma ProductSign(x: real, y: real)
    requires x > 0.0
    ensures (y > 0.0 ==> x * y > 0.0 && y * -x < 0.0) && (y < 0.0 ==> x * y < 0.0 && y * -x > 0.0)
  {
  }

  /** A vector of N ones (`np.ones(N)`). */
  function Ones(n: nat): (s: seq<real>)
    ensures |s| == n && forall i :: 0 <= i < n ==> s[i] == 1.0
  {
    seq(n, _ => 1.0)
  }

  /** UniformRewardPrior.__call__: 1/N for each of the N input rows. */
  function Uniform(r: seq<real>): (d: seq<real>)
    ensures |d| == |r|
    ensures forall i :: 0 <= i < |d| ==> d[i] == 1.0 / (|r| as real)
    ensures |r| > 0 ==> Sum(d) == 1.0
  {
    var d := Normalize(Ones(|r|));
    if |r| > 0 then SumOfConstant(Ones(|r|), 1.0); d else d
  }

  lemma {:induction false} SumOfConstant(s: seq<real>, c: real)
    requires forall i :: 0 <= i < |s| ==> s[i] == c
    ensures Sum(s) == (|s| as real) * c
  {
    if |s| > 0 {
      SumOfConstant(s[1..], c);
    }
  }

  /** The uniform prior does not look at the values, only at how many there are. */
  lemma UniformIgnoresValues(r: seq<real>, q: seq<real>)
    requires |r| == |q|
    ensures Uniform(r) == Uniform(q)
  {
  }

  /** Unnormalised Gaussian weight of one reward value: line 55-56 computes
      `exp(-r^2 / (2 sigma^2)) / sqrt(2 pi) * sigma`, with the product by
      sigma outside the division. */
  function GaussianWeight(x: real, sigma: real, exp: real -> real, sqrtTwoPi: real): real
    requires sigma != 0.0 && sqrtTwoPi > 0.0
  {
    GaussianKernel(x, sigma, exp) / sqrtTwoPi * sigma
  }

  /** The part of the Gaussian weight that depends on the value. */
  function GaussianKernel(x: real, sigma: real, exp: real -> real): real
    requires sigma != 0.0
  {
    exp(-(x * x) / (2.0 * sigma * sigma))
  }

  /** Unnormalised Laplacian weight of one reward value
      (`exp(-|r| / (2 sigma)) / (2 sigma)`). */
  function LaplacianWeight(x: real, sigma: real, exp: real -> real): real
    requires sigma != 0.0
  {
    LaplacianKernel(x, sigma, exp) / (2.0 * sigma)
  }

  /** The part of the Laplacian weight that depends on the value. */
  function LaplacianKernel(x: real, sigma: real, exp: real -> real): real
    requires sigma != 0.0
  {
    exp(-Abs(x) / (2.0 * sigma))
  }

  function Abs(x: real): real
  {
    if x < 0.0 then -x else x
  }

  ghost predicate PositiveExp(exp: real -> real)
  {
    forall x :: exp(x) > 0.0
  }

  function GaussianWeights(r: seq<real>, sigma: real, exp: real -> real, sqrtTwoPi: real): (w: seq<real>)
    requires sigma != 0.0 && sqrtTwoPi > 0.0
    ensures |w| == |r| && forall i :: 0 <= i < |r| ==> w[i] == GaussianWeight(r[i], sigma, exp, sqrtTwoPi)
  {
    seq(|r|, i requires 0 <= i < |r| => GaussianWeight(r[i], sigma, exp, sqrtTwoPi))
  }

  function LaplacianWeights(r: seq<real>, sigma: real, exp: real -> real): (w: seq<real>)
    requires sigma != 0.0
    ensures |w| == |r| && forall i :: 0 <= i < |r| ==> w[i] == LaplacianWeight(r[i], sigma, exp)
  {
    seq(|r|, i requires 0 <= i < |r| => LaplacianWeight(r[i], sigma, exp))
  }

  /** The Gaussian weights all have the sign of sigma. */
  lemma GaussianWeightsSameSign(r: seq<real>, sigma: real, exp: real -> real, sqrtTwoPi: real)
    requires sigma != 0.0 && sqrtTwoPi > 0.0 && PositiveExp(exp)
    ensures SameSign(GaussianWeights(r, sigma, exp, sqrtTwoPi))
  {
    var w := GaussianWeights(r, sigma, exp, sqrtTwoPi);
    forall i | 0 <= i < |r| ensures (sigma > 0.0 ==> w[i] > 0.0) && (sigma < 0.0 ==> w[i] < 0.0) {
      var k := GaussianKernel(r[i], sigma, exp);
      PositiveQuotient(k, sqrtTwoPi);
      ProductSign(k / sqrtTwoPi, sigma);
    }
  }

  /** The Laplacian weights all have the sign of sigma. */
  lemma LaplacianWeightsSameSign(r: seq<real>, sigma: real, exp: real -> real)
    requires sigma != 0.0 && PositiveExp(exp)
    ensures SameSign(LaplacianWeights(r, sigma, exp))
  {
    var w := LaplacianWeights(r, sigma, exp);
    forall i | 0 <= i < |r| ensures (sigma > 0.0 ==> w[i] > 0.0) && (sigma < 0.0 ==> w[i] < 0.0) {
      var k := LaplacianKernel(r[i], sigma, exp);
      if sigma > 0.0 { PositiveQuotient(k, 2.0 * sigma); } else { NegativeDivisor(k, 2.0 * sigma); }
    }
  }

  lemma NegativeDivisor(x: real, t: real)
    requires x > 0.0 && t < 0.0
    ensures x / t < 0.0
  {
    assert x / t == -(x / -t);
  }

  /** GaussianRewardPrior.__call__: a probability vector over the batch. */
  function Gaussian(r: seq<real>, sigma: real, exp: real -> real, sqrtTwoPi: real): (d: seq<real>)
    requires sigma != 0.0 && sqrtTwoPi > 0.0 && PositiveExp(exp)
    ensures |d| == |r|
    ensures forall i :: 0 <= i < |d| ==> d[i] > 0.0
    ensures |r| > 0 ==> Sum(d) == 1.0
  {
    GaussianWeightsSameSign(r, sigma, exp, sqrtTwoPi);
    Normalize(GaussianWeights(r, sigma, exp, sqrtTwoPi))
  }

  /** LaplacianRewardPrior.__call__: a probability vector over the batch. */
  function Laplacian(r: seq<real>, sigma: real, exp: real -> real): (d: seq<real>)
    requires sigma != 0.0 && PositiveExp(exp)
    ensures |d| == |r|
    ensures forall i :: 0 <= i < |d| ==> d[i] > 0.0
    ensures |r| > 0 ==> Sum(d) == 1.0
  {
    LaplacianWeightsSameSign(r, sigma, exp);
    Normalize(LaplacianWeights(r, sigma, exp))
  }

  /** Removing a common non-zero factor f / g from both sides of a cross product. */
  lemma CancelCommon(a: real, b: real, p: real, q: real, f: real, g: real)
    requires f != 0.0 && g != 0.0
    requires a * (p / g * f) == b * (q / g * f)
    ensures a * p == b * q
  {
    calc {
      a * p;
      (a * (p / g * f)) * (g / f);
      (b * (q / g * f)) * (g / f);
      b * q;
    }
  }

  /** The Gaussian prior's entries stand in the ratios of exp(-r^2 / (2 sigma^2)):
      the constant factor sigma / sqrt(2 pi) cancels in the normalisation. */
  lemma GaussianRatio(r: seq<real>, sigma: real, exp: real -> real, sqrtTwoPi: real, i: nat, j: nat)
    requires sigma != 0.0 && sqrtTwoPi > 0.0 && PositiveExp(exp) && i < |r| && j < |r|
    ensures Gaussian(r, sigma, exp, sqrtTwoPi)[i] * GaussianKernel(r[j], sigma, exp) ==
            Gaussian(r, sigma, exp, sqrtTwoPi)[j] * GaussianKernel(r[i], sigma, exp)
  {
    GaussianWeightsSameSign(r, sigma, exp, sqrtTwoPi);
    var w := GaussianWeights(r, sigma, exp, sqrtTwoPi);
    NormalizeKeepsRatios(w, i, j);
    CancelCommon(Normalize(w)[i], Normalize(w)[j],
                 GaussianKernel(r[j], sigma, exp), GaussianKernel(r[i], sigma, exp), sigma, sqrtTwoPi);
  }

  /** The Laplacian prior's entries stand in the ratios of exp(-|r| / (2 sigma)):
      the constant factor 1 / (2 sigma) cancels in the normalisation. */
  lemma LaplacianRatio(r: seq<real>, sigma: real, exp: real -> real, i: nat, j: nat)
    requires sigma != 0.0 && PositiveExp(exp) && i < |r| && j < |r|
    ensures Laplacian(r, sigma, exp)[i] * LaplacianKernel(r[j], sigma, exp) ==
            Laplacian(r, sigma, exp)[j] * LaplacianKernel(r[i], sigma, exp)
  {
    LaplacianWeightsSameSign(r, sigma, exp);
    var w := LaplacianWeights(r, sigma, exp);
    NormalizeKeepsRatios(w, i, j);
    var p, q := LaplacianKernel(r[j], sigma, exp), LaplacianKernel(r[i], sigma, exp);
    assert p / (2.0 * sigma) == p / (2.0 * sigma) * 1.0;
    assert q / (2.0 * sigma) == q / (2.0 * sigma) * 1.0;
    CancelCommon(Normalize(w)[i], Normalize(w)[j], p, q, 1.0, 2.0 * sigma);
  }

  /** Both densities depend on each value only through its magnitude:
      flipping the sign of any entries does not change the prior. */
  lemma SymmetricPriors(r: seq<real>, q: seq<real>, sigma: real, exp: real -> real, sqrtTwoPi: real)
    requires sigma != 0.0 && sqrtTwoPi > 0.0 && PositiveExp(exp)
    requires |q| == |r| && forall i :: 0 <= i < |r| ==> q[i] == r[i] || q[i] == -r[i]
    ensures Gaussian(q, sigma, exp, sqrtTwoPi) == Gaussian(r, sigma, exp, sqrtTwoPi)
    ensures Laplacian(q, sigma, exp) == Laplacian(r, sigma, exp)
  {
    var gq, gr := GaussianWeights(q, sigma, exp, sqrtTwoPi), GaussianWeights(r, sigma, exp, sqrtTwoPi);
    forall i | 0 <= i < |r| ensures gq[i] == gr[i] {
      assert q[i] * q[i] == r[i] * r[i];
    }
    assert gq == gr;
    var lq, lr := LaplacianWeights(q, sigma, exp), LaplacianWeights(r, sigma, exp);
    forall i | 0 <= i < |r| ensures lq[i] == lr[i] {
      assert Abs(q[i]) == Abs(r[i]);
    }
    assert lq == lr;
  }

  /** The three prior families of the source, with their parameter. */
  datatype RewardPrior =
    | UniformRewardPrior
    | GaussianRewardPrior(sigma: real)
    | LaplacianRewardPrior(sigma: real)

  /** Default priors as the constructors build them (sigma = 0.5). */
  const DefaultSigma: real := 0.5

  predicate ValidPrior(p: RewardPrior)
  {
    p.UniformRewardPrior? || p.sigma != 0.0
  }

  /** The priors as built with their default arguments are all valid, and
      the Gaussian and Laplacian ones give every value of a batch a weight. */
  lemma DefaultPriorsValid(r: seq<real>, exp: real -> real, sqrtTwoPi: real)
    requires PositiveExp(exp) && sqrtTwoPi > 0.0
    ensures ValidPrior(UniformRewardPrior)
    ensures ValidPrior(GaussianRewardPrior(DefaultSigma)) && ValidPrior(LaplacianRewardPrior(DefaultSigma))
    ensures |r| > 0 ==> Sum(Evaluate(GaussianRewardPrior(DefaultSigma), r, exp, sqrtTwoPi)) == 1.0
    ensures |r| > 0 ==> Sum(Evaluate(LaplacianRewardPrior(DefaultSigma), r, exp, sqrtTwoPi)) == 1.0
  {
  }

  /** `prior(r)` for any of the three families. */
  function Evaluate(p: RewardPrior, r: seq<real>, exp: real -> real, sqrtTwoPi: real): (d: seq<real>)
    requires ValidPrior(p) && PositiveExp(exp) && sqrtTwoPi > 0.0
    ensures |d| == |r|
    ensures forall i :: 0 <= i < |d| ==> d[i] > 0.0
    ensures |r| > 0 ==> Sum(d) == 1.0
  {
    match p
    case UniformRewardPrior => Uniform(r)
    case GaussianRewardPrior(sigma) => Gaussian(r, sigma, exp, sqrtTwoPi)
    case LaplacianRewardPrior(sigma) => Laplacian(r, sigma, exp)
  }
}
