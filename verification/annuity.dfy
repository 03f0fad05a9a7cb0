/** The loan arithmetic every variant shares: the level-annuity payment, the
    monthly amortisation step (interest = balance·t, principal = payment − interest),
    and interest capitalisation during a deferral. The closed forms proved here
    are what lets the schedules show that the balance reaches exactly 0. */
module Annuity {
  import opened Numeric
  import opened Errors

  /** The level monthly payment p·t / (1 − (1+t)^−n) on principal p over n months at
      monthly rate t. Characterised by m·(g^n − 1) = p·t·g^n with g = 1 + t; it
      exceeds the first month's interest whenever something is borrowed. */
  function LevelPayment(p: real, t: real, n: nat): (m: real)
    requires t > 0.0 && n > 0
    ensures m * (Pow(1.0 + t, n) - 1.0) == p * t * Pow(1.0 + t, n)
    ensures p > 0.0 ==> m > p * t
    ensures p == 0.0 ==> m == 0.0
  {
    PowAboveOne(1.0 + t, n);
    var g := Pow(1.0 + t, n);
    var d := 1.0 - 1.0 / g;
    assert d * g == g - 1.0;
    assert 0.0 < d < 1.0;
    var m := p * t / d;
    assert m * d == p * t;
    assert m * (g - 1.0) == m * d * g;
    assert (m - p * t) * d == p * t * (1.0 - d);
    assert p > 0.0 ==> p * t * (1.0 - d) > 0.0;
    m
  }

  /** Python's `p * t / (1 - (1 + t) ** -n)` for an integer month count n and a
      non-negative monthly rate t: a zero rate or a zero month count divides by
      zero; a negative month count yields a (negative) number without error. */
  function Payment(p: real, t: real, n: int): (r: Result<real>)
    requires t >= 0.0
    ensures r.Err? <==> t == 0.0 || n == 0
    ensures r.Err? ==> r.error == DivisionByZero
    ensures r.Ok? && n > 0 ==> r.value == LevelPayment(p, t, n)
    ensures r.Ok? && n < 0 && p > 0.0 ==> r.value < 0.0
  {
    if t == 0.0 || n == 0 then Err(DivisionByZero)
    else if n > 0 then Ok(LevelPayment(p, t, n))
    else
      PowAboveOne(1.0 + t, -n);
      var d := 1.0 - Pow(1.0 + t, -n);
      assert d < 0.0;
      assert p > 0.0 ==> p * t > 0.0;
      Ok(p * t / d)
  }

  /** Balance left after k months of the plain amortisation step, starting from b:
      each month the interest b·t accrues and the payment m is applied. */
  function Amortize(b: real, t: real, m: real, k: nat): real
  {
    if k == 0 then b
    else
      var prev := Amortize(b, t, m, k - 1);
      prev - (m - prev * t)
  }

  /** The balance after d deferral months, in the loop form of the source:
      the interest b·t is added to the balance each month. */
  function Capitalise(b: real, t: real, d: nat): real
    decreases d
  {
    if d == 0 then b else Capitalise(b + b * t, t, d - 1)
  }

  /** One month of the amortisation, read off the definition. */
  lemma AmortizeStep(b: real, t: real, m: real, k: nat)
    requires k >= 1
    ensures Amortize(b, t, m, k) == Amortize(b, t, m, k - 1) - (m - Amortize(b, t, m, k - 1) * t)
  {
  }

  /** 1 + g + … + g^(k−1), the accumulation factor of k equal payments. */
  function GrowthSum(g: real, k: nat): real
  {
    if k == 0 then 0.0 else GrowthSum(g, k - 1) * g + 1.0
  }

  /** Capitalising for d months multiplies the balance by (1 + t)^d. */
  lemma {:induction false} CapitaliseIsCompound(b: real, t: real, d: nat)
    decreases d
    ensures Capitalise(b, t, d) == b * Pow(1.0 + t, d)
  {
    if d > 0 {
      CapitaliseIsCompound(b + b * t, t, d - 1);
      assert Pow(1.0 + t, d) == (1.0 + t) * Pow(1.0 + t, d - 1);
      assert (b + b * t) * Pow(1.0 + t, d - 1) == b * ((1.0 + t) * Pow(1.0 + t, d - 1));
    }
  }

  /** Capitalising never turns a non-negative balance negative. */
  lemma {:induction false} CapitaliseNonNegative(b: real, t: real, d: nat)
    requires b >= 0.0 && t >= 0.0
    decreases d
    ensures Capitalise(b, t, d) >= 0.0
  {
    if d > 0 {
      MulNonNegative(b, t);
      CapitaliseNonNegative(b + b * t, t, d - 1);
    }
  }

  /** The loop form read one month at a time from the front: the last month of a
      d-month deferral adds that month's interest to the balance of d − 1 months. */
  lemma CapitaliseStep(b: real, t: real, d: nat)
    requires d >= 1
    ensures Capitalise(b, t, d) == Capitalise(b, t, d - 1) + Capitalise(b, t, d - 1) * t
  {
    CapitaliseIsCompound(b, t, d);
    CapitaliseIsCompound(b, t, d - 1);
    var q := Pow(1.0 + t, d - 1);
    assert Pow(1.0 + t, d) == (1.0 + t) * q;
    assert b * ((1.0 + t) * q) == b * q + (b * q) * t;
  }

  lemma {:induction false} GrowthSumTimesRate(t: real, k: nat)
    ensures GrowthSum(1.0 + t, k) * t == Pow(1.0 + t, k) - 1.0
  {
    if k > 0 {
      GrowthSumTimesRate(t, k - 1);
      var s := GrowthSum(1.0 + t, k - 1);
      var g := Pow(1.0 + t, k - 1);
      assert (s * (1.0 + t) + 1.0) * t == (s * t) * (1.0 + t) + t;
      assert Pow(1.0 + t, k) == (1.0 + t) * g;
    }
  }

  /** Closed form of the amortisation: B_k = b·g^k − m·(1 + g + … + g^(k−1)). */
  lemma {:induction false} AmortizeClosedForm(b: real, t: real, m: real, k: nat)
    ensures Amortize(b, t, m, k) == b * Pow(1.0 + t, k) - m * GrowthSum(1.0 + t, k)
  {
    if k > 0 {
      AmortizeClosedForm(b, t, m, k - 1);
      var g := Pow(1.0 + t, k - 1);
      var s := GrowthSum(1.0 + t, k - 1);
      var prev := Amortize(b, t, m, k - 1);
      assert prev - (m - prev * t) == prev * (1.0 + t) - m;
      assert (b * g - m * s) * (1.0 + t) - m == b * ((1.0 + t) * g) - m * (s * (1.0 + t) + 1.0);
    }
  }

  /** A payment m meets the annuity identity for principal p over n months at
      rate t when m·(g^n − 1) = p·t·g^n, g = 1 + t: the identity LevelPayment
      guarantees. */
  ghost predicate AnnuityIdentity(p: real, t: real, m: real, n: nat)
  {
    m * (Pow(1.0 + t, n) - 1.0) == p * t * Pow(1.0 + t, n)
  }

  /** The algebra behind the annuity identity, over plain reals:
      from s·t = g − 1 and m·(g − 1) = p·t·g it follows that m·s = p·g. */
  lemma ClearingAlgebra(p: real, t: real, m: real, g: real, s: real)
    requires t > 0.0
    requires s * t == g - 1.0
    requires m * (g - 1.0) == p * t * g
    ensures p * g - m * s == 0.0
  {
    assert (m * s) * t == m * (s * t);
    assert (m * s - p * g) * t == 0.0;
  }

  /** The annuity identity: paying a payment that meets it for n months leaves
      exactly nothing owed. */
  lemma AnnuityClearsBalance(p: real, t: real, m: real, n: nat)
    requires t > 0.0
    requires AnnuityIdentity(p, t, m, n)
    ensures Amortize(p, t, m, n) == 0.0
  {
    AmortizeClosedForm(p, t, m, n);
    GrowthSumTimesRate(t, n);
    ClearingAlgebra(p, t, m, Pow(1.0 + t, n), GrowthSum(1.0 + t, n));
  }

  /** The level payment clears the loan after n months. */
  lemma LevelPaymentClearsBalance(p: real, t: real, n: nat)
    requires t > 0.0 && n > 0
    ensures Amortize(p, t, LevelPayment(p, t, n), n) == 0.0
  {
    AnnuityClearsBalance(p, t, LevelPayment(p, t, n), n);
  }

  /** The same for a month count of any sign: only a positive term is
      claimed to clear. */
  lemma LevelPaymentClearsPositiveTerm(p: real, t: real, n: int)
    requires t > 0.0
    ensures n > 0 ==> Amortize(p, t, LevelPayment(p, t, n), n) == 0.0
  {
    if n > 0 {
      LevelPaymentClearsBalance(p, t, n);
    }
  }

  /** The algebra behind ScaledBalance, over plain reals. */
  lemma ScalingAlgebra(p: real, t: real, m: real, gn: real, gk: real, s: real, b: real)
    requires t > 0.0
    requires b == p * gk - m * s
    requires s * t == gk - 1.0
    requires m * (gn - 1.0) == p * t * gn
    ensures b * (gn - 1.0) == p * (gn - gk)
  {
    assert b * t == p * gk * t - m * (s * t);
    assert b * t == p * gk * t - m * (gk - 1.0);
    assert (b * (gn - 1.0)) * t == (p * (gn - gk)) * t;
  }

  /** (g^n − 1)·B_k = p·(g^n − g^k): the balance after k annuity payments,
      scaled by a positive factor. */
  lemma ScaledBalance(p: real, t: real, m: real, n: nat, k: nat)
    requires t > 0.0
    requires AnnuityIdentity(p, t, m, n)
    ensures Amortize(p, t, m, k) * (Pow(1.0 + t, n) - 1.0) == p * (Pow(1.0 + t, n) - Pow(1.0 + t, k))
  {
    AmortizeClosedForm(p, t, m, k);
    GrowthSumTimesRate(t, k);
    ScalingAlgebra(p, t, m, Pow(1.0 + t, n), Pow(1.0 + t, k), GrowthSum(1.0 + t, k), Amortize(p, t, m, k));
  }

  /** Over plain reals: b·(gn − 1) = p·(gn − gk) with gn ≥ gk, gn > 1 and
      p ≥ 0 makes b non-negative. */
  lemma NonNegativeAlgebra(p: real, b: real, gn: real, gk: real)
    requires gn > 1.0 && gn >= gk && p >= 0.0
    requires b * (gn - 1.0) == p * (gn - gk)
    ensures b >= 0.0
  {
    var c := gn - 1.0;
    var d := gn - gk;
    MulNonNegative(p, d);
    assert b * c == p * d;
    NonNegativeFactor(b, c);
  }

  /** Under an annuity payment, a non-negative principal never turns into a
      negative balance before the term ends. */
  lemma AnnuityBalanceNonNegative(p: real, t: real, m: real, n: nat, k: nat)
    requires t > 0.0 && n > 0 && k <= n
    requires p >= 0.0
    requires AnnuityIdentity(p, t, m, n)
    ensures Amortize(p, t, m, k) >= 0.0
  {
    ScaledBalance(p, t, m, n, k);
    PowMonotone(1.0 + t, k, n);
    PowAboveOne(1.0 + t, n);
    NonNegativeAlgebra(p, Amortize(p, t, m, k), Pow(1.0 + t, n), Pow(1.0 + t, k));
  }

  /** The level payment keeps a non-negative principal's balance non-negative. */
  lemma LevelPaymentBalanceNonNegative(p: real, t: real, n: nat, k: nat)
    requires t > 0.0 && n > 0 && k <= n
    requires p >= 0.0
    ensures Amortize(p, t, LevelPayment(p, t, n), k) >= 0.0
  {
    AnnuityBalanceNonNegative(p, t, LevelPayment(p, t, n), n, k);
  }

  /** Over plain reals: with b·(gn − 1) = p·(gn − gk), m·(gn − 1) = p·t·gn,
      gk ≥ 1, gn > 1, t > 0 and p ≥ 0, the interest b·t is at most the payment m. */
  lemma InterestBelowPaymentAlgebra(p: real, t: real, m: real, b: real, gn: real, gk: real)
    requires t > 0.0 && gn > 1.0 && gk >= 1.0 && p >= 0.0
    requires b * (gn - 1.0) == p * (gn - gk)
    requires m * (gn - 1.0) == p * t * gn
    ensures b * t <= m
  {
    MulNonNegative(p * t, gk);
    assert (b * t) * (gn - 1.0) == p * t * gn - p * t * gk;
    assert (b * t) * (gn - 1.0) <= m * (gn - 1.0);
    CancelPositive(b * t, m, gn - 1.0);
  }

  /** Under an annuity payment on a non-negative principal, a month's interest
      never exceeds the payment before the term ends. */
  lemma AnnuityInterestBelowPayment(p: real, t: real, m: real, n: nat, k: nat)
    requires t > 0.0 && n > 0 && k <= n
    requires p >= 0.0
    requires AnnuityIdentity(p, t, m, n)
    ensures Amortize(p, t, m, k) * t <= m
  {
    ScaledBalance(p, t, m, n, k);
    PowMonotone(1.0 + t, 0, k);
    PowAboveOne(1.0 + t, n);
    InterestBelowPaymentAlgebra(p, t, m, Amortize(p, t, m, k), Pow(1.0 + t, n), Pow(1.0 + t, k));
  }

  /** So the balance never grows once amortisation has started. */
  lemma AnnuityBalanceNonIncreasing(p: real, t: real, m: real, n: nat, k: nat)
    requires t > 0.0 && n > 0 && k < n
    requires p >= 0.0
    requires AnnuityIdentity(p, t, m, n)
    ensures Amortize(p, t, m, k + 1) <= Amortize(p, t, m, k)
  {
    AnnuityInterestBelowPayment(p, t, m, n, k);
    AmortizeStep(p, t, m, k + 1);
  }
}
