/** Straight-line depreciation of one component (building, furniture, works,
    capitalised fees): the base spread evenly over its duration in years, and
    nothing once the duration has elapsed. */
module StraightLine {
  import opened Numeric

  /** The allowance for a year counted from 1: base/duration while the year lies
      within the duration, 0 afterwards. A duration of 0 or less therefore never
      divides: no year from 1 on lies within it. */
  function Allowance(base: real, duration: int, year: int): (r: real)
    requires year >= 1
    ensures year > duration ==> r == 0.0
    ensures base >= 0.0 ==> 0.0 <= r <= base
  {
    if year <= duration then base / (duration as real) else 0.0
  }

  /** The allowances of years 1..k added up. */
  function Cumulative(base: real, duration: int, k: nat): real
  {
    if k == 0 then 0.0 else Cumulative(base, duration, k - 1) + Allowance(base, duration, k)
  }

  /** After k years, min(k, duration) annual shares of base/duration have been taken. */
  lemma {:induction false} CumulativeClosedForm(base: real, duration: int, k: nat)
    requires duration >= 1
    ensures Cumulative(base, duration, k)
            == (if k <= duration then k else duration) as real * (base / (duration as real))
  {
    if k > 0 {
      CumulativeClosedForm(base, duration, k - 1);
    }
  }

  /** Depreciation never takes more than the base, and takes exactly the base
      once the duration has elapsed. */
  lemma FullyDepreciatedOnce(base: real, duration: int, k: nat)
    requires duration >= 1
    requires base >= 0.0
    ensures Cumulative(base, duration, k) <= base
    ensures k >= duration ==> Cumulative(base, duration, k) == base
  {
    CumulativeClosedForm(base, duration, k);
    var share := base / (duration as real);
    assert share * (duration as real) == base;
    var taken := if k <= duration then k else duration;
    MulNonNegative(((duration - taken) as real), share);
    assert (duration as real) * share - (taken as real) * share == ((duration - taken) as real) * share;
  }

  /** The allowances of years 1..n as a sequence, with the years up to `skip`
      (a deferral, counted in whole years) set to 0. */
  function Schedule(base: real, duration: int, skip: int, n: nat): (s: seq<real>)
    ensures |s| == n
    ensures forall i :: 0 <= i < n ==>
              s[i] == if i + 1 <= skip then 0.0 else Allowance(base, duration, i + 1)
  {
    if n == 0 then [] else Schedule(base, duration, skip, n - 1) + [if n <= skip then 0.0 else Allowance(base, duration, n)]
  }

  /** A skipped year only lowers the total: the allowances of a schedule never
      add up to more than those of the undeferred years. */
  lemma {:induction false} ScheduleBelowCumulative(base: real, duration: int, skip: int, n: nat)
    requires base >= 0.0
    ensures Sum(Schedule(base, duration, skip, n)) <= Cumulative(base, duration, n)
    ensures skip <= 0 ==> Sum(Schedule(base, duration, skip, n)) == Cumulative(base, duration, n)
  {
    if n > 0 {
      ScheduleBelowCumulative(base, duration, skip, n - 1);
      SumAppend(Schedule(base, duration, skip, n - 1), if n <= skip then 0.0 else Allowance(base, duration, n));
    }
  }

  /** However the years are skipped, a schedule never depreciates more than the
      base; without a skip it depreciates exactly the base once the duration
      has elapsed. */
  lemma ScheduleBounded(base: real, duration: int, skip: int, n: nat)
    requires base >= 0.0 && duration >= 1
    ensures Sum(Schedule(base, duration, skip, n)) <= base
    ensures skip <= 0 && n >= duration ==> Sum(Schedule(base, duration, skip, n)) == base
  {
    ScheduleBelowCumulative(base, duration, skip, n);
    FullyDepreciatedOnce(base, duration, n);
  }
}
