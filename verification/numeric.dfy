/** Exact-arithmetic helpers shared by every simulator variant: natural powers,
    max/min over reals, and the failure-carrying result type standing in for the
    Python exceptions the simulators can raise. */
module Numeric {

  /** x raised to a natural power, the exact counterpart of Python's `x ** n`. */
  function Pow(x: real, n: nat): real
  {
    if n == 0 then 1.0 else x * Pow(x, n - 1)
  }

  function Max(a: real, b: real): (r: real)
    ensures r >= a && r >= b
    ensures r == a || r == b
  {
    if a >= b then a else b
  }

  function Min(a: real, b: real): (r: real)
    ensures r <= a && r <= b
    ensures r == a || r == b
  {
    if a <= b then a else b
  }

  lemma {:induction false} PowPositive(x: real, n: nat)
    requires x > 0.0
    ensures Pow(x, n) > 0.0
  {
    if n > 0 {
      PowPositive(x, n - 1);
    }
  }

  /** Powers of a base of at least one never decrease as the exponent grows. */
  lemma {:induction false} PowMonotone(x: real, i: nat, j: nat)
    requires x >= 1.0
    requires i <= j
    ensures 1.0 <= Pow(x, i) <= Pow(x, j)
  {
    if i < j {
      PowMonotone(x, i, j - 1);
      assert Pow(x, j) == x * Pow(x, j - 1);
    } else if i > 0 {
      PowMonotone(x, i - 1, i - 1);
      assert Pow(x, i) == x * Pow(x, i - 1);
    }
  }

  /** A base above one raised to a positive power lies strictly above one. */
  lemma {:induction false} PowAboveOne(x: real, n: nat)
    requires x > 1.0
    requires n > 0
    ensures Pow(x, n) > 1.0
  {
    PowMonotone(x, 0, n - 1);
    assert Pow(x, n) == x * Pow(x, n - 1);
  }

  lemma {:induction false} PowOfOne(n: nat)
    ensures Pow(1.0, n) == 1.0
  {
    if n > 0 {
      PowOfOne(n - 1);
    }
  }

  lemma MulNonNegative(a: real, b: real)
    requires a >= 0.0 && b >= 0.0
    ensures a * b >= 0.0
  {
  }

  /** The same, for callers that do not know the signs yet. */
  lemma MulNonNegativeWhen(a: real, b: real)
    ensures a >= 0.0 && b >= 0.0 ==> a * b >= 0.0
  {
    if a >= 0.0 && b >= 0.0 {
      MulNonNegative(a, b);
    }
  }

  /** Multiplying equal factors by the same value, stated so that the solver
      need not rediscover it under non-linear arithmetic. */
  lemma MulEqual(a: real, x: real, y: real)
    requires x == y
    ensures a * x == a * y
  {
  }

  /** Dividing both sides of an inequality by a positive factor. */
  lemma CancelPositive(a: real, b: real, c: real)
    requires c > 0.0
    requires a * c <= b * c
    ensures a <= b
  {
    assert (b - a) * c >= 0.0;
  }

  /** A product with a positive factor is non-negative only if the other factor is. */
  lemma NonNegativeFactor(a: real, c: real)
    requires c > 0.0
    requires a * c >= 0.0
    ensures a >= 0.0
  {
    CancelPositive(0.0, a, c);
  }

  /** One year's share x / d of an amount spread over d years: d shares make up
      the amount, and over d >= 1 years a non-negative amount's share lies
      between nothing and the whole amount. */
  function Share(x: real, d: int): (r: real)
    requires d != 0
    ensures r * (d as real) == x
    ensures x >= 0.0 && d >= 1 ==> 0.0 <= r <= x
  {
    if x >= 0.0 && d >= 1 then
      CancelPositive(x / (d as real), x, d as real);
      x / (d as real)
    else x / (d as real)
  }

  /** Python's `0 <= x` bound expressed over a sequence. */
  ghost predicate AllNonNegative(s: seq<real>)
  {
    forall i :: 0 <= i < |s| ==> s[i] >= 0.0
  }

  /** Sum of a sequence of reals, the counterpart of pandas' `.sum()`. */
  function Sum(s: seq<real>): real
  {
    if |s| == 0 then 0.0 else s[0] + Sum(s[1..])
  }

  lemma {:induction false} SumNonNegative(s: seq<real>)
    requires AllNonNegative(s)
    ensures Sum(s) >= 0.0
  {
    if |s| > 0 {
      SumNonNegative(s[1..]);
    }
  }

  /** Appending one value adds it to the sum. */
  lemma {:induction false} SumAppend(s: seq<real>, x: real)
    ensures Sum(s + [x]) == Sum(s) + x
  {
    if |s| > 0 {
      SumAppend(s[1..], x);
      assert (s + [x])[1..] == s[1..] + [x];
    }
  }

  /** Sums of sequences that agree pointwise up to a bound on each element. */
  lemma {:induction false} SumMonotone(s: seq<real>, u: seq<real>)
    requires |s| == |u|
    requires forall i :: 0 <= i < |s| ==> s[i] <= u[i]
    ensures Sum(s) <= Sum(u)
  {
    if |s| > 0 {
      SumMonotone(s[1..], u[1..]);
    }
  }

  /** A sequence of n copies of one value. */
  function Repeat(x: real, n: nat): (r: seq<real>)
    ensures |r| == n
    ensures forall i :: 0 <= i < n ==> r[i] == x
  {
    if n == 0 then [] else [x] + Repeat(x, n - 1)
  }

  lemma {:induction false} SumRepeat(x: real, n: nat)
    ensures Sum(Repeat(x, n)) == (n as real) * x
  {
    if n > 0 {
      SumRepeat(x, n - 1);
      assert Repeat(x, n)[1..] == Repeat(x, n - 1);
    }
  }

  /** Python's built-in `round(x)` on an exact value: nearest integer, ties to even. */
  function RoundHalfEven(x: real): (r: int)
    ensures -0.5 <= (r as real) - x <= 0.5
    ensures (r as real) - x == 0.5 || (r as real) - x == -0.5 ==> r % 2 == 0
  {
    var f := x.Floor;
    var frac := x - (f as real);
    if frac < 0.5 then f
    else if frac > 0.5 then f + 1
    else if f % 2 == 0 then f
    else f + 1
  }
}

/** The failures a simulator run can end in, each standing for one Python
    exception, and the optional value standing for a field that may be None. */
module Errors {

  datatype Option<+T> = None | Some(value: T)

  datatype Error =
    | DivisionByZero   // ZeroDivisionError
    | InvalidLoanTerm  // ValueError("Durée ou différé incohérents")
    | UnknownRegime    // ValueError("Régime inconnu")
    | UnboundLocal     // UnboundLocalError on a variable no branch assigned
    | MissingColumn    // KeyError on a column an empty table does not have

  datatype Result<+T> = Ok(value: T) | Err(error: Error) {

    predicate IsFailure() {
      Err?
    }

    function PropagateFailure<U>(): Result<U>
      requires Err?
    {
      Err(error)
    }

    function Extract(): T
      requires Ok?
    {
      value
    }
  }
}
