/** The LMNP réel loss carry-forward of Fusion.py: a ledger of ten slots, one per
    year of the horizon. A loss year records the loss in its own slot; a profit
    year pays off the recorded losses oldest first and is taxed on what is left. */
module LossLedger {
  import opened Numeric

  /** The losses still recorded in slots i..j−1. Only positive slots count, as
      only those are ever paid off. */
  function Outstanding(l: seq<real>, i: nat, j: nat): (r: real)
    requires i <= j <= |l|
    decreases j - i
    ensures r >= 0.0
  {
    if i == j then 0.0 else Max(0.0, l[i]) + Outstanding(l, i + 1, j)
  }

  /** Outstanding losses only depend on the slots they cover. */
  lemma {:induction false} OutstandingFrame(l: seq<real>, l2: seq<real>, i: nat, j: nat)
    requires i <= j <= |l| && j <= |l2|
    requires forall k :: i <= k < j ==> l[k] == l2[k]
    decreases j - i
    ensures Outstanding(l, i, j) == Outstanding(l2, i, j)
  {
    if i < j {
      OutstandingFrame(l, l2, i + 1, j);
    }
  }

  /** Outstanding losses add up over adjacent ranges of slots. */
  lemma {:induction false} OutstandingSplit(l: seq<real>, i: nat, k: nat, j: nat)
    requires i <= k <= j <= |l|
    decreases k - i
    ensures Outstanding(l, i, j) == Outstanding(l, i, k) + Outstanding(l, k, j)
  {
    if i < k {
      OutstandingSplit(l, i + 1, k, j);
    }
  }

  /** Overwriting one slot changes the outstanding losses by the difference of
      the positive parts of its old and new values. */
  lemma {:induction false} OutstandingUpdate(l: seq<real>, i: nat, j: nat, k: nat, v: real)
    requires i <= k < j <= |l|
    decreases j - i
    ensures Outstanding(l[k := v], i, j) == Outstanding(l, i, j) - Max(0.0, l[k]) + Max(0.0, v)
  {
    if i < k {
      OutstandingUpdate(l, i + 1, j, k, v);
    } else {
      OutstandingFrame(l, l[k := v], i + 1, j);
    }
  }

  /** A fresh ledger records nothing. */
  lemma {:induction false} OutstandingZero(l: seq<real>, i: nat, j: nat)
    requires i <= j <= |l|
    requires forall k :: i <= k < j ==> l[k] == 0.0
    decreases j - i
    ensures Outstanding(l, i, j) == 0.0
  {
    if i < j {
      OutstandingZero(l, i + 1, j);
    }
  }

  /** The inner loop of a profit year: slots i..upto−1 in order, a positive slot
      the profit `avail` covers is cleared and the profit reduced by it; a
      positive slot it does not cover is reduced by the profit, which drops to 0,
      and the loop stops. Returns the ledger and the profit left to tax. */
  function Consume(l: seq<real>, i: nat, upto: nat, avail: real): (r: (seq<real>, real))
    requires i <= upto <= |l|
    requires avail >= 0.0
    decreases upto - i
    ensures |r.0| == |l|
    ensures forall k :: 0 <= k < |l| && !(i <= k < upto) ==> r.0[k] == l[k]
    ensures forall k :: i <= k < upto ==>
              if l[k] > 0.0 then 0.0 <= r.0[k] <= l[k] else r.0[k] == l[k]
    ensures 0.0 <= r.1 <= avail
  {
    if i == upto then (l, avail)
    else if l[i] > 0.0 then
      if avail >= l[i] then Consume(l[i := 0.0], i + 1, upto, avail - l[i])
      else (l[i := l[i] - avail], 0.0)
    else Consume(l, i + 1, upto, avail)
  }

  /** The profit left is the profit less the outstanding losses, floored at 0,
      and the losses left are the outstanding losses less the profit, floored
      at 0: whichever is larger absorbs the other. */
  lemma {:induction false} ConsumeExact(l: seq<real>, i: nat, upto: nat, avail: real)
    requires i <= upto <= |l|
    requires avail >= 0.0
    decreases upto - i
    ensures Consume(l, i, upto, avail).1 == Max(0.0, avail - Outstanding(l, i, upto))
    ensures Outstanding(Consume(l, i, upto, avail).0, i, upto) == Max(0.0, Outstanding(l, i, upto) - avail)
  {
    if i < upto {
      var r := Consume(l, i, upto, avail);
      if l[i] > 0.0 && avail >= l[i] {
        var l2 := l[i := 0.0];
        ConsumeExact(l2, i + 1, upto, avail - l[i]);
        OutstandingFrame(l, l2, i + 1, upto);
        assert r == Consume(l2, i + 1, upto, avail - l[i]);
        assert r.0[i] == 0.0;
      } else if l[i] > 0.0 {
        ConsumePartial(l, i, upto, avail);
      } else {
        ConsumeExact(l, i + 1, upto, avail);
      }
    }
  }

  /** A profit smaller than the oldest positive slot only reduces that slot,
      and nothing is left to tax. */
  lemma ConsumePartial(l: seq<real>, i: nat, upto: nat, avail: real)
    requires i < upto <= |l|
    requires 0.0 <= avail < l[i]
    ensures Consume(l, i, upto, avail) == (l[i := l[i] - avail], 0.0)
    ensures Outstanding(l[i := l[i] - avail], i, upto) == Outstanding(l, i, upto) - avail
  {
    OutstandingFrame(l, l[i := l[i] - avail], i + 1, upto);
  }

  /** First in, first out: between `before` and `after`, a slot of i..upto−1 is
      only touched once every older slot of the range is exhausted. */
  ghost predicate OldestFirst(before: seq<real>, after: seq<real>, i: nat, upto: nat)
    requires i <= upto <= |before| && |after| == |before|
  {
    forall j, k :: i <= j < k < upto && after[k] != before[k] ==> after[j] <= 0.0
  }

  /** The inner loop pays off the ledger first in, first out. */
  lemma {:induction false} ConsumeOldestFirst(l: seq<real>, i: nat, upto: nat, avail: real)
    requires i <= upto <= |l|
    requires avail >= 0.0
    decreases upto - i
    ensures OldestFirst(l, Consume(l, i, upto, avail).0, i, upto)
  {
    if i < upto {
      var r := Consume(l, i, upto, avail);
      if l[i] > 0.0 && avail >= l[i] {
        var l2 := l[i := 0.0];
        ConsumeOldestFirst(l2, i + 1, upto, avail - l[i]);
        assert r == Consume(l2, i + 1, upto, avail - l[i]);
        forall j, k | i <= j < k < upto && r.0[k] != l[k]
          ensures r.0[j] <= 0.0
        {
          if j == i {
            assert r.0[i] == l2[i];
          } else {
            assert r.0[k] != l2[k];
          }
        }
      } else if l[i] <= 0.0 {
        ConsumeOldestFirst(l, i + 1, upto, avail);
        forall j, k | i <= j < k < upto && r.0[k] != l[k]
          ensures r.0[j] <= 0.0
        {
          if j == i {
            assert r.0[i] == l[i];
          }
        }
      }
    }
  }

  /** One year of `resultat_fiscal_annuel` for year `annee` (from 1): a loss is
      recorded in the year's own slot and nothing is taxed; a profit pays off the
      slots of years 1..annee oldest first and the rest is taxed. Returns the
      ledger and the taxable result. */
  function YearStep(l: seq<real>, annee: nat, resultat: real): (r: (seq<real>, real))
    requires 1 <= annee <= |l|
    ensures |r.0| == |l|
    ensures forall j :: annee <= j < |l| ==> r.0[j] == l[j]
    ensures resultat < 0.0 ==> r.1 == 0.0 && r.0[annee - 1] == -resultat
                               && forall j :: 0 <= j < annee - 1 ==> r.0[j] == l[j]
    ensures resultat >= 0.0 ==> r.1 == Max(0.0, resultat - Outstanding(l, 0, annee))
    ensures 0.0 <= r.1 <= Max(0.0, resultat)
  {
    if resultat < 0.0 then (l[annee - 1 := -resultat], 0.0)
    else
      ConsumeExact(l, 0, annee, resultat);
      Consume(l, 0, annee, resultat)
  }

  /** The ledger's books balance: whatever the year's result, the losses still
      recorded grow by the taxable result less the result — a loss is recorded
      in full, a profit pays off exactly what it does not leave taxable. This
      needs the year's own slot to be empty, as it is on a fresh ledger. */
  lemma YearStepConserves(l: seq<real>, annee: nat, resultat: real)
    requires 1 <= annee <= |l|
    requires l[annee - 1] == 0.0
    ensures var r := YearStep(l, annee, resultat);
            Outstanding(r.0, 0, |l|) == Outstanding(l, 0, |l|) - resultat + r.1
  {
    if resultat < 0.0 {
      OutstandingUpdate(l, 0, |l|, annee - 1, -resultat);
    } else {
      ProfitYearConserves(l, annee, resultat);
    }
  }

  /** A profit year: the slots of years 1..annee lose what the taxable result
      does not keep, the later slots are left alone. */
  lemma ProfitYearConserves(l: seq<real>, annee: nat, resultat: real)
    requires 1 <= annee <= |l|
    requires resultat >= 0.0
    ensures var r := YearStep(l, annee, resultat);
            Outstanding(r.0, 0, |l|) == Outstanding(l, 0, |l|) - resultat + r.1
  {
    var r := Consume(l, 0, annee, resultat);
    assert YearStep(l, annee, resultat) == r;
    ConsumeExact(l, 0, annee, resultat);
    OutstandingSplit(l, 0, annee, |l|);
    OutstandingSplit(r.0, 0, annee, |l|);
    OutstandingFrame(l, r.0, annee, |l|);
  }

  /** Taxable results of a run and the ledger it ends with. */
  datatype Carried = Carried(taxables: seq<real>, ledger: seq<real>)

  /** The ten-year loop: years k+1..|results| processed in order, each with the
      ledger the previous year left. */
  function CarryForward(results: seq<real>, k: nat, l: seq<real>): (c: Carried)
    requires k <= |results| <= |l|
    decreases |results| - k
    ensures |c.taxables| == |results| - k && |c.ledger| == |l|
    ensures forall i :: 0 <= i < |c.taxables| ==> 0.0 <= c.taxables[i] <= Max(0.0, results[k + i])
  {
    if k == |results| then Carried([], l)
    else
      var step := YearStep(l, k + 1, results[k]);
      var rest := CarryForward(results, k + 1, step.0);
      Carried([step.1] + rest.taxables, rest.ledger)
  }

  /** Over the run, the taxable results add up to the results plus the losses
      still recorded at the end (less those recorded at the start): the
      carry-forward only ever moves a loss onto a later profit, never deducts
      more than was lost. */
  lemma {:induction false} CarryForwardConserves(results: seq<real>, k: nat, l: seq<real>)
    requires k <= |results| <= |l|
    requires forall j :: k <= j < |l| ==> l[j] == 0.0
    decreases |results| - k
    ensures var c := CarryForward(results, k, l);
            Sum(c.taxables) == Sum(results[k..]) + Outstanding(c.ledger, 0, |l|) - Outstanding(l, 0, |l|)
  {
    if k < |results| {
      var step := YearStep(l, k + 1, results[k]);
      YearStepConserves(l, k + 1, results[k]);
      CarryForwardConserves(results, k + 1, step.0);
      assert results[k..][1..] == results[k + 1..];
    }
  }

  /** A fresh ten-slot ledger, as each simulation run starts with. */
  const FreshLedger: seq<real> := [0.0, 0.0, 0.0, 0.0, 0.0, 0.0, 0.0, 0.0, 0.0, 0.0]

  /** From a fresh ledger (every slot 0), a run is never taxed on less than its total result,
      and is taxed on exactly its total result plus the losses it leaves unused. */
  lemma FreshRunTaxedOnTotal(results: seq<real>, l: seq<real>)
    requires |results| <= |l|
    requires forall j :: 0 <= j < |l| ==> l[j] == 0.0
    ensures var c := CarryForward(results, 0, l);
            && Sum(c.taxables) == Sum(results) + Outstanding(c.ledger, 0, |l|)
            && Sum(c.taxables) >= Sum(results)
  {
    OutstandingZero(l, 0, |l|);
    CarryForwardConserves(results, 0, l);
    assert results[0..] == results;
  }

  /** Recorded losses of 500 and 300 against a profit of 600: the older slot is
      cleared, the newer one keeps 200, nothing is taxed. */
  lemma ConsumeExample()
    ensures Consume([500.0, 300.0], 0, 2, 600.0) == ([0.0, 200.0], 0.0)
  {
    assert [500.0, 300.0][0 := 0.0] == [0.0, 300.0];
    assert [0.0, 300.0][1 := 200.0] == [0.0, 200.0];
  }

  /** A loss of 1 000 followed by a profit of 1 500 taxes 0 then 500 and leaves
      no loss recorded. */
  lemma TwoYearExample()
    ensures var c := CarryForward([-1000.0, 1500.0], 0, FreshLedger);
            c.taxables == [0.0, 500.0] && Outstanding(c.ledger, 0, 10) == 0.0
  {
    var s1 := YearStep(FreshLedger, 1, -1000.0);
    assert s1.0 == FreshLedger[0 := 1000.0];
    OutstandingZero(FreshLedger, 1, 2);
    assert Outstanding(s1.0, 0, 2) == 1000.0;
    var s2 := YearStep(s1.0, 2, 1500.0);
    assert s2.1 == 500.0;
    FreshRunTaxedOnTotal([-1000.0, 1500.0], FreshLedger);
    var c := CarryForward([-1000.0, 1500.0], 0, FreshLedger);
    assert c.taxables == [0.0, 500.0];
  }
}
