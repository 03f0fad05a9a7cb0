/** Fusion.py, LMNPReel: furnished rental under the "réel" regime taxed at the
    household's marginal income-tax rate. Ten years of rent less charges, loan
    interest and straight-line depreciation; a loss is carried forward and set
    against later profits oldest first. */
module FusionLmnp {
  import opened Numeric
  import opened Errors
  import opened StraightLine
  import opened LossLedger
  import opened FusionLoan

  const DefaultFraisNotairePct: real := 8.0
  const DefaultDureeAmortBati: int := 30
  const DefaultDureeAmortMobilier: int := 7

  /** The simulated horizon, in years. */
  const Horizon: nat := 10

  /** The nine yearly charges the form collects. */
  datatype LmnpCharges = LmnpCharges(
    chargesCopro: real,
    assuranceHabitation: real,
    assuranceGli: real,
    taxeFonciere: real,
    fraisEntretien: real,
    fraisCompta: real,
    fraisBancaires: real,
    gestionLocative: real,
    taxeHabitation: real)

  /** One LMNPReel simulation: the purchase, the loan, the charges, the rent and
      the tax settings. Depreciation durations are in years. */
  datatype LmnpReel = LmnpReel(
    acquisition: Acquisition,
    loan: LoanTerms,
    charges: LmnpCharges,
    loyerMensuelHc: real,
    vacanceLocativeMois: int,
    tmi: real,
    dureeAmortBati: int,
    dureeAmortMobilier: int)

  /** A form filled in with the record's default notary rate and durations. */
  function WithDefaults(a: Acquisition, loan: LoanTerms, c: LmnpCharges, loyer: real, vacance: int, tmi: real): (s: LmnpReel)
    ensures s.acquisition.fraisNotairePct == 8.0
    ensures s.dureeAmortBati == 30 && s.dureeAmortMobilier == 7
  {
    LmnpReel(a.(fraisNotairePct := DefaultFraisNotairePct), loan, c, loyer, vacance, tmi,
             DefaultDureeAmortBati, DefaultDureeAmortMobilier)
  }

  function TotalCharges(c: LmnpCharges): real
  {
    c.chargesCopro + c.assuranceHabitation + c.assuranceGli + c.taxeFonciere + c.fraisEntretien
    + c.fraisCompta + c.fraisBancaires + c.gestionLocative + c.taxeHabitation
  }

  /** Rent over the months the property is let. */
  function Revenus(s: LmnpReel): real
  {
    s.loyerMensuelHc * ((12 - s.vacanceLocativeMois) as real)
  }

  /** The share of the co-ownership charges re-invoiced to the tenant. */
  function ChargesRecuperables(c: LmnpCharges): real
  {
    c.chargesCopro * 0.8
  }

  function MontantEmpruntLmnp(s: LmnpReel): real
  {
    MontantEmprunt(s.acquisition)
  }

  /** One row of the depreciation table. */
  datatype AmortRow = AmortRow(annee: int, bati: real, mobilier: real, total: real)

  /** The building and furniture allowances of years 1..10. Each annual share is
      computed before the loop, so a duration of 0 divides by zero even for the
      years it would not be used; a negative duration gives 0 every year. The
      years that the deferral covers in full get no allowance. */
  function Amortissements(s: LmnpReel): (r: Result<seq<AmortRow>>)
    ensures r.Err? <==> s.dureeAmortBati == 0 || s.dureeAmortMobilier == 0
    ensures r.Err? ==> r.error == DivisionByZero
    ensures r.Ok? ==> |r.value| == Horizon
    ensures r.Ok? ==> forall i :: 0 <= i < |r.value| ==>
              && r.value[i].annee == i + 1
              && r.value[i].total == r.value[i].bati + r.value[i].mobilier
              && (i + 1 <= s.loan.differeMois / 12 ==> r.value[i].total == 0.0)
              && (i + 1 > s.dureeAmortBati ==> r.value[i].bati == 0.0)
              && (i + 1 > s.dureeAmortMobilier ==> r.value[i].mobilier == 0.0)
              && (i + 1 > s.loan.differeMois / 12 && i + 1 <= s.dureeAmortBati
                  ==> r.value[i].bati == ValeurBati(s.acquisition) / (s.dureeAmortBati as real))
              && (i + 1 > s.loan.differeMois / 12 && i + 1 <= s.dureeAmortMobilier
                  ==> r.value[i].mobilier == s.acquisition.mobilier / (s.dureeAmortMobilier as real))
  {
    if s.dureeAmortBati == 0 || s.dureeAmortMobilier == 0 then Err(DivisionByZero)
    else
      var skip := s.loan.differeMois / 12;
      var b := Schedule(ValeurBati(s.acquisition), s.dureeAmortBati, skip, Horizon);
      var m := Schedule(s.acquisition.mobilier, s.dureeAmortMobilier, skip, Horizon);
      Ok(seq(Horizon, i requires 0 <= i < Horizon => AmortRow(i + 1, b[i], m[i], b[i] + m[i])))
  }

  function BatiColumn(rows: seq<AmortRow>): (c: seq<real>)
    ensures |c| == |rows| && forall i :: 0 <= i < |rows| ==> c[i] == rows[i].bati
  {
    seq(|rows|, i requires 0 <= i < |rows| => rows[i].bati)
  }

  function MobilierColumn(rows: seq<AmortRow>): (c: seq<real>)
    ensures |c| == |rows| && forall i :: 0 <= i < |rows| ==> c[i] == rows[i].mobilier
  {
    seq(|rows|, i requires 0 <= i < |rows| => rows[i].mobilier)
  }

  /** Over the ten years the building is never depreciated beyond its value nor
      the furniture beyond its price; with no whole year of deferral and
      durations within the horizon, both are depreciated exactly. */
  lemma AmortissementsBounded(s: LmnpReel)
    requires s.dureeAmortBati >= 1 && s.dureeAmortMobilier >= 1
    requires ValeurBati(s.acquisition) >= 0.0 && s.acquisition.mobilier >= 0.0
    ensures Amortissements(s).Ok?
    ensures var rows := Amortissements(s).value;
            && Sum(BatiColumn(rows)) <= ValeurBati(s.acquisition)
            && Sum(MobilierColumn(rows)) <= s.acquisition.mobilier
            && (s.loan.differeMois < 12 && s.dureeAmortBati <= Horizon
                ==> Sum(BatiColumn(rows)) == ValeurBati(s.acquisition))
            && (s.loan.differeMois < 12 && s.dureeAmortMobilier <= Horizon
                ==> Sum(MobilierColumn(rows)) == s.acquisition.mobilier)
  {
    var rows := Amortissements(s).value;
    var skip := s.loan.differeMois / 12;
    var b := Schedule(ValeurBati(s.acquisition), s.dureeAmortBati, skip, Horizon);
    var m := Schedule(s.acquisition.mobilier, s.dureeAmortMobilier, skip, Horizon);
    assert BatiColumn(rows) == b;
    assert MobilierColumn(rows) == m;
    ScheduleBounded(ValeurBati(s.acquisition), s.dureeAmortBati, skip, Horizon);
    ScheduleBounded(s.acquisition.mobilier, s.dureeAmortMobilier, skip, Horizon);
  }

  /** One year of the result table. `resultatFiscal` is the taxable result after
      the carry-forward; the cash flow is monthly. */
  datatype LmnpYear = LmnpYear(
    annee: int,
    revenus: real,
    charges: real,
    chargesRecuperables: real,
    interets: real,
    amortissements: real,
    resultatFiscal: real,
    impot: real,
    cashflowMensuel: real)

  /** Rent less charges, the year's loan interest and depreciation: the result
      before any loss is carried forward. */
  function ResultatAvantReport(s: LmnpReel, table: seq<ScheduleRow>, amort: seq<AmortRow>, annee: nat): real
    requires 1 <= annee <= |amort|
  {
    Revenus(s) - TotalCharges(s.charges) - YearTotal(table, annee, Interets) - amort[annee - 1].total
  }

  function ResultatsAvantReport(s: LmnpReel, table: seq<ScheduleRow>, amort: seq<AmortRow>): (r: seq<real>)
    requires |amort| == Horizon
    ensures |r| == Horizon
    ensures forall i :: 0 <= i < Horizon ==> r[i] == ResultatAvantReport(s, table, amort, i + 1)
  {
    seq(Horizon, i requires 0 <= i < Horizon => ResultatAvantReport(s, table, amort, i + 1))
  }

  /** The year's row once the taxable result is known: tax at the marginal rate,
      and the monthly cash flow after charges, tax and twelve loan payments, with
      the re-invoiced charges added back. */
  function YearRow(s: LmnpReel, table: seq<ScheduleRow>, amort: seq<AmortRow>, mensualite: real,
                   annee: nat, taxable: real): LmnpYear
    requires 1 <= annee <= |amort|
  {
    var impot := taxable * s.tmi / 100.0;
    LmnpYear(annee, Revenus(s), TotalCharges(s.charges), ChargesRecuperables(s.charges),
             YearTotal(table, annee, Interets), amort[annee - 1].total, taxable, impot,
             (Revenus(s) - TotalCharges(s.charges) - impot - mensualite * 12.0 + ChargesRecuperables(s.charges)) / 12.0)
  }

  /** Ten rows numbered from 1, each taxed on a result between 0 and the
      year's positive result, at the marginal rate. */
  predicate WellTaxed(s: LmnpReel, ys: seq<LmnpYear>)
  {
    && |ys| == Horizon
    && forall i :: 0 <= i < Horizon ==>
         && ys[i].annee == i + 1
         && 0.0 <= ys[i].resultatFiscal
         && ys[i].resultatFiscal <= Max(0.0, ys[i].revenus - ys[i].charges - ys[i].interets - ys[i].amortissements)
         && ys[i].impot == ys[i].resultatFiscal * s.tmi / 100.0
  }

  /** LMNPReel.resultat_fiscal_annuel on a fresh loss ledger. It builds the
      depreciation table, the loan table and the payment in that order, and each
      can fail on a division by zero. A term of zero years builds a loan table
      with no rows, which has no year column to group by. */
  function ResultatFiscalAnnuel(s: LmnpReel): (r: Result<seq<LmnpYear>>)
    requires s.loan.tauxInteret >= 0.0
    ensures r.Err? <==> s.dureeAmortBati == 0 || s.dureeAmortMobilier == 0 || s.loan.dureeAnnees == 0
                        || MensualiteLmnp(MontantEmpruntLmnp(s), s.loan).Err?
    ensures r.Err? ==> r.error == if s.dureeAmortBati != 0 && s.dureeAmortMobilier != 0 && s.loan.dureeAnnees == 0
                                  then MissingColumn else DivisionByZero
    ensures r.Ok? ==> |r.value| == Horizon
    ensures r.Ok? ==> WellTaxed(s, r.value)
  {
    var amort :- Amortissements(s);
    var p := MontantEmpruntLmnp(s);
    var table :- TableauLmnp(p, s.loan);
    if |table| == 0 then Err(MissingColumn) else
    var mensualite :- MensualiteLmnp(p, s.loan);
    Ok(Run(s, table, amort, mensualite))
  }

  /** The ten years once the tables and the payment are known: the results
      before carry-forward go through the loss ledger, fresh at the start. */
  function Run(s: LmnpReel, table: seq<ScheduleRow>, amort: seq<AmortRow>, mensualite: real): (ys: seq<LmnpYear>)
    requires |amort| == Horizon
    ensures |ys| == Horizon
    ensures WellTaxed(s, ys)
  {
    var pre := ResultatsAvantReport(s, table, amort);
    var c := CarryForward(pre, 0, FreshLedger);
    Years(s, table, amort, mensualite, c.taxables)
  }

  /** The ten rows, given taxable results that lie between 0 and each year's
      positive result. */
  function Years(s: LmnpReel, table: seq<ScheduleRow>, amort: seq<AmortRow>, mensualite: real, taxables: seq<real>)
    : (ys: seq<LmnpYear>)
    requires |amort| == Horizon && |taxables| == Horizon
    requires forall i :: 0 <= i < Horizon ==>
               0.0 <= taxables[i] <= Max(0.0, ResultatsAvantReport(s, table, amort)[i])
    ensures |ys| == Horizon
    ensures WellTaxed(s, ys)
  {
    var ys := seq(Horizon, i requires 0 <= i < Horizon => YearRow(s, table, amort, mensualite, i + 1, taxables[i]));
    YearsShape(s, table, amort, mensualite, taxables, ys);
    ys
  }

  lemma YearsShape(s: LmnpReel, table: seq<ScheduleRow>, amort: seq<AmortRow>, mensualite: real, taxables: seq<real>,
                   ys: seq<LmnpYear>)
    requires |amort| == Horizon && |taxables| == Horizon && |ys| == Horizon
    requires forall i :: 0 <= i < Horizon ==>
               0.0 <= taxables[i] <= Max(0.0, ResultatsAvantReport(s, table, amort)[i])
    requires forall i :: 0 <= i < Horizon ==> ys[i] == YearRow(s, table, amort, mensualite, i + 1, taxables[i])
    ensures WellTaxed(s, ys)
  {
    forall i | 0 <= i < Horizon
      ensures ys[i].annee == i + 1 && 0.0 <= ys[i].resultatFiscal
      ensures ys[i].resultatFiscal <= Max(0.0, ys[i].revenus - ys[i].charges - ys[i].interets - ys[i].amortissements)
      ensures ys[i].impot == ys[i].resultatFiscal * s.tmi / 100.0
    {
      var y := ys[i];
      assert y.revenus - y.charges - y.interets - y.amortissements == ResultatsAvantReport(s, table, amort)[i];
    }
  }

  function Taxables(years: seq<LmnpYear>): (c: seq<real>)
    ensures |c| == |years| && forall i :: 0 <= i < |years| ==> c[i] == years[i].resultatFiscal
  {
    seq(|years|, i requires 0 <= i < |years| => years[i].resultatFiscal)
  }

  function PreResults(years: seq<LmnpYear>): (c: seq<real>)
    ensures |c| == |years|
    ensures forall i :: 0 <= i < |years| ==>
              c[i] == years[i].revenus - years[i].charges - years[i].interets - years[i].amortissements
  {
    seq(|years|, i requires 0 <= i < |years| =>
      years[i].revenus - years[i].charges - years[i].interets - years[i].amortissements)
  }

  /** Carrying losses forward never lowers the ten-year tax base below the sum
      of the ten annual results: a loss is only ever deducted once, from a later
      profit, and what is not used stays on the books. */
  lemma TaxedOnTotal(s: LmnpReel)
    requires s.loan.tauxInteret >= 0.0
    requires ResultatFiscalAnnuel(s).Ok?
    ensures var years := ResultatFiscalAnnuel(s).value;
            Sum(Taxables(years)) >= Sum(PreResults(years))
  {
    var years := ResultatFiscalAnnuel(s).value;
    var amort := Amortissements(s).value;
    var p := MontantEmpruntLmnp(s);
    var table := TableauLmnp(p, s.loan).value;
    var pre := ResultatsAvantReport(s, table, amort);
    var c := CarryForward(pre, 0, FreshLedger);
    forall i | 0 <= i < Horizon
      ensures Taxables(years)[i] == c.taxables[i] && PreResults(years)[i] == pre[i]
    {
      ResultatRows(s, i);
    }
    assert Taxables(years) == c.taxables;
    assert PreResults(years) == pre;
    FreshRunTaxedOnTotal(pre, FreshLedger);
  }

  /** A loss year is taxed nothing; a profit year is taxed on no more than its result. */
  lemma LossYearUntaxed(s: LmnpReel, i: nat)
    requires s.loan.tauxInteret >= 0.0
    requires ResultatFiscalAnnuel(s).Ok?
    requires i < Horizon
    ensures var y := ResultatFiscalAnnuel(s).value[i];
            && (y.revenus - y.charges - y.interets - y.amortissements <= 0.0 ==> y.resultatFiscal == 0.0 && y.impot == 0.0)
            && (s.tmi >= 0.0 ==> y.impot >= 0.0)
  {
    WellTaxedRow(s, ResultatFiscalAnnuel(s).value, i);
  }

  lemma WellTaxedRow(s: LmnpReel, ys: seq<LmnpYear>, i: nat)
    requires WellTaxed(s, ys)
    requires i < Horizon
    ensures var y := ys[i];
            && (y.revenus - y.charges - y.interets - y.amortissements <= 0.0 ==> y.resultatFiscal == 0.0 && y.impot == 0.0)
            && (s.tmi >= 0.0 ==> y.impot >= 0.0)
  {
    var y := ys[i];
    if s.tmi >= 0.0 {
      MulNonNegative(y.resultatFiscal, s.tmi);
    }
  }

  /** The rows of a successful run, in terms of the parts it is built from. */
  lemma ResultatRows(s: LmnpReel, i: nat)
    requires s.loan.tauxInteret >= 0.0
    requires ResultatFiscalAnnuel(s).Ok?
    requires i < Horizon
    ensures var amort := Amortissements(s).value;
            var p := MontantEmpruntLmnp(s);
            var table := TableauLmnp(p, s.loan).value;
            var pre := ResultatsAvantReport(s, table, amort);
            ResultatFiscalAnnuel(s).value[i]
            == YearRow(s, table, amort, MensualiteLmnp(p, s.loan).value, i + 1,
                       CarryForward(pre, 0, FreshLedger).taxables[i])
  {
  }

  /** Two runs that differ in neither rent nor charges and whose tables agree on
      every year's interest have the same results before the carry-forward. */
  lemma PreResultsAgree(s: LmnpReel, s2: LmnpReel, t1: seq<ScheduleRow>, t2: seq<ScheduleRow>, amort: seq<AmortRow>)
    requires |amort| == Horizon
    requires Revenus(s) == Revenus(s2) && s.charges == s2.charges
    requires forall annee :: YearTotal(t1, annee, Interets) == YearTotal(t2, annee, Interets)
    ensures ResultatsAvantReport(s, t1, amort) == ResultatsAvantReport(s2, t2, amort)
  {
    var pre1 := ResultatsAvantReport(s, t1, amort);
    var pre2 := ResultatsAvantReport(s2, t2, amort);
    forall i | 0 <= i < Horizon
      ensures pre1[i] == pre2[i]
    {
      assert YearTotal(t1, i + 1, Interets) == YearTotal(t2, i + 1, Interets);
    }
  }

  /** Two rows built from the same taxable result and payments that differ only
      in the premium: same tax, cash flows apart by the premium difference. */
  lemma YearRowShift(s: LmnpReel, s2: LmnpReel, t1: seq<ScheduleRow>, t2: seq<ScheduleRow>, amort: seq<AmortRow>,
                     x: real, a1: real, a2: real, annee: nat, taxable: real)
    requires 1 <= annee <= |amort|
    requires s2 == s.(loan := s2.loan)
    ensures var y1 := YearRow(s, t1, amort, x + a1, annee, taxable);
            var y2 := YearRow(s2, t2, amort, x + a2, annee, taxable);
            && y1.resultatFiscal == y2.resultatFiscal
            && y1.impot == y2.impot
            && y1.cashflowMensuel - y2.cashflowMensuel == a2 - a1
  {
    var impot := taxable * s.tmi / 100.0;
    var base := Revenus(s) - TotalCharges(s.charges) - impot + ChargesRecuperables(s.charges);
    assert (base - (x + a1) * 12.0) / 12.0 - (base - (x + a2) * 12.0) / 12.0 == a2 - a1;
  }

  /** The borrower's insurance rate changes nothing in the tax computation: it is
      not deductible here, and the interest column ignores it. It only lowers the
      monthly cash flow by the difference in premium. */
  lemma InsuranceOnlyShiftsCashflow(s: LmnpReel, rate: real)
    requires s.loan.tauxInteret >= 0.0
    ensures var s2 := s.(loan := s.loan.(tauxAssurance := rate));
            var r1 := ResultatFiscalAnnuel(s);
            var r2 := ResultatFiscalAnnuel(s2);
            && r1.Ok? == r2.Ok?
            && (r1.Ok? ==> forall i :: 0 <= i < Horizon ==>
                  && r1.value[i].resultatFiscal == r2.value[i].resultatFiscal
                  && r1.value[i].impot == r2.value[i].impot
                  && r1.value[i].cashflowMensuel - r2.value[i].cashflowMensuel
                     == AssuranceMensuelle(MontantEmpruntLmnp(s), s2.loan)
                        - AssuranceMensuelle(MontantEmpruntLmnp(s), s.loan))
  {
    var s2 := s.(loan := s.loan.(tauxAssurance := rate));
    var p := MontantEmpruntLmnp(s);
    var l := s.loan;
    var l2 := s2.loan;
    var a1 := AssuranceMensuelle(p, l);
    var a2 := AssuranceMensuelle(p, l2);
    assert s2.loyerMensuelHc == s.loyerMensuelHc && s2.vacanceLocativeMois == s.vacanceLocativeMois;
    assert Revenus(s) == Revenus(s2);
    MensualiteLmnpIgnoresInsurance(p, l, rate);
    assert Amortissements(s2) == Amortissements(s);
    if ResultatFiscalAnnuel(s).Ok? {
      var x := MensualiteLmnp(p, l).value - a1;
      TableauInterestIgnoresInsurance(p, l, rate, x);
      assert MensualiteLmnp(p, l) == Ok(x + a1);
      assert MensualiteLmnp(p, l2) == Ok(x + a2);
      var amort := Amortissements(s).value;
      var t1 := TableauLmnp(p, l).value;
      var t2 := TableauLmnp(p, l2).value;
      var pre1 := ResultatsAvantReport(s, t1, amort);
      var pre2 := ResultatsAvantReport(s2, t2, amort);
      PreResultsAgree(s, s2, t1, t2, amort);
      var c := CarryForward(pre1, 0, FreshLedger);
      var r1 := ResultatFiscalAnnuel(s).value;
      var r2 := ResultatFiscalAnnuel(s2).value;
      forall i | 0 <= i < Horizon
        ensures r1[i].resultatFiscal == r2[i].resultatFiscal
        ensures r1[i].impot == r2[i].impot
        ensures r1[i].cashflowMensuel - r2[i].cashflowMensuel == a2 - a1
      {
        ResultatRows(s, i);
        ResultatRows(s2, i);
        YearRowShift(s, s2, t1, t2, amort, x, a1, a2, i + 1, c.taxables[i]);
      }
    }
  }
}
