/** Fusion.py, SCIaIS: a property company taxed at the corporate rate. Its
    charges, loan interest, borrower's insurance and four depreciation
    components are deducted; a loss is carried as a single running deficit. */
module FusionSci {
  import opened Numeric
  import opened Errors
  import opened StraightLine
  import opened CorporateTax
  import opened FusionLoan

  const Horizon: nat := 10

  /** The eight yearly charges the form collects. */
  datatype SciCharges = SciCharges(
    chargesCopro: real,
    assurance: real,
    assuranceGli: real,
    taxeFonciere: real,
    fraisEntretien: real,
    fraisCompta: real,
    fraisBancaires: real,
    gestionLocative: real)

  datatype SciIs = SciIs(
    acquisition: Acquisition,
    loan: LoanTerms,
    charges: SciCharges,
    loyerMensuelHc: real,
    vacanceLocativeMois: int,
    dureeAmortBati: int,
    dureeAmortTravaux: int,
    dureeAmortMobilier: int,
    dureeAmortFrais: int)

  function ChargesReelles(c: SciCharges): real
  {
    c.chargesCopro + c.assurance + c.assuranceGli + c.taxeFonciere + c.fraisEntretien
    + c.fraisCompta + c.fraisBancaires + c.gestionLocative
  }

  function ChargesRecuperables(c: SciCharges): real
  {
    c.chargesCopro * 0.8
  }

  /** The deductible charges: the real charges less what the tenant reimburses. */
  function ChargesFiscales(c: SciCharges): (r: real)
    ensures r == ChargesReelles(c) - ChargesRecuperables(c)
    ensures c.chargesCopro >= 0.0 ==> r <= ChargesReelles(c)
  {
    ChargesReelles(c) - c.chargesCopro * 0.8
  }

  function Revenus(s: SciIs): real
  {
    s.loyerMensuelHc * ((12 - s.vacanceLocativeMois) as real)
  }

  /** The acquisition fees depreciated as one component: dossier, agency,
      guarantee and third-party fees. The notary's fees are not among them. */
  function FraisAmortissables(a: Acquisition): real
  {
    a.fraisDossier + a.fraisAgence + a.fraisGarantie + a.fraisTiers
  }

  datatype SciAmortRow = SciAmortRow(annee: int, bati: real, mobilier: real, travaux: real, frais: real, total: real)

  /** SCIaIS.amortissements: each component's share is only computed in a year
      within its duration, so no duration ever divides by zero, and the loan
      deferral plays no part. */
  function Amortissements(s: SciIs): (r: seq<SciAmortRow>)
    ensures |r| == Horizon
    ensures forall i :: 0 <= i < Horizon ==>
              && r[i].annee == i + 1
              && r[i].bati == Allowance(ValeurBati(s.acquisition), s.dureeAmortBati, i + 1)
              && r[i].mobilier == Allowance(s.acquisition.mobilier, s.dureeAmortMobilier, i + 1)
              && r[i].travaux == Allowance(s.acquisition.montantTravaux, s.dureeAmortTravaux, i + 1)
              && r[i].frais == Allowance(FraisAmortissables(s.acquisition), s.dureeAmortFrais, i + 1)
              && r[i].total == r[i].bati + r[i].mobilier + r[i].travaux + r[i].frais
  {
    var b := Schedule(ValeurBati(s.acquisition), s.dureeAmortBati, 0, Horizon);
    var m := Schedule(s.acquisition.mobilier, s.dureeAmortMobilier, 0, Horizon);
    var t := Schedule(s.acquisition.montantTravaux, s.dureeAmortTravaux, 0, Horizon);
    var f := Schedule(FraisAmortissables(s.acquisition), s.dureeAmortFrais, 0, Horizon);
    seq(Horizon, i requires 0 <= i < Horizon => SciAmortRow(i + 1, b[i], m[i], t[i], f[i], b[i] + m[i] + t[i] + f[i]))
  }

  function TotalColumn(rows: seq<SciAmortRow>): (c: seq<real>)
    ensures |c| == |rows| && forall i :: 0 <= i < |rows| ==> c[i] == rows[i].total
  {
    seq(|rows|, i requires 0 <= i < |rows| => rows[i].total)
  }

  /** The total depreciated over the ten years never exceeds the four bases
      together, and equals them when every duration lies within the horizon. */
  lemma AmortissementsBounded(s: SciIs)
    requires s.dureeAmortBati >= 1 && s.dureeAmortMobilier >= 1
    requires s.dureeAmortTravaux >= 1 && s.dureeAmortFrais >= 1
    requires ValeurBati(s.acquisition) >= 0.0 && s.acquisition.mobilier >= 0.0
    requires s.acquisition.montantTravaux >= 0.0 && FraisAmortissables(s.acquisition) >= 0.0
    ensures var base := ValeurBati(s.acquisition) + s.acquisition.mobilier
                        + s.acquisition.montantTravaux + FraisAmortissables(s.acquisition);
            && Sum(TotalColumn(Amortissements(s))) <= base
            && (s.dureeAmortBati <= Horizon && s.dureeAmortMobilier <= Horizon
                && s.dureeAmortTravaux <= Horizon && s.dureeAmortFrais <= Horizon
                ==> Sum(TotalColumn(Amortissements(s))) == base)
  {
    var a := s.acquisition;
    var b := Schedule(ValeurBati(a), s.dureeAmortBati, 0, Horizon);
    var m := Schedule(a.mobilier, s.dureeAmortMobilier, 0, Horizon);
    var t := Schedule(a.montantTravaux, s.dureeAmortTravaux, 0, Horizon);
    var f := Schedule(FraisAmortissables(a), s.dureeAmortFrais, 0, Horizon);
    ScheduleBounded(ValeurBati(a), s.dureeAmortBati, 0, Horizon);
    ScheduleBounded(a.mobilier, s.dureeAmortMobilier, 0, Horizon);
    ScheduleBounded(a.montantTravaux, s.dureeAmortTravaux, 0, Horizon);
    ScheduleBounded(FraisAmortissables(a), s.dureeAmortFrais, 0, Horizon);
    SumOfFour(TotalColumn(Amortissements(s)), b, m, t, f);
  }

  /** The sum of a pointwise sum of four sequences. */
  lemma {:induction false} SumOfFour(total: seq<real>, b: seq<real>, m: seq<real>, t: seq<real>, f: seq<real>)
    requires |total| == |b| == |m| == |t| == |f|
    requires forall i :: 0 <= i < |total| ==> total[i] == b[i] + m[i] + t[i] + f[i]
    ensures Sum(total) == Sum(b) + Sum(m) + Sum(t) + Sum(f)
  {
    if |total| > 0 {
      SumOfFour(total[1..], b[1..], m[1..], t[1..], f[1..]);
    }
  }

  /** One year of the corporate-tax settlement. */
  datatype Settled = Settled(net: real, impot: real, deficit: real)

  /** The year's gross result plus the deficit carried in: a negative net result
      pays no tax and becomes the deficit carried out; otherwise the whole net
      result is taxed at the two-tier rate and nothing is carried. */
  function Settle(brut: real, deficit: real): (r: Settled)
    ensures r.net == brut + deficit
    ensures r.deficit <= 0.0 && r.impot >= 0.0
    ensures r.net < 0.0 ==> r.impot == 0.0 && r.deficit == r.net
    ensures r.net >= 0.0 ==> r.impot == TwoTier(r.net) && r.deficit == 0.0
    ensures r.impot == TwoTier(Max(0.0, r.net))
  {
    var net := brut + deficit;
    if net < 0.0 then Settled(net, 0.0, net)
    else Settled(net, TwoTier(net), 0.0)
  }

  /** The ten-year loop: each year settled with the deficit the previous one left. */
  function SettleYears(bruts: seq<real>, deficit: real): (r: seq<Settled>)
    ensures |r| == |bruts|
    ensures forall i :: 0 <= i < |r| ==>
              r[i] == Settle(bruts[i], if i == 0 then deficit else r[i - 1].deficit)
    ensures forall i :: 0 <= i < |r| ==> r[i].deficit <= 0.0 && r[i].impot >= 0.0
  {
    if |bruts| == 0 then []
    else
      var first := Settle(bruts[0], deficit);
      var rest := SettleYears(bruts[1..], first.deficit);
      assert forall i :: 1 <= i < |bruts| ==> ([first] + rest)[i] == rest[i - 1];
      [first] + rest
  }

  /** The deficit carried out of the last year (the one carried in if none). */
  function FinalDeficit(r: seq<Settled>, deficit: real): real
  {
    if |r| == 0 then deficit else r[|r| - 1].deficit
  }

  function TaxedBases(r: seq<Settled>): (b: seq<real>)
    ensures |b| == |r| && forall i :: 0 <= i < |r| ==> b[i] == Max(0.0, r[i].net)
  {
    seq(|r|, i requires 0 <= i < |r| => Max(0.0, r[i].net))
  }

  /** The running deficit loses nothing and invents nothing: the bases taxed over
      the run are the gross results plus the deficit carried in, less the
      deficit still carried at the end. */
  lemma {:induction false} SettleConserves(bruts: seq<real>, deficit: real)
    ensures var r := SettleYears(bruts, deficit);
            Sum(TaxedBases(r)) == Sum(bruts) + deficit - FinalDeficit(r, deficit)
  {
    if |bruts| > 0 {
      var r := SettleYears(bruts, deficit);
      var first := Settle(bruts[0], deficit);
      var rest := SettleYears(bruts[1..], first.deficit);
      SettleConserves(bruts[1..], first.deficit);
      assert r == [first] + rest;
      assert TaxedBases(r) == [Max(0.0, first.net)] + TaxedBases(rest);
      assert FinalDeficit(r, deficit) == FinalDeficit(rest, first.deficit);
    }
  }

  /** With no deficit carried in, the company is never taxed on less than the
      sum of its gross results. */
  lemma SettleTaxedOnTotal(bruts: seq<real>)
    ensures Sum(TaxedBases(SettleYears(bruts, 0.0))) >= Sum(bruts)
  {
    SettleConserves(bruts, 0.0);
    var r := SettleYears(bruts, 0.0);
    assert FinalDeficit(r, 0.0) <= 0.0 by {
      if |r| > 0 {
        assert r[|r| - 1].deficit <= 0.0;
      }
    }
  }

  datatype SciYear = SciYear(
    annee: int,
    revenus: real,
    chargesReelles: real,
    chargesRecuperables: real,
    interets: real,
    assurance: real,
    amortissements: real,
    resultatBrut: real,
    resultatNet: real,
    deficitReportable: real,
    impot: real,
    cashflowMensuel: real)

  /** Rent less deductible charges, the year's interest, the year's borrower
      insurance and the year's depreciation. */
  function ResultatBrut(s: SciIs, table: seq<ScheduleRow>, amort: seq<SciAmortRow>, annee: nat): real
    requires 1 <= annee <= |amort|
  {
    Revenus(s) - ChargesFiscales(s.charges) - YearTotal(table, annee, Interets)
    - YearTotal(table, annee, Assurance) - amort[annee - 1].total
  }

  function ResultatsBruts(s: SciIs, table: seq<ScheduleRow>, amort: seq<SciAmortRow>): (r: seq<real>)
    requires |amort| == Horizon
    ensures |r| == Horizon
    ensures forall i :: 0 <= i < Horizon ==> r[i] == ResultatBrut(s, table, amort, i + 1)
  {
    seq(Horizon, i requires 0 <= i < Horizon => ResultatBrut(s, table, amort, i + 1))
  }

  /** The year's row: the displayed deficit is the running deficit when it is
      negative and 0 otherwise; the cash flow pays the real charges, the tax and
      twelve loan payments and gets the re-invoiced charges back. */
  function YearRow(s: SciIs, table: seq<ScheduleRow>, amort: seq<SciAmortRow>, mensualite: real,
                   annee: nat, settled: Settled): SciYear
    requires 1 <= annee <= |amort|
  {
    SciYear(annee, Revenus(s), ChargesReelles(s.charges), ChargesRecuperables(s.charges),
            YearTotal(table, annee, Interets), YearTotal(table, annee, Assurance), amort[annee - 1].total,
            ResultatBrut(s, table, amort, annee), settled.net,
            if settled.deficit < 0.0 then settled.deficit else 0.0, settled.impot,
            (Revenus(s) - ChargesReelles(s.charges) - settled.impot - mensualite * 12.0
             + ChargesRecuperables(s.charges)) / 12.0)
  }

  /** The ten rows of a run, the deficit threaded from one year into the next:
      each net result is the gross result plus the deficit the previous row
      shows, and the two-tier tax falls on a non-negative net result only. */
  function BuildYears(s: SciIs, table: seq<ScheduleRow>, amort: seq<SciAmortRow>, mensualite: real): (r: seq<SciYear>)
    requires |amort| == Horizon
    ensures |r| == Horizon
    ensures forall i :: 0 <= i < Horizon ==>
              var y := r[i];
              && y.annee == i + 1
              && y.resultatBrut == ResultatBrut(s, table, amort, i + 1)
              && y.resultatNet == y.resultatBrut + (if i == 0 then 0.0 else r[i - 1].deficitReportable)
              && y.deficitReportable <= 0.0
              && (y.resultatNet < 0.0 ==> y.impot == 0.0 && y.deficitReportable == y.resultatNet)
              && (y.resultatNet >= 0.0 ==> y.impot == TwoTier(y.resultatNet) && y.deficitReportable == 0.0)
  {
    var bruts := ResultatsBruts(s, table, amort);
    var settled := SettleYears(bruts, 0.0);
    var r := seq(Horizon, i requires 0 <= i < Horizon => YearRow(s, table, amort, mensualite, i + 1, settled[i]));
    forall i | 0 <= i < Horizon
      ensures r[i].deficitReportable == settled[i].deficit
      ensures r[i].resultatNet == settled[i].net && r[i].impot == settled[i].impot
      ensures r[i].resultatBrut == bruts[i]
    {
      assert r[i] == YearRow(s, table, amort, mensualite, i + 1, settled[i]);
    }
    forall i | 0 <= i < Horizon
      ensures settled[i] == Settle(bruts[i], if i == 0 then 0.0 else r[i - 1].deficitReportable)
    {
    }
    r
  }

  /** SCIaIS.resultat_fiscal_annuel. The loan table asks for the payment only
      when some month lies past the deferral, and the payment is asked for again
      afterwards, so the run fails exactly when the payment does: on an empty
      amortisation period (InvalidLoanTerm) or a zero rate (DivisionByZero).
      A term of zero years is caught earlier: its loan table has no rows, and so
      no year column to group by. */
  function ResultatFiscalAnnuel(s: SciIs): (r: Result<seq<SciYear>>)
    requires s.loan.tauxInteret >= 0.0
    ensures r.Err? <==> MensualiteSci(MontantEmprunt(s.acquisition), s.loan).Err?
    ensures r.Err? ==> r.error == if s.loan.dureeAnnees == 0 then MissingColumn
                                  else MensualiteSci(MontantEmprunt(s.acquisition), s.loan).error
  {
    var p := MontantEmprunt(s.acquisition);
    var table :- TableauSci(p, s.loan);
    if |table| == 0 then Err(MissingColumn) else
    var mensualite :- MensualiteSci(p, s.loan);
    Ok(BuildYears(s, table, Amortissements(s), mensualite))
  }

  /** The rows of a successful run, in terms of the parts it is built from. */
  lemma ResultatRows(s: SciIs, i: nat)
    requires s.loan.tauxInteret >= 0.0
    requires ResultatFiscalAnnuel(s).Ok?
    requires i < Horizon
    ensures var p := MontantEmprunt(s.acquisition);
            var table := TableauSci(p, s.loan).value;
            var amort := Amortissements(s);
            ResultatFiscalAnnuel(s).value[i]
            == YearRow(s, table, amort, MensualiteSci(p, s.loan).value, i + 1,
                       SettleYears(ResultatsBruts(s, table, amort), 0.0)[i])
  {
  }

  function Bases(years: seq<SciYear>): (c: seq<real>)
    ensures |c| == |years| && forall i :: 0 <= i < |years| ==> c[i] == Max(0.0, years[i].resultatNet)
  {
    seq(|years|, i requires 0 <= i < |years| => Max(0.0, years[i].resultatNet))
  }

  function Bruts(years: seq<SciYear>): (c: seq<real>)
    ensures |c| == |years| && forall i :: 0 <= i < |years| ==> c[i] == years[i].resultatBrut
  {
    seq(|years|, i requires 0 <= i < |years| => years[i].resultatBrut)
  }

  /** Over ten years the company is taxed on at least the sum of its gross
      results: a deficit only ever lowers a later year's base by what it was. */
  lemma TaxedOnTotal(s: SciIs)
    requires s.loan.tauxInteret >= 0.0
    requires ResultatFiscalAnnuel(s).Ok?
    ensures var years := ResultatFiscalAnnuel(s).value;
            Sum(Bases(years)) >= Sum(Bruts(years))
  {
    var years := ResultatFiscalAnnuel(s).value;
    var p := MontantEmprunt(s.acquisition);
    var table := TableauSci(p, s.loan).value;
    var amort := Amortissements(s);
    var bruts := ResultatsBruts(s, table, amort);
    var settled := SettleYears(bruts, 0.0);
    forall i | 0 <= i < Horizon
      ensures Bases(years)[i] == TaxedBases(settled)[i] && Bruts(years)[i] == bruts[i]
    {
      ResultatRows(s, i);
    }
    assert Bases(years) == TaxedBases(settled);
    assert Bruts(years) == bruts;
    SettleTaxedOnTotal(bruts);
  }

  /** The borrower's insurance is deducted in full: twelve monthly premiums in
      each year of the loan, none after it. */
  lemma InsuranceDeducted(s: SciIs, i: nat)
    requires s.loan.tauxInteret >= 0.0
    requires ResultatFiscalAnnuel(s).Ok?
    requires i < Horizon
    ensures ResultatFiscalAnnuel(s).value[i].assurance
            == if i + 1 <= s.loan.dureeAnnees
               then 12.0 * AssuranceMensuelle(MontantEmprunt(s.acquisition), s.loan)
               else 0.0
  {
    var p := MontantEmprunt(s.acquisition);
    ResultatRows(s, i);
    TableauYearInsurance(p, s.loan, MensualiteSci(p, s.loan), i + 1);
  }
}
