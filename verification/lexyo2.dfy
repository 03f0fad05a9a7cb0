/** Lexyo2.py: the first form-driven simulator. One year of rent and charges,
    a flat 30% rate (15% for SCI à l'IS), depreciation for the two furnished
    real regimes only, and a ten-year projection that repeats the same year. */
module Lexyo2 {
  import opened Numeric
  import opened Regimes

  /** The values the form collects and the computation reads. The four
      depreciation durations come from sliders whose lower bounds are 10, 5, 5
      and 5 years. */
  datatype Form = Form(
    regime: Regime,
    prixBien: real,
    notaire: real,
    travaux: real,
    mobilier: real,
    copro: real,
    pno: real,
    gli: real,
    fonciere: real,
    entretien: real,
    gestion: real,
    bancaire: real,
    compta: real,
    loyerHc: real,
    amortBien: int,
    amortNotaire: int,
    amortMobilier: int,
    amortTravaux: int)

  /** The two regimes whose depreciation the form computes. */
  predicate Amortissable(r: Regime)
  {
    r == LmnpReel || r == LmpReel
  }

  /** The divisions by the four durations are only evaluated for a
      depreciating regime; there they must not be by zero. */
  predicate DureesUtilisables(f: Form)
  {
    Amortissable(f.regime) ==>
      f.amortBien != 0 && f.amortNotaire != 0 && f.amortMobilier != 0 && f.amortTravaux != 0
  }

  function LoyerAnnuel(f: Form): real
  {
    f.loyerHc * 12.0
  }

  function ChargesTotal(f: Form): real
  {
    f.copro + f.pno + f.gli + f.fonciere + f.entretien + f.gestion + f.bancaire + f.compta
  }

  /** Price, notary fees, furniture and works, each over its own duration, for
      LMNP and LMP réel; nothing for every other regime. */
  function AmortissementTotal(f: Form): (r: real)
    requires DureesUtilisables(f)
    ensures !Amortissable(f.regime) ==> r == 0.0
    ensures Amortissable(f.regime) && f.amortBien > 0 && f.amortNotaire > 0
            && f.amortMobilier > 0 && f.amortTravaux > 0
            && f.prixBien >= 0.0 && f.notaire >= 0.0 && f.mobilier >= 0.0 && f.travaux >= 0.0
            ==> 0.0 <= r <= f.prixBien + f.notaire + f.mobilier + f.travaux
  {
    if Amortissable(f.regime) then
      Share(f.prixBien, f.amortBien) + Share(f.notaire, f.amortNotaire)
      + Share(f.mobilier, f.amortMobilier) + Share(f.travaux, f.amortTravaux)
    else 0.0
  }

  /** The rate the regime applies to a positive result. */
  function Taux(r: Regime): real
  {
    if r == SciIs then 0.15 else 0.3
  }

  datatype Simulation = Simulation(resultat: real, impot: real, cashflow: real)

  /** The regime branch: the two micro regimes tax a fixed share of the rent
      (half for Micro BIC, 70% for Micro foncier) whatever its sign; the real
      regimes deduct the charges (and the depreciation for LMNP and LMP) and tax
      only a positive result. The cash flow is the rent less the charges and the
      tax. */
  function Simulate(f: Form): (r: Simulation)
    requires DureesUtilisables(f)
    ensures r.cashflow == LoyerAnnuel(f) - ChargesTotal(f) - r.impot
    ensures f.regime == MicroBic ==> r.resultat == LoyerAnnuel(f) * 0.5 && r.impot == r.resultat * 0.3
    ensures f.regime == MicroFoncier ==> r.resultat == LoyerAnnuel(f) * 0.7 && r.impot == r.resultat * 0.3
    ensures f.regime != MicroBic && f.regime != MicroFoncier ==>
              r.resultat == LoyerAnnuel(f) - ChargesTotal(f) - AmortissementTotal(f)
              && r.impot == Taux(f.regime) * Max(0.0, r.resultat)
  {
    var loyer := LoyerAnnuel(f);
    var charges := ChargesTotal(f);
    var amort := AmortissementTotal(f);
    if f.regime == MicroBic then
      var resultat := loyer * 0.5;
      Simulation(resultat, resultat * 0.3, loyer - charges - resultat * 0.3)
    else if f.regime == MicroFoncier then
      var resultat := loyer * 0.7;
      Simulation(resultat, resultat * 0.3, loyer - charges - resultat * 0.3)
    else if Amortissable(f.regime) then
      var resultat := loyer - charges - amort;
      var impot := if resultat < 0.0 then 0.0 else resultat * 0.3;
      Simulation(resultat, impot, loyer - charges - impot)
    else if f.regime == LocationNueReel then
      var resultat := loyer - charges;
      var impot := if resultat < 0.0 then 0.0 else resultat * 0.3;
      Simulation(resultat, impot, loyer - charges - impot)
    else if f.regime == SciIs then
      var resultat := loyer - charges - amort;
      var impot := Max(0.0, resultat) * 0.15;
      Simulation(resultat, impot, loyer - charges - impot)
    else
      var resultat := loyer - charges;
      var impot := Max(0.0, resultat) * 0.3;
      Simulation(resultat, impot, loyer - charges - impot)
  }

  /** With a non-negative rent every regime's tax is its rate applied to the
      positive part of its result, so the tax is never negative and the cash
      flow never exceeds rent less charges. */
  lemma TaxOnPositiveResult(f: Form)
    requires DureesUtilisables(f)
    requires f.loyerHc >= 0.0
    ensures Simulate(f).impot == Taux(f.regime) * Max(0.0, Simulate(f).resultat)
    ensures Simulate(f).impot >= 0.0
    ensures Simulate(f).cashflow <= LoyerAnnuel(f) - ChargesTotal(f)
  {
    var r := Simulate(f);
    if f.regime == MicroBic || f.regime == MicroFoncier {
      assert r.resultat >= 0.0;
      assert Max(0.0, r.resultat) == r.resultat;
    }
    MulNonNegative(Taux(f.regime), Max(0.0, r.resultat));
  }

  /** The SCI à l'IS branch subtracts the depreciation total, but that total
      is only filled in for LMNP and LMP: an SCI à l'IS is taxed on rent less
      charges, however large its price and whatever its durations. */
  lemma SciIsWithoutDepreciation(f: Form, prix: real, b: int, n: int, m: int, t: int)
    requires f.regime == SciIs
    ensures var g := f.(prixBien := prix, amortBien := b, amortNotaire := n, amortMobilier := m, amortTravaux := t);
            Simulate(g) == Simulate(f)
            && Simulate(f).impot == 0.15 * Max(0.0, LoyerAnnuel(f) - ChargesTotal(f))
  {
  }

  /** One more euro of charges costs the micro regimes exactly one euro of cash
      flow, and the real regimes between 70 (85 for SCI à l'IS) and 100 cents,
      as the tax falls by at most the regime's rate. */
  lemma ExtraCharges(f: Form, e: real)
    requires DureesUtilisables(f)
    requires e >= 0.0
    ensures var g := f.(copro := f.copro + e);
            && Simulate(g).impot <= Simulate(f).impot
            && Simulate(f).impot - Simulate(g).impot <= Taux(f.regime) * e
            && Simulate(f).cashflow - e <= Simulate(g).cashflow
            && Simulate(g).cashflow <= Simulate(f).cashflow - (1.0 - Taux(f.regime)) * e
            && (f.regime == MicroBic || f.regime == MicroFoncier ==>
                  Simulate(g).cashflow == Simulate(f).cashflow - e)
  {
    var g := f.(copro := f.copro + e);
    assert ChargesTotal(g) == ChargesTotal(f) + e;
    assert LoyerAnnuel(g) == LoyerAnnuel(f);
    assert AmortissementTotal(g) == AmortissementTotal(f);
  }

  datatype Year = Year(annee: int, cashflow: real, impot: real, resultat: real)

  /** The ten-year projection: the same year, numbered 1 to 10. */
  function Projection(f: Form): (rows: seq<Year>)
    requires DureesUtilisables(f)
    ensures |rows| == 10
    ensures forall i :: 0 <= i < 10 ==>
              rows[i] == Year(i + 1, Simulate(f).cashflow, Simulate(f).impot, Simulate(f).resultat)
  {
    var s := Simulate(f);
    seq(10, i requires 0 <= i < 10 => Year(i + 1, s.cashflow, s.impot, s.resultat))
  }

  function Cashflows(rows: seq<Year>): (r: seq<real>)
    ensures |r| == |rows|
    ensures forall i :: 0 <= i < |rows| ==> r[i] == rows[i].cashflow
  {
    seq(|rows|, i requires 0 <= i < |rows| => rows[i].cashflow)
  }

  /** Ten years of the projection add up to ten times the yearly cash flow:
      nothing grows, nothing is carried forward. */
  lemma ProjectionTotal(f: Form)
    requires DureesUtilisables(f)
    ensures Sum(Cashflows(Projection(f))) == 10.0 * Simulate(f).cashflow
  {
    assert Cashflows(Projection(f)) == Repeat(Simulate(f).cashflow, 10);
    SumRepeat(Simulate(f).cashflow, 10);
  }

  /** The form's defaults under LMNP réel: 8 400 of rent, 3 770 of charges and
      4 000 + 800 + 428.57… + 1 000 of depreciation leave a loss, so no tax and
      a cash flow of 4 630. */
  lemma FormDefaults()
    ensures var f := Form(LmnpReel, 100000.0, 8000.0, 15000.0, 3000.0,
                          1000.0, 150.0, 200.0, 800.0, 300.0, 600.0, 120.0, 600.0,
                          700.0, 25, 10, 7, 15);
            && LoyerAnnuel(f) == 8400.0 && ChargesTotal(f) == 3770.0
            && Simulate(f).resultat < 0.0
            && Simulate(f).impot == 0.0 && Simulate(f).cashflow == 4630.0
  {
  }
}
