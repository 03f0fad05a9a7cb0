/** finallexyo.py: the shared computations every regime of the final simulator
    starts from. The price with its notary fee (a percentage) and the works,
    the yearly rent net of the vacancy rate, the yearly charges, the amount
    borrowed (total less the down payment, with no floor) and the monthly and
    yearly loan payments. The regime branches are empty. */
module Finallexyo {
  import opened Numeric
  import opened Errors
  import opened Annuity

  /** The form's inputs. The notary fee, the vacancy and the loan rate are
      percentages; the term is in years. */
  datatype Donnees = Donnees(
    prixBien: real,
    fraisNotaire: real,
    travaux: real,
    loyerMensuel: real,
    chargesMensuelles: real,
    vacancesLocatives: real,
    apport: real,
    tauxCredit: real,
    dureeCredit: int)

  datatype Calculs = Calculs(
    prixTotal: real,
    loyerAnnuel: real,
    chargesAnnuelles: real,
    capitalEmprunte: real,
    mensualite: real,
    annuite: real)

  /** The monthly rate of a yearly percentage. */
  function TauxMensuel(d: Donnees): real
  {
    d.tauxCredit / 100.0 / 12.0
  }

  /** calculs_communs. The payment formula divides by zero for a zero rate
      (0/0) and for a zero term; a negative term gives a number. What is
      borrowed and what the purchase costs differ by the down payment; the
      yearly figures are twelve months' worth; the rent loses the vacancy
      share. For a positive term, the monthly payment clears the amount
      borrowed at the monthly rate in exactly the term's months. */
  function CalculsCommuns(d: Donnees): (r: Result<Calculs>)
    requires d.tauxCredit >= 0.0
    ensures r.Err? <==> d.tauxCredit == 0.0 || d.dureeCredit == 0
    ensures r.Err? ==> r.error == DivisionByZero
    ensures r.Ok? ==> r.value.capitalEmprunte + d.apport == r.value.prixTotal
    ensures r.Ok? ==> r.value.prixTotal - d.travaux == d.prixBien * (1.0 + d.fraisNotaire / 100.0)
    ensures r.Ok? ==> r.value.annuite == 12.0 * r.value.mensualite
                      && r.value.chargesAnnuelles == 12.0 * d.chargesMensuelles
    ensures r.Ok? ==> r.value.loyerAnnuel + 12.0 * d.loyerMensuel * d.vacancesLocatives / 100.0
                      == 12.0 * d.loyerMensuel
    ensures r.Ok? ==> Payment(r.value.capitalEmprunte, TauxMensuel(d), 12 * d.dureeCredit) == Ok(r.value.mensualite)
    ensures r.Ok? && d.dureeCredit > 0 ==>
              Amortize(r.value.capitalEmprunte, TauxMensuel(d), r.value.mensualite, 12 * d.dureeCredit) == 0.0
  {
    var prixTotal := d.prixBien + d.prixBien * d.fraisNotaire / 100.0 + d.travaux;
    var loyerAnnuel := d.loyerMensuel * 12.0 * (1.0 - d.vacancesLocatives / 100.0);
    var chargesAnnuelles := d.chargesMensuelles * 12.0;
    var capital := prixTotal - d.apport;
    var mensualite :- Payment(capital, TauxMensuel(d), 12 * d.dureeCredit);
    LevelPaymentClearsPositiveTerm(capital, TauxMensuel(d), 12 * d.dureeCredit);
    Ok(Calculs(prixTotal, loyerAnnuel, chargesAnnuelles, capital, mensualite, mensualite * 12.0))
  }

  /** The inputs the form accepts: non-negative amounts and percentages, a
      vacancy of at most 20%, a term of at least a year. */
  predicate Saisie(d: Donnees)
  {
    && d.prixBien >= 0.0 && d.fraisNotaire >= 0.0 && d.travaux >= 0.0
    && d.loyerMensuel >= 0.0 && d.chargesMensuelles >= 0.0
    && 0.0 <= d.vacancesLocatives <= 20.0
    && d.apport >= 0.0 && d.tauxCredit >= 0.0 && d.dureeCredit >= 1
  }

  /** On what the form accepts, only a zero rate fails; the rent is between
      80% and 100% of twelve months' rent; a loan that is not covered by the
      down payment costs more each month than its first month of interest,
      and a loan the down payment exactly covers costs nothing. */
  lemma FormInputs(d: Donnees)
    requires Saisie(d)
    ensures CalculsCommuns(d).Err? <==> d.tauxCredit == 0.0
    ensures CalculsCommuns(d).Ok? ==>
              var c := CalculsCommuns(d).value;
              && 0.8 * (12.0 * d.loyerMensuel) <= c.loyerAnnuel <= 12.0 * d.loyerMensuel
              && (c.capitalEmprunte > 0.0 ==> c.mensualite > c.capitalEmprunte * TauxMensuel(d))
              && (c.capitalEmprunte == 0.0 ==> c.mensualite == 0.0)
  {
    if CalculsCommuns(d).Ok? {
      var c := CalculsCommuns(d).value;
      var l := 12.0 * d.loyerMensuel;
      MulNonNegative(l, d.vacancesLocatives / 100.0);
      MulNonNegative(l, 0.2 - d.vacancesLocatives / 100.0);
      assert 12.0 * d.loyerMensuel * d.vacancesLocatives / 100.0 == l * (d.vacancesLocatives / 100.0);
    }
  }

  /** A larger amount borrowed, at the same rate and term, never costs less
      each month: the level payment is the amount times a positive factor. */
  lemma LevelPaymentMonotone(p: real, q: real, t: real, n: nat)
    requires t > 0.0 && n > 0
    requires p <= q
    ensures LevelPayment(p, t, n) <= LevelPayment(q, t, n)
  {
    var g := Pow(1.0 + t, n);
    PowAboveOne(1.0 + t, n);
    var mp, mq := LevelPayment(p, t, n), LevelPayment(q, t, n);
    assert (mq - mp) * (g - 1.0) == (q - p) * (t * g);
    MulNonNegative(q - p, t * g);
    NonNegativeFactor(mq - mp, g - 1.0);
  }

  /** Each euro of down payment is one euro less borrowed, and never raises
      the monthly payment. */
  lemma ApportLowersPayment(d: Donnees, x: real)
    requires d.tauxCredit > 0.0 && d.dureeCredit > 0
    requires x >= 0.0
    ensures var e := d.(apport := d.apport + x);
            && CalculsCommuns(e).value.capitalEmprunte == CalculsCommuns(d).value.capitalEmprunte - x
            && CalculsCommuns(e).value.mensualite <= CalculsCommuns(d).value.mensualite
  {
    var e := d.(apport := d.apport + x);
    var ce, cd := CalculsCommuns(e).value, CalculsCommuns(d).value;
    var t, n := TauxMensuel(d), 12 * d.dureeCredit;
    assert TauxMensuel(e) == t;
    assert ce.prixTotal == cd.prixTotal;
    PaymentMonotone(ce.capitalEmprunte, cd.capitalEmprunte, t, n, ce.mensualite, cd.mensualite);
  }

  /** LevelPaymentMonotone, read through the payment formula. */
  lemma PaymentMonotone(p: real, q: real, t: real, n: int, mp: real, mq: real)
    requires t > 0.0 && n > 0
    requires p <= q
    requires Payment(p, t, n) == Ok(mp) && Payment(q, t, n) == Ok(mq)
    ensures mp <= mq
  {
    LevelPaymentMonotone(p, q, t, n);
  }

  /** The form's defaults: 150 000 at 7.5% notary fee plus 20 000 of works
      cost 181 250, of which 161 250 is borrowed; 750 a month with 5% vacancy
      is 8 550 a year, and 150 of charges a month is 1 800. */
  lemma Defaults()
    ensures var c := CalculsCommuns(Donnees(150000.0, 7.5, 20000.0, 750.0, 150.0, 5.0, 20000.0, 3.0, 20)).value;
            && c.prixTotal == 181250.0 && c.capitalEmprunte == 161250.0
            && c.loyerAnnuel == 8550.0 && c.chargesAnnuelles == 1800.0
  {
  }
}
