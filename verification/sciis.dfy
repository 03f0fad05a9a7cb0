/** SCIIS.py: the object model of a company (SCI à l'IS) that buys a property
    on credit. The loan's yearly interest is read off the balance at the start
    of each year; rent and charges grow at fixed yearly rates; the building
    (less the land share) and the works are depreciated in equal yearly shares
    over 40 and 10 years; the company pays the two-tier corporate tax on a
    positive result. */
module Sciis {
  import opened Numeric
  import opened Errors
  import opened Annuity
  import opened CorporateTax

  const DefaultQuotePartTerrain: real := 0.1

  datatype BienImmobilier = BienImmobilier(
    prix: real,
    travaux: real,
    fraisNotaire: real,
    fraisAgence: real,
    fraisDossier: real,
    autresFrais: real,
    quotePartTerrain: real)

  /** The depreciable value: the price without the land share, plus the works. */
  function ValeurAmortissable(b: BienImmobilier): real
  {
    b.prix * (1.0 - b.quotePartTerrain) + b.travaux
  }

  /** The total cost: the price, the works and the four kinds of fees. */
  function CoutTotal(b: BienImmobilier): (r: real)
    ensures b.prix >= 0.0 && b.travaux >= 0.0 && b.fraisNotaire >= 0.0 && b.fraisAgence >= 0.0
            && b.fraisDossier >= 0.0 && b.autresFrais >= 0.0 && 0.0 <= b.quotePartTerrain <= 1.0
            ==> ValeurAmortissable(b) <= r
  {
    MulNonNegativeWhen(b.prix, b.quotePartTerrain);
    b.prix + b.travaux + b.fraisNotaire + b.fraisAgence + b.fraisDossier + b.autresFrais
  }

  /** A loan: the amount, the term in years, the yearly rate and the yearly
      insurance rate in percent, an optional monthly payment fixed in advance,
      and a deferral in years. */
  datatype Emprunt = Emprunt(
    montant: real,
    duree: int,
    taux: real,
    assurance: real,
    mensualite: Option<real>,
    differe: int)

  /** Python's truth test on the optional payment: present and non-zero. */
  predicate MensualiteFixee(e: Emprunt)
  {
    e.mensualite.Some? && e.mensualite.value != 0.0
  }

  function TauxMensuel(e: Emprunt): real
  {
    e.taux / 100.0 / 12.0
  }

  /** calcul_mensualite: the fixed payment when there is one, else the level
      payment over the term. Without a fixed payment a zero rate or a zero term
      divides by zero; with a positive rate and term the payment clears the
      loan at the end of the term. */
  function CalculMensualite(e: Emprunt): (r: Result<real>)
    requires e.taux >= 0.0
    ensures MensualiteFixee(e) ==> r == Ok(e.mensualite.value)
    ensures !MensualiteFixee(e) ==> (r.Err? <==> e.taux == 0.0 || e.duree == 0)
    ensures r.Err? ==> r.error == DivisionByZero
    ensures r.Ok? && !MensualiteFixee(e) && e.duree > 0 ==>
              Amortize(e.montant, TauxMensuel(e), r.value, 12 * e.duree) == 0.0
  {
    if MensualiteFixee(e) then Ok(e.mensualite.value)
    else
      var r := Payment(e.montant, TauxMensuel(e), e.duree * 12);
      if r.Ok? && e.duree > 0 then
        LevelPaymentClearsBalance(e.montant, TauxMensuel(e), e.duree * 12);
        r
      else r
  }

  /** interets_annuels: during the deferral, the amount times the yearly rate;
      afterwards, twelve times the monthly interest on the balance left after
      `annee` years of payments. Only the second branch asks for the payment,
      and so only it can fail. */
  function InteretsAnnuels(e: Emprunt, annee: nat): (r: Result<real>)
    requires e.taux >= 0.0
    ensures annee < e.differe ==> r == Ok(e.montant * e.taux / 100.0)
    ensures annee >= e.differe ==> (r.Err? <==> CalculMensualite(e).Err?)
    ensures r.Ok? && annee >= e.differe ==>
              r.value == Amortize(e.montant, TauxMensuel(e), CalculMensualite(e).value, 12 * annee)
                         * TauxMensuel(e) * 12.0
    ensures r.Ok? && annee == 0 ==> r.value == e.montant * e.taux / 100.0
  {
    if annee < e.differe then Ok(e.montant * e.taux / 100.0)
    else
      var mensualite :- CalculMensualite(e);
      Ok(Amortize(e.montant, TauxMensuel(e), mensualite, 12 * annee) * TauxMensuel(e) * 12.0)
  }

  /** Without a fixed payment, the interest of the year the term ends is 0. */
  lemma NoInterestAtTerm(e: Emprunt)
    requires e.taux > 0.0 && e.duree > 0 && !MensualiteFixee(e)
    requires e.duree >= e.differe
    ensures InteretsAnnuels(e, e.duree) == Ok(0.0)
  {
  }

  /** Between deferral and term, each year's interest is at most the previous
      year's and never negative, for a level payment on a non-negative amount. */
  lemma InterestDecreases(e: Emprunt, annee: nat)
    requires e.taux > 0.0 && e.duree > 0 && !MensualiteFixee(e) && e.montant >= 0.0
    requires e.differe <= annee < e.duree
    ensures 0.0 <= InteretsAnnuels(e, annee + 1).value <= InteretsAnnuels(e, annee).value
  {
    var t := TauxMensuel(e);
    var m := CalculMensualite(e).value;
    var n := 12 * e.duree;
    assert AnnuityIdentity(e.montant, t, m, n);
    BalanceNonIncreasingOver(e.montant, t, m, n, 12 * annee, 12 * annee + 12);
    AnnuityBalanceNonNegative(e.montant, t, m, n, 12 * annee + 12);
    var b0 := Amortize(e.montant, t, m, 12 * annee);
    var b1 := Amortize(e.montant, t, m, 12 * annee + 12);
    MulNonNegative(b1, t * 12.0);
    MulNonNegative(b0 - b1, t * 12.0);
  }

  /** The balance of an annuity loan never grows between months k and j of its
      term. */
  lemma {:induction false} BalanceNonIncreasingOver(p: real, t: real, m: real, n: nat, k: nat, j: nat)
    requires t > 0.0 && n > 0 && k <= j <= n
    requires p >= 0.0
    requires AnnuityIdentity(p, t, m, n)
    ensures Amortize(p, t, m, j) <= Amortize(p, t, m, k)
    decreases j - k
  {
    if k < j {
      BalanceNonIncreasingOver(p, t, m, n, k, j - 1);
      AnnuityBalanceNonIncreasing(p, t, m, n, j - 1);
    }
  }

  /** Past the term the loop keeps paying: the balance goes below 0, and so the
      reported interest of every later year is negative. */
  lemma NegativeInterestPastTerm(e: Emprunt, annee: nat)
    requires e.taux > 0.0 && e.duree > 0 && !MensualiteFixee(e) && e.montant > 0.0
    requires annee > e.duree && annee >= e.differe
    ensures InteretsAnnuels(e, annee).value < 0.0
  {
    var t := TauxMensuel(e);
    var m := CalculMensualite(e).value;
    assert m > e.montant * t;
    MulNonNegative(e.montant, t);
    OverpaidBalance(e.montant, t, m, 12 * e.duree, 12 * annee);
    var b := Amortize(e.montant, t, m, 12 * annee);
    assert b * t * 12.0 == b * (t * 12.0);
  }

  /** Once the balance is 0 after n months, every further payment m > 0 takes
      it below 0. */
  lemma {:induction false} OverpaidBalance(p: real, t: real, m: real, n: nat, k: nat)
    requires t > 0.0 && m > 0.0 && n < k
    requires Amortize(p, t, m, n) == 0.0
    ensures Amortize(p, t, m, k) < 0.0
  {
    AmortizeStep(p, t, m, k);
    if k - 1 > n {
      OverpaidBalance(p, t, m, n, k - 1);
      var prev := Amortize(p, t, m, k - 1);
      assert prev * t < 0.0;
    }
  }

  /** assurance_annuelle: the yearly insurance, a fixed share of the amount. */
  function AssuranceAnnuelle(e: Emprunt): real
  {
    e.montant * e.assurance / 100.0
  }

  datatype LoyersEtCharges = LoyersEtCharges(
    loyersAnnuels: real,
    chargesAnnuelles: real,
    croissanceLoyers: real,
    croissanceCharges: real)

  /** The rent of year `annee` (0 for the first): compound growth. */
  function Loyers(f: LoyersEtCharges, annee: nat): real
  {
    f.loyersAnnuels * Pow(1.0 + f.croissanceLoyers / 100.0, annee)
  }

  function Charges(f: LoyersEtCharges, annee: nat): real
  {
    f.chargesAnnuelles * Pow(1.0 + f.croissanceCharges / 100.0, annee)
  }

  /** The first year's rent and charges are the base amounts; each year's rent
      is the previous one's grown by the yearly rate, so with no growth it stays
      the base amount, and with a non-negative rate and rent it never falls. */
  lemma RentGrowth(f: LoyersEtCharges, annee: nat)
    ensures Loyers(f, 0) == f.loyersAnnuels && Charges(f, 0) == f.chargesAnnuelles
    ensures f.croissanceLoyers == 0.0 ==> Loyers(f, annee) == f.loyersAnnuels
    ensures Loyers(f, annee + 1) == Loyers(f, annee) * (1.0 + f.croissanceLoyers / 100.0)
    ensures Charges(f, annee + 1) == Charges(f, annee) * (1.0 + f.croissanceCharges / 100.0)
    ensures f.croissanceLoyers >= 0.0 && f.loyersAnnuels >= 0.0 ==> Loyers(f, annee) <= Loyers(f, annee + 1)
  {
    var g := 1.0 + f.croissanceLoyers / 100.0;
    assert Pow(g, annee + 1) == g * Pow(g, annee);
    if f.croissanceLoyers == 0.0 {
      PowOfOne(annee);
    }
    var gc := 1.0 + f.croissanceCharges / 100.0;
    assert Pow(gc, annee + 1) == gc * Pow(gc, annee);
    if f.croissanceLoyers >= 0.0 && f.loyersAnnuels >= 0.0 {
      PowMonotone(g, 0, annee);
      MulNonNegative(Loyers(f, annee), g - 1.0);
    }
  }

  /** The depreciation plan of the company: the building over 40 years, the
      works over 10, the defaults the company always uses. */
  const DureeBatiment: int := 40
  const DureeTravaux: int := 10

  /** annuite_bien: one year's share of the building without its land. */
  function AnnuiteBien(b: BienImmobilier, dureeBatiment: int): real
    requires dureeBatiment != 0
  {
    Share(b.prix * (1.0 - b.quotePartTerrain), dureeBatiment)
  }

  function AnnuiteTravaux(b: BienImmobilier, dureeTravaux: int): real
    requires dureeTravaux != 0
  {
    Share(b.travaux, dureeTravaux)
  }

  /** total_annuite: the two yearly shares. When both are spread over the same
      number of years, that many years of them depreciate exactly the value
      valeur_amortissable reports. */
  function TotalAnnuite(b: BienImmobilier, dureeBatiment: int, dureeTravaux: int): (r: real)
    requires dureeBatiment != 0 && dureeTravaux != 0
    ensures dureeBatiment == dureeTravaux ==> r * (dureeBatiment as real) == ValeurAmortissable(b)
    ensures b.prix >= 0.0 && 0.0 <= b.quotePartTerrain <= 1.0 && b.travaux >= 0.0
            && dureeBatiment >= 1 && dureeTravaux >= 1
            ==> 0.0 <= r <= ValeurAmortissable(b)
  {
    var bien := AnnuiteBien(b, dureeBatiment);
    var travaux := AnnuiteTravaux(b, dureeTravaux);
    MulNonNegativeWhen(b.prix, 1.0 - b.quotePartTerrain);
    bien + travaux
  }

  /** The company's yearly depreciation never stops: over the ten projected
      years it deducts ten times the works' share, all of the works' cost with
      the 10-year default, and more than that whenever the works' duration is
      shorter than ten years. */
  lemma TenYearsOfWorks(b: BienImmobilier, dureeTravaux: int)
    requires 1 <= dureeTravaux
    ensures dureeTravaux == 10 ==> 10.0 * AnnuiteTravaux(b, dureeTravaux) == b.travaux
    ensures dureeTravaux < 10 && b.travaux > 0.0 ==> 10.0 * AnnuiteTravaux(b, dureeTravaux) > b.travaux
  {
    var s := AnnuiteTravaux(b, dureeTravaux);
    assert s * (dureeTravaux as real) == b.travaux;
    if dureeTravaux < 10 && b.travaux > 0.0 {
      assert s > 0.0;
      assert s * 10.0 > s * (dureeTravaux as real);
    }
  }

  datatype Sci = Sci(bien: BienImmobilier, emprunt: Emprunt, flux: LoyersEtCharges)

  /** resultat_fiscal: rent less charges, interest, insurance and depreciation
      for year `annee`. */
  function ResultatFiscal(s: Sci, annee: nat): (r: Result<real>)
    requires s.emprunt.taux >= 0.0
    ensures r.Err? <==> InteretsAnnuels(s.emprunt, annee).Err?
    ensures r.Ok? ==> r.value + InteretsAnnuels(s.emprunt, annee).value
                      + AssuranceAnnuelle(s.emprunt) + TotalAnnuite(s.bien, DureeBatiment, DureeTravaux)
                      == Loyers(s.flux, annee) - Charges(s.flux, annee)
  {
    var interets :- InteretsAnnuels(s.emprunt, annee);
    Ok(Loyers(s.flux, annee) - Charges(s.flux, annee) - interets
       - AssuranceAnnuelle(s.emprunt) - TotalAnnuite(s.bien, DureeBatiment, DureeTravaux))
  }

  /** impot_is: nothing on a loss, the two-tier tax on a profit. */
  function ImpotIs(resultat: real): (r: real)
    ensures r == TwoTier(Max(0.0, resultat))
    ensures r >= 0.0
  {
    if resultat <= 0.0 then 0.0
    else if resultat <= 42500.0 then resultat * 0.15
    else 42500.0 * 0.15 + (resultat - 42500.0) * 0.25
  }

  /** A larger result never pays less tax, and each extra euro costs at most
      25 cents. */
  lemma ImpotIsMonotone(a: real, b: real)
    requires a <= b
    ensures ImpotIs(a) <= ImpotIs(b) <= ImpotIs(a) + 0.25 * (b - a)
  {
    MarginalRate(Max(0.0, a), Max(0.0, b) - Max(0.0, a));
  }

  datatype Annee = Annee(
    annee: int,
    loyers: real,
    charges: real,
    interets: real,
    assurance: real,
    amortissements: real,
    resultatFiscal: real,
    impotIs: real,
    cashflowNetApresIs: real)

  /** One projected year: index `annee` from 0, displayed as annee + 1. */
  function ProjectedYear(s: Sci, mensualite: real, annee: nat): (y: Annee)
    requires s.emprunt.taux >= 0.0
    requires InteretsAnnuels(s.emprunt, annee).Ok?
    ensures y.resultatFiscal == ResultatFiscal(s, annee).value
    ensures y.impotIs == TwoTier(Max(0.0, y.resultatFiscal))
    ensures y.cashflowNetApresIs
            == y.resultatFiscal + y.interets + y.amortissements - 12.0 * mensualite - y.impotIs
  {
    var loyers := Loyers(s.flux, annee);
    var charges := Charges(s.flux, annee);
    var interets := InteretsAnnuels(s.emprunt, annee).value;
    var assurance := AssuranceAnnuelle(s.emprunt);
    var amort := TotalAnnuite(s.bien, DureeBatiment, DureeTravaux);
    var resultat := loyers - charges - interets - assurance - amort;
    var impot := ImpotIs(resultat);
    Annee(annee + 1, loyers, charges, interets, assurance, amort, resultat, impot,
          loyers - charges - mensualite * 12.0 - assurance - impot)
  }

  /** projection_sur_10_ans: every year asks for the monthly payment, so the
      projection fails exactly when the payment does. Each row's result is the
      one resultat_fiscal gives for the same year, its tax the two-tier tax on
      the positive part of that result, and its cash flow the result with the
      non-cash depreciation and the interest added back and the year's payments
      and tax taken off. */
  function ProjectionSur10Ans(s: Sci): (r: Result<seq<Annee>>)
    requires s.emprunt.taux >= 0.0
    ensures r.Err? <==> CalculMensualite(s.emprunt).Err?
    ensures r.Ok? ==> |r.value| == 10
    ensures r.Ok? ==> forall i :: 0 <= i < 10 ==>
              && r.value[i].annee == i + 1
              && r.value[i].loyers == Loyers(s.flux, i)
              && r.value[i] == ProjectedYear(s, CalculMensualite(s.emprunt).value, i)
  {
    var mensualite :- CalculMensualite(s.emprunt);
    Ok(seq(10, i requires 0 <= i < 10 => ProjectedYear(s, mensualite, i)))
  }

  /** The projection's results and taxes, row by row, are resultat_fiscal and
      impot_is of the same year. */
  lemma ProjectionAgrees(s: Sci, i: nat)
    requires s.emprunt.taux >= 0.0
    requires ProjectionSur10Ans(s).Ok? && i < 10
    ensures ResultatFiscal(s, i).Ok?
    ensures ProjectionSur10Ans(s).value[i].resultatFiscal == ResultatFiscal(s, i).value
    ensures ProjectionSur10Ans(s).value[i].impotIs == ImpotIs(ResultatFiscal(s, i).value)
    ensures ProjectionSur10Ans(s).value[i].cashflowNetApresIs
            <= ProjectionSur10Ans(s).value[i].resultatFiscal + ProjectionSur10Ans(s).value[i].interets
               + ProjectionSur10Ans(s).value[i].amortissements - 12.0 * CalculMensualite(s.emprunt).value
  {
  }
}
