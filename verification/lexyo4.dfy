/** Lexyo4.py: an LMNP réel simulator with a monthly amortisation table. The
    loan finances the price, the works, the fees and an estimated notary fee,
    less the down payment; the yearly step caps depreciation at the positive
    result, and carries a loss forward as a single deficit that later profits
    consume. The yearly block is written at a deeper indentation than the
    statements before it, so the file does not load as written; the model
    states the step the block spells out. */
module Lexyo4 {
  import opened Numeric
  import opened Errors
  import opened Annuity

  /** The purchase as entered, all amounts in euros. */
  datatype Achat = Achat(
    prixBien: real,
    travaux: real,
    fraisTiers: real,
    fraisAgence: real,
    fraisDossier: real,
    caution: real,
    mobilier: real,
    apport: real)

  /** The estimated notary fee: 8% of the price, rounded to the euro. */
  function FraisNotaire(prix: real): (r: int)
    ensures -0.5 <= (r as real) - 0.08 * prix <= 0.5
  {
    RoundHalfEven(0.08 * prix)
  }

  /** montant_emprunt: every cost but the furniture, less the down payment,
      with no floor at 0. */
  function MontantEmprunt(a: Achat): (r: real)
    ensures a.prixBien >= 0.0 && a.travaux >= 0.0 && a.fraisTiers >= 0.0 && a.fraisAgence >= 0.0
            && a.fraisDossier >= 0.0 && a.caution >= 0.0
            ==> r >= 1.08 * a.prixBien - 0.5 - a.apport
  {
    a.prixBien + a.travaux + a.fraisAgence + a.fraisDossier + a.caution
    + (FraisNotaire(a.prixBien) as real) + a.fraisTiers - a.apport
  }

  /** The furniture is not financed, each euro of down payment is one euro
      less borrowed, and a down payment above the costs gives a negative
      amount rather than 0. */
  lemma MontantEmpruntShape(a: Achat, mobilier: real, x: real)
    ensures MontantEmprunt(a.(mobilier := mobilier)) == MontantEmprunt(a)
    ensures MontantEmprunt(a.(apport := a.apport + x)) == MontantEmprunt(a) - x
    ensures MontantEmprunt(Achat(0.0, 0.0, 0.0, 0.0, 0.0, 0.0, 0.0, 1000.0)) == -1000.0
  {
  }

  /** A price of 150 000 gives a 12 000 notary fee; 0.08 × 1 006.25 = 80.5 is
      rounded to the even 80. */
  lemma NotaryExamples()
    ensures FraisNotaire(150000.0) == 12000
    ensures FraisNotaire(1006.25) == 80
  {
  }

  /** One row of the amortisation table. */
  datatype Ligne = Ligne(
    mois: int,
    mensualite: real,
    assurance: real,
    interets: real,
    principal: real,
    capitalRestant: real,
    totalPaye: real)

  /** Row i (from 0) of the table: the interest on the balance left after i
      payments, the rest of the payment repaying principal. */
  function LigneAt(capital: real, t: real, m: real, assurance: real, i: nat): Ligne
  {
    var solde := Amortize(capital, t, m, i);
    Ligne(i + 1, m, assurance, solde * t, m - solde * t, Amortize(capital, t, m, i + 1), m + assurance)
  }

  /** The balance a row starts from: the capital for the first row, the
      previous row's remaining balance after that. */
  function SoldeAvant(rows: seq<Ligne>, capital: real, i: nat): real
    requires i <= |rows|
  {
    if i == 0 then capital else rows[i - 1].capitalRestant
  }

  /** The loop of generer_tableau_amortissement for `count` months at rate t
      with payment m, row i standing for the loop's state after i months. */
  function Lignes(capital: real, t: real, m: real, assurance: real, count: nat): (rows: seq<Ligne>)
    ensures |rows| == count
    ensures forall i :: 0 <= i < count ==> rows[i] == LigneAt(capital, t, m, assurance, i)
  {
    seq(count, i requires 0 <= i < count => LigneAt(capital, t, m, assurance, i))
  }

  /** One row per month, numbered from 1; interest and principal make up the
      payment; insurance and total paid are the same in every row. */
  lemma LignesShape(capital: real, t: real, m: real, assurance: real, count: nat, i: nat)
    requires i < count
    ensures var l := Lignes(capital, t, m, assurance, count)[i];
            && l.mois == i + 1
            && l.interets + l.principal == m
            && l.assurance == assurance
            && l.totalPaye == m + assurance
  {
  }

  /** Each row starts from the previous row's balance (the capital for the
      first) and lowers it by its principal, after charging interest on it: the
      loop's update. */
  lemma LignesFollowBalance(capital: real, t: real, m: real, assurance: real, count: nat, i: nat)
    requires i < count
    ensures var rows := Lignes(capital, t, m, assurance, count);
            && rows[i].interets == SoldeAvant(rows, capital, i) * t
            && rows[i].capitalRestant == SoldeAvant(rows, capital, i) - rows[i].principal
  {
    AmortizeStep(capital, t, m, i + 1);
  }

  /** generer_tableau_amortissement, on exact values: the rows of Lignes for
      the term's months and the level payment, which divides by zero for a
      zero rate or a zero term. The last row leaves nothing owed. */
  function Tableau(capital: real, tauxAnnuel: real, dureeAnnees: int, tauxAssurance: real): (r: Result<seq<Ligne>>)
    requires tauxAnnuel >= 0.0
    ensures r.Err? <==> tauxAnnuel == 0.0 || dureeAnnees == 0
    ensures r.Err? ==> r.error == DivisionByZero
    ensures r.Ok? ==> r.value == Lignes(capital, tauxAnnuel / 12.0, Payment(capital, tauxAnnuel / 12.0, dureeAnnees * 12).value,
                                        capital * tauxAssurance / 12.0, if dureeAnnees > 0 then dureeAnnees * 12 else 0)
    ensures r.Ok? && dureeAnnees > 0 ==> r.value[|r.value| - 1].capitalRestant == 0.0
  {
    var t := tauxAnnuel / 12.0;
    var n := dureeAnnees * 12;
    var m :- Payment(capital, t, n);
    var count := if n > 0 then n else 0;
    var rows := Lignes(capital, t, m, capital * tauxAssurance / 12.0, count);
    LevelPaymentClearsPositiveTerm(capital, t, n);
    Ok(rows)
  }

  /** Which column of the table a yearly sum adds up. */
  datatype Colonne = Interets | Assurance

  function Cell(l: Ligne, c: Colonne): real
  {
    match c
    case Interets => l.interets
    case Assurance => l.assurance
  }

  /** The sum of a column over rows i (included) to j (excluded). */
  function ColumnSum(rows: seq<Ligne>, c: Colonne, i: nat, j: nat): real
    requires i <= j <= |rows|
    decreases j - i
  {
    if i == j then 0.0 else Cell(rows[i], c) + ColumnSum(rows, c, i + 1, j)
  }

  /** The rows of year `annee` (from 1): months 12·(annee−1) to 12·annee, cut
      at the end of the table as a positional slice is. */
  function YearStart(rows: seq<Ligne>, annee: nat): nat
  {
    if annee == 0 then 0 else Min0(12 * (annee - 1), |rows|)
  }

  function YearEnd(rows: seq<Ligne>, annee: nat): (r: nat)
    ensures YearStart(rows, annee) <= r <= |rows|
  {
    Min0(12 * annee, |rows|)
  }

  function Min0(a: nat, b: nat): nat
  {
    if a <= b then a else b
  }

  function AnnualSum(rows: seq<Ligne>, c: Colonne, annee: nat): real
  {
    ColumnSum(rows, c, YearStart(rows, annee), YearEnd(rows, annee))
  }

  /** n monthly amounts of x, added one by one. */
  function Paid(x: real, n: nat): real
  {
    if n == 0 then 0.0 else x + Paid(x, n - 1)
  }

  /** The balances of a table: bal[k] is owed after k payments. Each row's
      interest is the payment less the fall in the balance over its month. */
  predicate PaysDown(m: real, bal: seq<real>, rows: seq<Ligne>)
  {
    && |bal| == |rows| + 1
    && forall k :: 0 <= k < |rows| ==> rows[k].interets == m - (bal[k] - bal[k + 1])
  }

  /** Every row carries the same premium a. */
  predicate ConstantPremium(a: real, rows: seq<Ligne>)
  {
    forall k :: 0 <= k < |rows| ==> rows[k].assurance == a
  }

  /** Summed over months i to j, the interest is the payments made less the
      principal they repaid, which is the fall in the balance. */
  lemma {:induction false} InterestTelescopes(m: real, bal: seq<real>, rows: seq<Ligne>, i: nat, j: nat)
    requires i <= j <= |rows|
    requires PaysDown(m, bal, rows)
    ensures ColumnSum(rows, Interets, i, j) == Paid(m, j - i) - (bal[i] - bal[j])
    decreases j - i
  {
    if i < j {
      InterestTelescopes(m, bal, rows, i + 1, j);
      assert rows[i].interets == m - (bal[i] - bal[i + 1]);
      assert Paid(m, j - i) == m + Paid(m, j - (i + 1));
    }
  }

  /** Summed over months i to j, a constant premium is j − i premiums. */
  lemma {:induction false} PremiumsAdd(a: real, rows: seq<Ligne>, i: nat, j: nat)
    requires i <= j <= |rows|
    requires ConstantPremium(a, rows)
    ensures ColumnSum(rows, Assurance, i, j) == Paid(a, j - i)
    decreases j - i
  {
    if i < j {
      PremiumsAdd(a, rows, i + 1, j);
      assert rows[i].assurance == a;
      assert Paid(a, j - i) == a + Paid(a, j - (i + 1));
    }
  }

  /** n equal amounts of x add up to n·x. */
  lemma {:induction false} PaidIsProduct(x: real, n: nat)
    ensures Paid(x, n) == (n as real) * x
  {
    if n > 0 {
      PaidIsProduct(x, n - 1);
    }
  }

  /** A year within the rows pays twelve payments' worth of interest less the
      principal repaid that year. */
  lemma YearInterest(m: real, bal: seq<real>, rows: seq<Ligne>, annee: nat)
    requires 1 <= annee && 12 * annee <= |rows|
    requires PaysDown(m, bal, rows)
    ensures AnnualSum(rows, Interets, annee) == 12.0 * m - (bal[12 * (annee - 1)] - bal[12 * annee])
  {
    var lo, hi := 12 * (annee - 1), 12 * annee;
    assert YearStart(rows, annee) == lo && YearEnd(rows, annee) == hi;
    InterestTelescopes(m, bal, rows, lo, hi);
    PaidIsProduct(m, 12);
  }

  /** A year within the rows pays twelve premiums. */
  lemma YearPremiums(a: real, rows: seq<Ligne>, annee: nat)
    requires 1 <= annee && 12 * annee <= |rows|
    requires ConstantPremium(a, rows)
    ensures AnnualSum(rows, Assurance, annee) == 12.0 * a
  {
    var lo, hi := 12 * (annee - 1), 12 * annee;
    assert YearStart(rows, annee) == lo && YearEnd(rows, annee) == hi;
    PremiumsAdd(a, rows, lo, hi);
    PaidIsProduct(a, 12);
  }

  /** The balances after 0 to n payments of m at monthly rate t. */
  function Soldes(capital: real, t: real, m: real, n: nat): (bal: seq<real>)
    ensures |bal| == n + 1
    ensures forall k :: 0 <= k <= n ==> bal[k] == Amortize(capital, t, m, k)
  {
    seq(n + 1, k requires 0 <= k <= n => Amortize(capital, t, m, k))
  }

  /** Charging the rate on the balance before each row is paying the balance
      down by the payment less that interest; every row carries the same
      premium. */
  lemma LignesCells(capital: real, t: real, m: real, a: real, count: nat)
    ensures PaysDown(m, Soldes(capital, t, m, count), Lignes(capital, t, m, a, count))
    ensures ConstantPremium(a, Lignes(capital, t, m, a, count))
  {
    var rows := Lignes(capital, t, m, a, count);
    var bal := Soldes(capital, t, m, count);
    forall k | 0 <= k < |rows|
      ensures rows[k].interets == m - (bal[k] - bal[k + 1]) && rows[k].assurance == a
    {
      LignesFollowBalance(capital, t, m, a, count, k);
      LignesShape(capital, t, m, a, count, k);
      assert rows[k].capitalRestant == bal[k + 1];
      assert SoldeAvant(rows, capital, k) == bal[k];
    }
  }

  /** What the sums need to know of a table of n rows with payment m and
      premium a: its balances, starting from the capital and, for a positive
      term, ending at 0, fall month by month by the payment less the interest;
      and the premium is the same in every row. */
  predicate IsTable(capital: real, m: real, a: real, n: nat, bal: seq<real>, rows: seq<Ligne>)
  {
    && |rows| == n
    && PaysDown(m, bal, rows)
    && ConstantPremium(a, rows)
    && bal[0] == capital
    && (n > 0 ==> bal[n] == 0.0)
  }

  /** Rows built by the loop have that shape when the payment clears the
      balance at the term. */
  lemma LignesIsTable(capital: real, t: real, m: real, a: real, n: nat)
    requires n > 0 ==> Amortize(capital, t, m, n) == 0.0
    ensures IsTable(capital, m, a, n, Soldes(capital, t, m, n), Lignes(capital, t, m, a, n))
  {
    LignesCells(capital, t, m, a, n);
  }

  /** The table of generer_tableau_amortissement has that shape, with the
      term's months, the level payment and the balances of the monthly rate. */
  lemma TableauIsTable(capital: real, tauxAnnuel: real, dureeAnnees: int, tauxAssurance: real)
    requires tauxAnnuel >= 0.0
    requires Tableau(capital, tauxAnnuel, dureeAnnees, tauxAssurance).Ok?
    ensures var t := tauxAnnuel / 12.0;
            var n := if dureeAnnees > 0 then dureeAnnees * 12 else 0;
            var m := Payment(capital, t, dureeAnnees * 12).value;
            IsTable(capital, m, capital * tauxAssurance / 12.0, n, Soldes(capital, t, m, n),
                    Tableau(capital, tauxAnnuel, dureeAnnees, tauxAssurance).value)
  {
    var t := tauxAnnuel / 12.0;
    var n := if dureeAnnees > 0 then dureeAnnees * 12 else 0;
    var m := Payment(capital, t, dureeAnnees * 12).value;
    var a := capital * tauxAssurance / 12.0;
    assert Tableau(capital, tauxAnnuel, dureeAnnees, tauxAssurance).value == Lignes(capital, t, m, a, n);
    if dureeAnnees > 0 {
      LevelPaymentClearsBalance(capital, t, n);
    }
    LignesIsTable(capital, t, m, a, n);
  }

  /** Over a table of d years, a year within the term pays twelve payments'
      worth of interest less the principal repaid that year, and twelve
      premiums; a year after the term adds up no row at all. Over a positive
      term the interest is what was paid beyond the capital. */
  lemma AnnualInterest(capital: real, m: real, a: real, d: nat, bal: seq<real>, rows: seq<Ligne>, annee: nat)
    requires IsTable(capital, m, a, 12 * d, bal, rows)
    ensures 1 <= annee <= d ==>
              && AnnualSum(rows, Interets, annee) == 12.0 * m - (bal[12 * (annee - 1)] - bal[12 * annee])
              && AnnualSum(rows, Assurance, annee) == 12.0 * a
    ensures annee > d ==> AnnualSum(rows, Interets, annee) == 0.0 && AnnualSum(rows, Assurance, annee) == 0.0
    ensures d > 0 ==> ColumnSum(rows, Interets, 0, |rows|) == Paid(m, |rows|) - capital
  {
    if 1 <= annee <= d {
      YearInterest(m, bal, rows, annee);
      YearPremiums(a, rows, annee);
    }
    if d > 0 {
      InterestTelescopes(m, bal, rows, 0, |rows|);
    }
  }

  /** mensualite_totale: the level payment plus the monthly insurance. */
  function MensualiteTotale(capital: real, tauxAnnuel: real, dureeAnnees: int, tauxAssurance: real): (r: Result<real>)
    requires tauxAnnuel >= 0.0
    ensures r.Err? <==> Tableau(capital, tauxAnnuel, dureeAnnees, tauxAssurance).Err?
    ensures r.Ok? && dureeAnnees > 0 ==>
              r.value == Tableau(capital, tauxAnnuel, dureeAnnees, tauxAssurance).value[0].totalPaye
  {
    var m :- Payment(capital, tauxAnnuel / 12.0, dureeAnnees * 12);
    Ok(m + capital * tauxAssurance / 12.0)
  }

  /** The depreciation durations, in years. */
  datatype Durees = Durees(batiment: int, travaux: int, mobilier: int, agence: int, dossier: int)

  /** A component's yearly share, 0 when its duration is not positive. */
  function ParAn(x: real, d: int): (r: real)
    ensures d <= 0 ==> r == 0.0
    ensures d > 0 ==> r * (d as real) == x
    ensures x >= 0.0 ==> 0.0 <= r <= x
  {
    if d > 0 then Share(x, d) else 0.0
  }

  /** The yearly depreciation: the building (80% of the price) with no guard on
      its duration, then works, furniture, agency and bank fees, each guarded. */
  function AmortissementTotal(a: Achat, d: Durees): (r: real)
    requires d.batiment != 0
    ensures a.prixBien >= 0.0 && a.travaux >= 0.0 && a.mobilier >= 0.0 && a.fraisAgence >= 0.0
            && a.fraisDossier >= 0.0 && d.batiment >= 1
            ==> 0.0 <= r <= 0.8 * a.prixBien + a.travaux + a.mobilier + a.fraisAgence + a.fraisDossier
  {
    var valeurBatiment := a.prixBien - 0.2 * a.prixBien;
    Share(valeurBatiment, d.batiment) + ParAn(a.travaux, d.travaux) + ParAn(a.mobilier, d.mobilier)
    + ParAn(a.fraisAgence, d.agence) + ParAn(a.fraisDossier, d.dossier)
  }

  /** The result after the depreciation that may be used: at most the positive
      part of the result. A loss is left as it is, a profit is lowered but never
      below 0, and depreciation beyond the profit is lost. */
  function ApresAmortissement(resultat: real, amort: real): (r: real)
    requires amort >= 0.0
    ensures resultat < 0.0 ==> r == resultat
    ensures resultat >= 0.0 ==> r == Max(0.0, resultat - amort)
  {
    var utilise := Min(amort, Max(resultat, 0.0));
    resultat - utilise
  }

  datatype Report = Report(resultat: real, deficit: real)

  /** The single carried deficit: a loss is added to it and taxed as 0; a
      profit first consumes it. For a non-negative deficit that is the positive
      parts of result − deficit and deficit − result, and the difference
      between result and deficit is what it was. */
  function Reporter(resultat: real, deficit: real): (r: Report)
    ensures r.resultat - r.deficit == resultat - deficit
    ensures deficit >= 0.0 ==> r.resultat == Max(0.0, resultat - deficit) && r.deficit == Max(0.0, deficit - resultat)
  {
    if resultat < 0.0 then Report(0.0, deficit + (-resultat))
    else if deficit > 0.0 then
      var utilisation := Min(deficit, resultat);
      Report(resultat - utilisation, deficit - utilisation)
    else Report(resultat, deficit)
  }

  /** The yearly inputs outside the loan: rent, property tax, non-recoverable
      charges, and the two rates as fractions. */
  datatype Parametres = Parametres(revenuAnnuel: real, tf: real, charges: real, tauxIr: real, tauxPs: real)

  /** The year's result after depreciation and before the deficit: rent less
      the year's interest and insurance as the table adds them up, the property
      tax and the charges. */
  function ResultatAvantReport(p: Parametres, rows: seq<Ligne>, amort: real, annee: nat): real
    requires amort >= 0.0
  {
    var resultat := p.revenuAnnuel - AnnualSum(rows, Interets, annee) - AnnualSum(rows, Assurance, annee)
                    - p.tf - p.charges;
    ApresAmortissement(resultat, amort)
  }

  datatype LigneRenta = LigneRenta(
    annee: int,
    resultatFiscal: real,
    impotIr: real,
    ps: real,
    cashflowMensuel: real,
    deficitReportable: real)

  /** One year of the yearly block: income tax and social levies fall on the
      result left after the deficit, so a loss year pays neither and grows the
      deficit by the loss; the monthly cash flow ignores depreciation and the
      deficit. */
  function Annee(p: Parametres, rows: seq<Ligne>, amort: real, mensualiteTotale: real, annee: nat, deficit: real): (y: LigneRenta)
    requires amort >= 0.0
    ensures y.annee == annee
    ensures y.resultatFiscal - y.deficitReportable == ResultatAvantReport(p, rows, amort, annee) - deficit
    ensures y.impotIr == y.resultatFiscal * p.tauxIr && y.ps == y.resultatFiscal * p.tauxPs
    ensures ResultatAvantReport(p, rows, amort, annee) < 0.0 ==>
              y.resultatFiscal == 0.0 && y.impotIr == 0.0 && y.ps == 0.0
              && y.deficitReportable == deficit - ResultatAvantReport(p, rows, amort, annee)
    ensures deficit >= 0.0 ==> y.resultatFiscal >= 0.0 && y.deficitReportable >= 0.0
    ensures y.cashflowMensuel * 12.0
            == p.revenuAnnuel - mensualiteTotale * 12.0 - p.tf - p.charges - y.impotIr - y.ps
  {
    var report := Reporter(ResultatAvantReport(p, rows, amort, annee), deficit);
    var impotIr := report.resultat * p.tauxIr;
    var ps := report.resultat * p.tauxPs;
    var cashflow := (p.revenuAnnuel - mensualiteTotale * 12.0 - p.tf - p.charges - impotIr - ps) / 12.0;
    LigneRenta(annee, report.resultat, impotIr, ps, cashflow, report.deficit)
  }

  /** Years `annee` to 10, the deficit threaded from one year to the next. */
  function RentaFrom(p: Parametres, rows: seq<Ligne>, amort: real, mensualiteTotale: real, annee: nat, deficit: real): (r: seq<LigneRenta>)
    requires amort >= 0.0
    requires 1 <= annee <= 11
    ensures |r| == 11 - annee
    ensures forall i :: 0 <= i < |r| ==> r[i].annee == annee + i
    ensures deficit >= 0.0 ==> forall i :: 0 <= i < |r| ==> r[i].resultatFiscal >= 0.0 && r[i].deficitReportable >= 0.0
    decreases 11 - annee
  {
    if annee == 11 then []
    else
      var y := Annee(p, rows, amort, mensualiteTotale, annee, deficit);
      [y] + RentaFrom(p, rows, amort, mensualiteTotale, annee + 1, y.deficitReportable)
  }

  /** The ten-year table, starting with no deficit. */
  function TableauRenta(p: Parametres, rows: seq<Ligne>, amort: real, mensualiteTotale: real): (r: seq<LigneRenta>)
    requires amort >= 0.0
    ensures |r| == 10
    ensures forall i :: 0 <= i < 10 ==> r[i].annee == i + 1 && r[i].resultatFiscal >= 0.0 && r[i].deficitReportable >= 0.0
  {
    RentaFrom(p, rows, amort, mensualiteTotale, 1, 0.0)
  }

  function Taxed(ys: seq<LigneRenta>): (r: seq<real>)
    ensures |r| == |ys|
    ensures forall i :: 0 <= i < |ys| ==> r[i] == ys[i].resultatFiscal
  {
    seq(|ys|, i requires 0 <= i < |ys| => ys[i].resultatFiscal)
  }

  /** The results after depreciation of years `annee` to 10. */
  function AvantReports(p: Parametres, rows: seq<Ligne>, amort: real, annee: nat): (r: seq<real>)
    requires amort >= 0.0
    requires 1 <= annee <= 11
    ensures |r| == 11 - annee
    ensures forall i :: 0 <= i < |r| ==> r[i] == ResultatAvantReport(p, rows, amort, annee + i)
  {
    seq(11 - annee, i requires 0 <= i < 11 - annee => ResultatAvantReport(p, rows, amort, annee + i))
  }

  /** The deficit left after the last year, or `deficit` when there is none. */
  function FinalDeficit(ys: seq<LigneRenta>, deficit: real): real
  {
    if |ys| == 0 then deficit else ys[|ys| - 1].deficitReportable
  }

  /** Nothing is lost nor invented by the deficit: over the years, the taxed
      results plus the deficit brought in are the results after depreciation
      plus the deficit still carried at the end. */
  lemma {:induction false} DeficitConserved(p: Parametres, rows: seq<Ligne>, amort: real, mensualiteTotale: real, annee: nat, deficit: real)
    requires amort >= 0.0
    requires 1 <= annee <= 11
    ensures var ys := RentaFrom(p, rows, amort, mensualiteTotale, annee, deficit);
            Sum(Taxed(ys)) + deficit == Sum(AvantReports(p, rows, amort, annee)) + FinalDeficit(ys, deficit)
    decreases 11 - annee
  {
    if annee < 11 {
      var ys := RentaFrom(p, rows, amort, mensualiteTotale, annee, deficit);
      var y := Annee(p, rows, amort, mensualiteTotale, annee, deficit);
      var rest := RentaFrom(p, rows, amort, mensualiteTotale, annee + 1, y.deficitReportable);
      DeficitConserved(p, rows, amort, mensualiteTotale, annee + 1, y.deficitReportable);
      assert ys == [y] + rest;
      YearsCons(y, rest, deficit);
      AvantReportsCons(p, rows, amort, annee);
    }
  }

  /** The first year's taxed result and the rest; the deficit left at the end
      is the rest's, started from the first year's. */
  lemma YearsCons(y: LigneRenta, rest: seq<LigneRenta>, deficit: real)
    ensures Sum(Taxed([y] + rest)) == y.resultatFiscal + Sum(Taxed(rest))
    ensures FinalDeficit([y] + rest, deficit) == FinalDeficit(rest, y.deficitReportable)
  {
    assert Taxed([y] + rest)[1..] == Taxed(rest);
  }

  lemma AvantReportsCons(p: Parametres, rows: seq<Ligne>, amort: real, annee: nat)
    requires amort >= 0.0
    requires 1 <= annee < 11
    ensures Sum(AvantReports(p, rows, amort, annee))
            == ResultatAvantReport(p, rows, amort, annee) + Sum(AvantReports(p, rows, amort, annee + 1))
  {
    assert AvantReports(p, rows, amort, annee)[1..] == AvantReports(p, rows, amort, annee + 1);
  }

  /** Over the ten years, starting from no deficit, the taxed results add up
      to the results after depreciation plus the deficit left unused. */
  lemma TenYearsConserved(p: Parametres, rows: seq<Ligne>, amort: real, mensualiteTotale: real)
    requires amort >= 0.0
    ensures Sum(Taxed(TableauRenta(p, rows, amort, mensualiteTotale)))
            == Sum(AvantReports(p, rows, amort, 1)) + TableauRenta(p, rows, amort, mensualiteTotale)[9].deficitReportable
  {
    DeficitConserved(p, rows, amort, mensualiteTotale, 1, 0.0);
  }

  /** The whole LMNP réel run: the amount borrowed, its table, the total
      payment, the depreciation and the ten years. A zero rate or a zero term
      fails on the payment. A negative term builds no rows, and a table built
      from no rows has no interest column to sum. */
  function Simulation(a: Achat, tauxAnnuel: real, dureeAnnees: int, tauxAssurance: real, d: Durees, p: Parametres)
    : (r: Result<seq<LigneRenta>>)
    requires tauxAnnuel >= 0.0
    requires d.batiment >= 1
    requires a.prixBien >= 0.0 && a.travaux >= 0.0 && a.mobilier >= 0.0 && a.fraisAgence >= 0.0 && a.fraisDossier >= 0.0
    ensures r.Err? <==> tauxAnnuel == 0.0 || dureeAnnees <= 0
    ensures r.Err? ==> r.error == if tauxAnnuel == 0.0 || dureeAnnees == 0 then DivisionByZero else MissingColumn
    ensures r.Ok? ==> |r.value| == 10
    ensures r.Ok? ==> r.value == TableauRenta(p, Tableau(MontantEmprunt(a), tauxAnnuel, dureeAnnees, tauxAssurance).value,
                                              AmortissementTotal(a, d),
                                              MensualiteTotale(MontantEmprunt(a), tauxAnnuel, dureeAnnees, tauxAssurance).value)
  {
    var montant := MontantEmprunt(a);
    var rows :- Tableau(montant, tauxAnnuel, dureeAnnees, tauxAssurance);
    if |rows| == 0 then Err(MissingColumn) else
    var mensualiteTotale := MensualiteTotale(montant, tauxAnnuel, dureeAnnees, tauxAssurance).value;
    Ok(TableauRenta(p, rows, AmortissementTotal(a, d), mensualiteTotale))
  }
}
