/** The loan side shared by the two "réel" simulators of Fusion.py (LMNPReel and
    SCIaIS): the financed principal, the monthly payment after an optional
    interest-capitalising deferral, and the month-by-month amortisation table. */
module FusionLoan {
  import opened Numeric
  import opened Errors
  import opened Annuity

  /** The acquisition costs both forms collect. Percentages are in percent. */
  datatype Acquisition = Acquisition(
    prixBien: real,
    partTerrain: real,
    apport: real,
    fraisDossier: real,
    fraisAgence: real,
    montantTravaux: real,
    fraisGarantie: real,
    fraisTiers: real,
    mobilier: real,
    fraisNotairePct: real)

  /** Loan terms: term in years, annual interest and insurance rates in percent,
      deferral in months. Rates are non-negative, as the forms enter them. */
  datatype LoanTerms = LoanTerms(
    dureeAnnees: nat,
    tauxInteret: real,
    tauxAssurance: real,
    differeMois: nat)

  /** One month of the amortisation table. */
  datatype ScheduleRow = ScheduleRow(
    mois: int,
    annee: int,
    interets: real,
    principal: real,
    assurance: real,
    capitalRestant: real)

  function FraisNotaire(a: Acquisition): real
  {
    a.prixBien * a.fraisNotairePct / 100.0
  }

  /** Every cost the loan finances: price, notary, agency, dossier, works,
      guarantee and third-party fees. Furniture is not among them. */
  function TotalAFinancer(a: Acquisition): real
  {
    a.prixBien + FraisNotaire(a) + a.fraisAgence + a.fraisDossier
    + a.montantTravaux + a.fraisGarantie + a.fraisTiers
  }

  /** The borrowed amount: what the down payment leaves of the financed costs,
      floored at 0. */
  function MontantEmprunt(a: Acquisition): (p: real)
    ensures p >= 0.0
    ensures p >= TotalAFinancer(a) - a.apport
    ensures p == 0.0 || p == TotalAFinancer(a) - a.apport
    ensures p > 0.0 <==> a.apport < TotalAFinancer(a)
  {
    Max(0.0, TotalAFinancer(a) - a.apport)
  }

  /** Furniture is bought out of pocket: its amount never changes the loan. */
  lemma FurnitureNotFinanced(a: Acquisition, m: real)
    ensures MontantEmprunt(a.(mobilier := m)) == MontantEmprunt(a)
  {
  }

  /** The depreciable building value: the price less the land share (in percent). */
  function ValeurBati(a: Acquisition): real
  {
    a.prixBien * (1.0 - a.partTerrain / 100.0)
  }

  function TauxMensuel(l: LoanTerms): real
  {
    l.tauxInteret / 100.0 / 12.0
  }

  /** The monthly insurance premium, on the original principal. */
  function AssuranceMensuelle(p: real, l: LoanTerms): real
  {
    p * (l.tauxAssurance / 100.0 / 12.0)
  }

  /** Months left to amortise after the deferral. */
  function MoisAmortissement(l: LoanTerms): int
  {
    l.dureeAnnees * 12 - l.differeMois
  }

  /** The level payment (insurance excluded) on the balance the deferral leaves,
      over the months that remain: what both simulators compute when the loan
      configuration is valid. */
  function LevelPaymentAfterDeferral(p: real, l: LoanTerms): real
    requires l.tauxInteret > 0.0
    requires MoisAmortissement(l) > 0
  {
    LevelPayment(Capitalise(p, TauxMensuel(l), l.differeMois), TauxMensuel(l), MoisAmortissement(l))
  }

  /** LMNPReel.mensualite_emprunt: capitalise the deferral, then the annuity on
      the capitalised balance plus the insurance premium. There is no check on
      the month count: 0 months divides by zero, a negative count yields a value. */
  function MensualiteLmnp(p: real, l: LoanTerms): (r: Result<real>)
    requires l.tauxInteret >= 0.0
    ensures r.Err? <==> l.tauxInteret == 0.0 || MoisAmortissement(l) == 0
    ensures r.Err? ==> r.error == DivisionByZero
    ensures r.Ok? && MoisAmortissement(l) > 0
            ==> r.value == LevelPaymentAfterDeferral(p, l) + AssuranceMensuelle(p, l)
  {
    var tm := TauxMensuel(l);
    var capitalDiffere := Capitalise(p, tm, l.differeMois);
    match Payment(capitalDiffere, tm, MoisAmortissement(l))
    case Err(e) => Err(e)
    case Ok(m) => Ok(m + AssuranceMensuelle(p, l))
  }

  /** SCIaIS.mensualite_emprunt: as above, but a month count of 0 or less is
      rejected as an invalid configuration before any division. */
  function MensualiteSci(p: real, l: LoanTerms): (r: Result<real>)
    requires l.tauxInteret >= 0.0
    ensures MoisAmortissement(l) <= 0 ==> r == Err(InvalidLoanTerm)
    ensures MoisAmortissement(l) > 0 && l.tauxInteret == 0.0 ==> r == Err(DivisionByZero)
    ensures MoisAmortissement(l) > 0 && l.tauxInteret > 0.0
            ==> r == Ok(LevelPaymentAfterDeferral(p, l) + AssuranceMensuelle(p, l))
  {
    var tm := TauxMensuel(l);
    var capital := Capitalise(p, tm, l.differeMois);
    var n := MoisAmortissement(l);
    if n <= 0 then Err(InvalidLoanTerm)
    else
      match Payment(capital, tm, n)
      case Err(e) => Err(e)
      case Ok(m) => Ok(m + AssuranceMensuelle(p, l))
  }

  /** One month of the table, entered with balance `solde`. A deferral month adds
      the interest to the balance and repays nothing; any later month applies the
      payment `m` and, should the balance go below 0, folds the overshoot back
      into the principal repaid. */
  function MonthRow(mois: nat, differe: nat, t: real, assurance: real, solde: real, m: real): (row: ScheduleRow)
    requires mois >= 1
    ensures row.mois == mois && row.annee == (mois - 1) / 12 + 1 && row.assurance == assurance
    ensures row.interets == solde * t
    ensures mois <= differe ==> row.principal == 0.0 && row.capitalRestant == solde + row.interets
    ensures mois > differe ==> row.capitalRestant >= 0.0 && row.capitalRestant == solde - row.principal
    ensures mois > differe && solde - (m - row.interets) >= 0.0
            ==> row.interets + row.principal == m
  {
    var interets := solde * t;
    var annee := (mois - 1) / 12 + 1;
    if mois <= differe then
      ScheduleRow(mois, annee, interets, 0.0, assurance, solde + interets)
    else
      var principal := m - interets;
      var reste := solde - principal;
      if reste < 0.0 then ScheduleRow(mois, annee, interets, principal + reste, assurance, 0.0)
      else ScheduleRow(mois, annee, interets, principal, assurance, reste)
  }

  /** The table from month `mois` to month `total`, entering `mois` with balance
      `solde`, each month's closing balance opening the next. */
  function Rows(mois: nat, total: nat, differe: nat, t: real, assurance: real, solde: real, m: real)
    : (rows: seq<ScheduleRow>)
    requires mois >= 1
    decreases total + 1 - mois
    ensures |rows| == if mois > total then 0 else total + 1 - mois
    ensures forall i :: 0 <= i < |rows| ==>
              rows[i].mois == mois + i && rows[i].annee == (mois + i - 1) / 12 + 1
    ensures forall i :: 0 <= i < |rows| ==> rows[i].assurance == assurance
    ensures forall i :: 0 <= i < |rows| && mois + i <= differe ==> rows[i].principal == 0.0
    ensures solde >= 0.0 && t >= 0.0 ==> forall i :: 0 <= i < |rows| ==> rows[i].capitalRestant >= 0.0
  {
    if mois > total then []
    else
      var row := MonthRow(mois, differe, t, assurance, solde, m);
      assert solde >= 0.0 && t >= 0.0 ==> row.capitalRestant >= 0.0;
      [row] + Rows(mois + 1, total, differe, t, assurance, row.capitalRestant, m)
  }

  /** Row i of the table is the month mois + i entered with the previous row's
      closing balance (with `solde` for the first row). */
  lemma {:induction false} RowsAt(mois: nat, total: nat, differe: nat, t: real, assurance: real, solde: real, m: real, i: nat)
    requires mois >= 1 && mois + i <= total
    decreases i
    ensures var rows := Rows(mois, total, differe, t, assurance, solde, m);
            rows[i] == MonthRow(mois + i, differe, t, assurance,
                                if i == 0 then solde else rows[i - 1].capitalRestant, m)
  {
    if i > 0 {
      var rows := Rows(mois, total, differe, t, assurance, solde, m);
      var tail := Rows(mois + 1, total, differe, t, assurance, rows[0].capitalRestant, m);
      assert rows == [rows[0]] + tail;
      RowsAt(mois + 1, total, differe, t, assurance, rows[0].capitalRestant, m, i - 1);
      assert (mois + 1) + (i - 1) == mois + i;
      if i >= 2 {
        assert rows[i - 1] == tail[i - 2];
      }
    }
  }

  /** tableau_amortissement / tableau_amortissement_emprunt: 12·T months; the
      payment (the simulator's `mensualite`, insurance included) is only asked
      for once a month lies past the deferral, so a deferral covering the whole
      term never fails. */
  function Tableau(p: real, l: LoanTerms, mensualite: Result<real>): (r: Result<seq<ScheduleRow>>)
    requires l.tauxInteret >= 0.0
    ensures r.Err? <==> l.differeMois < l.dureeAnnees * 12 && mensualite.Err?
    ensures r.Ok? ==> |r.value| == l.dureeAnnees * 12
    ensures r.Ok? ==> forall i :: 0 <= i < |r.value| ==>
              && r.value[i].mois == i + 1
              && r.value[i].annee == i / 12 + 1
              && 1 <= r.value[i].annee <= l.dureeAnnees
              && r.value[i].assurance == AssuranceMensuelle(p, l)
    ensures r.Ok? && p >= 0.0 ==> forall i :: 0 <= i < |r.value| ==> r.value[i].capitalRestant >= 0.0
  {
    var total := l.dureeAnnees * 12;
    var tm := TauxMensuel(l);
    var ins := AssuranceMensuelle(p, l);
    if l.differeMois >= total then
      Ok(Rows(1, total, l.differeMois, tm, ins, p, 0.0))
    else
      var m :- mensualite;
      Ok(Rows(1, total, l.differeMois, tm, ins, p, m - ins))
  }

  function TableauLmnp(p: real, l: LoanTerms): Result<seq<ScheduleRow>>
    requires l.tauxInteret >= 0.0
  {
    Tableau(p, l, MensualiteLmnp(p, l))
  }

  function TableauSci(p: real, l: LoanTerms): Result<seq<ScheduleRow>>
    requires l.tauxInteret >= 0.0
  {
    Tableau(p, l, MensualiteSci(p, l))
  }

  /** The balance once month k is over, in closed form: capitalised during the
      deferral, then amortised by the level payment m. */
  function BalanceAfter(p: real, t: real, differe: nat, m: real, k: nat): real
  {
    if k <= differe then Capitalise(p, t, k)
    else Amortize(Capitalise(p, t, differe), t, m, k - differe)
  }

  /** One month of the closed form: interest added during the deferral, the
      amortisation step afterwards. */
  lemma BalanceStep(p: real, t: real, differe: nat, m: real, k: nat)
    requires k >= 1
    ensures var b := BalanceAfter(p, t, differe, m, k - 1);
            BalanceAfter(p, t, differe, m, k) == if k <= differe then b + b * t else b - (m - b * t)
  {
    if k <= differe {
      CapitaliseStep(p, t, k);
    } else {
      var c := Capitalise(p, t, differe);
      var j := k - differe;
      assert BalanceAfter(p, t, differe, m, k) == Amortize(c, t, m, j);
      assert BalanceAfter(p, t, differe, m, k - 1) == Amortize(c, t, m, j - 1);
    }
  }

  /** A month entered with the closed-form balance of the month before closes
      on the closed-form balance, provided that one is non-negative: the clamp
      does not fire and, past the deferral, the payment splits exactly into
      interest and principal. */
  lemma MonthFollowsBalance(p: real, t: real, differe: nat, m: real, assurance: real, k: nat)
    requires k >= 1
    requires BalanceAfter(p, t, differe, m, k) >= 0.0
    ensures var row := MonthRow(k, differe, t, assurance, BalanceAfter(p, t, differe, m, k - 1), m);
            && row.capitalRestant == BalanceAfter(p, t, differe, m, k)
            && (k > differe ==> row.interets + row.principal == m)
  {
    BalanceStep(p, t, differe, m, k);
  }

  /** The table entered with principal p follows the closed-form balance month
      by month as long as that balance stays non-negative. */
  lemma {:induction false} RowFollowsBalance(total: nat, differe: nat, t: real, assurance: real, p: real, m: real, i: nat)
    requires i < total
    requires forall k :: 1 <= k <= total ==> BalanceAfter(p, t, differe, m, k) >= 0.0
    decreases i
    ensures var rows := Rows(1, total, differe, t, assurance, p, m);
            && rows[i].capitalRestant == BalanceAfter(p, t, differe, m, i + 1)
            && (i >= differe ==> rows[i].interets + rows[i].principal == m)
  {
    var rows := Rows(1, total, differe, t, assurance, p, m);
    RowsAt(1, total, differe, t, assurance, p, m, i);
    var prev := if i == 0 then p else rows[i - 1].capitalRestant;
    if i > 0 {
      RowFollowsBalance(total, differe, t, assurance, p, m, i - 1);
      assert prev == BalanceAfter(p, t, differe, m, (i + 1) - 1);
    } else {
      assert prev == BalanceAfter(p, t, differe, m, 0);
    }
    MonthFollowsBalance(p, t, differe, m, assurance, i + 1);
  }

  /** Under the level payment after the deferral, the closed-form balance of a
      non-negative principal stays non-negative for the whole term. */
  lemma LevelBalanceNonNegative(p: real, l: LoanTerms)
    requires l.tauxInteret > 0.0
    requires l.differeMois < l.dureeAnnees * 12
    requires p >= 0.0
    ensures forall k :: 0 <= k <= l.dureeAnnees * 12 ==>
              BalanceAfter(p, TauxMensuel(l), l.differeMois, LevelPaymentAfterDeferral(p, l), k) >= 0.0
  {
    var t := TauxMensuel(l);
    var d := l.differeMois;
    var n := MoisAmortissement(l);
    var m := LevelPaymentAfterDeferral(p, l);
    var start := Capitalise(p, t, d);
    CapitaliseNonNegative(p, t, d);
    forall k | 0 <= k <= l.dureeAnnees * 12
      ensures BalanceAfter(p, t, d, m, k) >= 0.0
    {
      if k <= d {
        CapitaliseNonNegative(p, t, k);
      } else {
        LevelPaymentBalanceNonNegative(start, t, n, k - d);
      }
    }
  }

  /** Past the deferral the table applies the payment less the premium that was
      added to it. */
  lemma TableauIsRows(p: real, l: LoanTerms, mensualite: Result<real>, m: real)
    requires l.tauxInteret >= 0.0
    requires l.differeMois < l.dureeAnnees * 12
    requires mensualite == Ok(m + AssuranceMensuelle(p, l))
    ensures Tableau(p, l, mensualite)
            == Ok(Rows(1, l.dureeAnnees * 12, l.differeMois, TauxMensuel(l), AssuranceMensuelle(p, l), p, m))
  {
    var ins := AssuranceMensuelle(p, l);
    assert (m + ins) - ins == m;
  }

  /** With a positive rate and a deferral shorter than the term, the table of a
      non-negative principal follows the closed-form balance month by month, and
      every month past the deferral splits the level payment into interest and
      principal. */
  lemma TableauFollowsBalance(p: real, l: LoanTerms)
    requires l.tauxInteret > 0.0
    requires l.differeMois < l.dureeAnnees * 12
    requires p >= 0.0
    ensures var mensualite := Ok(LevelPaymentAfterDeferral(p, l) + AssuranceMensuelle(p, l));
            Tableau(p, l, mensualite).Ok?
    ensures var rows := Tableau(p, l, Ok(LevelPaymentAfterDeferral(p, l) + AssuranceMensuelle(p, l))).value;
            forall i :: 0 <= i < |rows| ==>
              && rows[i].capitalRestant
                 == BalanceAfter(p, TauxMensuel(l), l.differeMois, LevelPaymentAfterDeferral(p, l), i + 1)
              && (i >= l.differeMois ==> rows[i].interets + rows[i].principal == LevelPaymentAfterDeferral(p, l))
  {
    var t := TauxMensuel(l);
    var total := l.dureeAnnees * 12;
    var d := l.differeMois;
    var m := LevelPaymentAfterDeferral(p, l);
    var ins := AssuranceMensuelle(p, l);
    LevelBalanceNonNegative(p, l);
    assert BalanceAfter(p, t, d, m, 0) == p;
    TableauIsRows(p, l, Ok(m + ins), m);
    var rows := Rows(1, total, d, t, ins, p, m);
    forall i | 0 <= i < |rows|
      ensures rows[i].capitalRestant == BalanceAfter(p, t, d, m, i + 1)
      ensures i >= d ==> rows[i].interets + rows[i].principal == m
    {
      RowFollowsBalance(total, d, t, ins, p, m, i);
    }
  }

  /** The table of a non-negative principal is at 0 after the last month. */
  lemma TableauClearsLoan(p: real, l: LoanTerms)
    requires l.tauxInteret > 0.0
    requires l.differeMois < l.dureeAnnees * 12
    requires p >= 0.0
    ensures var mensualite := Ok(LevelPaymentAfterDeferral(p, l) + AssuranceMensuelle(p, l));
            Tableau(p, l, mensualite).Ok?
    ensures var rows := Tableau(p, l, Ok(LevelPaymentAfterDeferral(p, l) + AssuranceMensuelle(p, l))).value;
            rows[|rows| - 1].capitalRestant == 0.0
  {
    var t := TauxMensuel(l);
    var total := l.dureeAnnees * 12;
    var d := l.differeMois;
    var m := LevelPaymentAfterDeferral(p, l);
    TableauFollowsBalance(p, l);
    LevelPaymentClearsBalance(Capitalise(p, t, d), t, MoisAmortissement(l));
    assert BalanceAfter(p, t, d, m, total) == 0.0;
    assert (total - 1) + 1 == total;
  }

  /** During the deferral the closed-form balance is the compounded principal. */
  lemma DeferralBalance(p: real, t: real, differe: nat, m: real, k: nat)
    requires k <= differe
    ensures BalanceAfter(p, t, differe, m, k) == p * Pow(1.0 + t, k)
  {
    CapitaliseIsCompound(p, t, k);
  }

  /** LMNPReel's table reaches 0 after the last month. */
  lemma TableauLmnpClearsLoan(p: real, l: LoanTerms)
    requires l.tauxInteret > 0.0
    requires l.differeMois < l.dureeAnnees * 12
    requires p >= 0.0
    ensures TableauLmnp(p, l).Ok?
    ensures TableauLmnp(p, l).value[l.dureeAnnees * 12 - 1].capitalRestant == 0.0
  {
    assert MensualiteLmnp(p, l) == Ok(LevelPaymentAfterDeferral(p, l) + AssuranceMensuelle(p, l));
    TableauClearsLoan(p, l);
  }

  /** SCIaIS's table reaches 0 after the last month. */
  lemma TableauSciClearsLoan(p: real, l: LoanTerms)
    requires l.tauxInteret > 0.0
    requires l.differeMois < l.dureeAnnees * 12
    requires p >= 0.0
    ensures TableauSci(p, l).Ok?
    ensures TableauSci(p, l).value[l.dureeAnnees * 12 - 1].capitalRestant == 0.0
  {
    TableauClearsLoan(p, l);
  }

  /** A column of the table, as pandas selects it. */
  datatype Column = Interets | Assurance

  function Cell(row: ScheduleRow, c: Column): real
  {
    match c
    case Interets => row.interets
    case Assurance => row.assurance
  }

  /** `groupby('Année')[c].sum().get(annee, 0)`: the column summed over the rows
      of one year, 0 for a year with no rows. */
  function YearTotal(rows: seq<ScheduleRow>, annee: int, c: Column): real
  {
    if |rows| == 0 then 0.0
    else (if rows[0].annee == annee then Cell(rows[0], c) else 0.0) + YearTotal(rows[1..], annee, c)
  }

  /** A year with no row, such as one past the end of the loan, totals 0. */
  lemma {:induction false} YearTotalOutsideTerm(rows: seq<ScheduleRow>, annee: int, c: Column)
    requires forall i :: 0 <= i < |rows| ==> rows[i].annee != annee
    ensures YearTotal(rows, annee, c) == 0.0
  {
    if |rows| > 0 {
      YearTotalOutsideTerm(rows[1..], annee, c);
    }
  }

  /** Totals over two consecutive stretches of rows add up. */
  lemma {:induction false} YearTotalAppend(a: seq<ScheduleRow>, b: seq<ScheduleRow>, annee: int, c: Column)
    ensures YearTotal(a + b, annee, c) == YearTotal(a, annee, c) + YearTotal(b, annee, c)
  {
    if |a| == 0 {
      assert a + b == b;
    } else {
      assert (a + b)[0] == a[0];
      assert (a + b)[1..] == a[1..] + b;
      YearTotalAppend(a[1..], b, annee, c);
    }
  }

  /** Rows that all belong to one year and carry the same amount in a column
      total that amount times their number for that year, and 0 for any other. */
  lemma {:induction false} YearTotalUniform(rows: seq<ScheduleRow>, y: int, c: Column, v: real, annee: int)
    requires forall i :: 0 <= i < |rows| ==> rows[i].annee == y && Cell(rows[i], c) == v
    ensures YearTotal(rows, annee, c) == if annee == y then (|rows| as real) * v else 0.0
  {
    if |rows| > 0 {
      YearTotalUniform(rows[1..], y, c, v, annee);
    }
  }

  /** Twelve rows a year, starting at year k + 1, with the same amount in a
      column: every year of the term totals twelve times that amount. */
  lemma {:induction false} YearTotalTwelveMonths(rows: seq<ScheduleRow>, years: nat, k: int, c: Column, v: real, annee: int)
    requires |rows| == 12 * years
    requires forall i :: 0 <= i < |rows| ==> rows[i].annee == i / 12 + 1 + k && Cell(rows[i], c) == v
    ensures YearTotal(rows, annee, c) == if k + 1 <= annee <= k + years then 12.0 * v else 0.0
  {
    if years > 0 {
      var head := rows[..12];
      var tail := rows[12..];
      assert rows == head + tail;
      YearTotalAppend(head, tail, annee, c);
      YearTotalUniform(head, k + 1, c, v, annee);
      forall i | 0 <= i < |tail|
        ensures tail[i].annee == i / 12 + 1 + (k + 1) && Cell(tail[i], c) == v
      {
        assert tail[i] == rows[i + 12];
        assert (i + 12) / 12 == i / 12 + 1;
      }
      YearTotalTwelveMonths(tail, years - 1, k + 1, c, v, annee);
    }
  }

  /** The yearly insurance total of a table: twelve premiums in each year of the
      term, none after it. */
  lemma TableauYearInsurance(p: real, l: LoanTerms, mensualite: Result<real>, annee: int)
    requires l.tauxInteret >= 0.0
    requires Tableau(p, l, mensualite).Ok?
    ensures YearTotal(Tableau(p, l, mensualite).value, annee, Assurance)
            == if 1 <= annee <= l.dureeAnnees then 12.0 * AssuranceMensuelle(p, l) else 0.0
  {
    var rows := Tableau(p, l, mensualite).value;
    YearTotalTwelveMonths(rows, l.dureeAnnees, 0, Assurance, AssuranceMensuelle(p, l), annee);
  }

  /** Two years' totals agree when the rows agree on year and on the column. */
  lemma {:induction false} YearTotalAgree(rows: seq<ScheduleRow>, rows2: seq<ScheduleRow>, annee: int, c: Column)
    requires |rows| == |rows2|
    requires forall i :: 0 <= i < |rows| ==> rows[i].annee == rows2[i].annee && Cell(rows[i], c) == Cell(rows2[i], c)
    ensures YearTotal(rows, annee, c) == YearTotal(rows2, annee, c)
  {
    if |rows| > 0 {
      YearTotalAgree(rows[1..], rows2[1..], annee, c);
    }
  }

  /** The insurance premium is only carried along: tables that differ in it
      alone agree on every month's year, interest, principal and balance. */
  lemma {:induction false} RowsIgnoreInsurance(mois: nat, total: nat, differe: nat, t: real, a1: real, a2: real, solde: real, m: real, i: nat)
    requires mois >= 1 && mois + i <= total
    decreases i
    ensures Rows(mois, total, differe, t, a1, solde, m)[i]
            == Rows(mois, total, differe, t, a2, solde, m)[i].(assurance := a1)
  {
    var row1 := MonthRow(mois, differe, t, a1, solde, m);
    var row2 := MonthRow(mois, differe, t, a2, solde, m);
    assert row1 == row2.(assurance := a1);
    var tail1 := Rows(mois + 1, total, differe, t, a1, row1.capitalRestant, m);
    var tail2 := Rows(mois + 1, total, differe, t, a2, row2.capitalRestant, m);
    assert Rows(mois, total, differe, t, a1, solde, m) == [row1] + tail1;
    assert Rows(mois, total, differe, t, a2, solde, m) == [row2] + tail2;
    if i > 0 {
      RowsIgnoreInsurance(mois + 1, total, differe, t, a1, a2, row1.capitalRestant, m, i - 1);
    }
  }

  /** The payment less its insurance premium does not depend on the insurance rate. */
  lemma MensualiteLmnpIgnoresInsurance(p: real, l: LoanTerms, rate: real)
    requires l.tauxInteret >= 0.0
    ensures var l2 := l.(tauxAssurance := rate);
            && MensualiteLmnp(p, l).Ok? == MensualiteLmnp(p, l2).Ok?
            && (MensualiteLmnp(p, l).Ok? ==>
                  MensualiteLmnp(p, l).value - AssuranceMensuelle(p, l)
                  == MensualiteLmnp(p, l2).value - AssuranceMensuelle(p, l2))
  {
  }

  /** The interest column of a table does not depend on the insurance rate:
      the premium is added to the level payment and taken back out before the
      amortisation step, so two loans that differ only in that rate have the
      same interest in every year. */
  lemma TableauInterestIgnoresInsurance(p: real, l: LoanTerms, rate: real, m: real)
    requires l.tauxInteret >= 0.0
    ensures var l2 := l.(tauxAssurance := rate);
            var t1 := Tableau(p, l, Ok(m + AssuranceMensuelle(p, l)));
            var t2 := Tableau(p, l2, Ok(m + AssuranceMensuelle(p, l2)));
            && t1.Ok? && t2.Ok?
            && forall annee :: YearTotal(t1.value, annee, Interets) == YearTotal(t2.value, annee, Interets)
  {
    var l2 := l.(tauxAssurance := rate);
    var total := l.dureeAnnees * 12;
    var mm := if l.differeMois >= total then 0.0 else m;
    TableauRowsPaying(p, l, m);
    TableauRowsPaying(p, l2, m);
    RowsInterestAgree(total, l.differeMois, TauxMensuel(l), AssuranceMensuelle(p, l), AssuranceMensuelle(p, l2), p, mm);
  }

  /** Whatever the deferral, a table given a payment of m plus the premium is
      the run of rows that amortises with m, or with 0 when no month is left to
      repay in. */
  lemma TableauRowsPaying(p: real, l: LoanTerms, m: real)
    requires l.tauxInteret >= 0.0
    ensures var total := l.dureeAnnees * 12;
            Tableau(p, l, Ok(m + AssuranceMensuelle(p, l)))
            == Ok(Rows(1, total, l.differeMois, TauxMensuel(l), AssuranceMensuelle(p, l), p,
                       if l.differeMois >= total then 0.0 else m))
  {
    if l.differeMois < l.dureeAnnees * 12 {
      TableauIsRows(p, l, Ok(m + AssuranceMensuelle(p, l)), m);
    }
  }

  /** Runs of rows that differ only in the premium have the same yearly
      interest totals. */
  lemma RowsInterestAgree(total: nat, differe: nat, t: real, a1: real, a2: real, p: real, m: real)
    ensures forall annee :: YearTotal(Rows(1, total, differe, t, a1, p, m), annee, Interets)
                            == YearTotal(Rows(1, total, differe, t, a2, p, m), annee, Interets)
  {
    var r1 := Rows(1, total, differe, t, a1, p, m);
    var r2 := Rows(1, total, differe, t, a2, p, m);
    forall i | 0 <= i < |r1|
      ensures r1[i] == r2[i].(assurance := a1)
    {
      RowsIgnoreInsurance(1, total, differe, t, a1, a2, p, m, i);
    }
    forall annee
      ensures YearTotal(r1, annee, Interets) == YearTotal(r2, annee, Interets)
    {
      YearTotalAgree(r1, r2, annee, Interets);
    }
  }
}
