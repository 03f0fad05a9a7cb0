/** Fusion.py, MicroBIC: furnished rental under the flat-allowance regime. Half
    the rent is taxable, at the household's marginal rate and at the social
    levies' rate; charges are paid but not deducted. */
module FusionMicro {
  import opened Numeric

  const DefaultCsgCrds: real := 17.2
  const DefaultAbattement: real := 0.5
  const DefaultPlafond: real := 77700.0

  datatype MicroBic = MicroBic(
    loyerMensuelHc: real,
    vacanceLocativeMois: int,
    chargesCopro: real,
    taxeFonciere: real,
    fraisGestion: real,
    tmi: real,
    csgCrds: real,
    abattement: real,
    plafond: real)

  /** A form filled in: the levy rate, the allowance and the ceiling take the
      record's defaults. */
  function FromForm(loyer: real, vacance: int, copro: real, tf: real, gestion: real, tmi: real): (m: MicroBic)
    ensures m.csgCrds == 17.2 && m.abattement == 0.5 && m.plafond == 77700.0
  {
    MicroBic(loyer, vacance, copro, tf, gestion, tmi, DefaultCsgCrds, DefaultAbattement, DefaultPlafond)
  }

  function RevenusAnnuels(m: MicroBic): real
  {
    m.loyerMensuelHc * ((12 - m.vacanceLocativeMois) as real)
  }

  function RevenuImposable(m: MicroBic): real
  {
    RevenusAnnuels(m) * (1.0 - m.abattement)
  }

  function ImpotIr(m: MicroBic): real
  {
    RevenuImposable(m) * (m.tmi / 100.0)
  }

  function PrelevementsSociaux(m: MicroBic): real
  {
    RevenuImposable(m) * (m.csgCrds / 100.0)
  }

  /** What the landlord pays and cannot pass on: property tax, management fees
      and the fifth of the co-ownership charges the tenant does not reimburse. */
  function ChargesNonRecup(m: MicroBic): real
  {
    m.taxeFonciere + m.fraisGestion + m.chargesCopro * 0.2
  }

  function CashflowAnnuel(m: MicroBic): real
  {
    RevenusAnnuels(m) - ChargesNonRecup(m) - ImpotIr(m) - PrelevementsSociaux(m)
  }

  /** The total levy is the taxable share of the rent at the two rates
      combined, and the cash flow is the rent less that levy and the charges. */
  lemma CashflowDecomposes(m: MicroBic)
    ensures ImpotIr(m) + PrelevementsSociaux(m)
            == RevenusAnnuels(m) * (1.0 - m.abattement) * ((m.tmi + m.csgCrds) / 100.0)
    ensures CashflowAnnuel(m)
            == RevenusAnnuels(m) * (1.0 - (1.0 - m.abattement) * ((m.tmi + m.csgCrds) / 100.0)) - ChargesNonRecup(m)
  {
    var b := RevenuImposable(m);
    assert ImpotIr(m) + PrelevementsSociaux(m) == b * ((m.tmi + m.csgCrds) / 100.0);
  }

  /** With rates and allowance in their ranges, more rent never lowers the
      levies, and the levies never take more than the rent. */
  lemma LeviesMonotone(m: MicroBic, loyer: real)
    requires 0.0 <= m.abattement <= 1.0 && m.tmi >= 0.0 && m.csgCrds >= 0.0
    requires m.tmi + m.csgCrds <= 100.0
    requires 12 - m.vacanceLocativeMois >= 0
    requires m.loyerMensuelHc <= loyer
    ensures ImpotIr(m) + PrelevementsSociaux(m)
            <= ImpotIr(m.(loyerMensuelHc := loyer)) + PrelevementsSociaux(m.(loyerMensuelHc := loyer))
    ensures m.loyerMensuelHc >= 0.0 ==> 0.0 <= ImpotIr(m) + PrelevementsSociaux(m) <= RevenusAnnuels(m)
  {
    CashflowDecomposes(m);
    CashflowDecomposes(m.(loyerMensuelHc := loyer));
    var months := (12 - m.vacanceLocativeMois) as real;
    var k := (1.0 - m.abattement) * ((m.tmi + m.csgCrds) / 100.0);
    UnitProduct(1.0 - m.abattement, (m.tmi + m.csgCrds) / 100.0);
    MulNonNegative(loyer - m.loyerMensuelHc, months);
    assert RevenusAnnuels(m.(loyerMensuelHc := loyer)) - RevenusAnnuels(m) == (loyer - m.loyerMensuelHc) * months;
    MulNonNegative((loyer - m.loyerMensuelHc) * months, k);
    if m.loyerMensuelHc >= 0.0 {
      MulNonNegative(m.loyerMensuelHc, months);
      MulNonNegative(RevenusAnnuels(m), k);
      MulNonNegative(RevenusAnnuels(m), 1.0 - k);
    }
  }

  lemma UnitProduct(a: real, b: real)
    requires 0.0 <= a <= 1.0 && 0.0 <= b <= 1.0
    ensures 0.0 <= a * b <= 1.0
  {
    MulNonNegative(a, b);
    MulNonNegative(1.0 - a, b);
  }

  /** The regime's ceiling: above it the real regime is mandatory, and the form
      only warns. */
  predicate AbovePlafond(m: MicroBic)
  {
    RevenusAnnuels(m) > m.plafond
  }

  /** One displayed row. */
  datatype MicroYear = MicroYear(
    annee: int,
    revenusBruts: real,
    abattement: real,
    revenuImposable: real,
    ir: real,
    prelevementsSociaux: real,
    chargesNonRecup: real,
    cashflowAnnuel: real,
    cashflowMensuel: real)

  /** MicroBIC.resultat_fiscal_annuel: ten rows of the same amounts, nothing
      carried from one year to the next. Within a row, the allowance and the
      taxable income split the rent, the two levies fall on the taxable income
      alone, and the cash flow is what rent leaves after charges and levies. */
  function ResultatFiscalAnnuel(m: MicroBic): (r: seq<MicroYear>)
    ensures |r| == 10
    ensures forall i :: 0 <= i < 10 ==> r[i].annee == i + 1 && r[i] == r[0].(annee := i + 1)
    ensures r[0].revenusBruts == r[0].abattement + r[0].revenuImposable
    ensures r[0].ir + r[0].prelevementsSociaux == r[0].revenuImposable * ((m.tmi + m.csgCrds) / 100.0)
    ensures r[0].cashflowAnnuel
            == r[0].revenusBruts - r[0].chargesNonRecup - r[0].ir - r[0].prelevementsSociaux
    ensures r[0].cashflowMensuel * 12.0 == r[0].cashflowAnnuel
  {
    var row := MicroYear(1, RevenusAnnuels(m), RevenusAnnuels(m) * m.abattement,
                         RevenuImposable(m), ImpotIr(m), PrelevementsSociaux(m),
                         ChargesNonRecup(m), CashflowAnnuel(m), CashflowAnnuel(m) / 12.0);
    seq(10, i requires 0 <= i < 10 => row.(annee := i + 1))
  }

  /** The form's defaults — 850 a month, one month vacant, 1 000 of
      co-ownership charges, 900 of property tax, no management fee, a 30%
      marginal rate — give 9 350 of rent, 4 675 taxable, 1 402.50 of income tax
      and 804.10 of social levies (2 206.60 in every year), and a yearly cash
      flow of 6 043.40, well under the ceiling. */
  lemma FormDefaults()
    ensures var m := FromForm(850.0, 1, 1000.0, 900.0, 0.0, 30.0);
            && RevenusAnnuels(m) == 9350.0
            && RevenuImposable(m) == 4675.0
            && ImpotIr(m) == 1402.5
            && PrelevementsSociaux(m) == 804.1
            && CashflowAnnuel(m) == 6043.4
            && ResultatFiscalAnnuel(m)[9].ir + ResultatFiscalAnnuel(m)[9].prelevementsSociaux == 2206.6
            && !AbovePlafond(m)
  {
  }
}
