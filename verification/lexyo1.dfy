/** Lexyo1.py: the one-shot simulation behind the web endpoint. One year of
    rent, charges and a flat loan cost; the tax depends on the regime, with an
    income-tax rate looked up in the household brackets. */
module Lexyo1 {
  import opened Numeric
  import opened Errors
  import opened CorporateTax
  import opened Regimes

  /** One bracket of the income-tax scale: a quotient from `bas` to `haut`, both
      included, is taxed at `taux`. `haut` is None for the open top bracket. */
  datatype Tranche = Tranche(bas: real, haut: Option<real>, taux: real)

  const Tranches: seq<Tranche> := [
    Tranche(0.0, Some(11294.0), 0.0),
    Tranche(11295.0, Some(28797.0), 0.11),
    Tranche(28798.0, Some(82341.0), 0.30),
    Tranche(82342.0, Some(177106.0), 0.41),
    Tranche(177107.0, None, 0.45)
  ]

  /** The rate returned when the quotient falls in no bracket. */
  const TauxParDefaut: real := 0.30

  const PrelevementsSociaux: real := 0.172

  predicate InTranche(b: Tranche, q: real)
  {
    b.bas <= q && (b.haut.None? || q <= b.haut.value)
  }

  /** The loop over the scale: the rate of the first bracket holding q. */
  function Lookup(scale: seq<Tranche>, q: real): (r: real)
    ensures (exists i :: 0 <= i < |scale| && InTranche(scale[i], q))
            || r == TauxParDefaut
    ensures forall i :: 0 <= i < |scale| && InTranche(scale[i], q)
              && (forall j :: 0 <= j < i ==> !InTranche(scale[j], q))
              ==> r == scale[i].taux
  {
    if |scale| == 0 then TauxParDefaut
    else if InTranche(scale[0], q) then scale[0].taux
    else
      var r := Lookup(scale[1..], q);
      assert forall i :: 1 <= i < |scale| ==> scale[i] == scale[1..][i - 1];
      r
  }

  /** calcul_tmi: the marginal rate of the household quotient revenu/parts.
      The brackets are closed on whole euros, so a quotient between two of them
      (11 294.5, say) or below 0 falls through to 30%. */
  function Tmi(revenu: real, parts: real): (r: Result<real>)
    ensures r.Err? <==> parts == 0.0
    ensures r.Err? ==> r.error == DivisionByZero
    ensures r.Ok? ==> var q := revenu / parts;
              && (0.0 <= q <= 11294.0 ==> r.value == 0.0)
              && (11295.0 <= q <= 28797.0 ==> r.value == 0.11)
              && (28798.0 <= q <= 82341.0 ==> r.value == 0.30)
              && (82342.0 <= q <= 177106.0 ==> r.value == 0.41)
              && (177107.0 <= q ==> r.value == 0.45)
              && ((q < 0.0 || 11294.0 < q < 11295.0 || 28797.0 < q < 28798.0
                   || 82341.0 < q < 82342.0 || 177106.0 < q < 177107.0) ==> r.value == 0.30)
  {
    if parts == 0.0 then Err(DivisionByZero)
    else
      var q := revenu / parts;
      assert InTranche(Tranches[0], q) <==> 0.0 <= q <= 11294.0;
      assert InTranche(Tranches[1], q) <==> 11295.0 <= q <= 28797.0;
      assert InTranche(Tranches[2], q) <==> 28798.0 <= q <= 82341.0;
      assert InTranche(Tranches[3], q) <==> 82342.0 <= q <= 177106.0;
      assert InTranche(Tranches[4], q) <==> 177107.0 <= q;
      Ok(Lookup(Tranches, q))
  }

  /** Whatever the quotient, the rate is one of the scale's five rates or the
      30% fallback, so it lies between 0 and 45%. */
  lemma TmiRange(revenu: real, parts: real)
    requires parts != 0.0
    ensures 0.0 <= Tmi(revenu, parts).value <= 0.45
  {
  }

  /** Two households with the same quotient pay the same rate: only the ratio
      of income to parts matters. */
  lemma TmiDependsOnQuotient(revenu: real, parts: real, revenu2: real, parts2: real)
    requires parts != 0.0 && parts2 != 0.0
    requires revenu / parts == revenu2 / parts2
    ensures Tmi(revenu, parts) == Tmi(revenu2, parts2)
  {
  }

  /** The inputs of a simulation, as the endpoint receives them. A depreciation
      duration may be absent. */
  datatype SimulationInputs = SimulationInputs(
    regime: Regime,
    prixBien: real,
    montantApport: real,
    fraisNotaire: real,
    fraisAgence: real,
    travaux: real,
    mobilier: real,
    fraisDossier: real,
    caution: real,
    fraisTiers: real,
    chargesCopro: real,
    assurancePno: real,
    assuranceGli: real,
    taxeFonciere: real,
    fraisEntretien: real,
    fraisGestion: real,
    fraisBancaire: real,
    comptabilite: real,
    loyerMensuelHc: real,
    loyerMensuelCc: real,
    amortissementBienDuree: Option<int>,
    amortissementNotaireDuree: Option<int>,
    amortissementMobilierDuree: Option<int>,
    amortissementTravauxDuree: Option<int>,
    tauxInteret: real,
    tauxAssurance: real,
    revenuAnnuelGlobal: real,
    nombreParts: real)

  /** calcul_impot_ir, which reads the household's global income and number of
      parts from the inputs: the rate is looked up on the household's global income
      plus the rental income before the sign is checked, so a zero number of
      parts fails even for a loss; a loss pays nothing; otherwise the rental
      income pays the marginal rate plus the social levies. */
  function ImpotIr(revenuFoncierNet: real, revenuGlobal: real, parts: real): (r: Result<real>)
    ensures r.Err? <==> parts == 0.0
    ensures r.Err? ==> r.error == DivisionByZero
    ensures r.Ok? && revenuFoncierNet < 0.0 ==> r.value == 0.0
    ensures r.Ok? && revenuFoncierNet >= 0.0 ==>
              r.value == revenuFoncierNet * (Tmi(revenuGlobal + revenuFoncierNet, parts).value + 0.172)
    ensures r.Ok? ==> 0.0 <= r.value <= Max(0.0, revenuFoncierNet) * 0.622
  {
    var tmi :- Tmi(revenuGlobal + revenuFoncierNet, parts);
    if revenuFoncierNet < 0.0 then Ok(0.0)
    else
      TmiRange(revenuGlobal + revenuFoncierNet, parts);
      MulNonNegative(revenuFoncierNet, tmi + PrelevementsSociaux);
      MulNonNegative(revenuFoncierNet, 0.45 - tmi);
      Ok(revenuFoncierNet * (tmi + PrelevementsSociaux))
  }

  /** calcul_impot_is is the two-tier corporate tax, with no guard of its own
      for a loss. */
  function ImpotIs(benefice: real): (r: real)
    ensures benefice >= 0.0 ==> 0.15 * benefice <= r <= 0.25 * benefice
    ensures r < 0.0 <==> benefice < 0.0
  {
    if benefice <= 42500.0 then benefice * 0.15
    else 42500.0 * 0.15 + (benefice - 42500.0) * 0.25
  }

  /** The endpoint's corporate tax and the one of the company simulators are
      the same function of the profit. */
  lemma ImpotIsIsTwoTier(benefice: real)
    ensures ImpotIs(benefice) == TwoTier(benefice)
  {
  }

  /** calcul_amortissement: the price over the duration when one is given and
      positive, 0 otherwise. */
  function Amortissement(prix: real, duree: Option<int>): (r: real)
    ensures duree.None? || duree.value <= 0 ==> r == 0.0
    ensures duree.Some? && duree.value > 0 ==> r * (duree.value as real) == prix
    ensures prix >= 0.0 ==> 0.0 <= r <= prix
  {
    if duree.Some? && duree.value > 0 then Share(prix, duree.value) else 0.0
  }

  /** The five regimes whose depreciation the simulation computes. */
  predicate Amortissable(r: Regime)
  {
    r in {LmnpReel, LmpReel, SciIs, SarlDeFamille, HoldingIs}
  }

  /** Building (80% of the price), notary fees, furniture and works, each over
      its own duration, for the five depreciating regimes; 0 for the others. */
  function TotalAmortissements(inputs: SimulationInputs): (r: real)
    ensures !Amortissable(inputs.regime) ==> r == 0.0
    ensures inputs.prixBien >= 0.0 && inputs.fraisNotaire >= 0.0
            && inputs.mobilier >= 0.0 && inputs.travaux >= 0.0
            ==> 0.0 <= r <= 0.8 * inputs.prixBien + inputs.fraisNotaire + inputs.mobilier + inputs.travaux
  {
    if Amortissable(inputs.regime) then
      Amortissement(inputs.prixBien * 0.8, inputs.amortissementBienDuree)
      + Amortissement(inputs.fraisNotaire, inputs.amortissementNotaireDuree)
      + Amortissement(inputs.mobilier, inputs.amortissementMobilierDuree)
      + Amortissement(inputs.travaux, inputs.amortissementTravauxDuree)
    else 0.0
  }

  function LoyerAnnuel(inputs: SimulationInputs): real
  {
    inputs.loyerMensuelHc * 12.0
  }

  function Charges(inputs: SimulationInputs): real
  {
    inputs.chargesCopro + inputs.assurancePno + inputs.assuranceGli + inputs.taxeFonciere
    + inputs.fraisEntretien + inputs.fraisGestion + inputs.fraisBancaire + inputs.comptabilite
  }

  /** Rent less charges, loan interest and borrower insurance. Both loan costs
      are the borrowed amount (price less down payment) times the rate as
      entered, with no division by 100. */
  function RevenuNet(inputs: SimulationInputs): real
  {
    var emprunt := inputs.prixBien - inputs.montantApport;
    LoyerAnnuel(inputs) - Charges(inputs) - emprunt * inputs.tauxInteret - emprunt * inputs.tauxAssurance
  }

  /** The deficit a "foncier" regime may set against other income: at most 10 700. */
  const PlafondDeficitFoncier: real := -10700.0

  datatype Simulation = Simulation(impot: real, cashflow: real)

  /** simulate: the tax of the chosen regime and the cash flow it leaves. */
  function Simulate(inputs: SimulationInputs): (r: Result<Simulation>)
    ensures r.Err? <==> inputs.regime == Other
                        || (inputs.nombreParts == 0.0
                            && (inputs.regime in {MicroBic, MicroFoncier, LocationNueReel, SciIr}
                                || (inputs.regime in {LmnpReel, LmpReel, SarlDeFamille}
                                    && RevenuNet(inputs) - TotalAmortissements(inputs) >= 0.0)))
    ensures inputs.regime == Other ==> r == Err(UnknownRegime)
    ensures r.Err? && inputs.regime != Other ==> r.error == DivisionByZero
    ensures r.Ok? ==> r.value.cashflow == RevenuNet(inputs) - r.value.impot
    ensures r.Ok? ==> r.value.impot >= 0.0
  {
    RegimeBranch(inputs.regime, RevenuNet(inputs), TotalAmortissements(inputs), LoyerAnnuel(inputs),
                 inputs.revenuAnnuelGlobal, inputs.nombreParts)
  }

  /** The regime branch of simulate, on the figures it reads: the net income,
      the depreciation, the yearly rent and the household's income and parts.
      The micro regimes tax a share of the rent; the BIC real regimes tax the
      net income less depreciation, and a loss pays nothing; the "foncier"
      regimes tax the net income floored at the deficit cap; the company
      regimes pay the corporate tax on a profit. */
  function RegimeBranch(regime: Regime, revenuNet: real, amort: real, loyer: real, revenuGlobal: real, parts: real)
    : (r: Result<Simulation>)
    ensures r.Err? <==> regime == Other
                        || (parts == 0.0
                            && (regime in {MicroBic, MicroFoncier, LocationNueReel, SciIr}
                                || (regime in {LmnpReel, LmpReel, SarlDeFamille} && revenuNet - amort >= 0.0)))
    ensures regime == Other ==> r == Err(UnknownRegime)
    ensures r.Err? && regime != Other ==> r.error == DivisionByZero
    ensures r.Ok? ==> r.value.cashflow == revenuNet - r.value.impot
    ensures r.Ok? ==> r.value.impot >= 0.0
  {
    match regime
    case MicroBic =>
      var impot :- ImpotIr(loyer * 0.5, revenuGlobal, parts);
      Ok(Simulation(impot, revenuNet - impot))
    case MicroFoncier =>
      var impot :- ImpotIr(loyer * 0.7, revenuGlobal, parts);
      Ok(Simulation(impot, revenuNet - impot))
    case LmnpReel | LmpReel | SarlDeFamille =>
      var revenuNetBic := revenuNet - amort;
      if revenuNetBic < 0.0 then Ok(Simulation(0.0, revenuNet))
      else
        var impot :- ImpotIr(revenuNetBic, revenuGlobal, parts);
        Ok(Simulation(impot, revenuNet - impot))
    case LocationNueReel | SciIr =>
      var revenuFoncier := if revenuNet < PlafondDeficitFoncier then PlafondDeficitFoncier else revenuNet;
      var impot :- ImpotIr(revenuFoncier, revenuGlobal, parts);
      Ok(Simulation(impot, revenuNet - impot))
    case SciIs | HoldingIs =>
      var benefice := revenuNet - amort;
      var impot := if benefice < 0.0 then 0.0 else ImpotIs(benefice);
      Ok(Simulation(impot, revenuNet - impot))
    case Other => Err(UnknownRegime)
  }

  /** Micro BIC taxes half the yearly rent and Micro foncier 70% of it, however
      high the charges, the loan costs or the depreciation. */
  lemma MicroBases(inputs: SimulationInputs)
    requires inputs.nombreParts != 0.0
    ensures inputs.regime == MicroBic ==>
              Simulate(inputs).value.impot == ImpotIr(LoyerAnnuel(inputs) * 0.5, inputs.revenuAnnuelGlobal, inputs.nombreParts).value
    ensures inputs.regime == MicroFoncier ==>
              Simulate(inputs).value.impot == ImpotIr(LoyerAnnuel(inputs) * 0.7, inputs.revenuAnnuelGlobal, inputs.nombreParts).value
  {
  }

  /** LMNP réel, LMP réel and SARL de famille tax the net income less the
      depreciation at the personal rate. A loss after depreciation pays nothing
      and succeeds even with no tax parts, since the rate is never looked up. */
  lemma BicReelTax(inputs: SimulationInputs)
    requires inputs.regime == LmnpReel || inputs.regime == LmpReel || inputs.regime == SarlDeFamille
    ensures RevenuNet(inputs) - TotalAmortissements(inputs) < 0.0 ==>
              Simulate(inputs) == Ok(Simulation(0.0, RevenuNet(inputs)))
    ensures RevenuNet(inputs) - TotalAmortissements(inputs) >= 0.0 && inputs.nombreParts != 0.0 ==>
              && Simulate(inputs).Ok?
              && Simulate(inputs).value.impot
                 == ImpotIr(RevenuNet(inputs) - TotalAmortissements(inputs), inputs.revenuAnnuelGlobal, inputs.nombreParts).value
  {
  }

  /** Under Location nue réel and SCI à l'IR a loss pays no tax, and the deficit
      is capped at 10 700 before the rate is looked up. */
  lemma FoncierLossUntaxed(inputs: SimulationInputs)
    requires inputs.regime == LocationNueReel || inputs.regime == SciIr
    requires inputs.nombreParts != 0.0
    ensures RevenuNet(inputs) < 0.0 ==> Simulate(inputs).value.impot == 0.0
    ensures RevenuNet(inputs) >= 0.0 ==>
              Simulate(inputs).value.impot == ImpotIr(RevenuNet(inputs), inputs.revenuAnnuelGlobal, inputs.nombreParts).value
  {
  }

  /** The company regimes pay the two-tier tax on the profit after depreciation,
      nothing on a loss, and never fail. */
  lemma CompanyTax(inputs: SimulationInputs)
    requires inputs.regime == SciIs || inputs.regime == HoldingIs
    ensures Simulate(inputs).Ok?
    ensures Simulate(inputs).value.impot
            == TwoTier(Max(0.0, RevenuNet(inputs) - TotalAmortissements(inputs)))
  {
  }

  /** Depreciation only changes the tax of the five depreciating regimes: for
      any other regime, two inputs that differ only in their durations give the
      same simulation. */
  lemma DepreciationOnlyForFive(inputs: SimulationInputs, b: Option<int>, n: Option<int>, m: Option<int>, t: Option<int>)
    requires !Amortissable(inputs.regime)
    ensures var other := inputs.(amortissementBienDuree := b, amortissementNotaireDuree := n,
                                 amortissementMobilierDuree := m, amortissementTravauxDuree := t);
            Simulate(other) == Simulate(inputs)
  {
    var other := inputs.(amortissementBienDuree := b, amortissementNotaireDuree := n,
                         amortissementMobilierDuree := m, amortissementTravauxDuree := t);
    assert TotalAmortissements(other) == 0.0 == TotalAmortissements(inputs);
    assert RevenuNet(other) == RevenuNet(inputs);
    assert LoyerAnnuel(other) == LoyerAnnuel(inputs);
  }

  /** Quotients between two brackets and below 0 fall through to 30%, above the
      rate of both neighbouring brackets for the first gap. */
  lemma TmiGaps()
    ensures Tmi(11294.5, 1.0) == Ok(0.30)
    ensures Tmi(11294.0, 1.0) == Ok(0.0) && Tmi(11295.0, 1.0) == Ok(0.11)
    ensures Tmi(-1.0, 1.0) == Ok(0.30)
    ensures Tmi(60000.0, 2.0) == Ok(0.30) && Tmi(60000.0, 3.0) == Ok(0.11)
  {
  }
}
