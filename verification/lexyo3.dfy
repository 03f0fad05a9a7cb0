/** Lexyo3.py: a form whose fields depend on the regime. Each regime lists the
    entries it asks for; the computation reads every entry with 0 as default,
    taxes a positive result at 30% (25% for the company regimes) and reports the
    gross yield. */
module Lexyo3 {
  import opened Numeric
  import opened Errors
  import opened Regimes

  /** The eight entries a form may show. */
  datatype Champ =
    | LoyerAnnuel
    | ChargesLocatives
    | AmortissementBien
    | AmortissementMobilier
    | FraisDeGestion
    | InteretsEmprunt
    | TaxeFonciere
    | TravauxDeductibles

  const TousLesChamps: set<Champ> := {
    LoyerAnnuel, ChargesLocatives, AmortissementBien, AmortissementMobilier,
    FraisDeGestion, InteretsEmprunt, TaxeFonciere, TravauxDeductibles
  }

  /** The regimes whose form asks for the two depreciation entries. */
  predicate Amortissable(r: Regime)
  {
    r == LmnpReel || r == LmpReel || r == SciIs || r == SarlDeFamille || r == HoldingIs
  }

  /** CHAMPS_PAR_REGIME: Micro BIC asks for the rent alone, Location nue and
      SCI à l'IR for everything but depreciation, the five others for all
      eight entries. Micro foncier is not in the table (looking it up fails),
      nor is any unlisted regime. */
  function ChampsParRegime(r: Regime): (c: Option<set<Champ>>)
    ensures c.Some? <==> r != MicroFoncier && r != Other
    ensures c.Some? ==> LoyerAnnuel in c.value && c.value <= TousLesChamps
    ensures c.Some? ==> (AmortissementBien in c.value <==> Amortissable(r))
                        && (AmortissementMobilier in c.value <==> Amortissable(r))
    ensures c.Some? ==> (ChargesLocatives in c.value <==> r != MicroBic)
  {
    if r == MicroBic then Some({LoyerAnnuel})
    else if r == LocationNueReel || r == SciIr then
      Some(TousLesChamps - {AmortissementBien, AmortissementMobilier})
    else if Amortissable(r) then Some(TousLesChamps)
    else None
  }

  /** What the form collected, entry by entry. */
  type Donnees = map<Champ, real>

  /** `donnees.get(champ, 0)`. */
  function Get(d: Donnees, c: Champ): real
  {
    if c in d then d[c] else 0.0
  }

  const TauxAbattementMicroBic: real := 0.5
  const TauxIs: real := 0.25

  /** The rate a regime applies to a positive result. */
  function Taux(r: Regime): real
  {
    if r == SciIs || r == HoldingIs then TauxIs else 0.3
  }

  /** The eight entries as the computation reads them, 0 where absent. */
  datatype Valeurs = Valeurs(
    loyer: real,
    charges: real,
    frais: real,
    interets: real,
    tf: real,
    travaux: real,
    amortBien: real,
    amortMobilier: real)

  function Lire(d: Donnees): (v: Valeurs)
    ensures v.loyer == Get(d, LoyerAnnuel) && v.charges == Get(d, ChargesLocatives)
    ensures v.frais == Get(d, FraisDeGestion) && v.interets == Get(d, InteretsEmprunt)
    ensures v.tf == Get(d, TaxeFonciere) && v.travaux == Get(d, TravauxDeductibles)
    ensures v.amortBien == Get(d, AmortissementBien) && v.amortMobilier == Get(d, AmortissementMobilier)
  {
    Valeurs(Get(d, LoyerAnnuel), Get(d, ChargesLocatives), Get(d, FraisDeGestion),
            Get(d, InteretsEmprunt), Get(d, TaxeFonciere), Get(d, TravauxDeductibles),
            Get(d, AmortissementBien), Get(d, AmortissementMobilier))
  }

  /** The cash charges the real regimes deduct: everything but the rent and the
      depreciation. */
  function Deductions(v: Valeurs): real
  {
    v.charges + v.frais + v.interets + v.tf + v.travaux
  }

  function Amortissements(v: Valeurs): real
  {
    v.amortBien + v.amortMobilier
  }

  /** The denominator of the gross yield: the rent and the costs it covers,
      works and depreciation excluded. */
  function CoutAnnuel(v: Valeurs): real
  {
    v.loyer + v.charges + v.frais + v.tf + v.interets
  }

  datatype Resultats = Resultats(resultatNet: real, impot: real, cashflow: real, rentabiliteBrute: real)

  /** calcul_resultats, before the display rounding. The Micro BIC branch never
      assigns the result it reports, so that regime always fails; the others
      fail only when the yield's denominator is 0. The depreciating regimes
      deduct the depreciation from the taxed result but not from the cash flow;
      regimes outside the branches report zeros. */
  function Calcul(v: Valeurs, regime: Regime): (r: Result<Resultats>)
    ensures r.Err? <==> regime == MicroBic || CoutAnnuel(v) == 0.0
    ensures regime == MicroBic ==> r == Err(UnboundLocal)
    ensures r.Err? && regime != MicroBic ==> r.error == DivisionByZero
    ensures r.Ok? ==> r.value.rentabiliteBrute * CoutAnnuel(v) == v.loyer * 100.0
    ensures r.Ok? && Amortissable(regime) ==>
              && r.value.resultatNet == v.loyer - Deductions(v) - Amortissements(v)
              && r.value.impot == Taux(regime) * Max(0.0, r.value.resultatNet)
              && r.value.cashflow == r.value.resultatNet + Amortissements(v) - r.value.impot
    ensures r.Ok? && (regime == LocationNueReel || regime == SciIr) ==>
              && r.value.resultatNet == v.loyer - Deductions(v)
              && r.value.impot == 0.3 * Max(0.0, r.value.resultatNet)
              && r.value.cashflow == r.value.resultatNet - r.value.impot
    ensures r.Ok? && (regime == MicroFoncier || regime == Other) ==>
              r.value.resultatNet == 0.0 && r.value.impot == 0.0 && r.value.cashflow == 0.0
  {
    var cash := v.loyer - v.charges - v.frais - v.interets - v.tf - v.travaux;
    if regime == MicroBic then Err(UnboundLocal)
    else
      var resultatNet :=
        if Amortissable(regime) then cash - v.amortBien - v.amortMobilier
        else if regime == LocationNueReel || regime == SciIr then cash
        else 0.0;
      var impot :=
        if Amortissable(regime) || regime == LocationNueReel || regime == SciIr
        then Max(0.0, resultatNet * Taux(regime))
        else 0.0;
      var cashflow :=
        if Amortissable(regime) || regime == LocationNueReel || regime == SciIr
        then cash - impot
        else 0.0;
      var denominateur := v.loyer + v.charges + v.frais + v.tf + v.interets;
      if denominateur == 0.0 then Err(DivisionByZero)
      else Ok(Resultats(resultatNet, impot, cashflow, v.loyer / denominateur * 100.0))
  }

  /** The function as the form calls it, on the collected entries. */
  function CalculResultats(d: Donnees, regime: Regime): Result<Resultats>
  {
    Calcul(Lire(d), regime)
  }

  /** A yield y with y·c = 100·l for 0 <= l <= c lies between 0 and 100, and is
      100 exactly when l = c. */
  lemma RatioBounded(l: real, c: real, y: real)
    requires 0.0 <= l <= c && c != 0.0
    requires y * c == l * 100.0
    ensures 0.0 <= y <= 100.0
    ensures y == 100.0 <==> c == l
  {
    assert c > 0.0;
    if y == 100.0 {
      assert 100.0 * c == 100.0 * l;
    }
  }

  /** The form only accepts non-negative entries; with such entries the gross
      yield lies between 0 and 100%, and reaches 100% exactly when the rent
      covers no cost at all. */
  lemma YieldBounded(v: Valeurs, regime: Regime)
    requires v.loyer >= 0.0 && v.charges >= 0.0 && v.frais >= 0.0 && v.tf >= 0.0 && v.interets >= 0.0
    requires Calcul(v, regime).Ok?
    ensures 0.0 <= Calcul(v, regime).value.rentabiliteBrute <= 100.0
    ensures Calcul(v, regime).value.rentabiliteBrute == 100.0 <==> CoutAnnuel(v) == v.loyer
  {
    RatioBounded(v.loyer, CoutAnnuel(v), Calcul(v, regime).value.rentabiliteBrute);
  }

  /** The regime's tax is never negative and takes at most its rate of the
      positive part of the cash result, so the cash flow of a real regime never
      falls below 70% (75% for the company regimes) of a positive cash result. */
  lemma TaxShare(v: Valeurs, regime: Regime)
    requires Calcul(v, regime).Ok?
    requires regime != MicroFoncier && regime != Other
    ensures var r := Calcul(v, regime).value;
            && 0.0 <= r.impot
            && (Amortissements(v) >= 0.0 ==> r.impot <= Taux(regime) * Max(0.0, v.loyer - Deductions(v)))
            && (Amortissements(v) >= 0.0 && v.loyer - Deductions(v) >= 0.0 ==>
                  r.cashflow >= (1.0 - Taux(regime)) * (v.loyer - Deductions(v)))
  {
    var r := Calcul(v, regime).value;
    var cash := v.loyer - Deductions(v);
    MulNonNegative(Taux(regime), Max(0.0, r.resultatNet));
    if Amortissements(v) >= 0.0 {
      assert r.resultatNet <= cash;
      assert Max(0.0, r.resultatNet) <= Max(0.0, cash);
      MulNonNegative(Taux(regime), Max(0.0, cash) - Max(0.0, r.resultatNet));
    }
  }

  /** The entries the form collects, kept to those in `champs`. */
  function Restrict(d: Donnees, champs: set<Champ>): (e: Donnees)
    ensures forall c :: c in champs ==> Get(e, c) == Get(d, c)
    ensures forall c :: c !in champs ==> Get(e, c) == 0.0
  {
    map c | c in d && c in champs :: d[c]
  }

  /** The regimes without depreciation entries never read them. */
  lemma IgnoresDepreciationEntries(v: Valeurs, regime: Regime, bien: real, mobilier: real)
    requires !Amortissable(regime)
    ensures Calcul(v.(amortBien := bien, amortMobilier := mobilier), regime) == Calcul(v, regime)
  {
  }

  /** The table and the computation agree: for every regime the table lists,
      entries the form does not ask for change nothing, so a form built from
      the table loses nothing the computation would read. */
  lemma ReadsOnlyItsFields(d: Donnees, regime: Regime)
    requires ChampsParRegime(regime).Some?
    ensures CalculResultats(Restrict(d, ChampsParRegime(regime).value), regime) == CalculResultats(d, regime)
  {
    var e := Restrict(d, ChampsParRegime(regime).value);
    if Amortissable(regime) {
      assert Lire(e) == Lire(d);
    } else if regime != MicroBic {
      assert Lire(e) == Lire(d).(amortBien := 0.0, amortMobilier := 0.0);
      IgnoresDepreciationEntries(Lire(d), regime, 0.0, 0.0);
    }
  }
}
