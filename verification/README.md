# Lexyo rental-property simulator: a Dafny model of its arithmetic core

Lexyo is a French rental-property profitability simulator. Given a purchase
(price, notary fee, works, fees, furniture, down payment), a loan (rate, term,
insurance, an optional deferral), the yearly rent and charges and a fiscal
regime (LMNP réel, LMP réel, Micro BIC, Micro foncier, location nue réel,
SCI à l'IR, SCI à l'IS, SARL de famille, holding à l'IS), it derives the
amount borrowed, the monthly payment, a month-by-month amortisation table,
straight-line depreciation, the taxable result after carrying losses forward,
the tax (personal marginal rate with social levies, or the two-tier corporate
tax) and the resulting cash flow over a ten-year horizon.

The repository holds several near-duplicate versions of this engine. Each is
modelled as its own file states it, in exact real arithmetic, without
reconciling them:

| module | source | what it is |
|---|---|---|
| `Numeric`, `Errors` | — | powers, sums, half-to-even rounding; the error values that stand for Python exceptions |
| `Annuity` | shared | the level payment `P·t/(1−(1+t)^−n)` and the balance a payment leaves month after month |
| `StraightLine` | shared | a base written off in equal yearly shares over a duration |
| `CorporateTax`, `Regimes` | shared | the two-tier corporate tax (15% up to 42 500, 25% above); the regime names |
| `LossLedger` | Fusion.py | the ten-slot first-in-first-out ledger of losses of the LMNP réel class |
| `FusionLoan` | Fusion.py | loan amount, payment with deferral, amortisation table with the final clamp |
| `FusionLmnp`, `FusionSci`, `FusionMicro` | Fusion.py | the three regime classes `LMNPReel`, `SCIaIS`, `MicroBIC` |
| `Lexyo1` | Lexyo1.py | the `simulate` dispatch with the bracket-based marginal rate |
| `Lexyo2` | Lexyo2.py | the form-driven one-year computation and its flat ten-year projection |
| `Lexyo3` | Lexyo3.py | the per-regime field table, `calcul_resultats` and the gross yield |
| `Lexyo4` | Lexyo4.py | loan amount, amortisation table, the yearly depreciation cap and single carried deficit |
| `Sciis` | SCIIS.py | the object model of an SCI à l'IS and its ten-year projection |
| `Finallexyo` | finallexyo.py | `calculs_communs`, the figures every regime of the final version starts from |

Money is `real`. A Python exception (a division by zero, a `ValueError`, a
variable read before assignment, a missing column) is in general an `Err`
value of the function that raises it. The exceptions are a few divisions by a
depreciation duration, which the model states as a precondition because no
caller in the source can reach them with a zero duration:

- `Lexyo4.AmortissementTotal` requires a nonzero building duration
  (Lexyo4.py:105 divides by it unguarded); its only input is the number input
  of Lexyo4.py:97, whose minimum is 1.
- `Lexyo2.AmortissementTotal` requires the predicate `Lexyo2.DureesUtilisables`:
  for LMNP and LMP réel the four durations divided by at Lexyo2.py:56-59 are nonzero.
  They come from the sliders of Lexyo2.py:40-43, whose lowest values are 10,
  5, 5 and 5.
- `Sciis.AnnuiteBien`, `Sciis.AnnuiteTravaux` and `Sciis.TotalAnnuite` require
  nonzero durations (SCIIS.py:74 and SCIIS.py:77 divide by them). The
  projection always uses the class defaults of SCIIS.py:70-71, 40 and 10
  years, held as `Sciis.DureeBatiment` and `Sciis.DureeTravaux`.

Every loan computation also requires a non-negative interest rate. That is a
restriction of the model, not a guarantee of the source: the number inputs of
finallexyo.py:41 and Lexyo4.py:47 have a minimum of 0, but those of
Fusion.py:182 and Fusion.py:409 have none, and `Emprunt.taux` in SCIIS.py
accepts any number. The model leaves negative rates out because a loan that
shrinks by itself is not one the simulator is meant for, and because the
facts proved about the balance (it stays non-negative, it never grows, the
payment formula divides by zero only at a zero rate) hold only from a zero
rate upwards.

The versions differ from one another in ways the model keeps:

- Only `SCIaIS.mensualite_emprunt` rejects a loan with no month left after the
  deferral, with a `ValueError`. `LMNPReel` divides by zero when exactly no
  month is left and computes a number when the count is negative
  (`FusionLoan.MensualiteLmnp`).
- `LMNPReel` applies the marginal rate without social levies; Lexyo2 and
  Lexyo3 apply a flat 30%; Lexyo1 and Lexyo4 add the social levies.
- No version validates its configuration up front. A zero depreciation
  duration, or a zero number of tax parts, fails in the middle of the
  computation, and the model returns that error for the whole call.
- `LMNPReel` writes nothing off during the whole years of the deferral, on top
  of stopping each component at its duration.
- The code has three loss-carryforward mechanisms: the ten-slot ledger
  (Fusion.py LMNP réel), a single signed carried deficit (Fusion.py SCI à
  l'IS), and a single positive deficit with the depreciation capped at the
  positive result (Lexyo4.py).
- Lexyo4.py does not load as written: its yearly block (lines 133-171) is
  indented under no statement. The model states the yearly step that block
  spells out, with the inputs it reads.

## Model

| member | source | states |
|---|---|---|
| Numeric.RoundHalfEven | Lexyo4.py:38 | Python's `round` to an integer: the result is within one half of the value, and an exact tie goes to the even integer |
| Annuity.LevelPayment | Lexyo4.py:66 | the level payment satisfies the annuity identity m·((1+t)^n − 1) = p·t·(1+t)^n; a positive loan costs more each month than its first month of interest, a zero loan costs nothing |
| Annuity.Payment | finallexyo.py:50 | the payment formula as Python evaluates it: it fails with a division by zero exactly when the rate or the month count is 0; for a positive count it is the level payment; a negative count gives a negative payment on a positive loan |
| Annuity.CapitaliseIsCompound | Fusion.py:62-63 | capitalising interest month by month for d months multiplies the balance by (1+t)^d |
| Annuity.AmortizeClosedForm | Lexyo4.py:72-75 | after k payments the balance is b·(1+t)^k − m·Σ_{i<k}(1+t)^i |
| Annuity.LevelPaymentClearsBalance | Lexyo4.py:66-75 | n months of the level payment leave exactly nothing owed |
| Annuity.ScaledBalance | Lexyo4.py:72-75 | after k of n months of an annuity the balance is p·((1+t)^n − (1+t)^k)/((1+t)^n − 1) |
| Annuity.LevelPaymentBalanceNonNegative | Fusion.py:84-89 | within the term the level payment never overpays a non-negative loan, so the clamp never fires |
| Annuity.AnnuityInterestBelowPayment | SCIIS.py:44-46 | within the term a month's interest never exceeds the payment: no month repays a negative principal |
| Annuity.AnnuityBalanceNonIncreasing | SCIIS.py:44-46 | within the term the balance never grows from one month to the next |
| StraightLine.Allowance | Fusion.py:323 | the yearly share is 0 past the duration and lies between 0 and a non-negative base |
| StraightLine.CumulativeClosedForm | Fusion.py:319-327 | k years of shares add up to min(k, duration)·base/duration |
| StraightLine.FullyDepreciatedOnce | Fusion.py:319-327 | the shares never add up to more than the base, and add up to exactly the base once the duration has run |
| StraightLine.ScheduleBelowCumulative | Fusion.py:105-111 | a schedule that writes nothing off during the first years adds up to no more than the plain one, and to the same total when nothing is skipped |
| StraightLine.ScheduleBounded | Fusion.py:100-112 | a schedule never writes off more than the base, and writes off all of it over a horizon at least as long as the duration when nothing is skipped |
| CorporateTax.TwoTier | Fusion.py:370-373 | the tax on a non-negative profit lies between 15% and 25% of it; it is non-negative exactly when the profit is; above 42 500 it exceeds 6 375 |
| CorporateTax.MarginalRate | Fusion.py:370-373 | each extra euro of profit is taxed between 15 and 25 cents: 25 cents above 42 500, 15 cents up to it |
| CorporateTax.FiftyThousand | Fusion.py:373 | a profit of 50 000 pays 6 375 + 1 875 = 8 250 |
| LossLedger.Consume | Fusion.py:142-150 | offsetting a profit against the ledger keeps its length, touches no slot outside the years walked, leaves every positive slot between 0 and its old amount, and returns a leftover between 0 and the profit |
| LossLedger.ConsumeExact | Fusion.py:142-150 | the leftover profit is max(0, profit − outstanding losses) and the losses still outstanding are max(0, outstanding − profit) |
| LossLedger.ConsumeOldestFirst | Fusion.py:142-150 | a later year's loss is only reduced once every earlier loss is exhausted |
| LossLedger.YearStep | Fusion.py:137-150 | a loss year records the loss in its own slot and is taxed on 0; a profit year is taxed on max(0, profit − outstanding losses); the taxed amount lies between 0 and the positive part of the result; later slots are untouched |
| LossLedger.YearStepConserves | Fusion.py:137-150 | losses outstanding after a year = before − the year's result + the amount taxed |
| LossLedger.CarryForwardConserves | Fusion.py:127-150 | over any run of years, the amounts taxed add up to the results plus the losses still outstanding at the end less those at the start |
| LossLedger.FreshRunTaxedOnTotal | Fusion.py:127-150 | from an empty ledger the amounts taxed add up to at least the sum of the results, the gap being the losses never used |
| LossLedger.ConsumeExample | Fusion.py:142-150 | losses of 500 and 300 offset against 600 leave 0 and 200 and no taxable leftover |
| LossLedger.TwoYearExample | Fusion.py:137-150 | a loss of 1 000 followed by a profit of 1 500 taxes 0 then 500 and leaves nothing outstanding |
| FusionLoan.MontantEmprunt | Fusion.py:50-55 | the amount borrowed is never negative, is the financed costs less the down payment when that is positive, and is positive exactly when the down payment falls short of the costs |
| FusionLoan.FurnitureNotFinanced | Fusion.py:52-54 | the furniture does not change the amount borrowed |
| FusionLoan.MensualiteLmnp | Fusion.py:57-67 | the LMNP payment fails with a division by zero exactly when the rate is 0 or no month is left after the deferral; otherwise it is the level payment on the capitalised balance plus the insurance on the original amount |
| FusionLoan.MensualiteSci | Fusion.py:269-283 | the SCI payment fails with an invalid-term error when no month is left after the deferral, with a division by zero at rate 0, and is otherwise the same level payment plus insurance |
| FusionLoan.MonthRow | Fusion.py:77-97 | a deferred month repays nothing and adds its interest to the balance; a repaying month never leaves a negative balance, and interest plus principal equal the payment unless the final clamp applies |
| FusionLoan.Rows | Fusion.py:76-97 | the table numbers its months consecutively with the year index (mois−1)/12+1, carries a constant insurance, repays nothing during the deferral and never shows a negative balance |
| FusionLoan.Tableau | Fusion.py:69-98 | the table fails only when some month follows the deferral and the payment fails; it has 12·T rows, numbered 1.., with years in 1..T and a constant insurance premium, and no negative balance on a non-negative loan |
| FusionLoan.DeferralBalance | Fusion.py:77-80 | after k ≤ D deferred months the balance is p·(1+t)^k |
| FusionLoan.TableauFollowsBalance | Fusion.py:76-89 | every row's balance is the balance the month-by-month recurrence gives, and every repaying month splits the payment exactly into interest and principal |
| FusionLoan.LevelBalanceNonNegative | Fusion.py:84-89 | with the level payment computed after the deferral, the balance stays non-negative throughout the term |
| FusionLoan.TableauLmnpClearsLoan | Fusion.py:69-98 | the LMNP table ends with nothing owed |
| FusionLoan.TableauSciClearsLoan | Fusion.py:285-317 | the SCI table ends with nothing owed |
| FusionLoan.TableauYearInsurance | Fusion.py:342 | a year's insurance total is twelve monthly premiums within the term and 0 outside it |
| FusionLoan.MensualiteLmnpIgnoresInsurance | Fusion.py:83 | the payment less its insurance does not depend on the insurance rate |
| FusionLoan.TableauInterestIgnoresInsurance | Fusion.py:76-97 | every year's interest total is the same whatever the insurance rate |
| FusionLmnp.WithDefaults | Fusion.py:44-46 | the class defaults: an 8% notary fee, 30 years for the building and 7 for the furniture |
| FusionLmnp.Amortissements | Fusion.py:100-119 | ten rows numbered 1..10; nothing during the deferral's whole years; each component's share within its duration, 0 past it; fails with a division by zero on a zero duration |
| FusionLmnp.AmortissementsBounded | Fusion.py:100-119 | over the ten years neither component is written off beyond its base, and each is written off in full when its duration fits in ten years and there is no whole year of deferral |
| FusionLmnp.ResultatFiscalAnnuel | Fusion.py:121-166 | fails with a division by zero when a depreciation duration is 0, then with a missing column when the term is 0 years (the loan table has no rows), then with a division by zero when the payment fails; otherwise ten rows, each taxed on an amount between 0 and the positive part of rent − charges − interest − depreciation, at tmi/100 |
| FusionLmnp.ResultatRows | Fusion.py:127-165 | row i is the year built from the amount the ledger run leaves taxable in year i |
| FusionLmnp.TaxedOnTotal | Fusion.py:127-152 | over the ten years the amounts taxed add up to at least the results before carryforward |
| FusionLmnp.LossYearUntaxed | Fusion.py:137-152 | a year whose result is not positive is taxed on 0 and pays no tax; with a non-negative rate no year pays a negative tax |
| FusionLmnp.InsuranceOnlyShiftsCashflow | Fusion.py:121-153 | changing the insurance rate changes neither the result taxed nor the tax; it shifts each year's cash flow by the change in the monthly premium |
| FusionSci.ChargesFiscales | Fusion.py:351-357 | the deductible charges are the real charges less the 80% of the co-ownership charges the tenant refunds, so never more than the real charges |
| FusionSci.Amortissements | Fusion.py:319-336 | ten rows; the building net of land, the furniture, the works and the fees other than the notary's each contribute their straight-line share; the total is their sum |
| FusionSci.AmortissementsBounded | Fusion.py:319-336 | the ten years never write off more than the four bases together, and write off all of them when every duration fits in ten years |
| FusionSci.Settle | Fusion.py:363-374 | the net result is the gross result plus the carried deficit; a negative net pays nothing and is carried; a non-negative net pays the two-tier tax and clears the deficit; the deficit carried is never positive |
| FusionSci.SettleYears | Fusion.py:346-374 | each year settles against the deficit the previous year left, starting from 0 |
| FusionSci.SettleConserves | Fusion.py:346-374 | over the years the positive net results add up to the gross results plus the opening deficit less the final one |
| FusionSci.SettleTaxedOnTotal | Fusion.py:346-374 | starting from no deficit, the amounts taxed add up to at least the gross results |
| FusionSci.BuildYears | Fusion.py:348-391 | every row carries the gross result of its year, the net after the previous row's deficit, and the two-tier tax on a non-negative net |
| FusionSci.ResultatFiscalAnnuel | Fusion.py:338-393 | the ten-year run fails exactly when the SCI payment fails; a term of 0 years fails on the missing year column of its empty loan table, any other failure with the payment's error |
| FusionSci.ResultatRows | Fusion.py:338-393 | row i is the year built from the settlement of year i against the carried deficit |
| FusionSci.TaxedOnTotal | Fusion.py:346-374 | over the ten years the amounts taxed add up to at least the gross results |
| FusionSci.InsuranceDeducted | Fusion.py:360-363 | each year deducts twelve monthly insurance premiums within the loan's term and none after it |
| FusionMicro.FromForm | Fusion.py:458-460 | the class defaults: 17.2% of social levies, a 50% allowance, a 77 700 ceiling |
| FusionMicro.CashflowDecomposes | Fusion.py:465-479 | income tax and levies together are the rent × (1 − allowance) × (tmi + 17.2)/100, and the cash flow is what remains of the rent after them and the non-refundable charges |
| FusionMicro.LeviesMonotone | Fusion.py:465-472 | a higher rent never lowers the tax plus levies, which lie between 0 and the rent |
| FusionMicro.ResultatFiscalAnnuel | Fusion.py:481-503 | ten identical rows numbered 1..10, whose taxable income and allowance add up to the rent and whose monthly cash flow is a twelfth of the yearly one |
| FusionMicro.FormDefaults | Fusion.py:508-522 | 850 a month with one month empty gives 9 350 of rent, 4 675 taxable, 1 402.50 + 804.10 = 2 206.60 of tax and levies, and no ceiling warning |
| Lexyo1.Lookup | Lexyo1.py:48-51 | the rate of the first bracket containing the quotient, or 30% when none does |
| Lexyo1.Tmi | Lexyo1.py:39-51 | fails exactly when the parts are 0; otherwise 0, 11, 30, 41 or 45% on the closed brackets of the quotient, and 30% in the gaps between them and below 0 |
| Lexyo1.TmiRange | Lexyo1.py:40-51 | the marginal rate lies between 0 and 45% |
| Lexyo1.TmiDependsOnQuotient | Lexyo1.py:47 | two households with the same income per part get the same rate |
| Lexyo1.TmiGaps | Lexyo1.py:40-51 | 11 294.5 falls in no bracket and gets 30%; 60 000 is taxed at 30% on two parts and 11% on three |
| Lexyo1.ImpotIr | Lexyo1.py:54-60 | fails exactly when the parts are 0; 0 on a negative net; otherwise the net times its marginal rate plus 17.2%, never more than 62.2% of it |
| Lexyo1.ImpotIs | Lexyo1.py:63-66 | between 15% and 25% of a non-negative profit, and negative exactly on a loss, which the function does not guard |
| Lexyo1.ImpotIsIsTwoTier | Lexyo1.py:63-66 | the corporate tax of this file is the two-tier tax of Fusion.py |
| Lexyo1.Amortissement | Lexyo1.py:69-70 | a positive duration writes off the price in that many equal shares; no duration or a non-positive one gives 0 |
| Lexyo1.TotalAmortissements | Lexyo1.py:91-97 | only the five depreciating regimes write anything off, and never more than 80% of the price plus the notary fee, furniture and works |
| Lexyo1.Simulate | Lexyo1.py:73-129 | an unknown regime raises; 0 tax parts raise a division by zero exactly in the branches that reach the marginal rate; otherwise the cash flow is the net income less a non-negative tax |
| Lexyo1.RegimeBranch | Lexyo1.py:101-129 | the regime dispatch over the net income and depreciation, with the same failures and the same cash-flow identity |
| Lexyo1.MicroBases | Lexyo1.py:101-109 | Micro BIC is taxed on half the yearly rent, Micro foncier on 70% of it |
| Lexyo1.BicReelTax | Lexyo1.py:111-114 | LMNP réel, LMP réel and SARL de famille pay nothing on a loss after depreciation, even with no tax parts, and otherwise the personal tax on the net income less depreciation |
| Lexyo1.FoncierLossUntaxed | Lexyo1.py:116-121 | location nue réel and SCI à l'IR pay nothing on a negative net income, whatever the −10 700 floor, and the personal tax on a non-negative one |
| Lexyo1.CompanyTax | Lexyo1.py:123-126 | SCI à l'IS and holding à l'IS never fail and pay the two-tier tax on the positive part of net income less depreciation |
| Lexyo1.DepreciationOnlyForFive | Lexyo1.py:91-97 | outside the five depreciating regimes, the depreciation durations change nothing |
| Lexyo2.AmortissementTotal | Lexyo2.py:54-59 | depreciation is 0 outside LMNP and LMP réel, and with positive durations never exceeds price + notary + furniture + works |
| Lexyo2.Simulate | Lexyo2.py:62-87 | the micro regimes tax 30% of half or 70% of the rent whatever its sign; the other regimes tax their rate on the positive part of rent − charges − depreciation; the cash flow is rent − charges − tax |
| Lexyo2.TaxOnPositiveResult | Lexyo2.py:62-85 | with a non-negative rent every regime's tax is its rate on the positive part of its result, so never negative, and the cash flow never exceeds rent less charges |
| Lexyo2.SciIsWithoutDepreciation | Lexyo2.py:54-81 | SCI à l'IS deducts no depreciation whatever the price and durations, and pays 15% of rent less charges when positive |
| Lexyo2.ExtraCharges | Lexyo2.py:52-87 | one more euro of charges lowers the tax by at most the regime's rate and the cash flow by between (1 − rate) and 1 euro, exactly 1 euro for the micro regimes |
| Lexyo2.ProjectionTotal | Lexyo2.py:97-100 | the ten projected years add up to ten times the single year's cash flow |
| Lexyo2.FormDefaults | Lexyo2.py:18-43 | the form's defaults under LMNP réel: 8 400 of rent, 3 770 of charges, a loss, no tax and a cash flow of 4 630 |
| Lexyo3.ChampsParRegime | Lexyo3.py:10-19 | Micro BIC asks for the rent alone; every listed regime asks for the rent; the two depreciation entries exactly for the five depreciating regimes; Micro foncier is not in the table |
| Lexyo3.Calcul | Lexyo3.py:42-92 | Micro BIC always fails on an unbound variable; the others fail only on a zero yield denominator; the depreciating regimes deduct depreciation from the result but not from the cash flow; the yield times its denominator is 100 × the rent |
| Lexyo3.YieldBounded | Lexyo3.py:91 | with the non-negative entries the form accepts, the gross yield lies between 0 and 100%, and is 100% exactly when the rent covers no cost |
| Lexyo3.TaxShare | Lexyo3.py:57-80 | the tax is never negative and at most the regime's rate on the positive part of the cash result, so the cash flow keeps at least 70% (75% for the company regimes) of a positive cash result |
| Lexyo3.Restrict | Lexyo3.py:36-38 | the entries the form collects are those of the listed fields, every other reading 0 |
| Lexyo3.IgnoresDepreciationEntries | Lexyo3.py:62-75 | the regimes without depreciation entries never read them |
| Lexyo3.ReadsOnlyItsFields | Lexyo3.py:37-50 | for every regime in the table, dropping the entries its form does not ask for changes no result |
| Lexyo4.FraisNotaire | Lexyo4.py:38 | the notary fee is 8% of the price rounded to the nearest euro |
| Lexyo4.MontantEmprunt | Lexyo4.py:41 | with non-negative costs, the amount borrowed is at least 108% of the price less a half euro less the down payment |
| Lexyo4.MontantEmpruntShape | Lexyo4.py:41 | the furniture is not financed, each euro of down payment is one euro less borrowed, and a down payment above the costs gives a negative amount |
| Lexyo4.NotaryExamples | Lexyo4.py:38 | 150 000 gives 12 000; 1 006.25 gives 80.5, rounded to the even 80 |
| Lexyo4.LignesShape | Lexyo4.py:72-86 | each row is numbered from 1, splits the payment exactly into interest and principal, and carries the constant insurance and total paid |
| Lexyo4.LignesFollowBalance | Lexyo4.py:73-75 | each row's interest is the previous balance times the monthly rate and its balance is the previous one less the principal |
| Lexyo4.Tableau | Lexyo4.py:63-88 | the table fails with a division by zero exactly on a zero rate or term; for a positive term its last balance is 0 |
| Lexyo4.InterestTelescopes | Lexyo4.py:73-75 | over any run of months the interest paid is the payments made less the principal repaid |
| Lexyo4.TableauIsTable | Lexyo4.py:63-88 | the table has 12·T rows that pay down the balance from the amount borrowed to 0 with a constant premium |
| Lexyo4.AnnualInterest | Lexyo4.py:134-135 | a year's interest is twelve payments less the year's principal repaid and its insurance twelve premiums; both are 0 past the term; the whole term's interest is the payments less the amount borrowed |
| Lexyo4.MensualiteTotale | Lexyo4.py:52-55 | the total monthly payment fails exactly when the table does and is the first row's total paid |
| Lexyo4.ParAn | Lexyo4.py:106-109 | a positive duration splits the amount into equal shares, a non-positive one gives 0 |
| Lexyo4.AmortissementTotal | Lexyo4.py:102-109 | the yearly depreciation never exceeds 80% of the price plus works, furniture, agency and dossier fees |
| Lexyo4.ApresAmortissement | Lexyo4.py:143-146 | depreciation only lowers a non-negative result, and never below 0 |
| Lexyo4.Reporter | Lexyo4.py:149-157 | result less deficit is unchanged by the carryforward; a positive result consumes min(deficit, result) |
| Lexyo4.Annee | Lexyo4.py:133-171 | a loss year is taxed on 0, pays no income tax or levies and adds the loss to the deficit; result and deficit stay non-negative; tax and levies are proportional to the result; the cash flow is rent − payments − property tax − charges − tax − levies |
| Lexyo4.TableauRenta | Lexyo4.py:133-171 | ten rows numbered 1..10 with non-negative results and deficits |
| Lexyo4.DeficitConserved | Lexyo4.py:149-157 | from any year on, the amounts taxed plus the opening deficit equal the results after depreciation plus the final deficit |
| Lexyo4.TenYearsConserved | Lexyo4.py:121-171 | over the ten years, the amounts taxed are the results after depreciation plus the deficit left at the end |
| Lexyo4.Simulation | Lexyo4.py:38-171 | the whole computation fails with a division by zero on a zero rate or term, and with a missing column on a negative term, whose table has no rows; otherwise it yields the ten-year table from the loan's table, the depreciation and the total payment |
| Sciis.CoutTotal | SCIIS.py:14-19 | with non-negative costs and a land share in [0, 1], the depreciable value never exceeds the total cost |
| Sciis.CalculMensualite | SCIIS.py:31-36 | a preset payment is returned as it is; otherwise the payment fails exactly on a zero rate or term and clears the loan over the term |
| Sciis.InteretsAnnuels | SCIIS.py:38-47 | before the deferral ends the interest is the full year on the amount; afterwards it is twelve times the monthly interest on the balance at the start of the year |
| Sciis.NoInterestAtTerm | SCIIS.py:41-47 | the year the loan ends shows no interest |
| Sciis.InterestDecreases | SCIIS.py:41-47 | within the term the yearly interest is non-negative and never rises |
| Sciis.NegativeInterestPastTerm | SCIIS.py:41-47 | past the term the loop keeps paying and the interest goes negative |
| Sciis.RentGrowth | SCIIS.py:60-64 | year 0 gives the base amounts; each year grows by its rate; with no growth the rent is constant; with non-negative growth it never falls |
| Sciis.TotalAnnuite | SCIIS.py:73-80 | the yearly depreciation lies between 0 and the depreciable value, and with equal durations writes it off in that many shares |
| Sciis.TenYearsOfWorks | SCIIS.py:76-77 | with the default ten-year duration the works are written off in exactly ten years; a shorter duration writes off more than the works over ten years, since nothing stops it |
| Sciis.ResultatFiscal | SCIIS.py:90-96 | fails exactly when the interest does; the result plus interest, insurance and depreciation is the rent less charges |
| Sciis.ImpotIs | SCIIS.py:98-104 | nothing on a non-positive result, the two-tier tax otherwise |
| Sciis.ImpotIsMonotone | SCIIS.py:98-104 | the tax never falls as the result grows and rises by at most 25% of the increase |
| Sciis.ProjectedYear | SCIIS.py:108-127 | a projected year's result is `resultat_fiscal` for that year, its tax the corporate tax on it, and its cash flow the result plus interest and depreciation less twelve payments and the tax |
| Sciis.ProjectionSur10Ans | SCIIS.py:106-128 | fails exactly when the payment does; otherwise ten entries numbered 1..10, entry k built from year k−1 |
| Sciis.ProjectionAgrees | SCIIS.py:106-128 | each entry's result and tax are those of `resultat_fiscal` and `impot_is` for its year |
| Finallexyo.CalculsCommuns | finallexyo.py:45-60 | fails with a division by zero exactly on a zero rate or term; amount borrowed + down payment = total price; the price with its notary percentage plus works; rent net of vacancy; twelve months of charges and payments; the payment clears the amount over the term |
| Finallexyo.FormInputs | finallexyo.py:30-42 | on what the form accepts only a zero rate fails; the rent is between 80% and 100% of twelve months; a loan exceeding the down payment costs more each month than its first month of interest |
| Finallexyo.LevelPaymentMonotone | finallexyo.py:50 | a larger amount at the same rate and term never costs less each month |
| Finallexyo.ApportLowersPayment | finallexyo.py:49-50 | each euro of down payment is one euro less borrowed and never raises the payment |
| Finallexyo.Defaults | finallexyo.py:30-48 | the form's defaults: a 181 250 total, 161 250 borrowed, 8 550 of net rent and 1 800 of charges |

## Left out

- The Streamlit pages and widgets, `st.warning` and `st.dataframe`: presentation. Of the Micro BIC ceiling only the predicate is modelled.
- The FastAPI endpoint and pydantic model of Lexyo1.py: HTTP plumbing; the input is a plain record.
- pandas `DataFrame` construction and `groupby().sum()`: tables are sequences of row records, and a year's total is the sum over that year's rows.
- `round(x, 2)` on displayed values: presentation.
- Lexyo4.AnnualInterest: the cells of the Lexyo4 table are rounded to the cent (Lexyo4.py:80-85), and Lexyo4.py:134-135 sums those rounded cells into the yearly interest and insurance that feed the taxed result. The model sums the exact cells, so its yearly totals, and the results, taxes and cash flows built on them, can differ from the source's by a few cents a year.
- IEEE floating point: every amount is an exact real.
- Negative interest rates: Fusion.py and SCIIS.py accept them, but every loan member of the model requires a rate of at least 0 (see the note above the model table).
- The mutable default ledger of `LMNPReel` that outlives a call: one run starts from a fresh ten-slot ledger.
- The empty regime branches of finallexyo.py (lines 80-92): they compute nothing.
- Lexyo.py and LMNPréel.py are not part of this model: the first holds no computation, the second is another version of the LMNP réel class that Fusion.py holds.
- The inputs Lexyo2.py collects but never reads (the down payment, agency fee, rent with charges, household income and parts).
- Lexyo3.Calcul: the result is stated before the `round(·, 2)` of its four outputs.
- Lexyo4.FraisNotaire: the rounding is stated as half-to-even on exact reals; a price whose 8% is within float error of a half is rounded as exact arithmetic says.
- Lexyo4.Annee: the yearly block does not run as written, so the model fixes its inputs (rent, property tax, charges, rates) as parameters rather than reading them from the form.
- FusionLmnp.ResultatFiscalAnnuel: its contract bounds each taxed amount by the year's positive result; the exact first-in-first-out amounts are stated by LossLedger.YearStep and connected row by row through FusionLmnp.ResultatRows.
- FusionMicro.LeviesMonotone: assumes the tax rate and the levy rate add up to at most 100%, which the form's 45% ceiling and the fixed 17.2% guarantee.
