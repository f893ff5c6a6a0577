# Solidarity model: premium blending between risk-based and community pricing

This project models, in Dafny, the calculation at the heart of the
"Solidaritätsmodell" page (`Soli.py`): an insurer prices six risk types.
Each type has a fair, risk-based premium of `x/6 * 50000`. A single equal
premium is the mean of the six fair premiums. A solidarity factor `alpha`
in `[0, 1]` blends the two: each type pays `(1 - alpha) * fair + alpha * equal`.
For each type the page shows a table row with the fair premium, the solidary
premium, the delta to the fair premium and the insurer's gain or loss. The
expected cost of a type is its fair premium, so gain/loss is the same as the
delta. Finally the page sums the gain/loss column. It reports that the insurer
breaks even when the sum is within `1e-3` of zero.

Money and `alpha` are Dafny `real`s, so every identity is exact. The
floating-point tolerance check becomes two lemmas: the total is exactly zero
for every `alpha` (`TotalGainIsZero`), and so the page's test always passes
(`InsurerBreaksEven`).

Files:

- `solidarity.dfy`, module `Solidarity`: risk types, fair and equal premiums,
  the per-type blend, the table rows, the row-building loop (`ComputeRows`,
  an imperative method over a growing sequence, like the script's `for` loop
  appending to `data`), the total and the break-even test.
- `amounts.dfy`, module `Amounts`: sums and scalings of sequences of reals,
  plus small facts about real multiplication (convex combinations, signs,
  monotonicity) that the premium lemmas use.

The script does not validate `alpha`; it relies on the slider's bounds
(Soli.py:18). So `alpha` in `[0, 1]` is a precondition (`ValidAlpha`), not an
error path. The break-even tolerance is the script's `1e-3` (Soli.py:64),
the constant `Tolerance`.

## Model

| member | source | states |
|---|---|---|
| `Solidarity.Fair` | Soli.py:15 | a type's fair premium is positive and at most 50000, and it is exactly 50000 if and only if the type is 6 |
| `Solidarity.FairStrictlyIncreasing` | Soli.py:15 | a higher risk type pays a strictly higher fair premium, and conversely |
| `Solidarity.SumFairPrefix` | Soli.py:15-16 | the fair premiums of types 1..n add up to n(n+1)/2 times 50000/6 |
| `Solidarity.FairPremiumsTotal` | Soli.py:15-16 | the six fair premiums the script sums add up to 175000 |
| `Solidarity.Equal` | Soli.py:16 | the equal premium is 175000/6, and it lies strictly between the fair premiums of types 3 and 4 |
| `Solidarity.FairVersusEqual` | Soli.py:15-16 | types 1-3 have a fair premium below the equal premium, types 4-6 above it; none is equal to it |
| `Solidarity.Solidary` | Soli.py:18-23 | for alpha in [0, 1] the solidary premium lies between min(fair, equal) and max(fair, equal); it is the fair premium at alpha = 0 and the equal premium at alpha = 1 |
| `Solidarity.Delta` | Soli.py:23-24 | the delta to the fair premium is alpha times (equal premium - fair premium) |
| `Solidarity.ExpectedCost` | Soli.py:25 | a type's expected cost is exactly the premium it pays without solidarity (alpha = 0) |
| `Solidarity.GainOrLoss` | Soli.py:24-26 | with the expected cost equal to the fair premium, the insurer's gain/loss on a type equals its delta |
| `Solidarity.NoSolidarity` | Soli.py:23-26 | at alpha = 0 every type's delta and the insurer's gain/loss on it are 0 |
| `Solidarity.FullSolidarity` | Soli.py:23 | at alpha = 1 any two types pay the same premium |
| `Solidarity.DeltaSign` | Soli.py:23-24 | for alpha > 0 the delta is positive exactly for types 1-3 and negative exactly for types 4-6; the delta is 0 exactly when alpha = 0 |
| `Solidarity.SolidaryMonotone` | Soli.py:18-23 | raising alpha never lowers the premium of a type below the mean and never raises the premium of a type above it |
| `Solidarity.HalfSolidarityScenario` | Soli.py:15-24 | at alpha = 0.5, type 1 pays 18750 with delta 62500/6, and type 6 pays 237500/6 with delta -62500/6 |
| `Solidarity.RowFor` | Soli.py:22-33 | the row of type x holds x and its fair premium; its solidary premium is fair premium plus delta, and its gain/loss equals its delta, alpha times (equal premium - fair premium) |
| `Solidarity.RowsUpTo` | Soli.py:20-33 | the rows of types 1..n are n rows, row i being the row of type i + 1 |
| `Solidarity.Rows` | Soli.py:20-33 | the full table has six rows, row i for type i + 1, and on each row the gain/loss is alpha times the gap between the equal premium and that row's fair premium |
| `Solidarity.ComputeRows` | Soli.py:20-33 | the loop yields exactly six rows in type order; row i holds type i + 1 with its fair premium, solidary premium, delta and gain/loss; the result is the full table `Rows(alpha)` |
| `Solidarity.SumGapsIsZero` | Soli.py:16 | the gaps between the equal premium and the six fair premiums add up to exactly 0 |
| `Solidarity.GainColumnIsScaledGaps` | Soli.py:23-26 | the gain/loss column of the table is alpha times the column of gaps (equal - fair) |
| `Solidarity.TotalGainIsZero` | Soli.py:61 | for every alpha in [0, 1] `TotalGain`, the sum of the table's gain/loss column, is exactly 0: the redistribution is zero-sum |
| `Solidarity.BreaksEven` | Soli.py:64 | the test `abs(total) < 1e-3` holds exactly when the total lies strictly between -0.001 and 0.001 |
| `Solidarity.InsurerBreaksEven` | Soli.py:64-65 | the break-even test `BreaksEven` passes on the table's total for every alpha in [0, 1] |

## Left out

- The Streamlit page: page configuration, title, explanatory text, subheaders, the dataframe display and the success/warning banners (Soli.py:1-12, 37-38, 40, 60, 62, 65-67). They only present values the model computes. The slider (Soli.py:18) appears only as the precondition `ValidAlpha`.
- The slider's step of 0.01 and its default of 0.5: the model admits every real `alpha` in `[0, 1]`, which covers all slider positions.
- The matplotlib bar charts (Soli.py:42-58): drawing only, with no behaviour to state.
- The pandas DataFrame and the `"{:,.2f}"` display format (Soli.py:35, 38): the table is a sequence of `Row` values; rounding for display is not modelled. Reading the gain/loss column out of the DataFrame (Soli.py:61) is the helper `GainColumn`, which states nothing of its own; `TotalGainIsZero` states the property of the sum.
- IEEE floating-point rounding: premiums and `alpha` are exact reals. This is why the total is exactly 0 rather than merely within `1e-3`.
- The `fair_premiums` dictionary (Soli.py:15) is modelled as a sequence in type order, entry i for type i + 1. This matches the dictionary's insertion order, which is the order `sum(...values())` adds them in.
- Repeated recomputation on each slider change: every function here is pure, so calling it twice with the same `alpha` gives the same result by construction.
