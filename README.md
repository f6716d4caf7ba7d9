# Land deal calculator: value allocation model

This project models the value allocation of the land deal calculator, a single React
component that spreads the value of a deal across five land parcels ("farms").

The component works like this:

- Each farm has a paper area and an actual area in square metres.
- A flag chooses which area figure is used. The chosen figure is converted to square feet
  at 10.7639 square feet per square metre.
- The fixed total value of the deal is the total area times a global rate per square foot.
- Whenever the global rate or the flag changes, a uniform reset gives every farm the global
  rate. Each farm is then worth its area times that rate.
- When the user edits one farm's rate, that farm is worth its area times the new rate. What
  remains of the fixed total is shared among the other farms in proportion to their areas.
  Each of those farms then gets the rate its share implies.

The model has three modules:

- `Farms` (`farms.dfy`) holds the parcel list, the conversion constant and the derived areas.
- `Allocation` (`allocation.dfy`) holds the arithmetic of the calculator as functions on
  sequences of reals:
  - the sum (the calculator's `reduce`);
  - the index filter and the remaining area;
  - the reset state and the rebalanced state after an edit;
  - the lemmas about them.
- `Calculator` (`calculator.dfy`) holds the component's state as the class
  `LandDealCalculator`:
  - its fields are the global rate, the area flag, the per-farm rates and the per-farm values;
  - its methods are the reset, the two setters and the rate edit;
  - the handler's own array work is the method `Rebalance`. It copies the current values and
    rates, sets the edited farm, and computes the filtered indexes and the remaining area sum.
    It then hands the arrays to `ShareRemainder`, which loops over the other indexes.

Two predicates describe the class state. `Balanced` says the values add up to the fixed total.
`Consistent` says every value is its farm's area times its rate. The reset and the edit both
establish them. The edit does so from any prior state: its result depends only on the areas,
the total, the edited index and the new rate.

Arithmetic is over mathematical reals, not IEEE doubles.

Three facts about the model over exact reals that the lemmas pin down:

- Farm 988's actual area of 4439 square metres converts to exactly 47780.9521 square feet
  over the reals (`Farms.ActualAreaOfFarm988`). In IEEE doubles the same product is
  47780.952099999995.
- From a uniform (reset) state, editing any farm k to the exact global rate changes nothing
  (`Allocation.EditFromResetIsIdentity`, `Calculator.EditAtGlobalRateKeepsUniform`).
- After farm k is edited to rate r, editing another farm j to its exact current rate keeps
  farm k's value if and only if that rate equals r (`Allocation.EditElsewhereAtCurrentRate`).

## Model

| member | source | states |
|---|---|---|
| Farms.ToSqFt | src/app/calc.jsx:29-31 | one area per farm, in list order, each the selected square-metre figure (actual when the flag is set, paper otherwise) times 10.7639 |
| Farms.Areas | src/app/calc.jsx:4-31 | the derived areas of the five fixed farms: one entry per farm, every one of them positive |
| Farms.ActualAreaOfFarm988 | src/app/calc.jsx:4-13 | the third farm is farm 988, and its actual area converts to exactly 47780.9521 square feet |
| Allocation.Sum | src/app/calc.jsx:32 | the total of a list of figures, added up from the front; its relation to the calculator's reduce is the next row |
| Allocation.SumIsReduce | src/app/calc.jsx:32 | the total equals the left-to-right `reduce` from 0 that the calculator uses for the total area and the remaining area |
| Allocation.SumScaled | src/app/calc.jsx:32-33 | scaling every entry by the same factor scales the sum by that factor; so the sum of area × rate is the total area × rate |
| Calculator.LandDealCalculator.TotalArea | src/app/calc.jsx:32 | the sum of the derived areas is positive |
| Calculator.LandDealCalculator.TotalValue | src/app/calc.jsx:24-33 | the fixed total over the total area is the global rate: the global rate is the average rate per square foot |
| Allocation.OtherIndexes | src/app/calc.jsx:55 | the filtered index list holds every index below the farm count other than the edited one, and nothing else |
| Allocation.OtherIndexesInOrder | src/app/calc.jsx:55 | the filtered index list is strictly increasing, so each index appears once |
| Allocation.RemainingAreas | src/app/calc.jsx:57 | one area per filtered index; positive areas give positive remaining areas |
| Allocation.RemainingAreaSum | src/app/calc.jsx:55-58 | the summed areas of the other farms equal the total area minus the edited farm's area, and are positive when there are at least two farms |
| Allocation.SumWithout | src/app/calc.jsx:55-58 | the remaining-area sum over any suffix of indexes, with one index filtered out, is the suffix sum minus that index's area if it lies in the suffix |
| Allocation.ResetRates | src/app/calc.jsx:37 | one rate per farm, every one of them the global rate |
| Allocation.ResetValues | src/app/calc.jsx:32-39 | one value per farm, each its area times the global rate, and together exactly the total area times the global rate |
| Allocation.ResetMatchesRates | src/app/calc.jsx:36-41 | after a reset every farm's value is its area times its rate |
| Allocation.EditedValues | src/app/calc.jsx:49-61 | one value per farm after an edit, the edited farm's being its area times the new rate (the other farms' values are the EditOthersShareRate row, their sum the EditConserves row) |
| Allocation.EditedRates | src/app/calc.jsx:49-62 | one rate per farm after an edit, the edited farm's being the new rate, and every farm's edited value is its area times its rate |
| Allocation.OtherRate | src/app/calc.jsx:54-62 | the rate left to the other farms, spread over the remaining area, makes up exactly the total less the edited farm's new value |
| Allocation.EditOthersShareRate | src/app/calc.jsx:54-62 | every farm other than the edited one ends with the same rate, the remaining total over the remaining area, and is worth its area times that rate |
| Allocation.OtherRateSign | src/app/calc.jsx:54-62 | that common rate is negative exactly when the edited farm's new value exceeds the fixed total, and zero exactly when it equals it |
| Allocation.EditConserves | src/app/calc.jsx:45-63 | after any edit, to any rate, the values add up to the fixed total |
| Allocation.EditFromResetIsIdentity | src/app/calc.jsx:36-63 | from the reset state, editing any farm to the global rate gives back the reset values and rates |
| Allocation.EditElsewhereAtCurrentRate | src/app/calc.jsx:45-63 | after farm k is edited to r, editing another farm j to its exact current rate keeps farm k's value if and only if that rate is r |
| Calculator.Rebalance | src/app/calc.jsx:44-63 | the copied arrays, updated at the edited farm and then at every other farm, end as exactly the rebalanced values and rates, whatever the current values and rates were |
| Calculator.ShareRemainder | src/app/calc.jsx:60-63 | with the edited farm already set, the loop over the other indexes leaves the arrays holding exactly the rebalanced values and rates |
| Calculator.LandDealCalculator.constructor | src/app/calc.jsx:24-27 | the initial state: global rate 100, actual areas, every farm rate 100 and every value 0 |
| Calculator.LandDealCalculator.Reset | src/app/calc.jsx:36-41 | every rate becomes the global rate and every value the area times it; the values then balance to the fixed total and match the rates |
| Calculator.LandDealCalculator.SetRate | src/app/calc.jsx:36-41 | a changed global rate triggers the reset; setting the same rate leaves the per-farm state untouched |
| Calculator.LandDealCalculator.SetUseActual | src/app/calc.jsx:29-41 | a changed area flag switches the areas and triggers the reset; setting the same flag leaves the per-farm state untouched |
| Calculator.LandDealCalculator.EditRate | src/app/calc.jsx:44-67 | the new values and rates are the rebalanced state for the current areas and fixed total; the edited farm gets the new rate, the others one common rate, and the state stays balanced and consistent |
| Calculator.EditAtGlobalRateKeepsUniform | src/app/calc.jsx:36-67 | in a reset state, editing any farm to the global rate changes no rate and no value |

## Left out

- The JSX markup, the input elements and their event wiring are not modelled. The setters
  and the edit are modelled as methods that take the new number directly.
- The Indian-currency formatter and the `toLocaleString` display of areas and values are not
  modelled. They only render values.
- The rate input shows each farm rate rounded to two decimals (`farmRates[index].toFixed(2)`,
  calc.jsx:115), and the user edits that text (calc.jsx:116-117). `EditRate` takes any real
  rate instead. So the lemmas about editing to the global rate or to a farm's current rate
  are about the exact rate. When that rate has more than two decimals (a global rate of
  100.125, say), re-entering the displayed text in the program is an edit to a different rate
  and changes the values.
- An empty or unparsable rate field reads as 0 (`Number("")` is 0, and a number input reports
  text it cannot parse as empty), so clearing the global rate (calc.jsx:79) or a farm rate
  (calc.jsx:117) is covered as `SetRate(0.0)` or `EditRate(k, 0.0)`. What is not modelled is
  `Number(...)`'s coercion as such and the `Infinity` or `NaN` that out-of-range or otherwise
  unconvertible text would give. Rates are reals.
- IEEE double rounding is not modelled. Every product, quotient and sum is exact over the
  reals, so conservation holds exactly in the model and only up to rounding in the program.
- React's scheduling is not modelled. The mount-time run of the reset effect is an explicit
  call of `Reset` after construction. A state update with an unchanged value skipping the
  effect is modelled by `SetRate` and `SetUseActual` resetting only on a change.
- `src/app/page.js` only mounts the component and is not part of this model.
- Allocation.EditConserves: requires at least two farms. With a single farm there is no
  other farm to absorb the remainder. The fixed list has five.
- Allocation.EditElsewhereAtCurrentRate: requires at least three farms, so that something
  remains outside the two edited farms.
