/**
 * The land deal calculator's session state: the global rate, the area-unit flag, and one
 * rate and one value per farm. The derived areas, total area and fixed total value are
 * recomputed from the flag and the rate whenever they are read.
 */
module Calculator {
  import Farms
  import opened Allocation

  class LandDealCalculator {
    /** The global average rate per square foot. */
    var rate: real
    /** Whether the actual areas (rather than the paper areas) are in use. */
    var useActual: bool
    /** The rate of each farm. */
    var farmRates: seq<real>
    /** The value of each farm. */
    var farmValues: seq<real>

    /** One rate and one value per farm. */
    ghost predicate Valid()
      reads this
    {
      |farmRates| == |Farms.FARMS| && |farmValues| == |Farms.FARMS|
    }

    /** The farms' areas in square feet under the current unit flag. */
    function Areas(): seq<real>
      reads this`useActual
    {
      Farms.Areas(useActual)
    }

    /** The sum of the derived areas: positive, since every farm has some area. */
    function TotalArea(): (total: real)
      reads this`useActual
      ensures total > 0.0
    {
      SumOfPositive(Areas());
      Sum(Areas())
    }

    /** The fixed target total: whatever it is, the global rate is its average per square foot. */
    function TotalValue(): (value: real)
      reads this`useActual, this`rate
      ensures value / TotalArea() == rate
    {
      TotalArea() * rate
    }

    /** The farm values add up to the fixed total. */
    ghost predicate Balanced()
      reads this
      requires Valid()
    {
      Sum(farmValues) == TotalValue()
    }

    /** Every farm's value is its area times its rate. */
    ghost predicate Consistent()
      reads this
      requires Valid()
    {
      ValuesMatchRates(Areas(), farmRates, farmValues)
    }

    /** The state when the calculator is first shown, before its initial reset runs. */
    constructor ()
      ensures Valid()
      ensures rate == 100.0 && useActual
      ensures farmRates == seq(|Farms.FARMS|, _ => 100.0)
      ensures farmValues == seq(|Farms.FARMS|, _ => 0.0)
    {
      rate := 100.0;
      useActual := true;
      farmRates := seq(|Farms.FARMS|, _ => 100.0);
      farmValues := seq(|Farms.FARMS|, _ => 0.0);
    }

    /**
     * The uniform reset that runs on mount and whenever the global rate or the unit flag
     * changes: every farm takes the global rate and is worth its area times that rate.
     */
    method Reset()
      requires Valid()
      modifies this
      ensures Valid()
      ensures rate == old(rate) && useActual == old(useActual)
      ensures farmRates == ResetRates(|Farms.FARMS|, rate)
      ensures farmValues == ResetValues(Areas(), rate)
      ensures Balanced() && Consistent()
    {
      var areas := Areas();
      farmRates := ResetRates(|Farms.FARMS|, rate);
      farmValues := ResetValues(areas, rate);
      ResetMatchesRates(areas, rate);
    }

    /**
     * A new global rate. The reset runs only if the rate actually changed; re-entering the
     * same rate keeps any per-farm edits.
     */
    method SetRate(newRate: real)
      requires Valid()
      modifies this
      ensures Valid()
      ensures rate == newRate && useActual == old(useActual)
      ensures newRate == old(rate) ==> farmRates == old(farmRates) && farmValues == old(farmValues)
      ensures newRate != old(rate) ==>
                farmRates == ResetRates(|Farms.FARMS|, newRate)
                && farmValues == ResetValues(Areas(), newRate)
                && Balanced() && Consistent()
    {
      if newRate != rate {
        rate := newRate;
        Reset();
      }
    }

    /**
     * A new setting of the area-unit flag. As for the rate, the reset runs only if the flag
     * actually changed.
     */
    method SetUseActual(newUseActual: bool)
      requires Valid()
      modifies this
      ensures Valid()
      ensures useActual == newUseActual && rate == old(rate)
      ensures newUseActual == old(useActual) ==> farmRates == old(farmRates) && farmValues == old(farmValues)
      ensures newUseActual != old(useActual) ==>
                farmRates == ResetRates(|Farms.FARMS|, rate)
                && farmValues == ResetValues(Areas(), rate)
                && Balanced() && Consistent()
    {
      if newUseActual != useActual {
        useActual := newUseActual;
        Reset();
      }
    }

    /**
     * Farm `k`'s rate is edited to `newRate`: farm `k` is worth its area times the new rate,
     * the rest of the fixed total is shared among the other farms in proportion to their
     * areas, and their rates become value over area. The new state depends on nothing but
     * the areas, the total, `k` and `newRate`; it keeps the total and leaves every other
     * farm with one common rate.
     */
    method EditRate(k: nat, newRate: real)
      requires Valid() && k < |Farms.FARMS|
      modifies this
      ensures Valid()
      ensures rate == old(rate) && useActual == old(useActual)
      ensures farmValues == EditedValues(Areas(), TotalValue(), k, newRate)
      ensures farmRates == EditedRates(Areas(), TotalValue(), k, newRate)
      ensures farmValues[k] == Areas()[k] * newRate && farmRates[k] == newRate
      ensures forall i :: 0 <= i < |Farms.FARMS| && i != k ==>
                farmRates[i] == OtherRate(Areas(), TotalValue(), k, newRate)
      ensures Balanced() && Consistent()
    {
      var areas := Areas();
      var totalValue := TotalValue();
      var newValues, newRates := Rebalance(areas, totalValue, farmValues, farmRates, k, newRate);
      farmValues := newValues;
      farmRates := newRates;

      EditConserves(areas, totalValue, k, newRate);
      forall i | 0 <= i < |areas| && i != k
        ensures farmRates[i] == OtherRate(areas, totalValue, k, newRate)
      {
        EditOthersShareRate(areas, totalValue, k, newRate, i);
      }
    }
  }

  /**
   * The body of the rate-change handler: copies of the current values and rates, farm `k` set
   * to its area times `newRate`, then every other farm given its share of
   * what remains of `totalValue` by area and the rate that share implies. Whatever the
   * current values and rates were, the copies end up as the rebalanced state.
   */
  method Rebalance(areas: seq<real>, totalValue: real, oldValues: seq<real>, oldRates: seq<real>, k: nat, newRate: real)
    returns (values: seq<real>, rates: seq<real>)
    requires Positive(areas) && k < |areas|
    requires |oldValues| == |areas| && |oldRates| == |areas|
    ensures values == EditedValues(areas, totalValue, k, newRate)
    ensures rates == EditedRates(areas, totalValue, k, newRate)
  {
    var n := |areas|;
    var newValues := new real[n](i requires 0 <= i < n => oldValues[i]);
    var newRates := new real[n](i requires 0 <= i < n => oldRates[i]);

    var newValue := areas[k] * newRate;
    newValues[k] := newValue;
    newRates[k] := newRate;

    var remainingTotal := totalValue - newValue;
    var otherIndexes := OtherIndexes(n, k);
    var remainingAreas := RemainingAreas(areas, otherIndexes);
    var remainingAreaSum := Sum(remainingAreas);
    assert remainingAreaSum == RemainingAreaSum(areas, k);

    ShareRemainder(areas, totalValue, k, newRate, otherIndexes, remainingAreaSum, remainingTotal, newValues, newRates);
    values, rates := newValues[..], newRates[..];
  }

  /**
   * The loop of the rate-change handler: every farm in `otherIndexes`, in turn, gets its share
   * of `remainingTotal` by area and the rate that share implies. With the edited farm already
   * set, the arrays end as the rebalanced values and rates.
   */
  method ShareRemainder(areas: seq<real>, totalValue: real, k: nat, newRate: real, otherIndexes: seq<nat>,
                        remainingAreaSum: real, remainingTotal: real, newValues: array<real>, newRates: array<real>)
    requires Positive(areas) && k < |areas|
    requires newValues.Length == |areas| && newRates.Length == |areas| && newValues != newRates
    requires otherIndexes == OtherIndexes(|areas|, k)
    requires remainingAreaSum == Sum(areas) - areas[k]
    requires remainingTotal == totalValue - areas[k] * newRate
    requires newValues[k] == areas[k] * newRate && newRates[k] == newRate
    modifies newValues, newRates
    ensures newValues[..] == EditedValues(areas, totalValue, k, newRate)
    ensures newRates[..] == EditedRates(areas, totalValue, k, newRate)
  {
    var n := |areas|;
    ghost var edited := EditedValues(areas, totalValue, k, newRate);
    ghost var editedRates := EditedRates(areas, totalValue, k, newRate);
    for j := 0 to |otherIndexes|
      invariant forall i :: 0 <= i < n && (i == k || i in otherIndexes[..j]) ==>
                  newValues[i] == edited[i] && newRates[i] == editedRates[i]
    {
      var i := otherIndexes[j];
      assert i in otherIndexes;
      EditedShareOfOther(areas, totalValue, k, newRate, i, remainingAreaSum, remainingTotal);
      EditedRateOfOther(areas, totalValue, k, newRate, i);
      newValues[i] := (areas[i] / remainingAreaSum) * remainingTotal;
      newRates[i] := newValues[i] / areas[i];
      assert otherIndexes[..j + 1] == otherIndexes[..j] + [i];
    }

    assert otherIndexes[..|otherIndexes|] == otherIndexes;
    forall i | 0 <= i < n
      ensures newValues[i] == edited[i] && newRates[i] == editedRates[i]
    {
      if i != k {
        assert i in otherIndexes[..|otherIndexes|];
      }
    }
  }

  /**
   * In the uniform state a reset leaves behind, editing any farm to the global rate leaves
   * every rate and every value as it was.
   */
  method EditAtGlobalRateKeepsUniform(calculator: LandDealCalculator, k: nat)
    requires calculator.Valid() && k < |Farms.FARMS|
    requires calculator.farmRates == ResetRates(|Farms.FARMS|, calculator.rate)
    requires calculator.farmValues == ResetValues(calculator.Areas(), calculator.rate)
    modifies calculator
    ensures calculator.Valid() && calculator.rate == old(calculator.rate) && calculator.useActual == old(calculator.useActual)
    ensures calculator.farmRates == old(calculator.farmRates) && calculator.farmValues == old(calculator.farmValues)
  {
    var areas, rate, totalValue := calculator.Areas(), calculator.rate, calculator.TotalValue();
    EditFromResetIsIdentity(areas, rate, totalValue, k);
    calculator.EditRate(k, rate);
  }
}
