/**
 * The arithmetic of the calculator, over exact reals: the total of a list of figures,
 * the uniform reset of every farm to one rate, and the rebalance that follows an edit
 * of a single farm's rate while the total value stays fixed.
 */
module Allocation {

  /** `reduce((sum, a) => sum + a, acc)`: the figures added one by one, left to right, onto `acc`. */
  function Reduce(acc: real, s: seq<real>): real
    decreases |s|
  {
    if s == [] then acc else Reduce(acc + s[0], s[1..])
  }

  /** Starting the reduce from `acc` rather than 0 adds `acc` to its result. */
  lemma {:induction false} ReduceFrom(acc: real, s: seq<real>)
    ensures Reduce(acc, s) == acc + Reduce(0.0, s)
    decreases |s|
  {
    if s != [] {
      ReduceFrom(acc + s[0], s[1..]);
      ReduceFrom(0.0 + s[0], s[1..]);
    }
  }

  /** The total of a list of figures, added up from the front. */
  function Sum(s: seq<real>): real
  {
    if s == [] then 0.0 else s[0] + Sum(s[1..])
  }

  /** The total is what the calculator's `reduce` from 0 computes. */
  lemma {:induction false} SumIsReduce(s: seq<real>)
    ensures Sum(s) == Reduce(0.0, s)
  {
    if s != [] {
      SumIsReduce(s[1..]);
      ReduceFrom(s[0], s[1..]);
    }
  }

  /** Every figure is strictly positive (true of every derived farm area). */
  predicate Positive(s: seq<real>)
  {
    forall i :: 0 <= i < |s| ==> s[i] > 0.0
  }

  lemma {:induction false} SumOfPositive(s: seq<real>)
    requires Positive(s) && s != []
    ensures Sum(s) > 0.0
  {
    if |s| > 1 {
      SumOfPositive(s[1..]);
    }
  }

  /** Multiplying every figure by `c` multiplies the total by `c`. */
  lemma {:induction false} SumScaled(s: seq<real>, t: seq<real>, c: real)
    requires |t| == |s|
    requires forall i :: 0 <= i < |s| ==> t[i] == s[i] * c
    ensures Sum(t) == Sum(s) * c
  {
    if s != [] {
      SumScaled(s[1..], t[1..], c);
    }
  }

  /** Overwriting one figure changes the total by the difference. */
  lemma {:induction false} SumUpdate(s: seq<real>, k: nat, x: real)
    requires k < |s|
    ensures Sum(s[k := x]) == Sum(s) - s[k] + x
  {
    if k > 0 {
      SumUpdate(s[1..], k - 1, x);
      assert s[k := x][1..] == s[1..][k - 1 := x];
    } else {
      assert s[k := x][1..] == s[1..];
    }
  }

  // ---------------------------------------------------------------------------
  // The indexes of the farms other than the edited one
  // ---------------------------------------------------------------------------

  /** The indexes lo, lo + 1, ..., hi - 1 in increasing order (`FARMS.map((_, i) => i)` for lo = 0). */
  function Span(lo: nat, hi: nat): (s: seq<nat>)
    ensures forall x :: x in s <==> lo <= x < hi
    decreases hi - lo
  {
    if lo >= hi then [] else [lo] + Span(lo + 1, hi)
  }

  /** The indexes of `s` other than `k`, in their order (`filter((i) => i !== k)`). */
  function Without(s: seq<nat>, k: nat): (r: seq<nat>)
    ensures forall x :: x in r <==> x in s && x != k
  {
    if s == [] then []
    else
      assert s == [s[0]] + s[1..];
      (if s[0] == k then [] else [s[0]]) + Without(s[1..], k)
  }

  /** The indexes of every farm but the edited one `k`, out of `n` farms. */
  function OtherIndexes(n: nat, k: nat): (others: seq<nat>)
    ensures forall i: nat :: i in others <==> i < n && i != k
  {
    Without(Span(0, n), k)
  }

  /** Each index comes after the one before it, so none appears twice. */
  predicate Increasing(s: seq<nat>)
  {
    forall a, b :: 0 <= a < b < |s| ==> s[a] < s[b]
  }

  lemma {:induction false} SpanInOrder(lo: nat, hi: nat)
    ensures Increasing(Span(lo, hi))
    decreases hi - lo
  {
    if lo < hi {
      var rest := Span(lo + 1, hi);
      SpanInOrder(lo + 1, hi);
      forall a, b | 0 <= a < b < |[lo] + rest|
        ensures ([lo] + rest)[a] < ([lo] + rest)[b]
      {
        if a == 0 {
          assert rest[b - 1] in rest;
        }
      }
    }
  }

  lemma {:induction false} WithoutInOrder(s: seq<nat>, k: nat)
    requires Increasing(s)
    ensures Increasing(Without(s, k))
  {
    if s != [] {
      var tail := s[1..];
      assert Increasing(tail) by {
        forall a, b | 0 <= a < b < |tail|
          ensures tail[a] < tail[b]
        {
          assert tail[a] == s[a + 1] && tail[b] == s[b + 1];
        }
      }
      WithoutInOrder(tail, k);
      var w := Without(tail, k);
      if s[0] != k {
        forall a, b | 0 <= a < b < |[s[0]] + w|
          ensures ([s[0]] + w)[a] < ([s[0]] + w)[b]
        {
          if a == 0 {
            var x := w[b - 1];
            assert x in w;
            var m :| 0 <= m < |tail| && tail[m] == x;
            assert s[m + 1] == x;
          }
        }
      }
    }
  }

  /** The filtered indexes come in increasing order, each of them once. */
  lemma {:induction false} OtherIndexesInOrder(n: nat, k: nat)
    ensures Increasing(OtherIndexes(n, k))
  {
    SpanInOrder(0, n);
    WithoutInOrder(Span(0, n), k);
  }

  /** The areas at the given indexes (`otherIndexes.map((i) => areas[i])`). */
  function RemainingAreas(areas: seq<real>, others: seq<nat>): (r: seq<real>)
    requires forall i :: i in others ==> i < |areas|
    ensures |r| == |others|
    ensures Positive(areas) ==> Positive(r)
  {
    var r := seq(|others|, j requires 0 <= j < |others| => assert others[j] in others; areas[others[j]]);
    assert Positive(areas) ==> Positive(r) by {
      if Positive(areas) {
        forall j | 0 <= j < |others|
          ensures r[j] > 0.0
        {
          assert others[j] in others;
        }
      }
    }
    r
  }

  lemma {:induction false} SumWithout(areas: seq<real>, lo: nat, k: nat)
    requires lo <= |areas| && k < |areas|
    ensures Sum(RemainingAreas(areas, Without(Span(lo, |areas|), k)))
            == Sum(areas[lo..]) - (if lo <= k then areas[k] else 0.0)
    decreases |areas| - lo
  {
    if lo < |areas| {
      var rest := Span(lo + 1, |areas|);
      var w := Without(rest, k);
      assert Without(Span(lo, |areas|), k) == (if lo == k then [] else [lo]) + w by {
        assert Span(lo, |areas|) == [lo] + rest;
        assert ([lo] + rest)[1..] == rest;
      }
      SumWithout(areas, lo + 1, k);
      assert Sum(areas[lo..]) == areas[lo] + Sum(areas[lo + 1..]) by {
        assert areas[lo..][1..] == areas[lo + 1..];
      }
      if lo == k {
        assert [] + w == w;
      } else {
        var r := RemainingAreas(areas, [lo] + w);
        assert Sum(r) == areas[lo] + Sum(RemainingAreas(areas, w)) by {
          assert r[1..] == RemainingAreas(areas, w);
        }
      }
    } else {
      assert areas[lo..] == [];
    }
  }

  /**
   * The total area of the farms other than `k`, computed as the calculator's rate-change
   * handler does (filter the indexes, look up their areas, add them up): it is the total area
   * less the edited farm's, and it is positive as soon as there is another farm.
   */
  function RemainingAreaSum(areas: seq<real>, k: nat): (s: real)
    requires Positive(areas) && k < |areas|
    ensures s == Sum(areas) - areas[k]
    ensures |areas| >= 2 ==> s > 0.0
  {
    var others := OtherIndexes(|areas|, k);
    var remaining := RemainingAreas(areas, others);
    SumWithout(areas, 0, k);
    assert areas[0..] == areas;
    if |areas| >= 2 then
      assert (if k == 0 then 1 else 0) in others;
      SumOfPositive(remaining);
      Sum(remaining)
    else
      Sum(remaining)
  }

  /** With another farm besides `k`, the area outside farm `k` is positive. */
  lemma {:induction false} RemainingAreaPositive(areas: seq<real>, k: nat)
    requires Positive(areas) && k < |areas|
    ensures |areas| >= 2 ==> Sum(areas) - areas[k] > 0.0
  {
    assert |areas| >= 2 ==> RemainingAreaSum(areas, k) > 0.0;
  }

  // ---------------------------------------------------------------------------
  // Uniform reset
  // ---------------------------------------------------------------------------

  /** Every farm's rate after a reset (`FARMS.map(() => rate)`): one per farm, all of them the global rate. */
  function ResetRates(n: nat, rate: real): (rates: seq<real>)
    ensures |rates| == n
    ensures forall i :: 0 <= i < n ==> rates[i] == rate
  {
    seq(n, _ => rate)
  }

  /**
   * Every farm's value after a reset, its area times the global rate (`areas.map((a) => a * rate)`):
   * together they make up exactly the total area times the rate.
   */
  function ResetValues(areas: seq<real>, rate: real): (values: seq<real>)
    ensures |values| == |areas|
    ensures forall i :: 0 <= i < |areas| ==> values[i] == areas[i] * rate
    ensures Sum(values) == Sum(areas) * rate
  {
    var values := seq(|areas|, i requires 0 <= i < |areas| => areas[i] * rate);
    SumScaled(areas, values, rate);
    values
  }

  /** Every farm's value is its area times its rate. */
  ghost predicate ValuesMatchRates(areas: seq<real>, rates: seq<real>, values: seq<real>)
    requires |rates| == |areas| && |values| == |areas|
  {
    forall i :: 0 <= i < |areas| ==> values[i] == areas[i] * rates[i]
  }

  /** After a reset every farm's value is its area times its rate. */
  lemma {:induction false} ResetMatchesRates(areas: seq<real>, rate: real)
    ensures |ResetRates(|areas|, rate)| == |areas| && |ResetValues(areas, rate)| == |areas|
    ensures ValuesMatchRates(areas, ResetRates(|areas|, rate), ResetValues(areas, rate))
  {
  }

  // ---------------------------------------------------------------------------
  // Rebalance after one farm's rate is edited
  // ---------------------------------------------------------------------------

  /**
   * The values after farm `k` is set to `newRate`: farm `k` is worth its area times the new
   * rate, and what remains of `totalValue` goes to the other farms in proportion to their
   * share of the remaining area.
   */
  function EditedValues(areas: seq<real>, totalValue: real, k: nat, newRate: real): (values: seq<real>)
    requires Positive(areas) && k < |areas|
    ensures |values| == |areas|
    ensures values[k] == areas[k] * newRate
  {
    var newValue := areas[k] * newRate;
    var remainingTotal := totalValue - newValue;
    var remainingAreaSum := Sum(areas) - areas[k];
    RemainingAreaPositive(areas, k);
    seq(|areas|, i requires 0 <= i < |areas| =>
      if i == k then newValue else (areas[i] / remainingAreaSum) * remainingTotal)
  }

  /**
   * The rates after farm `k` is set to `newRate`: `newRate` for farm `k`, value over area for
   * every other farm; so every farm's value is its area times its rate.
   */
  function EditedRates(areas: seq<real>, totalValue: real, k: nat, newRate: real): (rates: seq<real>)
    requires Positive(areas) && k < |areas|
    ensures |rates| == |areas|
    ensures rates[k] == newRate
    ensures ValuesMatchRates(areas, rates, EditedValues(areas, totalValue, k, newRate))
  {
    var values := EditedValues(areas, totalValue, k, newRate);
    var rates := seq(|areas|, i requires 0 <= i < |areas| => if i == k then newRate else values[i] / areas[i]);
    assert ValuesMatchRates(areas, rates, values) by {
      forall i | 0 <= i < |areas|
        ensures values[i] == areas[i] * rates[i]
      {
        if i != k {
          QuotientTimesDivisor(rates[i], values[i], areas[i]);
        }
      }
    }
    rates
  }

  /**
   * The rate every farm other than `k` ends up with: what remains of the total per unit of
   * remaining area.
   */
  function OtherRate(areas: seq<real>, totalValue: real, k: nat, newRate: real): (rate: real)
    requires Positive(areas) && k < |areas| && |areas| >= 2
    ensures rate * (Sum(areas) - areas[k]) == totalValue - areas[k] * newRate
  {
    RemainingAreaPositive(areas, k);
    var rate := (totalValue - areas[k] * newRate) / (Sum(areas) - areas[k]);
    QuotientTimesDivisor(rate, totalValue - areas[k] * newRate, Sum(areas) - areas[k]);
    rate
  }

  /**
   * The other farms' rate is negative exactly when the edited farm alone is worth more than
   * the total, and zero exactly when it is worth the whole total; nothing guards against the
   * negative case.
   */
  lemma {:induction false} OtherRateSign(areas: seq<real>, totalValue: real, k: nat, newRate: real)
    requires Positive(areas) && k < |areas| && |areas| >= 2
    ensures OtherRate(areas, totalValue, k, newRate) < 0.0 <==> areas[k] * newRate > totalValue
    ensures OtherRate(areas, totalValue, k, newRate) == 0.0 <==> areas[k] * newRate == totalValue
  {
    var s := Sum(areas) - areas[k];
    RemainingAreaPositive(areas, k);
    QuotientSign(totalValue - areas[k] * newRate, s);
  }

  lemma {:induction false} QuotientSign(x: real, s: real)
    requires s > 0.0
    ensures x / s < 0.0 <==> x < 0.0
    ensures x / s == 0.0 <==> x == 0.0
  {
  }

  /** After an edit of farm `k`, every other farm has the same rate, `OtherRate`. */
  lemma {:induction false} EditOthersShareRate(areas: seq<real>, totalValue: real, k: nat, newRate: real, i: nat)
    requires Positive(areas) && k < |areas| && |areas| >= 2
    requires i < |areas| && i != k
    ensures EditedRates(areas, totalValue, k, newRate)[i] == OtherRate(areas, totalValue, k, newRate)
    ensures EditedValues(areas, totalValue, k, newRate)[i] == areas[i] * OtherRate(areas, totalValue, k, newRate)
  {
    var s := Sum(areas) - areas[k];
    var rem := totalValue - areas[k] * newRate;
    var v := EditedValues(areas, totalValue, k, newRate)[i];
    EditedValueOfOther(areas, totalValue, k, newRate, i);
    ProportionalShare(areas[i], s, rem, v);
    assert EditedRates(areas, totalValue, k, newRate)[i] == v / areas[i];
    assert OtherRate(areas, totalValue, k, newRate) == rem / s;
  }

  /** A share a / s of rem is a times the rate rem / s, and that rate is the share over a. */
  lemma {:induction false} ProportionalShare(a: real, s: real, rem: real, v: real)
    requires a != 0.0 && s != 0.0 && v == (a / s) * rem
    ensures v == a * (rem / s) && v / a == rem / s
  {
  }

  /**
   * Conservation: whatever the edited farm and its new rate, the values after the edit add
   * up to the fixed total (as long as some other farm is there to absorb the remainder).
   */
  lemma {:induction false} EditConserves(areas: seq<real>, totalValue: real, k: nat, newRate: real)
    requires Positive(areas) && k < |areas| && |areas| >= 2
    ensures Sum(EditedValues(areas, totalValue, k, newRate)) == totalValue
  {
    var values := EditedValues(areas, totalValue, k, newRate);
    var c := OtherRate(areas, totalValue, k, newRate);
    forall i | 0 <= i < |areas| && i != k
      ensures values[i] == areas[i] * c
    {
      EditOthersShareRate(areas, totalValue, k, newRate, i);
    }
    SumAllButOne(values, areas, k, c);
  }

  /**
   * When every figure but the k-th is its area times c, the figures add up to c times the
   * area outside k plus the k-th figure.
   */
  lemma {:induction false} SumAllButOne(values: seq<real>, areas: seq<real>, k: nat, c: real)
    requires |values| == |areas| && k < |areas|
    requires forall i :: 0 <= i < |areas| && i != k ==> values[i] == areas[i] * c
    ensures Sum(values) == (Sum(areas) - areas[k]) * c + values[k]
  {
    if k == 0 {
      SumScaled(areas[1..], values[1..], c);
    } else {
      SumAllButOne(values[1..], areas[1..], k - 1, c);
    }
  }

  /**
   * Editing farm `k` to the global rate in the state a reset leaves behind (so the total is
   * the total area times that rate) changes nothing: every value stays its area times the rate
   * and every rate stays the global rate.
   */
  lemma {:induction false} EditFromResetIsIdentity(areas: seq<real>, rate: real, totalValue: real, k: nat)
    requires Positive(areas) && k < |areas| && totalValue == Sum(areas) * rate
    ensures EditedValues(areas, totalValue, k, rate) == ResetValues(areas, rate)
    ensures EditedRates(areas, totalValue, k, rate) == ResetRates(|areas|, rate)
  {
    var values := EditedValues(areas, totalValue, k, rate);
    var rates := EditedRates(areas, totalValue, k, rate);
    forall i | 0 <= i < |areas|
      ensures values[i] == ResetValues(areas, rate)[i] && rates[i] == ResetRates(|areas|, rate)[i]
    {
      EditFromResetAt(areas, rate, totalValue, k, i);
    }
  }

  lemma {:induction false} EditFromResetAt(areas: seq<real>, rate: real, totalValue: real, k: nat, i: nat)
    requires Positive(areas) && k < |areas| && totalValue == Sum(areas) * rate && i < |areas|
    ensures EditedValues(areas, totalValue, k, rate)[i] == areas[i] * rate
    ensures EditedRates(areas, totalValue, k, rate)[i] == rate
  {
    if i != k {
      assert OtherRate(areas, totalValue, k, rate) == rate by {
        OtherRateAtGlobalRate(areas, rate, totalValue, k);
      }
      EditOthersShareRate(areas, totalValue, k, rate, i);
    }
  }

  /** Starting from the total a reset distributes, the other farms' rate is the global rate. */
  lemma {:induction false} OtherRateAtGlobalRate(areas: seq<real>, rate: real, totalValue: real, k: nat)
    requires Positive(areas) && k < |areas| && |areas| >= 2 && totalValue == Sum(areas) * rate
    ensures OtherRate(areas, totalValue, k, rate) == rate
  {
    var s := Sum(areas) - areas[k];
    RemainingAreaPositive(areas, k);
    assert totalValue - areas[k] * rate == rate * s;
    QuotientOfMultiple(OtherRate(areas, totalValue, k, rate), totalValue - areas[k] * rate, s, rate);
  }

  lemma {:induction false} QuotientOfMultiple(q: real, n: real, s: real, r: real)
    requires s != 0.0 && q == n / s && n == r * s
    ensures q == r
  {
  }

  /**
   * Editing a different farm `j` to the exact rate it holds after an edit of farm `k` moves
   * farm `k`'s value, unless farm `k` was edited to the other farms' common rate: editing a
   * farm to its current rate leaves the other farms alone only from a uniform state.
   */
  lemma {:induction false} EditElsewhereAtCurrentRate(areas: seq<real>, totalValue: real, k: nat, newRate: real, j: nat)
    requires Positive(areas) && |areas| >= 3 && k < |areas| && j < |areas| && j != k
    ensures var current := EditedRates(areas, totalValue, k, newRate)[j];
            EditedValues(areas, totalValue, j, current)[k] == EditedValues(areas, totalValue, k, newRate)[k]
            <==> current == newRate
  {
    var c := OtherRate(areas, totalValue, k, newRate);
    var current := EditedRates(areas, totalValue, k, newRate)[j];
    assert current == c by {
      EditOthersShareRate(areas, totalValue, k, newRate, j);
    }
    EditElsewhereKeepsIff(areas, totalValue, k, newRate, j);
  }

  /** Farm `k`'s value after farm `j` is edited to the other farms' rate, against its value now. */
  lemma {:induction false} EditElsewhereKeepsIff(areas: seq<real>, totalValue: real, k: nat, newRate: real, j: nat)
    requires Positive(areas) && |areas| >= 3 && k < |areas| && j < |areas| && j != k
    ensures var c := OtherRate(areas, totalValue, k, newRate);
            EditedValues(areas, totalValue, j, c)[k] == areas[k] * newRate <==> c == newRate
  {
    var c := OtherRate(areas, totalValue, k, newRate);
    var v := EditedValues(areas, totalValue, j, c)[k];
    var total := Sum(areas);
    EditedValueOfOther(areas, totalValue, j, c, k);
    RestAfterTwoPositive(areas, k, j);
    ShareMatchesIff(areas[k], areas[j], total, total - areas[k], total - areas[j], totalValue, newRate, c, v);
  }

  /** The value of a farm `i` other than the edited `k`: its share of the remaining area times what remains of the total. */
  lemma {:induction false} EditedValueOfOther(areas: seq<real>, totalValue: real, k: nat, newRate: real, i: nat)
    requires Positive(areas) && k < |areas| && i < |areas| && i != k
    ensures Sum(areas) - areas[k] > 0.0
    ensures EditedValues(areas, totalValue, k, newRate)[i]
            == (areas[i] / (Sum(areas) - areas[k])) * (totalValue - areas[k] * newRate)
  {
    RemainingAreaPositive(areas, k);
  }

  /** The rate of a farm `i` other than the edited `k`: its new value over its area. */
  lemma {:induction false} EditedRateOfOther(areas: seq<real>, totalValue: real, k: nat, newRate: real, i: nat)
    requires Positive(areas) && k < |areas| && i < |areas| && i != k
    ensures EditedRates(areas, totalValue, k, newRate)[i] == EditedValues(areas, totalValue, k, newRate)[i] / areas[i]
  {
  }

  /**
   * The value of a farm `i` other than the edited `k`, written with the remaining area sum and
   * the remaining total as the rebalance computes them.
   */
  lemma {:induction false} EditedShareOfOther(areas: seq<real>, totalValue: real, k: nat, newRate: real, i: nat,
                                              remainingAreaSum: real, remainingTotal: real)
    requires Positive(areas) && k < |areas| && i < |areas| && i != k
    requires remainingAreaSum == Sum(areas) - areas[k]
    requires remainingTotal == totalValue - areas[k] * newRate
    ensures remainingAreaSum > 0.0
    ensures EditedValues(areas, totalValue, k, newRate)[i] == (areas[i] / remainingAreaSum) * remainingTotal
  {
    EditedValueOfOther(areas, totalValue, k, newRate, i);
  }

  lemma {:induction false} QuotientTimesDivisor(q: real, n: real, s: real)
    requires s != 0.0 && q == n / s
    ensures q * s == n
  {
  }

  /** With at least three farms, taking two of them out leaves a positive area. */
  lemma {:induction false} RestAfterTwoPositive(areas: seq<real>, k: nat, j: nat)
    requires Positive(areas) && |areas| >= 3 && k < |areas| && j < |areas| && j != k
    ensures Sum(areas) - areas[k] - areas[j] > 0.0
  {
    var t := areas[k := 0.0][j := 0.0];
    SumUpdate(areas, k, 0.0);
    SumUpdate(areas[k := 0.0], j, 0.0);
    var m := if 0 != k && 0 != j then 0 else if 1 != k && 1 != j then 1 else 2;
    SumAtLeast(t, m);
  }

  lemma {:induction false} SumAtLeast(s: seq<real>, m: nat)
    requires forall i :: 0 <= i < |s| ==> s[i] >= 0.0
    requires m < |s|
    ensures Sum(s) >= s[m]
  {
    if m == 0 {
      if |s| > 1 {
        SumNonNegative(s[1..]);
      }
    } else {
      SumAtLeast(s[1..], m - 1);
    }
  }

  lemma {:induction false} SumNonNegative(s: seq<real>)
    requires forall i :: 0 <= i < |s| ==> s[i] >= 0.0
    ensures Sum(s) >= 0.0
  {
    if s != [] {
      SumNonNegative(s[1..]);
    }
  }

  /**
   * The algebra behind EditElsewhereAtCurrentRate: with c * dk == total - ak * r, the share
   * v == ak / (t - aj) * (total - aj * c) equals ak * r exactly when c == r.
   */
  lemma {:induction false} ShareMatchesIff(ak: real, aj: real, t: real, dk: real, d: real, total: real, r: real, c: real, v: real)
    requires ak > 0.0 && t - ak - aj > 0.0 && aj > 0.0 && dk == t - ak && d == t - aj
    requires c * dk == total - ak * r
    requires v == (ak / d) * (total - aj * c)
    ensures v == ak * r <==> c == r
  {
    var e := t - ak - aj;
    assert total - aj * c - r * d == (c - r) * e;
    assert (ak / d) * (total - aj * c) == ak * ((total - aj * c) / d);
    if c == r {
      assert total - aj * c == r * d;
    } else {
      assert total - aj * c != r * d;
      assert (total - aj * c) / d != r;
    }
  }
}
