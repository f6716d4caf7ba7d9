/** The five land parcels of the calculator and the derivation of their areas in square feet. */
module Farms {

  /** A land parcel: its row id, its survey number and its two area figures in square metres. */
  datatype Farm = Farm(id: nat, farmNo: nat, paperArea: nat, actualArea: nat)

  /** The fixed list of parcels the calculator distributes value over. */
  const FARMS: seq<Farm> := [
    Farm(1, 992, 5945, 6418),
    Farm(2, 991, 5209, 5246),
    Farm(3, 988, 4679, 4439),
    Farm(4, 893, 4679, 4624),
    Farm(5, 894, 4557, 4518)
  ]

  /** Square feet in one square metre. */
  const SQMT_TO_SQFT: real := 10.7639

  /** The area figure the unit flag selects: the actual area when it is set, the paper area otherwise. */
  function SelectedSqMt(farm: Farm, useActual: bool): nat
  {
    if useActual then farm.actualArea else farm.paperArea
  }

  /** The selected area of each farm, converted to square feet, in list order. */
  function ToSqFt(farms: seq<Farm>, useActual: bool): (areas: seq<real>)
    ensures |areas| == |farms|
    ensures forall i :: 0 <= i < |farms| ==>
              areas[i] == SelectedSqMt(farms[i], useActual) as real * SQMT_TO_SQFT
  {
    if farms == [] then []
    else [SelectedSqMt(farms[0], useActual) as real * SQMT_TO_SQFT] + ToSqFt(farms[1..], useActual)
  }

  /** The derived areas of the fixed farms: one entry per farm, each of them positive. */
  function Areas(useActual: bool): (areas: seq<real>)
    ensures |areas| == |FARMS|
    ensures forall i :: 0 <= i < |areas| ==> areas[i] > 0.0
  {
    ToSqFt(FARMS, useActual)
  }

  /** Farm 988 (the third row) measures 4439 square metres in actual area, 47780.9521 square feet. */
  lemma ActualAreaOfFarm988()
    ensures FARMS[2].farmNo == 988
    ensures Areas(true)[2] == 47780.9521
  {
  }
}
