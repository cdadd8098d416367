/** Photometric band slots shared by the isochrone grid and the marginalisation. */
module Bands {

  /** Number of magnitude slots in every evolutionary point (`FILTS`). Its value is set in
      constants.hpp, which is not part of this model; nothing proved here depends on it. */
  const FILTS: nat

  /** Magnitude written into a slot that was not computed. */
  const SENTINEL: real := 99.999

  /** Every requested band index names a magnitude slot. */
  predicate FiltersOk(filters: seq<int>)
  {
    forall k :: 0 <= k < |filters| ==> 0 <= filters[k] < FILTS
  }

  /** A magnitude row of the fixed width. */
  predicate RowOk(row: seq<real>)
  {
    |row| == FILTS
  }

  /** A row with every slot undefined (`mags.resize(FILTS, 99.999)`). */
  function SentinelRow(): (row: seq<real>)
    ensures RowOk(row)
    ensures forall k :: 0 <= k < FILTS ==> row[k] == SENTINEL
  {
    seq(FILTS, _ => SENTINEL)
  }
}
