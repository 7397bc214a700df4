/** Checked cost arithmetic and the replay cost profile. */
module Costs {
  import opened Base

  datatype CostError = CostOverflow

  datatype CostProfile = CostProfile(directStepCost: uint64, pathStepCost: uint64, trustRootUpdateCost: uint64)

  predicate ValidProfile(profile: CostProfile) {
    profile.directStepCost != 0 && profile.pathStepCost != 0 && profile.trustRootUpdateCost != 0
  }

  /** The division test is exact: it fails precisely when the product does not fit. */
  function CheckedCost(delta: uint64, step: uint64): (r: Result<uint64, CostError>)
    ensures r.Ok? <==> delta * step <= MAX_UINT64
    ensures r.Ok? ==> r.value == delta * step
  {
    if delta != 0 && step > MAX_UINT64 / delta then
      DivisionTestExact(delta, step);
      Err(CostOverflow)
    else
      DivisionTestExact(delta, step);
      Ok(delta * step)
  }

  lemma DivisionTestExact(delta: uint64, step: uint64)
    ensures (delta != 0 && step > MAX_UINT64 / delta) <==> delta * step > MAX_UINT64
    ensures 0 <= delta * step
  {
    if delta != 0 {
      var q := MAX_UINT64 / delta;
      assert q * delta <= MAX_UINT64 < (q + 1) * delta;
      if step > q {
        assert step * delta >= (q + 1) * delta;
      } else {
        assert step * delta <= q * delta;
      }
    }
  }

  /** The subtraction test is exact as well. */
  function CheckedAdd(left: uint64, right: uint64): (r: Result<uint64, CostError>)
    ensures r.Ok? <==> left + right <= MAX_UINT64
    ensures r.Ok? ==> r.value == left + right
  {
    if right > MAX_UINT64 - left then Err(CostOverflow) else Ok(left + right)
  }
}
