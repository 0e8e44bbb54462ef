/**
 * `PorousFlowPorosityAllBlocks`: a constant porosity per block, read from
 * column `col_index` of a CSV file whose line `k` holds the value of block
 * `k + 1`.
 */
module PorosityAllBlocks {
  import opened Errors
  import opened Geometry
  import opened TableText
  import opened BlockTable

  class PorousFlowPorosityAllBlocks {
    var porosityData: seq<real>
    /** `_num_var`, the number of porous-flow variables. */
    const numVar: nat
    /** The automatic-differentiation instantiation, which keeps no derivative arrays. */
    const isAd: bool
    /** The quadrature point's `_porosity`, `_dporosity_dvar` and `_dporosity_dgradvar`. */
    var porosity: real
    var dPorosityDVar: seq<real>
    var dPorosityDGradVar: seq<Vec3>

    constructor(numVar: nat, isAd: bool)
      ensures this.numVar == numVar && this.isAd == isAd
      ensures porosityData == [] && dPorosityDVar == [] && dPorosityDGradVar == []
    {
      this.numVar, this.isAd := numVar, isAd;
      porosityData, porosity, dPorosityDVar, dPorosityDGradVar := [], 0.0, [], [];
    }

    /** The constructor's reading of the file: one value per line, or the first error. */
    method Load(content: string, col: nat, stod: string -> Result<real>) returns (o: Outcome)
      requires col < TwoTo32
      modifies this`porosityData
      ensures o.Pass? ==> ReadColumn(ReadLines(content), col, stod) == Ok(porosityData)
      ensures o.Pass? ==> |porosityData| == |ReadLines(content)|
      ensures o.Fail? ==> ReadColumn(ReadLines(content), col, stod) == Err(o.error)
    {
      var r := ReadTable(content, col, stod);
      if r.Err? {
        return Fail(r.error);
      }
      porosityData := r.value;
      return Pass;
    }

    /** `initQpStatefulProperties`: the porosity of the element's block, or "not found". */
    method InitQp(block: nat) returns (o: Outcome)
      modifies this`porosity
      ensures o.Pass? <==> 1 <= block <= |porosityData|
      ensures o.Pass? ==> porosity == porosityData[block - 1]
      ensures o.Fail? ==> o.error == BlockNotFound(block) && porosity == old(porosity)
    {
      var v := BlockValue(porosityData, block);
      if v.Err? {
        return Fail(v.error);
      }
      porosity := v.value;
      return Pass;
    }

    /** `computeQpProperties`: the porosity, then (without AD) derivative arrays of `numVar` zeros. */
    method ComputeQp(block: nat) returns (o: Outcome)
      modifies this`porosity, this`dPorosityDVar, this`dPorosityDGradVar
      ensures o.Pass? <==> 1 <= block <= |porosityData|
      ensures o.Pass? ==> porosity == porosityData[block - 1]
      ensures o.Pass? && !isAd ==> dPorosityDVar == Zeros(numVar) && dPorosityDGradVar == ZeroGradients(numVar)
      ensures o.Fail? ==> o.error == BlockNotFound(block) && porosity == old(porosity)
      ensures o.Fail? || isAd ==> dPorosityDVar == old(dPorosityDVar) && dPorosityDGradVar == old(dPorosityDGradVar)
    {
      o := InitQp(block);
      if o.Fail? {
        return;
      }
      if !isAd {
        dPorosityDVar := Zeros(numVar);
        dPorosityDGradVar := ZeroGradients(numVar);
      }
    }
  }
}
