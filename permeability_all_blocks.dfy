/**
 * `PorousFlowPermeabilityAllBlocks`: an isotropic permeability per block,
 * read from column `col_index` of a CSV file whose line `k` holds the value
 * of block `k + 1`.
 */
module PermeabilityAllBlocks {
  import opened Errors
  import opened Geometry
  import opened TableText
  import opened BlockTable

  /** `LIBMESH_DIM`, which is also `Moose::dim`. */
  const Dim: nat := 3

  /** The tensor with `v` on the diagonal and 0 elsewhere. */
  function Diagonal(v: real): (t: Tensor)
    ensures forall i, j :: 0 <= i < 3 && 0 <= j < 3 ==> Entry(t, i, j) == if i == j then v else 0.0
  {
    Tensor(v, 0.0, 0.0,
           0.0, v, 0.0,
           0.0, 0.0, v)
  }

  /** `std::vector::resize(n, pad)`: the first `n` old entries are kept and room beyond the old end holds `pad`. */
  function Resize<T>(s: seq<T>, n: nat, pad: T): (r: seq<T>)
    ensures |r| == n
    ensures forall i :: 0 <= i < n && i < |s| ==> r[i] == s[i]
    ensures forall i :: |s| <= i < n ==> r[i] == pad
  {
    if n <= |s| then s[..n] else s + seq(n - |s|, _ => pad)
  }

  /** Resizing twice to the same length is resizing once: repeated quadrature points keep the arrays as they are. */
  lemma ResizeIdempotent<T>(s: seq<T>, n: nat, pad: T)
    ensures Resize(Resize(s, n, pad), n, pad) == Resize(s, n, pad)
  {
  }

  /**
   * The gradient derivatives after `resize(LIBMESH_DIM)` and the resize of
   * each of the first `Moose::dim` rows to `numVar` zero tensors.
   */
  function GradRows(rows: seq<seq<Tensor>>, numVar: nat): (r: seq<seq<Tensor>>)
    ensures |r| == Dim
    ensures forall i :: 0 <= i < Dim ==> r[i] == Resize(if i < |rows| then rows[i] else [], numVar, ZeroTensor)
  {
    var g := Resize(rows, Dim, []);
    seq(Dim, i requires 0 <= i < Dim => Resize(g[i], numVar, ZeroTensor))
  }

  /** Starting from empty arrays, every derivative entry is a zero tensor. */
  lemma FreshDerivativesAreZero(numVar: nat)
    ensures Resize([], numVar, ZeroTensor) == seq(numVar, _ => ZeroTensor)
    ensures forall i, j :: 0 <= i < Dim && 0 <= j < numVar ==> GradRows([], numVar)[i][j] == ZeroTensor
  {
  }

  class PorousFlowPermeabilityAllBlocks {
    var permeabilityData: seq<real>
    /** `_num_var`, the number of porous-flow variables. */
    const numVar: nat
    /** The automatic-differentiation instantiation, which keeps no derivative arrays. */
    const isAd: bool
    /** The quadrature point's `_permeability_qp`, `_dpermeability_qp_dvar` and `_dpermeability_qp_dgradvar`. */
    var permeability: Tensor
    var dPermeabilityDVar: seq<Tensor>
    var dPermeabilityDGradVar: seq<seq<Tensor>>

    constructor(numVar: nat, isAd: bool)
      ensures this.numVar == numVar && this.isAd == isAd
      ensures permeabilityData == [] && dPermeabilityDVar == [] && dPermeabilityDGradVar == []
    {
      this.numVar, this.isAd := numVar, isAd;
      permeabilityData, permeability, dPermeabilityDVar, dPermeabilityDGradVar := [], ZeroTensor, [], [];
    }

    /** The constructor's reading of the file: one value per line, or the first error. */
    method Load(content: string, col: nat, stod: string -> Result<real>) returns (o: Outcome)
      requires col < TwoTo32
      modifies this`permeabilityData
      ensures o.Pass? ==> ReadColumn(ReadLines(content), col, stod) == Ok(permeabilityData)
      ensures o.Pass? ==> |permeabilityData| == |ReadLines(content)|
      ensures o.Fail? ==> ReadColumn(ReadLines(content), col, stod) == Err(o.error)
    {
      var r := ReadTable(content, col, stod);
      if r.Err? {
        return Fail(r.error);
      }
      permeabilityData := r.value;
      return Pass;
    }

    /** The gradient-derivative sizing: `resize(LIBMESH_DIM)`, then each row to `numVar`. */
    method SizeGradDerivatives()
      modifies this`dPermeabilityDGradVar
      ensures dPermeabilityDGradVar == GradRows(old(dPermeabilityDGradVar), numVar)
    {
      ghost var rows := dPermeabilityDGradVar;
      dPermeabilityDGradVar := Resize(dPermeabilityDGradVar, Dim, []);
      ghost var g := dPermeabilityDGradVar;
      for i := 0 to Dim
        invariant |dPermeabilityDGradVar| == Dim
        invariant forall k :: 0 <= k < i ==> dPermeabilityDGradVar[k] == Resize(g[k], numVar, ZeroTensor)
        invariant forall k :: i <= k < Dim ==> dPermeabilityDGradVar[k] == g[k]
      {
        dPermeabilityDGradVar := dPermeabilityDGradVar[i := Resize(dPermeabilityDGradVar[i], numVar, ZeroTensor)];
      }
      assert dPermeabilityDGradVar == GradRows(rows, numVar);
    }

    /**
     * `computeQpProperties`: the diagonal tensor of the element's block
     * value, or "not found"; then (without AD) the derivative arrays sized
     * to `numVar`, and `LIBMESH_DIM` rows of `numVar`, new entries zero.
     */
    method ComputeQp(block: nat) returns (o: Outcome)
      modifies this`permeability, this`dPermeabilityDVar, this`dPermeabilityDGradVar
      ensures o.Pass? <==> 1 <= block <= |permeabilityData|
      ensures o.Pass? ==> permeability == Diagonal(permeabilityData[block - 1])
      ensures o.Pass? && !isAd ==>
        dPermeabilityDVar == Resize(old(dPermeabilityDVar), numVar, ZeroTensor)
        && dPermeabilityDGradVar == GradRows(old(dPermeabilityDGradVar), numVar)
      ensures o.Fail? ==> o.error == BlockNotFound(block) && permeability == old(permeability)
      ensures o.Fail? || isAd ==>
        dPermeabilityDVar == old(dPermeabilityDVar) && dPermeabilityDGradVar == old(dPermeabilityDGradVar)
    {
      var v := BlockValue(permeabilityData, block);
      if v.Err? {
        return Fail(v.error);
      }
      permeability := Diagonal(v.value);
      if !isAd {
        dPermeabilityDVar := Resize(dPermeabilityDVar, numVar, ZeroTensor);
        SizeGradDerivatives();
      }
      return Pass;
    }
  }
}
