/**
 * `PorousFlowPorosityMultiBlocks`: a constant porosity per block, given as
 * a list of porosities and a parallel list of block ids; the constructor
 * maps every block id to its position in the list.
 */
module PorosityMultiBlocks {
  import opened Errors
  import opened Geometry
  import opened BlockTable
  import Overwrite

  /** The positions `0, 1, ..., n - 1`. */
  function Indices(n: nat): (r: seq<nat>)
    ensures |r| == n && forall i :: 0 <= i < n ==> r[i] == i
  {
    if n == 0 then [] else Indices(n - 1) + [n - 1]
  }

  /** `_block_to_index` after the constructor's loop `_block_to_index[_block_ids[i]] = i`. */
  function IndexMap(ids: seq<nat>): map<nat, nat>
  {
    Overwrite.Assign(map[], ids, Indices(|ids|))
  }

  /** The map holds exactly the listed block ids. */
  lemma IndexMapKeys(ids: seq<nat>)
    ensures IndexMap(ids).Keys == Overwrite.Elements(ids)
  {
    Overwrite.AssignKeys(map[], ids, Indices(|ids|));
  }

  /** A block id is mapped to the position of its last occurrence, since later entries overwrite earlier ones. */
  lemma IndexMapLast(ids: seq<nat>, i: nat)
    requires i < |ids|
    ensures ids[i] in IndexMap(ids)
    ensures var j := IndexMap(ids)[ids[i]]; i <= j < |ids| && ids[j] == ids[i] && Overwrite.IsLast(ids, j)
  {
    var j := Overwrite.LastOccurrence(ids, i);
    Overwrite.AssignLastWins(map[], ids, Indices(|ids|), j);
  }

  /** With distinct block ids the map inverts the list. */
  lemma IndexMapInverts(ids: seq<nat>, i: nat)
    requires Overwrite.Distinct(ids) && i < |ids|
    ensures ids[i] in IndexMap(ids) && IndexMap(ids)[ids[i]] == i
  {
    Overwrite.AssignDistinct(map[], ids, Indices(|ids|), i);
  }

  /**
   * `_input_porosity[_block_to_index[block_id]]`: `operator[]` gives an
   * unknown block position 0. The position is not checked against the
   * porosity list; reading past its end is reported as `OutOfBounds`.
   */
  function PorosityOf(porosities: seq<real>, index: map<nat, nat>, block: nat): (r: Result<real>)
    ensures r.Ok? <==> (if block in index then index[block] else 0) < |porosities|
    ensures r.Ok? ==> r.value == porosities[if block in index then index[block] else 0]
    ensures r.Err? ==> r.error == OutOfBounds(if block in index then index[block] else 0)
  {
    var i := if block in index then index[block] else 0;
    if i < |porosities| then Ok(porosities[i]) else Err(OutOfBounds(i))
  }

  /** A listed block gets the porosity at the position of its last occurrence, when the list is long enough. */
  lemma ListedBlockPorosity(porosities: seq<real>, ids: seq<nat>, i: nat)
    requires i < |ids| && |ids| <= |porosities|
    ensures exists j :: i <= j < |ids| && ids[j] == ids[i] && PorosityOf(porosities, IndexMap(ids), ids[i]) == Ok(porosities[j])
  {
    IndexMapLast(ids, i);
  }

  /** An unlisted block silently gets the first porosity. */
  lemma UnlistedBlockPorosity(porosities: seq<real>, ids: seq<nat>, block: nat)
    requires block !in ids && porosities != []
    ensures PorosityOf(porosities, IndexMap(ids), block) == Ok(porosities[0])
  {
    IndexMapKeys(ids);
  }

  class PorousFlowPorosityMultiBlocks {
    const inputPorosity: seq<real>
    const blockIds: seq<nat>
    var blockToIndex: map<nat, nat>
    /** `_num_var`, the number of porous-flow variables. */
    const numVar: nat
    /** The automatic-differentiation instantiation, which keeps no derivative arrays. */
    const isAd: bool
    /** The quadrature point's `_porosity`, `_dporosity_dvar` and `_dporosity_dgradvar`. */
    var porosity: real
    var dPorosityDVar: seq<real>
    var dPorosityDGradVar: seq<Vec3>

    /** The constructor: one map entry per listed block, in list order. */
    constructor(inputPorosity: seq<real>, blockIds: seq<nat>, numVar: nat, isAd: bool)
      ensures this.inputPorosity == inputPorosity && this.blockIds == blockIds
      ensures this.numVar == numVar && this.isAd == isAd
      ensures blockToIndex == IndexMap(blockIds)
      ensures dPorosityDVar == [] && dPorosityDGradVar == []
    {
      this.inputPorosity, this.blockIds, this.numVar, this.isAd := inputPorosity, blockIds, numVar, isAd;
      porosity, dPorosityDVar, dPorosityDGradVar := 0.0, [], [];
      blockToIndex := map[];
      new;
      var i := 0;
      while i < |blockIds|
        invariant 0 <= i <= |blockIds|
        invariant blockToIndex == Overwrite.Assign(map[], blockIds[..i], Indices(|blockIds|)[..i])
        invariant dPorosityDVar == [] && dPorosityDGradVar == []
      {
        assert blockIds[..i + 1][..i] == blockIds[..i];
        assert Indices(|blockIds|)[..i + 1][..i] == Indices(|blockIds|)[..i];
        blockToIndex := blockToIndex[blockIds[i] := i];
        i := i + 1;
      }
      assert blockIds[..i] == blockIds && Indices(|blockIds|)[..i] == Indices(|blockIds|);
    }

    /**
     * `initQpStatefulProperties`: look the block up with `operator[]`,
     * which inserts an unknown block with position 0, and take the
     * porosity at that position.
     */
    method InitQp(block: nat) returns (o: Outcome)
      modifies this`blockToIndex, this`porosity
      ensures blockToIndex == if block in old(blockToIndex) then old(blockToIndex) else old(blockToIndex)[block := 0]
      ensures PorosityOf(inputPorosity, old(blockToIndex), block).Ok? ==>
        o.Pass? && porosity == PorosityOf(inputPorosity, old(blockToIndex), block).value
      ensures PorosityOf(inputPorosity, old(blockToIndex), block).Err? ==>
        o == Fail(PorosityOf(inputPorosity, old(blockToIndex), block).error) && porosity == old(porosity)
    {
      if block !in blockToIndex {
        blockToIndex := blockToIndex[block := 0];
      }
      var fileIdx := blockToIndex[block];
      if fileIdx >= |inputPorosity| {
        return Fail(OutOfBounds(fileIdx));
      }
      porosity := inputPorosity[fileIdx];
      return Pass;
    }

    /** `computeQpProperties`: the porosity, then (without AD) derivative arrays of `numVar` zeros. */
    method ComputeQp(block: nat) returns (o: Outcome)
      modifies this`blockToIndex, this`porosity, this`dPorosityDVar, this`dPorosityDGradVar
      ensures blockToIndex == if block in old(blockToIndex) then old(blockToIndex) else old(blockToIndex)[block := 0]
      ensures PorosityOf(inputPorosity, old(blockToIndex), block).Ok? ==>
        o.Pass? && porosity == PorosityOf(inputPorosity, old(blockToIndex), block).value
      ensures PorosityOf(inputPorosity, old(blockToIndex), block).Err? ==>
        o == Fail(PorosityOf(inputPorosity, old(blockToIndex), block).error) && porosity == old(porosity)
      ensures o.Pass? && !isAd ==> dPorosityDVar == Zeros(numVar) && dPorosityDGradVar == ZeroGradients(numVar)
      ensures o.Fail? || isAd ==> dPorosityDVar == old(dPorosityDVar) && dPorosityDGradVar == old(dPorosityDGradVar)
    {
      o := InitQp(block);
      if o.Fail? {
        return;
      }
      if !isAd {
        dPorosityDVar := Zeros(numVar);
        dPorosityDGradVar := ZeroGradients(numVar);
      }
    }
  }

  /** Looking a block up never changes the porosity any block gets afterwards. */
  lemma LookupKeepsPorosities(porosities: seq<real>, index: map<nat, nat>, block: nat, other: nat)
    ensures var after := if block in index then index else index[block := 0];
      PorosityOf(porosities, after, other) == PorosityOf(porosities, index, other)
  {
  }
}
