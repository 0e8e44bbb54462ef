/**
 * `BlockFromNodesGenerator::generate`: tag nodes, given by id or by
 * coordinates, with the new boundaries; name the nodesets; derive sidesets
 * from them; and promote those sides to a new block named 'f' followed by
 * its id. The point locator, the tolerance test and the answers of the other
 * processes are parameters.
 */
module BlockFromNodesGenerator {
  import opened Errors
  import opened Geometry
  import opened TableText
  import opened Promotion
  import opened MeshModel
  import Overwrite

  /** A node of the element the locator returns: its id and position. */
  datatype NodeAt = NodeAt(id: nat, point: Vec3)

  /** What the other processes found for a point, before the OR with this one. */
  datatype Remote = Remote(foundElem: bool, onNode: bool)

  /** The point built from a coordinate: its components, then zeros. */
  function PointOf(c: seq<real>): (p: Vec3)
    requires |c| <= 3
    ensures forall j :: 0 <= j < 3 ==> At(p, j) == if j < |c| then c[j] else 0.0
  {
    Vec3(if |c| > 0 then c[0] else 0.0, if |c| > 1 then c[1] else 0.0, if |c| > 2 then c[2] else 0.0)
  }

  /** The first node, in node order, within tolerance of `p`. */
  function FirstMatch(p: Vec3, ns: seq<NodeAt>, fuzzy: (Vec3, Vec3, real) -> bool, tol: real): (k: Option<nat>)
    ensures k.Some? ==> k.value < |ns| && fuzzy(p, ns[k.value].point, tol)
                        && forall j :: 0 <= j < k.value ==> !fuzzy(p, ns[j].point, tol)
    ensures k.None? ==> forall j :: 0 <= j < |ns| ==> !fuzzy(p, ns[j].point, tol)
  {
    if ns == [] then None
    else if fuzzy(p, ns[0].point, tol) then Some(0)
    else
      match FirstMatch(p, ns[1..], fuzzy, tol)
      case None => None
      case Some(k) => Some(k + 1)
  }

  /** The node of the located element that the scan tags for `p`. */
  function LocalHit(p: Vec3, located: Option<seq<NodeAt>>, fuzzy: (Vec3, Vec3, real) -> bool, tol: real): Option<nat>
  {
    match located
    case None => None
    case Some(ns) =>
      match FirstMatch(p, ns, fuzzy, tol)
      case None => None
      case Some(k) => Some(ns[k].id)
  }

  /**
   * One coordinate: the component checks, then the point, the local scan,
   * the OR with the other processes on a mesh that is not replicated, and
   * the two location errors. The value is the node tagged here, if any.
   */
  function CoordStep(c: seq<real>, dim: nat, replicated: bool, locate: Vec3 -> Option<seq<NodeAt>>,
                     fuzzy: (Vec3, Vec3, real) -> bool, tol: real, remote: Vec3 -> Remote): Result<Option<nat>>
  {
    if |c| < dim then Err(TooFewComponents(c, dim))
    else if |c| > 3 then Err(TooManyComponents(c))
    else
      var p := PointOf(c);
      var hit := LocalHit(p, locate(p), fuzzy, tol);
      var found := locate(p).Some? || (!replicated && remote(p).foundElem);
      var onNode := hit.Some? || (!replicated && remote(p).onNode);
      if !found then Err(PointNotLocated(p))
      else if !onNode then Err(NoNodeAtPoint(p))
      else Ok(hit)
  }

  /**
   * The error cases of a coordinate, in the order they are checked, and
   * what is tagged otherwise: at most the first matching node of the
   * located element. On a replicated mesh a coordinate that passes always
   * tags a node here.
   */
  lemma CoordStepCases(c: seq<real>, dim: nat, replicated: bool, locate: Vec3 -> Option<seq<NodeAt>>,
                       fuzzy: (Vec3, Vec3, real) -> bool, tol: real, remote: Vec3 -> Remote)
    ensures var r := CoordStep(c, dim, replicated, locate, fuzzy, tol, remote);
      (|c| < dim <==> r == Err(TooFewComponents(c, dim)))
      && (dim <= |c| && |c| > 3 <==> r == Err(TooManyComponents(c)))
      && (dim <= |c| <= 3 ==>
            var p := PointOf(c);
            (r == Err(PointNotLocated(p)) <==> locate(p).None? && (replicated || !remote(p).foundElem))
            && (r.Ok? && r.value.Some? ==>
                  locate(p).Some? && FirstMatch(p, locate(p).value, fuzzy, tol).Some?
                  && r.value.value == locate(p).value[FirstMatch(p, locate(p).value, fuzzy, tol).value].id)
            && (replicated && r.Ok? ==> r.value.Some?))
  {
  }

  /** The nodes the coordinates tag here, or the first error. */
  function CoordHits(coords: seq<seq<real>>, dim: nat, replicated: bool, locate: Vec3 -> Option<seq<NodeAt>>,
                     fuzzy: (Vec3, Vec3, real) -> bool, tol: real, remote: Vec3 -> Remote): Result<set<nat>>
  {
    if coords == [] then Ok({})
    else
      match CoordHits(coords[..|coords| - 1], dim, replicated, locate, fuzzy, tol, remote)
      case Err(e) => Err(e)
      case Ok(hits) =>
        match CoordStep(coords[|coords| - 1], dim, replicated, locate, fuzzy, tol, remote)
        case Err(e) => Err(e)
        case Ok(h) => Ok(if h.Some? then hits + {h.value} else hits)
  }

  /** The pairs tagging each of `ns` with each of `bids`. */
  ghost function PairTags(ns: set<nat>, bids: seq<int>): set<(nat, int)>
  {
    set n, b | n in ns && b in bids :: (n, b)
  }

  /** `boundary_info.add_node(node, b)` for every requested boundary id. */
  method TagWithAll(mesh: Mesh, n: nat, bids: seq<int>)
    modifies mesh`nodeTags
    ensures mesh.nodeTags == old(mesh.nodeTags) + PairTags({n}, bids)
  {
    var j := 0;
    while j < |bids|
      invariant 0 <= j <= |bids|
      invariant mesh.nodeTags == old(mesh.nodeTags) + PairTags({n}, bids[..j])
    {
      assert bids[..j + 1] == bids[..j] + [bids[j]];
      assert PairTags({n}, bids[..j + 1]) == PairTags({n}, bids[..j]) + {(n, bids[j])} by {
        assert forall b :: b in bids[..j + 1] <==> b in bids[..j] || b == bids[j];
      }
      mesh.AddNodeTag(n, bids[j]);
      j := j + 1;
    }
    assert bids[..j] == bids;
  }

  /** One pass of the coordinate loop. */
  method TagCoordinate(mesh: Mesh, c: seq<real>, bids: seq<int>, locate: Vec3 -> Option<seq<NodeAt>>,
                       fuzzy: (Vec3, Vec3, real) -> bool, tol: real, remote: Vec3 -> Remote)
    returns (r: Result<Option<nat>>)
    modifies mesh`nodeTags
    ensures r == CoordStep(c, mesh.dim, mesh.replicated, locate, fuzzy, tol, remote)
    ensures mesh.nodeTags == old(mesh.nodeTags) + (if r.Ok? && r.value.Some? then PairTags({r.value.value}, bids) else {})
  {
    if |c| < mesh.dim {
      return Err(TooFewComponents(c, mesh.dim));
    }
    if |c| > 3 {
      return Err(TooManyComponents(c));
    }
    var p := Origin;
    var j := 0;
    while j < |c|
      invariant 0 <= j <= |c|
      invariant forall k :: 0 <= k < 3 ==> At(p, k) == if k < j then c[k] else 0.0
    {
      p := With(p, j, c[j]);
      j := j + 1;
    }
    assert p == PointOf(c) by {
      assert At(p, 0) == At(PointOf(c), 0) && At(p, 1) == At(PointOf(c), 1) && At(p, 2) == At(PointOf(c), 2);
    }
    var onNode := false;
    var foundElem := false;
    var located := locate(p);
    if located.Some? {
      foundElem := true;
      var ns := located.value;
      var k := 0;
      while k < |ns| && !fuzzy(p, ns[k].point, tol)
        invariant 0 <= k <= |ns|
        invariant forall i :: 0 <= i < k ==> !fuzzy(p, ns[i].point, tol)
      {
        k := k + 1;
      }
      if k < |ns| {
        FirstMatchIs(p, ns, fuzzy, tol, k);
        TagWithAll(mesh, ns[k].id, bids);
        onNode := true;
      }
    }
    if !mesh.replicated {
      foundElem := foundElem || remote(p).foundElem;
      onNode := onNode || remote(p).onNode;
    }
    if !foundElem {
      return Err(PointNotLocated(p));
    }
    if !onNode {
      return Err(NoNodeAtPoint(p));
    }
    r := Ok(LocalHit(p, located, fuzzy, tol));
  }

  /** A node within tolerance, with none before it, is the first match. */
  lemma {:induction false} FirstMatchIs(p: Vec3, ns: seq<NodeAt>, fuzzy: (Vec3, Vec3, real) -> bool, tol: real, k: nat)
    requires k < |ns| && fuzzy(p, ns[k].point, tol)
    requires forall i :: 0 <= i < k ==> !fuzzy(p, ns[i].point, tol)
    ensures FirstMatch(p, ns, fuzzy, tol) == Some(k)
  {
    if k > 0 {
      assert !fuzzy(p, ns[0].point, tol);
      FirstMatchIs(p, ns[1..], fuzzy, tol, k - 1);
    }
  }

  /** The coordinate loop; it stops at the first coordinate that raises an error. */
  method TagCoordinates(mesh: Mesh, coords: seq<seq<real>>, bids: seq<int>, locate: Vec3 -> Option<seq<NodeAt>>,
                        fuzzy: (Vec3, Vec3, real) -> bool, tol: real, remote: Vec3 -> Remote)
    returns (r: Result<set<nat>>)
    modifies mesh`nodeTags
    ensures r == CoordHits(coords, mesh.dim, mesh.replicated, locate, fuzzy, tol, remote)
    ensures r.Ok? ==> mesh.nodeTags == old(mesh.nodeTags) + PairTags(r.value, bids)
  {
    var hits: set<nat> := {};
    var i := 0;
    while i < |coords|
      invariant 0 <= i <= |coords|
      invariant CoordHits(coords[..i], mesh.dim, mesh.replicated, locate, fuzzy, tol, remote) == Ok(hits)
      invariant mesh.nodeTags == old(mesh.nodeTags) + PairTags(hits, bids)
    {
      assert coords[..i + 1][..i] == coords[..i];
      var step := TagCoordinate(mesh, coords[i], bids, locate, fuzzy, tol, remote);
      if step.Err? {
        HitsErrorPersists(coords, mesh.dim, mesh.replicated, locate, fuzzy, tol, remote, i + 1);
        return Err(step.error);
      }
      if step.value.Some? {
        assert PairTags(hits + {step.value.value}, bids) == PairTags(hits, bids) + PairTags({step.value.value}, bids);
        hits := hits + {step.value.value};
      }
      i := i + 1;
    }
    assert coords[..i] == coords;
    return Ok(hits);
  }

  lemma {:induction false} HitsErrorPersists(coords: seq<seq<real>>, dim: nat, replicated: bool, locate: Vec3 -> Option<seq<NodeAt>>,
                                             fuzzy: (Vec3, Vec3, real) -> bool, tol: real, remote: Vec3 -> Remote, n: nat)
    requires n <= |coords| && CoordHits(coords[..n], dim, replicated, locate, fuzzy, tol, remote).Err?
    ensures CoordHits(coords, dim, replicated, locate, fuzzy, tol, remote) == CoordHits(coords[..n], dim, replicated, locate, fuzzy, tol, remote)
    decreases |coords| - n
  {
    if n < |coords| {
      var m := |coords| - 1;
      assert coords[..m][..n] == coords[..n];
      HitsErrorPersists(coords[..m], dim, replicated, locate, fuzzy, tol, remote, n);
    } else {
      assert coords[..n] == coords;
    }
  }

  /** `'f' + std::to_string(new_block_id)`. */
  function BlockName(id: nat): string
  {
    "f" + Decimal(id)
  }

  /** The name starts with 'f' and the rest reads back as the block id. */
  lemma BlockNameReadsBack(id: nat)
    requires id <= IntMax
    ensures |BlockName(id)| >= 2 && BlockName(id)[0] == 'f' && StoI(BlockName(id)[1..]) == Ok(id)
  {
    assert BlockName(id)[1..] == Decimal(id);
    StoIDecimal(id);
  }

  /** Different blocks get different names. */
  lemma BlockNamesDistinct(a: nat, b: nat)
    requires a != b
    ensures BlockName(a) != BlockName(b)
  {
    if BlockName(a) == BlockName(b) {
      assert Decimal(a) == BlockName(a)[1..] == BlockName(b)[1..] == Decimal(b);
      DecimalValue(a);
      DecimalValue(b);
    }
  }

  /**
   * The part of `generate()` before the block is made: tag the nodes given
   * by id (the "nodes" parameter, when given) and by coordinates, name the
   * nodesets, mark the mesh unprepared unless a `BreakMeshByBlockGenerator`
   * is among the generators, and add the sides `build_side_list_from_node_list`
   * derives (`derived`).
   */
  method MarkBoundary(mesh: Mesh, names: seq<string>, bids: seq<int>, nodeIds: Option<seq<nat>>,
                      coords: seq<seq<real>>, tol: real, locate: Vec3 -> Option<seq<NodeAt>>,
                      fuzzy: (Vec3, Vec3, real) -> bool, remote: Vec3 -> Remote, hasBreakMeshByBlock: bool,
                      derived: seq<SideTriple>)
    returns (hits: Result<set<nat>>)
    requires |bids| == |names|
    modifies mesh`nodeTags, mesh`nodesetNames, mesh`prepared, mesh`sides
    ensures hits == CoordHits(coords, mesh.dim, mesh.replicated, locate, fuzzy, tol, remote)
    ensures hits.Ok? ==>
      mesh.nodeTags == old(mesh.nodeTags) + IdTags(if nodeIds.Some? then nodeIds.value else [], bids, mesh.nodes)
                       + PairTags(hits.value, bids)
      && mesh.nodesetNames == Overwrite.Assign(old(mesh.nodesetNames), bids, names)
      && mesh.prepared == (old(mesh.prepared) && hasBreakMeshByBlock)
      && mesh.sides == old(mesh.sides) + derived
    ensures hits.Err? ==> mesh.sides == old(mesh.sides)
  {
    if nodeIds.Some? {
      mesh.TagNodesById(nodeIds.value, bids);
    }
    ghost var tagged := mesh.nodeTags;
    assert tagged == old(mesh.nodeTags) + IdTags(if nodeIds.Some? then nodeIds.value else [], bids, mesh.nodes);
    hits := TagCoordinates(mesh, coords, bids, locate, fuzzy, tol, remote);
    if hits.Err? {
      return;
    }
    mesh.NameNodesets(bids, names);
    if !hasBreakMeshByBlock {
      mesh.SetIsntPrepared();
    }
    mesh.BuildSideListFromNodeList(derived);
  }

  /**
   * `generate()`. `bids` are the ids `getBoundaryIDs` gives the new
   * boundary names (the same ids both times it is called); `ex` and
   * `reconnect` stand for what the other processes contribute. `t` records
   * the promotion round that follows the boundary's construction.
   */
  method Generate(mesh: Mesh, names: seq<string>, bids: seq<int>, nodeIds: Option<seq<nat>>,
                  coords: seq<seq<real>>, tol: real, locate: Vec3 -> Option<seq<NodeAt>>,
                  fuzzy: (Vec3, Vec3, real) -> bool, remote: Vec3 -> Remote, hasBreakMeshByBlock: bool,
                  derived: seq<SideTriple>, ex: Exchange, reconnect: set<nat> -> set<nat>)
    returns (r: Result<nat>, plan: Option<PushPlan>, ghost t: RoundTrace)
    requires mesh.Valid() && |bids| == |names|
    requires mesh.Distributed() ==> |ex.needFlags| == mesh.nProcs
    modifies mesh
    ensures mesh.Valid()
    ensures forall id :: id in old(mesh.elems) ==> id in mesh.elems && mesh.elems[id] == old(mesh.elems)[id]
    ensures mesh.allowRemoteElementRemoval == old(mesh.allowRemoteElementRemoval)
    ensures mesh.skipPartitioning == old(mesh.skipPartitioning)
    // a coordinate error stops the run before the mesh's elements or sides change
    ensures CoordHits(coords, mesh.dim, mesh.replicated, locate, fuzzy, tol, remote).Err? ==>
      r == Err(CoordHits(coords, mesh.dim, mesh.replicated, locate, fuzzy, tol, remote).error)
      && mesh.elems == old(mesh.elems) && mesh.sides == old(mesh.sides)
    ensures CoordHits(coords, mesh.dim, mesh.replicated, locate, fuzzy, tol, remote).Ok? ==>
      mesh.nodeTags == old(mesh.nodeTags) + IdTags(if nodeIds.Some? then nodeIds.value else [], bids, old(mesh.nodes))
                       + PairTags(CoordHits(coords, mesh.dim, mesh.replicated, locate, fuzzy, tol, remote).value, bids)
      && mesh.nodesetNames == Overwrite.Assign(old(mesh.nodesetNames), bids, names)
      && t.start == old(mesh.elems) && t.startSides == old(mesh.sides) + derived
      && t.startNext == old(mesh.nextElemId) && t.startNextU == old(mesh.nextUniqueId)
      && t.after == mesh.elems && t.sides == mesh.sides
      && RoundOf(mesh.Distributed(), mesh.procId, Overwrite.Elements(bids), ex, t, r)
    ensures r.Ok? ==>
      CoordHits(coords, mesh.dim, mesh.replicated, locate, fuzzy, tol, remote).Ok?
      && mesh.subdomainNames == old(mesh.subdomainNames)[r.value := BlockName(r.value)]
      && mesh.prepared
      && mesh.prepareLog == old(mesh.prepareLog)
           + (if hasBreakMeshByBlock && old(mesh.prepared) then [] else [PrepareCall(false, old(mesh.skipPartitioning))])
           + [PrepareCall(old(mesh.allowRemoteElementRemoval), true)]
    ensures r.Ok? && !mesh.Distributed() ==>
      mesh.sides == old(mesh.sides) + derived
      && mesh.elems == old(mesh.elems) + NewElems(PendingSides(mesh.sides, Overwrite.Elements(bids), old(mesh.elems)),
                                                  old(mesh.elems), r.value, old(mesh.nextElemId), old(mesh.nextUniqueId))
  {
    plan := None;
    t := RoundTrace(mesh.elems, mesh.sides, mesh.nextElemId, mesh.nextUniqueId,
                    mesh.elems, mesh.sides, mesh.nextElemId, mesh.nextUniqueId, mesh.elems);
    var hits := MarkBoundary(mesh, names, bids, nodeIds, coords, tol, locate, fuzzy, remote, hasBreakMeshByBlock, derived);
    if hits.Err? {
      return Err(hits.error), plan, t;
    }
    r, plan, t := mesh.AddBlock(Overwrite.Elements(bids), ex, reconnect, BlockName);
  }
}
