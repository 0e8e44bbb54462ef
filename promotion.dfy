/**
 * The promotion of boundary sides to lower-dimensional elements, shared by
 * the three generators: filtering the side list against the target boundary
 * ids with a running counter, rejecting inactive parents, numbering the new
 * elements from `max_elem_id` / `parallel_max_unique_id`, and the plan that
 * decides which process is sent which boundary elements and nodes on a
 * distributed mesh. Everything here is pure: the mesh it reads is a map from
 * element id to element.
 */
module Promotion {
  import opened Errors
  import Overwrite

  /** A libMesh `Elem`, reduced to what the promotion reads and writes. */
  datatype Elem = Elem(active: bool, owner: nat, subdomain: nat, uniqueId: nat, interiorParent: Option<nat>)

  /** One entry `(elem_id, side, bc_id)` of `BoundaryInfo::build_side_list()`. */
  datatype SideTriple = SideTriple(elem: nat, side: nat, boundary: int)

  /** One entry `(counter, ElemSideDouble(elem, side))` of `element_sides_on_boundary`. */
  datatype Pending = Pending(offset: nat, parent: nat, side: nat)

  // ---------------------------------------------------------------------
  // Side filtering

  /** Number of triples whose boundary id is a target: the final `counter`. */
  function MatchCount(sides: seq<SideTriple>, targets: set<int>): nat
  {
    if sides == [] then 0
    else MatchCount(sides[..|sides| - 1], targets) + (if sides[|sides| - 1].boundary in targets then 1 else 0)
  }

  /** Number of matching triples whose element this process can query. */
  function LocalMatchCount(sides: seq<SideTriple>, targets: set<int>, elems: map<nat, Elem>): nat
  {
    if sides == [] then 0
    else
      var t := sides[|sides| - 1];
      LocalMatchCount(sides[..|sides| - 1], targets, elems) + (if t.boundary in targets && t.elem in elems then 1 else 0)
  }

  /** The `(counter, elem, side)` records of the collection loop, in order. */
  function PendingSides(sides: seq<SideTriple>, targets: set<int>, elems: map<nat, Elem>): (r: seq<Pending>)
    ensures forall i :: 0 <= i < |r| ==> r[i].parent in elems
  {
    if sides == [] then []
    else
      var init := sides[..|sides| - 1];
      var t := sides[|sides| - 1];
      if t.boundary in targets && t.elem in elems
      then PendingSides(init, targets, elems) + [Pending(MatchCount(init, targets), t.elem, t.side)]
      else PendingSides(init, targets, elems)
  }

  /** Some matching triple names a local element that is not active. */
  ghost predicate HasInactiveMatch(sides: seq<SideTriple>, targets: set<int>, elems: map<nat, Elem>)
  {
    exists k :: 0 <= k < |sides| && sides[k].boundary in targets && sides[k].elem in elems && !elems[sides[k].elem].active
  }

  /** `p` is what the loop records for the triple at position `k`. */
  ghost predicate Recorded(sides: seq<SideTriple>, targets: set<int>, elems: map<nat, Elem>, k: nat, p: Pending)
  {
    k < |sides| && sides[k].boundary in targets && sides[k].elem in elems
    && p == Pending(MatchCount(sides[..k], targets), sides[k].elem, sides[k].side)
  }

  /**
   * The collection loop: every matching triple advances the counter, a
   * matching triple whose element is local is recorded with the counter's
   * value, and an inactive local element stops everything with an error.
   */
  method CollectSides(sides: seq<SideTriple>, targets: set<int>, elems: map<nat, Elem>)
    returns (r: Result<seq<Pending>>)
    ensures r.Err? <==> HasInactiveMatch(sides, targets, elems)
    ensures r.Err? ==> r.error == InactiveParent
    ensures r.Ok? ==> r.value == PendingSides(sides, targets, elems)
  {
    var pending: seq<Pending> := [];
    var counter: nat := 0;
    var i := 0;
    while i < |sides|
      invariant 0 <= i <= |sides|
      invariant counter == MatchCount(sides[..i], targets)
      invariant pending == PendingSides(sides[..i], targets, elems)
      invariant !HasInactiveMatch(sides[..i], targets, elems)
    {
      var t := sides[i];
      assert sides[..i + 1][..i] == sides[..i];
      assert sides[..i + 1][i] == t;
      if t.boundary in targets {
        if t.elem in elems {
          if !elems[t.elem].active {
            return Err(InactiveParent);
          }
          pending := pending + [Pending(counter, t.elem, t.side)];
        }
        counter := counter + 1;
      }
      ghost var done := sides[..i + 1];
      assert !HasInactiveMatch(done, targets, elems) by {
        forall k | 0 <= k < i + 1 && done[k].boundary in targets && done[k].elem in elems
          ensures elems[done[k].elem].active
        {
          if k < i {
            assert done[k] == sides[..i][k];
          }
        }
      }
      i := i + 1;
    }
    assert sides[..i] == sides;
    return Ok(pending);
  }

  /** Every record's counter value is below `n`. */
  ghost predicate OffsetsBelow(ps: seq<Pending>, n: nat)
  {
    forall i :: 0 <= i < |ps| ==> ps[i].offset < n
  }

  /** Counter values strictly increase along the records. */
  ghost predicate Increasing(ps: seq<Pending>)
  {
    forall i, j :: 0 <= i < j < |ps| ==> ps[i].offset < ps[j].offset
  }

  lemma {:induction false} PendingOffsets(sides: seq<SideTriple>, targets: set<int>, elems: map<nat, Elem>)
    ensures OffsetsBelow(PendingSides(sides, targets, elems), MatchCount(sides, targets))
    ensures Increasing(PendingSides(sides, targets, elems))
  {
    if sides != [] {
      var init := sides[..|sides| - 1];
      var t := sides[|sides| - 1];
      PendingOffsets(init, targets, elems);
      var before := PendingSides(init, targets, elems);
      var ps := PendingSides(sides, targets, elems);
      if t.boundary in targets && t.elem in elems {
        var last := Pending(MatchCount(init, targets), t.elem, t.side);
        assert ps == before + [last];
        assert MatchCount(sides, targets) == MatchCount(init, targets) + 1;
        forall i | 0 <= i < |ps| ensures ps[i].offset < MatchCount(sides, targets) {
          if i < |before| { assert ps[i] == before[i]; }
        }
        forall i, j | 0 <= i < j < |ps| ensures ps[i].offset < ps[j].offset {
          assert ps[i] == before[i];
          if j < |before| { assert ps[j] == before[j]; }
        }
      } else {
        assert ps == before;
      }
    }
  }

  /** Every record names an element of `elems`, an active one when `allActive`. */
  ghost predicate ParentsIn(ps: seq<Pending>, elems: map<nat, Elem>, allActive: bool)
  {
    forall i :: 0 <= i < |ps| ==> ps[i].parent in elems && (allActive ==> elems[ps[i].parent].active)
  }

  lemma {:induction false} PendingParents(sides: seq<SideTriple>, targets: set<int>, elems: map<nat, Elem>)
    ensures ParentsIn(PendingSides(sides, targets, elems), elems, !HasInactiveMatch(sides, targets, elems))
  {
    if sides != [] {
      var n := |sides| - 1;
      var init := sides[..n];
      var t := sides[n];
      PendingParents(init, targets, elems);
      if HasInactiveMatch(init, targets, elems) {
        var k :| 0 <= k < |init| && init[k].boundary in targets && init[k].elem in elems && !elems[init[k].elem].active;
        assert sides[k] == init[k];
        assert HasInactiveMatch(sides, targets, elems);
      }
      var before := PendingSides(init, targets, elems);
      var ps := PendingSides(sides, targets, elems);
      if t.boundary in targets && t.elem in elems {
        assert ps == before + [Pending(MatchCount(init, targets), t.elem, t.side)];
        forall i | 0 <= i < |ps|
          ensures ps[i].parent in elems && (!HasInactiveMatch(sides, targets, elems) ==> elems[ps[i].parent].active)
        {
          if i < |before| {
            assert ps[i] == before[i];
          } else if !HasInactiveMatch(sides, targets, elems) {
            assert !(sides[n].boundary in targets && sides[n].elem in elems && !elems[sides[n].elem].active);
          }
        }
      } else {
        assert ps == before;
      }
    }
  }

  lemma {:induction false} PendingCount(sides: seq<SideTriple>, targets: set<int>, elems: map<nat, Elem>)
    ensures |PendingSides(sides, targets, elems)| == LocalMatchCount(sides, targets, elems)
    ensures LocalMatchCount(sides, targets, elems) <= MatchCount(sides, targets)
    ensures (forall k :: 0 <= k < |sides| && sides[k].boundary in targets ==> sides[k].elem in elems)
      ==> LocalMatchCount(sides, targets, elems) == MatchCount(sides, targets)
  {
    if sides != [] {
      var init := sides[..|sides| - 1];
      PendingCount(init, targets, elems);
      if forall k :: 0 <= k < |sides| && sides[k].boundary in targets ==> sides[k].elem in elems {
        forall k | 0 <= k < |init| && init[k].boundary in targets ensures init[k].elem in elems {
          assert init[k] == sides[k];
        }
      }
    }
  }

  /** The records are exactly one per matching local triple, carrying the count of earlier matches. */
  lemma {:induction false} PendingExactly(sides: seq<SideTriple>, targets: set<int>, elems: map<nat, Elem>, p: Pending)
    ensures p in PendingSides(sides, targets, elems) <==> exists k :: Recorded(sides, targets, elems, k, p)
  {
    if sides != [] {
      var n := |sides| - 1;
      var init := sides[..n];
      PendingExactly(init, targets, elems, p);
      forall k | 0 <= k < n ensures Recorded(init, targets, elems, k, p) <==> Recorded(sides, targets, elems, k, p) {
        assert init[k] == sides[k];
        assert init[..k] == sides[..k];
      }
      assert sides[..n] == init;
      if p in PendingSides(sides, targets, elems) && p !in PendingSides(init, targets, elems) {
        assert Recorded(sides, targets, elems, n, p);
      }
      if Recorded(sides, targets, elems, n, p) {
        assert p in PendingSides(sides, targets, elems);
      }
    }
  }

  // ---------------------------------------------------------------------
  // The new elements

  /**
   * The element built from a recorded side: active, in the new block, owned
   * by the parent's owner, with the parent as interior parent.
   */
  function LowerDimOf(parent: Elem, parentId: nat, block: nat, uid: nat): Elem
  {
    Elem(true, parent.owner, block, uid, Some(parentId))
  }

  /** The elements the `add_elem` loop adds: record `p` becomes id `maxId + p.offset`. */
  function NewElems(ps: seq<Pending>, parents: map<nat, Elem>, block: nat, maxId: nat, maxUid: nat): map<nat, Elem>
    requires forall i :: 0 <= i < |ps| ==> ps[i].parent in parents
  {
    if ps == [] then map[]
    else
      var p := ps[|ps| - 1];
      NewElems(ps[..|ps| - 1], parents, block, maxId, maxUid)[maxId + p.offset := LowerDimOf(parents[p.parent], p.parent, block, maxUid + p.offset)]
  }

  lemma {:induction false} NewElemsKeys(ps: seq<Pending>, parents: map<nat, Elem>, block: nat, maxId: nat, maxUid: nat)
    requires forall i :: 0 <= i < |ps| ==> ps[i].parent in parents
    ensures NewElems(ps, parents, block, maxId, maxUid).Keys == set i | 0 <= i < |ps| :: maxId + ps[i].offset
  {
    if ps != [] {
      var n := |ps| - 1;
      NewElemsKeys(ps[..n], parents, block, maxId, maxUid);
      var before := set i | 0 <= i < n :: maxId + ps[..n][i].offset;
      var after := set i | 0 <= i < |ps| :: maxId + ps[i].offset;
      assert after == before + {maxId + ps[n].offset} by {
        forall x | x in after ensures x in before + {maxId + ps[n].offset} {
          var i :| 0 <= i < |ps| && x == maxId + ps[i].offset;
          if i < n { assert ps[..n][i] == ps[i]; }
        }
        forall x | x in before ensures x in after {
          var i :| 0 <= i < n && x == maxId + ps[..n][i].offset;
          assert ps[..n][i] == ps[i];
        }
      }
    }
  }

  /**
   * Every new element has an id at or above `maxId`, the unique id that
   * goes with it, the new block, the parent's owner and the parent as
   * interior parent.
   */
  ghost predicate Promoted(m: map<nat, Elem>, parents: map<nat, Elem>, block: nat, maxId: nat, maxUid: nat)
  {
    forall id :: id in m ==>
      id >= maxId && m[id].active && m[id].subdomain == block && m[id].uniqueId == maxUid + (id - maxId)
      && m[id].interiorParent.Some? && m[id].interiorParent.value in parents
      && m[id].owner == parents[m[id].interiorParent.value].owner
  }

  /** One more record adds one more element. */
  lemma NewElemsStep(ps: seq<Pending>, i: nat, parents: map<nat, Elem>, block: nat, maxId: nat, maxUid: nat)
    requires i < |ps| && forall k :: 0 <= k < |ps| ==> ps[k].parent in parents
    ensures parents + NewElems(ps[..i + 1], parents, block, maxId, maxUid)
      == (parents + NewElems(ps[..i], parents, block, maxId, maxUid))[maxId + ps[i].offset := LowerDimOf(parents[ps[i].parent], ps[i].parent, block, maxUid + ps[i].offset)]
  {
    assert ps[..i + 1][..i] == ps[..i];
  }

  lemma {:induction false} NewElemsShape(ps: seq<Pending>, parents: map<nat, Elem>, block: nat, maxId: nat, maxUid: nat)
    requires forall i :: 0 <= i < |ps| ==> ps[i].parent in parents
    ensures Promoted(NewElems(ps, parents, block, maxId, maxUid), parents, block, maxId, maxUid)
  {
    if ps != [] {
      var p := ps[|ps| - 1];
      var init := ps[..|ps| - 1];
      assert forall i :: 0 <= i < |init| ==> init[i] == ps[i];
      NewElemsShape(init, parents, block, maxId, maxUid);
      assert p.parent in parents;
      var m := NewElems(ps, parents, block, maxId, maxUid);
      var m0 := NewElems(init, parents, block, maxId, maxUid);
      assert m == m0[maxId + p.offset := LowerDimOf(parents[p.parent], p.parent, block, maxUid + p.offset)];
    }
  }

  /** With strictly increasing offsets, every record yields its own element. */
  lemma {:induction false} NewElemsCount(ps: seq<Pending>, parents: map<nat, Elem>, block: nat, maxId: nat, maxUid: nat)
    requires forall i :: 0 <= i < |ps| ==> ps[i].parent in parents
    requires Increasing(ps)
    ensures |NewElems(ps, parents, block, maxId, maxUid)| == |ps|
  {
    if ps != [] {
      var n := |ps| - 1;
      var init := ps[..n];
      assert Increasing(init) by {
        forall i, j | 0 <= i < j < n ensures init[i].offset < init[j].offset {
          assert init[i] == ps[i] && init[j] == ps[j];
        }
      }
      NewElemsCount(init, parents, block, maxId, maxUid);
      NewElemsKeys(init, parents, block, maxId, maxUid);
      var m := NewElems(init, parents, block, maxId, maxUid);
      assert maxId + ps[n].offset !in m by {
        forall i | 0 <= i < n ensures maxId + init[i].offset != maxId + ps[n].offset {
          assert init[i] == ps[i];
        }
      }
    }
  }

  /** New ids and unique ids avoid every id and unique id already in use. */
  lemma {:induction false} NewElemsFresh(ps: seq<Pending>, parents: map<nat, Elem>, block: nat, maxId: nat, maxUid: nat)
    requires forall i :: 0 <= i < |ps| ==> ps[i].parent in parents
    requires forall id :: id in parents ==> id < maxId && parents[id].uniqueId < maxUid
    ensures forall id :: id in NewElems(ps, parents, block, maxId, maxUid) ==> id !in parents
    ensures forall id, old_id :: id in NewElems(ps, parents, block, maxId, maxUid) && old_id in parents ==>
              NewElems(ps, parents, block, maxId, maxUid)[id].uniqueId != parents[old_id].uniqueId
  {
    NewElemsShape(ps, parents, block, maxId, maxUid);
  }

  /** Two new elements never share a unique id. */
  lemma {:induction false} NewElemsUniqueIds(ps: seq<Pending>, parents: map<nat, Elem>, block: nat, maxId: nat, maxUid: nat)
    requires forall i :: 0 <= i < |ps| ==> ps[i].parent in parents
    ensures var m := NewElems(ps, parents, block, maxId, maxUid);
              forall a, b :: a in m && b in m && a != b ==> m[a].uniqueId != m[b].uniqueId
  {
    NewElemsShape(ps, parents, block, maxId, maxUid);
  }

  // ---------------------------------------------------------------------
  // The distributed push plan

  /** `i_need_boundary_elems` and `elements_to_send`. */
  datatype Gathered = Gathered(need: bool, toSend: seq<nat>)

  /**
   * The matching elements this process owns, in side-list order (an element
   * appears once per matching side), or the first matching element that
   * `elem_ptr` cannot return.
   */
  function SendList(sides: seq<SideTriple>, targets: set<int>, elems: map<nat, Elem>, me: nat): Result<seq<nat>>
  {
    if sides == [] then Ok([])
    else
      var t := sides[|sides| - 1];
      match SendList(sides[..|sides| - 1], targets, elems, me)
      case Err(e) => Err(e)
      case Ok(l) =>
        if t.boundary !in targets then Ok(l)
        else if t.elem !in elems then Err(MissingElement(t.elem))
        else if elems[t.elem].owner == me then Ok(l + [t.elem])
        else Ok(l)
  }

  /** The first loop of the distributed branch. */
  method GatherSendList(sides: seq<SideTriple>, targets: set<int>, elems: map<nat, Elem>, me: nat)
    returns (r: Result<Gathered>)
    ensures SendList(sides, targets, elems, me).Err? ==> r == Err(SendList(sides, targets, elems, me).error)
    ensures SendList(sides, targets, elems, me).Ok? ==>
      r == Ok(Gathered(MatchCount(sides, targets) > 0, SendList(sides, targets, elems, me).value))
  {
    var need := false;
    var toSend: seq<nat> := [];
    var i := 0;
    while i < |sides|
      invariant 0 <= i <= |sides|
      invariant SendList(sides[..i], targets, elems, me) == Ok(toSend)
      invariant need <==> MatchCount(sides[..i], targets) > 0
    {
      var t := sides[i];
      assert sides[..i + 1][..i] == sides[..i];
      if t.boundary in targets {
        need := true;
        if t.elem !in elems {
          ErrorPersists(sides, targets, elems, me, i + 1);
          return Err(MissingElement(t.elem));
        }
        if elems[t.elem].owner == me {
          toSend := toSend + [t.elem];
        }
      }
      i := i + 1;
    }
    assert sides[..i] == sides;
    return Ok(Gathered(need, toSend));
  }

  /** Once `SendList` fails on a prefix it fails with the same error on the whole list. */
  lemma {:induction false} ErrorPersists(sides: seq<SideTriple>, targets: set<int>, elems: map<nat, Elem>, me: nat, n: nat)
    requires n <= |sides| && SendList(sides[..n], targets, elems, me).Err?
    ensures SendList(sides, targets, elems, me) == SendList(sides[..n], targets, elems, me)
    decreases |sides| - n
  {
    if n < |sides| {
      var m := |sides| - 1;
      assert sides[..m][..n] == sides[..n];
      ErrorPersists(sides[..m], targets, elems, me, n);
    } else {
      assert sides[..n] == sides;
    }
  }

  /**
   * The send list holds exactly the matching elements owned by this process,
   * and it is refused exactly when a matching element is missing.
   */
  lemma {:induction false} SendListContents(sides: seq<SideTriple>, targets: set<int>, elems: map<nat, Elem>, me: nat, e: nat)
    ensures SendList(sides, targets, elems, me).Err? <==>
      exists k :: 0 <= k < |sides| && sides[k].boundary in targets && sides[k].elem !in elems
    ensures SendList(sides, targets, elems, me).Ok? ==>
      (e in SendList(sides, targets, elems, me).value <==>
        exists k :: 0 <= k < |sides| && sides[k].boundary in targets && sides[k].elem == e
          && e in elems && elems[e].owner == me)
  {
    if sides != [] {
      var n := |sides| - 1;
      var init := sides[..n];
      SendListContents(init, targets, elems, me, e);
      forall k | 0 <= k < n ensures init[k] == sides[k] { }
      if (exists k :: 0 <= k < |sides| && sides[k].boundary in targets && sides[k].elem !in elems)
        && SendList(init, targets, elems, me).Ok?
      {
        var k :| 0 <= k < |sides| && sides[k].boundary in targets && sides[k].elem !in elems;
        assert k == n;
      }
      if SendList(sides, targets, elems, me).Ok? && e in SendList(sides, targets, elems, me).value
        && e !in SendList(init, targets, elems, me).value
      {
        assert sides[n].elem == e;
      }
    }
  }

  /** `i_need_boundary_elems` is 1 exactly when some triple matches. */
  lemma {:induction false} NeedIffMatch(sides: seq<SideTriple>, targets: set<int>)
    ensures MatchCount(sides, targets) > 0 <==> exists k :: 0 <= k < |sides| && sides[k].boundary in targets
  {
    if sides != [] {
      var n := |sides| - 1;
      var init := sides[..n];
      NeedIffMatch(init, targets);
      if exists k :: 0 <= k < |sides| && sides[k].boundary in targets {
        var k :| 0 <= k < |sides| && sides[k].boundary in targets;
        if k < n { assert init[k] == sides[k]; }
      }
      if exists k :: 0 <= k < n && init[k].boundary in targets {
        var k :| 0 <= k < n && init[k].boundary in targets;
        assert init[k] == sides[k];
      }
    }
  }

  /** `push_element_data` and `push_node_data`: destination process to payload. */
  datatype PushPlan = PushPlan(elems: map<nat, seq<nat>>, nodes: map<nat, set<nat>>)

  /**
   * A process other than this one whose gathered flag is set gets the
   * element list if it is non-empty and the node set if it is non-empty;
   * nobody else gets anything.
   */
  ghost predicate PushPlanFor(plan: PushPlan, nProcs: nat, me: nat, needFlags: seq<bool>, toSend: seq<nat>, nodes: set<nat>)
    requires |needFlags| == nProcs
  {
    (forall pid: nat :: pid in plan.elems <==> pid < nProcs && pid != me && needFlags[pid] && toSend != [])
    && (forall pid: nat :: pid in plan.elems ==> plan.elems[pid] == toSend)
    && (forall pid: nat :: pid in plan.nodes <==> pid < nProcs && pid != me && needFlags[pid] && nodes != {})
    && (forall pid: nat :: pid in plan.nodes ==> plan.nodes[pid] == nodes)
  }

  /** The loop over all processes that fills `push_element_data` and `push_node_data`. */
  method BuildPushPlan(nProcs: nat, me: nat, needFlags: seq<bool>, toSend: seq<nat>, nodes: set<nat>)
    returns (plan: PushPlan)
    requires |needFlags| == nProcs
    ensures PushPlanFor(plan, nProcs, me, needFlags, toSend, nodes)
  {
    var pushElems: map<nat, seq<nat>> := map[];
    var pushNodes: map<nat, set<nat>> := map[];
    var pid := 0;
    while pid < nProcs
      invariant 0 <= pid <= nProcs
      invariant forall q: nat :: q in pushElems <==> q < pid && q != me && needFlags[q] && toSend != []
      invariant forall q: nat :: q in pushElems ==> pushElems[q] == toSend
      invariant forall q: nat :: q in pushNodes <==> q < pid && q != me && needFlags[q] && nodes != {}
      invariant forall q: nat :: q in pushNodes ==> pushNodes[q] == nodes
    {
      if pid != me && needFlags[pid] {
        if toSend != [] {
          pushElems := pushElems[pid := toSend];
        }
        if nodes != {} {
          pushNodes := pushNodes[pid := nodes];
        }
      }
      pid := pid + 1;
    }
    return PushPlan(pushElems, pushNodes);
  }
}
