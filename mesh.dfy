/**
 * The libMesh mesh as the generators see it: elements by id, the node ids
 * this process holds, the boundary information (node tags, the side list,
 * nodeset names), subdomain names, the id counters behind `max_elem_id()`
 * and `parallel_max_unique_id()`, and the flags around `prepare_for_use()`.
 * `Mesh.PromoteBoundary` and `Mesh.FinalizeBlock` are the block synthesis
 * that the three generators share.
 */
module MeshModel {
  import opened Errors
  import opened Promotion
  import Overwrite

  /** The flags in force at one `prepare_for_use()` call. */
  datatype PrepareCall = PrepareCall(allowRemoteElementRemoval: bool, skipPartitioning: bool)

  /**
   * What one promotion round obtains from the other processes: the subdomain
   * ids of their active elements (their part of the `set_union` inside
   * `getNextFreeSubdomainID`), and on a distributed mesh the all-gathered
   * need flags, the elements and nodes pushed to this process, and the side
   * list rebuilt after they arrived.
   */
  datatype Exchange = Exchange(subdomains: set<nat>, needFlags: seq<bool>, elems: map<nat, Elem>, nodes: set<nat>,
                               sides: seq<SideTriple>)

  /** The node/boundary pairs added by tagging the present ids of `ids` with every id of `bids`. */
  ghost function IdTags(ids: seq<nat>, bids: seq<int>, present: set<nat>): set<(nat, int)>
  {
    set n, b | n in ids && n in present && b in bids :: (n, b)
  }

  /**
   * The subdomain ids `subdomain_ids()` collects: those of the active
   * elements held here, united with those the other processes report.
   */
  function SubdomainsInUse(elems: map<nat, Elem>, others: set<nat>): set<nat>
  {
    (set e | e in elems && elems[e].active :: elems[e].subdomain) + others
  }

  /** `getNextFreeSubdomainID`: one more than the highest subdomain id in use, or 0 when none is. */
  ghost predicate IsNextFreeSubdomain(inUse: set<nat>, id: nat)
  {
    (forall s :: s in inUse ==> s < id)
    && (inUse == {} ==> id == 0)
    && (inUse != {} ==> id >= 1 && id - 1 in inUse)
  }

  /** Every id and unique id of `elems` is below the given bounds. */
  ghost predicate Below(elems: map<nat, Elem>, idBound: nat, uidBound: nat)
  {
    forall id :: id in elems ==> id < idBound && elems[id].uniqueId < uidBound
  }

  /** Bounds above every id and every unique id of `m`. */
  method IdBounds(m: map<nat, Elem>) returns (idBound: nat, uidBound: nat)
    ensures Below(m, idBound, uidBound)
    ensures m == map[] ==> idBound == 0 && uidBound == 0
    ensures m != map[] ==> (exists id :: id in m && id + 1 == idBound)
                           && (exists id :: id in m && m[id].uniqueId + 1 == uidBound)
  {
    idBound, uidBound := 0, 0;
    var rest := m.Keys;
    ghost var top, topU := 0, 0;
    while rest != {}
      invariant rest <= m.Keys
      invariant forall id :: id in m.Keys - rest ==> id < idBound && m[id].uniqueId < uidBound
      invariant m.Keys - rest == {} ==> idBound == 0 && uidBound == 0
      invariant m.Keys - rest != {} ==> top in m.Keys - rest && top + 1 == idBound
      invariant m.Keys - rest != {} ==> topU in m.Keys - rest && m[topU].uniqueId + 1 == uidBound
      decreases rest
    {
      var id :| id in rest;
      if m.Keys - rest == {} || id + 1 > idBound { idBound, top := id + 1, id; }
      if m.Keys - rest == {} || m[id].uniqueId + 1 > uidBound { uidBound, topU := m[id].uniqueId + 1, id; }
      rest := rest - {id};
    }
  }

  lemma IdTagsSnocId(ids: seq<nat>, x: nat, bids: seq<int>, present: set<nat>)
    ensures IdTags(ids + [x], bids, present) == IdTags(ids, bids, present) + IdTags([x], bids, present)
  {
    assert forall n :: n in ids + [x] <==> n in ids || n == x;
  }

  lemma IdTagsSnocBoundary(x: nat, bids: seq<int>, b: int, present: set<nat>)
    requires x in present
    ensures IdTags([x], bids + [b], present) == IdTags([x], bids, present) + {(x, b)}
  {
    assert forall c :: c in bids + [b] <==> c in bids || c == b;
  }

  /**
   * What one promotion does to the elements: the old ones stay as they
   * were, and each new one is in the new block, with its parent's owner
   * and the parent as interior parent.
   */
  lemma PromotedElems(base: map<nat, Elem>, sides: seq<SideTriple>, targets: set<int>, block: nat, firstId: nat, firstUid: nat)
    requires Below(base, firstId, firstUid)
    ensures var m := base + NewElems(PendingSides(sides, targets, base), base, block, firstId, firstUid);
      (forall id :: id in base ==> id in m && m[id] == base[id])
      && Promoted(map id | id in m.Keys - base.Keys :: m[id], base, block, firstId, firstUid)
  {
    var ps := PendingSides(sides, targets, base);
    var added := NewElems(ps, base, block, firstId, firstUid);
    NewElemsFresh(ps, base, block, firstId, firstUid);
    NewElemsShape(ps, base, block, firstId, firstUid);
    assert (base + added).Keys - base.Keys == added.Keys;
  }

  /** One promotion adds one element per matching triple whose element is local. */
  lemma PromotedCount(base: map<nat, Elem>, sides: seq<SideTriple>, targets: set<int>, block: nat, firstId: nat, firstUid: nat)
    requires Below(base, firstId, firstUid)
    ensures var m := base + NewElems(PendingSides(sides, targets, base), base, block, firstId, firstUid);
      |m.Keys - base.Keys| == LocalMatchCount(sides, targets, base)
  {
    var ps := PendingSides(sides, targets, base);
    var added := NewElems(ps, base, block, firstId, firstUid);
    NewElemsFresh(ps, base, block, firstId, firstUid);
    PendingOffsets(sides, targets, base);
    NewElemsCount(ps, base, block, firstId, firstUid);
    PendingCount(sides, targets, base);
    assert (base + added).Keys - base.Keys == added.Keys;
    assert |added.Keys| == |added|;
  }

  /** When every matching triple's element is local, there is one new element per matching triple. */
  lemma PromotedElemsAllLocal(base: map<nat, Elem>, sides: seq<SideTriple>, targets: set<int>, block: nat, firstId: nat, firstUid: nat)
    requires Below(base, firstId, firstUid)
    requires forall k :: 0 <= k < |sides| && sides[k].boundary in targets ==> sides[k].elem in base
    ensures var m := base + NewElems(PendingSides(sides, targets, base), base, block, firstId, firstUid);
      |m.Keys - base.Keys| == MatchCount(sides, targets)
  {
    PromotedCount(base, sides, targets, block, firstId, firstUid);
    PendingCount(sides, targets, base);
  }

  /** Allocating once more subdomain ids are in use never gives a smaller block id, and gives a larger one once the earlier id is in use. */
  lemma NextFreeMonotone(used1: set<nat>, b1: nat, used2: set<nat>, b2: nat)
    requires IsNextFreeSubdomain(used1, b1) && IsNextFreeSubdomain(used2, b2)
    requires used1 <= used2
    ensures b1 <= b2
    ensures b1 in used2 ==> b1 < b2
  {
    if used1 != {} {
      assert b1 - 1 in used2;
    }
  }

  /** Elements kept with their values keep their active subdomains in use. */
  lemma InUseGrows(m1: map<nat, Elem>, others1: set<nat>, m2: map<nat, Elem>, others2: set<nat>)
    requires forall id :: id in m1 ==> id in m2 && m2[id] == m1[id]
    requires others1 <= others2
    ensures SubdomainsInUse(m1, others1) <= SubdomainsInUse(m2, others2)
  {
    forall s | s in SubdomainsInUse(m1, others1) ensures s in SubdomainsInUse(m2, others2) {
      if s !in others1 {
        var e :| e in m1 && m1[e].active && m1[e].subdomain == s;
        assert e in m2 && m2[e].active;
      }
    }
  }

  /** The boundary id `getBoundaryIDs` gives each name (an unknown name gets a new id). */
  function BoundaryIds(boundaryId: string -> int, names: seq<string>): (r: seq<int>)
    ensures |r| == |names| && forall i :: 0 <= i < |names| ==> r[i] == boundaryId(names[i])
  {
    if names == [] then [] else BoundaryIds(boundaryId, names[..|names| - 1]) + [boundaryId(names[|names| - 1])]
  }

  /** One round per id, each promoting the sides on that single boundary. */
  function Targets(bids: seq<int>): (r: seq<set<int>>)
    ensures |r| == |bids| && forall i :: 0 <= i < |bids| ==> r[i] == {bids[i]}
  {
    if bids == [] then [] else Targets(bids[..|bids| - 1]) + [{bids[|bids| - 1]}]
  }

  /**
   * One promotion round as it went: the elements, side list and id bounds
   * it started from; the elements, side list and bounds it promoted over
   * (after the exchange of a distributed mesh); and the elements it ended with.
   */
  datatype RoundTrace = RoundTrace(start: map<nat, Elem>, startSides: seq<SideTriple>, startNext: nat, startNextU: nat,
                                   base: map<nat, Elem>, sides: seq<SideTriple>, firstId: nat, firstUid: nat,
                                   after: map<nat, Elem>)

  /**
   * Promoting the sides of `sides` on `targets` over `base` ends in `r` and
   * `after`: it fails exactly on an inactive matching parent, adding nothing,
   * and otherwise adds exactly the new elements of the recorded sides, in
   * block `r.value`, numbered from bounds above every element of `base`.
   */
  ghost predicate Promotes(sides: seq<SideTriple>, targets: set<int>, base: map<nat, Elem>, firstId: nat, firstUid: nat,
                           r: Result<nat>, after: map<nat, Elem>)
  {
    Below(base, firstId, firstUid)
    && (r.Err? <==> HasInactiveMatch(sides, targets, base))
    && (r.Err? ==> r.error == InactiveParent && after == base)
    && (r.Ok? ==> after == base + NewElems(PendingSides(sides, targets, base), base, r.value, firstId, firstUid))
  }

  /**
   * What one round on `targets` did, for a process `me` of a distributed
   * (`dist`) mesh or not: the elements it started with are kept; a new block
   * is the next free id given the other processes' subdomains; a distributed
   * mesh stops on a matching element `elem_ptr` cannot return and otherwise
   * promotes over what the exchange brought; and the promotion itself is as
   * `Promotes` states.
   */
  ghost predicate RoundOf(dist: bool, me: nat, targets: set<int>, ex: Exchange, t: RoundTrace, r: Result<nat>)
  {
    var sl := SendList(t.startSides, targets, t.start, me);
    (forall id :: id in t.start ==> id in t.after && t.after[id] == t.start[id])
    && (r.Ok? ==> IsNextFreeSubdomain(SubdomainsInUse(t.start, ex.subdomains), r.value))
    && (dist && sl.Err? ==> r == Err(sl.error) && t.after == t.start && t.sides == t.startSides)
    && (dist && sl.Ok? ==> t.base == ex.elems + t.start && t.sides == ex.sides)
    && (!dist ==> t.base == t.start && t.sides == t.startSides && t.firstId == t.startNext && t.firstUid == t.startNextU)
    && (!dist || sl.Ok? ==> Promotes(t.sides, targets, t.base, t.firstId, t.firstUid, r, t.after))
  }

  /**
   * A run of rounds, round `k` on `targets[k]` with `exs[k]`: it starts from
   * `start`, `startSides` and the bounds `startNext`/`startNextU`; each round
   * starts where the one before ended; the completed rounds made `blocks`;
   * when `o` fails, the round after them failed with `o.error`; and the run
   * ends with `elems` and `sides`.
   */
  ghost predicate RunOf(dist: bool, me: nat, targets: seq<set<int>>, exs: seq<Exchange>,
                        start: map<nat, Elem>, startSides: seq<SideTriple>, startNext: nat, startNextU: nat,
                        blocks: seq<nat>, o: Outcome, rounds: seq<RoundTrace>, elems: map<nat, Elem>, sides: seq<SideTriple>)
  {
    |targets| == |exs| && |blocks| <= |targets|
    && |rounds| == |blocks| + (if o.Fail? then 1 else 0)
    && (o.Fail? ==> |blocks| < |targets|)
    && (rounds == [] ==> elems == start && sides == startSides)
    && (rounds != [] ==>
          rounds[0].start == start && rounds[0].startSides == startSides
          && rounds[0].startNext == startNext && rounds[0].startNextU == startNextU
          && rounds[|rounds| - 1].after == elems && rounds[|rounds| - 1].sides == sides)
    && Chained(rounds)
    && Completed(dist, me, targets, exs, blocks, rounds)
    && (o.Fail? ==> RoundOf(dist, me, targets[|blocks|], exs[|blocks|], rounds[|blocks|], Err(o.error)))
  }

  /** Each round starts with the elements and side list the round before ended with. */
  ghost predicate Chained(rounds: seq<RoundTrace>)
  {
    forall k :: 0 < k < |rounds| ==> rounds[k].start == rounds[k - 1].after && rounds[k].startSides == rounds[k - 1].sides
  }

  /** Round `k` completed on `targets[k]` and `exs[k]` with block `blocks[k]`. */
  ghost predicate Completed(dist: bool, me: nat, targets: seq<set<int>>, exs: seq<Exchange>, blocks: seq<nat>, rounds: seq<RoundTrace>)
    requires |blocks| <= |targets| == |exs| && |blocks| <= |rounds|
  {
    forall k :: 0 <= k < |blocks| ==> RoundOf(dist, me, targets[k], exs[k], rounds[k], Ok(blocks[k]))
  }

  lemma ChainedExtend(rounds: seq<RoundTrace>, t: RoundTrace)
    requires Chained(rounds) && (rounds != [] ==> t.start == rounds[|rounds| - 1].after && t.startSides == rounds[|rounds| - 1].sides)
    ensures Chained(rounds + [t])
  {
    var rs := rounds + [t];
    forall k | 0 < k < |rs| ensures rs[k].start == rs[k - 1].after && rs[k].startSides == rs[k - 1].sides {
      if k < |rounds| {
        assert rs[k] == rounds[k] && rs[k - 1] == rounds[k - 1];
      }
    }
  }

  lemma CompletedExtend(dist: bool, me: nat, targets: seq<set<int>>, exs: seq<Exchange>, blocks: seq<nat>, rounds: seq<RoundTrace>,
                        t: RoundTrace, b: nat)
    requires |blocks| < |targets| == |exs| && |blocks| == |rounds|
    requires Completed(dist, me, targets, exs, blocks, rounds)
    requires RoundOf(dist, me, targets[|blocks|], exs[|blocks|], t, Ok(b))
    ensures Completed(dist, me, targets, exs, blocks + [b], rounds + [t])
  {
    var rs, bs := rounds + [t], blocks + [b];
    forall k | 0 <= k < |bs| ensures RoundOf(dist, me, targets[k], exs[k], rs[k], Ok(bs[k])) {
      if k < |blocks| {
        assert rs[k] == rounds[k] && bs[k] == blocks[k];
      }
    }
  }

  lemma CompletedKeep(dist: bool, me: nat, targets: seq<set<int>>, exs: seq<Exchange>, blocks: seq<nat>, rounds: seq<RoundTrace>,
                      t: RoundTrace)
    requires |blocks| <= |targets| == |exs| && |blocks| <= |rounds|
    requires Completed(dist, me, targets, exs, blocks, rounds)
    ensures Completed(dist, me, targets, exs, blocks, rounds + [t])
  {
    var rs := rounds + [t];
    forall k | 0 <= k < |blocks| ensures RoundOf(dist, me, targets[k], exs[k], rs[k], Ok(blocks[k])) {
      assert rs[k] == rounds[k];
    }
  }

  /** A run extended by one completed round. */
  lemma RunExtend(dist: bool, me: nat, targets: seq<set<int>>, exs: seq<Exchange>,
                  start: map<nat, Elem>, startSides: seq<SideTriple>, startNext: nat, startNextU: nat,
                  blocks: seq<nat>, rounds: seq<RoundTrace>, elems: map<nat, Elem>, sides: seq<SideTriple>,
                  t: RoundTrace, b: nat)
    requires RunOf(dist, me, targets, exs, start, startSides, startNext, startNextU, blocks, Pass, rounds, elems, sides)
    requires |blocks| < |targets|
    requires t.start == elems && t.startSides == sides
    requires rounds == [] ==> t.startNext == startNext && t.startNextU == startNextU
    requires RoundOf(dist, me, targets[|blocks|], exs[|blocks|], t, Ok(b))
    ensures RunOf(dist, me, targets, exs, start, startSides, startNext, startNextU, blocks + [b], Pass, rounds + [t], t.after, t.sides)
  {
    ChainedExtend(rounds, t);
    CompletedExtend(dist, me, targets, exs, blocks, rounds, t, b);
  }

  /** A run ended by a failed round. */
  lemma RunStop(dist: bool, me: nat, targets: seq<set<int>>, exs: seq<Exchange>,
                start: map<nat, Elem>, startSides: seq<SideTriple>, startNext: nat, startNextU: nat,
                blocks: seq<nat>, rounds: seq<RoundTrace>, elems: map<nat, Elem>, sides: seq<SideTriple>,
                t: RoundTrace, e: Error)
    requires RunOf(dist, me, targets, exs, start, startSides, startNext, startNextU, blocks, Pass, rounds, elems, sides)
    requires |blocks| < |targets|
    requires t.start == elems && t.startSides == sides
    requires rounds == [] ==> t.startNext == startNext && t.startNextU == startNextU
    requires RoundOf(dist, me, targets[|blocks|], exs[|blocks|], t, Err(e))
    ensures RunOf(dist, me, targets, exs, start, startSides, startNext, startNextU, blocks, Fail(e), rounds + [t], t.after, t.sides)
  {
    ChainedExtend(rounds, t);
    CompletedKeep(dist, me, targets, exs, blocks, rounds, t);
  }

  /** Round `k` of a run did what `RoundOf` states, completed or not. */
  lemma RunRound(dist: bool, me: nat, targets: seq<set<int>>, exs: seq<Exchange>,
                 start: map<nat, Elem>, startSides: seq<SideTriple>, startNext: nat, startNextU: nat,
                 blocks: seq<nat>, o: Outcome, rounds: seq<RoundTrace>, elems: map<nat, Elem>, sides: seq<SideTriple>, k: nat)
    requires RunOf(dist, me, targets, exs, start, startSides, startNext, startNextU, blocks, o, rounds, elems, sides)
    requires k < |rounds|
    ensures k < |targets| && RoundOf(dist, me, targets[k], exs[k], rounds[k], if k < |blocks| then Ok(blocks[k]) else Err(o.error))
  {
  }

  /** What any round ended with is still in the mesh at the end of the run. */
  lemma {:induction false} RunKeeps(dist: bool, me: nat, targets: seq<set<int>>, exs: seq<Exchange>,
                                    start: map<nat, Elem>, startSides: seq<SideTriple>, startNext: nat, startNextU: nat,
                                    blocks: seq<nat>, o: Outcome, rounds: seq<RoundTrace>, elems: map<nat, Elem>,
                                    sides: seq<SideTriple>, k: nat)
    requires RunOf(dist, me, targets, exs, start, startSides, startNext, startNextU, blocks, o, rounds, elems, sides)
    requires k < |rounds|
    ensures forall id :: id in rounds[k].after ==> id in elems && elems[id] == rounds[k].after[id]
    decreases |rounds| - k
  {
    if k + 1 < |rounds| {
      RunRound(dist, me, targets, exs, start, startSides, startNext, startNextU, blocks, o, rounds, elems, sides, k + 1);
      RunKeeps(dist, me, targets, exs, start, startSides, startNext, startNextU, blocks, o, rounds, elems, sides, k + 1);
    }
  }

  /**
   * The elements completed round `k` created stay in the mesh to the end
   * of the run, each a promoted side in block `blocks[k]`, one per matching
   * triple whose element was local in that round.
   */
  lemma RunNewElems(dist: bool, me: nat, targets: seq<set<int>>, exs: seq<Exchange>,
                    start: map<nat, Elem>, startSides: seq<SideTriple>, startNext: nat, startNextU: nat,
                    blocks: seq<nat>, o: Outcome, rounds: seq<RoundTrace>, elems: map<nat, Elem>, sides: seq<SideTriple>, k: nat)
    requires RunOf(dist, me, targets, exs, start, startSides, startNext, startNextU, blocks, o, rounds, elems, sides)
    requires k < |blocks|
    ensures var t := rounds[k];
      (forall id :: id in t.after.Keys - t.base.Keys ==> id in elems && elems[id] == t.after[id])
      && Promoted(Added(t.after, t.base), t.base, blocks[k], t.firstId, t.firstUid)
      && |t.after.Keys - t.base.Keys| == LocalMatchCount(t.sides, targets[k], t.base)
  {
    var t := rounds[k];
    RunRound(dist, me, targets, exs, start, startSides, startNext, startNextU, blocks, o, rounds, elems, sides, k);
    RoundAdds(dist, me, targets[k], exs[k], t, blocks[k]);
    RunKeeps(dist, me, targets, exs, start, startSides, startNext, startNextU, blocks, o, rounds, elems, sides, k);
  }

  /** A completed round adds promoted sides in its block, one per matching triple whose element was local. */
  lemma RoundAdds(dist: bool, me: nat, targets: set<int>, ex: Exchange, t: RoundTrace, b: nat)
    requires RoundOf(dist, me, targets, ex, t, Ok(b))
    ensures Promoted(Added(t.after, t.base), t.base, b, t.firstId, t.firstUid)
    ensures |t.after.Keys - t.base.Keys| == LocalMatchCount(t.sides, targets, t.base)
  {
    assert Promotes(t.sides, targets, t.base, t.firstId, t.firstUid, Ok(b), t.after);
    PromotedElems(t.base, t.sides, targets, b, t.firstId, t.firstUid);
    PromotedCount(t.base, t.sides, targets, b, t.firstId, t.firstUid);
  }

  /** The elements of `after` that `base` did not have. */
  function Added(after: map<nat, Elem>, base: map<nat, Elem>): map<nat, Elem>
  {
    map id | id in after.Keys - base.Keys :: after[id]
  }

  /** A completed round that added an element leaves its block in use. */
  lemma RoundBlockInUse(dist: bool, me: nat, targets: set<int>, ex: Exchange, t: RoundTrace, b: nat)
    requires RoundOf(dist, me, targets, ex, t, Ok(b)) && t.after.Keys != t.base.Keys
    ensures b in SubdomainsInUse(t.after, {})
  {
    RoundAdds(dist, me, targets, ex, t, b);
    var id :| id in t.after.Keys - t.base.Keys;
    assert id in Added(t.after, t.base) && Added(t.after, t.base)[id] == t.after[id];
  }

  /**
   * When the other processes' subdomains only grow from round to round, the
   * completed rounds' block ids never decrease, and one grows past the
   * previous round's id once that round added an element.
   */
  lemma RunBlocksOrdered(dist: bool, me: nat, targets: seq<set<int>>, exs: seq<Exchange>,
                         start: map<nat, Elem>, startSides: seq<SideTriple>, startNext: nat, startNextU: nat,
                         blocks: seq<nat>, o: Outcome, rounds: seq<RoundTrace>, elems: map<nat, Elem>, sides: seq<SideTriple>)
    requires RunOf(dist, me, targets, exs, start, startSides, startNext, startNextU, blocks, o, rounds, elems, sides)
    requires forall k :: 0 < k < |exs| ==> exs[k - 1].subdomains <= exs[k].subdomains
    ensures forall j :: 0 < j < |blocks| ==> blocks[j - 1] <= blocks[j]
    ensures forall j :: 0 < j < |blocks| && rounds[j - 1].after.Keys != rounds[j - 1].base.Keys ==> blocks[j - 1] < blocks[j]
  {
    forall j | 0 < j < |blocks|
      ensures blocks[j - 1] <= blocks[j]
      ensures rounds[j - 1].after.Keys != rounds[j - 1].base.Keys ==> blocks[j - 1] < blocks[j]
    {
      RunRound(dist, me, targets, exs, start, startSides, startNext, startNextU, blocks, o, rounds, elems, sides, j - 1);
      RunRound(dist, me, targets, exs, start, startSides, startNext, startNextU, blocks, o, rounds, elems, sides, j);
      NextRoundBlock(dist, me, targets[j - 1], exs[j - 1], rounds[j - 1], blocks[j - 1],
                     targets[j], exs[j], rounds[j], blocks[j]);
    }
  }

  /** Two consecutive completed rounds: the second allocates no smaller id, and a larger one after an addition. */
  lemma NextRoundBlock(dist: bool, me: nat, targets1: set<int>, ex1: Exchange, t1: RoundTrace, b1: nat,
                       targets2: set<int>, ex2: Exchange, t2: RoundTrace, b2: nat)
    requires RoundOf(dist, me, targets1, ex1, t1, Ok(b1)) && RoundOf(dist, me, targets2, ex2, t2, Ok(b2))
    requires t2.start == t1.after && ex1.subdomains <= ex2.subdomains
    ensures b1 <= b2
    ensures t1.after.Keys != t1.base.Keys ==> b1 < b2
  {
    InUseGrows(t1.start, ex1.subdomains, t2.start, ex2.subdomains);
    var used := SubdomainsInUse(t2.start, ex2.subdomains);
    if t1.after.Keys != t1.base.Keys {
      RoundBlockInUse(dist, me, targets1, ex1, t1, b1);
      InUseGrows(t2.start, {}, t2.start, ex2.subdomains);
    }
    NextFreeMonotone(SubdomainsInUse(t1.start, ex1.subdomains), b1, used, b2);
  }

  class Mesh {
    const procId: nat
    const nProcs: nat
    const serial: bool
    const replicated: bool
    const dim: nat
    var elems: map<nat, Elem>
    var nodes: set<nat>
    var nodeTags: set<(nat, int)>
    var sides: seq<SideTriple>
    var nodesetNames: map<int, string>
    var subdomainNames: map<nat, string>
    var nextElemId: nat
    var nextUniqueId: nat
    var prepared: bool
    var allowRemoteElementRemoval: bool
    var skipPartitioning: bool
    var prepareLog: seq<PrepareCall>

    /** `max_elem_id()` and `parallel_max_unique_id()` stay above every id in use. */
    ghost predicate Valid()
      reads this`elems, this`nextElemId, this`nextUniqueId
    {
      procId < nProcs && 1 <= dim <= 3 && Below(elems, nextElemId, nextUniqueId)
    }

    /** The branch `!mesh->is_serial() && mesh->comm().size() > 1`. */
    predicate Distributed()
    {
      !serial && nProcs > 1
    }

    constructor (procId: nat, nProcs: nat, serial: bool, replicated: bool, dim: nat,
                 elems: map<nat, Elem>, nodes: set<nat>, sides: seq<SideTriple>,
                 nextElemId: nat, nextUniqueId: nat, prepared: bool, allowRemoval: bool, skipPartitioning: bool)
      requires procId < nProcs && 1 <= dim <= 3 && Below(elems, nextElemId, nextUniqueId)
      ensures Valid()
      ensures this.procId == procId && this.nProcs == nProcs && this.serial == serial
      ensures this.replicated == replicated && this.dim == dim
      ensures this.elems == elems && this.nodes == nodes && this.sides == sides
      ensures this.nextElemId == nextElemId && this.nextUniqueId == nextUniqueId
      ensures this.prepared == prepared && this.allowRemoteElementRemoval == allowRemoval
      ensures this.skipPartitioning == skipPartitioning
      ensures nodeTags == {} && nodesetNames == map[] && subdomainNames == map[] && prepareLog == []
    {
      this.procId, this.nProcs, this.serial, this.replicated, this.dim := procId, nProcs, serial, replicated, dim;
      this.elems, this.nodes, this.sides := elems, nodes, sides;
      this.nextElemId, this.nextUniqueId := nextElemId, nextUniqueId;
      this.prepared, this.allowRemoteElementRemoval, this.skipPartitioning := prepared, allowRemoval, skipPartitioning;
      nodeTags, nodesetNames, subdomainNames, prepareLog := {}, map[], map[], [];
    }

    // -------------------------------------------------------------------
    // Boundary information

    /** `boundary_info.add_node(n, b)`: a node/boundary pair is stored once. */
    method AddNodeTag(n: nat, b: int)
      modifies this`nodeTags
      ensures nodeTags == old(nodeTags) + {(n, b)}
    {
      nodeTags := nodeTags + {(n, b)};
    }

    /**
     * The loop over node ids: an id this process does not hold is skipped,
     * every other one is tagged with every boundary id, and no other pair
     * changes.
     */
    method TagNodesById(ids: seq<nat>, bids: seq<int>)
      modifies this`nodeTags
      ensures nodeTags == old(nodeTags) + IdTags(ids, bids, nodes)
    {
      var i := 0;
      while i < |ids|
        invariant 0 <= i <= |ids|
        invariant nodeTags == old(nodeTags) + IdTags(ids[..i], bids, nodes)
      {
        var n := ids[i];
        assert ids[..i + 1] == ids[..i] + [n];
        IdTagsSnocId(ids[..i], n, bids, nodes);
        if n in nodes {
          var j := 0;
          while j < |bids|
            invariant 0 <= j <= |bids|
            invariant nodeTags == old(nodeTags) + IdTags(ids[..i], bids, nodes) + IdTags([n], bids[..j], nodes)
          {
            assert bids[..j + 1] == bids[..j] + [bids[j]];
            IdTagsSnocBoundary(n, bids[..j], bids[j], nodes);
            AddNodeTag(n, bids[j]);
            j := j + 1;
          }
          assert bids[..j] == bids;
        } else {
          assert IdTags([n], bids, nodes) == {};
        }
        i := i + 1;
      }
      assert ids[..i] == ids;
    }

    /** `nodeset_name(bids[i]) = names[i]` in order: a repeated id keeps the last name. */
    method NameNodesets(bids: seq<int>, names: seq<string>)
      requires |bids| == |names|
      modifies this`nodesetNames
      ensures nodesetNames == Overwrite.Assign(old(nodesetNames), bids, names)
    {
      var i := 0;
      while i < |bids|
        invariant 0 <= i <= |bids|
        invariant nodesetNames == Overwrite.Assign(old(nodesetNames), bids[..i], names[..i])
      {
        assert bids[..i + 1][..i] == bids[..i] && names[..i + 1][..i] == names[..i];
        nodesetNames := nodesetNames[bids[i] := names[i]];
        i := i + 1;
      }
      assert bids[..i] == bids && names[..i] == names;
    }

    /** `build_side_list_from_node_list()`: the sides it derives from the nodesets are given. */
    method BuildSideListFromNodeList(derived: seq<SideTriple>)
      modifies this`sides
      ensures sides == old(sides) + derived
    {
      sides := sides + derived;
    }

    /** `set_isnt_prepared()`. */
    method SetIsntPrepared()
      modifies this`prepared
      ensures !prepared
    {
      prepared := false;
    }

    // -------------------------------------------------------------------
    // Preparation

    /** `prepare_for_use()`, observed through the flags it runs under. */
    method PrepareForUse()
      modifies this`prepared, this`prepareLog
      ensures prepared
      ensures prepareLog == old(prepareLog) + [PrepareCall(allowRemoteElementRemoval, skipPartitioning)]
    {
      prepared := true;
      prepareLog := prepareLog + [PrepareCall(allowRemoteElementRemoval, skipPartitioning)];
    }

    /**
     * An unprepared mesh is prepared with remote element removal switched
     * off for the call, and the flag gets back its previous value.
     */
    method PrepareKeepingRemoteElements()
      modifies this`prepared, this`prepareLog, this`allowRemoteElementRemoval
      ensures prepared
      ensures allowRemoteElementRemoval == old(allowRemoteElementRemoval)
      ensures prepareLog == old(prepareLog) + (if old(prepared) then [] else [PrepareCall(false, skipPartitioning)])
    {
      if !prepared {
        var saved := allowRemoteElementRemoval;
        allowRemoteElementRemoval := false;
        PrepareForUse();
        allowRemoteElementRemoval := saved;
      }
    }

    // -------------------------------------------------------------------
    // Elements

    /**
     * `getNextFreeSubdomainID(*mesh)`: the subdomain ids of the active
     * elements held here, united with `others` from the other processes, and
     * one past the highest of them.
     */
    method NextFreeSubdomainId(others: set<nat>) returns (id: nat)
      ensures IsNextFreeSubdomain(SubdomainsInUse(elems, others), id)
    {
      var used := SubdomainsInUse(elems, others);
      id := 0;
      var rest := used;
      ghost var seen: set<nat> := {};
      while rest != {}
        invariant rest + seen == used
        invariant forall s :: s in seen ==> s < id
        invariant seen == {} ==> id == 0
        invariant seen != {} ==> id >= 1 && id - 1 in seen
        decreases rest
      {
        var s :| s in rest;
        if s + 1 > id { id := s + 1; }
        rest, seen := rest - {s}, seen + {s};
      }
    }

    /** `add_elem(e)` with `e`'s id already set: the counters move past it. */
    method AddElem(id: nat, e: Elem)
      requires Valid()
      modifies this`elems, this`nextElemId, this`nextUniqueId
      ensures Valid()
      ensures elems == old(elems)[id := e]
      ensures nextElemId == (if id < old(nextElemId) then old(nextElemId) else id + 1)
      ensures nextUniqueId == (if e.uniqueId < old(nextUniqueId) then old(nextUniqueId) else e.uniqueId + 1)
    {
      elems := elems[id := e];
      if nextElemId <= id { nextElemId := id + 1; }
      if nextUniqueId <= e.uniqueId { nextUniqueId := e.uniqueId + 1; }
    }

    /**
     * Unpacking what other processes pushed: an element or node this
     * process already holds is kept, the others are added.
     */
    method Absorb(received: map<nat, Elem>, newNodes: set<nat>)
      requires Valid()
      modifies this`elems, this`nodes, this`nextElemId, this`nextUniqueId
      ensures Valid()
      ensures elems == received + old(elems)
      ensures nodes == old(nodes) + newNodes
      ensures nextElemId >= old(nextElemId) && nextUniqueId >= old(nextUniqueId)
    {
      var idBound, uidBound := IdBounds(received);
      elems := received + elems;
      nodes := nodes + newNodes;
      if nextElemId < idBound { nextElemId := idBound; }
      if nextUniqueId < uidBound { nextUniqueId := uidBound; }
    }

    /**
     * The `add_elem` loop: `max_elem_id()` and `parallel_max_unique_id()`
     * are read once, and record `p` becomes element `max_elem_id + p.offset`.
     */
    method AddLowerDimElems(ps: seq<Pending>, block: nat)
      requires Valid()
      requires ParentsIn(ps, elems, false)
      modifies this`elems, this`nextElemId, this`nextUniqueId
      ensures Valid()
      ensures elems == old(elems) + NewElems(ps, old(elems), block, old(nextElemId), old(nextUniqueId))
    {
      var maxId := nextElemId;
      var maxUid := nextUniqueId;
      ghost var parents := elems;
      var i := 0;
      while i < |ps|
        invariant 0 <= i <= |ps|
        invariant Valid() && nextElemId >= maxId && nextUniqueId >= maxUid
        invariant elems == parents + NewElems(ps[..i], parents, block, maxId, maxUid)
      {
        var p := ps[i];
        NewElemsShape(ps[..i], parents, block, maxId, maxUid);
        assert p.parent < maxId;
        assert p.parent in elems && elems[p.parent] == parents[p.parent];
        NewElemsStep(ps, i, parents, block, maxId, maxUid);
        AddElem(maxId + p.offset, LowerDimOf(elems[p.parent], p.parent, block, maxUid + p.offset));
        i := i + 1;
      }
      assert ps[..i] == ps;
    }

    // -------------------------------------------------------------------
    // Block synthesis

    /**
     * The distributed branch: gather the send list (stopping when `elem_ptr`
     * cannot return a matching element), compute the push plan, take in what
     * the other processes push, and rebuild the side list. A serial or
     * one-process mesh is left alone.
     */
    method ExchangeBoundaryElems(targets: set<int>, ex: Exchange, reconnect: set<nat> -> set<nat>)
      returns (o: Outcome, plan: Option<PushPlan>)
      requires Valid()
      requires Distributed() ==> |ex.needFlags| == nProcs
      modifies this`elems, this`nodes, this`sides, this`nextElemId, this`nextUniqueId
      ensures Valid() && nextElemId >= old(nextElemId)
      ensures forall id :: id in old(elems) ==> id in elems && elems[id] == old(elems)[id]
      ensures (Distributed() && SendList(old(sides), targets, old(elems), procId).Ok?) <==> plan.Some?
      ensures plan.None? ==> elems == old(elems) && sides == old(sides) && nodes == old(nodes)
                             && nextElemId == old(nextElemId) && nextUniqueId == old(nextUniqueId)
      ensures o.Fail? <==> Distributed() && SendList(old(sides), targets, old(elems), procId).Err?
      ensures o.Fail? ==> o.error == SendList(old(sides), targets, old(elems), procId).error
      ensures plan.Some? ==>
        var toSend := SendList(old(sides), targets, old(elems), procId).value;
        PushPlanFor(plan.value, nProcs, procId, ex.needFlags, toSend, reconnect(Overwrite.Elements(toSend)))
        && elems == ex.elems + old(elems) && sides == ex.sides && nodes == old(nodes) + ex.nodes
    {
      o, plan := Pass, None;
      if Distributed() {
        var g := GatherSendList(sides, targets, elems, procId);
        if g.Err? {
          o := Fail(g.error);
          return;
        }
        var toSend := g.value.toSend;
        var p := BuildPushPlan(nProcs, procId, ex.needFlags, toSend, reconnect(Overwrite.Elements(toSend)));
        plan := Some(p);
        Absorb(ex.elems, ex.nodes);
        sides := ex.sides;
      }
    }

    /**
     * The collection loop and the `add_elem` loop: an inactive matching
     * element stops the round before any element is added.
     */
    method AddSideElems(targets: set<int>, block: nat) returns (o: Outcome)
      requires Valid()
      modifies this`elems, this`nextElemId, this`nextUniqueId
      ensures Valid()
      ensures forall id :: id in old(elems) ==> id in elems && elems[id] == old(elems)[id]
      ensures o.Fail? <==> HasInactiveMatch(sides, targets, old(elems))
      ensures o.Fail? ==> o.error == InactiveParent && elems == old(elems)
      ensures o.Pass? ==> elems == old(elems) + NewElems(PendingSides(sides, targets, old(elems)), old(elems), block, old(nextElemId), old(nextUniqueId))
    {
      var c := CollectSides(sides, targets, elems);
      if c.Err? {
        return Fail(c.error);
      }
      PendingParents(sides, targets, elems);
      NewElemsFresh(c.value, elems, block, nextElemId, nextUniqueId);
      AddLowerDimElems(c.value, block);
      return Pass;
    }

    /** The preparation without remote-element removal, then the exchange of boundary elements. */
    method PrepareAndExchange(targets: set<int>, ex: Exchange, reconnect: set<nat> -> set<nat>)
      returns (o: Outcome, plan: Option<PushPlan>)
      requires Valid()
      requires Distributed() ==> |ex.needFlags| == nProcs
      modifies this`elems, this`nodes, this`sides, this`nextElemId, this`nextUniqueId,
               this`prepared, this`prepareLog, this`allowRemoteElementRemoval
      ensures Valid() && prepared
      ensures allowRemoteElementRemoval == old(allowRemoteElementRemoval)
      ensures prepareLog == old(prepareLog) + (if old(prepared) then [] else [PrepareCall(false, skipPartitioning)])
      ensures forall id :: id in old(elems) ==> id in elems && elems[id] == old(elems)[id]
      ensures (Distributed() && SendList(old(sides), targets, old(elems), procId).Ok?) <==> plan.Some?
      ensures plan.None? ==> elems == old(elems) && sides == old(sides) && nodes == old(nodes)
                             && nextElemId == old(nextElemId) && nextUniqueId == old(nextUniqueId)
      ensures o.Fail? <==> Distributed() && SendList(old(sides), targets, old(elems), procId).Err?
      ensures o.Fail? ==> o.error == SendList(old(sides), targets, old(elems), procId).error
      ensures plan.Some? ==>
        var toSend := SendList(old(sides), targets, old(elems), procId).value;
        PushPlanFor(plan.value, nProcs, procId, ex.needFlags, toSend, reconnect(Overwrite.Elements(toSend)))
        && elems == ex.elems + old(elems) && sides == ex.sides && nodes == old(nodes) + ex.nodes
    {
      PrepareKeepingRemoteElements();
      o, plan := ExchangeBoundaryElems(targets, ex, reconnect);
    }

    /**
     * From `new_block_id` through the `add_elem` loop of each generator: the
     * block id is allocated first, the mesh is prepared without removing
     * remote elements, a distributed mesh exchanges its boundary elements,
     * and the new elements go into the block. `t` records the round: its
     * `base`, `firstId` and `firstUid` are the element map, `max_elem_id()`
     * and `parallel_max_unique_id()` after the exchange.
     */
    method PromoteBoundary(targets: set<int>, ex: Exchange, reconnect: set<nat> -> set<nat>)
      returns (r: Result<nat>, plan: Option<PushPlan>, ghost t: RoundTrace)
      requires Valid()
      requires Distributed() ==> |ex.needFlags| == nProcs
      modifies this`elems, this`nodes, this`sides, this`nextElemId, this`nextUniqueId,
               this`prepared, this`prepareLog, this`allowRemoteElementRemoval
      ensures Valid() && prepared
      ensures allowRemoteElementRemoval == old(allowRemoteElementRemoval)
      ensures prepareLog == old(prepareLog) + (if old(prepared) then [] else [PrepareCall(false, skipPartitioning)])
      ensures t.start == old(elems) && t.startSides == old(sides)
      ensures t.startNext == old(nextElemId) && t.startNextU == old(nextUniqueId)
      ensures t.after == elems && t.sides == sides
      ensures RoundOf(Distributed(), procId, targets, ex, t, r)
      ensures (Distributed() && SendList(old(sides), targets, old(elems), procId).Ok?) <==> plan.Some?
      ensures plan.Some? ==>
        var toSend := SendList(old(sides), targets, old(elems), procId).value;
        PushPlanFor(plan.value, nProcs, procId, ex.needFlags, toSend, reconnect(Overwrite.Elements(toSend)))
        && nodes == old(nodes) + ex.nodes
      ensures !Distributed() ==> nodes == old(nodes)
    {
      ghost var start, startSides, startNext, startNextU := elems, sides, nextElemId, nextUniqueId;
      var block := NextFreeSubdomainId(ex.subdomains);
      var o;
      o, plan := PrepareAndExchange(targets, ex, reconnect);
      if o.Fail? {
        r := Err(o.error);
        t := RoundTrace(start, startSides, startNext, startNextU, elems, sides, nextElemId, nextUniqueId, elems);
        return;
      }
      ghost var base, firstId, firstUid := elems, nextElemId, nextUniqueId;
      o := AddSideElems(targets, block);
      r := if o.Fail? then Err(o.error) else Ok(block);
      t := RoundTrace(start, startSides, startNext, startNextU, base, sides, firstId, firstUid, elems);
    }

    /**
     * The end of every generator round: name the block, then prepare the
     * mesh with partitioning skipped and give the flag back its value.
     */
    method FinalizeBlock(block: nat, name: string)
      modifies this`subdomainNames, this`skipPartitioning, this`prepared, this`prepareLog
      ensures subdomainNames == old(subdomainNames)[block := name]
      ensures prepared && skipPartitioning == old(skipPartitioning)
      ensures prepareLog == old(prepareLog) + [PrepareCall(allowRemoteElementRemoval, true)]
    {
      subdomainNames := subdomainNames[block := name];
      var saved := skipPartitioning;
      skipPartitioning := true;
      PrepareForUse();
      skipPartitioning := saved;
    }

    /**
     * One whole generator round after the boundary is built: promote the
     * sides on `targets` to a new block and, when that succeeds, name the
     * block `name(block)` and prepare the mesh again.
     */
    method AddBlock(targets: set<int>, ex: Exchange, reconnect: set<nat> -> set<nat>, name: nat -> string)
      returns (r: Result<nat>, plan: Option<PushPlan>, ghost t: RoundTrace)
      requires Valid()
      requires Distributed() ==> |ex.needFlags| == nProcs
      modifies this`elems, this`nodes, this`sides, this`nextElemId, this`nextUniqueId, this`prepared,
               this`prepareLog, this`allowRemoteElementRemoval, this`subdomainNames, this`skipPartitioning
      ensures Valid() && prepared
      ensures allowRemoteElementRemoval == old(allowRemoteElementRemoval) && skipPartitioning == old(skipPartitioning)
      ensures prepareLog == old(prepareLog) + (if old(prepared) then [] else [PrepareCall(false, old(skipPartitioning))])
                            + (if r.Ok? then [PrepareCall(old(allowRemoteElementRemoval), true)] else [])
      ensures subdomainNames == if r.Ok? then old(subdomainNames)[r.value := name(r.value)] else old(subdomainNames)
      ensures t.start == old(elems) && t.startSides == old(sides)
      ensures t.startNext == old(nextElemId) && t.startNextU == old(nextUniqueId)
      ensures t.after == elems && t.sides == sides
      ensures RoundOf(Distributed(), procId, targets, ex, t, r)
      ensures (Distributed() && SendList(old(sides), targets, old(elems), procId).Ok?) <==> plan.Some?
      ensures plan.Some? ==>
        var toSend := SendList(old(sides), targets, old(elems), procId).value;
        PushPlanFor(plan.value, nProcs, procId, ex.needFlags, toSend, reconnect(Overwrite.Elements(toSend)))
        && nodes == old(nodes) + ex.nodes
      ensures !Distributed() ==> nodes == old(nodes)
    {
      r, plan, t := PromoteBoundary(targets, ex, reconnect);
      if r.Ok? {
        FinalizeBlock(r.value, name(r.value));
      }
    }

    /** One `AddBlock` round named `name`, with everything but the exchange plan and the preparation log. */
    method AddNamedBlock(targets: set<int>, ex: Exchange, reconnect: set<nat> -> set<nat>, name: string)
      returns (r: Result<nat>, ghost t: RoundTrace)
      requires Valid()
      requires Distributed() ==> |ex.needFlags| == nProcs
      modifies this`elems, this`nodes, this`sides, this`nextElemId, this`nextUniqueId, this`prepared,
               this`prepareLog, this`allowRemoteElementRemoval, this`subdomainNames, this`skipPartitioning
      ensures Valid() && prepared
      ensures allowRemoteElementRemoval == old(allowRemoteElementRemoval) && skipPartitioning == old(skipPartitioning)
      ensures subdomainNames == if r.Ok? then old(subdomainNames)[r.value := name] else old(subdomainNames)
      ensures t.start == old(elems) && t.startSides == old(sides)
      ensures t.startNext == old(nextElemId) && t.startNextU == old(nextUniqueId)
      ensures t.after == elems && t.sides == sides
      ensures RoundOf(Distributed(), procId, targets, ex, t, r)
    {
      var plan;
      r, plan, t := AddBlock(targets, ex, reconnect, _ => name);
    }

    /**
     * Consecutive rounds of `AddBlock`, round `i` promoting the sides on
     * `targets[i]` to a block named `names[i]` with what `exs[i]` brings;
     * they stop at the first error. `blocks` are the ids the completed rounds
     * allocated and `rounds` what each round did; a round that adds no
     * element can leave the next round the same id, whose name is then
     * replaced.
     */
    method AddBlocks(targets: seq<set<int>>, names: seq<string>, exs: seq<Exchange>, reconnect: set<nat> -> set<nat>)
      returns (o: Outcome, ghost blocks: seq<nat>, ghost rounds: seq<RoundTrace>)
      requires Valid() && |targets| == |names| == |exs|
      requires Distributed() ==> forall i :: 0 <= i < |exs| ==> |exs[i].needFlags| == nProcs
      modifies this`elems, this`nodes, this`sides, this`nextElemId, this`nextUniqueId, this`prepared,
               this`prepareLog, this`allowRemoteElementRemoval, this`subdomainNames, this`skipPartitioning
      ensures Valid()
      ensures allowRemoteElementRemoval == old(allowRemoteElementRemoval) && skipPartitioning == old(skipPartitioning)
      ensures o.Pass? <==> |blocks| == |names|
      ensures RunOf(Distributed(), procId, targets, exs, old(elems), old(sides), old(nextElemId), old(nextUniqueId),
                    blocks, o, rounds, elems, sides)
      ensures subdomainNames == Overwrite.Assign(old(subdomainNames), blocks, names[..|blocks|])
      ensures names != [] && o.Pass? ==> prepared
    {
      blocks, rounds := [], [];
      ghost var elems0, sides0, next0, nextU0, names0 := elems, sides, nextElemId, nextUniqueId, subdomainNames;
      var i := 0;
      while i < |names|
        invariant 0 <= i <= |names| && |blocks| == i
        invariant Valid()
        invariant allowRemoteElementRemoval == old(allowRemoteElementRemoval)
        invariant skipPartitioning == old(skipPartitioning)
        invariant RunOf(Distributed(), procId, targets, exs, elems0, sides0, next0, nextU0, blocks, Pass, rounds, elems, sides)
        invariant rounds == [] ==> nextElemId == next0 && nextUniqueId == nextU0
        invariant subdomainNames == Overwrite.Assign(names0, blocks, names[..i])
        invariant i > 0 ==> prepared
      {
        var r;
        ghost var t;
        r, t := NamedRound(targets, names, exs, reconnect, i, elems0, sides0, next0, nextU0, blocks, rounds);
        if r.Err? {
          return Fail(r.error), blocks, rounds + [t];
        }
        Overwrite.AssignStep(names0, blocks, names, r.value);
        blocks, rounds := blocks + [r.value], rounds + [t];
        i := i + 1;
      }
      return Pass, blocks, rounds;
    }

    /** Round `|blocks|` of `AddBlocks`, extending the run so far by one round, completed or failed. */
    method NamedRound(targets: seq<set<int>>, names: seq<string>, exs: seq<Exchange>, reconnect: set<nat> -> set<nat>, k: nat,
                      ghost start: map<nat, Elem>, ghost startSides: seq<SideTriple>, ghost startNext: nat, ghost startNextU: nat,
                      ghost blocks: seq<nat>, ghost rounds: seq<RoundTrace>)
      returns (r: Result<nat>, ghost t: RoundTrace)
      requires Valid() && |targets| == |names| == |exs| && k == |blocks| < |names|
      requires Distributed() ==> forall i :: 0 <= i < |exs| ==> |exs[i].needFlags| == nProcs
      requires RunOf(Distributed(), procId, targets, exs, start, startSides, startNext, startNextU, blocks, Pass, rounds, elems, sides)
      requires rounds == [] ==> nextElemId == startNext && nextUniqueId == startNextU
      modifies this`elems, this`nodes, this`sides, this`nextElemId, this`nextUniqueId, this`prepared,
               this`prepareLog, this`allowRemoteElementRemoval, this`subdomainNames, this`skipPartitioning
      ensures Valid() && prepared
      ensures allowRemoteElementRemoval == old(allowRemoteElementRemoval) && skipPartitioning == old(skipPartitioning)
      ensures subdomainNames == if r.Ok? then old(subdomainNames)[r.value := names[k]] else old(subdomainNames)
      ensures r.Err? ==> RunOf(Distributed(), procId, targets, exs, start, startSides, startNext, startNextU,
                               blocks, Fail(r.error), rounds + [t], elems, sides)
      ensures r.Ok? ==> RunOf(Distributed(), procId, targets, exs, start, startSides, startNext, startNextU,
                              blocks + [r.value], Pass, rounds + [t], elems, sides)
    {
      ghost var runElems, runSides := elems, sides;
      r, t := AddNamedBlock(targets[k], exs[k], reconnect, names[k]);
      if r.Err? {
        RunStop(Distributed(), procId, targets, exs, start, startSides, startNext, startNextU, blocks, rounds, runElems, runSides, t, r.error);
      } else {
        RunExtend(Distributed(), procId, targets, exs, start, startSides, startNext, startNextU, blocks, rounds, runElems, runSides, t, r.value);
      }
    }
  }
}
