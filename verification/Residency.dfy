/** Which quads are resident on the GPU, and what one update of that set keeps
    (nucleus/tile/Scheduler.cpp, update_gpu_quads). */
module Residency {
  import opened Tiles
  import opened Entries
  import opened Traversal

  /** The GPU cache stores ids only. */
  type GpuStore = Store<()>

  /** Every tile is the root or has its parent in the set. */
  ghost predicate ParentClosed(s: set<TileId>) {
    forall id {:trigger Parent(id)} :: id in s ==> if id.zoom == 0 then id == ROOT else Parent(id) in s
  }

  /** What the scheduler wants on the GPU: a parent-closed set of refined tiles. */
  ghost predicate Selection(selected: set<TileId>, refine: Refine) {
    ParentClosed(selected) && forall id :: id in selected ==> refine(id)
  }

  /** The visitor that only asks the camera. */
  function ByRefine<T>(refine: Refine): Named<T> -> bool {
    (tile: Named<T>) => refine(tile.id)
  }

  /** `mid` is `gpu` after inserting the selected tiles that it lacks, with any stamps. */
  ghost predicate Extends(mid: GpuStore, gpu: GpuStore, selected: set<TileId>) {
    && WellKeyed(mid) && mid.Keys == gpu.Keys + selected
    && forall id :: id in gpu ==> mid[id] == gpu[id]
  }

  /** The part of the store that a descent through refined tiles reaches. */
  ghost function Refinable(m: GpuStore, refine: Refine): set<TileId> {
    Visited(m, ByRefine(refine), ROOT)
  }

  /** One update: insert the selection, restamp the refinable part at `now`, keep the `limit` highest stamps. */
  ghost predicate GpuUpdate(gpu: GpuStore, selected: set<TileId>, refine: Refine, limit: nat, now: Msecs,
                            mid: GpuStore, gpu': GpuStore)
  {
    && Extends(mid, gpu, selected)
    && IsPurge(Marked(mid, Refinable(mid, refine), now), limit, gpu')
  }

  lemma VisitedMember<T>(m: Store<T>, functor: Named<T> -> bool, id: TileId)
    ensures id in Visited(m, functor, ROOT)
       <==> id in m && functor(m[id].data)
            && if id.zoom == 0 then id == ROOT else Parent(id) in Visited(m, functor, ROOT)
  {
    if id in Visited(m, functor, ROOT) && id.zoom > 0 {
      ReachCovers(Accepted(m, functor), ROOT, id);
      ReachIsAccepted(m, functor, Parent(id));
    }
  }

  lemma ReachIsAccepted<T>(m: Store<T>, functor: Named<T> -> bool, id: TileId)
    requires Reach(Accepted(m, functor), ROOT, id)
    ensures id in Visited(m, functor, ROOT)
  {
  }

  // ---- the invariant --------------------------------------------------------------------------

  /** The parent of every resident tile is resident and carries a higher stamp. */
  ghost predicate StampedTree(m: GpuStore) {
    forall id {:trigger Parent(id)} :: id in m ==>
      if id.zoom == 0 then id == ROOT
      else Parent(id) in m && m[Parent(id)].meta.visited > m[id].meta.visited
  }

  ghost predicate GpuInv(m: GpuStore, last: Msecs) {
    WellKeyed(m) && ZoomsBelow(m, 100) && NotAfter(m, last) && StampedTree(m)
  }

  lemma StampedTreeClosed(m: GpuStore)
    requires StampedTree(m)
    ensures ParentClosed(m.Keys)
  {
  }

  /** All selected tiles are refinable once inserted. */
  lemma {:induction false} SelectedRefinable(mid: GpuStore, selected: set<TileId>, refine: Refine, id: TileId)
    requires WellKeyed(mid) && Selection(selected, refine) && selected <= mid.Keys && id in selected
    ensures id in Refinable(mid, refine)
    decreases id.zoom
  {
    var parent := Parent(id);
    if id.zoom > 0 {
      SelectedRefinable(mid, selected, refine, parent);
    }
    VisitedMember(mid, ByRefine(refine), id);
  }

  /** The parent of a tile with a parent, in the extended tree, and which of the two were restamped. */
  lemma ExtendedParent(gpu: GpuStore, selected: set<TileId>, refine: Refine, last: Msecs, mid: GpuStore, id: TileId)
    requires GpuInv(gpu, last) && Selection(selected, refine) && Extends(mid, gpu, selected)
    requires id in mid && id.zoom > 0
    ensures Parent(id) in mid
    ensures id in Refinable(mid, refine) ==> Parent(id) in Refinable(mid, refine)
    ensures id !in Refinable(mid, refine) ==> id in gpu
    ensures Parent(id) !in Refinable(mid, refine) ==> Parent(id) in gpu
  {
    VisitedMember(mid, ByRefine(refine), id);
    if id in selected {
      SelectedRefinable(mid, selected, refine, id);
    }
    if Parent(id) in selected {
      SelectedRefinable(mid, selected, refine, Parent(id));
    }
  }

  lemma ExtendedRoot(gpu: GpuStore, selected: set<TileId>, refine: Refine, mid: GpuStore, id: TileId)
    requires StampedTree(gpu) && Selection(selected, refine) && Extends(mid, gpu, selected)
    requires id in mid && id.zoom == 0
    ensures id == ROOT
  {
    var above := Parent(id);
    assert id in gpu || id in selected;
  }

  lemma TreeOrder(gpu: GpuStore, id: TileId)
    requires StampedTree(gpu) && id in gpu && id.zoom > 0
    ensures Parent(id) in gpu && gpu[Parent(id)].meta.visited > gpu[id].meta.visited
  {
  }

  lemma NotAfterAt(gpu: GpuStore, last: Msecs, id: TileId)
    requires NotAfter(gpu, last) && ZoomsBelow(gpu, 100) && id in gpu
    ensures gpu[id].meta.visited <= Stamp(last, id.zoom) && id.zoom < 100
  {
  }

  ghost predicate ParentHigher(m: GpuStore, id: TileId) {
    id in m && Parent(id) in m && m[Parent(id)].meta.visited > m[id].meta.visited
  }

  lemma BothRestamped(mid: GpuStore, seen: set<TileId>, now: Msecs, id: TileId)
    requires id in mid && Parent(id) in mid && id in seen && Parent(id) in seen && 0 < id.zoom < 100
    ensures ParentHigher(Marked(mid, seen, now), id)
  {
    StampOrder(now, id.zoom, now, id.zoom - 1);
  }

  lemma ParentRestamped(mid: GpuStore, seen: set<TileId>, last: Msecs, now: Msecs, id: TileId)
    requires id in mid && Parent(id) in mid && id !in seen && Parent(id) in seen && 0 < id.zoom < 100
    requires mid[id].meta.visited <= Stamp(last, id.zoom) && last <= now
    ensures ParentHigher(Marked(mid, seen, now), id)
  {
    StampOrder(last, id.zoom, now, id.zoom - 1);
  }

  lemma NeitherRestamped(mid: GpuStore, seen: set<TileId>, now: Msecs, id: TileId)
    requires ParentHigher(mid, id) && id !in seen && Parent(id) !in seen
    ensures ParentHigher(Marked(mid, seen, now), id)
  {
  }

  lemma RestampedOrder(gpu: GpuStore, selected: set<TileId>, refine: Refine, last: Msecs, now: Msecs, mid: GpuStore,
                       id: TileId)
    requires GpuInv(gpu, last) && last <= now && Selection(selected, refine) && StopsAt(refine, 100)
    requires Extends(mid, gpu, selected) && id in mid && id.zoom > 0
    ensures ParentHigher(Marked(mid, Refinable(mid, refine), now), id)
  {
    var seen := Refinable(mid, refine);
    ExtendedParent(gpu, selected, refine, last, mid, id);
    if id in seen {
      VisitedMember(mid, ByRefine(refine), id);
      BothRestamped(mid, seen, now, id);
    } else {
      NotAfterAt(gpu, last, id);
      if Parent(id) in seen {
        ParentRestamped(mid, seen, last, now, id);
      } else {
        TreeOrder(gpu, id);
        NeitherRestamped(mid, seen, now, id);
      }
    }
  }

  /** Restamping the refinable part of an extended stamped tree makes it a stamped tree again. */
  lemma RestampedTree(gpu: GpuStore, selected: set<TileId>, refine: Refine, last: Msecs, now: Msecs, mid: GpuStore)
    requires GpuInv(gpu, last) && last <= now && Selection(selected, refine) && StopsAt(refine, 100)
    requires Extends(mid, gpu, selected)
    ensures StampedTree(Marked(mid, Refinable(mid, refine), now))
  {
    var marked := Marked(mid, Refinable(mid, refine), now);
    forall id | id in marked
      ensures if id.zoom == 0 then id == ROOT
              else Parent(id) in marked && marked[Parent(id)].meta.visited > marked[id].meta.visited
    {
      if id.zoom > 0 {
        RestampedOrder(gpu, selected, refine, last, now, mid, id);
      } else {
        ExtendedRoot(gpu, selected, refine, mid, id);
      }
    }
  }

  /** Keeping the highest stamps of a stamped tree never orphans a tile. */
  lemma PurgedTree(m: GpuStore, limit: nat, kept: GpuStore)
    requires StampedTree(m) && IsPurge(m, limit, kept)
    ensures StampedTree(kept)
  {
    forall id | id in kept
      ensures if id.zoom == 0 then id == ROOT
              else Parent(id) in kept && kept[Parent(id)].meta.visited > kept[id].meta.visited
    {
      assert id.zoom > 0 ==> m[Parent(id)].meta.visited > m[id].meta.visited;
    }
  }

  lemma RestampedBounds(gpu: GpuStore, selected: set<TileId>, refine: Refine, last: Msecs, now: Msecs, mid: GpuStore)
    requires GpuInv(gpu, last) && last <= now && Selection(selected, refine) && StopsAt(refine, 100)
    requires Extends(mid, gpu, selected)
    ensures var marked := Marked(mid, Refinable(mid, refine), now);
            ZoomsBelow(marked, 100) && NotAfter(marked, now) && WellKeyed(marked)
  {
    var seen := Refinable(mid, refine);
    var marked := Marked(mid, seen, now);
    forall id | id in marked
      ensures id.zoom < 100 && marked[id].meta.visited <= Stamp(now, id.zoom)
    {
      if id in selected {
        SelectedRefinable(mid, selected, refine, id);
      } else if id !in seen {
        StampOrder(last, id.zoom, now, id.zoom);
        StampOrder(now, id.zoom, last, id.zoom);
      }
    }
  }

  /** Every update keeps the GPU cache closed under parents, with the parents stamped higher, and within the limit. */
  lemma UpdateKeepsInv(gpu: GpuStore, selected: set<TileId>, refine: Refine, limit: nat, last: Msecs, now: Msecs,
                       mid: GpuStore, gpu': GpuStore)
    requires GpuInv(gpu, last) && last <= now && Selection(selected, refine) && StopsAt(refine, 100)
    requires GpuUpdate(gpu, selected, refine, limit, now, mid, gpu')
    ensures GpuInv(gpu', now) && ParentClosed(gpu'.Keys) && |gpu'| <= limit
  {
    var marked := Marked(mid, Refinable(mid, refine), now);
    RestampedTree(gpu, selected, refine, last, now, mid);
    RestampedBounds(gpu, selected, refine, last, now, mid);
    PurgedTree(marked, limit, gpu');
    StampedTreeClosed(gpu');
  }

  /** The root, once resident, is never evicted while at least one quad is allowed. */
  lemma RootStays(gpu: GpuStore, selected: set<TileId>, refine: Refine, limit: nat, last: Msecs, now: Msecs,
                  mid: GpuStore, gpu': GpuStore)
    requires GpuInv(gpu, last) && last <= now && Selection(selected, refine) && StopsAt(refine, 100)
    requires GpuUpdate(gpu, selected, refine, limit, now, mid, gpu')
    requires limit >= 1 && (ROOT in gpu || ROOT in selected)
    ensures ROOT in gpu'
  {
    UpdateKeepsInv(gpu, selected, refine, limit, last, now, mid, gpu');
    assert ROOT in Marked(mid, Refinable(mid, refine), now);
    assert |gpu'| >= 1;
    var id :| id in gpu';
    ClosedHasRoot(gpu'.Keys, id);
  }

  lemma {:induction false} ClosedHasRoot(s: set<TileId>, id: TileId)
    requires ParentClosed(s) && id in s
    ensures ROOT in s
    decreases id.zoom
  {
    var parent := Parent(id);
    if id.zoom > 0 {
      ClosedHasRoot(s, parent);
    }
  }

  // ---- convergence ----------------------------------------------------------------------------

  /** If the refinable part fits the limit, an update at an advanced time keeps all of it: every selected
      tile is resident afterwards. */
  lemma FittingUpdateComplete(gpu: GpuStore, selected: set<TileId>, refine: Refine, limit: nat, last: Msecs, now: Msecs,
                              mid: GpuStore, gpu': GpuStore)
    requires GpuInv(gpu, last) && last < now && Selection(selected, refine) && StopsAt(refine, 100)
    requires GpuUpdate(gpu, selected, refine, limit, now, mid, gpu')
    requires |Refinable(mid, refine)| <= limit
    ensures Refinable(mid, refine) <= gpu'.Keys && selected <= gpu'.Keys
  {
    var seen := Refinable(mid, refine);
    forall id | id in selected
      ensures id in seen
    {
      SelectedRefinable(mid, selected, refine, id);
    }
    OnlySelectedAreNew(gpu, selected, refine, last, mid);
    VisitedSurvive(mid, seen, last, now, limit, gpu');
  }

  lemma OnlySelectedAreNew(gpu: GpuStore, selected: set<TileId>, refine: Refine, last: Msecs, mid: GpuStore)
    requires GpuInv(gpu, last) && Selection(selected, refine) && StopsAt(refine, 100)
    requires Extends(mid, gpu, selected)
    ensures OlderOutside(mid, Refinable(mid, refine), last)
  {
    forall id | id in mid && id !in Refinable(mid, refine)
      ensures mid[id].meta.visited <= Stamp(last, id.zoom)
    {
      if id in selected {
        SelectedRefinable(mid, selected, refine, id);
      }
    }
    forall id | id in mid
      ensures id.zoom < 100
    {
      assert id in selected ==> refine(id);
    }
  }

  /** Then, with the same camera and selection, the next update changes nothing. */
  lemma Converged(gpu: GpuStore, selected: set<TileId>, refine: Refine, limit: nat, last: Msecs,
                  now1: Msecs, mid1: GpuStore, gpu1: GpuStore, now2: Msecs, mid2: GpuStore, gpu2: GpuStore)
    requires GpuInv(gpu, last) && last < now1 && Selection(selected, refine) && StopsAt(refine, 100)
    requires GpuUpdate(gpu, selected, refine, limit, now1, mid1, gpu1)
    requires |Refinable(mid1, refine)| <= limit
    requires now1 <= now2 && GpuUpdate(gpu1, selected, refine, limit, now2, mid2, gpu2)
    ensures gpu2.Keys == gpu1.Keys
  {
    FittingUpdateComplete(gpu, selected, refine, limit, last, now1, mid1, gpu1);
    UpdateKeepsInv(gpu, selected, refine, limit, last, now1, mid1, gpu1);
    NothingToInsert(gpu1, selected, refine, limit, now2, mid2, gpu2);
  }

  lemma NothingToInsert(gpu: GpuStore, selected: set<TileId>, refine: Refine, limit: nat, now: Msecs,
                        mid: GpuStore, gpu': GpuStore)
    requires selected <= gpu.Keys && |gpu| <= limit
    requires GpuUpdate(gpu, selected, refine, limit, now, mid, gpu')
    ensures gpu'.Keys == gpu.Keys
  {
    var marked := Marked(mid, Refinable(mid, refine), now);
    assert marked.Keys == gpu.Keys;
    assert |marked| == |marked.Keys| == |gpu.Keys| == |gpu|;
  }
}
