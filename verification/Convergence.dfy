/** Exactly when the GPU cache settles: two updates of the same camera and selection, also when not everything fits
    (nucleus/tile/Scheduler.cpp, update_gpu_quads; nucleus/tile/Cache.h, purge). */
module Convergence {
  import opened Seqs
  import opened Tiles
  import opened Entries
  import opened Traversal
  import opened Residency

  /** No selected tile was dropped at, or above, the zoom level of a kept tile. */
  ghost predicate CutsBetweenLevels(selected: set<TileId>, kept: set<TileId>) {
    forall k, d :: k in kept && d in selected && d !in kept ==> k.zoom < d.zoom
  }

  /** Whatever the purge chooses among equal stamps, an update at this time keeps the resident set. */
  ghost predicate Stable(gpu: GpuStore, selected: set<TileId>, refine: Refine, limit: nat, now: Msecs) {
    forall mid, gpu' :: GpuUpdate(gpu, selected, refine, limit, now, mid, gpu') ==> gpu'.Keys == gpu.Keys
  }

  /** A first update, at a later time than everything before. */
  ghost predicate FirstUpdate(gpu: GpuStore, selected: set<TileId>, refine: Refine, limit: nat, last: Msecs,
                              now: Msecs, mid: GpuStore, gpu': GpuStore) {
    && GpuInv(gpu, last) && last < now && Selection(selected, refine) && StopsAt(refine, 100)
    && GpuUpdate(gpu, selected, refine, limit, now, mid, gpu')
  }

  // ---- what the first update leaves when not everything fits -----------------------------------

  /** The cache is full of refinable tiles, and what was dropped is at least as fine as what was kept. */
  ghost predicate Overfull(selected: set<TileId>, seen: set<TileId>, limit: nat, kept: set<TileId>) {
    && kept <= seen && selected <= seen && |kept| == limit
    && forall k, d :: k in kept && d in seen && d !in kept ==> k.zoom <= d.zoom
  }

  lemma FirstOverfull(gpu: GpuStore, selected: set<TileId>, refine: Refine, limit: nat, last: Msecs,
                      now: Msecs, mid: GpuStore, gpu': GpuStore)
    requires FirstUpdate(gpu, selected, refine, limit, last, now, mid, gpu')
    requires |Refinable(mid, refine)| > limit
    ensures Overfull(selected, Refinable(mid, refine), limit, gpu'.Keys)
  {
    var seen := Refinable(mid, refine);
    OnlySelectedAreNew(gpu, selected, refine, last, mid);
    SubsetSize(seen, mid.Keys);
    assert |mid.Keys| == |mid|;
    OnlyVisitedSurvive(mid, seen, last, now, limit, gpu');
    forall id | id in selected
      ensures id in seen
    {
      SelectedRefinable(mid, selected, refine, id);
    }
    forall k, d | k in gpu' && d in seen && d !in gpu'
      ensures k.zoom <= d.zoom
    {
      CoarserSurvive(mid, seen, now, limit, gpu', k, d);
    }
    PurgeFills(mid, seen, now, limit, gpu');
  }

  lemma PurgeFills(m: GpuStore, seen: set<TileId>, now: Msecs, limit: nat, kept: GpuStore)
    requires IsPurge(Marked(m, seen, now), limit, kept) && |m| > limit
    ensures |kept.Keys| == limit
  {
    var marked := Marked(m, seen, now);
    assert marked.Keys == m.Keys;
    assert |marked| == |marked.Keys| == |m.Keys| == |m|;
    assert |kept.Keys| == |kept|;
  }

  // ---- what a second update sees ----------------------------------------------------------------

  /** Everything resident or selected is refinable, so the second update restamps all of it. */
  lemma AllRestamped(gpu: GpuStore, selected: set<TileId>, refine: Refine, mid: GpuStore)
    requires ParentClosed(gpu.Keys) && (forall id :: id in gpu ==> refine(id)) && Selection(selected, refine)
    requires Extends(mid, gpu, selected)
    ensures Refinable(mid, refine) == mid.Keys
  {
    var all := gpu.Keys + selected;
    forall id | id in all
      ensures if id.zoom == 0 then id == ROOT else Parent(id) in all
    {
      var above := Parent(id);
    }
    forall id | id in mid
      ensures id in Refinable(mid, refine)
    {
      SelectedRefinable(mid, all, refine, id);
    }
  }

  /** All stamps are those of the second update: they order the tiles by zoom level. */
  lemma StampedAtOnce(mid: GpuStore, refine: Refine, now: Msecs, a: TileId, b: TileId)
    requires Refinable(mid, refine) == mid.Keys && ZoomsBelow(mid, 100) && a in mid && b in mid
    ensures var marked := Marked(mid, Refinable(mid, refine), now);
      marked[a].meta.visited >= marked[b].meta.visited <==> a.zoom <= b.zoom
  {
    StampOrder(now, a.zoom, now, b.zoom);
    StampOrder(now, b.zoom, now, a.zoom);
  }

  lemma SecondZooms(gpu: GpuStore, selected: set<TileId>, refine: Refine, last: Msecs, mid: GpuStore)
    requires GpuInv(gpu, last) && Selection(selected, refine) && StopsAt(refine, 100) && Extends(mid, gpu, selected)
    ensures ZoomsBelow(mid, 100)
  {
    forall id | id in mid
      ensures id.zoom < 100
    {
      assert id in gpu || refine(id);
    }
  }

  /** With a cut between levels, the second update keeps what the first one kept. */
  lemma CutKept(gpu: GpuStore, selected: set<TileId>, refine: Refine, limit: nat, now: Msecs,
                mid: GpuStore, gpu': GpuStore)
    requires Extends(mid, gpu, selected) && Refinable(mid, refine) == mid.Keys && ZoomsBelow(mid, 100)
    requires IsPurge(Marked(mid, Refinable(mid, refine), now), limit, gpu')
    requires |gpu.Keys| == limit < |mid| && CutsBetweenLevels(selected, gpu.Keys)
    ensures gpu'.Keys == gpu.Keys
  {
    PurgeFills(mid, Refinable(mid, refine), now, limit, gpu');
    if !(gpu'.Keys <= gpu.Keys) {
      var x :| x in gpu' && x !in gpu;
      if gpu.Keys <= gpu'.Keys {
        SubsetSize(gpu.Keys, gpu'.Keys);
      }
      var y :| y in gpu && y !in gpu';
      assert x in mid && y in mid && x in selected;
      StampedAtOnce(mid, refine, now, x, y);
    }
    SubsetSize(gpu'.Keys, gpu.Keys);
  }

  /** The update that keeps `d` in place of `k`. */
  ghost function Swapped(marked: GpuStore, kept: set<TileId>, k: TileId, d: TileId): GpuStore {
    map id | id in marked && id in kept - {k} + {d} :: marked[id]
  }

  lemma SwapSize(marked: GpuStore, kept: set<TileId>, k: TileId, d: TileId)
    requires kept + {d} <= marked.Keys && k in kept && d !in kept
    ensures Swapped(marked, kept, k, d).Keys == kept - {k} + {d}
    ensures |Swapped(marked, kept, k, d)| == |kept| < |marked|
  {
    var swapped := Swapped(marked, kept, k, d);
    assert swapped.Keys == kept - {k} + {d};
    assert |swapped| == |swapped.Keys|;
    SubsetSize(kept + {d}, marked.Keys);
    assert |marked| == |marked.Keys|;
  }

  lemma SwapStamps(gpu: GpuStore, selected: set<TileId>, refine: Refine, now: Msecs, mid: GpuStore,
                   k: TileId, d: TileId, a: TileId, b: TileId)
    requires Extends(mid, gpu, selected) && Refinable(mid, refine) == mid.Keys && ZoomsBelow(mid, 100)
    requires k in gpu && d in selected && d !in gpu && k.zoom == d.zoom
    requires forall x, y :: x in gpu && y in selected && y !in gpu ==> x.zoom <= y.zoom
    requires a in gpu.Keys - {k} + {d} && b in mid && b !in gpu.Keys - {k} + {d}
    ensures var marked := Marked(mid, Refinable(mid, refine), now);
      marked[a].meta.visited >= marked[b].meta.visited
  {
    assert a.zoom <= d.zoom && k.zoom <= b.zoom;
    StampedAtOnce(mid, refine, now, a, b);
  }

  lemma SwapIsPurge(gpu: GpuStore, selected: set<TileId>, refine: Refine, limit: nat, now: Msecs, mid: GpuStore,
                    k: TileId, d: TileId)
    requires Extends(mid, gpu, selected) && Refinable(mid, refine) == mid.Keys && ZoomsBelow(mid, 100)
    requires |gpu.Keys| == limit && k in gpu && d in selected && d !in gpu && k.zoom == d.zoom
    requires forall x, y :: x in gpu && y in selected && y !in gpu ==> x.zoom <= y.zoom
    ensures var marked := Marked(mid, Refinable(mid, refine), now);
      var gpu' := Swapped(marked, gpu.Keys, k, d);
      IsPurge(marked, limit, gpu') && gpu'.Keys == gpu.Keys - {k} + {d}
  {
    var marked := Marked(mid, Refinable(mid, refine), now);
    var gpu' := Swapped(marked, gpu.Keys, k, d);
    SwapSize(marked, gpu.Keys, k, d);
    forall a, b | a in gpu' && b in marked && b !in gpu'
      ensures marked[a].meta.visited >= marked[b].meta.visited
    {
      SwapStamps(gpu, selected, refine, now, mid, k, d, a, b);
    }
  }

  /** A store in which the missing selected tiles were just inserted. */
  ghost function WithSelected(gpu: GpuStore, selected: set<TileId>): (mid: GpuStore)
    requires WellKeyed(gpu)
    ensures Extends(mid, gpu, selected)
  {
    map id | id in gpu.Keys + selected :: if id in gpu then gpu[id] else CacheObject(MetaData(0, 0), Named(id, ()))
  }

  lemma SplitChanges(gpu: GpuStore, selected: set<TileId>, refine: Refine, limit: nat, last: Msecs, now: Msecs,
                     k: TileId, d: TileId)
    requires GpuInv(gpu, last) && Selection(selected, refine) && StopsAt(refine, 100)
    requires ParentClosed(gpu.Keys) && forall id :: id in gpu ==> refine(id)
    requires |gpu.Keys| == limit && k in gpu && d in selected && d !in gpu && k.zoom == d.zoom
    requires forall a, b :: a in gpu && b in selected && b !in gpu ==> a.zoom <= b.zoom
    ensures !Stable(gpu, selected, refine, limit, now)
  {
    var mid := WithSelected(gpu, selected);
    AllRestamped(gpu, selected, refine, mid);
    SecondZooms(gpu, selected, refine, last, mid);
    SwapIsPurge(gpu, selected, refine, limit, now, mid, k, d);
    var gpu' := Swapped(Marked(mid, Refinable(mid, refine), now), gpu.Keys, k, d);
    assert GpuUpdate(gpu, selected, refine, limit, now, mid, gpu') && d in gpu'.Keys;
  }

  lemma CutStable(gpu: GpuStore, selected: set<TileId>, refine: Refine, limit: nat, last: Msecs, now: Msecs)
    requires GpuInv(gpu, last) && Selection(selected, refine) && StopsAt(refine, 100)
    requires ParentClosed(gpu.Keys) && forall id :: id in gpu ==> refine(id)
    requires |gpu.Keys| == limit && CutsBetweenLevels(selected, gpu.Keys) && !(selected <= gpu.Keys)
    ensures Stable(gpu, selected, refine, limit, now)
  {
    forall mid, gpu' | GpuUpdate(gpu, selected, refine, limit, now, mid, gpu')
      ensures gpu'.Keys == gpu.Keys
    {
      AllRestamped(gpu, selected, refine, mid);
      SecondZooms(gpu, selected, refine, last, mid);
      SubsetSize(gpu.Keys, mid.Keys);
      assert |mid.Keys| == |mid|;
      CutKept(gpu, selected, refine, limit, now, mid, gpu');
    }
  }

  lemma FittingStable(gpu: GpuStore, selected: set<TileId>, refine: Refine, limit: nat, now: Msecs)
    requires selected <= gpu.Keys && |gpu| <= limit
    ensures Stable(gpu, selected, refine, limit, now)
  {
    forall mid, gpu' | GpuUpdate(gpu, selected, refine, limit, now, mid, gpu')
      ensures gpu'.Keys == gpu.Keys
    {
      NothingToInsert(gpu, selected, refine, limit, now, mid, gpu');
    }
  }

  /** After a first update, every further one with the same camera and selection keeps the resident set if and only
      if the first one dropped no selected tile of the zoom level of a kept tile. */
  lemma StableExactly(gpu: GpuStore, selected: set<TileId>, refine: Refine, limit: nat, last: Msecs,
                      now1: Msecs, mid: GpuStore, gpu1: GpuStore, now2: Msecs)
    requires FirstUpdate(gpu, selected, refine, limit, last, now1, mid, gpu1)
    ensures Stable(gpu1, selected, refine, limit, now2) <==> CutsBetweenLevels(selected, gpu1.Keys)
  {
    UpdateKeepsInv(gpu, selected, refine, limit, last, now1, mid, gpu1);
    if selected <= gpu1.Keys {
      FittingStable(gpu1, selected, refine, limit, now2);
    } else {
      NotFitting(gpu, selected, refine, limit, last, now1, mid, gpu1);
      if CutsBetweenLevels(selected, gpu1.Keys) {
        CutStable(gpu1, selected, refine, limit, now1, now2);
      } else {
        var k, d :| k in gpu1 && d in selected && d !in gpu1 && !(k.zoom < d.zoom);
        SplitChanges(gpu1, selected, refine, limit, now1, now2, k, d);
      }
    }
  }

  /** When a selected tile was dropped, the cache is full, of refined tiles, and nothing coarser was dropped. */
  lemma NotFitting(gpu: GpuStore, selected: set<TileId>, refine: Refine, limit: nat, last: Msecs,
                   now: Msecs, mid: GpuStore, gpu': GpuStore)
    requires FirstUpdate(gpu, selected, refine, limit, last, now, mid, gpu') && !(selected <= gpu'.Keys)
    ensures |gpu'.Keys| == limit && (forall id :: id in gpu' ==> refine(id))
    ensures forall a, b :: a in gpu' && b in selected && b !in gpu' ==> a.zoom <= b.zoom
  {
    var seen := Refinable(mid, refine);
    if |seen| <= limit {
      FittingUpdateComplete(gpu, selected, refine, limit, last, now, mid, gpu');
    }
    FirstOverfull(gpu, selected, refine, limit, last, now, mid, gpu');
    forall id | id in gpu'
      ensures refine(id)
    {
      VisitedMember(mid, ByRefine(refine), id);
    }
  }

  // ---- in terms of the limit --------------------------------------------------------------------

  ghost function UpTo(tiles: set<TileId>, z: int): set<TileId> {
    set id | id in tiles && id.zoom <= z
  }

  /** A limit that ends with a whole level of the refinable tiles cuts between levels. */
  lemma WholeLevelsCut(gpu: GpuStore, selected: set<TileId>, refine: Refine, limit: nat, last: Msecs,
                       now: Msecs, mid: GpuStore, gpu': GpuStore, z: int)
    requires FirstUpdate(gpu, selected, refine, limit, last, now, mid, gpu')
    requires |UpTo(Refinable(mid, refine), z)| == limit
    ensures CutsBetweenLevels(selected, gpu'.Keys)
  {
    var seen := Refinable(mid, refine);
    if |seen| <= limit {
      FittingUpdateComplete(gpu, selected, refine, limit, last, now, mid, gpu');
    } else {
      FirstOverfull(gpu, selected, refine, limit, last, now, mid, gpu');
      WholeLevelsKept(selected, seen, limit, gpu'.Keys, z);
    }
  }

  lemma WholeLevelsKept(selected: set<TileId>, seen: set<TileId>, limit: nat, kept: set<TileId>, z: int)
    requires Overfull(selected, seen, limit, kept) && |UpTo(seen, z)| == limit
    ensures kept == UpTo(seen, z) && CutsBetweenLevels(selected, kept)
  {
    var levels := UpTo(seen, z);
    if levels <= kept {
      SubsetSize(levels, kept);
    } else {
      var y :| y in levels && y !in kept;
      forall x | x in kept
        ensures x in levels
      {
        assert x.zoom <= y.zoom;
      }
      SubsetSize(kept, levels);
    }
  }

  /** A limit that splits a level whose refinable tiles are all selected does not: the next update may exchange some. */
  lemma SplitLevelNeverCuts(gpu: GpuStore, selected: set<TileId>, refine: Refine, limit: nat, last: Msecs,
                            now: Msecs, mid: GpuStore, gpu': GpuStore, z: int)
    requires FirstUpdate(gpu, selected, refine, limit, last, now, mid, gpu')
    requires |UpTo(Refinable(mid, refine), z - 1)| < limit < |UpTo(Refinable(mid, refine), z)|
    requires forall id :: id in Refinable(mid, refine) && id.zoom == z ==> id in selected
    ensures !CutsBetweenLevels(selected, gpu'.Keys)
  {
    var seen := Refinable(mid, refine);
    var kept := gpu'.Keys;
    SubsetSize(UpTo(seen, z), seen);
    FirstOverfull(gpu, selected, refine, limit, last, now, mid, gpu');
    if UpTo(seen, z) <= kept {
      SubsetSize(UpTo(seen, z), kept);
    }
    if kept <= UpTo(seen, z - 1) {
      SubsetSize(kept, UpTo(seen, z - 1));
    }
    var d :| d in UpTo(seen, z) && d !in kept;
    var k :| k in kept && k !in UpTo(seen, z - 1);
    assert k.zoom <= d.zoom;
  }
}
