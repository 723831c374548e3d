/** From the scheduler's quads to the tiles that cross to the render thread, and the two ends connected
    (nucleus/tile/GeometryScheduler.cpp, nucleus/tile/TextureScheduler.cpp, app/RenderingContext.cpp). */
module Emission {
  import opened Seqs
  import opened Tiles
  import opened Traversal
  import opened Entries
  import opened Quads
  import opened Residency
  import opened Streaming
  import opened GpuArray
  import opened Schedulers

  /** The tiles of the quads in order. */
  ghost function AllTiles(quads: seq<DataQuad>): seq<TileId> {
    if quads == [] then [] else AllTiles(quads[..|quads| - 1]) + TileIds(quads[|quads| - 1])
  }

  ghost function AllChildren(ids: seq<TileId>): seq<TileId> {
    if ids == [] then [] else AllChildren(ids[..|ids| - 1]) + Children(ids[|ids| - 1])
  }

  /** Distinct complete quads contribute each of their children once. */
  lemma {:induction false} AllTilesExact(quads: seq<DataQuad>)
    requires NoDup(Ids(quads)) && forall q :: q in quads ==> Complete(q)
    ensures NoDup(AllTiles(quads)) && Elems(AllTiles(quads)) == ChildrenOf(Elems(Ids(quads)))
    decreases |quads|
  {
    if quads == [] {
      assert Ids(quads) == [];
    } else {
      var front, q := quads[..|quads| - 1], quads[|quads| - 1];
      assert Ids(quads) == Ids(front) + [q.id];
      assert q in quads && Complete(q);
      forall p | p in front
        ensures Complete(p)
      {
        assert p in quads;
      }
      SplitLast(Ids(front), q.id);
      AllTilesExact(front);
      AppendChildren(AllTiles(front), Elems(Ids(front)), TileIds(q), q.id);
    }
  }

  lemma {:induction false} AllChildrenExact(ids: seq<TileId>)
    requires NoDup(ids)
    ensures NoDup(AllChildren(ids)) && Elems(AllChildren(ids)) == ChildrenOf(Elems(ids))
    decreases |ids|
  {
    if ids != [] {
      var front, id := ids[..|ids| - 1], ids[|ids| - 1];
      assert ids == front + [id];
      SplitLast(front, id);
      AllChildrenExact(front);
      ChildrenCharacterised(id, id);
      AppendChildren(AllChildren(front), Elems(front), Children(id), id);
    }
  }

  /** Four tiles per quad, in order. */
  lemma {:induction false} AllTilesAt(quads: seq<DataQuad>, i: nat, k: nat)
    requires i < |quads| && k < 4
    ensures |AllTiles(quads)| == 4 * |quads| && AllTiles(quads)[4 * i + k] == quads[i].body.tiles[k].id
    decreases |quads|
  {
    var front := quads[..|quads| - 1];
    AllTilesLength(front);
    if i < |front| {
      AllTilesAt(front, i, k);
    }
  }

  lemma {:induction false} AllTilesLength(quads: seq<DataQuad>)
    ensures |AllTiles(quads)| == 4 * |quads|
    decreases |quads|
  {
    if quads != [] {
      AllTilesLength(quads[..|quads| - 1]);
    }
  }

  lemma {:induction false} AllChildrenAt(ids: seq<TileId>, i: nat, k: nat)
    requires i < |ids| && k < 4
    ensures |AllChildren(ids)| == 4 * |ids| && AllChildren(ids)[4 * i + k] == Child(ids[i], k)
    decreases |ids|
  {
    var front := ids[..|ids| - 1];
    AllChildrenLength(front);
    if i < |front| {
      AllChildrenAt(front, i, k);
    }
  }

  lemma {:induction false} AllChildrenLength(ids: seq<TileId>)
    ensures |AllChildren(ids)| == 4 * |ids|
    decreases |ids|
  {
    if ids != [] {
      AllChildrenLength(ids[..|ids| - 1]);
    }
  }

  lemma SplitLast(front: seq<TileId>, id: TileId)
    requires NoDup(front + [id])
    ensures NoDup(front) && id !in Elems(front) && Elems(front + [id]) == Elems(front) + {id}
  {
    NoDupSplit(front + [id], |front|);
    assert (front + [id])[..|front|] == front && (front + [id])[|front|..] == [id];
    ElemsOne(id);
    assert id in Elems([id]);
  }

  lemma AppendChildren(tiles: seq<TileId>, quads: set<TileId>, more: seq<TileId>, id: TileId)
    requires NoDup(tiles) && Elems(tiles) == ChildrenOf(quads) && id !in quads
    requires NoDup(more) && Elems(more) == Elems(Children(id))
    ensures NoDup(tiles + more) && Elems(tiles + more) == ChildrenOf(quads + {id})
  {
    ChildrenOfUnion(quads, {id});
    ChildrenOfOne(id);
    NoDupConcat(tiles, more);
  }

  /** Geometry and labels: the tiles of new quads, and the children of deleted ones. */
  method TransformPerTile(newQuads: seq<DataQuad>, deletedQuads: seq<TileId>) returns (delta: Delta)
    ensures delta == Delta(AllChildren(deletedQuads), AllTiles(newQuads))
  {
    var newTiles: seq<TileId> := [];
    for i := 0 to |newQuads|
      invariant newTiles == AllTiles(newQuads[..i])
    {
      assert newQuads[..i + 1][..i] == newQuads[..i];
      ghost var sofar := newTiles;
      for k := 0 to 4
        invariant newTiles == sofar + TileIds(newQuads[i])[..k]
      {
        assert TileIds(newQuads[i])[..k + 1] == TileIds(newQuads[i])[..k] + [newQuads[i].body.tiles[k].id];
        newTiles := newTiles + [newQuads[i].body.tiles[k].id];
      }
      assert TileIds(newQuads[i])[..4] == TileIds(newQuads[i]);
    }
    assert newQuads[..|newQuads|] == newQuads;
    var deletedTiles: seq<TileId> := [];
    for i := 0 to |deletedQuads|
      invariant deletedTiles == AllChildren(deletedQuads[..i])
    {
      assert deletedQuads[..i + 1][..i] == deletedQuads[..i];
      deletedTiles := deletedTiles + Children(deletedQuads[i]);
    }
    assert deletedQuads[..|deletedQuads|] == deletedQuads;
    delta := Delta(deletedTiles, newTiles);
  }

  /** Textures: the four tiles are merged, so quads become tiles of the same id. */
  method TransformPerQuad(newQuads: seq<DataQuad>, deletedQuads: seq<TileId>) returns (delta: Delta)
    ensures delta == Delta(deletedQuads, Ids(newQuads))
  {
    var newTiles: seq<TileId> := [];
    for i := 0 to |newQuads|
      invariant newTiles == Ids(newQuads)[..i]
    {
      newTiles := newTiles + [newQuads[i].id];
    }
    assert Ids(newQuads)[..|newQuads|] == Ids(newQuads);
    delta := Delta(deletedQuads, newTiles);
  }

  method TransformAndEmit(kind: Kind, newQuads: seq<DataQuad>, deletedQuads: seq<TileId>,
                          ghost before: set<TileId>, ghost after: set<TileId>) returns (delta: Delta)
    requires NoDup(Ids(newQuads)) && Elems(Ids(newQuads)) == after - before
    requires NoDup(deletedQuads) && Elems(deletedQuads) == before - after
    requires forall q :: q in newQuads ==> Complete(q)
    ensures Describes(kind, before, after, delta)
  {
    match kind
    case PerTile =>
      AllTilesExact(newQuads);
      AllChildrenExact(deletedQuads);
      delta := TransformPerTile(newQuads, deletedQuads);
    case PerQuad =>
      delta := TransformPerQuad(newQuads, deletedQuads);
  }

  lemma MarkedComplete(m: RamStore, seen: set<TileId>, at: Msecs, added: seq<DataQuad>, ids: set<TileId>)
    requires AllComplete(m) && QuadsFrom(m, added, ids)
    ensures AllComplete(Marked(m, seen, at)) && forall q :: q in added ==> Complete(q)
  {
  }

  /** What an update of the scheduler does to the world. */
  lemma UpdateIsNext(kind: Kind, maxLimit: nat, w: World, e: Event, w': World)
    requires Inv(kind, maxLimit, w) && e.Update? && e.limit <= maxLimit && w.last <= e.now
    requires StopsAt(e.refine, 100) && Selection(e.selected, e.refine)
    requires GpuUpdate(w.gpu, e.selected, e.refine, e.limit, e.now, e.mid, w'.gpu)
    requires Describes(kind, w.gpu.Keys, w'.gpu.Keys, e.delta)
    requires w' == w.(gpu := w'.gpu, last := e.now, history := w.history + [w'.gpu.Keys],
                      channel := w.channel + [e.delta])
    ensures Next(kind, maxLimit, w, e, w') && Inv(kind, maxLimit, w')
  {
    StepInv(kind, maxLimit, w, e, w');
  }

  /** A scheduler, the queued connection from it, and the consumer on the render thread. */
  class Connection {
    const kind: Kind
    const scheduler: Scheduler
    const consumer: DeltaConsumer
    const maxLimit: nat
    var channel: seq<Delta>
    ghost var history: seq<set<TileId>>
    ghost var last: Msecs

    ghost function View(): World
      reads this, scheduler, scheduler.gpu, consumer, consumer.helper
    {
      World(scheduler.gpu.data, last, history, channel, consumer.helper.View(), consumer.image)
    }

    ghost predicate Valid()
      reads this, scheduler, scheduler.ram, scheduler.gpu, scheduler.clock, consumer, consumer.helper
    {
      && scheduler.Valid() && AllComplete(scheduler.ram.data)
      && last <= scheduler.clock.now && scheduler.maxZoomLevel <= 100 && scheduler.gpuQuadLimit <= maxLimit
      && Inv(kind, maxLimit, View())
    }

    constructor (kind: Kind, scheduler: Scheduler, tileLimit: nat, maxLimit: nat)
      requires scheduler.Valid() && scheduler.gpu.data == map[] && AllComplete(scheduler.ram.data)
      requires scheduler.maxZoomLevel <= 100 && scheduler.gpuQuadLimit <= maxLimit
      requires TileCount(kind, maxLimit) <= tileLimit <= 0x1_0000
      ensures Valid() && fresh(this) && Start(View(), tileLimit)
    {
      this.kind, this.scheduler, this.maxLimit := kind, scheduler, maxLimit;
      var c := new DeltaConsumer(tileLimit);
      consumer := c;
      channel, history, last := [], [{}], scheduler.clock.now;
      new;
      StartInv(kind, maxLimit, View(), tileLimit);
    }

    /** A quad assembled from the network reaches the RAM cache. */
    method ReceiveQuad(newQuad: DataQuad)
      requires Valid() && Complete(newQuad)
      modifies scheduler.ram`data, scheduler.clock
      ensures Valid() && View() == old(View())
    {
      scheduler.ReceiveQuad(newQuad);
    }

    method UpdateCamera(refine: Refine)
      requires Valid() && StopsAt(refine, scheduler.maxZoomLevel)
      modifies scheduler`shouldRefine
      ensures Valid() && View() == old(View())
    {
      scheduler.UpdateCamera(refine);
    }

    /** Any limit that the consumer's array was made for. */
    method SetGpuQuadLimit(newLimit: nat)
      requires Valid() && newLimit <= maxLimit
      modifies scheduler`gpuQuadLimit
      ensures Valid() && View() == old(View()) && scheduler.gpuQuadLimit == newLimit
    {
      scheduler.SetGpuQuadLimit(newLimit);
    }

    method PurgeRamCache()
      requires Valid()
      modifies scheduler.ram`data, scheduler.clock
      ensures Valid() && View() == old(View())
    {
      ghost var before := scheduler.ram.data;
      scheduler.PurgeRamCache();
      forall id | id in scheduler.ram.data
        ensures Complete(scheduler.ram.data[id].data)
      {
        assert id in before && scheduler.ram.data[id].data == before[id].data;
      }
    }

    /** The update timer fires: the scheduler updates its GPU quads and queues the delta. */
    method Update(isReady: DataQuad -> bool) returns (ghost e: Event)
      requires Valid()
      modifies this, scheduler.ram`data, scheduler.gpu`data, scheduler.clock
      ensures Valid()
      ensures e.Update? && Next(kind, maxLimit, old(View()), e, View())
    {
      ghost var before, quads := View(), scheduler.ram.data;
      ghost var refine := scheduler.shouldRefine;
      ghost var selected := SelectedQuads(quads, refine, isReady);
      SelectedIsSelection(quads, refine, isReady);
      var added, deleted, mid, at := scheduler.UpdateGpuQuads(isReady);
      MarkedComplete(quads, selected, at, added, scheduler.gpu.data.Keys - before.gpu.Keys);
      var delta := TransformAndEmit(kind, added, deleted, before.gpu.Keys, scheduler.gpu.data.Keys);
      channel := channel + [delta];
      history := history + [scheduler.gpu.data.Keys];
      last := scheduler.clock.now;
      e := Event.Update(selected, refine, scheduler.gpuQuadLimit, last, mid, delta);
      UpdateIsNext(kind, maxLimit, before, e, View());
    }

    /** The render thread handles the oldest queued delta. */
    method HandleDelta()
      requires Valid() && channel != []
      modifies this, consumer, consumer.helper
      ensures Valid() && Next(kind, maxLimit, old(View()), Deliver, View())
      ensures CleanReplay(old(consumer.helper.View()), old(channel)[0].deleted, old(channel)[0].added)
    {
      ghost var before := View();
      DeliverClean(kind, maxLimit, before);
      var delta := channel[0];
      channel := channel[1..];
      consumer.UpdateGpuTiles(delta.deleted, delta.added);
      StepInv(kind, maxLimit, before, Deliver, View());
    }
  }
}
