/** The GPU residency protocol and its steps: the scheduler's updates, the FIFO of deltas crossing to the
    render thread, and the consumer that replays them into its texture array
    (nucleus/tile/Scheduler.cpp, gl_engine/TileGeometry.cpp, gl_engine/TextureLayer.cpp). */
module Streaming {
  import opened Seqs
  import opened Tiles
  import opened Entries
  import opened Quads
  import opened Traversal
  import opened Residency
  import opened GpuArray

  /** Texture layers hold one image per quad, geometry (and labels) one per tile of the quad. */
  datatype Kind = PerQuad | PerTile

  ghost function Image(kind: Kind, quads: set<TileId>): set<TileId> {
    match kind
    case PerQuad => quads
    case PerTile => ChildrenOf(quads)
  }

  /** How many tiles a number of quads has. */
  function TileCount(kind: Kind, quads: nat): nat {
    match kind
    case PerQuad => quads
    case PerTile => 4 * quads
  }

  datatype Delta = Delta(deleted: seq<TileId>, added: seq<TileId>)

  /** The delta lists, once each, the tiles of the quads that left and of the quads that came. */
  ghost predicate Describes(kind: Kind, before: set<TileId>, after: set<TileId>, d: Delta) {
    && NoDup(d.deleted) && Elems(d.deleted) == Image(kind, before - after)
    && NoDup(d.added) && Elems(d.added) == Image(kind, after - before)
  }

  /** `history` logs the set of GPU quads after every update, `channel` holds the deltas not replayed yet. */
  datatype World = World(gpu: GpuStore, last: Msecs, history: seq<set<TileId>>, channel: seq<Delta>,
                         layers: Allocation, image: map<nat, TileId>)

  datatype Event =
    | Update(selected: set<TileId>, refine: Refine, limit: nat, now: Msecs, mid: GpuStore, delta: Delta)
    | Deliver

  ghost predicate Start(w: World, size: nat) {
    && w.gpu == map[] && w.history == [{}] && w.channel == []
    && Partitioned(w.layers) && w.layers.layerOf == map[] && w.layers.size == size
  }

  ghost predicate Next(kind: Kind, maxLimit: nat, w: World, e: Event, w': World) {
    match e
    case Update(selected, refine, limit, now, mid, delta) =>
      && limit <= maxLimit && w.last <= now
      && StopsAt(refine, 100) && Selection(selected, refine)
      && GpuUpdate(w.gpu, selected, refine, limit, now, mid, w'.gpu)
      && Describes(kind, w.gpu.Keys, w'.gpu.Keys, delta)
      && w' == w.(gpu := w'.gpu, last := now, history := w.history + [w'.gpu.Keys], channel := w.channel + [delta])
    case Deliver =>
      && w.channel != []
      && var d := w.channel[0];
         w' == w.(channel := w.channel[1..], layers := Replay(w.layers, d.deleted, d.added),
                  image := Images(RemoveAll(w.layers, d.deleted), w.image, d.added))
  }

  /** How many updates have been replayed. */
  function Replayed(w: World): int {
    |w.history| - 1 - |w.channel|
  }

  ghost predicate LeadsOn(kind: Kind, history: seq<set<TileId>>, channel: seq<Delta>, i: nat)
    requires i < |channel| < |history|
  {
    var replayed := |history| - 1 - |channel|;
    Describes(kind, history[replayed + i], history[replayed + i + 1], channel[i])
  }

  /** Each pending delta leads from one logged set to the next; the last logged set is the current one. */
  ghost predicate ChannelInv(kind: Kind, history: seq<set<TileId>>, channel: seq<Delta>) {
    |channel| < |history| && forall i: nat :: i < |channel| ==> LeadsOn(kind, history, channel, i)
  }

  ghost predicate ConsumerInv(kind: Kind, w: World)
    requires 0 <= Replayed(w)
  {
    && Partitioned(w.layers) && ImagesMatch(w.layers.layerOf, w.image)
    && w.layers.layerOf.Keys == Image(kind, w.history[Replayed(w)])
  }

  ghost predicate HistoryInv(history: seq<set<TileId>>, maxLimit: nat) {
    forall i :: 0 <= i < |history| ==> |history[i]| <= maxLimit && ParentClosed(history[i])
  }

  /** The log, the pending deltas and the consumer fit together. */
  ghost predicate Linked(kind: Kind, maxLimit: nat, w: World) {
    && ChannelInv(kind, w.history, w.channel) && w.history[|w.history| - 1] == w.gpu.Keys
    && HistoryInv(w.history, maxLimit) && ConsumerInv(kind, w)
  }

  ghost predicate Inv(kind: Kind, maxLimit: nat, w: World) {
    GpuInv(w.gpu, w.last) && Linked(kind, maxLimit, w) && TileCount(kind, maxLimit) <= w.layers.size
  }

  lemma StartInv(kind: Kind, maxLimit: nat, w: World, size: nat)
    requires Start(w, size) && TileCount(kind, maxLimit) <= size
    ensures Inv(kind, maxLimit, w)
  {
    assert ChildrenOf({}) == {};
  }

  lemma LogGrows(kind: Kind, maxLimit: nat, history: seq<set<TileId>>, channel: seq<Delta>, after: set<TileId>,
                 d: Delta)
    requires ChannelInv(kind, history, channel) && HistoryInv(history, maxLimit)
    requires Describes(kind, history[|history| - 1], after, d) && |after| <= maxLimit && ParentClosed(after)
    ensures ChannelInv(kind, history + [after], channel + [d]) && HistoryInv(history + [after], maxLimit)
  {
    forall i: nat | i < |channel + [d]|
      ensures LeadsOn(kind, history + [after], channel + [d], i)
    {
      assert i < |channel| ==> LeadsOn(kind, history, channel, i);
    }
  }

  /** Nothing is replayed while a delta is queued. */
  lemma ConsumerWaits(kind: Kind, w: World, w': World)
    requires |w.channel| < |w.history| && ConsumerInv(kind, w)
    requires w'.layers == w.layers && w'.image == w.image
    requires w.history <= w'.history && Replayed(w') == Replayed(w)
    ensures ConsumerInv(kind, w')
  {
  }

  lemma UpdateGpu(kind: Kind, maxLimit: nat, w: World, e: Event, w': World)
    requires GpuInv(w.gpu, w.last) && Next(kind, maxLimit, w, e, w') && e.Update?
    ensures GpuInv(w'.gpu, w'.last) && ParentClosed(w'.gpu.Keys) && |w'.gpu.Keys| <= maxLimit
    ensures Describes(kind, w.gpu.Keys, w'.gpu.Keys, e.delta)
    ensures w' == w.(gpu := w'.gpu, last := w'.last, history := w.history + [w'.gpu.Keys],
                     channel := w.channel + [e.delta])
  {
    UpdateKeepsInv(w.gpu, e.selected, e.refine, e.limit, w.last, e.now, e.mid, w'.gpu);
    assert |w'.gpu.Keys| == |w'.gpu|;
  }

  lemma LogLinked(kind: Kind, maxLimit: nat, w: World, d: Delta, w': World)
    requires Linked(kind, maxLimit, w)
    requires Describes(kind, w.gpu.Keys, w'.gpu.Keys, d) && ParentClosed(w'.gpu.Keys) && |w'.gpu.Keys| <= maxLimit
    requires w'.history == w.history + [w'.gpu.Keys] && w'.channel == w.channel + [d]
    requires w'.layers == w.layers && w'.image == w.image
    ensures Linked(kind, maxLimit, w')
  {
    LogGrows(kind, maxLimit, w.history, w.channel, w'.gpu.Keys, d);
    ConsumerWaits(kind, w, w');
  }

  lemma UpdateInv(kind: Kind, maxLimit: nat, w: World, e: Event, w': World)
    requires Inv(kind, maxLimit, w) && Next(kind, maxLimit, w, e, w') && e.Update?
    ensures Inv(kind, maxLimit, w')
  {
    UpdateGpu(kind, maxLimit, w, e, w');
    LogLinked(kind, maxLimit, w, e.delta, w');
  }

  /** What the consumer holds, changed by a delta between two quad sets, is what it should hold next. */
  lemma DeltaApplies(kind: Kind, before: set<TileId>, after: set<TileId>, d: Delta)
    requires Describes(kind, before, after, d)
    ensures Elems(d.deleted) <= Image(kind, before)
    ensures Elems(d.added) !! Image(kind, before) - Elems(d.deleted)
    ensures Image(kind, before) - Elems(d.deleted) + Elems(d.added) == Image(kind, after)
  {
    var both := before * after;
    assert before == both + (before - after) && after == both + (after - before);
    if kind == PerTile {
      ChildrenOfUnion(both, before - after);
      ChildrenOfUnion(both, after - before);
      ChildrenOfUnion(before, after - before);
    }
  }

  lemma ImageSize(kind: Kind, quads: set<TileId>)
    ensures |Image(kind, quads)| == TileCount(kind, |quads|)
  {
    ChildrenOfSize(quads);
  }

  lemma ReplayDelta(kind: Kind, layers: Allocation, image: map<nat, TileId>, before: set<TileId>, after: set<TileId>,
                    d: Delta)
    requires Partitioned(layers) && layers.layerOf.Keys == Image(kind, before) && Describes(kind, before, after, d)
    requires TileCount(kind, |after|) <= layers.size
    ensures CleanReplay(layers, d.deleted, d.added)
    ensures Partitioned(Replay(layers, d.deleted, d.added)) && Replay(layers, d.deleted, d.added).size == layers.size
    ensures Replay(layers, d.deleted, d.added).layerOf.Keys == Image(kind, after)
    ensures ImagesMatch(layers.layerOf, image)
            ==> ImagesMatch(Replay(layers, d.deleted, d.added).layerOf,
                            Images(RemoveAll(layers, d.deleted), image, d.added))
  {
    DeltaApplies(kind, before, after, d);
    ImageSize(kind, after);
    ReplayExact(layers, d.deleted, d.added);
    if ImagesMatch(layers.layerOf, image) {
      ReplayKeepsImages(layers, image, d.deleted, d.added);
    }
  }

  lemma NextDelta(kind: Kind, maxLimit: nat, w: World)
    requires ChannelInv(kind, w.history, w.channel) && HistoryInv(w.history, maxLimit) && w.channel != []
    ensures Describes(kind, w.history[Replayed(w)], w.history[Replayed(w) + 1], w.channel[0])
    ensures TileCount(kind, |w.history[Replayed(w) + 1]|) <= TileCount(kind, maxLimit)
  {
    assert LeadsOn(kind, w.history, w.channel, 0);
    assert |w.history[Replayed(w) + 1]| <= maxLimit;
  }

  /** The part of the invariant that deliveries need. */
  ghost predicate Deliverable(kind: Kind, maxLimit: nat, w: World) {
    && ChannelInv(kind, w.history, w.channel) && HistoryInv(w.history, maxLimit) && w.channel != []
    && ConsumerInv(kind, w) && TileCount(kind, maxLimit) <= w.layers.size
  }

  /** Replaying the next delta is clean and brings the consumer to the state the scheduler had after the next update. */
  lemma DeliverNext(kind: Kind, maxLimit: nat, w: World)
    requires Deliverable(kind, maxLimit, w)
    ensures var d := w.channel[0]; var layers := Replay(w.layers, d.deleted, d.added);
      && CleanReplay(w.layers, d.deleted, d.added)
      && Partitioned(layers) && layers.size == w.layers.size
      && layers.layerOf.Keys == Image(kind, w.history[Replayed(w) + 1])
      && ImagesMatch(layers.layerOf, Images(RemoveAll(w.layers, d.deleted), w.image, d.added))
  {
    var i := Replayed(w);
    NextDelta(kind, maxLimit, w);
    ReplayDelta(kind, w.layers, w.image, w.history[i], w.history[i + 1], w.channel[0]);
  }

  /** Replaying the next delta never hits an assertion and never drops a tile. */
  lemma DeliverClean(kind: Kind, maxLimit: nat, w: World)
    requires Inv(kind, maxLimit, w) && w.channel != []
    ensures CleanReplay(w.layers, w.channel[0].deleted, w.channel[0].added)
  {
    DeliverNext(kind, maxLimit, w);
  }

  lemma DeliverConsumer(kind: Kind, maxLimit: nat, w: World, w': World)
    requires Deliverable(kind, maxLimit, w) && Next(kind, maxLimit, w, Deliver, w')
    ensures Replayed(w') == Replayed(w) + 1 && ConsumerInv(kind, w') && w'.layers.size == w.layers.size
  {
    DeliverNext(kind, maxLimit, w);
  }

  lemma DeliverChannel(kind: Kind, history: seq<set<TileId>>, channel: seq<Delta>)
    requires ChannelInv(kind, history, channel) && channel != []
    ensures ChannelInv(kind, history, channel[1..])
  {
    var rest := channel[1..];
    forall i: nat | i < |rest|
      ensures LeadsOn(kind, history, rest, i)
    {
      assert LeadsOn(kind, history, channel, i + 1);
    }
  }

  lemma DeliverLinked(kind: Kind, maxLimit: nat, w: World, w': World)
    requires Linked(kind, maxLimit, w) && TileCount(kind, maxLimit) <= w.layers.size
    requires Next(kind, maxLimit, w, Deliver, w')
    ensures Linked(kind, maxLimit, w') && w'.layers.size == w.layers.size
  {
    DeliverConsumer(kind, maxLimit, w, w');
    DeliverChannel(kind, w.history, w.channel);
  }

  lemma DeliverInv(kind: Kind, maxLimit: nat, w: World, w': World)
    requires Inv(kind, maxLimit, w) && Next(kind, maxLimit, w, Deliver, w')
    ensures Inv(kind, maxLimit, w')
  {
    DeliverLinked(kind, maxLimit, w, w');
  }

  /** Every step keeps the invariant. */
  lemma StepInv(kind: Kind, maxLimit: nat, w: World, e: Event, w': World)
    requires Inv(kind, maxLimit, w) && Next(kind, maxLimit, w, e, w')
    ensures Inv(kind, maxLimit, w')
  {
    if e.Update? {
      UpdateInv(kind, maxLimit, w, e, w');
    } else {
      DeliverInv(kind, maxLimit, w, w');
    }
  }
}
