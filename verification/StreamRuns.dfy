/** What holds in every state of every run of the GPU residency protocol
    (nucleus/tile/Scheduler.cpp, gl_engine/TileGeometry.cpp, gl_engine/TextureLayer.cpp). */
module StreamRuns {
  import opened Seqs
  import opened Tiles
  import opened Entries
  import opened Quads
  import opened Traversal
  import opened Residency
  import opened GpuArray
  import opened Streaming

  ghost predicate StepAt(kind: Kind, maxLimit: nat, worlds: seq<World>, events: seq<Event>, i: nat)
    requires |worlds| == |events| + 1 && i < |events|
  {
    Next(kind, maxLimit, worlds[i], events[i], worlds[i + 1])
  }

  /** A run: `worlds[0]` is a start, and every event leads from one world to the next. */
  ghost predicate IsRun(kind: Kind, maxLimit: nat, size: nat, worlds: seq<World>, events: seq<Event>) {
    && |worlds| == |events| + 1 && Start(worlds[0], size)
    && forall i: nat {:trigger StepAt(kind, maxLimit, worlds, events, i)} :: i < |events|
         ==> StepAt(kind, maxLimit, worlds, events, i)
  }

  lemma StepOf(kind: Kind, maxLimit: nat, size: nat, worlds: seq<World>, events: seq<Event>, i: nat)
    requires IsRun(kind, maxLimit, size, worlds, events) && i < |events|
    ensures Next(kind, maxLimit, worlds[i], events[i], worlds[i + 1])
  {
    assert StepAt(kind, maxLimit, worlds, events, i);
  }

  lemma StepAtInv(kind: Kind, maxLimit: nat, size: nat, worlds: seq<World>, events: seq<Event>, i: nat)
    requires IsRun(kind, maxLimit, size, worlds, events) && 0 < i < |worlds| && Inv(kind, maxLimit, worlds[i - 1])
    ensures Inv(kind, maxLimit, worlds[i])
  {
    StepOf(kind, maxLimit, size, worlds, events, i - 1);
    StepInv(kind, maxLimit, worlds[i - 1], events[i - 1], worlds[i]);
  }

  lemma {:induction false} RunInv(kind: Kind, maxLimit: nat, size: nat, worlds: seq<World>, events: seq<Event>, i: nat)
    requires IsRun(kind, maxLimit, size, worlds, events) && TileCount(kind, maxLimit) <= size
    requires i < |worlds|
    ensures Inv(kind, maxLimit, worlds[i])
  {
    if i == 0 {
      StartInv(kind, maxLimit, worlds[0], size);
    } else {
      RunInv(kind, maxLimit, size, worlds, events, i - 1);
      StepAtInv(kind, maxLimit, size, worlds, events, i);
    }
  }

  lemma HistoryGrows(kind: Kind, maxLimit: nat, w: World, e: Event, w': World)
    requires Next(kind, maxLimit, w, e, w')
    ensures w'.history == if e.Update? then w.history + [w'.gpu.Keys] else w.history
  {
  }

  /** Every logged quad set was the GPU cache of an earlier world of the run. */
  lemma {:induction false} HistoryIsPast(kind: Kind, maxLimit: nat, size: nat, worlds: seq<World>, events: seq<Event>,
                                         i: nat, k: nat) returns (j: nat)
    requires IsRun(kind, maxLimit, size, worlds, events) && i < |worlds| && k < |worlds[i].history|
    ensures j <= i && worlds[j].gpu.Keys == worlds[i].history[k]
  {
    if i == 0 {
      j := 0;
    } else {
      StepOf(kind, maxLimit, size, worlds, events, i - 1);
      HistoryGrows(kind, maxLimit, worlds[i - 1], events[i - 1], worlds[i]);
      if k < |worlds[i - 1].history| {
        j := HistoryIsPast(kind, maxLimit, size, worlds, events, i - 1, k);
      } else {
        j := i;
      }
    }
  }

  lemma InvConsumer(kind: Kind, maxLimit: nat, w: World)
    requires Inv(kind, maxLimit, w)
    ensures 0 <= Replayed(w) < |w.history| && w.layers.layerOf.Keys == Image(kind, w.history[Replayed(w)])
    ensures Partitioned(w.layers) && ImagesMatch(w.layers.layerOf, w.image)
  {
  }

  lemma LogClosed(kind: Kind, maxLimit: nat, w: World)
    requires ChannelInv(kind, w.history, w.channel) && HistoryInv(w.history, maxLimit)
    requires w.history[|w.history| - 1] == w.gpu.Keys
    ensures 0 <= Replayed(w) < |w.history|
    ensures w.channel == [] ==> w.history[Replayed(w)] == w.gpu.Keys
    ensures ParentClosed(w.gpu.Keys) && ParentClosed(w.history[Replayed(w)])
  {
  }

  /** The ids resident in the consumer's array are always those of some past GPU cache, each on its own layer;
      and a delivery at this point replays without an assertion failing or a tile being dropped. */
  lemma RunSafe(kind: Kind, maxLimit: nat, size: nat, worlds: seq<World>, events: seq<Event>, i: nat)
    returns (j: nat)
    requires IsRun(kind, maxLimit, size, worlds, events) && TileCount(kind, maxLimit) <= size
    requires i < |worlds|
    ensures j <= i && worlds[i].layers.layerOf.Keys == Image(kind, worlds[j].gpu.Keys)
    ensures worlds[i].channel == [] ==> worlds[i].layers.layerOf.Keys == Image(kind, worlds[i].gpu.Keys)
    ensures Partitioned(worlds[i].layers) && ImagesMatch(worlds[i].layers.layerOf, worlds[i].image)
    ensures ParentClosed(worlds[i].gpu.Keys) && ParentClosed(worlds[j].gpu.Keys)
    ensures worlds[i].channel != []
            ==> CleanReplay(worlds[i].layers, worlds[i].channel[0].deleted, worlds[i].channel[0].added)
  {
    RunInv(kind, maxLimit, size, worlds, events, i);
    InvConsumer(kind, maxLimit, worlds[i]);
    LogClosed(kind, maxLimit, worlds[i]);
    if worlds[i].channel != [] {
      DeliverClean(kind, maxLimit, worlds[i]);
    }
    j := HistoryIsPast(kind, maxLimit, size, worlds, events, i, Replayed(worlds[i]));
  }

  /** The resident quads of a texture array are closed under parents, so in a state in which any quad is resident
      every tile below the root finds a layer. */
  lemma RunLayerFound(maxLimit: nat, size: nat, worlds: seq<World>, events: seq<Event>, i: nat,
                      tile: TileId, info: LayerInfo)
    requires IsRun(PerQuad, maxLimit, size, worlds, events) && maxLimit <= size && i < |worlds|
    requires worlds[i].layers.layerOf != map[] && Covers(ROOT, tile)
    requires NearestResident(worlds[i].layers.layerOf, tile, info)
    ensures info.Layer?
  {
    var j := RunSafe(PerQuad, maxLimit, size, worlds, events, i);
    var id :| id in worlds[i].layers.layerOf;
    ClosedHasRoot(worlds[j].gpu.Keys, id);
    RootNeverStartsUp(worlds[i].layers.layerOf, tile, info);
  }

  ghost predicate LimitsPositive(events: seq<Event>) {
    forall i :: 0 <= i < |events| && events[i].Update? ==> events[i].limit >= 1
  }

  lemma RootKept(kind: Kind, maxLimit: nat, w: World, e: Event, w': World)
    requires GpuInv(w.gpu, w.last) && Next(kind, maxLimit, w, e, w') && e.Update? && e.limit >= 1 && ROOT in w.gpu
    ensures ROOT in w'.gpu
  {
    RootStays(w.gpu, e.selected, e.refine, e.limit, w.last, e.now, e.mid, w'.gpu);
  }

  lemma RunGpuInv(kind: Kind, maxLimit: nat, size: nat, worlds: seq<World>, events: seq<Event>, i: nat)
    requires IsRun(kind, maxLimit, size, worlds, events) && TileCount(kind, maxLimit) <= size && i < |worlds|
    ensures GpuInv(worlds[i].gpu, worlds[i].last)
    ensures worlds[i].history != [] && worlds[i].history[|worlds[i].history| - 1] == worlds[i].gpu.Keys
  {
    RunInv(kind, maxLimit, size, worlds, events, i);
  }

  lemma UpdateKeepsRoot(kind: Kind, maxLimit: nat, size: nat, worlds: seq<World>, events: seq<Event>, i: nat)
    requires IsRun(kind, maxLimit, size, worlds, events) && TileCount(kind, maxLimit) <= size
    requires i < |events| && events[i].Update? && events[i].limit >= 1
    requires worlds[i].history != [] && ROOT in worlds[i].history[|worlds[i].history| - 1]
    ensures ROOT in worlds[i + 1].gpu
  {
    RunGpuInv(kind, maxLimit, size, worlds, events, i);
    StepOf(kind, maxLimit, size, worlds, events, i);
    RootKept(kind, maxLimit, worlds[i], events[i], worlds[i + 1]);
  }

  /** Once the root is in, it stays in. */
  ghost predicate RootSticks(history: seq<set<TileId>>) {
    forall k, l :: 0 <= k <= l < |history| && ROOT in history[k] ==> ROOT in history[l]
  }

  lemma SticksAppended(history: seq<set<TileId>>, next: set<TileId>)
    requires RootSticks(history)
    requires history != [] && ROOT in history[|history| - 1] ==> ROOT in next
    ensures RootSticks(history + [next])
  {
    forall k, l | 0 <= k <= l < |history + [next]| && ROOT in (history + [next])[k]
      ensures ROOT in (history + [next])[l]
    {
      if k < |history| == l {
        assert ROOT in history[|history| - 1];
      }
    }
  }

  lemma RootSticksStep(kind: Kind, maxLimit: nat, size: nat, worlds: seq<World>, events: seq<Event>, i: nat)
    requires IsRun(kind, maxLimit, size, worlds, events) && TileCount(kind, maxLimit) <= size
    requires i < |events| && events[i].Update? && events[i].limit >= 1 && RootSticks(worlds[i].history)
    ensures RootSticks(worlds[i].history + [worlds[i + 1].gpu.Keys])
  {
    var h := worlds[i].history;
    if h != [] && ROOT in h[|h| - 1] {
      UpdateKeepsRoot(kind, maxLimit, size, worlds, events, i);
    }
    SticksAppended(h, worlds[i + 1].gpu.Keys);
  }

  lemma StepLog(kind: Kind, maxLimit: nat, size: nat, worlds: seq<World>, events: seq<Event>, i: nat)
    requires IsRun(kind, maxLimit, size, worlds, events) && i < |events|
    ensures worlds[i + 1].history
         == if events[i].Update? then worlds[i].history + [worlds[i + 1].gpu.Keys] else worlds[i].history
  {
    StepOf(kind, maxLimit, size, worlds, events, i);
    HistoryGrows(kind, maxLimit, worlds[i], events[i], worlds[i + 1]);
  }

  /** With limits of at least one quad, the root is never evicted again once it is on the GPU. */
  lemma {:induction false} RunRootSticks(kind: Kind, maxLimit: nat, size: nat, worlds: seq<World>, events: seq<Event>,
                                         i: nat)
    requires IsRun(kind, maxLimit, size, worlds, events) && TileCount(kind, maxLimit) <= size
    requires LimitsPositive(events) && i < |worlds|
    ensures RootSticks(worlds[i].history)
  {
    if i > 0 {
      RunRootSticks(kind, maxLimit, size, worlds, events, i - 1);
      StepLog(kind, maxLimit, size, worlds, events, i - 1);
      if events[i - 1].Update? {
        RootSticksStep(kind, maxLimit, size, worlds, events, i - 1);
      }
    }
  }

  // ---- the consumer over time -----------------------------------------------------------------

  lemma NextGrows(kind: Kind, maxLimit: nat, w: World, e: Event, w': World)
    requires Next(kind, maxLimit, w, e, w')
    ensures w.history <= w'.history && Replayed(w) <= Replayed(w')
  {
  }

  /** The log only grows, and replaying only moves forward in it. */
  lemma {:induction false} RunGrows(kind: Kind, maxLimit: nat, size: nat, worlds: seq<World>, events: seq<Event>,
                                    i: nat, k: nat)
    requires IsRun(kind, maxLimit, size, worlds, events) && i <= k < |worlds|
    ensures worlds[i].history <= worlds[k].history && Replayed(worlds[i]) <= Replayed(worlds[k])
  {
    if i < k {
      RunGrows(kind, maxLimit, size, worlds, events, i, k - 1);
      StepOf(kind, maxLimit, size, worlds, events, k - 1);
      NextGrows(kind, maxLimit, worlds[k - 1], events[k - 1], worlds[k]);
    }
  }

  lemma ResidentImage(kind: Kind, maxLimit: nat, size: nat, worlds: seq<World>, events: seq<Event>, i: nat)
    requires IsRun(kind, maxLimit, size, worlds, events) && TileCount(kind, maxLimit) <= size && i < |worlds|
    ensures 0 <= Replayed(worlds[i]) < |worlds[i].history|
    ensures worlds[i].layers.layerOf.Keys == Image(kind, worlds[i].history[Replayed(worlds[i])])
  {
    RunInv(kind, maxLimit, size, worlds, events, i);
    InvConsumer(kind, maxLimit, worlds[i]);
  }

  /** With limits of at least one quad, the root quad stays in the consumer's array once it is there. */
  lemma ResidentRootSticks(maxLimit: nat, size: nat, worlds: seq<World>, events: seq<Event>, i: nat, k: nat)
    requires IsRun(PerQuad, maxLimit, size, worlds, events) && maxLimit <= size && LimitsPositive(events)
    requires i <= k < |worlds| && ROOT in worlds[i].layers.layerOf
    ensures ROOT in worlds[k].layers.layerOf
  {
    ResidentImage(PerQuad, maxLimit, size, worlds, events, i);
    ResidentImage(PerQuad, maxLimit, size, worlds, events, k);
    RunGrows(PerQuad, maxLimit, size, worlds, events, i, k);
    RunRootSticks(PerQuad, maxLimit, size, worlds, events, k);
    var h, r := worlds[k].history, Replayed(worlds[i]);
    assert h[r] == worlds[i].history[r];
  }

  /** So once any quad is resident, the startup answer is never given again to a tile below the root. */
  lemma RunLayerKept(maxLimit: nat, size: nat, worlds: seq<World>, events: seq<Event>, i: nat, k: nat,
                     tile: TileId, info: LayerInfo)
    requires IsRun(PerQuad, maxLimit, size, worlds, events) && maxLimit <= size && LimitsPositive(events)
    requires i <= k < |worlds| && worlds[i].layers.layerOf != map[] && Covers(ROOT, tile)
    requires NearestResident(worlds[k].layers.layerOf, tile, info)
    ensures info.Layer?
  {
    var j := RunSafe(PerQuad, maxLimit, size, worlds, events, i);
    var id :| id in worlds[i].layers.layerOf;
    ClosedHasRoot(worlds[j].gpu.Keys, id);
    ResidentRootSticks(maxLimit, size, worlds, events, i, k);
    RootNeverStartsUp(worlds[k].layers.layerOf, tile, info);
  }

  // ---- what can be packed ---------------------------------------------------------------------

  ghost predicate RefinesBelow(events: seq<Event>, maxZoom: nat) {
    forall i :: 0 <= i < |events| && events[i].Update? ==> StopsAt(events[i].refine, maxZoom)
  }

  lemma UpdateZooms(kind: Kind, maxLimit: nat, w: World, e: Event, w': World, maxZoom: nat)
    requires Next(kind, maxLimit, w, e, w') && ZoomsBelow(w.gpu, maxZoom)
    requires e.Update? ==> StopsAt(e.refine, maxZoom)
    ensures ZoomsBelow(w'.gpu, maxZoom)
  {
    if e.Update? {
      forall id | id in w'.gpu
        ensures id.zoom < maxZoom
      {
        assert id in Marked(e.mid, Refinable(e.mid, e.refine), e.now);
        assert id in w.gpu || id in e.selected;
      }
    }
  }

  lemma {:induction false} RunZooms(kind: Kind, maxLimit: nat, size: nat, worlds: seq<World>, events: seq<Event>,
                                    i: nat, maxZoom: nat)
    requires IsRun(kind, maxLimit, size, worlds, events) && RefinesBelow(events, maxZoom) && i < |worlds|
    ensures ZoomsBelow(worlds[i].gpu, maxZoom)
  {
    if i > 0 {
      RunZooms(kind, maxLimit, size, worlds, events, i - 1, maxZoom);
      StepOf(kind, maxLimit, size, worlds, events, i - 1);
      UpdateZooms(kind, maxLimit, worlds[i - 1], events[i - 1], worlds[i], maxZoom);
    }
  }

  lemma {:induction false} ClosedBelowRoot(s: set<TileId>, id: TileId)
    requires ParentClosed(s) && id in s
    ensures Covers(ROOT, id)
    decreases id.zoom
  {
    var parent := Parent(id);
    if id.zoom > 0 {
      ClosedBelowRoot(s, parent);
    }
  }

  lemma ImagePackable(kind: Kind, quads: set<TileId>, id: TileId)
    requires ParentClosed(quads) && (forall q :: q in quads ==> q.zoom < 29) && id in Image(kind, quads)
    ensures Srs.Packable(id)
  {
    match kind
    case PerQuad =>
      ClosedBelowRoot(quads, id);
      Srs.BelowRoot(id);
    case PerTile =>
      ChildrenOfMember(quads, id);
      ClosedBelowRoot(quads, Parent(id));
      Srs.BelowRoot(id);
  }

  lemma NextFits(kind: Kind, maxLimit: nat, w: World, e: Event, w': World)
    requires Next(kind, maxLimit, w, e, w') && |w.gpu| <= maxLimit
    ensures |w'.gpu| <= maxLimit
  {
  }

  lemma StepFits(kind: Kind, maxLimit: nat, size: nat, worlds: seq<World>, events: seq<Event>, i: nat)
    requires IsRun(kind, maxLimit, size, worlds, events) && i < |events| && |worlds[i].gpu| <= maxLimit
    ensures |worlds[i + 1].gpu| <= maxLimit
  {
    StepOf(kind, maxLimit, size, worlds, events, i);
    NextFits(kind, maxLimit, worlds[i], events[i], worlds[i + 1]);
  }

  lemma {:induction false} RunFits(kind: Kind, maxLimit: nat, size: nat, worlds: seq<World>, events: seq<Event>, i: nat)
    requires IsRun(kind, maxLimit, size, worlds, events) && i < |worlds|
    ensures |worlds[i].gpu| <= maxLimit
  {
    if i > 0 {
      RunFits(kind, maxLimit, size, worlds, events, i - 1);
      StepFits(kind, maxLimit, size, worlds, events, i - 1);
    }
  }

  lemma ImageFits(kind: Kind, quads: set<TileId>, maxLimit: nat, size: nat)
    requires |quads| <= maxLimit && TileCount(kind, maxLimit) <= size
    ensures |Image(kind, quads)| <= size
  {
    ImageSize(kind, quads);
  }

  /** While no camera refines beyond zoom 28, the dictionary of the resident tiles can be generated in every state of
      every run: all ids can be packed, and they fit its slots. */
  lemma RunPackable(kind: Kind, maxLimit: nat, size: nat, worlds: seq<World>, events: seq<Event>, i: nat)
    requires IsRun(kind, maxLimit, size, worlds, events) && TileCount(kind, maxLimit) <= size <= Srs.U16
    requires RefinesBelow(events, 29) && i < |worlds|
    ensures |worlds[i].layers.layerOf| <= Srs.U16
    ensures forall id :: id in worlds[i].layers.layerOf ==> Srs.Packable(id)
  {
    var j := RunSafe(kind, maxLimit, size, worlds, events, i);
    RunZooms(kind, maxLimit, size, worlds, events, j, 29);
    forall id | id in worlds[i].layers.layerOf
      ensures Srs.Packable(id)
    {
      ImagePackable(kind, worlds[j].gpu.Keys, id);
    }
    RunFits(kind, maxLimit, size, worlds, events, j);
    assert |worlds[j].gpu.Keys| == |worlds[j].gpu|;
    ImageFits(kind, worlds[j].gpu.Keys, maxLimit, size);
    assert |worlds[i].layers.layerOf.Keys| == |worlds[i].layers.layerOf|;
  }

  // ---- the deltas of a run --------------------------------------------------------------------

  /** The deltas that were sent, in order. */
  ghost function Sent(events: seq<Event>): seq<Delta>
    decreases |events|
  {
    if events == [] then []
    else
      var e := events[|events| - 1];
      Sent(events[..|events| - 1]) + if e.Update? then [e.delta] else []
  }

  ghost predicate DeltaAt(kind: Kind, history: seq<set<TileId>>, deltas: seq<Delta>, k: nat)
    requires |history| == |deltas| + 1 && k < |deltas|
  {
    Describes(kind, history[k], history[k + 1], deltas[k])
  }

  /** Every delta leads from one logged set to the next. */
  ghost predicate Chained(kind: Kind, history: seq<set<TileId>>, deltas: seq<Delta>) {
    |history| == |deltas| + 1 && forall k: nat :: k < |deltas| ==> DeltaAt(kind, history, deltas, k)
  }

  lemma ChainedAppend(kind: Kind, history: seq<set<TileId>>, deltas: seq<Delta>, next: set<TileId>, d: Delta)
    requires Chained(kind, history, deltas) && Describes(kind, history[|history| - 1], next, d)
    ensures Chained(kind, history + [next], deltas + [d])
  {
    forall k: nat | k < |deltas + [d]|
      ensures DeltaAt(kind, history + [next], deltas + [d], k)
    {
      assert k < |deltas| ==> DeltaAt(kind, history, deltas, k);
    }
  }

  lemma ChainedTail(kind: Kind, history: seq<set<TileId>>, deltas: seq<Delta>)
    requires Chained(kind, history, deltas) && deltas != []
    ensures Describes(kind, history[0], history[1], deltas[0]) && Chained(kind, history[1..], deltas[1..])
  {
    assert DeltaAt(kind, history, deltas, 0);
    forall k: nat | k < |deltas[1..]|
      ensures DeltaAt(kind, history[1..], deltas[1..], k)
    {
      assert DeltaAt(kind, history, deltas, k + 1);
    }
  }

  /** A log that the deltas describe, from the empty set to the current GPU cache. */
  ghost predicate Logged(kind: Kind, w: World, deltas: seq<Delta>) {
    && Chained(kind, w.history, deltas)
    && w.history[0] == {} && w.history[|w.history| - 1] == w.gpu.Keys
  }

  lemma NextLogged(kind: Kind, maxLimit: nat, w: World, e: Event, w': World, deltas: seq<Delta>)
    requires Next(kind, maxLimit, w, e, w') && Logged(kind, w, deltas)
    ensures Logged(kind, w', deltas + if e.Update? then [e.delta] else [])
  {
    if e.Update? {
      ChainedAppend(kind, w.history, deltas, w'.gpu.Keys, e.delta);
    } else {
      assert deltas + [] == deltas;
    }
  }

  lemma SentNext(events: seq<Event>, i: nat)
    requires 0 < i <= |events|
    ensures Sent(events[..i]) == Sent(events[..i - 1]) + if events[i - 1].Update? then [events[i - 1].delta] else []
  {
    assert events[..i][..i - 1] == events[..i - 1];
  }

  lemma StepLogged(kind: Kind, maxLimit: nat, size: nat, worlds: seq<World>, events: seq<Event>, i: nat)
    requires IsRun(kind, maxLimit, size, worlds, events) && 0 < i < |worlds|
    requires Logged(kind, worlds[i - 1], Sent(events[..i - 1]))
    ensures Logged(kind, worlds[i], Sent(events[..i]))
  {
    StepOf(kind, maxLimit, size, worlds, events, i - 1);
    SentNext(events, i);
    NextLogged(kind, maxLimit, worlds[i - 1], events[i - 1], worlds[i], Sent(events[..i - 1]));
  }

  /** Together, the deltas sent in a run describe its log, which ends with the current GPU cache. */
  lemma {:induction false} RunChained(kind: Kind, maxLimit: nat, size: nat, worlds: seq<World>, events: seq<Event>,
                                      i: nat)
    requires IsRun(kind, maxLimit, size, worlds, events) && i < |worlds|
    ensures Logged(kind, worlds[i], Sent(events[..i]))
  {
    if i > 0 {
      RunChained(kind, maxLimit, size, worlds, events, i - 1);
      StepLogged(kind, maxLimit, size, worlds, events, i);
    }
  }
}
