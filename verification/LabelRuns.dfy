/** What a whole run of the label filter comes to, in terms of the events alone: what is shown in the end, and how often
    the filter runs (nucleus/map_label/Filter.cpp). */
module LabelRuns {
  import opened Seqs
  import opened Tiles
  import opened LabelFilter

  // ---- the latest data ------------------------------------------------------------------------

  ghost predicate Mentions(e: Event, id: TileId) {
    e.NewQuads? && (id in TileIdsOf(e.updated) || id in e.removed)
  }

  lemma {:induction false} AddedData(live: View, tiles: seq<PoiTile>, tile: PoiTile)
    requires NoDup(TileIdsOf(tiles)) && tile in tiles
    ensures tile.id in AddTiles(live, tiles) && AddTiles(live, tiles)[tile.id] == tile.data
    decreases |tiles|
  {
    var ids, rest := TileIdsOf(tiles), tiles[1..];
    assert ids == [tiles[0].id] + TileIdsOf(rest);
    NoDupSplit(ids, 1);
    assert ids[1..] == TileIdsOf(rest);
    assert tiles == [tiles[0]] + rest;
    if tile in rest {
      AddedData(live[tiles[0].id := tiles[0].data], rest, tile);
    } else {
      AddTilesFacts(live[tile.id := tile.data], rest);
      assert ids[0] in ids[..1] && tile.id !in TileIdsOf(rest);
    }
  }

  lemma IdListed(tiles: seq<PoiTile>, id: TileId) returns (tile: PoiTile)
    requires id in TileIdsOf(tiles)
    ensures tile in tiles && tile.id == id
  {
    var i :| 0 <= i < |tiles| && TileIdsOf(tiles)[i] == id;
    tile := tiles[i];
  }

  lemma NotMentioned(s: State, e: Event, id: TileId)
    requires !Mentions(e, id)
    ensures id in Step(s, e).live <==> id in s.live
    ensures id in s.live ==> Step(s, e).live[id] == s.live[id]
  {
    if e.NewQuads? {
      AddTilesFacts(s.live - Elems(e.removed), e.updated);
    }
  }

  /** The tile of `id` is live exactly as the event says that mentions it. */
  ghost predicate LiveAsIn(live: View, e: Event, id: TileId) {
    && e.NewQuads?
    && (id in live <==> id in TileIdsOf(e.updated))
    && (forall tile :: tile in e.updated && tile.id == id ==> id in live && live[id] == tile.data)
  }

  lemma Mentioned(s: State, e: Event, id: TileId)
    requires Enabled(s, e) && Mentions(e, id)
    ensures LiveAsIn(Step(s, e).live, e, id)
  {
    var rest := s.live - Elems(e.removed);
    AddTilesFacts(rest, e.updated);
    forall tile | tile in e.updated && tile.id == id
      ensures id in AddTiles(rest, e.updated) && AddTiles(rest, e.updated)[id] == tile.data
    {
      AddedData(rest, e.updated, tile);
    }
  }

  lemma {:induction false} NeverMentioned(s: State, events: seq<Event>, id: TileId)
    requires forall j :: 0 <= j < |events| ==> !Mentions(events[j], id)
    ensures id in Run(s, events).live <==> id in s.live
    ensures id in s.live ==> Run(s, events).live[id] == s.live[id]
    decreases |events|
  {
    if events != [] {
      NotMentioned(s, events[0], id);
      NeverMentioned(Step(s, events[0]), events[1..], id);
    }
  }

  ghost predicate LastMention(events: seq<Event>, k: nat, id: TileId) {
    k < |events| && Mentions(events[k], id) && forall j :: k < j < |events| ==> !Mentions(events[j], id)
  }

  /** The filter's tile of an id is that of the last update that mentions the id. */
  lemma {:induction false} RunLive(s: State, events: seq<Event>, k: nat, id: TileId)
    requires Legal(s, events) && LastMention(events, k, id)
    ensures LiveAsIn(Run(s, events).live, events[k], id)
    decreases |events|
  {
    var q, rest := Step(s, events[0]), events[1..];
    if k == 0 {
      Mentioned(s, events[0], id);
      NeverMentioned(q, rest, id);
    } else {
      assert LastMention(rest, k - 1, id);
      RunLive(q, rest, k - 1, id);
    }
  }

  /** In every run, once all messages have arrived and the timer has fired: a tile is shown if and only if the last
      update that mentions it brought it, and it is shown with the data of that update, filtered with the definitions
      passed in last. What no update mentions is not shown. */
  lemma RunShowsLatest(s: State, events: seq<Event>, id: TileId)
    requires Start(s) && Legal(s, events)
    ensures var shown := Shown(Timeout(Run(s, events)).emitted);
      && ((forall j :: 0 <= j < |events| ==> !Mentions(events[j], id)) ==> id !in shown)
      && forall k: nat {:trigger LastMention(events, k, id)} :: LastMention(events, k, id) ==>
           && (id in shown <==> id in TileIdsOf(events[k].updated))
           && forall tile :: tile in events[k].updated && tile.id == id
                ==> id in shown && shown[id] == ApplyFilter(LastDefinitions(s.definitions, events), tile.data)
  {
    RunConsistent(s, events);
    if forall j :: 0 <= j < |events| ==> !Mentions(events[j], id) {
      NeverMentioned(s, events, id);
    }
    forall k: nat | LastMention(events, k, id)
      ensures LiveAsIn(Run(s, events).live, events[k], id)
    {
      RunLive(s, events, k, id);
    }
  }

  // ---- how often the filter runs --------------------------------------------------------------

  ghost function Updates(events: seq<Event>): nat
    decreases |events|
  {
    if events == [] then 0 else (if events[0].NewQuads? then 1 else 0) + Updates(events[1..])
  }

  ghost predicate Redefines(events: seq<Event>) {
    exists i :: 0 <= i < |events| && events[i].NewDefinitions?
  }

  lemma RedefinesNext(events: seq<Event>)
    requires events != []
    ensures Redefines(events) <==> events[0].NewDefinitions? || Redefines(events[1..])
  {
    if Redefines(events[1..]) {
      var i :| 0 <= i < |events[1..]| && events[1..][i].NewDefinitions?;
      assert events[i + 1].NewDefinitions?;
    }
    if Redefines(events) {
      var i :| 0 <= i < |events| && events[i].NewDefinitions?;
      assert i > 0 ==> events[1..][i - 1].NewDefinitions?;
    }
  }

  /** What one event does to the throttle. */
  lemma StepThrottle(s: State, e: Event)
    ensures Step(s, e).timerActive <==> e.NewDefinitions? || (s.timerActive && !e.TimerFired?)
    ensures Step(s, e).shouldRun <==> e.NewDefinitions? && s.timerActive
    ensures |Step(s, e).emitted| == |s.emitted| + match e
      case NewDefinitions(_, _) => if s.timerActive then 0 else 1
      case NewQuads(_, _) => 1
      case TimerFired => if s.shouldRun then 1 else 0
  {
  }

  /** Between two firings of the timer the filter runs once for every update of the tiles, and however often the
      definitions change, at most once for all of that: at the first change, and only if the timer was off. */
  lemma {:induction false} Throttled(s: State, events: seq<Event>)
    requires forall i :: 0 <= i < |events| ==> !events[i].TimerFired?
    ensures Run(s, events).timerActive <==> s.timerActive || Redefines(events)
    ensures |Run(s, events).emitted|
         == |s.emitted| + Updates(events) + if Redefines(events) && !s.timerActive then 1 else 0
    decreases |events|
  {
    if events != [] {
      StepThrottle(s, events[0]);
      RedefinesNext(events);
      Throttled(Step(s, events[0]), events[1..]);
    }
  }

  /** Changes while the timer is on are not lost: if no update of the tiles follows, its next firing runs the filter. */
  lemma {:induction false} PendingChange(s: State, events: seq<Event>)
    requires forall i :: 0 <= i < |events| ==> events[i].NewDefinitions?
    requires s.timerActive
    ensures Run(s, events).timerActive && (Run(s, events).shouldRun <==> events != [] || s.shouldRun)
    ensures |Timeout(Run(s, events)).emitted| == |s.emitted| + if events != [] || s.shouldRun then 1 else 0
    decreases |events|
  {
    if events != [] {
      StepThrottle(s, events[0]);
      PendingChange(Step(s, events[0]), events[1..]);
    }
  }

  // ---- one message ----------------------------------------------------------------------------

  lemma RefilterOne(live: View, d: FilterDefinitions, id: TileId)
    ensures Refilter(live, d, [id]) == if id in live then [PoiTile(id, ApplyFilter(d, live[id]))] else []
  {
    assert [id][1..] == [];
  }

  /** The updated tiles of a message are determined piecewise: in the order of the queue, each queued tile that is still
      live, filtered. */
  lemma {:induction false} RefilterConcat(live: View, d: FilterDefinitions, a: seq<TileId>, b: seq<TileId>)
    ensures Refilter(live, d, a + b) == Refilter(live, d, a) + Refilter(live, d, b)
    decreases |a|
  {
    if a == [] {
      assert a + b == b;
    } else {
      var head := if a[0] in live then [PoiTile(a[0], ApplyFilter(d, live[a[0]]))] else [];
      assert (a + b)[0] == a[0] && (a + b)[1..] == a[1..] + b;
      RefilterConcat(live, d, a[1..], b);
      ConcatAssoc(head, Refilter(live, d, a[1..]), Refilter(live, d, b));
    }
  }

  /** A message's removals come first, and of several updates of one tile the last one counts. */
  lemma {:induction false} ReceiveExactly(view: View, m: Message, id: TileId)
    ensures id in Receive(view, m) <==> id in TileIdsOf(m.updated) || (id in view && id !in m.removed)
    ensures id !in TileIdsOf(m.updated) && id in view && id !in m.removed ==> Receive(view, m)[id] == view[id]
  {
    ShowsAdded(view - Elems(m.removed), m.updated);
    AddTilesFacts(view - Elems(m.removed), m.updated);
  }

  lemma {:induction false} ShowsAdded(view: View, tiles: seq<PoiTile>)
    ensures ShowUpdated(view, tiles) == AddTiles(view, tiles)
    decreases |tiles|
  {
    if tiles != [] {
      ShowsAdded(view[tiles[0].id := tiles[0].data], tiles[1..]);
    }
  }

  lemma {:induction false} LastUpdateCounts(view: View, tiles: seq<PoiTile>, tile: PoiTile)
    ensures ShowUpdated(view, tiles + [tile]) == ShowUpdated(view, tiles)[tile.id := tile.data]
    decreases |tiles|
  {
    if tiles == [] {
      assert (tiles + [tile])[1..] == [];
    } else {
      assert (tiles + [tile])[1..] == tiles[1..] + [tile];
      LastUpdateCounts(view[tiles[0].id := tiles[0].data], tiles[1..], tile);
    }
  }
}
