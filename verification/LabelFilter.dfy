/** The throttled label filter and the label view fed by it (nucleus/map_label/Filter.cpp, gl_engine/MapLabels.cpp). */
module LabelFilter {
  import opened Seqs
  import opened Tiles
  import Quads
  import Runs
  import Streaming
  import StreamRuns

  // ---- points of interest ---------------------------------------------------------------------

  datatype LabelType = Unknown | Peak | Settlement | AlpineHut | Webcam

  datatype PointOfInterest = PointOfInterest(kind: LabelType, altitude: real, attributes: map<string, string>)

  type Collection = seq<PointOfInterest>

  datatype FilterDefinitions = FilterDefinitions(
    peaksVisible: bool, citiesVisible: bool, cottagesVisible: bool, webcamsVisible: bool,
    peakEleMin: real, peakEleMax: real, peakHasCross: bool, peakHasRegister: bool,
    cottageHasShower: bool, cottageHasContact: bool)

  predicate IsYes(poi: PointOfInterest, key: string) {
    key in poi.attributes && poi.attributes[key] == "yes"
  }

  predicate Shows(d: FilterDefinitions, poi: PointOfInterest) {
    match poi.kind
    case Peak =>
      && d.peaksVisible && d.peakEleMin <= poi.altitude <= d.peakEleMax
      && (d.peakHasCross ==> IsYes(poi, "summit_cross"))
      && (d.peakHasRegister ==> IsYes(poi, "summit_register"))
    case Settlement => d.citiesVisible
    case AlpineHut =>
      && d.cottagesVisible && (d.cottageHasShower ==> IsYes(poi, "shower"))
      && (d.cottageHasContact ==> "email" in poi.attributes || "phone" in poi.attributes)
    case Webcam => d.webcamsVisible
    case Unknown => true
  }

  /** Why a point is hidden: its kind is switched off, or it lacks what is asked of its kind. */
  lemma HiddenExactly(d: FilterDefinitions, poi: PointOfInterest)
    ensures !Shows(d, poi) <==>
      || (poi.kind == Settlement && !d.citiesVisible)
      || (poi.kind == Webcam && !d.webcamsVisible)
      || (poi.kind == Peak
          && (|| !d.peaksVisible || poi.altitude < d.peakEleMin || poi.altitude > d.peakEleMax
              || (d.peakHasCross && ("summit_cross" in poi.attributes ==> poi.attributes["summit_cross"] != "yes"))
              || (d.peakHasRegister
                  && ("summit_register" in poi.attributes ==> poi.attributes["summit_register"] != "yes"))))
      || (poi.kind == AlpineHut
          && (|| !d.cottagesVisible
              || (d.cottageHasShower && ("shower" in poi.attributes ==> poi.attributes["shower"] != "yes"))
              || (d.cottageHasContact && "email" !in poi.attributes && "phone" !in poi.attributes)))
  {
  }

  function ApplyFilter(d: FilterDefinitions, pois: Collection): Collection {
    if pois == [] then []
    else (if Shows(d, pois[0]) then [pois[0]] else []) + ApplyFilter(d, pois[1..])
  }

  /** Filtering keeps the shown points, as often as they occur, and nothing else. */
  lemma {:induction false} ApplyFilterCounts(d: FilterDefinitions, pois: Collection, poi: PointOfInterest)
    ensures multiset(ApplyFilter(d, pois))[poi] == if Shows(d, poi) then multiset(pois)[poi] else 0
  {
    if pois != [] {
      ApplyFilterCounts(d, pois[1..], poi);
      assert pois == [pois[0]] + pois[1..];
    }
  }

  /** Filtering keeps the order: it can be done piecewise. */
  lemma {:induction false} ApplyFilterConcat(d: FilterDefinitions, a: Collection, b: Collection)
    ensures ApplyFilter(d, a + b) == ApplyFilter(d, a) + ApplyFilter(d, b)
  {
    if a == [] {
      assert a + b == b;
    } else {
      assert (a + b)[1..] == a[1..] + b;
      ApplyFilterConcat(d, a[1..], b);
    }
  }

  // ---- state ----------------------------------------------------------------------------------

  datatype PoiTile = PoiTile(id: TileId, data: Collection)

  /** One `filter_finished` signal. */
  datatype Message = Message(updated: seq<PoiTile>, removed: seq<TileId>)

  type View = map<TileId, Collection>

  /** The filter object, its timer, and the log of the signals it has emitted. */
  datatype State = State(live: View, toFilter: seq<TileId>, removed: seq<TileId>, definitions: FilterDefinitions,
                         shouldRun: bool, timerActive: bool, emitted: seq<Message>)

  // ---- the consumer ---------------------------------------------------------------------------

  function ShowUpdated(view: View, tiles: seq<PoiTile>): View
    decreases |tiles|
  {
    if tiles == [] then view else ShowUpdated(view[tiles[0].id := tiles[0].data], tiles[1..])
  }

  ghost function Receive(view: View, m: Message): View {
    ShowUpdated(view - Elems(m.removed), m.updated)
  }

  /** What is shown after all messages have arrived. */
  ghost function Shown(messages: seq<Message>): View
    decreases |messages|
  {
    if messages == [] then map[] else Receive(Shown(messages[..|messages| - 1]), messages[|messages| - 1])
  }

  // ---- the filter -----------------------------------------------------------------------------

  /** The queued tiles that are still live, filtered. */
  function Refilter(live: View, d: FilterDefinitions, queue: seq<TileId>): seq<PoiTile>
    decreases |queue|
  {
    if queue == [] then []
    else (if queue[0] in live then [PoiTile(queue[0], ApplyFilter(d, live[queue[0]]))] else [])
         + Refilter(live, d, queue[1..])
  }

  function Filter(s: State): State {
    if !s.shouldRun then s
    else s.(shouldRun := false, toFilter := [],
            emitted := s.emitted + [Message(Refilter(s.live, s.definitions, s.toFilter), s.removed)])
  }

  /** All live tiles are queued, in the order `order` in which the map lists them. */
  function WithDefinitions(s: State, d: FilterDefinitions, order: seq<TileId>): State {
    var q := s.(definitions := d, toFilter := s.toFilter + order, shouldRun := true);
    if s.timerActive then q else Filter(q.(timerActive := true))
  }

  function AddTiles(live: View, tiles: seq<PoiTile>): View
    decreases |tiles|
  {
    if tiles == [] then live else AddTiles(live[tiles[0].id := tiles[0].data], tiles[1..])
  }

  ghost function TileIdsOf(tiles: seq<PoiTile>): seq<TileId> {
    seq(|tiles|, i requires 0 <= i < |tiles| => tiles[i].id)
  }

  ghost function WithQuads(s: State, updated: seq<PoiTile>, removed: seq<TileId>): State {
    Filter(s.(removed := removed, live := AddTiles(s.live - Elems(removed), updated),
              toFilter := s.toFilter + TileIdsOf(updated), shouldRun := true))
  }

  function Timeout(s: State): State {
    Filter(s.(timerActive := false))
  }

  // ---- events ---------------------------------------------------------------------------------

  datatype Event =
    | NewDefinitions(definitions: FilterDefinitions, order: seq<TileId>)
    | NewQuads(updated: seq<PoiTile>, removed: seq<TileId>)
    | TimerFired

  /** The deltas are disjoint: updated tiles are new and not removed by the same delta. */
  ghost predicate Enabled(s: State, e: Event) {
    match e
    case NewDefinitions(d, order) => NoDup(order) && Elems(order) == s.live.Keys
    case NewQuads(updated, removed) =>
      && NoDup(TileIdsOf(updated))
      && Elems(TileIdsOf(updated)) !! Elems(removed) && Elems(TileIdsOf(updated)) !! s.live.Keys - Elems(removed)
    case TimerFired => s.timerActive
  }

  ghost function Step(s: State, e: Event): State {
    match e
    case NewDefinitions(d, order) => WithDefinitions(s, d, order)
    case NewQuads(updated, removed) => WithQuads(s, updated, removed)
    case TimerFired => Timeout(s)
  }

  /** The consumer shows exactly the live tiles, each filtered with the latest definitions unless it is queued;
      something is queued only while the run flag is set and the timer is armed; and the removal list that every
      further signal repeats names no live tile. */
  ghost predicate Inv(s: State) {
    && Consistent(s.live, s.definitions, s.toFilter, Shown(s.emitted))
    && (s.toFilter != [] ==> s.shouldRun && s.timerActive)
    && Elems(s.removed) !! s.live.Keys
  }

  ghost predicate Consistent(live: View, d: FilterDefinitions, queue: seq<TileId>, shown: View) {
    && shown.Keys == live.Keys
    && forall id :: id in live && id !in queue ==> shown[id] == ApplyFilter(d, live[id])
  }

  // ---- lemmas ---------------------------------------------------------------------------------

  /** Showing the refiltered tiles brings every queued live tile up to date and leaves the others alone. */
  lemma {:induction false} ShowRefiltered(live: View, d: FilterDefinitions, queue: seq<TileId>, view: View)
    requires forall id :: id in view ==> id in live
    ensures var shown := ShowUpdated(view, Refilter(live, d, queue));
      && (forall id :: id in shown <==> id in view || (id in queue && id in live))
      && (forall id :: id in queue && id in live ==> shown[id] == ApplyFilter(d, live[id]))
      && (forall id :: id in view && id !in queue ==> shown[id] == view[id])
    decreases |queue|
  {
    if queue != [] {
      var rest := queue[1..];
      assert queue == [queue[0]] + rest;
      if queue[0] in live {
        var head := PoiTile(queue[0], ApplyFilter(d, live[queue[0]]));
        assert Refilter(live, d, queue) == [head] + Refilter(live, d, rest);
        assert ([head] + Refilter(live, d, rest))[1..] == Refilter(live, d, rest);
        ShowRefiltered(live, d, rest, view[head.id := head.data]);
        if queue[0] !in rest {
          assert ShowUpdated(view[head.id := head.data], Refilter(live, d, rest))[queue[0]] == head.data;
        }
      } else {
        assert Refilter(live, d, queue) == Refilter(live, d, rest);
        ShowRefiltered(live, d, rest, view);
      }
    }
  }

  lemma RefilterNext(live: View, d: FilterDefinitions, queue: seq<TileId>, sofar: seq<PoiTile>)
    requires queue != []
    ensures var next := if queue[0] in live then sofar + [PoiTile(queue[0], ApplyFilter(d, live[queue[0]]))] else sofar;
      sofar + Refilter(live, d, queue) == next + Refilter(live, d, queue[1..])
  {
    var rest := Refilter(live, d, queue[1..]);
    if queue[0] in live {
      ConcatAssoc(sofar, [PoiTile(queue[0], ApplyFilter(d, live[queue[0]]))], rest);
    } else {
      assert Refilter(live, d, queue) == rest;
    }
  }

  /** Running the filter on a queue that covers every tile not yet up to date makes the view exact. */
  lemma RefilterConsistent(live: View, d: FilterDefinitions, queue: seq<TileId>, removed: seq<TileId>, view: View)
    requires Elems(removed) !! live.Keys
    requires forall id :: id in view - Elems(removed) ==> id in live
    requires forall id :: id in live && id !in queue ==> id in view && view[id] == ApplyFilter(d, live[id])
    ensures Consistent(live, d, [], Receive(view, Message(Refilter(live, d, queue), removed)))
  {
    var rest := view - Elems(removed);
    ShowRefiltered(live, d, queue, rest);
    forall id | id in live
      ensures id in queue || (id in rest && rest[id] == ApplyFilter(d, live[id]))
    {
      if id !in queue {
        assert id !in Elems(removed);
      }
    }
  }

  lemma ShownAppend(messages: seq<Message>, m: Message)
    ensures Shown(messages + [m]) == Receive(Shown(messages), m)
  {
    assert (messages + [m])[..|messages|] == messages;
  }

  /** Filtering with the run flag set empties the queue and makes the view exact. */
  lemma FilterExact(s: State)
    requires s.shouldRun && Elems(s.removed) !! s.live.Keys
    requires forall id :: id in Shown(s.emitted) - Elems(s.removed) ==> id in s.live
    requires forall id :: id in s.live && id !in s.toFilter
               ==> id in Shown(s.emitted) && Shown(s.emitted)[id] == ApplyFilter(s.definitions, s.live[id])
    ensures var q := Filter(s); Inv(q) && q.toFilter == [] && q.live == s.live && q.definitions == s.definitions
  {
    RefilterConsistent(s.live, s.definitions, s.toFilter, s.removed, Shown(s.emitted));
    ShownAppend(s.emitted, Message(Refilter(s.live, s.definitions, s.toFilter), s.removed));
  }

  lemma {:induction false} AddTilesFacts(live: View, tiles: seq<PoiTile>)
    ensures AddTiles(live, tiles).Keys == live.Keys + Elems(TileIdsOf(tiles))
    ensures forall id :: id in live && id !in TileIdsOf(tiles) ==> AddTiles(live, tiles)[id] == live[id]
    decreases |tiles|
  {
    if tiles == [] {
      assert TileIdsOf(tiles) == [];
    } else {
      AddTilesFacts(live[tiles[0].id := tiles[0].data], tiles[1..]);
      assert TileIdsOf(tiles) == [tiles[0].id] + TileIdsOf(tiles[1..]);
    }
  }

  lemma StepKeeps(s: State, e: Event)
    requires Inv(s) && Enabled(s, e)
    ensures Inv(Step(s, e))
  {
    match e
    case NewDefinitions(d, order) => DefinitionsKeep(s, d, order);
    case NewQuads(updated, removed) => QuadsKeep(s, updated, removed);
    case TimerFired => TimeoutKeeps(s);
  }

  lemma DefinitionsKeep(s: State, d: FilterDefinitions, order: seq<TileId>)
    requires Inv(s) && Elems(order) == s.live.Keys
    ensures Inv(WithDefinitions(s, d, order))
    ensures !s.timerActive ==> WithDefinitions(s, d, order).toFilter == []
  {
    var q := s.(definitions := d, toFilter := s.toFilter + order, shouldRun := true, timerActive := true);
    forall id | id in s.live
      ensures id in q.toFilter
    {
      assert id in Elems(order);
    }
    if !s.timerActive {
      FilterExact(q);
    }
  }

  lemma QuadsKeep(s: State, updated: seq<PoiTile>, removed: seq<TileId>)
    requires Inv(s) && Enabled(s, NewQuads(updated, removed))
    ensures Inv(WithQuads(s, updated, removed)) && WithQuads(s, updated, removed).toFilter == []
    ensures WithQuads(s, updated, removed).live.Keys == s.live.Keys - Elems(removed) + Elems(TileIdsOf(updated))
  {
    AddTilesFacts(s.live - Elems(removed), updated);
    var q := s.(removed := removed, live := AddTiles(s.live - Elems(removed), updated),
                toFilter := s.toFilter + TileIdsOf(updated), shouldRun := true);
    forall id | id in q.live && id !in q.toFilter
      ensures id in Shown(q.emitted) && Shown(q.emitted)[id] == ApplyFilter(q.definitions, q.live[id])
    {
      assert id !in Elems(TileIdsOf(updated));
    }
    FilterExact(q);
  }

  lemma TimeoutKeeps(s: State)
    requires Inv(s)
    ensures Inv(Timeout(s)) && Timeout(s).toFilter == []
  {
    if s.shouldRun {
      FilterExact(s.(timerActive := false));
    }
  }

  // ---- runs -----------------------------------------------------------------------------------

  ghost predicate Start(s: State) {
    s.live == map[] && s.toFilter == [] && s.removed == [] && s.emitted == [] && !s.timerActive
  }

  ghost predicate Legal(s: State, events: seq<Event>) {
    Runs.Legal(Enabled, Step, s, events)
  }

  ghost function Run(s: State, events: seq<Event>): State {
    Runs.Run(Step, s, events)
  }

  lemma RunKeeps(s: State, events: seq<Event>)
    requires Inv(s) && Legal(s, events)
    ensures Inv(Run(s, events))
  {
    forall t, e | Inv(t) && Enabled(t, e)
      ensures Inv(Step(t, e))
    {
      StepKeeps(t, e);
    }
    Runs.Keeps(Enabled, Step, Inv, s, events);
  }

  /** The definitions passed in last. */
  ghost function LastDefinitions(first: FilterDefinitions, events: seq<Event>): FilterDefinitions
    decreases |events|
  {
    if events == [] then first
    else
      var last := events[|events| - 1];
      if last.NewDefinitions? then last.definitions else LastDefinitions(first, events[..|events| - 1])
  }

  lemma LastDefinitionsNext(first: FilterDefinitions, e: Event, rest: seq<Event>)
    ensures LastDefinitions(first, [e] + rest)
         == LastDefinitions(if e.NewDefinitions? then e.definitions else first, rest)
    decreases |rest|
  {
    if rest == [] {
      assert ([e] + rest)[..0] == [];
    } else {
      var front := rest[..|rest| - 1];
      assert ([e] + rest)[..|rest|] == [e] + front;
      LastDefinitionsNext(first, e, front);
    }
  }

  lemma StepDefinitions(s: State, e: Event)
    ensures Step(s, e).definitions == if e.NewDefinitions? then e.definitions else s.definitions
  {
  }

  /** The filter works with the definitions passed in last. */
  lemma {:induction false} RunDefinitions(s: State, events: seq<Event>)
    ensures Run(s, events).definitions == LastDefinitions(s.definitions, events)
    decreases |events|
  {
    if events != [] {
      StepDefinitions(s, events[0]);
      RunDefinitions(Step(s, events[0]), events[1..]);
      LastDefinitionsNext(s.definitions, events[0], events[1..]);
      assert [events[0]] + events[1..] == events;
    }
  }

  /** In every run, once all messages have arrived, the view shows exactly the live tiles, and when the timer next
      fires it shows each of them filtered with the definitions passed in last. */
  lemma RunConsistent(s: State, events: seq<Event>)
    requires Start(s) && Legal(s, events)
    ensures Inv(Run(s, events))
    ensures var q := Timeout(Run(s, events));
      && Shown(q.emitted).Keys == q.live.Keys == Run(s, events).live.Keys
      && forall id :: id in q.live
           ==> Shown(q.emitted)[id] == ApplyFilter(LastDefinitions(s.definitions, events), q.live[id])
  {
    RunKeeps(s, events);
    RunDefinitions(s, events);
    TimeoutKeeps(Run(s, events));
  }

  // ---- messages in transit --------------------------------------------------------------------

  /** An event sends at most one message, and when it does, the view is up to date once that has arrived. */
  lemma StepSends(s: State, e: Event)
    requires Inv(s) && Enabled(s, e)
    ensures var q := Step(s, e);
      && s.emitted <= q.emitted && |q.emitted| <= |s.emitted| + 1
      && (|q.emitted| > |s.emitted| ==> q.toFilter == [])
  {
    match e
    case NewDefinitions(d, order) => DefinitionsKeep(s, d, order);
    case NewQuads(updated, removed) => QuadsKeep(s, updated, removed);
    case TimerFired => TimeoutKeeps(s);
  }

  /** The view is exactly what the filter of this state makes of its live tiles. */
  ghost predicate UpToDate(view: View, s: State) {
    Consistent(s.live, s.definitions, [], view)
  }

  lemma LastStep(s: State, events: seq<Event>)
    requires Legal(s, events) && events != []
    ensures var front := events[..|events| - 1];
      && Legal(s, front) && Enabled(Run(s, front), events[|events| - 1])
      && Run(s, events) == Step(Run(s, front), events[|events| - 1])
  {
    Runs.Split(Enabled, Step, s, events);
  }

  /** While messages are still queued to the render thread, the view is that of an earlier state of the run: for every
      prefix of the messages there is one whose live tiles, filtered with its definitions, are what is shown. */
  lemma {:induction false} PrefixShown(s: State, events: seq<Event>, k: nat) returns (n: nat)
    requires Start(s) && Legal(s, events) && k <= |Run(s, events).emitted|
    ensures n <= |events| && UpToDate(Shown(Run(s, events).emitted[..k]), Run(s, events[..n]))
    decreases |events|
  {
    n := |events|;
    assert events[..n] == events;
    if events != [] {
      LastStep(s, events);
      var front := events[..n - 1];
      RunKeeps(s, front);
      StepSends(Run(s, front), events[n - 1]);
      if k <= |Run(s, front).emitted| {
        n := PrefixShown(s, front, k);
        assert front[..n] == events[..n];
        assert Run(s, events).emitted[..k] == Run(s, front).emitted[..k];
      } else {
        StepKeeps(Run(s, front), events[n - 1]);
        assert Run(s, events).emitted[..k] == Run(s, events).emitted;
      }
    }
  }

  /** The deltas of the label scheduler are such updates: they keep the live tiles equal to the tiles of the
      quads on the GPU. */
  lemma DeltaEnables(s: State, before: set<TileId>, after: set<TileId>, updated: seq<PoiTile>, removed: seq<TileId>)
    requires Inv(s) && s.live.Keys == Quads.ChildrenOf(before)
    requires Streaming.Describes(Streaming.PerTile, before, after, Streaming.Delta(removed, TileIdsOf(updated)))
    ensures Enabled(s, NewQuads(updated, removed))
    ensures Step(s, NewQuads(updated, removed)).live.Keys == Quads.ChildrenOf(after)
  {
    Streaming.DeltaApplies(Streaming.PerTile, before, after, Streaming.Delta(removed, TileIdsOf(updated)));
    Quads.ChildrenOfUnion(after - before, before - after);
    QuadsKeep(s, updated, removed);
  }

  /** The filter's events when its updates are the given deltas, in order, interleaved with anything else. */
  ghost predicate Feeds(deltas: seq<Streaming.Delta>, s: State, events: seq<Event>)
    decreases |events|
  {
    events != [] ==>
      match events[0]
      case NewQuads(updated, removed) =>
        && deltas != [] && deltas[0] == Streaming.Delta(removed, TileIdsOf(updated))
        && Feeds(deltas[1..], Step(s, events[0]), events[1..])
      case _ =>
        Enabled(s, events[0]) && Feeds(deltas, Step(s, events[0]), events[1..])
  }

  /** Other events leave the live tiles alone. */
  lemma LiveKept(s: State, e: Event)
    requires !e.NewQuads?
    ensures Step(s, e).live == s.live
  {
  }

  /** Deltas that chain up are legal updates, however they are interleaved, and the live tiles follow the quads. */
  lemma {:induction false} FeedsLegal(history: seq<set<TileId>>, deltas: seq<Streaming.Delta>, s: State,
                                      events: seq<Event>)
      returns (k: nat)
    requires StreamRuns.Chained(Streaming.PerTile, history, deltas)
    requires Inv(s) && s.live.Keys == Quads.ChildrenOf(history[0]) && Feeds(deltas, s, events)
    ensures Legal(s, events) && k < |history| && Run(s, events).live.Keys == Quads.ChildrenOf(history[k])
    decreases |events|
  {
    k := 0;
    if events != [] {
      var e, q, rest := events[0], Step(s, events[0]), events[1..];
      if e.NewQuads? {
        StreamRuns.ChainedTail(Streaming.PerTile, history, deltas);
        DeltaEnables(s, history[0], history[1], e.updated, e.removed);
        StepKeeps(s, e);
        var l := FeedsLegal(history[1..], deltas[1..], q, rest);
        k := l + 1;
      } else {
        LiveKept(s, e);
        StepKeeps(s, e);
        k := FeedsLegal(history, deltas, q, rest);
      }
    }
  }

  /** A filter fed with the deltas of any streaming run, in order, only ever sees legal events; its live tiles are
      those of the quads that were on the GPU at some time, and the view shows exactly them. */
  lemma FedByRun(maxLimit: nat, size: nat, worlds: seq<Streaming.World>, updates: seq<Streaming.Event>,
                 s: State, events: seq<Event>) returns (j: nat)
    requires StreamRuns.IsRun(Streaming.PerTile, maxLimit, size, worlds, updates)
    requires Start(s) && Feeds(StreamRuns.Sent(updates), s, events)
    ensures Legal(s, events) && Inv(Run(s, events))
    ensures j < |worlds| && Run(s, events).live.Keys == Quads.ChildrenOf(worlds[j].gpu.Keys)
  {
    var n := |updates|;
    StreamRuns.RunChained(Streaming.PerTile, maxLimit, size, worlds, updates, n);
    assert updates[..n] == updates;
    assert Quads.ChildrenOf({}) == {};
    var k := FeedsLegal(worlds[n].history, StreamRuns.Sent(updates), s, events);
    j := StreamRuns.HistoryIsPast(Streaming.PerTile, maxLimit, size, worlds, updates, n, k);
    RunKeeps(s, events);
  }

  // ---- the objects ----------------------------------------------------------------------------

  class LabelFilterObject {
    var allPois: View
    var tilesToFilter: seq<TileId>
    var removedTiles: seq<TileId>
    var definitions: FilterDefinitions
    var filterShouldRun: bool
    var timerActive: bool
    ghost var emitted: seq<Message>

    ghost function Abs(): State
      reads this
    {
      State(allPois, tilesToFilter, removedTiles, definitions, filterShouldRun, timerActive, emitted)
    }

    /** The run flag is left uninitialised, as in the source; no handler reads it before one sets it. */
    constructor (definitions: FilterDefinitions, uninitialised: bool)
      ensures Start(Abs())
    {
      allPois, tilesToFilter, removedTiles, this.definitions := map[], [], [], definitions;
      filterShouldRun, timerActive, emitted := uninitialised, false, [];
    }

    /** Queues every live tile, in the order in which the map lists them. */
    method QueueAll() returns (ghost order: seq<TileId>)
      modifies this`tilesToFilter
      ensures NoDup(order) && Elems(order) == allPois.Keys && tilesToFilter == old(tilesToFilter) + order
    {
      var remaining := allPois.Keys;
      order := [];
      while remaining != {}
        invariant remaining <= allPois.Keys && NoDup(order) && Elems(order) == allPois.Keys - remaining
        invariant tilesToFilter == old(tilesToFilter) + order
        decreases remaining
      {
        var id :| id in remaining;
        tilesToFilter := tilesToFilter + [id];
        ElemsOne(id);
        NoDupConcat(order, [id]);
        order := order + [id];
        remaining := remaining - {id};
      }
    }

    method UpdateFilter(filterDefinitions: FilterDefinitions) returns (ghost order: seq<TileId>)
      modifies this
      ensures NoDup(order) && Elems(order) == allPois.Keys
      ensures definitions == filterDefinitions && timerActive && filterShouldRun == old(timerActive)
      ensures |emitted| == |old(emitted)| + if old(timerActive) then 0 else 1
      ensures tilesToFilter == if old(timerActive) then old(tilesToFilter) + order else []
      ensures Abs() == WithDefinitions(old(Abs()), filterDefinitions, order)
    {
      definitions := filterDefinitions;
      order := QueueAll();
      if !timerActive {
        timerActive := true;
        filterShouldRun := true;
        var message := RunFilter();
      } else {
        filterShouldRun := true;
      }
    }

    method RemovePois(ids: seq<TileId>)
      modifies this`allPois
      ensures allPois == old(allPois) - Elems(ids)
    {
      for i := 0 to |ids|
        invariant allPois == old(allPois) - Elems(ids[..i])
      {
        assert ids[..i + 1] == ids[..i] + [ids[i]];
        ElemsConcat(ids[..i], [ids[i]]);
        ElemsOne(ids[i]);
        if ids[i] in allPois {
          allPois := allPois - {ids[i]};
        }
      }
      assert ids[..|ids|] == ids;
    }

    method AddPois(tiles: seq<PoiTile>)
      modifies this`allPois, this`tilesToFilter
      ensures allPois == AddTiles(old(allPois), tiles)
      ensures tilesToFilter == old(tilesToFilter) + TileIdsOf(tiles)
    {
      ghost var ids := TileIdsOf(tiles);
      for i := 0 to |tiles|
        invariant tilesToFilter == old(tilesToFilter) + ids[..i]
        invariant AddTiles(allPois, tiles[i..]) == AddTiles(old(allPois), tiles)
      {
        assert ids[..i + 1] == ids[..i] + [tiles[i].id];
        assert tiles[i..][1..] == tiles[i + 1..];
        tilesToFilter := tilesToFilter + [tiles[i].id];
        allPois := allPois[tiles[i].id := tiles[i].data];
      }
      assert ids[..|tiles|] == ids;
    }

    method UpdateQuads(updatedTiles: seq<PoiTile>, removedIds: seq<TileId>)
      modifies this
      ensures removedTiles == removedIds && tilesToFilter == [] && |emitted| == |old(emitted)| + 1
      ensures emitted[|emitted| - 1].removed == removedIds
      ensures Abs() == WithQuads(old(Abs()), updatedTiles, removedIds)
    {
      removedTiles := removedIds;
      RemovePois(removedIds);
      AddPois(updatedTiles);
      filterShouldRun := true;
      var message := RunFilter();
    }

    method TimerTimeout()
      requires timerActive
      modifies this
      ensures Abs() == Timeout(old(Abs()))
    {
      timerActive := false;
      var message := RunFilter();
    }

    /** Drains the queue; tiles removed in the meantime are skipped. */
    method DrainQueue() returns (filteredTiles: seq<PoiTile>)
      modifies this`tilesToFilter
      ensures tilesToFilter == [] && filteredTiles == Refilter(allPois, definitions, old(tilesToFilter))
    {
      ghost var all := Refilter(allPois, definitions, tilesToFilter);
      filteredTiles := [];
      while tilesToFilter != []
        invariant filteredTiles + Refilter(allPois, definitions, tilesToFilter) == all
        decreases |tilesToFilter|
      {
        RefilterNext(allPois, definitions, tilesToFilter, filteredTiles);
        var tileId := tilesToFilter[0];
        tilesToFilter := tilesToFilter[1..];
        if tileId in allPois {
          filteredTiles := filteredTiles + [PoiTile(tileId, ApplyFilter(definitions, allPois[tileId]))];
        }
      }
      assert filteredTiles + [] == filteredTiles;
    }

    method RunFilter() returns (message: seq<Message>)
      modifies this
      ensures Abs() == Filter(old(Abs())) && emitted == old(emitted) + message
    {
      if !filterShouldRun {
        return [];
      }
      filterShouldRun := false;
      var filteredTiles := DrainQueue();
      message := [Message(filteredTiles, removedTiles)];
      emitted := emitted + message;
    }
  }

  /** The label manager on the render thread: the labels on the GPU and the tiles offered for drawing. */
  class MapLabels {
    var gpuTiles: View
    var available: set<TileId>

    constructor ()
      ensures gpuTiles == map[] && available == {}
    {
      gpuTiles, available := map[], {};
    }

    method UpdateLabels(m: Message)
      modifies this
      ensures gpuTiles == Receive(old(gpuTiles), m)
      ensures old(available) == old(gpuTiles).Keys ==> available == gpuTiles.Keys
    {
      for i := 0 to |m.removed|
        invariant gpuTiles == old(gpuTiles) - Elems(m.removed[..i])
        invariant old(available) == old(gpuTiles).Keys ==> available == gpuTiles.Keys
      {
        assert m.removed[..i + 1] == m.removed[..i] + [m.removed[i]];
        ElemsConcat(m.removed[..i], [m.removed[i]]);
        ElemsOne(m.removed[i]);
        gpuTiles := gpuTiles - {m.removed[i]};
        available := available - {m.removed[i]};
      }
      assert m.removed[..|m.removed|] == m.removed;
      ghost var kept := gpuTiles;
      for i := 0 to |m.updated|
        invariant ShowUpdated(gpuTiles, m.updated[i..]) == ShowUpdated(kept, m.updated)
        invariant old(available) == old(gpuTiles).Keys ==> available == gpuTiles.Keys
      {
        assert m.updated[i..][1..] == m.updated[i + 1..];
        ghost var before := gpuTiles;
        gpuTiles := gpuTiles - {m.updated[i].id};
        gpuTiles := gpuTiles[m.updated[i].id := m.updated[i].data];
        available := available + {m.updated[i].id};
        assert gpuTiles == before[m.updated[i].id := m.updated[i].data];
      }
    }
  }
}
