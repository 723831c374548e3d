/** From a camera to the GPU: what is missing is requested, assembled, cached and shown. The scheduler composed with the
    request pipeline (nucleus/tile/Scheduler.cpp, wired as in nucleus/tile/setup.h). */
module Fetching {
  import opened Tiles
  import opened Traversal
  import opened Entries
  import opened Quads
  import opened Residency
  import opened Schedulers
  import opened Draining
  import P = Pipeline

  // ---- nothing requested is lost ----------------------------------------------------------------

  /** A slot, the queue or a delivery after the first n accounts for the id. */
  ghost predicate Accounted(p: P.Pipe, n: nat, id: TileId)
    requires n <= |p.delivered|
  {
    id in p.inFlight || id in p.waiting || id in Ids(p.delivered[n..])
  }

  /** Whatever p has under way, q has under way or has delivered since. */
  ghost predicate Carries(p: P.Pipe, q: P.Pipe) {
    && p.delivered <= q.delivered
    && forall id :: id in p.inFlight || id in p.waiting ==> Accounted(q, |p.delivered|, id)
  }

  lemma IdsFrom(delivered: seq<DataQuad>, more: seq<DataQuad>, n: nat, k: nat)
    requires delivered <= more && n <= k <= |delivered|
    ensures forall id :: id in Ids(delivered[n..]) ==> id in Ids(more[n..])
    ensures forall id :: id in Ids(more[k..]) ==> id in Ids(more[n..])
  {
    forall id | id in Ids(delivered[n..])
      ensures id in Ids(more[n..])
    {
      var i :| 0 <= i < |delivered| - n && Ids(delivered[n..])[i] == id;
      assert Ids(more[n..])[i] == id;
    }
    forall id | id in Ids(more[k..])
      ensures id in Ids(more[n..])
    {
      var i :| 0 <= i < |more| - k && Ids(more[k..])[i] == id;
      assert Ids(more[n..])[i + k - n] == id;
    }
  }

  lemma CarriesTransitive(p: P.Pipe, q: P.Pipe, r: P.Pipe)
    requires Carries(p, q) && Carries(q, r)
    ensures Carries(p, r)
  {
    IdsFrom(q.delivered, r.delivered, |p.delivered|, |q.delivered|);
  }

  lemma SlotsCarry(p: P.Pipe, q: P.Pipe)
    requires p.delivered == q.delivered
    requires forall id :: id in p.inFlight || id in p.waiting ==> id in q.inFlight || id in q.waiting
    ensures Carries(p, q)
  {
  }

  lemma RequestOneCarries(p: P.Pipe, id: TileId, now: nat) returns (q: P.Pipe)
    ensures q == P.RequestOne(p, id, now) && Carries(p, q) && q.delivered == p.delivered
    ensures id in q.inFlight || id in q.waiting
  {
    q := P.RequestOne(p, id, now);
    if id !in p.inFlight && |p.inFlight| < p.limit {
      P.RequestQuadFrame(p.(inFlight := p.inFlight + {id}, accepted := p.accepted + [id]), id, now);
    }
    SlotsCarry(p, q);
  }

  lemma {:induction false} RequestEachCarries(p: P.Pipe, ids: seq<TileId>, times: seq<nat>)
    requires |ids| == |times|
    ensures var q := P.RequestEach(p, ids, times);
      Carries(p, q) && q.delivered == p.delivered && forall id :: id in ids ==> Accounted(q, |p.delivered|, id)
    decreases |ids|
  {
    if ids == [] {
      SlotsCarry(p, p);
    } else {
      var q := RequestOneCarries(p, ids[0], times[0]);
      var r := P.RequestEach(q, ids[1..], times[1..]);
      RequestEachCarries(q, ids[1..], times[1..]);
      CarriesTransitive(p, q, r);
      assert ids == [ids[0]] + ids[1..];
    }
  }

  lemma TimerCarries(p: P.Pipe, now: nat)
    ensures Carries(p, P.Process(p.(timer := false), now))
  {
    P.EmitAllSlots(p.(timer := false, window := P.Prune(p.window, P.Threshold(now, p.period)), last := now), now);
    SlotsCarry(p, P.Process(p.(timer := false), now));
  }

  lemma FreedCarries(p: P.Pipe, quad: DataQuad)
    ensures Carries(p, p.(inFlight := p.inFlight - {quad.id}, delivered := p.delivered + [quad]))
  {
    var delivered := p.delivered + [quad];
    assert delivered[|p.delivered|..] == [quad];
    assert Ids([quad])[0] == quad.id;
  }

  lemma AcceptSlots(p: P.Pipe, id: TileId, now: nat) returns (q: P.Pipe)
    ensures q == P.Accept(p, id, now)
    ensures q.inFlight == p.inFlight + {id} && q.waiting == p.waiting && q.delivered == p.delivered
  {
    var r := p.(inFlight := p.inFlight + {id}, accepted := p.accepted + [id]);
    q := P.RequestQuad(r, id, now);
    P.RequestQuadFrame(r, id, now);
  }

  lemma HeadMoves(p: P.Pipe, q: P.Pipe)
    requires p.waiting != [] && q.inFlight == p.inFlight + {p.waiting[0]} && q.waiting == p.waiting[1..]
    requires q.delivered == p.delivered
    ensures Carries(p, q)
  {
    assert p.waiting == [p.waiting[0]] + p.waiting[1..];
    SlotsCarry(p, q);
  }

  lemma RefilledCarries(p: P.Pipe, now: nat) returns (q: P.Pipe)
    requires p.waiting != []
    ensures q == P.Accept(p, p.waiting[0], now).(waiting := p.waiting[1..])
    ensures Carries(p, q) && q.delivered == p.delivered
  {
    var r := AcceptSlots(p, p.waiting[0], now);
    q := r.(waiting := p.waiting[1..]);
    HeadMoves(p, q);
  }

  /** A delivered quad leaves its slot and is counted as delivered; the first one waiting takes the slot. */
  lemma DeliverCarries(p: P.Pipe, quad: DataQuad, now: nat)
    ensures var q := P.DeliverQuad(p, quad, now);
      Carries(p, q) && q.delivered == p.delivered + [quad]
  {
    var freed := p.(inFlight := p.inFlight - {quad.id}, delivered := p.delivered + [quad]);
    FreedCarries(p, quad);
    if p.waiting != [] {
      var q := RefilledCarries(freed, now);
      CarriesTransitive(p, freed, q);
    }
  }

  lemma ReplyCarries(p: P.Pipe, tile: Tile, at: nat)
    requires P.Inv(p) && tile.id in p.network
    ensures Carries(p, P.DeliverTile(p, tile, at))
  {
    P.ReplyExpected(p, tile);
    var quad := p.quads[Parent(tile.id)];
    if quad.body.nTiles < 3 {
      P.ReplyStored(p, tile, at);
      SlotsCarry(p, P.DeliverTile(p, tile, at));
    } else {
      P.FourthTile(p, tile, at, quad);
      var filled := P.WithTile(quad, tile);
      var q := p.(quads := p.quads[quad.id := filled], network := p.network - multiset{tile.id});
      DeliverCarries(q, filled, at);
      SlotsCarry(p, q);
      CarriesTransitive(p, q, P.DeliverQuad(q, filled, at));
    }
  }

  lemma QuietCarries(p: P.Pipe, e: P.Event)
    requires P.Inv(p) && QuietEvent(p, e)
    ensures Carries(p, P.Step(p, e))
  {
    match e
    case Timer(now) => TimerCarries(p, now);
    case Reply(tile, at) => ReplyCarries(p, tile, at);
  }

  lemma {:induction false} QuietRunCarries(p: P.Pipe, events: seq<P.Event>)
    requires P.Inv(p) && p.rate >= 1 && QuietRun(p, events)
    ensures Carries(p, P.Run(p, events))
    decreases |events|
  {
    if events == [] {
      SlotsCarry(p, p);
    } else {
      var q := P.Step(p, events[0]);
      QuietCarries(p, events[0]);
      QuietRank(p, events[0]);
      QuietRunCarries(q, events[1..]);
      CarriesTransitive(p, q, P.Run(q, events[1..]));
    }
  }

  // ---- good replies make good quads -------------------------------------------------------------

  type Quality = Tile -> bool

  /** The first n tiles of an array of four are good. */
  ghost predicate GoodTiles(tiles: FourTiles, n: nat, good: Quality) {
    forall j :: 0 <= j < n && j < 4 ==> good(tiles[j])
  }

  ghost predicate ArrivedGood(quads: map<TileId, DataQuad>, good: Quality) {
    forall id :: id in quads ==> GoodTiles(quads[id].body.tiles, quads[id].body.nTiles, good)
  }

  ghost predicate DeliveredGood(delivered: seq<DataQuad>, n: nat, good: Quality) {
    forall i :: n <= i < |delivered| ==> GoodTiles(delivered[i].body.tiles, 4, good)
  }

  /** What has arrived for quads under assembly is good, and so is what was delivered after the first n. */
  ghost predicate GoodSince(p: P.Pipe, n: nat, good: Quality) {
    ArrivedGood(p.quads, good) && DeliveredGood(p.delivered, n, good)
  }

  ghost predicate GoodReplies(events: seq<P.Event>, good: Quality) {
    forall i :: 0 <= i < |events| && events[i].Reply? ==> good(events[i].tile)
  }

  lemma LoadGood(quads: map<TileId, DataQuad>, id: TileId, good: Quality)
    requires ArrivedGood(quads, good)
    ensures ArrivedGood(quads[id := P.QuadAt(quads, id).(id := id)], good)
  {
  }

  lemma {:induction false} EmitAllGood(p: P.Pipe, now: nat, good: Quality)
    requires ArrivedGood(p.quads, good)
    ensures ArrivedGood(P.EmitAll(p, now).quads, good)
    decreases |p.queue|
  {
    if p.queue != [] && |p.window| < p.rate {
      LoadGood(p.quads, p.queue[0], good);
      EmitAllGood(P.EmitOne(p, now), now, good);
    }
  }

  lemma ProcessGood(p: P.Pipe, now: nat, good: Quality)
    requires ArrivedGood(p.quads, good)
    ensures ArrivedGood(P.Process(p, now).quads, good)
  {
    EmitAllGood(p.(window := P.Prune(p.window, P.Threshold(now, p.period)), last := now), now, good);
  }

  lemma RequestOneGood(p: P.Pipe, id: TileId, now: nat, good: Quality) returns (q: P.Pipe)
    requires ArrivedGood(p.quads, good)
    ensures q == P.RequestOne(p, id, now) && ArrivedGood(q.quads, good) && q.delivered == p.delivered
  {
    q := P.RequestOne(p, id, now);
    P.RequestQuadFrame(p.(inFlight := p.inFlight + {id}, accepted := p.accepted + [id]), id, now);
    ProcessGood(p.(inFlight := p.inFlight + {id}, accepted := p.accepted + [id], queue := p.queue + [id]), now, good);
  }

  lemma {:induction false} RequestEachGood(p: P.Pipe, ids: seq<TileId>, times: seq<nat>, good: Quality)
    requires |ids| == |times| && ArrivedGood(p.quads, good)
    ensures ArrivedGood(P.RequestEach(p, ids, times).quads, good)
    ensures P.RequestEach(p, ids, times).delivered == p.delivered
    decreases |ids|
  {
    if ids != [] {
      var q := RequestOneGood(p, ids[0], times[0], good);
      RequestEachGood(q, ids[1..], times[1..], good);
    }
  }

  lemma FilledGood(quad: DataQuad, tile: Tile, good: Quality)
    requires quad.body.nTiles < 4 && GoodTiles(quad.body.tiles, quad.body.nTiles, good) && good(tile)
    ensures GoodTiles(P.WithTile(quad, tile).body.tiles, quad.body.nTiles + 1, good)
  {
  }

  lemma AppendGood(delivered: seq<DataQuad>, quad: DataQuad, n: nat, good: Quality)
    requires DeliveredGood(delivered, n, good) && GoodTiles(quad.body.tiles, 4, good)
    ensures DeliveredGood(delivered + [quad], n, good)
  {
  }

  lemma AcceptGood(p: P.Pipe, id: TileId, now: nat, good: Quality) returns (q: P.Pipe)
    requires ArrivedGood(p.quads, good)
    ensures q == P.Accept(p, id, now) && ArrivedGood(q.quads, good)
  {
    q := P.Accept(p, id, now);
    ProcessGood(p.(inFlight := p.inFlight + {id}, accepted := p.accepted + [id], queue := p.queue + [id]), now, good);
  }

  lemma DeliverGood(p: P.Pipe, quad: DataQuad, now: nat, n: nat, good: Quality)
    requires GoodSince(p, n, good) && GoodTiles(quad.body.tiles, 4, good)
    ensures GoodSince(P.DeliverQuad(p, quad, now), n, good)
  {
    var freed := p.(inFlight := p.inFlight - {quad.id}, delivered := p.delivered + [quad]);
    DeliverCarries(p, quad, now);
    AppendGood(p.delivered, quad, n, good);
    if p.waiting != [] {
      var q := AcceptGood(freed, p.waiting[0], now, good);
    }
  }

  lemma ReplyGood(p: P.Pipe, tile: Tile, at: nat, n: nat, good: Quality)
    requires P.Inv(p) && tile.id in p.network && GoodSince(p, n, good) && good(tile)
    ensures GoodSince(P.DeliverTile(p, tile, at), n, good)
  {
    P.ReplyExpected(p, tile);
    var quad := p.quads[Parent(tile.id)];
    var filled := P.WithTile(quad, tile);
    FilledGood(quad, tile, good);
    var q := p.(quads := p.quads[quad.id := filled], network := p.network - multiset{tile.id});
    if quad.body.nTiles < 3 {
      P.ReplyStored(p, tile, at);
    } else {
      P.FourthTile(p, tile, at, quad);
      DeliverGood(q, filled, at, n, good);
      ErasedGood(P.DeliverQuad(q, filled, at).quads, quad.id, good);
    }
  }

  lemma ErasedGood(quads: map<TileId, DataQuad>, id: TileId, good: Quality)
    requires ArrivedGood(quads, good)
    ensures ArrivedGood(quads - {id}, good)
  {
  }

  lemma TimerGood(p: P.Pipe, now: nat, n: nat, good: Quality)
    requires GoodSince(p, n, good)
    ensures GoodSince(P.Process(p.(timer := false), now), n, good)
  {
    ProcessGood(p.(timer := false), now, good);
    P.EmitAllSlots(p.(timer := false, window := P.Prune(p.window, P.Threshold(now, p.period)), last := now), now);
  }

  lemma QuietGood(p: P.Pipe, e: P.Event, n: nat, good: Quality)
    requires P.Inv(p) && QuietEvent(p, e) && GoodSince(p, n, good) && (e.Reply? ==> good(e.tile))
    ensures GoodSince(P.Step(p, e), n, good)
  {
    match e
    case Timer(now) => TimerGood(p, now, n, good);
    case Reply(tile, at) => ReplyGood(p, tile, at, n, good);
  }

  lemma GoodRest(events: seq<P.Event>, good: Quality)
    requires GoodReplies(events, good) && events != []
    ensures (events[0].Reply? ==> good(events[0].tile)) && GoodReplies(events[1..], good)
  {
  }

  lemma {:induction false} QuietRunGood(p: P.Pipe, events: seq<P.Event>, n: nat, good: Quality)
    requires P.Inv(p) && p.rate >= 1 && QuietRun(p, events) && GoodReplies(events, good) && GoodSince(p, n, good)
    ensures GoodSince(P.Run(p, events), n, good)
    decreases |events|
  {
    if events != [] {
      GoodRest(events, good);
      QuietGood(p, events[0], n, good);
      QuietRank(p, events[0]);
      QuietRunGood(P.Step(p, events[0]), events[1..], n, good);
    }
  }

  lemma StepGood(p: P.Pipe, e: P.Event, n: nat, good: Quality)
    requires P.Inv(p) && P.Enabled(p, e) && GoodSince(p, n, good) && (e.Reply? ==> good(e.tile))
    ensures GoodSince(P.Step(p, e), n, good)
  {
    match e
    case Request(ids, times) => RequestEachGood(p.(waiting := []), ids, times, good);
    case Timer(now) => TimerGood(p, now, n, good);
    case Reply(tile, at) => ReplyGood(p, tile, at, n, good);
  }

  lemma {:induction false} RunGood(p: P.Pipe, events: seq<P.Event>, n: nat, good: Quality)
    requires P.Inv(p) && P.Legal(p, events) && GoodReplies(events, good) && GoodSince(p, n, good)
    ensures GoodSince(P.Run(p, events), n, good)
    decreases |events|
  {
    if events != [] {
      GoodRest(events, good);
      StepGood(p, events[0], n, good);
      P.StepKeeps(p, events[0]);
      RunGood(P.Step(p, events[0]), events[1..], n, good);
    }
  }

  ghost predicate Answers(events: seq<P.Event>, j: nat, tile: Tile)
    requires j < |events|
  {
    events[j].Reply? && events[j].tile == tile
  }

  /** In every run each tile of each delivered quad is, unchanged, the tile of one of the replies. */
  lemma DeliveredAsReplied(p: P.Pipe, events: seq<P.Event>, i: nat, k: nat)
    requires P.Start(p) && P.Legal(p, events) && i < |P.Run(p, events).delivered| && k < 4
    ensures exists j: nat :: j < |events| && Answers(events, j, P.Run(p, events).delivered[i].body.tiles[k])
  {
    ghost var good: Quality := tile => exists j: nat :: j < |events| && Answers(events, j, tile);
    forall j | 0 <= j < |events| && events[j].Reply?
      ensures good(events[j].tile)
    {
      assert Answers(events, j, events[j].tile);
    }
    P.StartInv(p);
    RunGood(p, events, 0, good);
    assert good(P.Run(p, events).delivered[i].body.tiles[k]);
  }

  // ---- a request, answered ----------------------------------------------------------------------

  /** From p, the ids are requested, and the run goes on without further requests until the pipeline is drained. */
  ghost predicate Answered(p: P.Pipe, ids: seq<TileId>, times: seq<nat>, events: seq<P.Event>, q: P.Pipe) {
    && P.Inv(p) && p.rate >= 1 && P.Enabled(p, P.Request(ids, times))
    && var asked := P.Step(p, P.Request(ids, times));
       QuietRun(asked, events) && q == P.Run(asked, events) && Drained(q)
  }

  lemma Asked(p: P.Pipe, ids: seq<TileId>, times: seq<nat>, good: Quality) returns (q: P.Pipe)
    requires P.Inv(p) && P.Enabled(p, P.Request(ids, times)) && ArrivedGood(p.quads, good)
    ensures q == P.Step(p, P.Request(ids, times)) && P.Inv(q) && P.SameLimits(p, q)
    ensures q.delivered == p.delivered && forall id :: id in ids ==> Accounted(q, |p.delivered|, id)
    ensures GoodSince(q, |p.delivered|, good)
  {
    var cleared := p.(waiting := []);
    q := P.RequestEach(cleared, ids, times);
    RequestEachCarries(cleared, ids, times);
    RequestEachGood(cleared, ids, times, good);
    P.StepKeeps(p, P.Request(ids, times));
    P.StepLimits(p, P.Request(ids, times));
  }

  lemma DrainedDelivers(p: P.Pipe, q: P.Pipe, ids: seq<TileId>)
    requires Carries(p, q) && q.inFlight == {} && q.waiting == []
    requires forall id :: id in ids ==> Accounted(p, |p.delivered|, id)
    ensures forall id :: id in ids ==> id in Ids(q.delivered[|p.delivered|..])
  {
    assert p.delivered[|p.delivered|..] == [];
  }

  /** Then every requested id has been delivered, and with good replies only good quads have been. */
  lemma AnswersRequest(p: P.Pipe, ids: seq<TileId>, times: seq<nat>, events: seq<P.Event>, q: P.Pipe, good: Quality)
    requires Answered(p, ids, times, events, q)
    requires GoodReplies(events, good) && ArrivedGood(p.quads, good)
    ensures p.delivered <= q.delivered
    ensures forall id :: id in ids ==> id in Ids(q.delivered[|p.delivered|..])
    ensures DeliveredGood(q.delivered, |p.delivered|, good)
  {
    var asked := Asked(p, ids, times, good);
    QuietRunCarries(asked, events);
    QuietRunGood(asked, events, |p.delivered|, good);
    DrainedDelivers(asked, q, ids);
  }

  // ---- the RAM cache ----------------------------------------------------------------------------

  ghost function Contents(m: RamStore): map<TileId, DataQuad> {
    map id | id in m :: m[id].data
  }

  ghost function ReceiveOne(c: map<TileId, DataQuad>, quad: DataQuad): map<TileId, DataQuad> {
    if Joined(quad).status.NetworkError? then c else c[quad.id := quad]
  }

  /** What receiving the quads in turn makes of the cached quads. */
  ghost function ReceiveAll(c: map<TileId, DataQuad>, quads: seq<DataQuad>): map<TileId, DataQuad>
    decreases |quads|
  {
    if quads == [] then c else ReceiveOne(ReceiveAll(c, quads[..|quads| - 1]), quads[|quads| - 1])
  }

  /** This is what `receive_quad` does, whatever the stamps. */
  lemma ReceiveContents(m: RamStore, quad: DataQuad, now: Msecs)
    ensures Contents(if Joined(quad).status.NetworkError? then m else m[quad.id := Fresh(quad, now)])
         == ReceiveOne(Contents(m), quad)
  {
  }

  /** A tile that arrived in full and does not retire before `now`. */
  ghost function StillGood(age: nat, now: nat): Quality {
    (tile: Tile) => tile.networkInfo.status.Good? && tile.networkInfo.timestamp + age > now
  }

  ghost predicate GoodQuad(quad: DataQuad, age: nat, now: nat) {
    Joined(quad).status.Good? && Joined(quad).timestamp + age > now
  }

  lemma GoodTilesJoin(quad: DataQuad, age: nat, now: nat)
    requires GoodTiles(quad.body.tiles, 4, StillGood(age, now))
    ensures GoodQuad(quad, age, now)
  {
    var t, good := quad.body.tiles, StillGood(age, now);
    assert good(t[0]) && good(t[1]) && good(t[2]) && good(t[3]);
  }

  /** Good quads are all kept, and nothing else changes. */
  lemma {:induction false} ReceivedGood(c: map<TileId, DataQuad>, quads: seq<DataQuad>, age: nat, now: nat)
    requires forall q :: q in quads ==> GoodQuad(q, age, now)
    ensures var r := ReceiveAll(c, quads);
      && (forall id :: id in Ids(quads) ==> id in r && GoodQuad(r[id], age, now))
      && (forall id :: id in r && id !in Ids(quads) ==> id in c && r[id] == c[id])
      && (forall id :: id in c ==> id in r)
    decreases |quads|
  {
    if quads == [] {
      assert Ids(quads) == [];
    } else {
      var front, last := quads[..|quads| - 1], quads[|quads| - 1];
      assert quads == front + [last];
      assert forall q :: q in front ==> q in quads;
      assert last in quads;
      ReceivedGood(c, front, age, now);
      assert Ids(quads) == Ids(front) + [last.id];
    }
  }

  lemma DeliveredQuadsGood(delivered: seq<DataQuad>, n: nat, age: nat, now: nat)
    requires n <= |delivered| && DeliveredGood(delivered, n, StillGood(age, now))
    ensures forall q :: q in delivered[n..] ==> GoodQuad(q, age, now)
  {
    forall q | q in delivered[n..]
      ensures GoodQuad(q, age, now)
    {
      var i :| 0 <= i < |delivered| - n && delivered[n..][i] == q;
      assert delivered[n + i] == q;
      GoodTilesJoin(q, age, now);
    }
  }

  // ---- from the camera to the GPU ---------------------------------------------------------------

  /** The request is what the scheduler misses at `t0`. */
  ghost predicate RequestsMissing(m: RamStore, refine: Refine, age: nat, t0: Msecs, ids: seq<TileId>) {
    forall id :: id in ids <==> Missing(m, refine, age, t0, id)
  }

  /** Afterwards the RAM cache holds what was delivered; its stamps may have changed. */
  ghost predicate Cached(m: RamStore, p: P.Pipe, q: P.Pipe, m': RamStore)
    requires |p.delivered| <= |q.delivered|
  {
    WellKeyed(m') && Contents(m') == ReceiveAll(Contents(m), q.delivered[|p.delivered|..])
  }

  /** No cached quad retires between `t0` and `now`. */
  ghost predicate NoneRetires(m: RamStore, age: nat, t0: Msecs, now: Msecs) {
    forall id :: id in m && Joined(m[id].data).timestamp + age > t0 ==> Joined(m[id].data).timestamp + age > now
  }

  lemma CachedQuads(m: RamStore, p: P.Pipe, q: P.Pipe, m': RamStore, age: nat, now: nat)
    requires |p.delivered| <= |q.delivered| && Cached(m, p, q, m')
    requires DeliveredGood(q.delivered, |p.delivered|, StillGood(age, now))
    ensures var news := Ids(q.delivered[|p.delivered|..]);
      && (forall id :: id in m || id in news ==> id in m')
      && (forall id :: id in m' && id in news ==> GoodQuad(m'[id].data, age, now))
      && (forall id :: id in m' && id !in news ==> id in m && m'[id].data == m[id].data)
  {
    DeliveredQuadsGood(q.delivered, |p.delivered|, age, now);
    ReceivedGood(Contents(m), q.delivered[|p.delivered|..], age, now);
    assert m'.Keys == Contents(m').Keys && m.Keys == Contents(m).Keys;
    assert forall id :: id in m' ==> m'[id].data == Contents(m')[id];
  }

  /** With a fixed camera, good and fresh replies and no purge of the RAM cache, a drained run leaves nothing missing:
      every refined tile has a quad that is not retired. */
  lemma NothingMissing(m: RamStore, refine: Refine, age: nat, t0: Msecs, now: Msecs, p: P.Pipe, ids: seq<TileId>,
                       times: seq<nat>, events: seq<P.Event>, q: P.Pipe, m': RamStore)
    requires Answered(p, ids, times, events, q) && RequestsMissing(m, refine, age, t0, ids)
    requires GoodReplies(events, StillGood(age, now)) && ArrivedGood(p.quads, StillGood(age, now))
    requires |p.delivered| <= |q.delivered| && Cached(m, p, q, m') && NoneRetires(m, age, t0, now)
    ensures forall id :: !Missing(m', refine, age, now, id)
    ensures forall id :: Reach(Refined(refine), ROOT, id) ==> id in m'
    ensures forall id :: id in m' ==> GoodQuad(m'[id].data, age, now) || (id in m && m'[id].data == m[id].data)
  {
    AnswersRequest(p, ids, times, events, q, StillGood(age, now));
    CachedQuads(m, p, q, m', age, now);
    forall id | Reach(Refined(refine), ROOT, id)
      ensures id in m' && Joined(m'[id].data).timestamp + age > now
    {
      if id in ids {
        assert id in Ids(q.delivered[|p.delivered|..]);
      } else {
        assert !Missing(m, refine, age, t0, id);
      }
    }
  }

  lemma {:induction false} ReachWithin(good: iset<TileId>, other: iset<TileId>, node: TileId, id: TileId)
    requires Reach(good, node, id) && forall t :: Reach(good, node, t) ==> t in other
    ensures Reach(other, node, id)
    decreases id.zoom
  {
    if id != node {
      ReachWithin(good, other, node, Parent(id));
    }
  }

  /** Every quad of the cache may be shipped. */
  ghost predicate AllShippable(m: RamStore, isReady: DataQuad -> bool) {
    forall id :: id in m ==> isReady(m[id].data) && Joined(m[id].data).status.Good?
  }

  lemma AllSelected(m: RamStore, refine: Refine, isReady: DataQuad -> bool, id: TileId)
    requires WellKeyed(m) && AllShippable(m, isReady)
    requires (forall t :: Reach(Refined(refine), ROOT, t) ==> t in m) && Reach(Refined(refine), ROOT, id)
    ensures id in SelectedQuads(m, refine, isReady)
  {
    var other := Accepted(m, Shippable(refine, isReady));
    forall t | Reach(Refined(refine), ROOT, t)
      ensures t in other
    {
      assert t in Refined(refine);
    }
    ReachWithin(Refined(refine), other, ROOT, id);
  }

  /** And the next update of the GPU, if the refinable part fits, makes every refined tile's quad resident. */
  lemma CameraShown(m: RamStore, refine: Refine, isReady: DataQuad -> bool, limit: nat, gpu: GpuStore, last: Msecs,
                    now: Msecs, mid: GpuStore, gpu': GpuStore, selected: set<TileId>)
    requires WellKeyed(m) && AllShippable(m, isReady) && forall t :: Reach(Refined(refine), ROOT, t) ==> t in m
    requires selected == SelectedQuads(m, refine, isReady)
    requires GpuInv(gpu, last) && last < now && StopsAt(refine, 100)
    requires GpuUpdate(gpu, selected, refine, limit, now, mid, gpu') && |Refinable(mid, refine)| <= limit
    ensures forall id :: Reach(Refined(refine), ROOT, id) ==> id in gpu'
  {
    SelectedIsSelection(m, refine, isReady);
    FittingUpdateComplete(gpu, selected, refine, limit, last, now, mid, gpu');
    forall id | Reach(Refined(refine), ROOT, id)
      ensures id in gpu'
    {
      AllSelected(m, refine, isReady, id);
    }
  }

  lemma StillShippable(m: RamStore, m': RamStore, age: nat, now: nat, isReady: DataQuad -> bool)
    requires forall id :: id in m ==> Joined(m[id].data).status.Good?
    requires forall id :: id in m' ==> isReady(m'[id].data)
    requires forall id :: id in m' ==> GoodQuad(m'[id].data, age, now) || (id in m && m'[id].data == m[id].data)
    ensures AllShippable(m', isReady)
  {
  }

  /** From a request for what is missing to the screen. */
  lemma RequestedIsShown(m: RamStore, refine: Refine, age: nat, t0: Msecs, p: P.Pipe, ids: seq<TileId>,
                         times: seq<nat>, events: seq<P.Event>, q: P.Pipe, m': RamStore,
                         isReady: DataQuad -> bool, limit: nat, gpu: GpuStore, last: Msecs, now: Msecs,
                         mid: GpuStore, gpu': GpuStore, selected: set<TileId>)
    requires Answered(p, ids, times, events, q) && RequestsMissing(m, refine, age, t0, ids)
    requires GoodReplies(events, StillGood(age, now)) && ArrivedGood(p.quads, StillGood(age, now))
    requires |p.delivered| <= |q.delivered| && Cached(m, p, q, m') && NoneRetires(m, age, t0, now)
    requires forall id :: id in m ==> Joined(m[id].data).status.Good?
    requires forall id :: id in m' ==> isReady(m'[id].data)
    requires selected == SelectedQuads(m', refine, isReady)
    requires GpuInv(gpu, last) && last < now && StopsAt(refine, 100)
    requires GpuUpdate(gpu, selected, refine, limit, now, mid, gpu') && |Refinable(mid, refine)| <= limit
    ensures forall id :: Reach(Refined(refine), ROOT, id) ==> id in gpu'
  {
    NothingMissing(m, refine, age, t0, now, p, ids, times, events, q, m');
    StillShippable(m, m', age, now, isReady);
    CameraShown(m', refine, isReady, limit, gpu, last, now, mid, gpu', selected);
  }
}
