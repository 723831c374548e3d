/** The objects of the request pipeline, connected by synchronous signals; each handler follows the state machine
    (nucleus/tile/SlotLimiter.cpp, RateLimiter.cpp, QuadAssembler.cpp). */
module Limiters {
  import opened Seqs
  import opened Tiles
  import opened Entries
  import opened Quads
  import opened Pipeline

  /** The network: it answers every request once, later and in any order. */
  class TileLoadService {
    var pending: multiset<TileId>

    constructor ()
      ensures pending == multiset{}
    {
      pending := multiset{};
    }

    method Load(id: TileId)
      modifies this
      ensures pending == old(pending) + multiset{id}
    {
      pending := pending + multiset{id};
    }

    method Answer(id: TileId)
      requires id in pending
      modifies this
      ensures pending == old(pending) - multiset{id}
    {
      pending := pending - multiset{id};
    }
  }

  /** The scheduler's end of the pipeline. */
  class QuadReceiver {
    var delivered: seq<DataQuad>

    constructor ()
      ensures delivered == []
    {
      delivered := [];
    }

    method ReceiveQuad(quad: DataQuad)
      modifies this
      ensures delivered == old(delivered) + [quad]
    {
      delivered := delivered + [quad];
    }
  }

  class QuadAssembler {
    const service: TileLoadService
    var quads: map<TileId, DataQuad>

    constructor (service: TileLoadService)
      ensures this.service == service && quads == map[]
    {
      this.service := service;
      quads := map[];
    }

    ghost predicate Holds(p: Pipe)
      reads this, service
    {
      quads == p.quads && service.pending == p.network
    }

    method Load(id: TileId, ghost p: Pipe)
      requires Holds(p)
      modifies this, service
      ensures Holds(Pipeline.Load(p, id))
    {
      quads := quads[id := QuadAt(quads, id).(id := id)];
      ghost var loaded := quads;
      var children := Children(id);
      for k := 0 to 4
        invariant quads == loaded && service.pending == p.network + multiset(children[..k])
      {
        TakeNext(children, k);
        service.Load(children[k]);
      }
      assert children[..4] == children;
    }

    method StoreTile(tile: Tile, ghost p: Pipe)
      requires Holds(p) && tile.id in service.pending && QuadAt(quads, Parent(tile.id)).body.nTiles < 4
      modifies this, service
      ensures Holds(Stored(p, tile))
      ensures quads == old(quads)[Parent(tile.id) := WithTile(QuadAt(old(quads), Parent(tile.id)), tile)]
    {
      service.Answer(tile.id);
      var parent := Parent(tile.id);
      quads := quads[parent := WithTile(QuadAt(quads, parent), tile)];
    }

    /** Stores a tile; the fourth one completes the quad, which is passed on before it is erased. */
    method DeliverTile(tile: Tile, slotLimiter: SlotLimiter, ghost p: Pipe) returns (ghost now: nat, ghost q: Pipe)
      requires slotLimiter.rateLimiter.assembler == this && slotLimiter.Holds(p)
      requires Inv(p) && p.last <= slotLimiter.rateLimiter.clock.now && tile.id in service.pending
      modifies slotLimiter.Parts()
      ensures now == slotLimiter.rateLimiter.clock.now && old(slotLimiter.rateLimiter.clock.now) <= now
      ensures slotLimiter.Holds(q) && q == Pipeline.DeliverTile(p, tile, now)
    {
      ReplyIsDue(p, tile);
      now, q := DeliverDue(tile, slotLimiter, p);
    }

    /** A tile whose quad is under assembly. */
    method DeliverDue(tile: Tile, slotLimiter: SlotLimiter, ghost p: Pipe) returns (ghost now: nat, ghost q: Pipe)
      requires slotLimiter.rateLimiter.assembler == this && slotLimiter.Holds(p)
      requires ReplyDue(p, tile) && tile.id in service.pending
      modifies slotLimiter.Parts()
      ensures now == slotLimiter.rateLimiter.clock.now && old(slotLimiter.rateLimiter.clock.now) <= now
      ensures slotLimiter.Holds(q) && q == Pipeline.DeliverTile(p, tile, now)
    {
      var parent := Parent(tile.id);
      StoreTile(tile, p);
      now, q := slotLimiter.rateLimiter.clock.now, Stored(p, tile);
      if quads[parent].body.nTiles == 4 {
        now, q := PassOn(parent, slotLimiter, q);
        FourthTile(p, tile, now, p.quads[parent]);
      } else {
        ReplyStored(p, tile, now);
      }
    }

    /** Passes a quad on and then erases it under the id that it carries itself. */
    method PassOn(key: TileId, slotLimiter: SlotLimiter, ghost p: Pipe) returns (ghost now: nat, ghost q: Pipe)
      requires slotLimiter.rateLimiter.assembler == this && slotLimiter.Holds(p)
      requires key in quads && key !in p.queue && key !in p.waiting
      modifies slotLimiter.Parts()
      ensures now == slotLimiter.rateLimiter.clock.now && old(slotLimiter.rateLimiter.clock.now) <= now
      ensures slotLimiter.Holds(q) && q == Without(Pipeline.DeliverQuad(p, old(quads[key]), now), old(quads[key]).id)
    {
      now, q := slotLimiter.DeliverQuad(quads[key], p);
      EntryStays(p, p.quads[key], now, key);
      q := Without(q, p.quads[key].id);
      quads := quads - {quads[key].id};
    }
  }

  class RateLimiter {
    const assembler: QuadAssembler
    const clock: Clock
    const rate: nat
    const period: nat
    var requestQueue: seq<TileId>
    var inFlight: seq<nat>
    var timerActive: bool
    ghost var last: nat
    ghost var emitted: seq<Emission>

    constructor (assembler: QuadAssembler, clock: Clock, rate: nat, period: nat)
      ensures this.assembler == assembler && this.clock == clock && this.rate == rate && this.period == period
      ensures requestQueue == [] && inFlight == [] && !timerActive && last == clock.now && emitted == []
    {
      this.assembler, this.clock, this.rate, this.period := assembler, clock, rate, period;
      requestQueue, inFlight, timerActive := [], [], false;
      last, emitted := clock.now, [];
    }

    ghost predicate HoldsWindow(p: Pipe)
      reads this, assembler, assembler.service
    {
      && assembler.Holds(p)
      && rate == p.rate && period == p.period && inFlight == p.window && emitted == p.emitted
    }

    ghost predicate Holds(p: Pipe)
      reads this, assembler, assembler.service
    {
      HoldsWindow(p) && requestQueue == p.queue && timerActive == p.timer && last == p.last
    }

    method RequestQuad(id: TileId, ghost p: Pipe) returns (ghost now: nat)
      requires Holds(p)
      modifies this, clock, assembler, assembler.service
      ensures now == clock.now && old(clock.now) <= now && Holds(Pipeline.RequestQuad(p, id, now))
    {
      requestQueue := requestQueue + [id];
      now := ProcessRequestQueue(p.(queue := requestQueue));
    }

    /** The single-shot timer fires. */
    method Timeout(ghost p: Pipe) returns (ghost now: nat)
      requires Holds(p) && timerActive
      modifies this, clock, assembler, assembler.service
      ensures now == clock.now && old(clock.now) <= now && Holds(Step(p, Timer(now)))
    {
      timerActive := false;
      now := ProcessRequestQueue(p.(timer := false));
    }

    /** Lets one request through. */
    method EmitNext(id: TileId, currentMsecs: nat, ghost states: seq<Pipe>) returns (ghost p: Pipe)
      requires Emissions(states, currentMsecs) && HoldsWindow(states[|states| - 1])
      requires var p := states[|states| - 1]; p.queue != [] && p.queue[0] == id && |p.window| < p.rate
      modifies this`inFlight, this`emitted, assembler, assembler.service
      ensures HoldsWindow(p) && p.queue == states[|states| - 1].queue[1..] && Emissions(states + [p], currentMsecs)
    {
      ghost var before := states[|states| - 1];
      inFlight := inFlight + [currentMsecs];
      emitted := emitted + [Emission(id, currentMsecs)];
      assembler.Load(id, before.(queue := before.queue[1..], window := inFlight, emitted := emitted));
      p := EmitOne(before, currentMsecs);
      EmissionsAppend(states, before, p, currentMsecs);
    }

    /** Lets requests through, in order, until the queue is empty or the window full. */
    method EmitQueued(currentMsecs: nat, ghost p: Pipe) returns (ghost states: seq<Pipe>)
      requires HoldsWindow(p) && requestQueue == p.queue
      modifies this`requestQueue, this`inFlight, this`emitted, assembler, assembler.service
      ensures Emissions(states, currentMsecs) && states[0] == p
      ensures var q := states[|states| - 1]; HoldsWindow(q) && requestQueue == q.queue
      ensures requestQueue == [] || |inFlight| >= rate
    {
      ghost var q := p;
      states := [p];
      var requestedNow := 0;
      while requestedNow < |requestQueue| && |inFlight| < rate
        invariant requestedNow <= |requestQueue|
        invariant HoldsWindow(q) && q.queue == requestQueue[requestedNow..]
        invariant Emissions(states, currentMsecs) && states[0] == p && states[|states| - 1] == q
      {
        q := EmitNext(requestQueue[requestedNow], currentMsecs, states);
        states := states + [q];
        requestedNow := requestedNow + 1;
      }
      requestQueue := requestQueue[requestedNow..];
    }

    method ProcessRequestQueue(ghost p: Pipe) returns (ghost now: nat)
      requires Holds(p)
      modifies this, clock, assembler, assembler.service
      ensures now == clock.now && old(clock.now) <= now && Holds(Process(p, now))
    {
      var currentMsecs := clock.Read();
      now := currentMsecs;
      last := now;
      inFlight := DropOlder(inFlight, Threshold(currentMsecs, period));
      ghost var pruned := p.(window := inFlight, last := now);
      ghost var states := EmitQueued(currentMsecs, pruned);
      EmissionsComplete(states, currentMsecs);
      EmitAllFrame(pruned, now);
      if requestQueue != [] {
        timerActive := true;
      }
    }
  }

  /** The state after a reply, before a completed quad is passed on. */
  ghost function Stored(p: Pipe, tile: Tile): Pipe
    requires QuadAt(p.quads, Parent(tile.id)).body.nTiles < 4
  {
    p.(quads := p.quads[Parent(tile.id) := WithTile(QuadAt(p.quads, Parent(tile.id)), tile)],
       network := p.network - multiset{tile.id})
  }

  /** The reply belongs to a quad that is under assembly and nowhere else. */
  ghost predicate ReplyDue(p: Pipe, tile: Tile) {
    var parent := Parent(tile.id);
    && parent in p.quads && p.quads[parent].id == parent && p.quads[parent].body.nTiles < 4
    && parent !in p.queue && parent !in p.waiting
  }

  lemma ReplyIsDue(p: Pipe, tile: Tile)
    requires Inv(p) && tile.id in p.network
    ensures ReplyDue(p, tile)
  {
    ReplyExpected(p, tile);
    AssemblingNotQueued(p, Parent(tile.id));
  }

  ghost predicate Emits(p: Pipe, q: Pipe, now: nat) {
    p.queue != [] && |p.window| < p.rate && q == EmitOne(p, now)
  }

  ghost function EmitsAt(now: nat): (Pipe, Pipe) -> bool {
    (p: Pipe, q: Pipe) => Emits(p, q, now)
  }

  /** The states reached by emitting one request after the other. */
  ghost predicate Emissions(states: seq<Pipe>, now: nat) {
    Runs.Chain(EmitsAt(now), states)
  }

  lemma EmissionsAppend(states: seq<Pipe>, p: Pipe, q: Pipe, now: nat)
    requires Emissions(states, now) && p == states[|states| - 1] && Emits(p, q, now)
    ensures Emissions(states + [q], now)
  {
    Runs.ChainAppend(EmitsAt(now), states, q);
  }

  lemma EmitAllAfter(p: Pipe, q: Pipe, now: nat)
    requires Emits(p, q, now)
    ensures EmitAll(p, now) == EmitAll(q, now)
  {
  }

  /** Single emissions, repeated until the queue is empty or the window full, are what the limiter emits at once. */
  lemma {:induction false} EmissionsComplete(states: seq<Pipe>, now: nat)
    requires Emissions(states, now)
    requires var q := states[|states| - 1]; q.queue == [] || |q.window| >= q.rate
    ensures EmitAll(states[0], now) == states[|states| - 1]
  {
    if |states| > 1 {
      Runs.ChainTail(EmitsAt(now), states);
      EmitAllAfter(states[0], states[1], now);
      EmissionsComplete(states[1..], now);
    }
  }

  lemma {:induction false} EmitAllFrame(p: Pipe, now: nat)
    ensures EmitAll(p, now).timer == p.timer && EmitAll(p, now).last == p.last
    decreases |p.queue|
  {
    if p.queue != [] && |p.window| < p.rate {
      EmitAllFrame(EmitOne(p, now), now);
    }
  }

  /** Erases the time stamps before the threshold. */
  method DropOlder(window: seq<nat>, threshold: int) returns (kept: seq<nat>)
    ensures kept == Prune(window, threshold)
  {
    kept := [];
    for i := 0 to |window|
      invariant kept + Prune(window[i..], threshold) == Prune(window, threshold)
    {
      assert window[i..][1..] == window[i + 1..];
      if window[i] >= threshold {
        kept := kept + [window[i]];
      }
    }
  }

  class SlotLimiter {
    const rateLimiter: RateLimiter
    const receiver: QuadReceiver
    const limit: nat
    var inFlight: set<TileId>
    var requestQueue: seq<TileId>
    ghost var accepted: seq<TileId>

    constructor (rateLimiter: RateLimiter, receiver: QuadReceiver, limit: nat)
      ensures this.rateLimiter == rateLimiter && this.receiver == receiver && this.limit == limit
      ensures inFlight == {} && requestQueue == [] && accepted == []
    {
      this.rateLimiter, this.receiver, this.limit := rateLimiter, receiver, limit;
      inFlight, requestQueue, accepted := {}, [], [];
    }

    ghost function Parts(): set<object>
    {
      {this, receiver, rateLimiter, rateLimiter.clock, rateLimiter.assembler, rateLimiter.assembler.service}
    }

    ghost predicate Holds(p: Pipe)
      reads this, receiver, rateLimiter, rateLimiter.assembler, rateLimiter.assembler.service
    {
      && rateLimiter.Holds(p)
      && limit == p.limit && inFlight == p.inFlight && requestQueue == p.waiting && accepted == p.accepted
      && receiver.delivered == p.delivered
    }

    method Emit(id: TileId, ghost p: Pipe) returns (ghost now: nat, ghost q: Pipe)
      requires Holds(p)
      modifies Parts()
      ensures now == rateLimiter.clock.now && old(rateLimiter.clock.now) <= now
      ensures Holds(q) && q == Accept(p, id, now) && q.waiting == p.waiting
    {
      inFlight := inFlight + {id};
      accepted := accepted + [id];
      q := p.(inFlight := inFlight, accepted := accepted);
      now := rateLimiter.RequestQuad(id, q);
      RequestQuadFrame(q, id, now);
      q := Pipeline.RequestQuad(q, id, now);
    }

    /** One requested id: skipped if in flight, queued if no slot is free, else emitted. */
    method RequestOne(id: TileId, ghost p: Pipe) returns (ghost now: nat, ghost q: Pipe)
      requires Holds(p)
      modifies Parts()
      ensures now == rateLimiter.clock.now && old(rateLimiter.clock.now) <= now
      ensures Holds(q) && q == Pipeline.RequestOne(p, id, now)
    {
      now, q := rateLimiter.clock.now, p;
      if id in inFlight {
        return;
      }
      if |inFlight| >= limit {
        requestQueue := requestQueue + [id];
        q := p.(waiting := requestQueue);
      } else {
        now, q := Emit(id, p);
      }
    }

    method RequestNext(id: TileId, ghost ids: seq<TileId>, ghost times: seq<nat>, ghost states: seq<Pipe>)
        returns (ghost now: nat, ghost q: Pipe)
      requires Requested(states, ids, times) && |times| < |ids| && id == ids[|times|]
      requires Holds(states[|times|])
      modifies Parts()
      ensures now == rateLimiter.clock.now && old(rateLimiter.clock.now) <= now
      ensures Holds(q) && Requested(states + [q], ids, times + [now])
    {
      now, q := RequestOne(id, states[|times|]);
      RequestedAppend(states, ids, times, q, now);
    }

    /** Replaces the queue; ids beyond the free slots wait. */
    method RequestQuads(ids: seq<TileId>, ghost p: Pipe) returns (ghost times: seq<nat>, ghost q: Pipe)
      requires Holds(p) && p.last <= rateLimiter.clock.now
      modifies Parts()
      ensures |times| == |ids| && NotBefore(p.last, times)
      ensures Holds(q) && q == Pipeline.RequestQuads(p, ids, times)
    {
      requestQueue := [];
      times := [];
      ghost var now := rateLimiter.clock.now;
      q := p.(waiting := []);
      ghost var start, states := q, [q];
      for i := 0 to |ids|
        invariant |times| == i && NotBefore(p.last, times)
        invariant p.last <= rateLimiter.clock.now && (times != [] ==> times[|times| - 1] <= rateLimiter.clock.now)
        invariant Requested(states, ids, times) && states[0] == start && states[i] == q && Holds(q)
      {
        now, q := RequestNext(ids[i], ids, times, states);
        times := times + [now];
        states := states + [q];
      }
      RequestedComplete(states, ids, times);
    }

    /** Frees the slot, passes the quad on, and emits the first one waiting. */
    method DeliverQuad(quad: DataQuad, ghost p: Pipe) returns (ghost now: nat, ghost q: Pipe)
      requires Holds(p)
      modifies Parts()
      ensures now == rateLimiter.clock.now && old(rateLimiter.clock.now) <= now
      ensures Holds(q) && q == Pipeline.DeliverQuad(p, quad, now)
    {
      inFlight := inFlight - {quad.id};
      receiver.ReceiveQuad(quad);
      now, q := rateLimiter.clock.now, p.(inFlight := inFlight, delivered := receiver.delivered);
      if requestQueue == [] {
        return;
      }
      now, q := Emit(requestQueue[0], q);
      requestQueue := requestQueue[1..];
      q := q.(waiting := requestQueue);
    }
  }

  /** The states reached by requesting the first ids, one after the other. */
  ghost predicate RequestedAt(states: seq<Pipe>, ids: seq<TileId>, times: seq<nat>, i: nat)
    requires i < |times| <= |ids| && |states| == |times| + 1
  {
    states[i + 1] == Pipeline.RequestOne(states[i], ids[i], times[i])
  }

  ghost predicate Requested(states: seq<Pipe>, ids: seq<TileId>, times: seq<nat>) {
    && |times| <= |ids| && |states| == |times| + 1
    && forall i: nat :: i < |times| ==> RequestedAt(states, ids, times, i)
  }

  lemma RequestedAppend(states: seq<Pipe>, ids: seq<TileId>, times: seq<nat>, q: Pipe, now: nat)
    requires Requested(states, ids, times) && |times| < |ids|
    requires q == Pipeline.RequestOne(states[|times|], ids[|times|], now)
    ensures Requested(states + [q], ids, times + [now])
  {
    forall i: nat | i < |times + [now]|
      ensures RequestedAt(states + [q], ids, times + [now], i)
    {
      if i < |times| {
        assert RequestedAt(states, ids, times, i);
      }
    }
  }

  lemma RequestedTail(states: seq<Pipe>, ids: seq<TileId>, times: seq<nat>)
    requires Requested(states, ids, times) && times != []
    ensures states[1] == Pipeline.RequestOne(states[0], ids[0], times[0])
    ensures Requested(states[1..], ids[1..], times[1..])
  {
    assert RequestedAt(states, ids, times, 0);
    forall i: nat | i < |times[1..]|
      ensures RequestedAt(states[1..], ids[1..], times[1..], i)
    {
      assert RequestedAt(states, ids, times, i + 1);
    }
  }

  lemma {:induction false} RequestedComplete(states: seq<Pipe>, ids: seq<TileId>, times: seq<nat>)
    requires Requested(states, ids, times) && |times| == |ids|
    ensures RequestEach(states[0], ids, times) == states[|ids|]
    decreases |ids|
  {
    if ids != [] {
      RequestedTail(states, ids, times);
      RequestedComplete(states[1..], ids[1..], times[1..]);
    }
  }

  lemma {:induction false} EmitAllEntry(p: Pipe, now: nat, id: TileId)
    requires id in p.quads && id !in p.queue
    ensures id in EmitAll(p, now).quads && EmitAll(p, now).quads[id] == p.quads[id]
    decreases |p.queue|
  {
    if p.queue != [] && |p.window| < p.rate {
      assert p.queue == [p.queue[0]] + p.queue[1..];
      EmitAllEntry(EmitOne(p, now), now, id);
    }
  }

  /** The nested loads leave the completed quad's own entry as it is. */
  lemma EntryStays(p: Pipe, quad: DataQuad, now: nat, id: TileId)
    requires id in p.quads && id !in p.queue && id !in p.waiting
    ensures id in Pipeline.DeliverQuad(p, quad, now).quads
    ensures Pipeline.DeliverQuad(p, quad, now).quads[id] == p.quads[id]
  {
    if p.waiting != [] {
      var head := p.waiting[0];
      EmitAllEntry(p.(inFlight := p.inFlight - {quad.id} + {head}, delivered := p.delivered + [quad],
                      accepted := p.accepted + [head], queue := p.queue + [head],
                      window := Prune(p.window, Threshold(now, p.period)), last := now), now, id);
    }
  }
}
