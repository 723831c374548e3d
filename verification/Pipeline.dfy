/** The request pipeline as a state machine: slot limiter, rate limiter, quad assembler and network
    (nucleus/tile/SlotLimiter.cpp, RateLimiter.cpp, QuadAssembler.cpp, wired as in nucleus/tile/setup.h). */
module Pipeline {
  import opened Seqs
  import opened Tiles
  import opened Entries
  import opened Quads
  import Runs

  datatype Emission = Emission(id: TileId, time: nat)

  /** The slot limiter's slots and queue, the rate limiter's queue, window and timer, the assembling quads, and the
      tile requests that the network has not answered. The last three fields log what was accepted into a slot,
      what the rate limiter let through and when, and what was delivered to the scheduler. */
  datatype Pipe = Pipe(
    limit: nat, inFlight: set<TileId>, waiting: seq<TileId>,
    rate: nat, period: nat, queue: seq<TileId>, window: seq<nat>, timer: bool, last: nat,
    quads: map<TileId, DataQuad>, network: multiset<TileId>,
    accepted: seq<TileId>, emitted: seq<Emission>, delivered: seq<DataQuad>)

  // ---- the quad assembler: load ---------------------------------------------------------------

  function QuadAt(quads: map<TileId, DataQuad>, id: TileId): DataQuad {
    if id in quads then quads[id] else EMPTY_QUAD
  }

  function Load(p: Pipe, id: TileId): Pipe {
    p.(quads := p.quads[id := QuadAt(p.quads, id).(id := id)], network := p.network + multiset(Children(id)))
  }

  // ---- the rate limiter -----------------------------------------------------------------------

  /** current_msecs - period in unsigned 64-bit arithmetic. */
  function Threshold(now: nat, period: nat): int {
    if period <= now then now - period else U64 + now - period
  }

  /** Forgets the emissions before the threshold. */
  function Prune(window: seq<nat>, threshold: int): seq<nat> {
    if window == [] then []
    else if window[0] < threshold then Prune(window[1..], threshold)
    else [window[0]] + Prune(window[1..], threshold)
  }

  function EmitOne(p: Pipe, now: nat): Pipe
    requires p.queue != []
  {
    Load(p.(queue := p.queue[1..], window := p.window + [now], emitted := p.emitted + [Emission(p.queue[0], now)]),
         p.queue[0])
  }

  function EmitAll(p: Pipe, now: nat): Pipe
    decreases |p.queue|
  {
    if p.queue == [] || |p.window| >= p.rate then p else EmitAll(EmitOne(p, now), now)
  }

  function Process(p: Pipe, now: nat): Pipe {
    var q := EmitAll(p.(window := Prune(p.window, Threshold(now, p.period)), last := now), now);
    q.(timer := q.timer || q.queue != [])
  }

  function RequestQuad(p: Pipe, id: TileId, now: nat): Pipe {
    Process(p.(queue := p.queue + [id]), now)
  }

  // ---- the slot limiter -----------------------------------------------------------------------

  function Accept(p: Pipe, id: TileId, now: nat): Pipe {
    RequestQuad(p.(inFlight := p.inFlight + {id}, accepted := p.accepted + [id]), id, now)
  }

  /** One requested id: skipped if in flight, queued if no slot is free, else accepted. */
  function RequestOne(p: Pipe, id: TileId, now: nat): Pipe {
    if id in p.inFlight then p
    else if |p.inFlight| >= p.limit then p.(waiting := p.waiting + [id])
    else Accept(p, id, now)
  }

  function RequestEach(p: Pipe, ids: seq<TileId>, times: seq<nat>): Pipe
    requires |ids| == |times|
    decreases |ids|
  {
    if ids == [] then p else RequestEach(RequestOne(p, ids[0], times[0]), ids[1..], times[1..])
  }

  function RequestQuads(p: Pipe, ids: seq<TileId>, times: seq<nat>): Pipe
    requires |ids| == |times|
  {
    RequestEach(p.(waiting := []), ids, times)
  }

  function DeliverQuad(p: Pipe, quad: DataQuad, now: nat): Pipe {
    var q := p.(inFlight := p.inFlight - {quad.id}, delivered := p.delivered + [quad]);
    if q.waiting == [] then q
    else Accept(q, q.waiting[0], now).(waiting := q.waiting[1..])
  }

  // ---- the quad assembler: deliver_tile -------------------------------------------------------

  function WithTile(quad: DataQuad, tile: Tile): DataQuad
    requires quad.body.nTiles < 4
  {
    Named(quad.id, Quad(quad.body.nTiles + 1, quad.body.tiles[quad.body.nTiles := tile]))
  }

  function Without(p: Pipe, id: TileId): Pipe {
    p.(quads := p.quads - {id})
  }

  /** The fourth tile completes a quad: the quad is passed on, which may load further quads, and only then erased. */
  function DeliverTile(p: Pipe, tile: Tile, now: nat): Pipe {
    var parent := Parent(tile.id);
    var quad := QuadAt(p.quads, parent);
    if quad.body.nTiles >= 4 then p  // outside the array
    else
      var filled := WithTile(quad, tile);
      var q := p.(quads := p.quads[parent := filled], network := p.network - multiset{tile.id});
      if filled.body.nTiles < 4 then q else Without(DeliverQuad(q, filled, now), filled.id)
  }

  // ---- events ---------------------------------------------------------------------------------

  datatype Event =
    | Request(ids: seq<TileId>, times: seq<nat>)
    | Timer(now: nat)
    | Reply(tile: Tile, at: nat)

  ghost predicate NotBefore(last: nat, times: seq<nat>) {
    && (times != [] ==> last <= times[0])
    && forall i :: 0 < i < |times| ==> times[i - 1] <= times[i]
  }

  /** Requested ids are distinct, the clock does not go back, the timer fires only when armed, and every reply
      answers an outstanding request. */
  ghost predicate Enabled(p: Pipe, e: Event) {
    match e
    case Request(ids, times) => NoDup(ids) && |ids| == |times| && NotBefore(p.last, times)
    case Timer(now) => p.timer && p.last <= now
    case Reply(tile, at) => tile.id in p.network && p.last <= at
  }

  function Step(p: Pipe, e: Event): Pipe {
    match e
    case Request(ids, times) => if |ids| == |times| then RequestQuads(p, ids, times) else p
    case Timer(now) => Process(p.(timer := false), now)
    case Reply(tile, at) => DeliverTile(p, tile, at)
  }

  // ---- the invariant --------------------------------------------------------------------------

  ghost predicate SlotsInv(p: Pipe) {
    && p.limit >= 1 && |p.inFlight| <= p.limit
    && NoDup(p.waiting) && Elems(p.waiting) !! p.inFlight
    && (p.waiting != [] ==> |p.inFlight| == p.limit)
  }

  /** What occupies a slot is either queued for its rate or being assembled, never both. */
  ghost predicate FlowInv(inFlight: set<TileId>, queue: seq<TileId>, assembling: set<TileId>) {
    NoDup(queue) && Elems(queue) !! assembling && inFlight == Elems(queue) + assembling
  }

  /** The ids of the tiles that arrived. */
  ghost function Arrived(quad: DataQuad): seq<TileId>
    requires quad.body.nTiles <= 4
  {
    TileIds(quad)[..quad.body.nTiles]
  }

  /** A quad under assembly holds distinct children of its id; for each other child one reply is outstanding. */
  ghost predicate Assembling(id: TileId, quad: DataQuad, network: multiset<TileId>) {
    && quad.id == id && quad.body.nTiles < 4
    && NoDup(Arrived(quad)) && Elems(Arrived(quad)) <= Elems(Children(id))
    && forall k :: 0 <= k < 4 ==> network[Child(id, k)] == if Child(id, k) in Arrived(quad) then 0 else 1
  }

  ghost predicate AllAssembling(quads: map<TileId, DataQuad>, network: multiset<TileId>) {
    forall id :: id in quads ==> Assembling(id, quads[id], network)
  }

  /** Every outstanding reply belongs to a quad under assembly. */
  ghost predicate RepliesExpected(assembling: set<TileId>, network: multiset<TileId>) {
    forall c {:trigger Parent(c)} :: c in network ==> c.zoom > 0 && Parent(c) in assembling
  }

  ghost predicate AssemblyInv(quads: map<TileId, DataQuad>, network: multiset<TileId>) {
    AllAssembling(quads, network) && RepliesExpected(quads.Keys, network)
  }

  ghost function EmittedIds(emitted: seq<Emission>): seq<TileId> {
    seq(|emitted|, i requires 0 <= i < |emitted| => emitted[i].id)
  }

  ghost function Times(emitted: seq<Emission>): seq<nat> {
    seq(|emitted|, i requires 0 <= i < |emitted| => emitted[i].time)
  }

  /** Any emission and the one `rate` places later are more than a period apart. */
  ghost predicate Spaced(times: seq<nat>, rate: nat, period: nat) {
    forall i, j :: 0 <= i && i + rate <= j < |times| ==> times[i] + period < times[j]
  }

  /** The window holds the latest emissions, and everything before it is more than a period old. */
  ghost predicate WindowInv(times: seq<nat>, window: seq<nat>, last: nat, period: nat) {
    && |window| <= |times| && window == times[|times| - |window|..]
    && (forall i :: 0 <= i < |times| - |window| ==> times[i] + period < last)
    && (forall i :: 0 < i < |times| ==> times[i - 1] <= times[i])
    && (forall i :: 0 <= i < |times| ==> times[i] <= last)
  }

  ghost predicate RateInv(times: seq<nat>, window: seq<nat>, rate: nat, period: nat, last: nat) {
    period <= last && WindowInv(times, window, last, period) && Spaced(times, rate, period)
  }

  /** Requests leave the rate limiter in order, none is lost; and accepted ids are in flight or delivered. */
  ghost predicate LogInv(accepted: seq<TileId>, emitted: seq<Emission>, queue: seq<TileId>,
                         inFlight: set<TileId>, delivered: seq<DataQuad>) {
    && EmittedIds(emitted) + queue == accepted
    && multiset(accepted) == multiset(inFlight) + multiset(Ids(delivered))
  }

  ghost predicate AllDelivered(delivered: seq<DataQuad>) {
    forall q :: q in delivered ==> Complete(q)
  }

  /** The part of the invariant that the rate limiter and the assembler keep at every step inside an event. */
  ghost predicate FlowOk(p: Pipe) {
    && FlowInv(p.inFlight, p.queue, p.quads.Keys) && AssemblyInv(p.quads, p.network)
    && RateInv(Times(p.emitted), p.window, p.rate, p.period, p.last)
    && LogInv(p.accepted, p.emitted, p.queue, p.inFlight, p.delivered)
  }

  ghost predicate Inv(p: Pipe) {
    SlotsInv(p) && FlowOk(p) && AllDelivered(p.delivered) && (p.queue != [] ==> p.timer)
  }

  /** Nothing has been requested yet. */
  ghost predicate Blank(p: Pipe) {
    && p.limit >= 1 && p.inFlight == {} && p.waiting == []
    && p.queue == [] && p.window == [] && p.quads == map[] && p.network == multiset{}
    && p.accepted == [] && p.emitted == [] && p.delivered == []
  }

  /** And the clock is at least one period past zero. */
  ghost predicate Start(p: Pipe) {
    Blank(p) && p.period <= p.last
  }

  lemma StartInv(p: Pipe)
    requires Start(p)
    ensures Inv(p)
  {
    assert Ids(p.delivered) == [] && EmittedIds(p.emitted) == [] && Times(p.emitted) == [];
    assert multiset(p.accepted) == multiset{} && multiset(p.inFlight) == multiset{};
    assert FlowOk(p) && SlotsInv(p);
  }

  // ---- the rate limiter keeps the invariant ---------------------------------------------------

  /** Pruning a sorted window drops exactly a prefix. */
  lemma {:induction false} PruneSuffix(window: seq<nat>, threshold: int) returns (k: nat)
    requires forall i :: 0 < i < |window| ==> window[i - 1] <= window[i]
    ensures k <= |window| && Prune(window, threshold) == window[k..]
    ensures forall i :: 0 <= i < k ==> window[i] < threshold
    ensures forall i :: k <= i < |window| ==> window[i] >= threshold
    ensures k < |window| ==> window[k] >= threshold
  {
    if window == [] {
      k := 0;
    } else {
      var l := PruneSuffix(window[1..], threshold);
      if window[0] < threshold {
        k := l + 1;
      } else {
        k := 0;
        SortedFrom(window, threshold);
        assert l == 0;
        assert window == [window[0]] + window[1..];
      }
    }
  }

  lemma {:induction false} SortedFrom(window: seq<nat>, threshold: int)
    requires window != [] && threshold <= window[0]
    requires forall i :: 0 < i < |window| ==> window[i - 1] <= window[i]
    ensures forall i :: 0 <= i < |window| ==> window[i] >= threshold
  {
    if |window| > 1 {
      assert window[1 - 1] <= window[1];
      SortedFrom(window[1..], threshold);
      assert window == [window[0]] + window[1..];
    }
  }

  lemma PruneWindow(times: seq<nat>, window: seq<nat>, last: nat, period: nat, now: nat)
    requires WindowInv(times, window, last, period) && last <= now && period <= now
    ensures WindowInv(times, Prune(window, Threshold(now, period)), now, period)
  {
    var d := |times| - |window|;
    forall i | 0 < i < |window|
      ensures window[i - 1] <= window[i]
    {
      assert times[d + i - 1] <= times[d + i];
    }
    var k := PruneSuffix(window, now - period);
    forall i | 0 <= i < d + k
      ensures times[i] + period < now
    {
      if i >= d {
        assert times[i] == window[i - d];
      }
    }
  }

  lemma EmitWindow(times: seq<nat>, window: seq<nat>, rate: nat, period: nat, now: nat)
    requires WindowInv(times, window, now, period) && Spaced(times, rate, period) && |window| < rate
    ensures WindowInv(times + [now], window + [now], now, period)
    ensures Spaced(times + [now], rate, period)
  {
  }

  lemma PopFlow(inFlight: set<TileId>, queue: seq<TileId>, assembling: set<TileId>)
    requires FlowInv(inFlight, queue, assembling) && queue != []
    ensures FlowInv(inFlight, queue[1..], assembling + {queue[0]}) && queue[0] !in assembling
  {
    assert queue == [queue[0]] + queue[1..];
    assert queue[0] in Elems(queue);
    assert Elems(queue) == {queue[0]} + Elems(queue[1..]);
  }

  lemma LoadAssembly(p: Pipe, id: TileId)
    requires AssemblyInv(p.quads, p.network) && id !in p.quads
    ensures AssemblyInv(Load(p, id).quads, Load(p, id).network)
  {
    var q := Load(p, id);
    forall i | i in q.quads
      ensures Assembling(i, q.quads[i], q.network)
    {
      if i == id {
        NewlyLoaded(p, id);
      } else {
        forall k | 0 <= k < 4
          ensures q.network[Child(i, k)] == p.network[Child(i, k)]
        {
          LoadedOnce(id, i, k);
        }
      }
    }
    forall c | c in q.network
      ensures c.zoom > 0 && Parent(c) in q.quads
    {
      var parent := Parent(c);
      if c !in p.network {
        assert c in Children(id);
        ChildrenCharacterised(id, c);
      }
    }
  }

  lemma NewlyLoaded(p: Pipe, id: TileId)
    requires AssemblyInv(p.quads, p.network) && id !in p.quads
    ensures Assembling(id, Load(p, id).quads[id], Load(p, id).network)
  {
    var q := Load(p, id);
    forall k | 0 <= k < 4
      ensures q.network[Child(id, k)] == 1
    {
      LoadedOnce(id, id, k);
      ParentChild(id, k);
    }
    assert Arrived(q.quads[id]) == [];
  }

  lemma LoadedOnce(id: TileId, i: TileId, k: nat)
    requires k < 4
    ensures multiset(Children(id))[Child(i, k)] == if i == id then 1 else 0
  {
    ChildrenCharacterised(id, Child(i, k));
    ParentChild(i, k);
    MultisetOnce(Children(id), Child(i, k));
  }

  lemma EmitLog(accepted: seq<TileId>, emitted: seq<Emission>, queue: seq<TileId>, inFlight: set<TileId>,
                delivered: seq<DataQuad>, now: nat)
    requires LogInv(accepted, emitted, queue, inFlight, delivered) && queue != []
    ensures LogInv(accepted, emitted + [Emission(queue[0], now)], queue[1..], inFlight, delivered)
  {
    assert EmittedIds(emitted + [Emission(queue[0], now)]) == EmittedIds(emitted) + [queue[0]];
    assert queue == [queue[0]] + queue[1..];
  }

  lemma EmitFields(p: Pipe, now: nat)
    requires p.queue != []
    ensures var q, head := EmitOne(p, now), p.queue[0];
      && q.quads == Load(p, head).quads && q.network == Load(p, head).network
      && q.quads.Keys == p.quads.Keys + {head}
      && q.queue == p.queue[1..] && q.window == p.window + [now]
      && q.emitted == p.emitted + [Emission(head, now)] && Times(q.emitted) == Times(p.emitted) + [now]
      && SameSlots(p, q)
  {
  }

  lemma EmitKeeps(p: Pipe, now: nat)
    requires FlowOk(p) && p.queue != [] && |p.window| < p.rate && now == p.last
    ensures FlowOk(EmitOne(p, now))
  {
    EmitFields(p, now);
    var q, head := EmitOne(p, now), p.queue[0];
    assert FlowInv(q.inFlight, q.queue, q.quads.Keys) && head !in p.quads by {
      PopFlow(p.inFlight, p.queue, p.quads.Keys);
    }
    assert LogInv(q.accepted, q.emitted, q.queue, q.inFlight, q.delivered) by {
      EmitLog(p.accepted, p.emitted, p.queue, p.inFlight, p.delivered, now);
    }
    assert AssemblyInv(q.quads, q.network) by {
      LoadAssembly(p, head);
    }
    assert RateInv(Times(q.emitted), q.window, q.rate, q.period, q.last) by {
      EmitWindow(Times(p.emitted), p.window, p.rate, p.period, now);
    }
  }

  /** What emitting leaves alone. */
  ghost predicate SameSlots(p: Pipe, q: Pipe) {
    && q.limit == p.limit && q.inFlight == p.inFlight && q.waiting == p.waiting
    && q.rate == p.rate && q.period == p.period && q.last == p.last && q.timer == p.timer
    && q.accepted == p.accepted && q.delivered == p.delivered
  }

  lemma {:induction false} EmitAllKeeps(p: Pipe, now: nat)
    requires FlowOk(p) && now == p.last
    ensures FlowOk(EmitAll(p, now)) && SameSlots(p, EmitAll(p, now))
    decreases |p.queue|
  {
    if p.queue != [] && |p.window| < p.rate {
      EmitKeeps(p, now);
      EmitAllKeeps(EmitOne(p, now), now);
    }
  }

  lemma ProcessKeeps(p: Pipe, now: nat)
    requires FlowOk(p) && p.last <= now
    ensures FlowOk(Process(p, now))
    ensures SameSlots(p.(last := now, timer := Process(p, now).timer), Process(p, now))
    ensures Process(p, now).queue != [] ==> Process(p, now).timer
  {
    var pruned := p.(window := Prune(p.window, Threshold(now, p.period)), last := now);
    PruneWindow(Times(p.emitted), p.window, p.last, p.period, now);
    EmitAllKeeps(pruned, now);
  }

  // ---- the slot limiter keeps the invariant ---------------------------------------------------

  lemma AcceptLog(accepted: seq<TileId>, emitted: seq<Emission>, queue: seq<TileId>, inFlight: set<TileId>,
                  delivered: seq<DataQuad>, id: TileId)
    requires LogInv(accepted, emitted, queue, inFlight, delivered) && id !in inFlight
    ensures LogInv(accepted + [id], emitted, queue + [id], inFlight + {id}, delivered)
  {
    assert EmittedIds(emitted) + (queue + [id]) == accepted + [id];
    assert multiset(inFlight + {id}) == multiset(inFlight) + multiset{id};
  }

  lemma PushFlow(inFlight: set<TileId>, queue: seq<TileId>, assembling: set<TileId>, id: TileId)
    requires FlowInv(inFlight, queue, assembling) && id !in inFlight
    ensures FlowInv(inFlight + {id}, queue + [id], assembling)
  {
    ElemsOne(id);
    NoDupConcat(queue, [id]);
  }

  lemma AcceptKeeps(p: Pipe, id: TileId, now: nat)
    requires FlowOk(p) && p.last <= now && id !in p.inFlight
    ensures FlowOk(Accept(p, id, now)) && Accept(p, id, now).last == now
    ensures Accept(p, id, now).inFlight == p.inFlight + {id} && Accept(p, id, now).waiting == p.waiting
    ensures Accept(p, id, now).limit == p.limit && Accept(p, id, now).delivered == p.delivered
    ensures Accept(p, id, now).queue != [] ==> Accept(p, id, now).timer
  {
    AcceptLog(p.accepted, p.emitted, p.queue, p.inFlight, p.delivered, id);
    PushFlow(p.inFlight, p.queue, p.quads.Keys, id);
    ProcessKeeps(p.(inFlight := p.inFlight + {id}, accepted := p.accepted + [id], queue := p.queue + [id]), now);
  }

  lemma AcceptNext(p: Pipe, id: TileId, now: nat)
    requires Inv(p) && p.last <= now && id !in p.inFlight && |p.inFlight| < p.limit
    ensures Inv(Accept(p, id, now)) && Accept(p, id, now).last == now && Accept(p, id, now).waiting == []
  {
    AcceptKeeps(p, id, now);
  }

  lemma WaitNext(p: Pipe, id: TileId)
    requires Inv(p) && id !in p.inFlight && id !in p.waiting && |p.inFlight| >= p.limit
    ensures Inv(p.(waiting := p.waiting + [id]))
  {
    ElemsOne(id);
    NoDupConcat(p.waiting, [id]);
  }

  lemma RequestOneKeeps(p: Pipe, id: TileId, now: nat) returns (q: Pipe)
    requires Inv(p) && p.last <= now && id !in p.waiting
    ensures q == RequestOne(p, id, now) && Inv(q)
    ensures (q.last == p.last || q.last == now) && Elems(q.waiting) <= Elems(p.waiting) + {id}
  {
    if id in p.inFlight {
      q := p;
    } else if |p.inFlight| >= p.limit {
      q := p.(waiting := p.waiting + [id]);
      WaitNext(p, id);
    } else {
      q := Accept(p, id, now);
      AcceptNext(p, id, now);
    }
  }

  lemma {:induction false} RequestEachKeeps(p: Pipe, ids: seq<TileId>, times: seq<nat>)
    requires Inv(p) && NoDup(ids) && |ids| == |times| && NotBefore(p.last, times)
    requires Elems(p.waiting) !! Elems(ids)
    ensures Inv(RequestEach(p, ids, times))
    decreases |ids|
  {
    if ids != [] {
      SplitFirst(ids);
      WaitLess(p.last, times);
      assert ids[0] !in Elems(p.waiting);
      var q := RequestOneKeeps(p, ids[0], times[0]);
      RequestEachKeeps(q, ids[1..], times[1..]);
    }
  }

  lemma SplitFirst(ids: seq<TileId>)
    requires NoDup(ids) && ids != []
    ensures NoDup(ids[1..]) && ids[0] in Elems(ids) && ids[0] !in Elems(ids[1..])
    ensures Elems(ids) == {ids[0]} + Elems(ids[1..])
  {
    assert ids == [ids[0]] + ids[1..];
  }

  lemma WaitLess(last: nat, times: seq<nat>)
    requires times != [] && NotBefore(last, times)
    ensures NotBefore(last, times[1..]) && NotBefore(times[0], times[1..])
    ensures last <= times[0]
  {
  }

  // ---- re-entrancy ----------------------------------------------------------------------------

  lemma LoadWithout(quads: map<TileId, DataQuad>, head: TileId, id: TileId)
    requires head != id
    ensures (quads - {id})[head := QuadAt(quads - {id}, head).(id := head)]
         == quads[head := QuadAt(quads, head).(id := head)] - {id}
  {
  }

  lemma EmitOneWithout(p: Pipe, now: nat, id: TileId)
    requires p.queue != [] && id !in p.queue
    ensures Without(EmitOne(p, now), id) == EmitOne(Without(p, id), now) && id !in EmitOne(p, now).queue
  {
    assert p.queue == [p.queue[0]] + p.queue[1..];
    LoadWithout(p.quads, p.queue[0], id);
  }

  lemma {:induction false} EmitAllWithout(p: Pipe, now: nat, id: TileId)
    requires id !in p.queue
    ensures Without(EmitAll(p, now), id) == EmitAll(Without(p, id), now)
    decreases |p.queue|
  {
    if p.queue != [] && |p.window| < p.rate {
      EmitOneWithout(p, now, id);
      EmitAllWithout(EmitOne(p, now), now, id);
    }
  }

  /** Passing the completed quad on before erasing it has the same effect as erasing it first: the loads nested in
      the signal never touch the entry, because the quad is neither queued for its rate nor waiting for a slot. */
  lemma EraseCommutes(p: Pipe, quad: DataQuad, now: nat)
    requires quad.id !in p.queue && quad.id !in p.waiting
    ensures Without(DeliverQuad(p, quad, now), quad.id) == DeliverQuad(Without(p, quad.id), quad, now)
  {
    var q := p.(inFlight := p.inFlight - {quad.id}, delivered := p.delivered + [quad]);
    if q.waiting != [] {
      var head := q.waiting[0];
      var r := q.(inFlight := q.inFlight + {head}, accepted := q.accepted + [head], queue := q.queue + [head],
                  window := Prune(q.window, Threshold(now, q.period)), last := now);
      EmitAllWithout(r, now, quad.id);
    }
  }

  // ---- replies keep the invariant -------------------------------------------------------------

  /** A reply belongs to a quad under assembly that still lacks this child: its slot lies inside the array. */
  lemma ReplyExpected(p: Pipe, tile: Tile)
    requires AssemblyInv(p.quads, p.network) && tile.id in p.network
    ensures tile.id.zoom > 0 && Parent(tile.id) in p.quads
    ensures var quad := p.quads[Parent(tile.id)];
      && quad.id == Parent(tile.id) && quad.body.nTiles < 4 && tile.id !in Arrived(quad)
      && tile.id in Children(quad.id) && p.network[tile.id] == 1
  {
    var quad := p.quads[Parent(tile.id)];
    ChildParent(tile.id);
    ChildrenCharacterised(quad.id, tile.id);
    assert p.network[Child(quad.id, Quadrant(tile.id))] == p.network[tile.id];
  }

  lemma ArrivedGrows(quad: DataQuad, tile: Tile)
    requires quad.body.nTiles < 4 && NoDup(Arrived(quad)) && tile.id !in Arrived(quad)
    ensures Arrived(WithTile(quad, tile)) == Arrived(quad) + [tile.id]
    ensures NoDup(Arrived(WithTile(quad, tile)))
    ensures Elems(Arrived(WithTile(quad, tile))) == Elems(Arrived(quad)) + {tile.id}
  {
    var n := quad.body.nTiles;
    assert forall i :: 0 <= i < n ==> TileIds(WithTile(quad, tile))[i] == TileIds(quad)[i];
    assert TileIds(WithTile(quad, tile))[n] == tile.id;
    ElemsOne(tile.id);
    NoDupConcat(Arrived(quad), [tile.id]);
  }

  /** The filled quad's outstanding replies are those of the children that have not arrived. */
  lemma FilledOutstanding(id: TileId, quad: DataQuad, tile: Tile, network: multiset<TileId>)
    requires Assembling(id, quad, network) && tile.id in Children(id) && network[tile.id] == 1
    requires tile.id !in Arrived(quad)
    ensures var filled, left := WithTile(quad, tile), network - multiset{tile.id};
      && NoDup(Arrived(filled)) && Elems(Arrived(filled)) <= Elems(Children(id))
      && forall k :: 0 <= k < 4 ==> left[Child(id, k)] == if Child(id, k) in Arrived(filled) then 0 else 1
  {
    ArrivedGrows(quad, tile);
    var filled, left := WithTile(quad, tile), network - multiset{tile.id};
    forall k | 0 <= k < 4
      ensures left[Child(id, k)] == if Child(id, k) in Arrived(filled) then 0 else 1
    {
      assert Child(id, k) in Arrived(filled) <==> Child(id, k) in Elems(Arrived(quad)) + {tile.id};
    }
  }

  /** The replies outstanding for other quads are untouched. */
  lemma OthersOutstanding(id: TileId, quad: DataQuad, c: TileId, network: multiset<TileId>)
    requires Assembling(id, quad, network) && c.zoom > 0 && Parent(c) != id
    ensures Assembling(id, quad, network - multiset{c})
  {
    forall k | 0 <= k < 4
      ensures (network - multiset{c})[Child(id, k)] == network[Child(id, k)]
    {
      ParentChild(id, k);
    }
  }

  lemma ReplyOne(p: Pipe, tile: Tile, id: TileId)
    requires AssemblyInv(p.quads, p.network) && tile.id in p.network && id in p.quads
    requires Parent(tile.id) in p.quads && p.quads[Parent(tile.id)].body.nTiles < 3
    ensures Assembling(id, if id == Parent(tile.id) then WithTile(p.quads[id], tile) else p.quads[id],
                       p.network - multiset{tile.id})
  {
    ReplyExpected(p, tile);
    if id == Parent(tile.id) {
      FilledOutstanding(id, p.quads[id], tile, p.network);
    } else {
      OthersOutstanding(id, p.quads[id], tile.id, p.network);
    }
  }

  lemma ReplyAssembly(p: Pipe, tile: Tile)
    requires AssemblyInv(p.quads, p.network) && tile.id in p.network
    requires Parent(tile.id) in p.quads && p.quads[Parent(tile.id)].body.nTiles < 3
    ensures AssemblyInv(p.quads[Parent(tile.id) := WithTile(p.quads[Parent(tile.id)], tile)],
                        p.network - multiset{tile.id})
  {
    var parent := Parent(tile.id);
    var filled, left := WithTile(p.quads[parent], tile), p.network - multiset{tile.id};
    var quads' := p.quads[parent := filled];
    assert AllAssembling(quads', left) by {
      forall id | id in quads'
        ensures Assembling(id, quads'[id], left)
      {
        ReplyOne(p, tile, id);
      }
    }
    assert quads'.Keys == p.quads.Keys;
    FewerReplies(p.quads.Keys, p.network, left);
  }

  lemma FewerReplies(assembling: set<TileId>, network: multiset<TileId>, left: multiset<TileId>)
    requires RepliesExpected(assembling, network) && left <= network
    ensures RepliesExpected(assembling, left)
  {
    forall c | c in left
      ensures c.zoom > 0 && Parent(c) in assembling
    {
      var above := Parent(c);
      assert c in network;
    }
  }

  /** The fourth tile completes the quad, and nothing is outstanding for it any more. */
  lemma ReplyCompletes(p: Pipe, tile: Tile)
    requires AssemblyInv(p.quads, p.network) && tile.id in p.network
    requires Parent(tile.id) in p.quads && p.quads[Parent(tile.id)].body.nTiles == 3
    ensures Complete(WithTile(p.quads[Parent(tile.id)], tile))
    ensures AssemblyInv(p.quads - {Parent(tile.id)}, p.network - multiset{tile.id})
  {
    var parent := Parent(tile.id);
    ReplyExpected(p, tile);
    var filled, left := WithTile(p.quads[parent], tile), p.network - multiset{tile.id};
    FilledOutstanding(parent, p.quads[parent], tile, p.network);
    assert Arrived(filled) == TileIds(filled);
    AllArrived(filled);
    forall id | id in p.quads - {parent}
      ensures Assembling(id, p.quads[id], left)
    {
      OthersOutstanding(id, p.quads[id], tile.id, p.network);
    }
    forall c | c in left
      ensures c.zoom > 0 && Parent(c) in p.quads - {parent}
    {
      var above := Parent(c);
      assert c in p.network;
      NotOutstanding(filled, left, c);
    }
  }

  lemma NotOutstanding(filled: DataQuad, left: multiset<TileId>, c: TileId)
    requires Complete(filled) && c in left && c.zoom > 0
    requires forall k :: 0 <= k < 4
               ==> left[Child(filled.id, k)] == if Child(filled.id, k) in TileIds(filled) then 0 else 1
    ensures Parent(c) != filled.id
  {
    ChildParent(c);
    ChildrenCharacterised(filled.id, c);
    assert c in Children(filled.id) ==> c in Elems(Children(filled.id)) && c in TileIds(filled);
  }

  lemma AllArrived(filled: DataQuad)
    requires filled.body.nTiles == 4 && NoDup(TileIds(filled)) && Elems(TileIds(filled)) <= Elems(Children(filled.id))
    ensures Complete(filled)
  {
    NoDupSize(TileIds(filled));
    ChildrenCharacterised(filled.id, filled.id);
    NoDupSize(Children(filled.id));
    SubsetSize(Elems(TileIds(filled)), Elems(Children(filled.id)));
  }

  lemma DeliverLog(accepted: seq<TileId>, emitted: seq<Emission>, queue: seq<TileId>, inFlight: set<TileId>,
                   delivered: seq<DataQuad>, quad: DataQuad)
    requires LogInv(accepted, emitted, queue, inFlight, delivered) && quad.id in inFlight
    ensures LogInv(accepted, emitted, queue, inFlight - {quad.id}, delivered + [quad])
  {
    assert Ids(delivered + [quad]) == Ids(delivered) + [quad.id];
    assert inFlight == (inFlight - {quad.id}) + {quad.id};
    assert multiset(inFlight) == multiset(inFlight - {quad.id}) + multiset{quad.id};
  }

  lemma SlotFreed(p: Pipe, q: Pipe, id: TileId)
    requires SlotsInv(p) && id in p.inFlight
    requires q.limit == p.limit && q.inFlight == p.inFlight - {id} && q.waiting == p.waiting
    ensures |q.inFlight| < q.limit
    ensures q.waiting == [] ==> SlotsInv(q)
    ensures q.waiting != [] ==> |q.inFlight| == q.limit - 1 && q.waiting[0] !in q.inFlight
  {
    if q.waiting != [] {
      assert q.waiting[0] in Elems(q.waiting);
    }
  }

  lemma SlotRefilled(p: Pipe, q: Pipe, id: TileId)
    requires SlotsInv(p) && id in p.inFlight && p.waiting != []
    requires q.limit == p.limit && q.inFlight == p.inFlight - {id} + {p.waiting[0]} && q.waiting == p.waiting[1..]
    ensures SlotsInv(q)
  {
    SplitFirst(p.waiting);
  }

  /** Delivering a quad frees its slot and gives it to the first one waiting. */
  lemma DeliverKeeps(p: Pipe, quad: DataQuad, now: nat)
    requires SlotsInv(p) && AllDelivered(p.delivered) && (p.queue != [] ==> p.timer)
    requires quad.id in p.inFlight && Complete(quad) && p.last <= now
    requires FlowOk(p.(inFlight := p.inFlight - {quad.id}, delivered := p.delivered + [quad]))
    ensures Inv(DeliverQuad(p, quad, now))
  {
    var q := p.(inFlight := p.inFlight - {quad.id}, delivered := p.delivered + [quad]);
    SlotFreed(p, q, quad.id);
    if q.waiting != [] {
      AcceptKeeps(q, q.waiting[0], now);
      SlotRefilled(p, DeliverQuad(p, quad, now), quad.id);
    }
  }

  /** The state in which the completed quad has left the assembler and its slot. */
  lemma CompletedFlow(p: Pipe, tile: Tile)
    requires FlowOk(p) && tile.id in p.network
    requires Parent(tile.id) in p.quads && p.quads[Parent(tile.id)].body.nTiles == 3
    ensures var parent := Parent(tile.id); var filled := WithTile(p.quads[parent], tile);
      FlowOk(p.(quads := p.quads - {parent}, network := p.network - multiset{tile.id},
                inFlight := p.inFlight - {parent}, delivered := p.delivered + [filled]))
  {
    var parent := Parent(tile.id);
    ReplyExpected(p, tile);
    ReplyCompletes(p, tile);
    DeliverLog(p.accepted, p.emitted, p.queue, p.inFlight, p.delivered, WithTile(p.quads[parent], tile));
    assert (p.quads - {parent}).Keys == p.quads.Keys - {parent};
  }

  /** A quad under assembly is neither queued for its rate nor waiting for a slot. */
  lemma AssemblingNotQueued(p: Pipe, id: TileId)
    requires SlotsInv(p) && FlowInv(p.inFlight, p.queue, p.quads.Keys) && id in p.quads
    ensures id in p.inFlight && id !in p.queue && id !in p.waiting
  {
    assert id in p.queue ==> id in Elems(p.queue);
    assert id in p.waiting ==> id in Elems(p.waiting);
  }

  lemma FourthTile(p: Pipe, tile: Tile, now: nat, quad: DataQuad)
    requires Parent(tile.id) in p.quads && quad == p.quads[Parent(tile.id)]
    requires quad.body.nTiles == 3 && quad.id == Parent(tile.id)
    ensures var filled := WithTile(quad, tile);
      DeliverTile(p, tile, now)
        == Without(DeliverQuad(p.(quads := p.quads[quad.id := filled], network := p.network - multiset{tile.id}),
                               filled, now), quad.id)
  {
  }

  lemma ReplyErase(p: Pipe, tile: Tile, now: nat)
    requires Parent(tile.id) in p.quads && p.quads[Parent(tile.id)].body.nTiles == 3
    requires p.quads[Parent(tile.id)].id == Parent(tile.id)
    requires Parent(tile.id) !in p.queue && Parent(tile.id) !in p.waiting
    ensures DeliverTile(p, tile, now)
         == DeliverQuad(p.(quads := p.quads - {Parent(tile.id)}, network := p.network - multiset{tile.id}),
                        WithTile(p.quads[Parent(tile.id)], tile), now)
  {
    var quad := p.quads[Parent(tile.id)];
    var filled := WithTile(quad, tile);
    var q := p.(quads := p.quads[quad.id := filled], network := p.network - multiset{tile.id});
    FourthTile(p, tile, now, quad);
    EraseCommutes(q, filled, now);
    assert q.quads - {quad.id} == p.quads - {quad.id};
  }

  lemma ReplyCompleteKeeps(p: Pipe, tile: Tile, now: nat)
    requires Inv(p) && tile.id in p.network && p.last <= now
    requires Parent(tile.id) in p.quads && p.quads[Parent(tile.id)].body.nTiles == 3
    ensures Inv(DeliverTile(p, tile, now))
  {
    var parent := Parent(tile.id);
    var erased := p.(quads := p.quads - {parent}, network := p.network - multiset{tile.id});
    ReplyExpected(p, tile);
    AssemblingNotQueued(p, parent);
    ReplyErase(p, tile, now);
    CompletedFlow(p, tile);
    ReplyCompletes(p, tile);
    assert SlotsInv(erased);
    DeliverKeeps(erased, WithTile(p.quads[parent], tile), now);
  }

  lemma ReplyStored(p: Pipe, tile: Tile, now: nat)
    requires Parent(tile.id) in p.quads && p.quads[Parent(tile.id)].body.nTiles < 3
    ensures DeliverTile(p, tile, now)
         == p.(quads := p.quads[Parent(tile.id) := WithTile(p.quads[Parent(tile.id)], tile)],
               network := p.network - multiset{tile.id})
  {
  }

  lemma AssemblyChanges(p: Pipe, quads': map<TileId, DataQuad>, network': multiset<TileId>)
    requires Inv(p) && quads'.Keys == p.quads.Keys && AssemblyInv(quads', network')
    ensures Inv(p.(quads := quads', network := network'))
  {
  }

  lemma ReplyPartialKeeps(p: Pipe, tile: Tile, now: nat)
    requires Inv(p) && tile.id in p.network
    requires Parent(tile.id) in p.quads && p.quads[Parent(tile.id)].body.nTiles < 3
    ensures Inv(DeliverTile(p, tile, now))
  {
    var quads' := p.quads[Parent(tile.id) := WithTile(p.quads[Parent(tile.id)], tile)];
    assert quads'.Keys == p.quads.Keys;
    ReplyStored(p, tile, now);
    ReplyAssembly(p, tile);
    AssemblyChanges(p, quads', p.network - multiset{tile.id});
  }

  lemma ReplyKeeps(p: Pipe, tile: Tile, now: nat)
    requires Inv(p) && tile.id in p.network && p.last <= now
    ensures Inv(DeliverTile(p, tile, now))
  {
    ReplyExpected(p, tile);
    if p.quads[Parent(tile.id)].body.nTiles < 3 {
      ReplyPartialKeeps(p, tile, now);
    } else {
      ReplyCompleteKeeps(p, tile, now);
    }
  }

  // ---- what emitting leaves alone, in any state -------------------------------------------------

  lemma {:induction false} EmitAllSlots(p: Pipe, now: nat)
    ensures SameSlots(p, EmitAll(p, now))
    decreases |p.queue|
  {
    if p.queue != [] && |p.window| < p.rate {
      EmitAllSlots(EmitOne(p, now), now);
    }
  }

  lemma RequestQuadFrame(p: Pipe, id: TileId, now: nat)
    ensures var q := RequestQuad(p, id, now);
      q.limit == p.limit && q.inFlight == p.inFlight && q.waiting == p.waiting && q.accepted == p.accepted
      && q.delivered == p.delivered
  {
    EmitAllSlots(p.(queue := p.queue + [id], window := Prune(p.window, Threshold(now, p.period)), last := now), now);
  }

  // ---- the limits are fixed -------------------------------------------------------------------

  /** Limits are never changed, and a rate of zero lets nothing through. */
  ghost predicate SameLimits(p: Pipe, q: Pipe) {
    q.limit == p.limit && q.rate == p.rate && q.period == p.period && (p.rate == 0 ==> q.emitted == p.emitted)
  }

  lemma {:induction false} EmitAllLimits(p: Pipe, now: nat)
    ensures SameLimits(p, EmitAll(p, now))
    decreases |p.queue|
  {
    if p.queue != [] && |p.window| < p.rate {
      EmitAllLimits(EmitOne(p, now), now);
    }
  }

  lemma ProcessLimits(p: Pipe, now: nat)
    ensures SameLimits(p, Process(p, now))
  {
    EmitAllLimits(p.(window := Prune(p.window, Threshold(now, p.period)), last := now), now);
  }

  lemma AcceptLimits(p: Pipe, id: TileId, now: nat)
    ensures SameLimits(p, Accept(p, id, now))
  {
    ProcessLimits(p.(inFlight := p.inFlight + {id}, accepted := p.accepted + [id], queue := p.queue + [id]), now);
  }

  lemma RequestOneLimits(p: Pipe, id: TileId, now: nat) returns (q: Pipe)
    ensures q == RequestOne(p, id, now) && SameLimits(p, q)
  {
    if id in p.inFlight {
      q := p;
    } else if |p.inFlight| >= p.limit {
      q := p.(waiting := p.waiting + [id]);
    } else {
      q := Accept(p, id, now);
      AcceptLimits(p, id, now);
    }
  }

  lemma {:induction false} RequestEachLimits(p: Pipe, ids: seq<TileId>, times: seq<nat>)
    requires |ids| == |times|
    ensures SameLimits(p, RequestEach(p, ids, times))
    decreases |ids|
  {
    if ids != [] {
      var q := RequestOneLimits(p, ids[0], times[0]);
      RequestEachLimits(q, ids[1..], times[1..]);
    }
  }

  lemma DeliverLimits(p: Pipe, quad: DataQuad, now: nat)
    ensures SameLimits(p, DeliverQuad(p, quad, now))
  {
    var q := p.(inFlight := p.inFlight - {quad.id}, delivered := p.delivered + [quad]);
    if q.waiting != [] {
      AcceptLimits(q, q.waiting[0], now);
    }
  }

  lemma ReplyLimits(p: Pipe, tile: Tile, at: nat)
    ensures SameLimits(p, DeliverTile(p, tile, at))
  {
    var quad := QuadAt(p.quads, Parent(tile.id));
    if quad.body.nTiles == 3 {
      var filled := WithTile(quad, tile);
      var q := p.(quads := p.quads[Parent(tile.id) := filled], network := p.network - multiset{tile.id});
      DeliverLimits(q, filled, at);
    }
  }

  lemma StepLimits(p: Pipe, e: Event)
    ensures SameLimits(p, Step(p, e))
  {
    match e
    case Request(ids, times) =>
      if |ids| == |times| {
        RequestEachLimits(p.(waiting := []), ids, times);
      }
    case Timer(now) =>
      ProcessLimits(p.(timer := false), now);
    case Reply(tile, at) =>
      ReplyLimits(p, tile, at);
  }

  // ---- whole runs -----------------------------------------------------------------------------

  lemma StepKeeps(p: Pipe, e: Event)
    requires Inv(p) && Enabled(p, e)
    ensures Inv(Step(p, e))
  {
    match e
    case Request(ids, times) =>
      RequestEachKeeps(p.(waiting := []), ids, times);
    case Timer(now) =>
      ProcessKeeps(p.(timer := false), now);
    case Reply(tile, at) =>
      ReplyKeeps(p, tile, at);
  }

  ghost predicate Legal(p: Pipe, events: seq<Event>) {
    Runs.Legal(Enabled, Step, p, events)
  }

  ghost function Run(p: Pipe, events: seq<Event>): Pipe {
    Runs.Run(Step, p, events)
  }

  /** Every run keeps the invariant: slots, rate queue and assembler partition what is in flight, every quad under
      assembly awaits exactly its missing children, and only complete quads are delivered. */
  lemma RunKeeps(p: Pipe, events: seq<Event>)
    requires Inv(p) && Legal(p, events)
    ensures Inv(Run(p, events)) && SameLimits(p, Run(p, events))
  {
    forall q, e | Inv(q) && Enabled(q, e)
      ensures Inv(Step(q, e))
    {
      StepKeeps(q, e);
    }
    Runs.Keeps(Enabled, Step, Inv, p, events);
    RunLimits(p, events);
  }

  lemma RunLimits(p: Pipe, events: seq<Event>)
    requires Legal(p, events)
    ensures SameLimits(p, Run(p, events))
  {
    ghost var same := (q: Pipe) => SameLimits(p, q);
    forall q, e | same(q) && Enabled(q, e)
      ensures same(Step(q, e))
    {
      StepLimits(q, e);
    }
    Runs.Keeps(Enabled, Step, same, p, events);
  }

  lemma RunFromStart(p: Pipe, events: seq<Event>)
    requires Start(p) && Legal(p, events)
    ensures Inv(Run(p, events)) && SameLimits(p, Run(p, events))
  {
    StartInv(p);
    RunKeeps(p, events);
  }

  /** Between events of any run: what is in flight is the disjoint union of the rate queue and the quads under
      assembly and fits the slots; what was accepted is in flight or delivered, complete; and a reply that may arrive
      next finds room in the array of its quad. */
  lemma RunConserves(p: Pipe, events: seq<Event>, tile: Tile)
    requires Start(p) && Legal(p, events)
    ensures var q := Run(p, events);
      && Elems(q.queue) !! q.quads.Keys && q.inFlight == Elems(q.queue) + q.quads.Keys && |q.inFlight| <= p.limit
      && multiset(q.accepted) == multiset(q.inFlight) + multiset(Ids(q.delivered))
      && (forall quad :: quad in q.delivered ==> Complete(quad))
      && (tile.id in q.network ==> Parent(tile.id) in q.quads && q.quads[Parent(tile.id)].body.nTiles < 4)
  {
    RunFromStart(p, events);
    var above := Parent(tile.id);
    if tile.id in Run(p, events).network {
      ReplyExpected(Run(p, events), tile);
    }
  }

  lemma Prepend(p: Pipe, e: Event, rest: seq<Event>)
    requires Enabled(p, e) && Legal(Step(p, e), rest)
    ensures Legal(p, [e] + rest) && Run(p, [e] + rest) == Run(Step(p, e), rest)
  {
    Runs.Prepend(Enabled, Step, p, e, rest);
  }

  lemma RunConcat(p: Pipe, first: seq<Event>, second: seq<Event>)
    requires Legal(p, first) && Legal(Run(p, first), second)
    ensures Legal(p, first + second) && Run(p, first + second) == Run(Run(p, first), second)
  {
    Runs.Concat(Enabled, Step, p, first, second);
  }
}
