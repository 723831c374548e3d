/** The sliding-window rate bound over whole runs (nucleus/tile/RateLimiter.cpp). */
module Rates {
  import opened Seqs
  import opened Tiles
  import opened Entries
  import opened Quads
  import opened Pipeline
  import Runs

  /** The emissions of a closed time window. */
  ghost function InWindow(times: seq<nat>, from: nat, period: nat): set<nat> {
    set i: nat | i < |times| && from <= times[i] <= from + period
  }

  lemma {:induction false} LeastMember(s: set<nat>) returns (m: nat)
    requires s != {}
    ensures m in s && forall i :: i in s ==> m <= i
  {
    var first :| first in s;
    m := first;
    if s != {first} {
      var other := LeastMember(s - {first});
      m := if other < first then other else first;
      assert forall i :: i in s ==> i == first || i in s - {first};
    }
  }

  ghost function Interval(lo: nat, n: nat): (s: set<nat>)
    ensures |s| == n && forall i: nat :: i in s <==> lo <= i < lo + n
  {
    if n == 0 then {} else Interval(lo, n - 1) + {lo + n - 1}
  }

  /** Spaced emissions put at most `rate` into any closed window of one period. */
  lemma WindowBound(times: seq<nat>, rate: nat, period: nat, from: nat)
    requires Spaced(times, rate, period)
    requires forall i, j :: 0 <= i <= j < |times| ==> times[i] <= times[j]
    ensures |InWindow(times, from, period)| <= rate
  {
    var s := InWindow(times, from, period);
    if s != {} {
      var lo := LeastMember(s);
      forall i | i in s
        ensures i in Interval(lo, rate)
      {
        assert lo <= i;
      }
      SubsetSize(s, Interval(lo, rate));
    }
  }

  lemma {:induction false} SortedThroughout(times: seq<nat>, i: nat, j: nat)
    requires i <= j < |times| && forall k :: 0 < k < |times| ==> times[k - 1] <= times[k]
    ensures times[i] <= times[j]
  {
    if i < j {
      SortedThroughout(times, i, j - 1);
    }
  }

  lemma WindowsBounded(times: seq<nat>, window: seq<nat>, rate: nat, period: nat, last: nat, from: nat)
    requires RateInv(times, window, rate, period, last)
    ensures |InWindow(times, from, period)| <= rate
  {
    forall i, j | 0 <= i <= j < |times|
      ensures times[i] <= times[j]
    {
      SortedThroughout(times, i, j);
    }
    WindowBound(times, rate, period, from);
  }

  lemma InvRateBound(p: Pipe, from: nat)
    requires Inv(p)
    ensures |InWindow(Times(p.emitted), from, p.period)| <= p.rate
    ensures EmittedIds(p.emitted) + p.queue == p.accepted
    ensures p.queue != [] ==> p.timer
  {
    WindowsBounded(Times(p.emitted), p.window, p.rate, p.period, p.last, from);
  }

  /** In every run no closed time window of one period contains more than `rate` emissions, and what was emitted,
      followed by what is queued, is what was requested, in order. */
  lemma RunRateBound(p: Pipe, events: seq<Event>, from: nat)
    requires Start(p) && Legal(p, events)
    ensures |InWindow(Times(Run(p, events).emitted), from, p.period)| <= p.rate
    ensures EmittedIds(Run(p, events).emitted) + Run(p, events).queue == Run(p, events).accepted
    ensures Run(p, events).queue != [] ==> Run(p, events).timer
  {
    RunFromStart(p, events);
    InvRateBound(Run(p, events), from);
  }

  // ---- the rate is used -----------------------------------------------------------------------

  /** Something is queued only while the window is full, and the window holds nothing older than a period. */
  ghost predicate Busy(p: Pipe) {
    && (p.queue != [] ==> |p.window| >= p.rate)
    && forall x :: x in p.window ==> p.last <= x + p.period
  }

  lemma {:induction false} EmitAllBusy(p: Pipe, now: nat)
    requires now == p.last && forall x :: x in p.window ==> p.last <= x + p.period
    ensures Busy(EmitAll(p, now))
    decreases |p.queue|
  {
    if p.queue != [] && |p.window| < p.rate {
      EmitFields(p, now);
      EmitAllBusy(EmitOne(p, now), now);
    }
  }

  lemma ProcessBusy(p: Pipe, now: nat)
    requires p.period <= now
    ensures Busy(Process(p, now))
  {
    var pruned := p.(window := Prune(p.window, Threshold(now, p.period)), last := now);
    forall x | x in pruned.window
      ensures now <= x + p.period
    {
      PruneMember(p.window, Threshold(now, p.period), x);
    }
    EmitAllBusy(pruned, now);
  }

  lemma AcceptBusy(p: Pipe, id: TileId, now: nat)
    requires p.period <= now
    ensures Busy(Accept(p, id, now))
  {
    ProcessBusy(p.(inFlight := p.inFlight + {id}, accepted := p.accepted + [id], queue := p.queue + [id]), now);
  }

  lemma RequestOneBusy(p: Pipe, id: TileId, now: nat)
    requires Busy(p) && p.period <= now
    ensures Busy(RequestOne(p, id, now))
  {
    if id !in p.inFlight && |p.inFlight| < p.limit {
      AcceptBusy(p, id, now);
    }
  }

  lemma {:induction false} RequestEachBusy(p: Pipe, ids: seq<TileId>, times: seq<nat>)
    requires Busy(p) && |ids| == |times| && forall i :: 0 <= i < |times| ==> p.period <= times[i]
    ensures Busy(RequestEach(p, ids, times))
    decreases |ids|
  {
    if ids != [] {
      RequestOneBusy(p, ids[0], times[0]);
      var q := RequestOneLimits(p, ids[0], times[0]);
      RequestEachBusy(q, ids[1..], times[1..]);
    }
  }

  lemma {:induction false} AllLater(last: nat, times: seq<nat>, i: nat)
    requires NotBefore(last, times) && i < |times|
    ensures last <= times[i]
  {
    if i > 0 {
      AllLater(last, times, i - 1);
    }
  }

  lemma DeliverBusy(p: Pipe, quad: DataQuad, now: nat)
    requires Busy(p) && p.period <= now
    ensures Busy(DeliverQuad(p, quad, now))
  {
    if p.waiting != [] {
      AcceptBusy(p.(inFlight := p.inFlight - {quad.id}, delivered := p.delivered + [quad]), p.waiting[0], now);
    }
  }

  lemma ReplyBusy(p: Pipe, tile: Tile, at: nat)
    requires Busy(p) && p.period <= at
    ensures Busy(DeliverTile(p, tile, at))
  {
    var quad := QuadAt(p.quads, Parent(tile.id));
    if quad.body.nTiles == 3 {
      var filled := WithTile(quad, tile);
      DeliverBusy(p.(quads := p.quads[Parent(tile.id) := filled], network := p.network - multiset{tile.id}),
                  filled, at);
    }
  }

  lemma StepBusy(p: Pipe, e: Event)
    requires Inv(p) && Busy(p) && Enabled(p, e)
    ensures Busy(Step(p, e))
  {
    match e
    case Request(ids, times) =>
      forall i | 0 <= i < |times|
        ensures p.period <= times[i]
      {
        AllLater(p.last, times, i);
      }
      RequestEachBusy(p.(waiting := []), ids, times);
    case Timer(now) => ProcessBusy(p.(timer := false), now);
    case Reply(tile, at) => ReplyBusy(p, tile, at);
  }

  lemma RunBusy(p: Pipe, events: seq<Event>)
    requires Start(p) && Legal(p, events)
    ensures Inv(Run(p, events)) && Busy(Run(p, events))
  {
    StartInv(p);
    ghost var busy := (q: Pipe) => Inv(q) && Busy(q);
    forall q, e | busy(q) && Enabled(q, e)
      ensures busy(Step(q, e))
    {
      StepKeeps(q, e);
      StepBusy(q, e);
    }
    Runs.Keeps(Enabled, Step, busy, p, events);
  }

  lemma WindowInside(times: seq<nat>, window: seq<nat>, period: nat, last: nat)
    requires WindowInv(times, window, last, period) && period <= last
    requires forall x :: x in window ==> last <= x + period
    ensures |window| <= |InWindow(times, last - period, period)|
  {
    var d := |times| - |window|;
    forall i | i in Interval(d, |window|)
      ensures i in InWindow(times, last - period, period)
    {
      assert times[i] == times[d..][i - d] && window[i - d] in window;
    }
    SubsetSize(Interval(d, |window|), InWindow(times, last - period, period));
  }

  /** While something is queued, exactly `rate` emissions lie in the period up to the last use of the clock. */
  ghost predicate RateUsed(q: Pipe, rate: nat, period: nat) {
    && period <= q.last
    && (q.queue != [] ==> |InWindow(Times(q.emitted), q.last - period, period)| == rate)
  }

  lemma WindowFull(times: seq<nat>, window: seq<nat>, rate: nat, period: nat, last: nat)
    requires RateInv(times, window, rate, period, last) && |window| >= rate
    requires forall x :: x in window ==> last <= x + period
    ensures period <= last && |InWindow(times, last - period, period)| == rate
  {
    WindowsBounded(times, window, rate, period, last, last - period);
    WindowInside(times, window, period, last);
  }

  lemma BusyRate(p: Pipe, q: Pipe)
    requires Inv(q) && Busy(q) && SameLimits(p, q)
    ensures RateUsed(q, p.rate, p.period)
  {
    assert RateInv(Times(q.emitted), q.window, q.rate, q.period, q.last);
    if q.queue != [] {
      WindowFull(Times(q.emitted), q.window, q.rate, q.period, q.last);
    }
  }

  /** No request waits without need. */
  lemma RunRateUsed(p: Pipe, events: seq<Event>)
    requires Start(p) && Legal(p, events)
    ensures RateUsed(Run(p, events), p.rate, p.period)
  {
    RunBusy(p, events);
    RunLimits(p, events);
    BusyRate(p, Run(p, events));
  }

  // ---- an early clock -------------------------------------------------------------------------

  lemma {:induction false} PruneMember(window: seq<nat>, threshold: int, x: nat)
    ensures x in Prune(window, threshold) <==> x in window && x >= threshold
  {
    if window != [] {
      PruneMember(window[1..], threshold, x);
    }
  }

  /** An emission inside the current period is remembered exactly when the clock is at least one period past zero:
      before that the subtraction wraps around and everything is forgotten. */
  lemma PruneExact(window: seq<nat>, x: nat, now: nat, period: nat)
    requires x in window && x <= now <= x + period && now < U64 && period < U64
    ensures x in Prune(window, Threshold(now, period)) <==> period <= now
  {
    PruneMember(window, Threshold(now, period), x);
  }

  lemma {:induction false} PruneForgets(window: seq<nat>, threshold: int)
    requires forall x :: x in window ==> x < threshold
    ensures Prune(window, threshold) == []
  {
    if window != [] {
      assert window == [window[0]] + window[1..] && window[0] in window;
      assert forall x :: x in window[1..] ==> x in window;
      PruneForgets(window[1..], threshold);
    }
  }

  ghost predicate NoneLater(window: seq<nat>, last: nat) {
    forall x :: x in window ==> x <= last
  }

  /** Nothing is queued or under way. */
  ghost predicate Idle(p: Pipe) {
    && p.limit >= 1 && p.inFlight == {} && p.waiting == [] && p.queue == []
    && p.quads == map[] && p.network == multiset{} && NoneLater(p.window, p.last)
  }

  /** One quad alone is being assembled, and its first k children have arrived. */
  ghost predicate Half(quads: map<TileId, DataQuad>, network: multiset<TileId>, id: TileId, k: nat)
    requires k < 4
  {
    && quads.Keys == {id} && quads[id].id == id && quads[id].body.nTiles == k
    && network == multiset(Children(id)[k..])
  }

  /** Nothing else is queued or under way. */
  ghost predicate Awaiting(p: Pipe, id: TileId, k: nat) {
    && p.limit >= 1 && p.inFlight == {id} && p.waiting == [] && p.queue == [] && NoneLater(p.window, p.last)
    && k < 4 && Half(p.quads, p.network, id, k)
  }

  /** What replies leave alone. */
  ghost predicate SameRate(p: Pipe, q: Pipe) {
    SameLimits(p, q) && q.last == p.last
  }

  function ReplyChild(id: TileId, k: nat, now: nat): Event
    requires k < 4
  {
    Reply(Tile(Child(id, k), NetworkInfo(Good, 0), ""), now)
  }

  lemma LoadAlone(quads: map<TileId, DataQuad>, network: multiset<TileId>, id: TileId)
    requires quads == map[] && network == multiset{}
    ensures Half(quads[id := QuadAt(quads, id).(id := id)], network + multiset(Children(id)), id, 0)
  {
    assert Children(id)[0..] == Children(id);
  }

  /** A single queued request meets an empty window. */
  lemma EmitAlone(p: Pipe, id: TileId, now: nat) returns (q: Pipe)
    requires p.queue == [id] && p.window == [] && p.rate >= 1
    ensures q == EmitAll(p, now) && q == EmitOne(p, now) && q.queue == [] && q.window == [now]
  {
    q := EmitOne(p, now);
    assert [id][1..] == [] && [] + [now] == [now];
    assert EmitAll(q, now) == q;
  }

  lemma ProcessAlone(p: Pipe, id: TileId) returns (q: Pipe)
    requires p.queue == [id] && p.rate >= 1 && Prune(p.window, Threshold(p.last, p.period)) == []
    ensures q == Process(p, p.last) && q == EmitOne(p.(window := []), p.last)
  {
    q := EmitAlone(p.(window := []), id, p.last);
  }

  lemma EmittedAlone(p: Pipe, id: TileId)
    requires Idle(p)
    ensures var q := EmitOne(p.(inFlight := {id}, accepted := p.accepted + [id], queue := [id], window := []), p.last);
      Awaiting(q, id, 0) && SameRate(p.(emitted := q.emitted), q) && Times(q.emitted) == Times(p.emitted) + [p.last]
  {
    assert [id][1..] == [];
    LoadAlone(p.quads, p.network, id);
  }

  /** A request meets an empty pipeline whose window has forgotten everything. */
  lemma AcceptAlone(p: Pipe, id: TileId) returns (q: Pipe)
    requires Idle(p) && p.rate >= 1 && Prune(p.window, Threshold(p.last, p.period)) == []
    ensures q == Accept(p, id, p.last) && Awaiting(q, id, 0) && SameRate(p, q)
    ensures Times(q.emitted) == Times(p.emitted) + [p.last]
  {
    var queued := p.(inFlight := {id}, accepted := p.accepted + [id], queue := [id]);
    assert p.queue + [id] == [id] && p.inFlight + {id} == {id};
    q := ProcessAlone(queued, id);
    EmittedAlone(p, id);
  }

  lemma RequestAlone(p: Pipe, id: TileId, now: nat)
    requires p.waiting == [] && p.inFlight == {} && p.limit >= 1
    ensures Step(p, Request([id], [now])) == Accept(p, id, now)
  {
    var q := p.(waiting := []);
    assert q == p && [id][1..] == [] && [now][1..] == [];
    assert RequestEach(q, [id], [now]) == RequestEach(RequestOne(q, id, now), [], []);
  }

  /** Before the first period is over a request is always let through. */
  lemma EarlyRequest(p: Pipe, id: TileId)
    requires Idle(p) && p.rate >= 1 && p.last < p.period < U64
    ensures Enabled(p, Request([id], [p.last]))
    ensures var q := Step(p, Request([id], [p.last]));
      Awaiting(q, id, 0) && SameRate(p, q) && Times(q.emitted) == Times(p.emitted) + [p.last]
  {
    PruneForgets(p.window, Threshold(p.last, p.period));
    var q := AcceptAlone(p, id);
    RequestAlone(p, id, p.last);
  }

  lemma DropFirst<T>(s: seq<T>, k: nat)
    requires k < |s|
    ensures s[k] in multiset(s[k..]) && multiset(s[k..]) - multiset{s[k]} == multiset(s[k + 1..])
  {
    assert s[k..] == [s[k]] + s[k + 1..];
  }

  lemma NextChild(id: TileId, k: nat)
    requires k < 4
    ensures Child(id, k) in multiset(Children(id)[k..]) && Parent(Child(id, k)) == id
    ensures multiset(Children(id)[k..]) - multiset{Child(id, k)} == multiset(Children(id)[k + 1..])
  {
    ParentChild(id, k);
    DropFirst(Children(id), k);
  }

  lemma EarlyReply(p: Pipe, id: TileId, k: nat) returns (q: Pipe)
    requires Awaiting(p, id, k)
    ensures Enabled(p, ReplyChild(id, k, p.last)) && q == Step(p, ReplyChild(id, k, p.last))
    ensures SameRate(p, q) && q.emitted == p.emitted && if k < 3 then Awaiting(q, id, k + 1) else Idle(q)
  {
    NextChild(id, k);
    if k < 3 {
      q := EarlyStored(p, id, k);
    } else {
      q := EarlyPassedOn(p, id);
    }
  }

  lemma HalfNext(quads: map<TileId, DataQuad>, network: multiset<TileId>, id: TileId, k: nat, tile: Tile)
    requires k < 3 && Half(quads, network, id, k) && tile.id == Child(id, k)
    ensures Half(quads[id := WithTile(quads[id], tile)], network - multiset{tile.id}, id, k + 1)
  {
    NextChild(id, k);
  }

  lemma EarlyStored(p: Pipe, id: TileId, k: nat) returns (q: Pipe)
    requires Awaiting(p, id, k) && k < 3
    ensures q == DeliverTile(p, ReplyChild(id, k, p.last).tile, p.last)
    ensures Awaiting(q, id, k + 1) && SameRate(p, q) && q.emitted == p.emitted
  {
    ParentChild(id, k);
    var tile := ReplyChild(id, k, p.last).tile;
    HalfNext(p.quads, p.network, id, k, tile);
    q := p.(quads := p.quads[id := WithTile(p.quads[id], tile)], network := p.network - multiset{tile.id});
    ReplyStored(p, tile, p.last);
  }

  lemma EarlyPassedOn(p: Pipe, id: TileId) returns (q: Pipe)
    requires Awaiting(p, id, 3)
    ensures q == DeliverTile(p, ReplyChild(id, 3, p.last).tile, p.last)
    ensures Idle(q) && SameRate(p, q) && q.emitted == p.emitted
  {
    NextChild(id, 3);
    NoChildLeft(id);
    var tile := ReplyChild(id, 3, p.last).tile;
    q := p.(quads := map[], network := p.network - multiset{tile.id}, inFlight := {},
            delivered := p.delivered + [WithTile(p.quads[id], tile)]);
    ReplyPassedOn(p, tile, id);
  }

  lemma ReplyPassedOn(p: Pipe, tile: Tile, id: TileId)
    requires Parent(tile.id) == id && p.quads.Keys == {id} && p.quads[id].id == id && p.quads[id].body.nTiles == 3
    requires p.waiting == [] && p.inFlight == {id}
    ensures DeliverTile(p, tile, p.last)
         == p.(quads := map[], network := p.network - multiset{tile.id}, inFlight := {},
               delivered := p.delivered + [WithTile(p.quads[id], tile)])
  {
    var filled := WithTile(p.quads[id], tile);
    assert p.quads[id := filled] - {id} == map[];
    assert p.inFlight - {id} == {};
  }

  lemma NoChildLeft(id: TileId)
    ensures multiset(Children(id)[4..]) == multiset{}
  {
    assert Children(id)[4..] == [];
  }

  lemma {:induction false} EarlyReplies(p: Pipe, id: TileId, k: nat) returns (events: seq<Event>)
    requires Awaiting(p, id, k)
    ensures Legal(p, events) && Idle(Run(p, events))
    ensures SameRate(p, Run(p, events)) && Run(p, events).emitted == p.emitted
    decreases 4 - k
  {
    var e := ReplyChild(id, k, p.last);
    var q := EarlyReply(p, id, k);
    var rest: seq<Event> := [];
    if k < 3 {
      rest := EarlyReplies(q, id, k + 1);
    }
    Prepend(p, e, rest);
    events := [e] + rest;
  }

  /** One request and its four replies, all at the same early time, emit once more. */
  lemma EarlyCycle(p: Pipe, id: TileId) returns (events: seq<Event>)
    requires Idle(p) && p.rate >= 1 && p.last < p.period < U64
    ensures Legal(p, events) && Idle(Run(p, events)) && SameRate(p, Run(p, events))
    ensures Times(Run(p, events).emitted) == Times(p.emitted) + [p.last]
  {
    EarlyRequest(p, id);
    var e := Request([id], [p.last]);
    var rest := EarlyReplies(Step(p, e), id, 0);
    Prepend(p, e, rest);
    events := [e] + rest;
  }

  ghost function Repeated(t: nat, n: nat): (s: seq<nat>)
    ensures |s| == n && forall i :: 0 <= i < n ==> s[i] == t
  {
    seq(n, _ => t)
  }

  /** Any number of emissions at one time. */
  lemma {:induction false} EarlyFlood(p: Pipe, n: nat) returns (events: seq<Event>)
    requires Idle(p) && p.rate >= 1 && p.last < p.period < U64
    ensures Legal(p, events) && Times(Run(p, events).emitted) == Times(p.emitted) + Repeated(p.last, n)
    decreases n
  {
    events := [];
    if n > 0 {
      var first := EarlyCycle(p, ROOT);
      var second := EarlyFlood(Run(p, first), n - 1);
      RunConcat(p, first, second);
      events := first + second;
      assert [p.last] + Repeated(p.last, n - 1) == Repeated(p.last, n);
    }
  }

  /** From every early start, whatever the rate and the period, some run exceeds the rate at once. */
  lemma EarlyClockExceedsRate(p: Pipe) returns (events: seq<Event>)
    requires Blank(p) && p.rate >= 1 && p.last < p.period < U64
    ensures Legal(p, events) && |InWindow(Times(Run(p, events).emitted), p.last, p.period)| > p.rate
  {
    events := EarlyFlood(p, p.rate + 1);
    var times := Times(Run(p, events).emitted);
    assert times == Repeated(p.last, p.rate + 1);
    SubsetSize(Interval(0, p.rate + 1), InWindow(times, p.last, p.period));
  }

  /** No closed window of one period in any legal run holds more emissions than the rate. */
  ghost predicate RateRespected(p: Pipe) {
    forall events, from: nat :: Legal(p, events) ==> |InWindow(Times(Run(p, events).emitted), from, p.period)| <= p.rate
  }

  /** The rate limiter respects its rate exactly when nothing may be emitted at all or the clock starts at least
      one period past zero. */
  lemma RateBoundExact(p: Pipe)
    requires Blank(p) && p.period < U64
    ensures RateRespected(p) <==> p.rate == 0 || p.period <= p.last
  {
    if p.period <= p.last {
      forall events, from: nat | Legal(p, events)
        ensures |InWindow(Times(Run(p, events).emitted), from, p.period)| <= p.rate
      {
        RunRateBound(p, events, from);
      }
    } else if p.rate == 0 {
      forall events, from: nat | Legal(p, events)
        ensures |InWindow(Times(Run(p, events).emitted), from, p.period)| <= p.rate
      {
        RunLimits(p, events);
        assert Times(Run(p, events).emitted) == [];
        assert InWindow([], from, p.period) == {};
      }
    } else {
      var events := EarlyClockExceedsRate(p);
      assert Legal(p, events);
    }
  }
}
