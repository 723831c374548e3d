/** How the request pipeline runs empty (nucleus/tile/SlotLimiter.cpp, RateLimiter.cpp, QuadAssembler.cpp). */
module Draining {
  import opened Seqs
  import opened Tiles
  import opened Entries
  import opened Quads
  import opened Pipeline

  ghost function Measure(p: Pipe): nat {
    6 * |p.waiting| + 5 * |p.queue| + |p.network|
  }

  lemma {:induction false} EmitAllMeasure(p: Pipe, now: nat)
    ensures var q := EmitAll(p, now);
      && Measure(q) + |q.emitted| == Measure(p) + |p.emitted|
      && |q.emitted| >= |p.emitted| && q.waiting == p.waiting
      && (p.queue != [] && |p.window| < p.rate ==> |q.emitted| > |p.emitted|)
    decreases |p.queue|
  {
    if p.queue != [] && |p.window| < p.rate {
      var q := EmitOne(p, now);
      assert |q.network| == |p.network| + 4;
      EmitAllMeasure(q, now);
    }
  }

  /** Every emission takes one from the measure. */
  lemma TimerMeasure(p: Pipe, now: nat)
    ensures var q := Step(p, Timer(now)); Measure(q) + |q.emitted| == Measure(p) + |p.emitted|
    ensures |Step(p, Timer(now)).emitted| >= |p.emitted|
  {
    EmitAllMeasure(p.(timer := false, window := Prune(p.window, Threshold(now, p.period)), last := now), now);
  }

  lemma AcceptMeasure(p: Pipe, id: TileId, now: nat)
    ensures Measure(Accept(p, id, now)) <= Measure(p) + 5 && Accept(p, id, now).waiting == p.waiting
  {
    var q := p.(inFlight := p.inFlight + {id}, accepted := p.accepted + [id], queue := p.queue + [id],
                window := Prune(p.window, Threshold(now, p.period)), last := now);
    EmitAllMeasure(q, now);
  }

  /** Every reply takes at least one from the measure. */
  lemma ReplyMeasure(p: Pipe, tile: Tile, now: nat)
    requires Inv(p) && tile.id in p.network
    ensures Measure(DeliverTile(p, tile, now)) < Measure(p)
  {
    ReplyExpected(p, tile);
    var quad := p.quads[Parent(tile.id)];
    var filled := WithTile(quad, tile);
    var q := p.(quads := p.quads[Parent(tile.id) := filled], network := p.network - multiset{tile.id});
    assert |q.network| == |p.network| - 1;
    if filled.body.nTiles == 4 && q.waiting != [] {
      var r := q.(inFlight := q.inFlight - {filled.id}, delivered := q.delivered + [filled]);
      AcceptMeasure(r, r.waiting[0], now);
    }
  }

  /** While anything is left, some reply is outstanding or the armed timer can emit: nothing gets stuck. */
  lemma Progress(p: Pipe) returns (e: Event)
    requires Inv(p) && p.rate >= 1 && Measure(p) > 0
    ensures !e.Request? && Enabled(p, e) && Measure(Step(p, e)) < Measure(p)
    ensures e.Timer? ==> p.last < e.now
  {
    if p.network != multiset{} {
      var c :| c in p.network;
      e := Reply(Tile(c, NetworkInfo(Good, 0), ""), p.last);
      ReplyMeasure(p, e.tile, p.last);
    } else {
      NoRepliesNoQuads(p.quads, p.network);
      assert p.inFlight == Elems(p.queue);
      assert p.queue == [] ==> p.inFlight == {};
      var now := p.last + p.period + 1;
      e := Timer(now);
      TimerEmits(p, now);
    }
  }

  lemma NoRepliesNoQuads(quads: map<TileId, DataQuad>, network: multiset<TileId>)
    requires AssemblyInv(quads, network) && network == multiset{}
    ensures quads == map[]
  {
    forall id | id in quads
      ensures false
    {
      var c := StillOutstanding(id, quads[id], network);
    }
  }

  lemma StillOutstanding(id: TileId, quad: DataQuad, network: multiset<TileId>) returns (c: TileId)
    requires Assembling(id, quad, network)
    ensures c in network
  {
    var got := Elems(Arrived(quad));
    NoDupSize(Arrived(quad));
    ChildrenCharacterised(id, id);
    NoDupSize(Children(id));
    if Elems(Children(id)) <= got {
      SubsetSize(Elems(Children(id)), got);
    }
    c :| c in Children(id) && c !in got;
    var k :| 0 <= k < 4 && Children(id)[k] == c;
    assert network[Child(id, k)] == 1;
  }

  lemma LastOfWindow(times: seq<nat>, window: seq<nat>, last: nat, period: nat)
    requires WindowInv(times, window, last, period)
    ensures window != [] ==> window[|window| - 1] <= last
    ensures forall i :: 0 < i < |window| ==> window[i - 1] <= window[i]
  {
    var d := |times| - |window|;
    forall i | 0 < i < |window|
      ensures window[i - 1] <= window[i]
    {
      assert times[d + i - 1] <= times[d + i];
    }
    if window != [] {
      assert window[|window| - 1] == times[d + |window| - 1];
    }
  }

  /** What is left of a non-empty window ends with the same emission. */
  lemma PrunedWindow(window: seq<nat>, now: nat, period: nat)
    requires forall i :: 0 < i < |window| ==> window[i - 1] <= window[i]
    requires period <= now
    ensures var pruned := Prune(window, Threshold(now, period));
      pruned != [] ==>
        window != [] && pruned[|pruned| - 1] == window[|window| - 1] && window[|window| - 1] + period >= now
  {
    var k := PruneSuffix(window, now - period);
    if k < |window| {
      assert window[k..][|window| - k - 1] == window[|window| - 1];
    }
  }

  lemma TimerEmits(p: Pipe, now: nat)
    requires Inv(p) && p.rate >= 1 && p.queue != [] && now > p.last + p.period
    ensures Measure(Step(p, Timer(now))) < Measure(p)
  {
    LastOfWindow(Times(p.emitted), p.window, p.last, p.period);
    PrunedWindow(p.window, now, p.period);
    EmitAllMeasure(p.(timer := false, window := [], last := now), now);
  }

  ghost predicate NoRequests(events: seq<Event>) {
    forall i :: 0 <= i < |events| ==> !events[i].Request?
  }

  lemma DrainStep(p: Pipe) returns (e: Event)
    requires Inv(p) && p.rate >= 1 && Measure(p) > 0
    ensures !e.Request? && Enabled(p, e) && Measure(Step(p, e)) < Measure(p)
    ensures Inv(Step(p, e)) && Step(p, e).rate == p.rate
  {
    e := Progress(p);
    StepKeeps(p, e);
    StepLimits(p, e);
  }

  lemma DrainFrom(p: Pipe, e: Event, rest: seq<Event>) returns (events: seq<Event>)
    requires !e.Request? && Enabled(p, e) && Legal(Step(p, e), rest) && NoRequests(rest)
    ensures Legal(p, events) && NoRequests(events) && |events| == |rest| + 1
    ensures Run(p, events) == Run(Step(p, e), rest)
  {
    Prepend(p, e, rest);
    events := [e] + rest;
  }

  /** Without further requests the pipeline can run empty, and then every id was delivered as often as accepted. */
  lemma {:induction false} Drains(p: Pipe) returns (events: seq<Event>)
    requires Inv(p) && p.rate >= 1
    ensures Legal(p, events) && NoRequests(events) && |events| <= Measure(p)
    ensures Drained(Run(p, events))
    decreases Measure(p)
  {
    if Measure(p) == 0 {
      events := [];
      EmptyWhenZero(p);
    } else {
      var e := DrainStep(p);
      var rest := Drains(Step(p, e));
      events := DrainFrom(p, e, rest);
    }
  }

  ghost predicate Drained(p: Pipe) {
    && p.waiting == [] && p.queue == [] && p.network == multiset{} && p.quads == map[] && p.inFlight == {}
    && multiset(Ids(p.delivered)) == multiset(p.accepted)
  }

  lemma EmptyWhenZero(p: Pipe)
    requires Inv(p) && Measure(p) == 0
    ensures Drained(p)
  {
    NoRepliesNoQuads(p.quads, p.network);
  }

  ghost function Replies(events: seq<Event>): nat
    decreases |events|
  {
    if events == [] then 0 else (if events[0].Reply? then 1 else 0) + Replies(events[1..])
  }

  lemma QuietStep(p: Pipe, e: Event)
    requires Inv(p) && Enabled(p, e) && !e.Request?
    ensures Inv(Step(p, e)) && Measure(Step(p, e)) + (if e.Reply? then 1 else 0) <= Measure(p)
  {
    StepKeeps(p, e);
    match e
    case Timer(now) => TimerMeasure(p, now);
    case Reply(tile, at) => ReplyMeasure(p, tile, at);
  }

  lemma QuietTail(events: seq<Event>)
    requires NoRequests(events) && events != []
    ensures !events[0].Request? && NoRequests(events[1..])
  {
  }

  /** Without further requests no run, in whatever order its events come, has more replies than the measure. */
  lemma {:induction false} QuietRunBounded(p: Pipe, events: seq<Event>)
    requires Inv(p) && Legal(p, events) && NoRequests(events)
    ensures Measure(Run(p, events)) + Replies(events) <= Measure(p)
    decreases |events|
  {
    if events != [] {
      var q := Step(p, events[0]);
      QuietTail(events);
      QuietStep(p, events[0]);
      QuietRunBounded(q, events[1..]);
    }
  }

  // ---- every quiet run ends -------------------------------------------------------------------

  /** How long the latest emission keeps the window from emptying; irrelevant while nothing is queued. */
  ghost function Slack(queue: seq<TileId>, window: seq<nat>, period: nat, last: nat): nat {
    if queue == [] || window == [] || window[|window| - 1] + period < last then 0
    else window[|window| - 1] + period + 1 - last
  }

  ghost function Armed(timer: bool): nat {
    if timer then 1 else 0
  }

  ghost function Rank(p: Pipe): nat {
    (p.period + 3) * Measure(p) + Slack(p.queue, p.window, p.period, p.last) + Armed(p.timer)
  }

  /** A quiet event requests nothing. While something is queued the timer was armed when the clock was last read, for
      at least one millisecond, so it fires strictly later. */
  ghost predicate QuietEvent(p: Pipe, e: Event) {
    Enabled(p, e) && !e.Request? && (e.Timer? && p.queue != [] ==> p.last < e.now)
  }

  ghost predicate QuietRun(p: Pipe, events: seq<Event>)
    decreases |events|
  {
    events != [] ==> QuietEvent(p, events[0]) && QuietRun(Step(p, events[0]), events[1..])
  }

  lemma SlackBound(p: Pipe)
    requires Inv(p)
    ensures Slack(p.queue, p.window, p.period, p.last) <= p.period + 1
  {
    LastOfWindow(Times(p.emitted), p.window, p.last, p.period);
  }

  /** One unit of the measure outweighs slack and timer together. */
  lemma {:induction false} MeasureOutweighs(c: nat, m: nat, m': nat)
    requires m' < m
    ensures c * m' + c <= c * m
  {
    assert c * m == c * (m - 1) + c;
    if m' < m - 1 {
      MeasureOutweighs(c, m - 1, m');
    }
  }

  lemma RankFollowsMeasure(p: Pipe, q: Pipe)
    requires Inv(q) && q.period == p.period && Measure(q) < Measure(p)
    ensures Rank(q) < Rank(p)
  {
    SlackBound(q);
    MeasureOutweighs(p.period + 3, Measure(p), Measure(q));
  }

  lemma NothingEmitted(p: Pipe, now: nat)
    requires |EmitAll(p, now).emitted| == |p.emitted|
    ensures EmitAll(p, now) == p && (p.queue != [] ==> |p.window| >= p.rate)
  {
    EmitAllMeasure(p, now);
  }

  /** As time passes without an emission, the window comes closer to emptying. */
  lemma SlackShrinks(queue: seq<TileId>, window: seq<nat>, period: nat, last: nat, now: nat)
    requires forall i :: 0 < i < |window| ==> window[i - 1] <= window[i]
    requires period <= now && (queue != [] ==> last < now)
    ensures var pruned := Prune(window, Threshold(now, period));
      if queue != [] && pruned != [] then Slack(queue, pruned, period, now) < Slack(queue, window, period, last)
      else Slack(queue, pruned, period, now) == 0
  {
    PrunedWindow(window, now, period);
  }

  /** A timer that lets nothing through is disarmed, or time has passed. */
  lemma IdleTimer(p: Pipe, now: nat)
    requires Inv(p) && p.rate >= 1 && QuietEvent(p, Timer(now))
    requires |Step(p, Timer(now)).emitted| == |p.emitted|
    ensures Rank(Step(p, Timer(now))) < Rank(p)
  {
    var pruned := Prune(p.window, Threshold(now, p.period));
    NothingEmitted(p.(timer := false, window := pruned, last := now), now);
    LastOfWindow(Times(p.emitted), p.window, p.last, p.period);
    SlackShrinks(p.queue, p.window, p.period, p.last, now);
    var q := p.(timer := p.queue != [], window := pruned, last := now);
    assert Step(p, Timer(now)) == q;
    assert Measure(q) == Measure(p);
  }

  lemma QuietRank(p: Pipe, e: Event)
    requires Inv(p) && p.rate >= 1 && QuietEvent(p, e)
    ensures Inv(Step(p, e)) && SameLimits(p, Step(p, e)) && Rank(Step(p, e)) < Rank(p)
  {
    StepKeeps(p, e);
    StepLimits(p, e);
    match e
    case Timer(now) =>
      TimerMeasure(p, now);
      if |Step(p, e).emitted| == |p.emitted| {
        IdleTimer(p, now);
      } else {
        RankFollowsMeasure(p, Step(p, e));
      }
    case Reply(tile, at) =>
      ReplyMeasure(p, tile, at);
      RankFollowsMeasure(p, Step(p, e));
  }

  /** Every quiet run is shorter than the rank it starts from. */
  lemma {:induction false} QuietRunEnds(p: Pipe, events: seq<Event>)
    requires Inv(p) && p.rate >= 1 && QuietRun(p, events)
    ensures Inv(Run(p, events)) && SameLimits(p, Run(p, events))
    ensures |events| + Rank(Run(p, events)) <= Rank(p)
    decreases |events|
  {
    if events != [] {
      QuietRank(p, events[0]);
      QuietRunEnds(Step(p, events[0]), events[1..]);
    }
  }

  /** No quiet event is possible exactly when everything is drained and the timer is off. */
  lemma StuckIsDrained(p: Pipe)
    requires Inv(p) && p.rate >= 1
    ensures (forall e :: !QuietEvent(p, e)) <==> Drained(p) && !p.timer
  {
    if forall e :: !QuietEvent(p, e) {
      assert !QuietEvent(p, Timer(p.last + 1));
      if Measure(p) > 0 {
        var e := Progress(p);
        assert QuietEvent(p, e);
      } else {
        EmptyWhenZero(p);
      }
    }
  }

  /** Without further requests the pipeline runs empty, whatever happens in which order: every quiet run has at most
      `Rank` events, and one that cannot be continued has drained every stage. */
  lemma QuietRunsDrain(p: Pipe, events: seq<Event>)
    requires Inv(p) && p.rate >= 1 && QuietRun(p, events)
    ensures |events| <= Rank(p)
    ensures (forall e :: !QuietEvent(Run(p, events), e)) <==> Drained(Run(p, events)) && !Run(p, events).timer
  {
    QuietRunEnds(p, events);
    StuckIsDrained(Run(p, events));
  }
}
