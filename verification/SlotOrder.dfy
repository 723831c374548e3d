/** First come, first served: the order in which requested quads get their slots and leave the rate limiter
    (nucleus/tile/SlotLimiter.cpp, nucleus/tile/RateLimiter.cpp). */
module SlotOrder {
  import opened Seqs
  import opened Tiles
  import opened Quads
  import opened Pipeline
  import D = Draining

  /** The ids outside a set, in their order. */
  ghost function NotIn(ids: seq<TileId>, taken: set<TileId>): seq<TileId>
    decreases |ids|
  {
    if ids == [] then [] else (if ids[0] in taken then [] else [ids[0]]) + NotIn(ids[1..], taken)
  }

  lemma {:induction false} NotInOther(ids: seq<TileId>, taken: set<TileId>, id: TileId)
    requires id !in ids
    ensures NotIn(ids, taken + {id}) == NotIn(ids, taken)
    decreases |ids|
  {
    if ids != [] {
      assert ids == [ids[0]] + ids[1..];
      NotInOther(ids[1..], taken, id);
    }
  }

  /** What has a slot or has had one, in the order of acceptance, and then what waits for one. */
  ghost function Line(p: Pipe): seq<TileId> {
    p.accepted + p.waiting
  }

  /** The waiting ids find no free slot. */
  ghost predicate NoneSkipped(p: Pipe) {
    p.waiting != [] ==> |p.inFlight| >= p.limit
  }

  lemma AcceptLine(p: Pipe, id: TileId, now: nat) returns (q: Pipe)
    requires p.waiting == []
    ensures q == Accept(p, id, now) && q.waiting == [] && q.inFlight == p.inFlight + {id}
    ensures Line(q) == Line(p) + [id]
  {
    q := Accept(p, id, now);
    RequestQuadFrame(p.(inFlight := p.inFlight + {id}, accepted := p.accepted + [id]), id, now);
    assert q.accepted == p.accepted + [id];
  }

  lemma RequestOneLine(p: Pipe, id: TileId, now: nat) returns (q: Pipe)
    requires NoneSkipped(p)
    ensures q == RequestOne(p, id, now) && NoneSkipped(q)
    ensures Line(q) == Line(p) + (if id in p.inFlight then [] else [id])
    ensures q.inFlight == p.inFlight || (q.inFlight == p.inFlight + {id} && id !in p.inFlight)
  {
    if id in p.inFlight {
      q := p;
    } else if |p.inFlight| >= p.limit {
      q := p.(waiting := p.waiting + [id]);
      ConcatAssoc(p.accepted, p.waiting, [id]);
    } else {
      q := AcceptLine(p, id, now);
    }
  }

  lemma {:induction false} RequestEachLine(p: Pipe, ids: seq<TileId>, times: seq<nat>)
    requires NoDup(ids) && |ids| == |times| && NoneSkipped(p)
    ensures Line(RequestEach(p, ids, times)) == Line(p) + NotIn(ids, p.inFlight)
    decreases |ids|
  {
    if ids != [] {
      SplitFirst(ids);
      var q := RequestOneLine(p, ids[0], times[0]);
      RequestEachLine(q, ids[1..], times[1..]);
      NotInOther(ids[1..], p.inFlight, ids[0]);
      ConcatAssoc(Line(p), if ids[0] in p.inFlight then [] else [ids[0]], NotIn(ids[1..], p.inFlight));
    }
  }

  /** A request replaces what was waiting: the line grows by the ids that are not in flight, in their order. */
  lemma RequestLine(p: Pipe, ids: seq<TileId>, times: seq<nat>)
    requires NoDup(ids) && |ids| == |times|
    ensures Line(RequestQuads(p, ids, times)) == p.accepted + NotIn(ids, p.inFlight)
  {
    RequestEachLine(p.(waiting := []), ids, times);
    assert p.accepted + [] == p.accepted;
  }

  lemma ProcessLine(p: Pipe, now: nat)
    ensures Line(Process(p, now)) == Line(p)
  {
    EmitAllSlots(p.(window := Prune(p.window, Threshold(now, p.period)), last := now), now);
  }

  lemma DeliverLine(p: Pipe, quad: DataQuad, now: nat)
    ensures Line(DeliverQuad(p, quad, now)) == Line(p)
  {
    var q := p.(inFlight := p.inFlight - {quad.id}, delivered := p.delivered + [quad]);
    if q.waiting != [] {
      var head := q.waiting[0];
      RequestQuadFrame(q.(inFlight := q.inFlight + {head}, accepted := q.accepted + [head]), head, now);
      assert q.waiting == [head] + q.waiting[1..];
      ConcatAssoc(q.accepted, [head], q.waiting[1..]);
    }
  }

  /** Until the next request nobody in the line overtakes anybody. */
  lemma QuietLine(p: Pipe, e: Event)
    requires !e.Request?
    ensures Line(Step(p, e)) == Line(p)
  {
    match e
    case Timer(now) => ProcessLine(p.(timer := false), now);
    case Reply(tile, at) =>
      var quad := QuadAt(p.quads, Parent(tile.id));
      if quad.body.nTiles == 3 {
        var filled := WithTile(quad, tile);
        DeliverLine(p.(quads := p.quads[Parent(tile.id) := filled], network := p.network - multiset{tile.id}),
                    filled, at);
      }
  }

  lemma {:induction false} QuietRunLine(p: Pipe, events: seq<Event>)
    requires D.NoRequests(events)
    ensures Line(Run(p, events)) == Line(p)
    decreases |events|
  {
    if events != [] {
      QuietLine(p, events[0]);
      assert D.NoRequests(events[1..]);
      QuietRunLine(Step(p, events[0]), events[1..]);
    }
  }

  /** In every run: after a request and whatever follows it before the next one, the rate limiter has let through, in
      this order, a prefix of what was accepted before it and then the requested ids that were not in flight, in the
      order of the request; after that prefix come the rate limiter's queue and the waiting ids. */
  lemma RunServesInOrder(p: Pipe, before: seq<Event>, ids: seq<TileId>, times: seq<nat>, after: seq<Event>)
    requires Start(p) && Legal(p, before) && Legal(Run(p, before), [Request(ids, times)] + after) && D.NoRequests(after)
    ensures var q := Run(p, before); var r := Run(q, [Request(ids, times)] + after);
      EmittedIds(r.emitted) + r.queue + r.waiting == q.accepted + NotIn(ids, q.inFlight)
  {
    var q := Run(p, before);
    var e := Request(ids, times);
    assert ([e] + after)[0] == e && ([e] + after)[1..] == after;
    RunFromStart(p, before);
    RequestLine(q, ids, times);
    QuietRunLine(Step(q, e), after);
    RunKeeps(q, [e] + after);
  }
}
