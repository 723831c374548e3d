/** Cache entries as values: time stamps, and what visiting and purging make of a store (nucleus/tile/Cache.h). */
module Entries {
  import opened Seqs
  import opened Tiles

  // ---- time and stamps ------------------------------------------------------------------------

  const U64: nat := 0x1_0000_0000_0000_0000

  /** Milliseconds since the epoch; the upper bound keeps a stamp inside 64 bits. */
  type Msecs = t: nat | 1 <= t < 0x200_0000_0000_0000 witness 1

  /** Reads of the system clock never go back. */
  class Clock {
    var now: Msecs

    constructor (start: Msecs)
      ensures now == start
    {
      now := start;
    }

    method Read() returns (t: Msecs)
      modifies this
      ensures t == now && old(now) <= now
    {
      var elapsed: int := *;
      if 0 <= elapsed && now + elapsed < 0x200_0000_0000_0000 {
        now := now + elapsed;
      }
      t := now;
    }
  }

  function Wrapped(v: int): nat {
    v % U64
  }

  /** The visited stamp, in unsigned 64-bit arithmetic: only a negative difference wraps around. */
  function Stamp(now: Msecs, zoom: nat): nat {
    if zoom <= now * 100 then now * 100 - zoom else Wrapped(now * 100 - zoom)
  }

  /** Both cases are the one unsigned difference. */
  lemma StampWraps(now: Msecs, zoom: nat)
    ensures Stamp(now, zoom) == Wrapped(now * 100 - zoom)
  {
  }

  /** Below zoom 100 stamps order entries by later visit first and coarser zoom second. */
  lemma StampOrder(t1: Msecs, z1: nat, t2: Msecs, z2: nat)
    requires z1 < 100 && z2 < 100
    ensures Stamp(t1, z1) < Stamp(t2, z2) <==> t1 < t2 || (t1 == t2 && z1 > z2)
    ensures Stamp(t1, z1) == Stamp(t2, z2) <==> t1 == t2 && z1 == z2
  {
  }

  // ---- entries --------------------------------------------------------------------------------

  datatype Named<T> = Named(id: TileId, body: T)
  datatype MetaData = MetaData(visited: nat, created: nat)
  datatype CacheObject<T> = CacheObject(meta: MetaData, data: Named<T>)
  type Store<T> = map<TileId, CacheObject<T>>

  ghost predicate WellKeyed<T>(m: Store<T>) {
    forall id :: id in m ==> m[id].data.id == id
  }

  ghost function Ids<T>(s: seq<Named<T>>): seq<TileId> {
    seq(|s|, i requires 0 <= i < |s| => s[i].id)
  }

  function Fresh<T>(tile: Named<T>, now: Msecs): CacheObject<T> {
    CacheObject(MetaData(Stamp(now, tile.id.zoom), now), tile)
  }

  /** The entries the functor accepts. */
  ghost function Accepted<T>(m: Store<T>, functor: Named<T> -> bool): iset<TileId> {
    iset id | id in m && functor(m[id].data)
  }

  /** The store after a visit that reached the tiles of `s` at time `now`. */
  ghost function Marked<T>(m: Store<T>, s: set<TileId>, now: Msecs): Store<T> {
    map id | id in m :: if id in s then m[id].(meta := m[id].meta.(visited := Stamp(now, id.zoom))) else m[id]
  }

  ghost function Visited<T>(m: Store<T>, functor: Named<T> -> bool, node: TileId): set<TileId> {
    ReachSet(Accepted(m, functor), m.Keys, node)
  }

  ghost predicate ZoomsBelow<T>(m: Store<T>, bound: nat) {
    forall id :: id in m ==> id.zoom < bound
  }

  /** No entry was visited or created later than `last`. */
  ghost predicate NotAfter<T>(m: Store<T>, last: Msecs) {
    forall id :: id in m ==> m[id].meta.visited <= Stamp(last, id.zoom)
  }

  lemma MarkedTwice<T>(m: Store<T>, a: set<TileId>, b: set<TileId>, now: Msecs)
    ensures Marked(Marked(m, a, now), b, now) == Marked(m, a + b, now)
  {
  }

  lemma MarkedAccepted<T>(m: Store<T>, s: set<TileId>, now: Msecs, functor: Named<T> -> bool)
    ensures Accepted(Marked(m, s, now), functor) == Accepted(m, functor)
    ensures Marked(m, s, now).Keys == m.Keys
    ensures WellKeyed(m) ==> WellKeyed(Marked(m, s, now))
  {
  }

  // ---- purging --------------------------------------------------------------------------------

  /** `kept` is what remains of `m` when the `capacity` highest visited stamps stay. */
  ghost predicate IsPurge<T>(m: Store<T>, capacity: nat, kept: Store<T>) {
    && kept.Keys <= m.Keys
    && (forall id :: id in kept ==> kept[id] == m[id])
    && (|m| <= capacity ==> kept == m)
    && (|m| > capacity ==> |kept| == capacity)
    && (forall k, d {:trigger m[k], m[d]} :: k in kept && d in m && d !in kept
         ==> m[k].meta.visited >= m[d].meta.visited)
  }

  /** Outside the visited set every entry was last visited at `last` or before. */
  ghost predicate OlderOutside<T>(m: Store<T>, visited: set<TileId>, last: Msecs) {
    ZoomsBelow(m, 100) && forall id :: id in m && id !in visited ==> m[id].meta.visited <= Stamp(last, id.zoom)
  }

  /** After a visit at a later time than everything before, visited tiles outrank all others. */
  lemma VisitedOutrank<T>(m: Store<T>, visited: set<TileId>, last: Msecs, now: Msecs, v: TileId, w: TileId)
    requires OlderOutside(m, visited, last) && last < now
    requires v in visited && v in m && w in m && w !in visited
    ensures Marked(m, visited, now)[w].meta.visited < Marked(m, visited, now)[v].meta.visited
  {
    StampOrder(last, w.zoom, now, v.zoom);
  }

  /** Then a purge keeps all visited tiles if they fit. */
  lemma VisitedSurvive<T>(m: Store<T>, visited: set<TileId>, last: Msecs, now: Msecs, capacity: nat, kept: Store<T>)
    requires OlderOutside(m, visited, last) && last < now
    requires visited <= m.Keys && IsPurge(Marked(m, visited, now), capacity, kept)
    requires |visited| <= capacity
    ensures visited <= kept.Keys
  {
    if !(visited <= kept.Keys) {
      var d :| d in visited && d !in kept;
      forall k | k in kept
        ensures k in visited - {d}
      {
        if k !in visited {
          VisitedOutrank(m, visited, last, now, d, k);
        }
      }
      SubsetSize(kept.Keys, visited - {d});
    }
  }

  /** If they fill the capacity, nothing else survives. */
  lemma OnlyVisitedSurvive<T>(m: Store<T>, visited: set<TileId>, last: Msecs, now: Msecs, capacity: nat, kept: Store<T>)
    requires OlderOutside(m, visited, last) && last < now
    requires visited <= m.Keys && IsPurge(Marked(m, visited, now), capacity, kept)
    requires capacity <= |visited| && capacity < |m|
    ensures kept.Keys <= visited
  {
    assert Marked(m, visited, now).Keys == m.Keys;
    if !(kept.Keys <= visited) {
      var k :| k in kept && k !in visited;
      forall v | v in visited
        ensures v in kept.Keys - {k}
      {
        if v !in kept {
          VisitedOutrank(m, visited, last, now, v, k);
        }
      }
      SubsetSize(visited, kept.Keys - {k});
    }
  }

  /** And no surviving visited tile is finer than a visited tile that was dropped. */
  lemma CoarserSurvive<T>(m: Store<T>, visited: set<TileId>, now: Msecs, capacity: nat, kept: Store<T>,
                          k: TileId, d: TileId)
    requires ZoomsBelow(m, 100) && visited <= m.Keys && IsPurge(Marked(m, visited, now), capacity, kept)
    requires k in kept && k in visited && d in visited && d !in kept
    ensures k.zoom <= d.zoom
  {
    StampOrder(now, k.zoom, now, d.zoom);
    assert Marked(m, visited, now)[k].meta.visited == Stamp(now, k.zoom);
    assert Marked(m, visited, now)[d].meta.visited == Stamp(now, d.zoom);
  }

  // ---- inserting ------------------------------------------------------------------------------

  /** An inserted tile counts as created and visited at that time: a visit that reaches it then changes nothing. */
  lemma FreshIsVisited<T>(m: Store<T>, tile: Named<T>, now: Msecs)
    ensures var m' := m[tile.id := Fresh(tile, now)];
      && Marked(m', {tile.id}, now) == m'
      && m'[tile.id].data == tile && m'[tile.id].meta.created == now
  {
  }

  /** A tile inserted later than everything before outranks all others: no purge that keeps anything drops it. */
  lemma FreshSurvives<T>(m: Store<T>, tile: Named<T>, last: Msecs, now: Msecs, capacity: nat, kept: Store<T>)
    requires ZoomsBelow(m, 100) && tile.id.zoom < 100 && NotAfter(m, last) && last < now && capacity >= 1
    requires IsPurge(m[tile.id := Fresh(tile, now)], capacity, kept)
    ensures tile.id in kept
  {
    var m' := m[tile.id := Fresh(tile, now)];
    forall k | k in m && k != tile.id
      ensures m'[k].meta.visited < m'[tile.id].meta.visited
    {
      StampOrder(last, k.zoom, now, tile.id.zoom);
    }
    assert |kept| >= 1;
    var k :| k in kept;
    assert k == tile.id || m'[k].meta.visited < m'[tile.id].meta.visited;
  }

  lemma {:induction false} ZoomBound<T>(m: Store<T>) returns (bound: nat)
    ensures ZoomsBelow(m, bound)
    decreases m.Keys
  {
    if m == map[] {
      return 0;
    }
    var id :| id in m;
    bound := ZoomBound(m - {id});
    assert forall i :: i in m ==> i == id || i in m - {id};
    if bound <= id.zoom {
      bound := id.zoom + 1;
    }
  }
}
