/** The tile cache object: insertion, tree visits, purging and persistence (nucleus/tile/Cache.h). */
module Caches {
  import opened Seqs
  import opened Tiles
  import opened Entries
  import opened Persistence

  datatype Ranked = Ranked(id: TileId, stamp: nat)

  method HighestFrom(a: array<Ranked>, k: nat) returns (best: nat)
    requires k < a.Length
    ensures k <= best < a.Length
    ensures forall i :: k <= i < a.Length ==> a[best].stamp >= a[i].stamp
  {
    best := k;
    for j := k + 1 to a.Length
      invariant k <= best < a.Length
      invariant forall i :: k <= i < j ==> a[best].stamp >= a[i].stamp
    {
      if a[j].stamp > a[best].stamp {
        best := j;
      }
    }
  }

  method SwapElements(a: array<Ranked>, i: nat, j: nat)
    requires i <= j < a.Length
    modifies a
    ensures multiset(a[..]) == multiset(old(a[..]))
    ensures a[i] == old(a[j]) && a[j] == old(a[i])
    ensures forall k :: 0 <= k < a.Length && k != i && k != j ==> a[k] == old(a[k])
  {
    a[i], a[j] := a[j], a[i];
  }

  /** Partially sorts the array so that nothing before `n` has a lower stamp than anything from `n` on. */
  method NthElement(a: array<Ranked>, n: nat)
    requires n <= a.Length
    modifies a
    ensures multiset(a[..]) == multiset(old(a[..]))
    ensures forall i, j :: 0 <= i < n <= j < a.Length ==> a[i].stamp >= a[j].stamp
  {
    for k := 0 to n
      invariant multiset(a[..]) == multiset(old(a[..]))
      invariant forall i, j :: 0 <= i < k <= j < a.Length ==> a[i].stamp >= a[j].stamp
    {
      var best := HighestFrom(a, k);
      SwapElements(a, k, best);
    }
  }

  ghost function RankedIds(s: seq<Ranked>): seq<TileId> {
    seq(|s|, i requires 0 <= i < |s| => s[i].id)
  }

  /** Every entry of the store is listed once, with its stamp. */
  ghost predicate Lists<T>(s: seq<Ranked>, m: Store<T>) {
    && NoDup(RankedIds(s))
    && Elems(RankedIds(s)) == m.Keys
    && forall r :: r in s ==> r.id in m && r.stamp == m[r.id].meta.visited
  }

  lemma RankedElems(s: seq<Ranked>, t: seq<Ranked>)
    requires Elems(s) <= Elems(t)
    ensures Elems(RankedIds(s)) <= Elems(RankedIds(t))
  {
    forall id | id in RankedIds(s)
      ensures id in RankedIds(t)
    {
      var k :| 0 <= k < |s| && RankedIds(s)[k] == id;
      assert s[k] in Elems(s);
      var l :| 0 <= l < |t| && t[l] == s[k];
      assert RankedIds(t)[l] == id;
    }
  }

  lemma ListedOnce<T>(s: seq<Ranked>, m: Store<T>)
    requires forall r :: r in s ==> r.id in m && r.stamp == m[r.id].meta.visited
    ensures NoDup(s) <==> NoDup(RankedIds(s))
  {
    if NoDup(s) {
      forall i, j | 0 <= i < j < |s|
        ensures RankedIds(s)[i] != RankedIds(s)[j]
      {
        assert s[i] in s && s[j] in s;
      }
    }
    if NoDup(RankedIds(s)) {
      forall i, j | 0 <= i < j < |s|
        ensures s[i] != s[j]
      {
        assert RankedIds(s)[i] != RankedIds(s)[j];
      }
    }
  }

  lemma ListsPermuted<T>(s: seq<Ranked>, t: seq<Ranked>, m: Store<T>)
    requires Lists(s, m) && multiset(s) == multiset(t)
    ensures Lists(t, m)
  {
    ListedOnce(s, m);
    PermutationNoDup(s, t);
    forall r | r in t
      ensures r.id in m && r.stamp == m[r.id].meta.visited
    {
      assert r in Elems(t);
    }
    ListedOnce(t, m);
    RankedElems(s, t);
    RankedElems(t, s);
  }

  lemma RankedInSlice(s: seq<Ranked>, lo: nat, hi: nat, id: TileId) returns (i: nat)
    requires lo <= hi <= |s| && id in RankedIds(s)[lo..hi]
    ensures lo <= i < hi && s[i].id == id && s[i] in s
  {
    var k :| 0 <= k < hi - lo && RankedIds(s)[lo..hi][k] == id;
    i := lo + k;
  }

  /** Dropping what lies behind a partition by stamp is a purge. */
  lemma DropBehind<T>(s: seq<Ranked>, n: nat, m: Store<T>)
    requires Lists(s, m) && |s| == |m| && n < |s|
    requires forall i, j :: 0 <= i < n <= j < |s| ==> s[i].stamp >= s[j].stamp
    ensures IsPurge(m, n, m - Elems(RankedIds(s)[n..]))
    ensures NoDup(RankedIds(s)[n..]) && Elems(RankedIds(s)[n..]) <= m.Keys
  {
    var ids := RankedIds(s);
    var kept := m - Elems(ids[n..]);
    NoDupSplit(ids, n);
    assert kept.Keys == Elems(ids[..n]);
    NoDupSize(ids[..n]);
    forall k, d | k in kept && d in m && d !in kept
      ensures m[k].meta.visited >= m[d].meta.visited
    {
      HigherBefore(s, n, m, k, d);
    }
  }

  lemma HigherBefore<T>(s: seq<Ranked>, n: nat, m: Store<T>, k: TileId, d: TileId)
    requires Lists(s, m) && n <= |s|
    requires forall i, j :: 0 <= i < n <= j < |s| ==> s[i].stamp >= s[j].stamp
    requires k in Elems(RankedIds(s)[..n]) && d in Elems(RankedIds(s)[n..])
    requires k in m && d in m
    ensures m[k].meta.visited >= m[d].meta.visited
  {
    assert RankedIds(s)[..n] == RankedIds(s)[0..n] && RankedIds(s)[n..] == RankedIds(s)[n..|s|];
    var i := RankedInSlice(s, 0, n, k);
    var j := RankedInSlice(s, n, |s|, d);
  }

  // ---- the cache ------------------------------------------------------------------------------

  class Cache<T> {
    const clock: Clock
    const version: string
    var data: Store<T>
    var diskCached: map<TileId, MetaData>

    ghost predicate Valid()
      reads this
    {
      WellKeyed(data)
    }

    constructor (clock: Clock, version: string)
      ensures Valid() && data == map[] && diskCached == map[]
      ensures this.clock == clock && this.version == version
    {
      this.clock, this.version := clock, version;
      data, diskCached := map[], map[];
    }

    method Insert(tile: Named<T>)
      requires Valid()
      modifies this`data, clock
      ensures Valid() && old(clock.now) <= clock.now
      ensures data == old(data)[tile.id := Fresh(tile, clock.now)]
      ensures data[tile.id].data == tile
      ensures data[tile.id].meta == MetaData(Stamp(clock.now, tile.id.zoom), clock.now)
    {
      var timeStamp := clock.Read();
      data := data[tile.id := CacheObject(MetaData(Stamp(timeStamp, tile.id.zoom), timeStamp), tile)];
    }

    predicate Contains(id: TileId)
      reads this
    {
      id in data
    }

    function PeakAt(id: TileId): Named<T>
      requires Contains(id)
      reads this
    {
      data[id].data
    }

    /** Descends from the root through accepted entries, stamping them; `reached` lists them in visiting order. */
    method Visit(functor: Named<T> -> bool) returns (reached: seq<TileId>)
      requires Valid()
      modifies this`data, clock
      ensures Valid() && old(clock.now) <= clock.now
      ensures NoDup(reached) && Elems(reached) == Visited(old(data), functor, ROOT)
      ensures data == Marked(old(data), Elems(reached), clock.now)
      ensures data.Keys == old(data).Keys && forall id :: id in data ==>
                && data[id].data == old(data)[id].data && data[id].meta.created == old(data)[id].meta.created
                && data[id].meta.visited
                   == if id in reached then Stamp(clock.now, id.zoom) else old(data)[id].meta.visited
    {
      var now := clock.Read();
      ghost var bound := ZoomBound(data);
      reached := VisitNode(ROOT, functor, now, bound);
    }

    method VisitNode(node: TileId, functor: Named<T> -> bool, visitedStamp: Msecs, ghost bound: nat)
      returns (reached: seq<TileId>)
      requires Valid() && ZoomsBelow(data, bound)
      modifies this`data
      decreases if node.zoom < bound then bound - node.zoom else 0
      ensures Valid() && ZoomsBelow(data, bound)
      ensures NoDup(reached) && Elems(reached) == Visited(old(data), functor, node)
      ensures data == Marked(old(data), Elems(reached), visitedStamp)
    {
      reached := [];
      if node !in data || !functor(data[node].data) {
        ReachSetEmpty(Accepted(data, functor), data.Keys, node);
        return;
      }
      ghost var before := data;
      ghost var good := Accepted(before, functor);
      var stamp := Stamp(visitedStamp, data[node].data.id.zoom);
      data := data[node := data[node].(meta := data[node].meta.(visited := stamp))];
      reached := [node];
      ElemsOne(node);
      assert data == Marked(before, {node}, visitedStamp);
      for k := 0 to 4
        invariant Valid() && ZoomsBelow(data, bound)
        invariant NoDup(reached) && Elems(reached) == ReachThrough(good, before.Keys, node, k)
        invariant data == Marked(before, Elems(reached), visitedStamp)
      {
        MarkedAccepted(before, Elems(reached), visitedStamp, functor);
        var part := VisitNode(Child(node, k), functor, visitedStamp, bound);
        ReachThroughDisjoint(good, before.Keys, node, k);
        NoDupConcat(reached, part);
        MarkedTwice(before, Elems(reached), Elems(part), visitedStamp);
        reached := reached + part;
      }
      ReachSetStep(good, before.Keys, node);
    }

    /** The entries as an array of ids and stamps, in any order. */
    method ListTiles() returns (tiles: array<Ranked>)
      ensures fresh(tiles) && tiles.Length == |data| && Lists(tiles[..], data)
    {
      tiles := new Ranked[|data|](_ => Ranked(ROOT, 0));
      var remaining, i := data.Keys, 0;
      while remaining != {}
        invariant remaining <= data.Keys && i + |remaining| == tiles.Length == |data|
        invariant Elems(RankedIds(tiles[..i])) == data.Keys - remaining
        invariant NoDup(RankedIds(tiles[..i]))
        invariant forall r :: r in tiles[..i] ==> r.id in data && r.stamp == data[r.id].meta.visited
        decreases remaining
      {
        var id :| id in remaining;
        ghost var listed := tiles[..i];
        assert id !in Elems(RankedIds(listed));
        tiles[i] := Ranked(id, data[id].meta.visited);
        assert tiles[..i + 1] == listed + [Ranked(id, data[id].meta.visited)];
        assert RankedIds(tiles[..i + 1]) == RankedIds(listed) + [id];
        ElemsOne(id);
        NoDupConcat(RankedIds(listed), [id]);
        remaining := remaining - {id};
        i := i + 1;
      }
      assert tiles[..i] == tiles[..];
    }

    /** Erases the entries listed from `first` on and returns their tiles. */
    method EraseFrom(tiles: array<Ranked>, first: nat) returns (purged: seq<Named<T>>)
      requires Valid() && first <= tiles.Length
      requires NoDup(RankedIds(tiles[..])[first..]) && Elems(RankedIds(tiles[..])[first..]) <= data.Keys
      modifies this`data
      ensures Valid() && data == old(data) - Elems(RankedIds(tiles[..])[first..])
      ensures Ids(purged) == RankedIds(tiles[..])[first..]
      ensures forall p :: p in purged ==> p.id in old(data) && p == old(data)[p.id].data
    {
      ghost var ids := RankedIds(tiles[..])[first..];
      purged := [];
      for j := first to tiles.Length
        invariant Valid() && data == old(data) - Elems(ids[..j - first])
        invariant Ids(purged) == ids[..j - first]
        invariant forall p :: p in purged ==> p.id in old(data) && p == old(data)[p.id].data
      {
        ghost var k := j - first;
        var id := tiles[j].id;
        assert id == ids[k] && ids[k] in Elems(ids);
        assert ids[..k + 1] == ids[..k] + [id];
        assert id !in ids[..k];
        purged := purged + [data[id].data];
        data := data - {id};
        ElemsConcat(ids[..k], [id]);
      }
      assert ids[..tiles.Length - first] == ids;
    }

    /** Lists the entries with the ones to be dropped from index `keep` on. */
    method RankTiles(keep: nat) returns (tiles: array<Ranked>)
      requires Valid() && keep < |data|
      ensures fresh(tiles) && tiles.Length == |data|
      ensures NoDup(RankedIds(tiles[..])[keep..]) && Elems(RankedIds(tiles[..])[keep..]) <= data.Keys
      ensures IsPurge(data, keep, data - Elems(RankedIds(tiles[..])[keep..]))
    {
      tiles := ListTiles();
      ghost var listed := tiles[..];
      NthElement(tiles, keep);
      ListsPermuted(listed, tiles[..], data);
      DropBehind(tiles[..], keep, data);
    }

    /** Keeps the `remainingCapacity` entries with the highest stamps and returns the others. */
    method Purge(remainingCapacity: nat) returns (purged: seq<Named<T>>)
      requires Valid()
      modifies this`data
      ensures Valid() && IsPurge(old(data), remainingCapacity, data)
      ensures NoDup(Ids(purged)) && Elems(Ids(purged)) == old(data).Keys - data.Keys
      ensures forall p :: p in purged ==> p.id in old(data) && p == old(data)[p.id].data
    {
      if remainingCapacity >= |data| {
        purged := [];
        assert Ids(purged) == [];
        return;
      }
      var tiles := RankTiles(remainingCapacity);
      ghost var gone := Elems(RankedIds(tiles[..])[remainingCapacity..]);
      RemovedAgain(data.Keys, gone);
      purged := EraseFrom(tiles, remainingCapacity);
      assert data.Keys == old(data).Keys - gone;
    }

    // ---- persistence ----

    /** Deletes the files of tiles that left the cache or changed since the last write. */
    method RemoveOutdated(disk: Disk<T>)
      modifies disk`files
      ensures disk.files == old(disk.files) - Outdated(diskCached, data)
    {
      var remaining := diskCached.Keys;
      ghost var removed: set<TileId> := {};
      while remaining != {}
        invariant remaining <= diskCached.Keys
        invariant removed == Outdated(diskCached, data) - remaining
        invariant disk.files == old(disk.files) - removed
        decreases remaining
      {
        var id :| id in remaining;
        remaining := remaining - {id};
        if id in data && data[id].meta.created == diskCached[id].created {
          continue;
        }
        disk.files := disk.files - {id};
        removed := removed + {id};
      }
    }

    /** Writes the files of new and changed tiles and lists every entry. */
    method WriteChanged(disk: Disk<T>, oldCached: map<TileId, MetaData>)
      modifies disk`files, this`diskCached
      ensures diskCached == Metas(data)
      ensures disk.files == old(disk.files) + NewFiles(oldCached, data, version)
    {
      diskCached := map[];
      var remaining := data.Keys;
      assert data - remaining == map[] && NewFiles(oldCached, data, version) - remaining == map[];
      while remaining != {}
        invariant remaining <= data.Keys
        invariant diskCached == Metas(data - remaining)
        invariant disk.files == old(disk.files) + (NewFiles(oldCached, data, version) - remaining)
        decreases remaining
      {
        var id :| id in remaining;
        MetasStep(data, remaining, id);
        NewFilesStep(old(disk.files), oldCached, data, version, remaining, id);
        remaining := remaining - {id};
        diskCached := diskCached[id := data[id].meta];
        if !(id in oldCached && oldCached[id].created == data[id].meta.created) {
          disk.files := disk.files[id := TileFile(version, data[id].data)];
        }
      }
      assert data - {} == data && NewFiles(oldCached, data, version) - {} == NewFiles(oldCached, data, version);
    }

    method WriteToDisk(disk: Disk<T>)
      modifies disk, this`diskCached
      ensures disk.files == FilesAfterWrite(old(disk.files), old(diskCached), data, version)
      ensures disk.meta == Some(MetaFile(version, Metas(data))) && diskCached == Metas(data)
      ensures forall id :: id in old(diskCached) && id !in data ==> id !in disk.files
      ensures forall id ::
                id in data && !(id in old(diskCached) && old(diskCached)[id].created == data[id].meta.created)
                ==> id in disk.files && disk.files[id] == TileFile(version, data[id].data)
      ensures forall id :: id !in old(diskCached) && id !in data
                ==> (id in disk.files <==> id in old(disk.files))
                    && (id in disk.files ==> disk.files[id] == old(disk.files)[id])
    {
      RemoveOutdated(disk);
      WriteChanged(disk, diskCached);
      disk.meta := Some(MetaFile(version, diskCached));
    }

    method ReadFromDisk(disk: Disk<T>) returns (outcome: ReadOutcome)
      modifies this`data, this`diskCached
      ensures Valid()
      ensures outcome == ReadOk <==> Readable(disk.files, disk.meta, version)
      ensures outcome == ReadOk
         <==> disk.meta.Some? && disk.meta.value.version == version
              && forall id :: id in disk.meta.value.entries ==> id in disk.files && disk.files[id].version == version
      ensures outcome == CannotOpen
              ==> disk.meta.None? || exists id :: id in disk.meta.value.entries && id !in disk.files
      ensures outcome == IncompatibleVersion
              ==> disk.meta.Some? && (disk.meta.value.version != version
                                      || exists id :: id in disk.meta.value.entries && id in disk.files
                                                      && disk.files[id].version != version)
      ensures outcome != ReadOk ==> data == map[] && diskCached == map[]
      ensures outcome == ReadOk ==> diskCached == disk.meta.value.entries
      ensures outcome == ReadOk && WellNamed(disk.files) ==> data == Restored(disk.files, disk.meta.value.entries)
    {
      data, diskCached := map[], map[];
      if disk.meta.None? {
        return CannotOpen;
      }
      if disk.meta.value.version != version {
        return IncompatibleVersion;
      }
      diskCached := disk.meta.value.entries;
      var remaining := diskCached.Keys;
      while remaining != {}
        invariant Valid() && remaining <= diskCached.Keys && diskCached == disk.meta.value.entries
        invariant forall id :: id in diskCached && id !in remaining
                    ==> id in disk.files && disk.files[id].version == version
        invariant WellNamed(disk.files) ==> data == Restored(disk.files, diskCached - remaining)
        decreases remaining
      {
        var id :| id in remaining;
        remaining := remaining - {id};
        if id !in disk.files {
          data, diskCached := map[], map[];
          return CannotOpen;
        }
        if disk.files[id].version != version {
          data, diskCached := map[], map[];
          return IncompatibleVersion;
        }
        var tile := disk.files[id].tile;
        data := data[tile.id := CacheObject(diskCached[id], tile)];
      }
      assert diskCached - {} == diskCached;
      return ReadOk;
    }
  }
}
